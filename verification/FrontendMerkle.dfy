/** The browser's independent implementation of the tree: stride-two loop, trace, disclosure check. */
module FrontendMerkle {
  import opened Bytes
  import opened Merkle

  datatype BuiltTree = ZeroLeaves | BuiltTree(root: Bytes32, levels: seq<seq<Bytes32>>)

  // One level, two nodes at a time.
  method NextLevelByStride(keccak: Hash, level: seq<Bytes32>) returns (next: seq<Bytes32>)
    requires |level| > 1
    ensures next == NextLevel(keccak, level)
  {
    next := [];
    var i := 0;
    while i < |level|
      invariant 0 <= i <= |level| + 1 && i % 2 == 0
      invariant |next| == i / 2
      invariant forall j :: 0 <= j < |next| ==> next[j] == Parent(keccak, level, j)
    {
      if i + 1 < |level| {
        next := next + [HashPair(keccak, level[i], level[i + 1])];
      } else {
        next := next + [level[i]];
      }
      i := i + 2;
    }
    NextLevelFromParents(keccak, level, next);
  }

  method BuildTree(keccak: Hash, leaves: seq<Bytes32>) returns (r: BuiltTree)
    ensures leaves == [] ==> r == ZeroLeaves
    ensures leaves != [] ==> r == BuiltTree(Root(keccak, leaves), Levels(keccak, leaves))
  {
    if |leaves| == 0 {
      return ZeroLeaves;
    }
    var levels := [leaves];
    var level := leaves;
    ghost var done := [];
    while |level| > 1
      invariant |level| > 0
      invariant Root(keccak, level) == Root(keccak, leaves)
      invariant levels == done + [level]
      invariant Levels(keccak, leaves) == done + Levels(keccak, level)
      decreases |level|
    {
      LevelsAdvance(keccak, leaves, done, level);
      done := levels;
      level := NextLevelByStride(keccak, level);
      levels := levels + [level];
    }
    return BuiltTree(level[0], levels);
  }

  // The proof is read off whatever levels are passed; an index with no sibling contributes nothing.
  method BuildProof(keccak: Hash, levels: seq<seq<Bytes32>>, index: int) returns (proof: seq<Bytes32>)
    ensures proof == ProofFrom(levels, index)
    ensures forall leaves :: levels == Levels(keccak, leaves) && 0 <= index < |leaves| ==>
              proof == Proof(keccak, leaves, index)
    ensures index < 0 ==> proof == []
  {
    proof := [];
    var idx, depth := index, 0;
    while depth < |levels| - 1
      invariant 0 <= depth <= |levels|
      invariant proof + ProofFrom(levels[depth..], idx) == ProofFrom(levels, index)
    {
      ProofFromUnfolds(levels[depth..], idx, proof);
      assert levels[depth..][1..] == levels[depth + 1..];
      var level, sibling := levels[depth], Sibling(idx);
      if 0 <= sibling < |level| {
        proof := proof + [level[sibling]];
      } else {
        assert proof + [] == proof;
      }
      idx := idx / 2;
      depth := depth + 1;
    }
    assert proof + [] == proof;
    ProofsOfTrees(keccak, levels, index);
    if index < 0 {
      NoNegativeProof(levels, index);
    }
  }

  lemma ProofFromUnfolds(levels: seq<seq<Bytes32>>, i: int, sofar: seq<Bytes32>)
    requires |levels| > 1
    ensures sofar + ProofFrom(levels, i)
         == sofar + SiblingIn(levels[0], i) + ProofFrom(levels[1..], i / 2)
  {
    var here, above := SiblingIn(levels[0], i), ProofFrom(levels[1..], i / 2);
    assert sofar + (here + above) == sofar + here + above;
  }

  lemma ProofsOfTrees(keccak: Hash, levels: seq<seq<Bytes32>>, index: int)
    ensures forall leaves :: levels == Levels(keccak, leaves) && 0 <= index < |leaves| ==>
              ProofFrom(levels, index) == Proof(keccak, leaves, index)
  {
    forall leaves | levels == Levels(keccak, leaves) && 0 <= index < |leaves|
      ensures ProofFrom(levels, index) == Proof(keccak, leaves, index)
    {
      StoredProof(keccak, leaves, index);
    }
  }

  datatype TraceStep = TraceStep(current: Bytes32, sibling: Bytes32, next: Bytes32, siblingIsLeft: bool)

  // The k-th step consumes the k-th sibling from where the first k siblings lead, and hashes the
  // pair in the order its flag shows.
  ghost predicate TracesStep(keccak: Hash, leaf: Bytes32, proof: seq<Bytes32>, k: nat, step: TraceStep)
    requires k < |proof|
  {
    && step.sibling == proof[k]
    && step.current == Climb(keccak, leaf, proof[..k])
    && step.next == Climb(keccak, leaf, proof[..k + 1])
    && step.next == keccak(if step.siblingIsLeft then step.sibling + step.current
                                                 else step.current + step.sibling)
  }

  lemma TraceOne(keccak: Hash, leaf: Bytes32, proof: seq<Bytes32>, k: nat, current: Bytes32)
    requires k < |proof| && current == Climb(keccak, leaf, proof[..k])
    ensures TracesStep(keccak, leaf, proof, k,
              TraceStep(current, proof[k], HashPair(keccak, current, proof[k]), Value(proof[k]) < Value(current)))
  {
    assert proof[..k + 1][..k] == proof[..k];
    if Value(proof[k]) == Value(current) {
      ValueInjective(proof[k], current);
    }
  }

  method TraceProof(keccak: Hash, root: Bytes32, roundId: nat, index: nat, recipient: nat, amount: nat,
                    proof: seq<Bytes32>)
      returns (steps: seq<TraceStep>, computedRoot: Bytes32, valid: bool)
    ensures |steps| == |proof|
    ensures forall k :: 0 <= k < |steps| ==>
      TracesStep(keccak, LeafHash(keccak, roundId, index, recipient, amount), proof, k, steps[k])
    ensures computedRoot == Climb(keccak, LeafHash(keccak, roundId, index, recipient, amount), proof)
    ensures valid <==> Verify(keccak, root, roundId, index, recipient, amount, proof)
  {
    var leaf := LeafHash(keccak, roundId, index, recipient, amount);
    steps := [];
    var current := leaf;
    for i := 0 to |proof|
      invariant |steps| == i
      invariant current == Climb(keccak, leaf, proof[..i])
      invariant forall k :: 0 <= k < i ==> TracesStep(keccak, leaf, proof, k, steps[k])
    {
      TraceOne(keccak, leaf, proof, i, current);
      var next := HashPair(keccak, current, proof[i]);
      steps := steps + [TraceStep(current, proof[i], next, Value(proof[i]) < Value(current))];
      current := next;
    }
    assert proof[..|proof|] == proof;
    computedRoot := current;
    valid := root != ZERO32 && current == root;
  }

  datatype Disclosure = Disclosure(roundId: nat, index: nat, recipient: nat, amount: nat,
                                   proof: seq<Bytes32>, merkleRoot: Bytes32)

  // A disclosure is good when it names the on-chain root and its own proof reaches it.
  predicate CheckDisclosure(keccak: Hash, d: Disclosure, onChainRoot: Bytes32)
  {
    && d.merkleRoot == onChainRoot
    && Verify(keccak, onChainRoot, d.roundId, d.index, d.recipient, d.amount, d.proof)
  }
}
