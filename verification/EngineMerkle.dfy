/** The engine's tree builder and proof loops, and the contract's proof loop, against `Merkle`. */
module EngineMerkle {
  import opened Bytes
  import opened Merkle

  method BytesLess(a: Bytes32, b: Bytes32) returns (less: bool)
    ensures less <==> Value(a) < Value(b)
  {
    for i := 0 to 32
      invariant a[..i] == b[..i]
    {
      if a[i] != b[i] {
        if a[i] < b[i] {
          FirstDifferenceDecides(a, b, i);
        } else {
          FirstDifferenceDecides(b, a, i);
        }
        return a[i] < b[i];
      }
    }
    assert a == a[..32] && b == b[..32];
    return false;
  }

  method HashPairOf(keccak: Hash, a: Bytes32, b: Bytes32) returns (h: Bytes32)
    ensures h == HashPair(keccak, a, b)
  {
    var less := BytesLess(a, b);
    if less {
      h := keccak(a + b);
    } else {
      h := keccak(b + a);
    }
  }

  method NextLevelOf(keccak: Hash, level: seq<Bytes32>) returns (next: seq<Bytes32>)
    ensures next == NextLevel(keccak, level)
  {
    var n := (|level| + 1) / 2;
    var slots := new Bytes32[n](_ => ZERO32);
    for i := 0 to n
      invariant forall j :: 0 <= j < i ==> slots[j] == Parent(keccak, level, j)
    {
      slots[i] := NodeAt(keccak, level, i);
    }
    next := slots[..];
    NextLevelFromParents(keccak, level, next);
  }

  // One node of the next level: a pair, or an odd node promoted.
  method NodeAt(keccak: Hash, level: seq<Bytes32>, i: nat) returns (node: Bytes32)
    requires i < (|level| + 1) / 2
    ensures node == Parent(keccak, level, i)
  {
    var left := 2 * i;
    var right := left + 1;
    if right < |level| {
      node := HashPairOf(keccak, level[left], level[right]);
    } else {
      node := level[left];
    }
  }

  datatype MerkleTree = MerkleTree(levels: seq<seq<Bytes32>>)

  datatype BuildResult = NoTree | Built(tree: MerkleTree)

  method BuildMerkleTree(keccak: Hash, leaves: seq<Bytes32>) returns (r: BuildResult)
    ensures leaves == [] ==> r == NoTree
    ensures leaves != [] ==> r == Built(MerkleTree(Levels(keccak, leaves)))
  {
    if |leaves| == 0 {
      return NoTree;
    }
    var level := leaves;
    var levels := [level];
    ghost var done := [];
    while |level| > 1
      invariant |level| > 0
      invariant levels == done + [level]
      invariant Levels(keccak, leaves) == done + Levels(keccak, level)
      decreases |level|
    {
      LevelsAdvance(keccak, leaves, done, level);
      done := levels;
      level := NextLevelOf(keccak, level);
      levels := levels + [level];
    }
    return Built(MerkleTree(levels));
  }

  // The last level of a built tree is the root alone.
  lemma {:induction false} LevelsEndInRoot(keccak: Hash, leaves: seq<Bytes32>)
    requires leaves != []
    ensures var levels := Levels(keccak, leaves); levels[|levels| - 1] == [Root(keccak, leaves)]
    decreases |leaves|
  {
    if |leaves| > 1 {
      LevelsEndInRoot(keccak, NextLevel(keccak, leaves));
    }
  }

  method RootOf(keccak: Hash, tree: MerkleTree, ghost leaves: seq<Bytes32>) returns (root: Bytes32)
    requires leaves != [] && tree.levels == Levels(keccak, leaves)
    ensures root == Root(keccak, leaves)
  {
    LevelsEndInRoot(keccak, leaves);
    var last := tree.levels[|tree.levels| - 1];
    root := last[0];
  }

  method ProofOf(keccak: Hash, tree: MerkleTree, index: int, ghost leaves: seq<Bytes32>)
      returns (proof: seq<Bytes32>)
    requires leaves != [] && tree.levels == Levels(keccak, leaves)
    ensures 0 <= index < |leaves| ==> proof == Proof(keccak, leaves, index)
    ensures !(0 <= index < |leaves|) ==> proof == []
  {
    if index < 0 || index >= |tree.levels[0]| {
      return [];
    }
    proof := [];
    var idx: nat := index;
    var depth := 0;
    while depth < |tree.levels| - 1
      invariant 0 <= depth < |tree.levels|
      invariant idx < |tree.levels[depth]|
      invariant tree.levels[depth..] == Levels(keccak, tree.levels[depth])
      invariant proof + Proof(keccak, tree.levels[depth], idx) == Proof(keccak, leaves, index)
    {
      var level := tree.levels[depth];
      var sibling := Sibling(idx);
      ProofAdvances(keccak, tree.levels[depth..], idx, proof);
      assert tree.levels[depth..][1..] == tree.levels[depth + 1..];
      if sibling < |level| {
        proof := proof + [level[sibling]];
      } else {
        assert proof + [] == proof;
      }
      idx := idx / 2;
      depth := depth + 1;
    }
    assert |tree.levels[depth..]| == 1;
  }

  // VerifyProof of the engine and verifyLeaf of the contract library run the same loop.
  method VerifyProof(keccak: Hash, root: Bytes32, leaf: Bytes32, proof: seq<Bytes32>) returns (ok: bool)
    ensures ok <==> Climb(keccak, leaf, proof) == root
  {
    var computed := leaf;
    for i := 0 to |proof|
      invariant computed == Climb(keccak, leaf, proof[..i])
    {
      assert proof[..i + 1][..i] == proof[..i];
      computed := HashPairOf(keccak, computed, proof[i]);
    }
    assert proof[..|proof|] == proof;
    ok := computed == root;
  }
}
