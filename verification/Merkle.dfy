/**
 The allocation Merkle tree: sorted-pair hashing, odd nodes promoted, proofs without direction bits.
 The hash function is a parameter. Nothing is assumed of it beyond what `CollisionFree` says about a
 finite set of byte strings that were actually hashed.
 */
module Merkle {
  import opened Bytes

  type Hash = seq<byte> -> Bytes32

  // ---- Hashing -------------------------------------------------------------------------------

  ghost predicate CollisionFree(keccak: Hash, hashed: set<seq<byte>>)
  {
    forall p, q :: p in hashed && q in hashed && keccak(p) == keccak(q) ==> p == q
  }

  // The 64 bytes an internal node hashes: the smaller word first.
  function PairBytes(a: Bytes32, b: Bytes32): seq<byte>
  {
    if Value(a) < Value(b) then a + b else b + a
  }

  function HashPair(keccak: Hash, a: Bytes32, b: Bytes32): Bytes32
  {
    keccak(PairBytes(a, b))
  }

  // The 128 bytes of abi.encode(roundId, index, recipient, amount).
  function RowBytes(roundId: nat, index: nat, recipient: nat, amount: nat): seq<byte>
  {
    Word(roundId) + Word(index) + Word(recipient) + Word(amount)
  }

  function LeafHash(keccak: Hash, roundId: nat, index: nat, recipient: nat, amount: nat): Bytes32
  {
    keccak(keccak(RowBytes(roundId, index, recipient, amount)))
  }

  lemma PairBytesCommute(a: Bytes32, b: Bytes32)
    ensures PairBytes(a, b) == PairBytes(b, a)
  {
    if Value(a) == Value(b) {
      ValueInjective(a, b);
    }
  }

  lemma HashPairCommutes(keccak: Hash, a: Bytes32, b: Bytes32)
    ensures HashPair(keccak, a, b) == HashPair(keccak, b, a)
  {
    PairBytesCommute(a, b);
  }

  lemma PairBytesBindsBoth(a: Bytes32, b: Bytes32, c: Bytes32, d: Bytes32)
    requires PairBytes(a, b) == PairBytes(c, d)
    ensures (a == c && b == d) || (a == d && b == c)
  {
    assert (a + b)[..32] == a && (a + b)[32..] == b;
    assert (b + a)[..32] == b && (b + a)[32..] == a;
    assert (c + d)[..32] == c && (c + d)[32..] == d;
    assert (d + c)[..32] == d && (d + c)[32..] == c;
  }

  lemma RowBytesInjective(r: nat, i: nat, who: nat, amt: nat, r': nat, i': nat, who': nat, amt': nat)
    requires r < UINT256 && i < UINT256 && who < UINT256 && amt < UINT256
    requires r' < UINT256 && i' < UINT256 && who' < UINT256 && amt' < UINT256
    requires RowBytes(r, i, who, amt) == RowBytes(r', i', who', amt')
    ensures r == r' && i == i' && who == who' && amt == amt'
  {
    FourWords(Word(r), Word(i), Word(who), Word(amt));
    FourWords(Word(r'), Word(i'), Word(who'), Word(amt'));
    WordInjective(r, r');
    WordInjective(i, i');
    WordInjective(who, who');
    WordInjective(amt, amt');
  }

  lemma FourWords(a: Bytes32, b: Bytes32, c: Bytes32, d: Bytes32)
    ensures var s := a + b + c + d;
            |s| == 128 && s[..32] == a && s[32..64] == b && s[64..96] == c && s[96..] == d
  {
  }

  // The four fields stand in this order, 32 bytes each, most significant byte first.
  lemma RowBytesLayout(r: nat, i: nat, who: nat, amt: nat)
    requires r < UINT256 && i < UINT256 && who < UINT256 && amt < UINT256
    ensures var s := RowBytes(r, i, who, amt);
            && |s| == 128
            && Value(s[..32]) == r && Value(s[32..64]) == i && Value(s[64..96]) == who && Value(s[96..]) == amt
  {
    FourWords(Word(r), Word(i), Word(who), Word(amt));
    Pow256OfWord();
    PaddedKeepsValue(r, 32);
    PaddedKeepsValue(i, 32);
    PaddedKeepsValue(who, 32);
    PaddedKeepsValue(amt, 32);
  }

  // ---- The tree ------------------------------------------------------------------------------

  function NextLevel(keccak: Hash, level: seq<Bytes32>): (next: seq<Bytes32>)
    ensures |next| == (|level| + 1) / 2
  {
    if |level| <= 1 then level
    else [HashPair(keccak, level[0], level[1])] + NextLevel(keccak, level[2..])
  }

  function Root(keccak: Hash, level: seq<Bytes32>): Bytes32
    requires level != []
    decreases |level|
  {
    if |level| == 1 then level[0] else Root(keccak, NextLevel(keccak, level))
  }

  function Levels(keccak: Hash, level: seq<Bytes32>): (levels: seq<seq<Bytes32>>)
    ensures levels != []
    decreases |level|
  {
    if |level| <= 1 then [level] else [level] + Levels(keccak, NextLevel(keccak, level))
  }

  // idx ^ 1 in two's complement.
  function Sibling(i: int): (s: int)
    ensures i >= 0 ==> s >= 0
    ensures i < 0 ==> s < 0
  {
    if i % 2 == 0 then i + 1 else i - 1
  }

  function Proof(keccak: Hash, level: seq<Bytes32>, i: nat): seq<Bytes32>
    requires i < |level|
    decreases |level|
  {
    if |level| == 1 then [] else SiblingIn(level, i) + Proof(keccak, NextLevel(keccak, level), i / 2)
  }

  function SiblingIn(level: seq<Bytes32>, i: int): seq<Bytes32>
  {
    if 0 <= Sibling(i) < |level| then [level[Sibling(i)]] else []
  }

  // The proof read off stored levels, whatever levels and whatever index: a node without a sibling
  // contributes nothing.
  function ProofFrom(levels: seq<seq<Bytes32>>, i: int): seq<Bytes32>
  {
    if |levels| <= 1 then []
    else SiblingIn(levels[0], i) + ProofFrom(levels[1..], i / 2)
  }

  // The root a leaf and its proof lead to.
  function Climb(keccak: Hash, leaf: Bytes32, proof: seq<Bytes32>): Bytes32
  {
    if proof == [] then leaf
    else HashPair(keccak, Climb(keccak, leaf, proof[..|proof| - 1]), proof[|proof| - 1])
  }

  // The on-chain check, which refuses the zero root.
  predicate Verify(keccak: Hash, root: Bytes32, roundId: nat, index: nat, recipient: nat, amount: nat,
                   proof: seq<Bytes32>)
  {
    root != ZERO32 && Climb(keccak, LeafHash(keccak, roundId, index, recipient, amount), proof) == root
  }

  // The j-th node of the next level up.
  function Parent(keccak: Hash, level: seq<Bytes32>, j: nat): Bytes32
    requires j < (|level| + 1) / 2
  {
    if 2 * j + 1 < |level| then HashPair(keccak, level[2 * j], level[2 * j + 1]) else level[2 * j]
  }

  lemma {:induction false} NextLevelAt(keccak: Hash, level: seq<Bytes32>, j: nat)
    requires j < (|level| + 1) / 2
    ensures NextLevel(keccak, level)[j] == Parent(keccak, level, j)
  {
    if |level| > 1 && j > 0 {
      NextLevelAt(keccak, level[2..], j - 1);
    }
  }

  lemma NextLevelFromParents(keccak: Hash, level: seq<Bytes32>, next: seq<Bytes32>)
    requires |next| == (|level| + 1) / 2 && forall j :: 0 <= j < |next| ==> next[j] == Parent(keccak, level, j)
    ensures next == NextLevel(keccak, level)
  {
    forall j | 0 <= j < |next|
      ensures next[j] == NextLevel(keccak, level)[j]
    {
      NextLevelAt(keccak, level, j);
    }
  }

  // ---- Completeness --------------------------------------------------------------------------

  lemma {:induction false} ClimbFirst(keccak: Hash, leaf: Bytes32, s: Bytes32, proof: seq<Bytes32>)
    ensures Climb(keccak, leaf, [s] + proof) == Climb(keccak, HashPair(keccak, leaf, s), proof)
  {
    if proof == [] {
      assert ([s] + proof)[..0] == [];
    } else {
      ClimbFirst(keccak, leaf, s, proof[..|proof| - 1]);
      assert ([s] + proof)[..|proof|] == [s] + proof[..|proof| - 1];
    }
  }

  // A node with its sibling, or alone, makes its parent.
  lemma ParentOfChild(keccak: Hash, level: seq<Bytes32>, i: nat)
    requires i < |level|
    ensures Sibling(i) < |level| ==> Parent(keccak, level, i / 2) == HashPair(keccak, level[i], level[Sibling(i)])
    ensures Sibling(i) >= |level| ==> Parent(keccak, level, i / 2) == level[i]
  {
    if Sibling(i) < |level| {
      HashPairCommutes(keccak, level[i], level[Sibling(i)]);
    }
  }

  // One level: the leaf's parent takes over with the rest of the proof.
  lemma ClimbOneLevel(keccak: Hash, level: seq<Bytes32>, i: nat, rest: seq<Bytes32>)
    requires i < |level| && |level| > 1
    ensures Climb(keccak, level[i], SiblingIn(level, i) + rest) == Climb(keccak, NextLevel(keccak, level)[i / 2], rest)
  {
    ParentOfChild(keccak, level, i);
    NextLevelAt(keccak, level, i / 2);
    if Sibling(i) < |level| {
      assert SiblingIn(level, i) == [level[Sibling(i)]];
      ClimbFirst(keccak, level[i], level[Sibling(i)], rest);
    } else {
      assert SiblingIn(level, i) + rest == rest;
    }
  }

  // Every generated proof is accepted for its leaf, at every size.
  lemma {:induction false} Completeness(keccak: Hash, level: seq<Bytes32>, i: nat)
    requires i < |level|
    ensures Climb(keccak, level[i], Proof(keccak, level, i)) == Root(keccak, level)
    decreases |level|
  {
    if |level| > 1 {
      var next := NextLevel(keccak, level);
      Completeness(keccak, next, i / 2);
      ClimbOneLevel(keccak, level, i, Proof(keccak, next, i / 2));
    }
  }

  function Pow2(d: nat): (p: nat)
    ensures p > 0
  {
    if d == 0 then 1 else 2 * Pow2(d - 1)
  }

  // A proof has at most ceil(log2 n) elements: at most d whenever n <= 2^d.
  lemma {:induction false} ProofLength(keccak: Hash, level: seq<Bytes32>, i: nat, d: nat)
    requires i < |level| <= Pow2(d)
    ensures |Proof(keccak, level, i)| <= d
    decreases d
  {
    if |level| > 1 {
      ProofLength(keccak, NextLevel(keccak, level), i / 2, d - 1);
    }
  }

  // Building one more level advances a builder loop by one step.
  lemma LevelsAdvance(keccak: Hash, leaves: seq<Bytes32>, done: seq<seq<Bytes32>>, level: seq<Bytes32>)
    requires |level| > 1
    requires Levels(keccak, leaves) == done + Levels(keccak, level)
    ensures Levels(keccak, leaves) == done + [level] + Levels(keccak, NextLevel(keccak, level))
    ensures Root(keccak, level) == Root(keccak, NextLevel(keccak, level))
  {
    var above := Levels(keccak, NextLevel(keccak, level));
    assert Levels(keccak, level) == [level] + above;
    assert done + ([level] + above) == done + [level] + above;
  }

  // Reading one level of a built tree advances a proof loop by one step.
  lemma ProofAdvances(keccak: Hash, levels: seq<seq<Bytes32>>, i: nat, sofar: seq<Bytes32>)
    requires |levels| > 1 && i < |levels[0]| && levels == Levels(keccak, levels[0])
    ensures i / 2 < |levels[1]| && levels[1..] == Levels(keccak, levels[1])
    ensures sofar + Proof(keccak, levels[0], i)
         == sofar + SiblingIn(levels[0], i) + Proof(keccak, levels[1], i / 2)
  {
    var next := NextLevel(keccak, levels[0]);
    assert levels == [levels[0]] + Levels(keccak, next);
    assert levels[1..] == Levels(keccak, next);
    assert levels[1] == levels[1..][0] == next;
    var here := SiblingIn(levels[0], i);
    var above := Proof(keccak, next, i / 2);
    assert Proof(keccak, levels[0], i) == here + above;
    assert sofar + (here + above) == sofar + here + above;
  }

  // Read off the levels of a tree, the proof of a leaf is its proof; outside the tree there is none.
  lemma {:induction false} StoredProof(keccak: Hash, leaves: seq<Bytes32>, i: nat)
    requires i < |leaves|
    ensures ProofFrom(Levels(keccak, leaves), i) == Proof(keccak, leaves, i)
    decreases |leaves|
  {
    if |leaves| > 1 {
      var next := NextLevel(keccak, leaves);
      StoredProof(keccak, next, i / 2);
      assert Levels(keccak, leaves)[1..] == Levels(keccak, next);
    }
  }

  lemma {:induction false} NoNegativeProof(levels: seq<seq<Bytes32>>, i: int)
    requires i < 0
    ensures ProofFrom(levels, i) == []
    decreases |levels|
  {
    if |levels| > 1 {
      NoNegativeProof(levels[1..], i / 2);
    }
  }

  // ---- Shape: the tree of RFC 6962, section 2.1 ----------------------------------------------

  datatype Tree = Tip(hash: Bytes32) | Fork(left: Tree, right: Tree)

  function TreeRoot(keccak: Hash, t: Tree): Bytes32
  {
    match t
    case Tip(h) => h
    case Fork(l, r) => HashPair(keccak, TreeRoot(keccak, l), TreeRoot(keccak, r))
  }

  function Tips(t: Tree): seq<Bytes32>
  {
    match t
    case Tip(h) => [h]
    case Fork(l, r) => Tips(l) + Tips(r)
  }

  // The exponent of the largest power of two below n.
  function SplitExponent(n: nat): (d: nat)
    requires n > 1
    ensures Pow2(d) < n <= Pow2(d + 1)
  {
    if n == 2 then 0 else 1 + SplitExponent((n + 1) / 2)
  }

  function SplitTree(leaves: seq<Bytes32>): Tree
    requires leaves != []
    decreases |leaves|
  {
    if |leaves| == 1 then Tip(leaves[0])
    else
      var k := Pow2(SplitExponent(|leaves|));
      Fork(SplitTree(leaves[..k]), SplitTree(leaves[k..]))
  }

  lemma SplitTreeForks(leaves: seq<Bytes32>)
    requires |leaves| > 1
    ensures var k := Pow2(SplitExponent(|leaves|));
            0 < k < |leaves| && SplitTree(leaves) == Fork(SplitTree(leaves[..k]), SplitTree(leaves[k..]))
  {
  }

  lemma Halves(leaves: seq<Bytes32>, k: nat)
    requires k <= |leaves|
    ensures leaves[..k] + leaves[k..] == leaves
  {
  }

  lemma {:induction false} SplitTreeTips(leaves: seq<Bytes32>)
    requires leaves != []
    ensures Tips(SplitTree(leaves)) == leaves
    decreases |leaves|
  {
    if |leaves| == 1 {
      assert leaves == [leaves[0]];
    } else {
      SplitTreeForks(leaves);
      var k := Pow2(SplitExponent(|leaves|));
      SplitTreeTips(leaves[..k]);
      SplitTreeTips(leaves[k..]);
      Halves(leaves, k);
    }
  }

  // d levels up.
  function Up(keccak: Hash, level: seq<Bytes32>, d: nat): seq<Bytes32>
    decreases d
  {
    if d == 0 then level else Up(keccak, NextLevel(keccak, level), d - 1)
  }

  lemma ParentOfConcat(keccak: Hash, a: seq<Bytes32>, b: seq<Bytes32>, j: nat)
    requires |a| % 2 == 0 && j < (|a| + |b| + 1) / 2
    ensures Parent(keccak, a + b, j)
         == if j < |a| / 2 then Parent(keccak, a, j) else Parent(keccak, b, j - |a| / 2)
  {
    var c, k := a + b, 2 * j;
    if j < |a| / 2 {
      assert c[k] == a[k] && c[k + 1] == a[k + 1];
    } else {
      assert c[k] == b[k - |a|];
      assert k + 1 < |c| ==> c[k + 1] == b[k + 1 - |a|];
    }
  }

  lemma ConcatAt(l: seq<Bytes32>, r: seq<Bytes32>, j: nat)
    requires j < |l| + |r|
    ensures (l + r)[j] == if j < |l| then l[j] else r[j - |l|]
  {
  }

  lemma HalvesJoin(m: nat, n: nat)
    requires m % 2 == 0
    ensures (m + 1) / 2 == m / 2 && (m + 1) / 2 + (n + 1) / 2 == (m + n + 1) / 2
  {
    var k := m / 2;
    assert m == 2 * k;
  }

  // The j-th of the two joined levels is the j-th parent of the joined level below.
  lemma NodeOfConcat(keccak: Hash, a: seq<Bytes32>, b: seq<Bytes32>, l: seq<Bytes32>, r: seq<Bytes32>, j: nat)
    requires |a| % 2 == 0 && l == NextLevel(keccak, a) && r == NextLevel(keccak, b) && j < |l| + |r|
    ensures j < (|a + b| + 1) / 2 && (l + r)[j] == Parent(keccak, a + b, j)
  {
    HalvesJoin(|a|, |b|);
    var half := |l|;
    assert half == |a| / 2;
    ConcatAt(l, r, j);
    ParentOfConcat(keccak, a, b, j);
    if j < half {
      NextLevelAt(keccak, a, j);
    } else {
      NextLevelAt(keccak, b, j - half);
    }
  }

  lemma NextLevelConcat(keccak: Hash, a: seq<Bytes32>, b: seq<Bytes32>)
    requires |a| % 2 == 0
    ensures NextLevel(keccak, a + b) == NextLevel(keccak, a) + NextLevel(keccak, b)
  {
    var l, r := NextLevel(keccak, a), NextLevel(keccak, b);
    HalvesJoin(|a|, |b|);
    forall j: nat | j < |l + r|
      ensures (l + r)[j] == Parent(keccak, a + b, j)
    {
      NodeOfConcat(keccak, a, b, l, r, j);
    }
    NextLevelFromParents(keccak, a + b, l + r);
  }

  lemma HalfOfPow2(d: nat)
    requires d > 0
    ensures Pow2(d) % 2 == 0 && (Pow2(d) + 1) / 2 == Pow2(d - 1)
  {
    var k := Pow2(d - 1);
    assert Pow2(d) == 2 * k;
  }

  lemma {:induction false} UpConcat(keccak: Hash, a: seq<Bytes32>, b: seq<Bytes32>, d: nat)
    requires |a| == Pow2(d)
    ensures Up(keccak, a + b, d) == Up(keccak, a, d) + Up(keccak, b, d)
    decreases d
  {
    if d > 0 {
      HalfOfPow2(d);
      NextLevelConcat(keccak, a, b);
      UpConcat(keccak, NextLevel(keccak, a), NextLevel(keccak, b), d - 1);
    }
  }

  lemma {:induction false} UpReachesRoot(keccak: Hash, level: seq<Bytes32>, d: nat)
    requires 0 < |level| <= Pow2(d)
    ensures Up(keccak, level, d) == [Root(keccak, level)]
    decreases d
  {
    if d > 0 {
      UpReachesRoot(keccak, NextLevel(keccak, level), d - 1);
    }
  }

  lemma {:induction false} UpOneMore(keccak: Hash, level: seq<Bytes32>, d: nat)
    ensures Up(keccak, level, d + 1) == NextLevel(keccak, Up(keccak, level, d))
    decreases d
  {
    if d > 0 {
      UpOneMore(keccak, NextLevel(keccak, level), d - 1);
    }
  }

  lemma RootSplits(keccak: Hash, a: seq<Bytes32>, b: seq<Bytes32>, d: nat)
    requires |a| == Pow2(d) && 0 < |b| <= Pow2(d)
    ensures Root(keccak, a + b) == HashPair(keccak, Root(keccak, a), Root(keccak, b))
  {
    UpReachesRoot(keccak, a + b, d + 1);
    UpOneMore(keccak, a + b, d);
    UpConcat(keccak, a, b, d);
    UpReachesRoot(keccak, a, d);
    UpReachesRoot(keccak, b, d);
    PairLevel(keccak, Root(keccak, a), Root(keccak, b));
  }

  lemma PairLevel(keccak: Hash, x: Bytes32, y: Bytes32)
    ensures NextLevel(keccak, [x] + [y]) == [HashPair(keccak, x, y)]
  {
    assert ([x] + [y])[2..] == [];
  }

  // The level-by-level builder computes the root of the recursive tree.
  lemma {:induction false} LevelsBuildSplitTree(keccak: Hash, leaves: seq<Bytes32>)
    requires leaves != []
    ensures Root(keccak, leaves) == TreeRoot(keccak, SplitTree(leaves))
    decreases |leaves|
  {
    if |leaves| > 1 {
      var d := SplitExponent(|leaves|);
      var a, b := leaves[..Pow2(d)], leaves[Pow2(d)..];
      assert a + b == leaves;
      RootSplits(keccak, a, b, d);
      LevelsBuildSplitTree(keccak, a);
      LevelsBuildSplitTree(keccak, b);
      assert SplitTree(leaves) == Fork(SplitTree(a), SplitTree(b));
    }
  }

  // ---- Soundness -----------------------------------------------------------------------------

  // What building a tree hashes above its leaves.
  function TreePreimages(keccak: Hash, t: Tree): set<seq<byte>>
  {
    match t
    case Tip(_) => {}
    case Fork(l, r) =>
      {PairBytes(TreeRoot(keccak, l), TreeRoot(keccak, r))}
      + TreePreimages(keccak, l) + TreePreimages(keccak, r)
  }

  // What checking a proof hashes above its leaf.
  function ClimbPreimages(keccak: Hash, leaf: Bytes32, proof: seq<Bytes32>): set<seq<byte>>
  {
    if proof == [] then {}
    else
      var init := proof[..|proof| - 1];
      {PairBytes(Climb(keccak, leaf, init), proof[|proof| - 1])} + ClimbPreimages(keccak, leaf, init)
  }

  // A word known to be the hash of a 32-byte string, hence the outer hash of a leaf.
  ghost predicate HashesWord(keccak: Hash, hashed: set<seq<byte>>, leaf: Bytes32)
  {
    exists w: Bytes32 :: w in hashed && keccak(w) == leaf
  }

  // The leaf domain and the node domain are apart: 32 bytes against 64.
  lemma WordIsNoPair(keccak: Hash, hashed: set<seq<byte>>, h: Bytes32, a: Bytes32, b: Bytes32)
    requires CollisionFree(keccak, hashed)
    requires HashesWord(keccak, hashed, h) && PairBytes(a, b) in hashed
    ensures h != HashPair(keccak, a, b)
  {
    var w: Bytes32 :| w in hashed && keccak(w) == h;
    assert |w| != |PairBytes(a, b)|;
  }

  // No proof of any length leads from a word outside the leaves to the root, unless two of the
  // byte strings hashed on the way collide.
  lemma {:induction false} TreeSoundness(keccak: Hash, hashed: set<seq<byte>>, t: Tree, leaf: Bytes32,
                                         proof: seq<Bytes32>)
    requires CollisionFree(keccak, hashed)
    requires TreePreimages(keccak, t) <= hashed && ClimbPreimages(keccak, leaf, proof) <= hashed
    requires HashesWord(keccak, hashed, leaf)
    requires forall h :: h in Tips(t) ==> HashesWord(keccak, hashed, h)
    requires Climb(keccak, leaf, proof) == TreeRoot(keccak, t)
    ensures leaf in Tips(t)
    decreases |proof|
  {
    if proof == [] {
      if t.Fork? {
        WordIsNoPair(keccak, hashed, leaf, TreeRoot(keccak, t.left), TreeRoot(keccak, t.right));
        assert false;
      }
    } else {
      var init, s := proof[..|proof| - 1], proof[|proof| - 1];
      var c := Climb(keccak, leaf, init);
      assert PairBytes(c, s) in hashed;
      match t
      case Tip(h) =>
        WordIsNoPair(keccak, hashed, Tips(t)[0], c, s);
        assert false;
      case Fork(l, r) =>
        assert PairBytes(TreeRoot(keccak, l), TreeRoot(keccak, r)) in hashed;
        PairBytesBindsBoth(c, s, TreeRoot(keccak, l), TreeRoot(keccak, r));
        if c == TreeRoot(keccak, l) {
          TreeSoundness(keccak, hashed, l, leaf, init);
        } else {
          TreeSoundness(keccak, hashed, r, leaf, init);
        }
    }
  }

  // ---- What a generated proof hashes ---------------------------------------------------------

  lemma SiblingInConcat(a: seq<Bytes32>, b: seq<Bytes32>, i: nat)
    requires |a| % 2 == 0 && i < |a| + |b|
    ensures SiblingIn(a + b, i) == if i < |a| then SiblingIn(a, i) else SiblingIn(b, i - |a|)
  {
    var c, k := a + b, Sibling(i);
    if i < |a| {
      assert c[k] == a[k];
    } else {
      assert Sibling(i - |a|) == k - |a|;
      assert k < |c| ==> c[k] == b[k - |a|];
    }
  }

  // The sibling at the top of a proof is the root of the other half.
  lemma {:induction false} LeftProof(keccak: Hash, a: seq<Bytes32>, b: seq<Bytes32>, d: nat, i: nat)
    requires |a| == Pow2(d) && 0 < |b| <= Pow2(d) && i < |a|
    ensures Proof(keccak, a + b, i) == Proof(keccak, a, i) + [Root(keccak, b)]
    decreases d
  {
    if d > 0 {
      HalfOfPow2(d);
      SiblingInConcat(a, b, i);
      NextLevelConcat(keccak, a, b);
      LeftProof(keccak, NextLevel(keccak, a), NextLevel(keccak, b), d - 1, i / 2);
    }
  }

  lemma HalfPast(m: nat, i: nat)
    requires m % 2 == 0
    ensures (m + i) / 2 == (m + 1) / 2 + i / 2
  {
    var k := m / 2;
    assert m == 2 * k;
  }

  // One level of a proof, a lone node included.
  lemma ProofUp(keccak: Hash, level: seq<Bytes32>, i: nat, next: seq<Bytes32>, j: nat)
    requires i < |level| && next == NextLevel(keccak, level) && j == i / 2
    ensures j < |next| && Proof(keccak, level, i) == SiblingIn(level, i) + Proof(keccak, next, j)
  {
  }

  // One level of a proof in the right half.
  lemma RightUp(keccak: Hash, a: seq<Bytes32>, b: seq<Bytes32>, k: nat, i: nat, j: nat)
    requires |a| % 2 == 0 && i < |b| && k == |a| + i && j == |NextLevel(keccak, a)| + i / 2
    ensures j < |NextLevel(keccak, a) + NextLevel(keccak, b)|
    ensures Proof(keccak, a + b, k)
         == SiblingIn(b, i) + Proof(keccak, NextLevel(keccak, a) + NextLevel(keccak, b), j)
  {
    SiblingInConcat(a, b, k);
    NextLevelConcat(keccak, a, b);
    HalfPast(|a|, i);
    ProofUp(keccak, a + b, k, NextLevel(keccak, a) + NextLevel(keccak, b), j);
  }

  lemma PairProof(keccak: Hash, a: seq<Bytes32>, b: seq<Bytes32>)
    requires |a| == |b| == 1
    ensures Proof(keccak, a + b, 1) == [a[0]]
  {
    assert SiblingIn(a + b, 1) == [a[0]];
  }

  // Halves of a level have the halves' sizes.
  lemma HalvedLevels(keccak: Hash, a: seq<Bytes32>, b: seq<Bytes32>, d: nat, i: nat)
    requires d > 0 && |a| == Pow2(d) && 0 < |b| <= Pow2(d) && i < |b|
    ensures |a| % 2 == 0 && |NextLevel(keccak, a)| == Pow2(d - 1)
    ensures i / 2 < |NextLevel(keccak, b)| <= Pow2(d - 1)
    ensures Root(keccak, NextLevel(keccak, a)) == Root(keccak, a)
  {
    HalfOfPow2(d);
  }

  // The i-th proof of the right half, the k-th of all, ends with the root of the left.
  ghost predicate EndsWithLeft(keccak: Hash, a: seq<Bytes32>, b: seq<Bytes32>, k: nat, i: nat)
  {
    && a != [] && i < |b| && k == |a| + i
    && Proof(keccak, a + b, k) == Proof(keccak, b, i) + [Root(keccak, a)]
  }

  lemma {:induction false} RightProof(keccak: Hash, a: seq<Bytes32>, b: seq<Bytes32>, d: nat, k: nat, i: nat)
    requires |a| == Pow2(d) && 0 < |b| <= Pow2(d) && i < |b| && k == |a| + i
    ensures EndsWithLeft(keccak, a, b, k, i)
    decreases d
  {
    if d == 0 {
      PairProof(keccak, a, b);
    } else {
      HalvedLevels(keccak, a, b, d, i);
      var j := |NextLevel(keccak, a)| + i / 2;
      RightProof(keccak, NextLevel(keccak, a), NextLevel(keccak, b), d - 1, j, i / 2);
      RightProofUp(keccak, a, b, k, i, j, i / 2);
    }
  }

  lemma RightProofUp(keccak: Hash, a: seq<Bytes32>, b: seq<Bytes32>, k: nat, i: nat, j: nat, half: nat)
    requires |a| > 1 && |a| % 2 == 0 && i < |b| && half == i / 2 && k == |a| + i
    requires EndsWithLeft(keccak, NextLevel(keccak, a), NextLevel(keccak, b), j, half)
    ensures EndsWithLeft(keccak, a, b, k, i)
  {
    var na, nb := NextLevel(keccak, a), NextLevel(keccak, b);
    RightUp(keccak, a, b, k, i, j);
    ProofUp(keccak, b, i, nb, half);
    RightTop(SiblingIn(b, i), Proof(keccak, nb, half), Root(keccak, na));
  }

  lemma RightTop(s: seq<Bytes32>, above: seq<Bytes32>, top: Bytes32)
    ensures s + (above + [top]) == s + above + [top]
  {
  }

  // Climbing one node further hashes that node.
  lemma ClimbFurther(keccak: Hash, leaf: Bytes32, proof: seq<Bytes32>, s: Bytes32)
    ensures ClimbPreimages(keccak, leaf, proof + [s])
         == {PairBytes(Climb(keccak, leaf, proof), s)} + ClimbPreimages(keccak, leaf, proof)
  {
    assert (proof + [s])[..|proof|] == proof;
  }

  // A proof in a tree of two halves hashes what it does in its own half, and their two roots.
  lemma LeftHalfHashes(keccak: Hash, a: seq<Bytes32>, b: seq<Bytes32>, d: nat, i: nat)
    requires |a| == Pow2(d) && 0 < |b| <= Pow2(d) && i < |a|
    ensures ClimbPreimages(keccak, a[i], Proof(keccak, a + b, i))
         == {PairBytes(Root(keccak, a), Root(keccak, b))} + ClimbPreimages(keccak, a[i], Proof(keccak, a, i))
  {
    LeftProof(keccak, a, b, d, i);
    Completeness(keccak, a, i);
    ClimbFurther(keccak, a[i], Proof(keccak, a, i), Root(keccak, b));
  }

  lemma RightHalfHashes(keccak: Hash, a: seq<Bytes32>, b: seq<Bytes32>, d: nat, k: nat, i: nat)
    requires |a| == Pow2(d) && 0 < |b| <= Pow2(d) && i < |b| && k == |a| + i
    ensures ClimbPreimages(keccak, b[i], Proof(keccak, a + b, k))
         == {PairBytes(Root(keccak, a), Root(keccak, b))} + ClimbPreimages(keccak, b[i], Proof(keccak, b, i))
  {
    RightProof(keccak, a, b, d, k, i);
    Completeness(keccak, b, i);
    ClimbFurther(keccak, b[i], Proof(keccak, b, i), Root(keccak, a));
    PairBytesCommute(Root(keccak, a), Root(keccak, b));
  }

  // What building the tree of two halves hashes.
  lemma ForkHashes(keccak: Hash, leaves: seq<Bytes32>, a: seq<Bytes32>, b: seq<Bytes32>)
    requires |leaves| > 1
    requires var k := Pow2(SplitExponent(|leaves|)); a == leaves[..k] && b == leaves[k..]
    ensures a != [] && b != []
    ensures TreePreimages(keccak, SplitTree(leaves))
         == {PairBytes(Root(keccak, a), Root(keccak, b))}
            + TreePreimages(keccak, SplitTree(a)) + TreePreimages(keccak, SplitTree(b))
  {
    SplitTreeForks(leaves);
    LevelsBuildSplitTree(keccak, a);
    LevelsBuildSplitTree(keccak, b);
  }

  // What the proof of a leaf hashes.
  function ProofPreimages(keccak: Hash, leaves: seq<Bytes32>, i: nat): set<seq<byte>>
    requires i < |leaves|
  {
    ClimbPreimages(keccak, leaves[i], Proof(keccak, leaves, i))
  }

  lemma ProofHashes(keccak: Hash, a: seq<Bytes32>, b: seq<Bytes32>, d: nat, i: nat)
    requires |a| == Pow2(d) && 0 < |b| <= Pow2(d) && i < |a| + |b|
    ensures ProofPreimages(keccak, a + b, i)
         == {PairBytes(Root(keccak, a), Root(keccak, b))}
            + if i < |a| then ProofPreimages(keccak, a, i) else ProofPreimages(keccak, b, i - |a|)
  {
    if i < |a| {
      LeftHalfHashes(keccak, a, b, d, i);
    } else {
      RightHalfHashes(keccak, a, b, d, i, i - |a|);
    }
  }

  // Checking a generated proof hashes nothing that building the tree did not.
  lemma {:induction false} ProofWithinTree(keccak: Hash, leaves: seq<Bytes32>, i: nat)
    requires i < |leaves|
    ensures ProofPreimages(keccak, leaves, i) <= TreePreimages(keccak, SplitTree(leaves))
    decreases |leaves|
  {
    if |leaves| > 1 {
      var d := SplitExponent(|leaves|);
      var a, b := leaves[..Pow2(d)], leaves[Pow2(d)..];
      assert a + b == leaves;
      ForkHashes(keccak, leaves, a, b);
      ProofHashes(keccak, a, b, d, i);
      if i < |a| {
        ProofWithinTree(keccak, a, i);
      } else {
        ProofWithinTree(keccak, b, i - |a|);
      }
    }
  }
}
