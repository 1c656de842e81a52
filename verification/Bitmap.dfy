/** One 256-bit word of claim bits, and the words of all rounds as a set of claimed pairs. */
module Bitmap {

  function Pow2(d: nat): (p: nat)
    ensures p > 0
  {
    if d == 0 then 1 else 2 * Pow2(d - 1)
  }

  // word & (1 << bit) != 0
  predicate BitSet(word: nat, bit: nat)
  {
    word / Pow2(bit) % 2 == 1
  }

  // word | (1 << bit)
  function SetBit(word: nat, bit: nat): nat
  {
    if BitSet(word, bit) then word else word + Pow2(bit)
  }

  lemma HalfStep(word: nat, bit: nat)
    requires bit > 0
    ensures word / Pow2(bit) == word / 2 / Pow2(bit - 1)
  {
    var p := Pow2(bit - 1);
    var q, r := word / 2 / p, word / 2 % p;
    assert word / 2 == q * p + r;
    assert word == q * (2 * p) + (2 * r + word % 2);
    Quotient(word, 2 * p, q, 2 * r + word % 2);
  }

  lemma Quotient(a: nat, b: nat, q: nat, r: nat)
    requires b > 0 && r < b && a == q * b + r
    ensures a / b == q
  {
    var d := a / b - q;
    assert a == (a / b) * b + a % b;
    assert d * b == r - a % b;
    Apart(d, b);
  }

  lemma Apart(d: int, b: nat)
    ensures d > 0 ==> d * b >= b
    ensures d < 0 ==> d * b + b <= 0
  {
  }

  // Setting a bit sets that bit and no other.
  lemma {:induction false} SetBitSets(word: nat, bit: nat, other: nat)
    ensures BitSet(SetBit(word, bit), other) <==> other == bit || BitSet(word, other)
    decreases bit
  {
    if bit == 0 {
      if other > 0 {
        HalfStep(word, other);
        HalfStep(SetBit(word, 0), other);
        assert Pow2(0) == 1;
        assert SetBit(word, 0) / 2 == word / 2;
      }
    } else {
      HalfStep(word, bit);
      assert SetBit(word, bit) / 2 == SetBit(word / 2, bit - 1);
      assert SetBit(word, bit) % 2 == word % 2;
      if other > 0 {
        HalfStep(word, other);
        HalfStep(SetBit(word, bit), other);
        SetBitSets(word / 2, bit - 1, other - 1);
      }
    }
  }

  lemma {:induction false} NoBitSet(bit: nat)
    ensures !BitSet(0, bit)
  {
    Quotient(0, Pow2(bit), 0, 0);
  }

  // A word never outgrows its width.
  lemma {:induction false} SetBitInWord(word: nat, bit: nat, width: nat)
    requires word < Pow2(width) && bit < width
    ensures SetBit(word, bit) < Pow2(width)
    decreases bit
  {
    if bit == 0 {
      assert Pow2(0) == 1 && Pow2(width) == 2 * Pow2(width - 1);
    } else {
      HalfStep(word, bit);
      SetBitInWord(word / 2, bit - 1, width - 1);
      assert SetBit(word, bit) / 2 == SetBit(word / 2, bit - 1);
    }
  }

  // ---- Words by round and word index ---------------------------------------------------------

  type Words = map<(nat, nat), nat>

  function WordAt(words: Words, roundId: nat, w: nat): nat
  {
    if (roundId, w) in words then words[(roundId, w)] else 0
  }

  predicate IsClaimed(words: Words, roundId: nat, index: nat)
  {
    BitSet(WordAt(words, roundId, index / 256), index % 256)
  }

  function SetClaimed(words: Words, roundId: nat, index: nat): Words
  {
    words[(roundId, index / 256) := SetBit(WordAt(words, roundId, index / 256), index % 256)]
  }

  // The stored words stand for the set of claimed pairs.
  ghost predicate StandsFor(words: Words, claimed: set<(nat, nat)>)
  {
    forall r: nat, i: nat :: AgreeAt(words, claimed, r, i)
  }

  ghost predicate AgreeAt(words: Words, claimed: set<(nat, nat)>, r: nat, i: nat)
  {
    IsClaimed(words, r, i) <==> (r, i) in claimed
  }

  lemma EmptyStandsForNone()
    ensures StandsFor(map[], {})
  {
    forall r: nat, i: nat
      ensures AgreeAt(map[], {}, r, i)
    {
      NoBitSet(i % 256);
    }
  }

  lemma SetClaimedAt(words: Words, roundId: nat, index: nat, r: nat, i: nat)
    ensures IsClaimed(SetClaimed(words, roundId, index), r, i)
       <==> (r == roundId && i == index) || IsClaimed(words, r, i)
  {
    var w, word := index / 256, WordAt(words, roundId, index / 256);
    var words' := SetClaimed(words, roundId, index);
    if r == roundId && i / 256 == w {
      SetBitSets(word, index % 256, i % 256);
      assert WordAt(words', r, i / 256) == SetBit(word, index % 256);
      assert i == i / 256 * 256 + i % 256 && index == w * 256 + index % 256;
    } else {
      assert WordAt(words', r, i / 256) == WordAt(words, r, i / 256);
    }
  }

  // Claiming adds exactly one pair, across words and rounds.
  lemma SetClaimedAdds(words: Words, claimed: set<(nat, nat)>, roundId: nat, index: nat)
    requires StandsFor(words, claimed)
    ensures StandsFor(SetClaimed(words, roundId, index), claimed + {(roundId, index)})
  {
    forall r: nat, i: nat
      ensures AgreeAt(SetClaimed(words, roundId, index), claimed + {(roundId, index)}, r, i)
    {
      SetClaimedAt(words, roundId, index, r, i);
      assert AgreeAt(words, claimed, r, i);
    }
  }

  // Every stored word fits in 256 bits.
  ghost predicate InWords(words: Words)
  {
    forall k :: k in words ==> words[k] < Pow2(256)
  }

  lemma SetClaimedInWords(words: Words, roundId: nat, index: nat)
    requires InWords(words)
    ensures InWords(SetClaimed(words, roundId, index))
  {
    SetBitInWord(WordAt(words, roundId, index / 256), index % 256, 256);
  }

  function ClaimAll(words: Words, pairs: seq<(nat, nat)>): Words
    decreases |pairs|
  {
    if pairs == [] then words else ClaimAll(SetClaimed(words, pairs[0].0, pairs[0].1), pairs[1..])
  }

  function PairSet(pairs: seq<(nat, nat)>): set<(nat, nat)>
  {
    set p | p in pairs
  }

  lemma {:induction false} ClaimAllClaims(words: Words, claimed: set<(nat, nat)>, pairs: seq<(nat, nat)>)
      returns (all: set<(nat, nat)>)
    requires StandsFor(words, claimed) && InWords(words)
    ensures all == claimed + PairSet(pairs)
    ensures StandsFor(ClaimAll(words, pairs), all) && InWords(ClaimAll(words, pairs))
    decreases |pairs|
  {
    if pairs == [] {
      all := claimed;
    } else {
      var p, tail := pairs[0], pairs[1..];
      SetClaimedAdds(words, claimed, p.0, p.1);
      SetClaimedInWords(words, p.0, p.1);
      all := ClaimAllClaims(SetClaimed(words, p.0, p.1), claimed + {p}, tail);
      PairSets(claimed, pairs);
    }
  }

  lemma PairSets(claimed: set<(nat, nat)>, pairs: seq<(nat, nat)>)
    requires pairs != []
    ensures claimed + {pairs[0]} + PairSet(pairs[1..]) == claimed + PairSet(pairs)
  {
    assert pairs == [pairs[0]] + pairs[1..];
  }

  // Any sequence of claims, from the empty map, claims exactly the pairs named.
  lemma ClaimAllFromEmpty(pairs: seq<(nat, nat)>)
    ensures StandsFor(ClaimAll(map[], pairs), PairSet(pairs))
    ensures InWords(ClaimAll(map[], pairs))
  {
    EmptyStandsForNone();
    var all := ClaimAllClaims(map[], {}, pairs);
    assert all == PairSet(pairs);
  }
}
