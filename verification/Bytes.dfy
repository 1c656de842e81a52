/** Byte strings, 32-byte words and their big-endian value. */
module Bytes {

  type byte = x: int | 0 <= x < 256

  type Bytes32 = s: seq<byte> | |s| == 32 witness Padded(0, 32)

  const ZERO32: Bytes32 := Word(0)

  function Pow256(k: nat): (p: nat)
    ensures p > 0
  {
    if k == 0 then 1 else 256 * Pow256(k - 1)
  }

  // One more than the largest uint256.
  const UINT256: nat := 0x1_00000000_00000000_00000000_00000000_00000000_00000000_00000000_00000000

  // The unsigned integer a byte string denotes, most significant byte first.
  function Value(s: seq<byte>): nat
  {
    if s == [] then 0 else Value(s[..|s| - 1]) * 256 + s[|s| - 1]
  }

  // n left-padded to k bytes.
  function Padded(n: nat, k: nat): (s: seq<byte>)
    ensures |s| == k
  {
    if k == 0 then [] else Padded(n / 256, k - 1) + [n % 256]
  }

  function Word(n: nat): Bytes32
  {
    Padded(n, 32)
  }

  lemma {:induction false} PaddedKeepsValue(n: nat, k: nat)
    requires n < Pow256(k)
    ensures Value(Padded(n, k)) == n
  {
    if k > 0 {
      PaddedKeepsValue(n / 256, k - 1);
      assert Padded(n, k)[..k - 1] == Padded(n / 256, k - 1);
    }
  }

  lemma Pow256OfWord()
    ensures Pow256(32) == UINT256
  {
    assert Pow256(8) == 0x1_00000000_00000000;
    Pow256Adds(8, 8);
    Pow256Adds(16, 16);
  }

  lemma {:induction false} Pow256Adds(a: nat, b: nat)
    ensures Pow256(a + b) == Pow256(a) * Pow256(b)
  {
    if a > 0 {
      Pow256Adds(a - 1, b);
    }
  }

  lemma WordInjective(m: nat, n: nat)
    requires m < UINT256 && n < UINT256
    requires Word(m) == Word(n)
    ensures m == n
  {
    Pow256OfWord();
    PaddedKeepsValue(m, 32);
    PaddedKeepsValue(n, 32);
  }

  lemma {:induction false} ValueInjective(a: seq<byte>, b: seq<byte>)
    requires |a| == |b| && Value(a) == Value(b)
    ensures a == b
  {
    if a != [] {
      var n := |a| - 1;
      ValueInjective(a[..n], b[..n]);
      assert a == a[..n] + [a[n]] && b == b[..n] + [b[n]];
    }
  }

  // The first differing byte decides.
  lemma {:induction false} FirstDifferenceDecides(a: seq<byte>, b: seq<byte>, i: nat)
    requires |a| == |b| && i < |a|
    requires a[..i] == b[..i] && a[i] < b[i]
    ensures Value(a) < Value(b)
  {
    var n := |a| - 1;
    if i == n {
    } else {
      assert a[..n][..i] == a[..i] && b[..n][..i] == b[..i];
      FirstDifferenceDecides(a[..n], b[..n], i);
    }
  }
}
