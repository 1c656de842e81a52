/** Printing and parsing of token amounts as decimal strings. */
module Amounts {
  import opened Options

  function Pow10(n: nat): (p: nat)
    ensures p > 0
  {
    if n == 0 then 1 else 10 * Pow10(n - 1)
  }

  predicate IsDigit(c: char)
  {
    '0' <= c <= '9'
  }

  predicate AllDigits(s: string)
  {
    forall i :: 0 <= i < |s| ==> IsDigit(s[i])
  }

  // What a run of digits denotes.
  function NumberOf(s: string): nat
    requires AllDigits(s)
  {
    if s == [] then 0 else NumberOf(s[..|s| - 1]) * 10 + (s[|s| - 1] as int - '0' as int)
  }

  function Digit(n: nat): char
    requires n < 10
  {
    ('0' as int + n) as char
  }

  function ToString(n: nat): (s: string)
    ensures s != [] && AllDigits(s)
  {
    if n < 10 then [Digit(n)] else ToString(n / 10) + [Digit(n % 10)]
  }

  function Zeros(n: nat): (z: string)
    ensures |z| == n && AllDigits(z)
  {
    if n == 0 then "" else Zeros(n - 1) + "0"
  }

  function PadStart(s: string, width: nat): string
  {
    if |s| >= width then s else Zeros(width - |s|) + s
  }

  function PadEnd(s: string, width: nat): string
  {
    if |s| >= width then s else s + Zeros(width - |s|)
  }

  function StripZeros(s: string): (r: string)
    ensures |r| <= |s| && r == s[..|r|]
  {
    if s != [] && s[|s| - 1] == '0' then StripZeros(s[..|s| - 1]) else s
  }

  // The printed fraction: padded to its places, cut to the precision, without trailing zeros.
  function Shown(frac: nat, decimals: nat, precision: nat): string
  {
    var padded := PadStart(ToString(frac), decimals);
    StripZeros(if precision <= |padded| then padded[..precision] else padded)
  }

  function Join(whole: string, fraction: string): string
  {
    if fraction != "" then whole + "." + fraction else whole
  }

  function Fraction(frac: nat, decimals: nat, precision: nat): string
  {
    if frac == 0 then "" else Shown(frac, decimals, precision)
  }

  function Quotient(value: nat, base: nat): nat
    requires base > 0
  {
    value / base
  }

  function Remainder(value: nat, base: nat): nat
    requires base > 0
  {
    value % base
  }

  function Format(value: nat, decimals: nat, precision: nat): string
  {
    Join(ToString(Quotient(value, Pow10(decimals))),
         Fraction(Remainder(value, Pow10(decimals)), decimals, precision))
  }

  // The position of the first dot, or the length.
  function Dot(s: string): (k: nat)
    ensures k <= |s| && (k < |s| ==> s[k] == '.') && forall i :: 0 <= i < k ==> s[i] != '.'
  {
    if s == [] || s[0] == '.' then 0 else 1 + Dot(s[1..])
  }

  // What follows the first dot, or nothing.
  function PastDot(s: string): string
  {
    var k := Dot(s);
    if k < |s| then s[k + 1..] else ""
  }

  function Trim(s: string, white: char -> bool): string
    decreases |s|
  {
    if s != [] && white(s[0]) then Trim(s[1..], white)
    else if s != [] && white(s[|s| - 1]) then Trim(s[..|s| - 1], white)
    else s
  }

  // Digits, with fraction "" when there is no dot.
  function ParsePieces(whole: string, dotted: bool, fraction: string, decimals: nat): Option<nat>
  {
    if whole == "" || !AllDigits(whole) || !AllDigits(fraction) || (dotted && fraction == "") then None
    else if |fraction| > decimals then None
    else Some(NumberOf(whole + PadEnd(fraction, decimals)))
  }

  // None where the source throws: not digits, optionally a dot and more digits; or too many decimals.
  function Parse(value: string, decimals: nat, white: char -> bool): Option<nat>
  {
    var t := Trim(value, white);
    var k := Dot(t);
    ParsePieces(t[..k], k < |t|, PastDot(t), decimals)
  }

  // ---- Digits and numbers --------------------------------------------------------------------

  lemma {:induction false} NumberOfJoin(a: string, b: string)
    requires AllDigits(a) && AllDigits(b)
    ensures AllDigits(a + b) && NumberOf(a + b) == NumberOf(a) * Pow10(|b|) + NumberOf(b)
  {
    if b == [] {
      assert a + b == a;
    } else {
      var n := |b| - 1;
      NumberOfJoin(a, b[..n]);
      assert (a + b)[..|a| + n] == a + b[..n];
      Scale(NumberOf(a), Pow10(n), NumberOf(b[..n]));
    }
  }

  lemma Scale(x: nat, p: nat, y: nat)
    ensures (x * p + y) * 10 == x * (10 * p) + y * 10
  {
  }

  lemma Division(value: nat, base: nat)
    requires base > 0
    ensures value == Quotient(value, base) * base + Remainder(value, base) && Remainder(value, base) < base
  {
  }

  lemma {:induction false} NumberOfString(n: nat)
    ensures NumberOf(ToString(n)) == n
  {
    if n >= 10 {
      NumberOfString(n / 10);
      assert ToString(n)[..|ToString(n)| - 1] == ToString(n / 10);
    }
  }

  lemma {:induction false} NumberOfZeros(n: nat)
    ensures NumberOf(Zeros(n)) == 0
  {
    if n > 0 {
      NumberOfZeros(n - 1);
      assert Zeros(n)[..n - 1] == Zeros(n - 1);
    }
  }

  lemma {:induction false} NumberBelow(s: string)
    requires AllDigits(s)
    ensures NumberOf(s) < Pow10(|s|)
  {
    if s != [] {
      NumberBelow(s[..|s| - 1]);
    }
  }

  lemma {:induction false} StringLength(n: nat, d: nat)
    requires n < Pow10(d) && d > 0
    ensures |ToString(n)| <= d
  {
    if n >= 10 {
      StringLength(n / 10, d - 1);
    }
  }

  lemma {:induction false} ZerosJoin(a: nat, b: nat)
    ensures Zeros(a) + Zeros(b) == Zeros(a + b)
  {
    if b == 0 {
      assert Zeros(a) + "" == Zeros(a);
    } else {
      ZerosJoin(a, b - 1);
      assert Zeros(a) + (Zeros(b - 1) + "0") == (Zeros(a) + Zeros(b - 1)) + "0";
    }
  }

  lemma PadOneZero(s: string, width: nat)
    requires |s| < width
    ensures PadEnd(s + "0", width) == PadEnd(s, width)
  {
    var k := width - |s|;
    ZerosJoin(1, k - 1);
    assert Zeros(1) == Zeros(0) + "0" == "0";
    assert (s + "0") + Zeros(k - 1) == s + ("0" + Zeros(k - 1));
  }

  // Stripping takes zeros only, and padding puts them back.
  lemma {:induction false} StripThenPad(s: string, width: nat)
    requires |s| <= width
    ensures PadEnd(StripZeros(s), width) == PadEnd(s, width)
  {
    if s != [] && s[|s| - 1] == '0' {
      var init := s[..|s| - 1];
      StripThenPad(init, width);
      assert s == init + "0";
      PadOneZero(init, width);
    }
  }

  lemma PadStartNumber(s: string, d: nat)
    requires AllDigits(s) && |s| <= d
    ensures AllDigits(PadStart(s, d)) && |PadStart(s, d)| == d && NumberOf(PadStart(s, d)) == NumberOf(s)
  {
    if |s| < d {
      var z := Zeros(d - |s|);
      NumberOfZeros(d - |s|);
      NumberOfJoin(z, s);
      assert PadStart(s, d) == z + s;
    }
  }

  lemma PadEndNumber(s: string, d: nat)
    requires AllDigits(s) && |s| <= d
    ensures AllDigits(PadEnd(s, d)) && |PadEnd(s, d)| == d && NumberOf(PadEnd(s, d)) == NumberOf(s) * Pow10(d - |s|)
  {
    if |s| < d {
      NumberOfJoin(s, Zeros(d - |s|));
      NumberOfZeros(d - |s|);
    }
  }

  // ---- Parsing what was printed --------------------------------------------------------------

  ghost predicate SaneWhite(white: char -> bool)
  {
    !white('.') && forall c :: IsDigit(c) ==> !white(c)
  }

  lemma TrimKeeps(s: string, white: char -> bool)
    requires s != "" && !white(s[0]) && !white(s[|s| - 1])
    ensures Trim(s, white) == s
  {
  }

  lemma {:induction false} DotInDigits(whole: string, rest: string)
    requires AllDigits(whole)
    ensures Dot(whole + rest) == |whole| + Dot(rest)
  {
    if whole == [] {
      assert whole + rest == rest;
    } else {
      assert IsDigit(whole[0]) && (whole + rest)[0] == whole[0];
      assert (whole + rest)[1..] == whole[1..] + rest;
      DotInDigits(whole[1..], rest);
    }
  }

  lemma PiecesNumber(n: nat, dotted: bool, fraction: string, d: nat)
    requires AllDigits(fraction) && |fraction| <= d && (dotted ==> fraction != "")
    ensures ParsePieces(ToString(n), dotted, fraction, d)
         == Some(n * Pow10(d) + NumberOf(fraction) * Pow10(d - |fraction|))
  {
    NumberOfString(n);
    PadEndNumber(fraction, d);
    NumberOfJoin(ToString(n), PadEnd(fraction, d));
  }

  // Joined digits split at their dot into what they were joined from.
  lemma JoinDot(whole: string, fraction: string)
    requires AllDigits(whole) && whole != "" && AllDigits(fraction)
    ensures var t := Join(whole, fraction);
            && t != "" && IsDigit(t[0]) && IsDigit(t[|t| - 1])
            && Dot(t) == |whole| <= |t| && t[..Dot(t)] == whole
            && (Dot(t) < |t| <==> fraction != "")
            && (Dot(t) < |t| ==> t[Dot(t) + 1..] == fraction)
  {
    var rest := if fraction == "" then "" else "." + fraction;
    var t := whole + rest;
    assert Join(whole, fraction) == t;
    DotInDigits(whole, rest);
    assert t[0] == whole[0];
    if fraction == "" {
      assert t == whole;
    } else {
      assert t[|t| - 1] == fraction[|fraction| - 1];
      assert t[|whole| + 1..] == fraction;
    }
  }

  lemma WholeJoinSplits(whole: string, fraction: string, white: char -> bool)
    requires SaneWhite(white) && AllDigits(whole) && whole != "" && AllDigits(fraction)
    ensures var t := Join(whole, fraction);
            && Trim(t, white) == t && Dot(t) == |whole| <= |t| && t[..Dot(t)] == whole
            && (Dot(t) < |t| <==> fraction != "")
            && (Dot(t) < |t| ==> t[Dot(t) + 1..] == fraction)
  {
    JoinDot(whole, fraction);
    TrimKeeps(Join(whole, fraction), white);
  }

  // The printed string splits at its dot into the digits it was joined from.
  lemma JoinSplits(n: nat, fraction: string, white: char -> bool)
    requires SaneWhite(white) && AllDigits(fraction)
    ensures var t, whole := Join(ToString(n), fraction), ToString(n);
            && Trim(t, white) == t && Dot(t) == |whole| <= |t| && t[..Dot(t)] == whole
            && (Dot(t) < |t| <==> fraction != "")
            && (Dot(t) < |t| ==> t[Dot(t) + 1..] == fraction)
  {
    WholeJoinSplits(ToString(n), fraction, white);
  }

  lemma ParseJoined(n: nat, fraction: string, d: nat, white: char -> bool) returns (w: nat)
    requires SaneWhite(white) && AllDigits(fraction) && |fraction| <= d
    ensures Parse(Join(ToString(n), fraction), d, white) == Some(w)
    ensures w == n * Pow10(d) + NumberOf(fraction) * Pow10(d - |fraction|)
  {
    JoinSplits(n, fraction, white);
    PiecesNumber(n, fraction != "", fraction, d);
    w := n * Pow10(d) + NumberOf(fraction) * Pow10(d - |fraction|);
  }

  // Stripping zeros off the end does not change what the digits denote once padded back.
  lemma StrippedIsHead(head: string, d: nat)
    requires AllDigits(head) && |head| <= d
    ensures var shown := StripZeros(head);
            && AllDigits(shown) && |shown| <= |head|
            && NumberOf(shown) * Pow10(d - |shown|) == NumberOf(head) * Pow10(d - |head|)
  {
    StripThenPad(head, d);
    PadEndNumber(StripZeros(head), d);
    PadEndNumber(head, d);
  }

  // What a stripped prefix of the fraction denotes once padded back.
  lemma StrippedNumber(padded: string, precision: nat, d: nat)
    requires AllDigits(padded) && |padded| == d && precision <= d
    ensures var shown := StripZeros(padded[..precision]);
            && AllDigits(shown) && |shown| <= d
            && NumberOf(shown) * Pow10(d - |shown|) <= NumberOf(padded)
            && NumberOf(padded) - NumberOf(shown) * Pow10(d - |shown|) < Pow10(d - precision)
  {
    var head, tail := padded[..precision], padded[precision..];
    StrippedIsHead(head, d);
    assert padded == head + tail;
    NumberOfJoin(head, tail);
    NumberBelow(tail);
  }

  lemma PaddedFraction(frac: nat, d: nat, precision: nat) returns (padded: string)
    requires 0 < frac < Pow10(d) && precision <= d
    ensures padded == PadStart(ToString(frac), d) && |padded| == d && AllDigits(padded) && NumberOf(padded) == frac
    ensures Fraction(frac, d, precision) == StripZeros(padded[..precision])
  {
    padded := PadStart(ToString(frac), d);
    StringLength(frac, d);
    NumberOfString(frac);
    PadStartNumber(ToString(frac), d);
  }

  lemma FractionNumber(frac: nat, d: nat, precision: nat)
    requires frac < Pow10(d) && precision <= d
    ensures var f := Fraction(frac, d, precision);
            && AllDigits(f) && |f| <= d
            && NumberOf(f) * Pow10(d - |f|) <= frac < NumberOf(f) * Pow10(d - |f|) + Pow10(d - precision)
  {
    if frac > 0 {
      var padded := PaddedFraction(frac, d, precision);
      StrippedNumber(padded, precision, d);
    }
  }

  lemma PiecesWithinPrecision(whole: nat, frac: nat, d: nat, precision: nat, white: char -> bool) returns (w: nat)
    requires SaneWhite(white) && precision <= d && frac < Pow10(d)
    ensures Parse(Join(ToString(whole), Fraction(frac, d, precision)), d, white) == Some(w)
    ensures w <= whole * Pow10(d) + frac < w + Pow10(d - precision)
  {
    FractionNumber(frac, d, precision);
    w := ParseJoined(whole, Fraction(frac, d, precision), d, white);
  }

  // A precision beyond the number of decimals shows all there are.
  lemma FullPrecision(frac: nat, d: nat, precision: nat)
    requires frac < Pow10(d) && precision >= d
    ensures Fraction(frac, d, precision) == Fraction(frac, d, d)
  {
    if frac > 0 {
      var padded := PaddedFraction(frac, d, d);
      CutBeyond(padded, d);
      CutBeyond(padded, precision);
    }
  }

  // Cutting at the length, or not at all.
  lemma CutBeyond(padded: string, precision: nat)
    requires precision >= |padded|
    ensures (if precision <= |padded| then padded[..precision] else padded) == padded
  {
  }

  lemma PiecesReadBack(whole: nat, frac: nat, d: nat, precision: nat, white: char -> bool) returns (w: nat)
    requires SaneWhite(white) && frac < Pow10(d)
    ensures Parse(Join(ToString(whole), Fraction(frac, d, precision)), d, white) == Some(w)
    ensures w <= whole * Pow10(d) + frac < w + Pow10(if precision <= d then d - precision else 0)
  {
    if precision <= d {
      w := PiecesWithinPrecision(whole, frac, d, precision, white);
    } else {
      FullPrecision(frac, d, precision);
      w := PiecesWithinPrecision(whole, frac, d, d, white);
    }
  }

  // Reading back what was printed loses less than one unit of the last printed place, at any precision.
  lemma PrintedWithinPrecision(v: nat, d: nat, precision: nat, white: char -> bool) returns (w: nat)
    requires SaneWhite(white)
    ensures Parse(Format(v, d, precision), d, white) == Some(w)
    ensures w <= v < w + Pow10(if precision <= d then d - precision else 0)
  {
    Division(v, Pow10(d));
    w := PiecesReadBack(Quotient(v, Pow10(d)), Remainder(v, Pow10(d)), d, precision, white);
  }

  // With a place for every decimal, or more, nothing is lost.
  lemma PrintedExactly(v: nat, d: nat, precision: nat, white: char -> bool)
    requires SaneWhite(white) && precision >= d
    ensures Parse(Format(v, d, precision), d, white) == Some(v)
  {
    var w := PrintedWithinPrecision(v, d, precision, white);
    assert Pow10(0) == 1;
  }

  // At most `precision` places are printed, and no trailing zero.
  lemma PrintedIsShort(frac: nat, decimals: nat, precision: nat)
    ensures var f := Fraction(frac, decimals, precision);
            |f| <= precision && (f != "" ==> f[|f| - 1] != '0')
  {
    if frac > 0 {
      var padded := PadStart(ToString(frac), decimals);
      StripEnds(if precision <= |padded| then padded[..precision] else padded);
    }
  }

  lemma {:induction false} StripEnds(s: string)
    ensures var r := StripZeros(s); r != "" ==> r[|r| - 1] != '0'
  {
    if s != [] && s[|s| - 1] == '0' {
      StripEnds(s[..|s| - 1]);
    }
  }

  // ---- Trimming ------------------------------------------------------------------------------

  // t stands in s from i to j, with white space on either side.
  ghost predicate WhiteAround(s: string, t: string, white: char -> bool, i: nat, j: nat)
  {
    && i <= j <= |s| && t == s[i..j]
    && (forall k :: 0 <= k < i ==> white(s[k])) && (forall k :: j <= k < |s| ==> white(s[k]))
  }

  // t is s without the white space around it.
  ghost predicate Trims(s: string, t: string, white: char -> bool)
  {
    && (t != "" ==> !white(t[0]) && !white(t[|t| - 1]))
    && exists i: nat, j: nat :: WhiteAround(s, t, white, i, j)
  }

  lemma DropFirst(s: string, t: string, white: char -> bool)
    requires s != "" && white(s[0])
    ensures Trims(s, t, white) <==> Trims(s[1..], t, white)
  {
    if Trims(s, t, white) {
      var i: nat, j: nat :| WhiteAround(s, t, white, i, j);
      assert i > 0 || t == "";
      assert WhiteAround(s[1..], t, white, if i > 0 then i - 1 else 0, if j > 0 then j - 1 else 0);
    }
    if Trims(s[1..], t, white) {
      var i: nat, j: nat :| WhiteAround(s[1..], t, white, i, j);
      assert forall k :: 0 < k < |s| ==> s[k] == s[1..][k - 1];
      assert WhiteAround(s, t, white, i + 1, j + 1);
    }
  }

  lemma DropLast(s: string, t: string, white: char -> bool)
    requires s != "" && white(s[|s| - 1])
    ensures Trims(s, t, white) <==> Trims(s[..|s| - 1], t, white)
  {
    var n := |s| - 1;
    if Trims(s, t, white) {
      var i: nat, j: nat :| WhiteAround(s, t, white, i, j);
      assert j <= n || t == "";
      assert WhiteAround(s[..n], t, white, if i <= n then i else n, if j <= n then j else n);
    }
    if Trims(s[..n], t, white) {
      var i: nat, j: nat :| WhiteAround(s[..n], t, white, i, j);
      assert forall k :: 0 <= k < n ==> s[k] == s[..n][k];
      assert WhiteAround(s, t, white, i, j);
    }
  }

  lemma NothingToTrim(s: string, t: string, white: char -> bool)
    requires s != "" ==> !white(s[0]) && !white(s[|s| - 1])
    ensures Trims(s, t, white) <==> t == s
  {
    if Trims(s, t, white) {
      var i: nat, j: nat :| WhiteAround(s, t, white, i, j);
      assert i == 0 && j == |s|;
    }
    if t == s {
      assert WhiteAround(s, t, white, 0, |s|);
    }
  }

  // Trimming takes off all white space at both ends, and nothing else.
  lemma {:induction false} TrimExactly(s: string, t: string, white: char -> bool)
    ensures t == Trim(s, white) <==> Trims(s, t, white)
    decreases |s|
  {
    if s != "" && white(s[0]) {
      TrimExactly(s[1..], t, white);
      DropFirst(s, t, white);
    } else if s != "" && white(s[|s| - 1]) {
      TrimExactly(s[..|s| - 1], t, white);
      DropLast(s, t, white);
    } else {
      NothingToTrim(s, t, white);
    }
  }

  // ---- What is parsed at all -----------------------------------------------------------------

  ghost predicate Reads(t: string, whole: string, fraction: string, d: nat)
  {
    whole != "" && AllDigits(whole) && AllDigits(fraction) && |fraction| <= d && t == Join(whole, fraction)
  }

  ghost predicate Readable(t: string, d: nat)
  {
    exists whole, fraction :: Reads(t, whole, fraction, d)
  }

  // What is read is the number of smallest units the digits stand for.
  lemma ParseReads(value: string, d: nat, white: char -> bool, whole: string, fraction: string)
    requires Reads(Trim(value, white), whole, fraction, d)
    ensures Parse(value, d, white) == Some(NumberOf(whole) * Pow10(d) + NumberOf(fraction) * Pow10(d - |fraction|))
  {
    JoinDot(whole, fraction);
    PadEndNumber(fraction, d);
    NumberOfJoin(whole, PadEnd(fraction, d));
  }

  // The parser accepts, between white space, exactly digits with optionally a dot and at most d more.
  lemma ParseAccepts(value: string, d: nat, white: char -> bool)
    ensures Parse(value, d, white).Some? <==> Readable(Trim(value, white), d)
  {
    var t := Trim(value, white);
    if Parse(value, d, white).Some? {
      PiecesRead(t, d);
    } else if Readable(t, d) {
      var whole, fraction :| Reads(t, whole, fraction, d);
      ParseReads(value, d, white, whole, fraction);
    }
  }

  lemma PiecesRead(t: string, d: nat)
    requires ParsePieces(t[..Dot(t)], Dot(t) < |t|, PastDot(t), d).Some?
    ensures Readable(t, d)
  {
    DotSplits(t);
    assert Reads(t, t[..Dot(t)], PastDot(t), d);
  }

  lemma CutAt(t: string, k: nat)
    requires k < |t|
    ensures t == t[..k] + [t[k]] + t[k + 1..]
  {
  }

  lemma DotSplits(t: string)
    ensures PastDot(t) != "" || Dot(t) == |t| ==> t == Join(t[..Dot(t)], PastDot(t))
  {
    var k := Dot(t);
    if k < |t| {
      CutAt(t, k);
    } else {
      assert t == t[..k];
    }
  }
}
