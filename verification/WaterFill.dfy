/**
 Capped proportional sharing as a process on the weights still uncapped.

 A state is the uncapped weights and the budget left for them. A batch pass caps every weight whose
 floored share exceeds the cap; a single step caps one of them. Both reach the same final state.
 */
module WaterFill {
  import opened Options

  function Sum(s: seq<nat>): nat
  {
    if s == [] then 0 else s[0] + Sum(s[1..])
  }

  function Filter(s: seq<nat>, p: nat -> bool): (f: seq<nat>)
    ensures |f| <= |s|
  {
    if s == [] then [] else (if p(s[0]) then [s[0]] else []) + Filter(s[1..], p)
  }

  // Whether a positive cap cuts the floored share of weight x when rest is split over sum.
  predicate Over(x: nat, rest: nat, sum: nat, cap: nat)
  {
    cap > 0 && sum > 0 && rest * x / sum > cap
  }

  function Within(rest: nat, sum: nat, cap: nat): nat -> bool
  {
    (x: nat) => !Over(x, rest, sum, cap)
  }

  function Keep(u: seq<nat>, rest: nat, cap: nat): seq<nat>
  {
    Filter(u, Within(rest, Sum(u), cap))
  }

  datatype Level = Level(free: seq<nat>, rest: nat)

  // The capping loop: None when the capped amounts exceed the budget.
  function Settle(u: seq<nat>, rest: nat, cap: nat, passes: nat): Option<Level>
    decreases passes
  {
    if passes == 0 || Sum(u) == 0 then Some(Level(u, rest))
    else
      var kept := Keep(u, rest, cap);
      if |kept| == |u| then Some(Level(u, rest))
      else
        var left := rest - cap * (|u| - |kept|);
        if left < 0 then None else Settle(kept, left, cap, passes - 1)
  }

  // ---- Arithmetic ----------------------------------------------------------------------------

  lemma MulMono(a: nat, b: nat, c: nat)
    requires a <= b
    ensures a * c <= b * c && c * a <= c * b
  {
  }

  lemma MulStrict(a: int, b: int, c: nat)
    requires c > 0 && a < b
    ensures a * c < b * c
  {
    MulMono(1, b - a, c);
    assert (b - a) * c == b * c - a * c;
  }

  lemma MulCancel(a: int, b: int, c: nat)
    requires c > 0 && a * c >= b * c
    ensures a >= b
  {
    if a < b {
      MulStrict(a, b, c);
    }
  }

  lemma QuotientExceeds(a: nat, s: nat, c: nat)
    requires s > 0
    ensures a / s > c <==> a >= (c + 1) * s
  {
    var q := a / s;
    assert a == q * s + a % s;
    if q > c {
      MulMono(c + 1, q, s);
    } else {
      MulMono(q, c, s);
      assert (c + 1) * s == c * s + s;
    }
  }

  lemma Swap(a: int, b: int, c: int)
    ensures (a * b) * c == (a * c) * b
  {
  }

  // Worth c times the sum at one level, worth it at any level not below.
  lemma WorthAtHigherLevel(x: nat, rest: nat, sum: nat, rest': nat, sum': nat, c: nat)
    requires sum > 0 && rest * x >= c * sum && rest' * sum >= rest * sum'
    ensures rest' * x >= c * sum'
  {
    MulMono(rest * sum', rest' * sum, x);
    MulMono(c * sum, rest * x, sum');
    Swap(rest', x, sum);
    Swap(rest, sum', x);
    Swap(c, sum, sum');
    MulCancel(rest' * x, c * sum', sum);
  }

  // A share over the cap stays over it when the level rest/sum does not fall.
  lemma OverPersists(x: nat, rest: nat, sum: nat, cap: nat, rest': nat, sum': nat)
    requires Over(x, rest, sum, cap) && sum' > 0
    requires rest' * sum >= rest * sum'
    ensures Over(x, rest', sum', cap)
  {
    QuotientExceeds(rest * x, sum, cap);
    QuotientExceeds(rest' * x, sum', cap);
    WorthAtHigherLevel(x, rest, sum, rest', sum', cap + 1);
  }

  // A weight over the cap is worth at least the cap at the current level.
  lemma OverWorth(x: nat, rest: nat, sum: nat, cap: nat)
    requires Over(x, rest, sum, cap)
    ensures rest * x >= cap * sum + sum && x > 0
  {
    QuotientExceeds(rest * x, sum, cap);
    assert (cap + 1) * sum == cap * sum + sum;
    assert x == 0 ==> rest * x == 0;
  }

  // ---- One pass ------------------------------------------------------------------------------

  lemma FilterStep(u: seq<nat>, p: nat -> bool)
    requires u != []
    ensures var tail := Filter(u[1..], p);
            && (p(u[0]) ==> Filter(u, p) == [u[0]] + tail && Sum(Filter(u, p)) == u[0] + Sum(tail))
            && (!p(u[0]) ==> Filter(u, p) == tail)
  {
    var tail := Filter(u[1..], p);
    if p(u[0]) {
      assert ([u[0]] + tail)[1..] == tail;
    } else {
      assert [] + tail == tail;
    }
  }

  // One dropped weight more is worth as much more.
  lemma OneMoreDropped(rest: nat, x: nat, dropped: nat, worth: nat, n: nat)
    requires rest * x >= worth && rest * dropped >= worth * n
    ensures rest * (x + dropped) >= worth * (n + 1)
  {
    MulDistributes(rest, x, dropped);
    MulDistributes(worth, n, 1);
  }

  lemma {:induction false} DroppedWorth(u: seq<nat>, p: nat -> bool, rest: nat, worth: nat)
    requires forall x: nat :: !p(x) ==> rest * x >= worth
    ensures Sum(Filter(u, p)) <= Sum(u)
    ensures rest * (Sum(u) - Sum(Filter(u, p))) >= worth * (|u| - |Filter(u, p)|)
  {
    if u != [] {
      var tail := Filter(u[1..], p);
      DroppedWorth(u[1..], p, rest, worth);
      FilterStep(u, p);
      if !p(u[0]) {
        OneMoreDropped(rest, u[0], Sum(u[1..]) - Sum(tail), worth, |u| - 1 - |tail|);
      }
    }
  }

  lemma MulDistributes(a: nat, b: nat, c: nat)
    ensures a * (b + c) == a * b + a * c
  {
  }

  // What a pass caps is affordable, and the level never falls.
  lemma PassRaisesLevel(u: seq<nat>, rest: nat, cap: nat)
    requires Sum(u) > 0
    ensures var kept := Keep(u, rest, cap);
            && rest - cap * (|u| - |kept|) >= 0
            && (rest - cap * (|u| - |kept|)) * Sum(u) >= rest * Sum(kept)
  {
    var s, kept := Sum(u), Keep(u, rest, cap);
    forall x: nat | !Within(rest, s, cap)(x)
      ensures rest * x >= cap * s
    {
      OverWorth(x, rest, s, cap);
    }
    DroppedWorth(u, Within(rest, s, cap), rest, cap * s);
    AffordableAndRising(rest, s, Sum(kept), cap, |u| - |kept|);
  }

  lemma AffordableAndRising(rest: nat, s: nat, s': nat, cap: nat, n: nat)
    requires s > 0 && s' <= s
    requires rest * (s - s') >= (cap * s) * n
    ensures rest - cap * n >= 0
    ensures (rest - cap * n) * s >= rest * s'
  {
    MulDistributes(rest, s - s', s');
    assert (cap * s) * n == (cap * n) * s;
    assert (rest - cap * n) * s == rest * s - (cap * n) * s;
    MulMono(0, rest, s');
    MulCancel(rest - cap * n, 0, s);
  }

  lemma {:induction false} FilterTwice(u: seq<nat>, p: nat -> bool, q: nat -> bool)
    requires forall x: nat :: q(x) ==> p(x)
    ensures Filter(Filter(u, p), q) == Filter(u, q)
  {
    if u != [] {
      FilterTwice(u[1..], p, q);
      if p(u[0]) {
        assert Filter(u, p)[1..] == Filter(u[1..], p);
      } else {
        assert Filter(u, p) == Filter(u[1..], p);
      }
    }
  }

  lemma {:induction false} FilterAll(u: seq<nat>, p: nat -> bool)
    ensures |Filter(u, p)| == |u| <==> forall x :: x in u ==> p(x)
    ensures |Filter(u, p)| == |u| ==> Filter(u, p) == u
  {
    if u != [] {
      FilterAll(u[1..], p);
      assert u == [u[0]] + u[1..];
    }
  }

  // ---- The fixpoint --------------------------------------------------------------------------

  // Whether weight x ends up at the cap, told from the final level alone.
  predicate Capped(x: nat, l: Level, cap: nat)
  {
    cap > 0 && if Sum(l.free) > 0 then Over(x, l.rest, Sum(l.free), cap) else x > 0
  }

  // The amount of weight x, told from the final level alone.
  function Share(x: nat, l: Level, cap: nat): nat
  {
    if Capped(x, l, cap) then cap
    else if Sum(l.free) > 0 then l.rest * x / Sum(l.free)
    else 0
  }

  function BelowCap(l: Level, cap: nat): nat -> bool
  {
    (x: nat) => !Capped(x, l, cap)
  }

  // l is where the capping of u with budget rest comes to a halt: what is left uncapped is exactly
  // what is not over the cap at l, the capped weights got cap each, and the level has not fallen.
  ghost predicate Fixpoint(u: seq<nat>, rest: nat, cap: nat, l: Level)
  {
    && l.free == Filter(u, BelowCap(l, cap))
    && l.rest + cap * (|u| - |l.free|) == rest
    && l.rest * Sum(u) >= rest * Sum(l.free)
    && (cap == 0 ==> l == Level(u, rest))
  }

  lemma HaltIsFixpoint(u: seq<nat>, rest: nat, cap: nat)
    requires Sum(u) == 0 || |Keep(u, rest, cap)| == |u|
    ensures Fixpoint(u, rest, cap, Level(u, rest))
  {
    FilterAll(u, Within(rest, Sum(u), cap));
    if Sum(u) == 0 {
      ZeroSum(u);
    }
    FilterAll(u, BelowCap(Level(u, rest), cap));
  }

  lemma PassKeepsFixpoint(u: seq<nat>, rest: nat, cap: nat, left: nat, l: Level)
    requires Sum(u) > 0
    requires var kept := Keep(u, rest, cap);
             |kept| < |u| && left == rest - cap * (|u| - |kept|) && Fixpoint(kept, left, cap, l)
    ensures Fixpoint(u, rest, cap, l)
  {
    var kept := Keep(u, rest, cap);
    PassRaisesLevel(u, rest, cap);
    if Sum(kept) == 0 {
      ZeroSum(kept);
      FilterOfZeros(kept, BelowCap(l, cap));
    }
    LevelsCompose(rest, Sum(u), left, Sum(kept), l.rest, Sum(l.free));
    forall x: nat | Over(x, rest, Sum(u), cap)
      ensures Capped(x, l, cap)
    {
      OverWorth(x, rest, Sum(u), cap);
      if Sum(l.free) > 0 {
        OverPersists(x, rest, Sum(u), cap, l.rest, Sum(l.free));
      }
    }
    FilterTwice(u, Within(rest, Sum(u), cap), BelowCap(l, cap));
    MulDistributes(cap, |u| - |kept|, |kept| - |l.free|);
    FilterAll(u, Within(rest, Sum(u), cap));
  }

  // The loop never reports an overdrawn budget and never runs out of passes: it halts at the fixpoint.
  lemma {:induction false} SettleReachesFixpoint(u: seq<nat>, rest: nat, cap: nat, passes: nat)
    requires passes > |u|
    ensures Settle(u, rest, cap, passes).Some?
    ensures Fixpoint(u, rest, cap, Settle(u, rest, cap, passes).value)
    decreases passes
  {
    var kept := Keep(u, rest, cap);
    if Sum(u) == 0 || |kept| == |u| {
      HaltIsFixpoint(u, rest, cap);
    } else {
      PassRaisesLevel(u, rest, cap);
      var left := rest - cap * (|u| - |kept|);
      SettleReachesFixpoint(kept, left, cap, passes - 1);
      PassKeepsFixpoint(u, rest, cap, left, Settle(kept, left, cap, passes - 1).value);
    }
  }

  lemma {:induction false} FilterOfZeros(u: seq<nat>, p: nat -> bool)
    requires forall x :: x in u ==> x == 0
    ensures Sum(Filter(u, p)) == 0
  {
    if u != [] {
      assert u[0] in u && forall x :: x in u[1..] ==> x in u;
      FilterOfZeros(u[1..], p);
      if p(u[0]) {
        assert Filter(u, p)[1..] == Filter(u[1..], p);
      } else {
        assert Filter(u, p) == Filter(u[1..], p);
      }
    }
  }

  lemma LevelsCompose(r0: nat, s0: nat, r1: nat, s1: nat, r2: nat, s2: nat)
    requires r1 * s0 >= r0 * s1 && r2 * s1 >= r1 * s2 && s0 > 0
    requires s1 == 0 ==> s2 == 0
    ensures r2 * s0 >= r0 * s2
  {
    if s1 > 0 {
      calc {
        (r2 * s0) * s1;
        == (r2 * s1) * s0;
        >= { MulMono(r1 * s2, r2 * s1, s0); } (r1 * s2) * s0;
        == (r1 * s0) * s2;
        >= { MulMono(r0 * s1, r1 * s0, s2); } (r0 * s1) * s2;
        == (r0 * s2) * s1;
      }
      MulCancel(r2 * s0, r0 * s2, s1);
    }
  }

  lemma {:induction false} ZeroSum(u: seq<nat>)
    requires Sum(u) == 0
    ensures forall x :: x in u ==> x == 0
  {
    if u != [] {
      ZeroSum(u[1..]);
      assert u == [u[0]] + u[1..];
    }
  }

  // ---- What the fixpoint pays ----------------------------------------------------------------

  function Shares(u: seq<nat>, l: Level, cap: nat): (a: seq<nat>)
    ensures |a| == |u|
    ensures forall i :: 0 <= i < |u| ==> a[i] == Share(u[i], l, cap)
  {
    if u == [] then [] else [Share(u[0], l, cap)] + Shares(u[1..], l, cap)
  }

  // One closed form for every weight, capped early, capped late or never: the smaller of the cap and
  // the floored proportional share at the final level.
  lemma ShareIsMinimum(x: nat, l: Level, cap: nat)
    requires Sum(l.free) > 0
    ensures var floored := l.rest * x / Sum(l.free);
            Share(x, l, cap) == if cap > 0 && floored > cap then cap else floored
    ensures x == 0 ==> Share(x, l, cap) == 0
  {
    if x == 0 {
      assert l.rest * x == 0;
    }
  }

  lemma DivMono(a: nat, b: nat, s: nat)
    requires a <= b && s > 0
    ensures a / s <= b / s
  {
    QuotientExceeds(a, s, b / s);
    QuotientExceeds(b, s, b / s);
  }

  lemma ShareMonotone(x: nat, y: nat, l: Level, cap: nat)
    requires x <= y
    ensures Share(x, l, cap) <= Share(y, l, cap)
  {
    if Sum(l.free) > 0 {
      ShareIsMinimum(x, l, cap);
      ShareIsMinimum(y, l, cap);
      MulMono(x, y, l.rest);
      DivMono(l.rest * x, l.rest * y, Sum(l.free));
    }
  }

  function FlooredSum(f: seq<nat>, rest: nat, sum: nat): nat
    requires sum > 0
  {
    if f == [] then 0 else rest * f[0] / sum + FlooredSum(f[1..], rest, sum)
  }

  function CountPositive(f: seq<nat>): nat
  {
    if f == [] then 0 else (if f[0] > 0 then 1 else 0) + CountPositive(f[1..])
  }

  lemma FlooringOne(x: nat, rest: nat, sum: nat)
    requires sum > 0
    ensures var q := rest * x / sum;
            sum * q <= rest * x <= sum * q + (sum - 1) * (if x > 0 then 1 else 0)
  {
    var a := rest * x;
    assert a == sum * (a / sum) + a % sum;
    assert x == 0 ==> a == 0;
  }

  lemma {:induction false} FlooringLoss(f: seq<nat>, rest: nat, sum: nat)
    requires sum > 0
    ensures sum * FlooredSum(f, rest, sum) <= rest * Sum(f)
         <= sum * FlooredSum(f, rest, sum) + (sum - 1) * CountPositive(f)
  {
    if f == [] {
      assert FlooredSum(f, rest, sum) == 0 && Sum(f) == 0 && CountPositive(f) == 0;
    } else {
      var t, s, n := FlooredSum(f[1..], rest, sum), Sum(f[1..]), CountPositive(f[1..]);
      FlooringLoss(f[1..], rest, sum);
      FlooringOne(f[0], rest, sum);
      MulDistributes(sum, rest * f[0] / sum, t);
      MulDistributes(rest, f[0], s);
      MulDistributes(sum - 1, if f[0] > 0 then 1 else 0, n);
    }
  }

  lemma {:induction false} SharesTotal(u: seq<nat>, l: Level, cap: nat)
    ensures var free := Filter(u, BelowCap(l, cap));
            Sum(Shares(u, l, cap)) == cap * (|u| - |free|)
              + if Sum(l.free) > 0 then FlooredSum(free, l.rest, Sum(l.free)) else 0
  {
    if u != [] {
      SharesTotal(u[1..], l, cap);
      var tail := Filter(u[1..], BelowCap(l, cap));
      assert Shares(u, l, cap)[1..] == Shares(u[1..], l, cap);
      if Capped(u[0], l, cap) {
        assert Filter(u, BelowCap(l, cap)) == tail;
        MulDistributes(cap, 1, |u| - 1 - |tail|);
      } else {
        assert Filter(u, BelowCap(l, cap)) == [u[0]] + tail;
        assert ([u[0]] + tail)[1..] == tail;
      }
    }
  }

  // What the shares add up to at the fixpoint.
  lemma FixpointTotal(u: seq<nat>, budget: nat, cap: nat, l: Level)
    requires Fixpoint(u, budget, cap, l)
    ensures Sum(Shares(u, l, cap))
         == budget - l.rest + if Sum(l.free) > 0 then FlooredSum(l.free, l.rest, Sum(l.free)) else 0
  {
    SharesTotal(u, l, cap);
  }

  // Dust is what the shares leave of the budget. While uncapped weight remains there is less of it
  // than there are uncapped positive weights; otherwise it is all the caps left over.
  lemma DustBound(u: seq<nat>, budget: nat, cap: nat, l: Level)
    requires Fixpoint(u, budget, cap, l)
    ensures Sum(Shares(u, l, cap)) <= budget
    ensures Sum(l.free) > 0 ==> budget - Sum(Shares(u, l, cap)) < CountPositive(l.free)
    ensures Sum(l.free) == 0 ==> budget - Sum(Shares(u, l, cap)) == l.rest
  {
    FixpointTotal(u, budget, cap, l);
    if Sum(l.free) > 0 {
      FlooringLossIsSmall(l.free, l.rest);
    }
  }

  lemma FlooringLossIsSmall(f: seq<nat>, rest: nat)
    requires Sum(f) > 0
    ensures 0 <= rest - FlooredSum(f, rest, Sum(f)) < CountPositive(f)
  {
    var s, t, n := Sum(f), FlooredSum(f, rest, Sum(f)), CountPositive(f);
    FlooringLoss(f, rest, s);
    if n == 0 {
      NonePositive(f);
    }
    assert s * t == t * s;
    MulCancel(rest, t, s);
    MulDistributes(n, s - 1, 1);
    LessThanCount(rest - t, n, s);
    MulDistributes(s, t, rest - t);
  }

  lemma LessThanCount(d: nat, n: nat, s: nat)
    requires n > 0 && s > 0
    ensures d * s <= (s - 1) * n ==> d < n
  {
    if d >= n {
      MulMono(n, d, s);
      assert n * s == (s - 1) * n + n;
    }
  }

  lemma {:induction false} NonePositive(f: seq<nat>)
    requires CountPositive(f) == 0
    ensures Sum(f) == 0
  {
    if f != [] {
      NonePositive(f[1..]);
    }
  }
}
