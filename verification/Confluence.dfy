/**
 Capping one weight at a time, in any order, ends where the batch passes end. Two consequences: the
 final level does not depend on the order of a policy's rows, and so neither does any row's share.
 */
module Confluence {
  import opened WaterFill

  ghost function Total(m: multiset<nat>): nat
    decreases |m|
  {
    if m == multiset{} then 0
    else
      var x :| x in m;
      x + Total(m - multiset{x})
  }

  lemma RemoveBoth(m: multiset<nat>, x: nat, y: nat)
    ensures m - multiset{y} - multiset{x} == m - multiset{x} - multiset{y}
  {
  }

  lemma {:induction false} TotalRemove(m: multiset<nat>, x: nat)
    requires x in m
    ensures Total(m) == x + Total(m - multiset{x})
    decreases |m|
  {
    var y :| y in m && Total(m) == y + Total(m - multiset{y});
    if y != x {
      var my, mx := m - multiset{y}, m - multiset{x};
      TotalRemove(my, x);
      TotalRemove(mx, y);
      RemoveBoth(m, x, y);
    }
  }

  lemma {:induction false} TotalOfSeq(s: seq<nat>)
    ensures Total(multiset(s)) == Sum(s)
  {
    if s != [] {
      assert s == [s[0]] + s[1..];
      TotalRemove(multiset(s), s[0]);
      assert multiset(s) - multiset{s[0]} == multiset(s[1..]);
      TotalOfSeq(s[1..]);
    }
  }

  // ---- Steps in any order --------------------------------------------------------------------

  // Which weights may be capped next, given the uncapped ones and the budget left for them.
  type Guard = (multiset<nat>, int, nat) -> bool

  ghost predicate Stuck(can: Guard, m: multiset<nat>, rest: int)
  {
    forall x: nat :: !can(m, rest, x)
  }

  // Capping the weights of path one after the other leads from (m, rest) to (m', rest').
  ghost predicate Run(can: Guard, cap: nat, m: multiset<nat>, rest: int, path: seq<nat>,
                      m': multiset<nat>, rest': int)
    decreases |path|
  {
    if path == [] then m == m' && rest == rest'
    else can(m, rest, path[0]) && Run(can, cap, m - multiset{path[0]}, rest - cap, path[1..], m', rest')
  }

  // What could be capped still can after something else was.
  ghost predicate StaysOpen(can: Guard, cap: nat, m: multiset<nat>, rest: int, x: nat, y: nat)
  {
    can(m, rest, x) && can(m, rest, y) ==>
      && x in m && y in m
      && (y in m - multiset{x} ==> can(m - multiset{x}, rest - cap, y))
  }

  ghost predicate Persistent(can: Guard, cap: nat)
  {
    forall m: multiset<nat>, rest: int, x: nat, y: nat :: StaysOpen(can, cap, m, rest, x, y)
  }

  lemma RunCons(can: Guard, cap: nat, m: multiset<nat>, rest: int, y: nat, t: seq<nat>,
                m': multiset<nat>, rest': int)
    requires can(m, rest, y) && Run(can, cap, m - multiset{y}, rest - cap, t, m', rest')
    ensures Run(can, cap, m, rest, [y] + t, m', rest')
  {
    assert ([y] + t)[1..] == t;
  }

  lemma ExchangeStep(can: Guard, cap: nat, m: multiset<nat>, rest: int, x: nat, y: nat, t: seq<nat>,
                     m': multiset<nat>, rest': int)
    requires can(m - multiset{x}, rest - cap, y)
    requires Run(can, cap, m - multiset{y} - multiset{x}, rest - cap - cap, t, m', rest')
    ensures Run(can, cap, m - multiset{x}, rest - cap, [y] + t, m', rest')
  {
    RemoveBoth(m, x, y);
    RunCons(can, cap, m - multiset{x}, rest - cap, y, t, m', rest');
  }

  // Capping x first delays nothing: a run from m to a stuck state becomes one from m without x.
  lemma {:induction false} Exchange(can: Guard, cap: nat, m: multiset<nat>, rest: int, path: seq<nat>,
                                    m': multiset<nat>, rest': int, x: nat)
      returns (shorter: seq<nat>)
    requires Persistent(can, cap) && Run(can, cap, m, rest, path, m', rest')
    requires Stuck(can, m', rest') && can(m, rest, x)
    ensures Run(can, cap, m - multiset{x}, rest - cap, shorter, m', rest')
    decreases |path|
  {
    var y, tail := path[0], path[1..];
    if y == x {
      shorter := tail;
    } else {
      assert StaysOpen(can, cap, m, rest, x, y) && StaysOpen(can, cap, m, rest, y, x);
      var t := Exchange(can, cap, m - multiset{y}, rest - cap, tail, m', rest', x);
      ExchangeStep(can, cap, m, rest, x, y, t, m', rest');
      shorter := [y] + t;
    }
  }

  // Any two orders of capping that cannot go on leave the same weights and the same budget.
  lemma {:induction false} AnyOrderSameResult(can: Guard, cap: nat, m: multiset<nat>, rest: int,
                                              p: seq<nat>, m1: multiset<nat>, rest1: int,
                                              q: seq<nat>, m2: multiset<nat>, rest2: int)
    requires Persistent(can, cap)
    requires Run(can, cap, m, rest, p, m1, rest1) && Stuck(can, m1, rest1)
    requires Run(can, cap, m, rest, q, m2, rest2) && Stuck(can, m2, rest2)
    ensures m1 == m2 && rest1 == rest2
    decreases |p|
  {
    if p != [] {
      var shorter := Exchange(can, cap, m, rest, q, m2, rest2, p[0]);
      AnyOrderSameResult(can, cap, m - multiset{p[0]}, rest - cap, p[1..], m1, rest1, shorter, m2, rest2);
    }
  }

  lemma {:induction false} RunsJoin(can: Guard, cap: nat, m: multiset<nat>, rest: int,
                                    p: seq<nat>, m1: multiset<nat>, rest1: int,
                                    q: seq<nat>, m2: multiset<nat>, rest2: int)
    requires Run(can, cap, m, rest, p, m1, rest1) && Run(can, cap, m1, rest1, q, m2, rest2)
    ensures Run(can, cap, m, rest, p + q, m2, rest2)
    decreases |p|
  {
    if p == [] {
      assert p + q == q;
    } else {
      RunsJoin(can, cap, m - multiset{p[0]}, rest - cap, p[1..], m1, rest1, q, m2, rest2);
      assert (p + q)[1..] == p[1..] + q;
    }
  }

  // Weights that may all be capped now may be capped one after the other.
  lemma {:induction false} BatchIsRun(can: Guard, cap: nat, m: multiset<nat>, rest: int, batch: seq<nat>,
                                      m': multiset<nat>, rest': int)
    requires Persistent(can, cap)
    requires m == m' + multiset(batch) && rest == rest' + cap * |batch|
    requires forall x :: x in batch ==> can(m, rest, x)
    ensures Run(can, cap, m, rest, batch, m', rest')
    decreases |batch|
  {
    if batch != [] {
      var x, tail := batch[0], batch[1..];
      FirstRemoved(m, m', batch);
      MulDistributes(cap, 1, |tail|);
      forall y | y in tail
        ensures can(m - multiset{x}, rest - cap, y)
      {
        assert y in batch && StaysOpen(can, cap, m, rest, x, y);
      }
      BatchIsRun(can, cap, m - multiset{x}, rest - cap, tail, m', rest');
    }
  }

  lemma FirstRemoved(m: multiset<nat>, m': multiset<nat>, batch: seq<nat>)
    requires batch != [] && m == m' + multiset(batch)
    ensures m - multiset{batch[0]} == m' + multiset(batch[1..])
    ensures forall y :: y in batch[1..] ==> y in batch && y in m - multiset{batch[0]}
  {
    assert batch == [batch[0]] + batch[1..];
    assert forall y :: y in batch[1..] ==> y in multiset(batch[1..]);
  }

  // ---- The capping loop's guard --------------------------------------------------------------

  ghost predicate CanCap(m: multiset<nat>, rest: int, cap: nat, x: nat)
  {
    x in m && rest >= 0 && Over(x, rest, Total(m), cap)
  }

  ghost function OverCap(cap: nat): Guard
  {
    (m: multiset<nat>, rest: int, x: nat) => CanCap(m, rest, cap, x)
  }

  // One step is affordable and does not lower the level.
  lemma StepRaisesLevel(m: multiset<nat>, rest: int, cap: nat, x: nat)
    requires CanCap(m, rest, cap, x)
    ensures rest - cap >= 0 && (rest - cap) * Total(m) >= rest * Total(m - multiset{x})
  {
    TotalRemove(m, x);
    var s, s' := Total(m), Total(m - multiset{x});
    OverWorth(x, rest, s, cap);
    assert x == s - s' && rest * (s - s') >= (cap * s) * 1;
    AffordableAndRising(rest, s, s', cap, 1);
    assert cap * 1 == cap;
  }

  lemma CanCapStays(m: multiset<nat>, rest: int, cap: nat, x: nat, y: nat)
    requires CanCap(m, rest, cap, x) && CanCap(m, rest, cap, y) && y in m - multiset{x}
    ensures CanCap(m - multiset{x}, rest - cap, cap, y)
  {
    StepRaisesLevel(m, rest, cap, x);
    TotalRemove(m - multiset{x}, y);
    OverWorth(y, rest, Total(m), cap);
    OverPersists(y, rest, Total(m), cap, rest - cap, Total(m - multiset{x}));
  }

  lemma OverCapPersists(cap: nat)
    ensures Persistent(OverCap(cap), cap)
  {
    forall m: multiset<nat>, rest: int, x: nat, y: nat
      ensures StaysOpen(OverCap(cap), cap, m, rest, x, y)
    {
      if CanCap(m, rest, cap, x) && CanCap(m, rest, cap, y) && y in m - multiset{x} {
        CanCapStays(m, rest, cap, x, y);
      }
    }
  }

  // ---- The batch passes are one such order ---------------------------------------------------

  function Reject(rest: nat, sum: nat, cap: nat): nat -> bool
  {
    (x: nat) => Over(x, rest, sum, cap)
  }

  lemma FilterHead(u: seq<nat>, p: nat -> bool)
    requires u != []
    ensures Filter(u, p) == if p(u[0]) then [u[0]] + Filter(u[1..], p) else Filter(u[1..], p)
  {
  }

  lemma {:induction false} FilterSplits(u: seq<nat>, p: nat -> bool, q: nat -> bool)
    requires forall x: nat :: q(x) == !p(x)
    ensures multiset(u) == multiset(Filter(u, p)) + multiset(Filter(u, q))
    ensures |u| == |Filter(u, p)| + |Filter(u, q)|
  {
    if u != [] {
      FilterSplits(u[1..], p, q);
      FilterHead(u, p);
      FilterHead(u, q);
      assert u == [u[0]] + u[1..];
    }
  }

  lemma {:induction false} FilterHolds(u: seq<nat>, p: nat -> bool)
    ensures forall x :: x in Filter(u, p) ==> x in u && p(x)
  {
    if u != [] {
      FilterHolds(u[1..], p);
      FilterHead(u, p);
    }
  }

  // What one pass drops, as single steps.
  lemma PassIsRun(u: seq<nat>, rest: nat, cap: nat, kept: seq<nat>, left: int) returns (batch: seq<nat>)
    requires kept == Keep(u, rest, cap) && left == rest - cap * (|u| - |kept|)
    ensures Run(OverCap(cap), cap, multiset(u), rest, batch, multiset(kept), left)
  {
    TotalOfSeq(u);
    var sum := Sum(u);
    batch := Filter(u, Reject(rest, sum, cap));
    FilterSplits(u, Within(rest, sum, cap), Reject(rest, sum, cap));
    FilterHolds(u, Reject(rest, sum, cap));
    forall x | x in batch
      ensures OverCap(cap)(multiset(u), rest, x)
    {
      assert Reject(rest, sum, cap)(x);
    }
    OverCapPersists(cap);
    BatchIsRun(OverCap(cap), cap, multiset(u), rest, batch, multiset(kept), left);
  }

  lemma HaltIsStuck(u: seq<nat>, rest: nat, cap: nat)
    requires Sum(u) == 0 || |Keep(u, rest, cap)| == |u|
    ensures Stuck(OverCap(cap), multiset(u), rest)
  {
    TotalOfSeq(u);
    FilterAll(u, Within(rest, Sum(u), cap));
    forall x: nat
      ensures !CanCap(multiset(u), rest, cap, x)
    {
      if x in multiset(u) && Sum(u) > 0 {
        assert Within(rest, Sum(u), cap)(x);
      }
    }
  }

  // path leads from the weights u to l by single cappings, and nothing more can be capped there.
  ghost predicate CapsTo(u: seq<nat>, rest: nat, cap: nat, path: seq<nat>, l: Level)
  {
    && Run(OverCap(cap), cap, multiset(u), rest, path, multiset(l.free), l.rest)
    && Stuck(OverCap(cap), multiset(l.free), l.rest)
  }

  lemma PassThenCaps(u: seq<nat>, rest: nat, cap: nat, kept: seq<nat>, left: nat, q: seq<nat>, l: Level)
      returns (path: seq<nat>)
    requires kept == Keep(u, rest, cap) && left == rest - cap * (|u| - |kept|) && CapsTo(kept, left, cap, q, l)
    ensures CapsTo(u, rest, cap, path, l)
  {
    var batch := PassIsRun(u, rest, cap, kept, left);
    RunsJoin(OverCap(cap), cap, multiset(u), rest, batch, multiset(kept), left, q, multiset(l.free), l.rest);
    path := batch + q;
  }

  // The batch passes are a run of single cappings that ends stuck, where the loop halts.
  lemma {:induction false} BatchesAreRun(u: seq<nat>, rest: nat, cap: nat, passes: nat) returns (path: seq<nat>)
    requires passes > |u|
    ensures Settle(u, rest, cap, passes).Some?
    ensures CapsTo(u, rest, cap, path, Settle(u, rest, cap, passes).value)
    decreases passes
  {
    var kept := Keep(u, rest, cap);
    if Sum(u) == 0 || |kept| == |u| {
      HaltIsStuck(u, rest, cap);
      path := [];
    } else {
      PassRaisesLevel(u, rest, cap);
      var left := rest - cap * (|u| - |kept|);
      var q := BatchesAreRun(kept, left, cap, passes - 1);
      path := PassThenCaps(u, rest, cap, kept, left, q, Settle(kept, left, cap, passes - 1).value);
    }
  }

  // Capping one weight at a time, in whatever order, ends where the loop's passes end.
  lemma AnyOrderEndsWhereLoopEnds(u: seq<nat>, rest: nat, cap: nat, path: seq<nat>, m: multiset<nat>, left: int)
    requires Run(OverCap(cap), cap, multiset(u), rest, path, m, left) && Stuck(OverCap(cap), m, left)
    ensures Settle(u, rest, cap, |u| + 1).Some?
    ensures var l := Settle(u, rest, cap, |u| + 1).value; m == multiset(l.free) && left == l.rest
  {
    var q := BatchesAreRun(u, rest, cap, |u| + 1);
    var l := Settle(u, rest, cap, |u| + 1).value;
    OverCapPersists(cap);
    AnyOrderSameResult(OverCap(cap), cap, multiset(u), rest, path, m, left, q, multiset(l.free), l.rest);
  }

  // Rows in another order settle at the same level.
  lemma SettleIgnoresOrder(u: seq<nat>, v: seq<nat>, rest: nat, cap: nat)
    requires multiset(u) == multiset(v)
    ensures Settle(u, rest, cap, |u| + 1).Some? && Settle(v, rest, cap, |v| + 1).Some?
    ensures var l, k := Settle(u, rest, cap, |u| + 1).value, Settle(v, rest, cap, |v| + 1).value;
            l.rest == k.rest && multiset(l.free) == multiset(k.free) && Sum(l.free) == Sum(k.free)
  {
    var p := BatchesAreRun(u, rest, cap, |u| + 1);
    var l := Settle(u, rest, cap, |u| + 1).value;
    AnyOrderEndsWhereLoopEnds(v, rest, cap, p, multiset(l.free), l.rest);
    TotalOfSeq(l.free);
    TotalOfSeq(Settle(v, rest, cap, |v| + 1).value.free);
  }
}
