/** The engine's allocation loops over mutable slices, against `Allocate`. */
module EngineAllocate {
  import opened Options
  import opened WaterFill
  import opened Policies
  import opened Allocate

  // ---- The flags as a filter -----------------------------------------------------------------

  function Masked(u: seq<nat>, flags: seq<bool>): (m: seq<nat>)
    requires |u| == |flags|
    ensures |m| <= |u|
  {
    if u == [] then [] else (if flags[0] then [] else [u[0]]) + Masked(u[1..], flags[1..])
  }

  lemma {:induction false} MaskedMembers(u: seq<nat>, flags: seq<bool>)
    requires |u| == |flags|
    ensures forall i :: 0 <= i < |u| && !flags[i] ==> u[i] in Masked(u, flags)
    ensures forall x :: x in Masked(u, flags) ==> exists i :: 0 <= i < |u| && u[i] == x && !flags[i]
  {
    if u != [] {
      MaskedMembers(u[1..], flags[1..]);
      forall i | 0 <= i < |u| && !flags[i]
        ensures u[i] in Masked(u, flags)
      {
        if i > 0 {
          assert u[1..][i - 1] in Masked(u[1..], flags[1..]);
        }
      }
      forall x | x in Masked(u, flags)
        ensures exists i :: 0 <= i < |u| && u[i] == x && !flags[i]
      {
        if x in Masked(u[1..], flags[1..]) {
          var i :| 0 <= i < |u| - 1 && u[1..][i] == x && !flags[1..][i];
          assert u[i + 1] == x && !flags[i + 1];
        } else {
          assert u[0] == x && !flags[0];
        }
      }
    }
  }

  lemma {:induction false} NoneMasked(u: seq<nat>, flags: seq<bool>)
    requires |u| == |flags| && forall i :: 0 <= i < |u| ==> !flags[i]
    ensures Masked(u, flags) == u
  {
    if u != [] {
      NoneMasked(u[1..], flags[1..]);
    }
  }

  // Flagging what fails p filters the unflagged by p.
  lemma {:induction false} FlaggingFilters(u: seq<nat>, f: seq<bool>, g: seq<bool>, p: nat -> bool)
    requires |u| == |f| == |g|
    requires forall i :: 0 <= i < |u| ==> (g[i] <==> f[i] || !p(u[i]))
    ensures Masked(u, g) == Filter(Masked(u, f), p)
  {
    if u != [] {
      FlaggingFilters(u[1..], f[1..], g[1..], p);
      var m := Masked(u[1..], f[1..]);
      if !f[0] {
        assert Masked(u, f) == [u[0]] + m && ([u[0]] + m)[1..] == m;
      } else {
        assert Masked(u, f) == m;
      }
    }
  }

  // ---- The state between passes --------------------------------------------------------------

  // What holds of the amount a and the flag of a row of weight x when rest is left for sum.
  ghost predicate RowBetween(x: nat, a: nat, flag: bool, rest: int, sum: nat, cap: nat)
    requires rest >= 0
  {
    && (flag ==> a == cap && cap > 0 && x > 0 && (sum > 0 ==> Over(x, rest, sum, cap)))
    && (x == 0 ==> a == 0)
  }

  // What holds of the slices when rest is left for the weights not flagged.
  ghost predicate Between(u: seq<nat>, a: seq<nat>, flags: seq<bool>, rest: int, budget: nat, cap: nat)
  {
    && |u| == |a| == |flags| && rest >= 0
    && rest == budget - cap * (|u| - |Masked(u, flags)|)
    && (forall i :: 0 <= i < |u| ==> RowBetween(u[i], a[i], flags[i], rest, Sum(Masked(u, flags)), cap))
  }

  // What a pass does to the amount a and the flag f of a row of weight x.
  ghost predicate PassAt(x: nat, a: nat, f: bool, b: nat, g: bool, rest: nat, cap: nat, sum: nat)
    requires sum > 0
  {
    && (g <==> f || Over(x, rest, sum, cap))
    && b == if f then a else if Over(x, rest, sum, cap) then cap else rest * x / sum
  }

  // The slices after the inner loop of a pass.
  ghost predicate PassDone(u: seq<nat>, a: seq<nat>, f: seq<bool>, b: seq<nat>, g: seq<bool>,
                           rest: nat, cap: nat, sum: nat)
  {
    && |u| == |a| == |f| == |b| == |g| && sum > 0
    && forall i :: 0 <= i < |u| ==> PassAt(u[i], a[i], f[i], b[i], g[i], rest, cap, sum)
  }

  lemma PassMasks(u: seq<nat>, a: seq<nat>, f: seq<bool>, b: seq<nat>, g: seq<bool>, rest: nat, cap: nat)
    requires |u| == |f| && Sum(Masked(u, f)) > 0
    requires PassDone(u, a, f, b, g, rest, cap, Sum(Masked(u, f)))
    ensures Masked(u, g) == Keep(Masked(u, f), rest, cap)
    ensures |Masked(u, g)| == |Masked(u, f)| <==> forall i :: 0 <= i < |u| ==> (g[i] <==> f[i])
  {
    var p := Within(rest, Sum(Masked(u, f)), cap);
    FlaggingFilters(u, f, g, p);
    FilterAll(Masked(u, f), p);
    MaskedMembers(u, f);
  }

  // A pass at a level takes a row to any level not below.
  lemma RowPasses(x: nat, a: nat, f: bool, b: nat, g: bool, rest: nat, cap: nat, sum: nat, left: nat, sum': nat)
    requires sum > 0 && RowBetween(x, a, f, rest, sum, cap) && PassAt(x, a, f, b, g, rest, cap, sum)
    requires left * sum >= rest * sum'
    ensures RowBetween(x, b, g, left, sum', cap)
  {
    if g {
      OverWorth(x, rest, sum, cap);
      if sum' > 0 {
        OverPersists(x, rest, sum, cap, left, sum');
      }
    }
    assert x == 0 ==> rest * x == 0;
  }

  lemma PassRestoresBetween(u: seq<nat>, a: seq<nat>, f: seq<bool>, b: seq<nat>, g: seq<bool>,
                            rest: nat, budget: nat, cap: nat)
    requires Between(u, a, f, rest, budget, cap) && Sum(Masked(u, f)) > 0
    requires PassDone(u, a, f, b, g, rest, cap, Sum(Masked(u, f)))
    ensures Between(u, b, g, budget - cap * (|u| - |Masked(u, g)|), budget, cap)
  {
    var free, kept := Masked(u, f), Masked(u, g);
    PassMasks(u, a, f, b, g, rest, cap);
    PassRaisesLevel(free, rest, cap);
    MulDistributes(cap, |u| - |free|, |free| - |kept|);
    var left := rest - cap * (|free| - |kept|);
    forall i | 0 <= i < |u|
      ensures RowBetween(u[i], b[i], g[i], left, Sum(kept), cap)
    {
      RowPasses(u[i], a[i], f[i], b[i], g[i], rest, cap, Sum(free), left, Sum(kept));
    }
  }

  // The slices when the loop halts hold the fixpoint's shares and flags.
  ghost predicate Halted(u: seq<nat>, a: seq<nat>, flags: seq<bool>, l: Level, cap: nat)
  {
    |u| == |a| == |flags| && a == Shares(u, l, cap) && flags == Flags(u, l, cap)
  }

  lemma HaltWithoutNewCaps(u: seq<nat>, a: seq<nat>, f: seq<bool>, b: seq<nat>, rest: nat, budget: nat, cap: nat)
    requires Between(u, a, f, rest, budget, cap) && Sum(Masked(u, f)) > 0
    requires PassDone(u, a, f, b, f, rest, cap, Sum(Masked(u, f)))
    ensures Halted(u, b, f, Level(Masked(u, f), rest), cap)
  {
  }

  // ---- The loops -----------------------------------------------------------------------------

  method UncappedWeight(p: Policy, isCapped: array<bool>) returns (weightSum: nat)
    requires Computable(p) && isCapped.Length == |p.entries|
    ensures weightSum == Sum(Masked(Weights(p.entries), isCapped[..]))
  {
    ghost var u, flags := Weights(p.entries), isCapped[..];
    weightSum := 0;
    for i := 0 to |p.entries|
      invariant weightSum + Sum(Masked(u[i..], flags[i..])) == Sum(Masked(u, flags))
    {
      assert GoodEntry(p.entries[i]);
      assert u[i..][1..] == u[i + 1..] && flags[i..][1..] == flags[i + 1..];
      ghost var tail := Masked(u[i + 1..], flags[i + 1..]);
      if !isCapped[i] {
        weightSum := weightSum + p.entries[i].weight;
        assert Masked(u[i..], flags[i..]) == [u[i]] + tail && ([u[i]] + tail)[1..] == tail;
      } else {
        assert Masked(u[i..], flags[i..]) == tail;
      }
    }
  }

  // One row's floored share, cut to the cap.
  method ShareOrCap(x: nat, remaining: nat, weightSum: nat, cap: nat) returns (share: nat, over: bool)
    requires weightSum > 0
    ensures over <==> Over(x, remaining, weightSum, cap)
    ensures share == if over then cap else remaining * x / weightSum
  {
    share := remaining * x / weightSum;
    over := cap > 0 && share > cap;
    if over {
      share := cap;
    }
  }

  method CapPass(p: Policy, amounts: array<nat>, isCapped: array<bool>, remaining: nat, weightSum: nat)
      returns (newlyCapped: bool)
    requires Computable(p) && weightSum > 0
    requires amounts.Length == isCapped.Length == |p.entries|
    modifies amounts, isCapped
    ensures PassDone(Weights(p.entries), old(amounts[..]), old(isCapped[..]), amounts[..], isCapped[..],
                     remaining, p.maxAlloc, weightSum)
    ensures newlyCapped <==> isCapped[..] != old(isCapped[..])
  {
    var n := |p.entries|;
    ghost var u := Weights(p.entries);
    newlyCapped := false;
    ghost var first := 0;
    for i := 0 to n
      invariant forall k :: 0 <= k < i ==>
        PassAt(u[k], old(amounts[k]), old(isCapped[k]), amounts[k], isCapped[k], remaining, p.maxAlloc, weightSum)
      invariant forall k :: i <= k < n ==> isCapped[k] == old(isCapped[k]) && amounts[k] == old(amounts[k])
      invariant newlyCapped ==> first < i && isCapped[first] && !old(isCapped[first])
      invariant !newlyCapped ==> forall k :: 0 <= k < n ==> isCapped[k] == old(isCapped[k])
    {
      assert GoodEntry(p.entries[i]);
      if isCapped[i] {
        continue;
      }
      var share, over := ShareOrCap(p.entries[i].weight, remaining, weightSum, p.maxAlloc);
      if over {
        isCapped[i] := true;
        newlyCapped, first := true, i;
      }
      amounts[i] := share;
    }
  }

  lemma {:induction false} CappedTotal(a: seq<nat>, flags: seq<bool>, u: seq<nat>, cap: nat)
    requires |a| == |flags| == |u| && forall i :: 0 <= i < |a| && flags[i] ==> a[i] == cap
    ensures SumFlagged(a, flags) == cap * (|u| - |Masked(u, flags)|)
  {
    if a != [] {
      CappedTotal(a[1..], flags[1..], u[1..], cap);
      MulDistributes(cap, 1, |u| - 1 - |Masked(u[1..], flags[1..])|);
    }
  }

  function SumFlagged(a: seq<nat>, flags: seq<bool>): nat
    requires |a| == |flags|
  {
    if a == [] then 0 else (if flags[0] then a[0] else 0) + SumFlagged(a[1..], flags[1..])
  }

  method LeftOver(budget: nat, amounts: array<nat>, isCapped: array<bool>) returns (remaining: int)
    requires amounts.Length == isCapped.Length
    ensures remaining == budget - SumFlagged(amounts[..], isCapped[..])
  {
    ghost var a, f := amounts[..], isCapped[..];
    remaining := budget;
    for i := 0 to amounts.Length
      invariant remaining - SumFlagged(a[i..], f[i..]) == budget - SumFlagged(a, f)
    {
      assert a[i..][1..] == a[i + 1..] && f[i..][1..] == f[i + 1..];
      if isCapped[i] {
        remaining := remaining - amounts[i];
      }
    }
  }

  // One pass: what it caps, and what it leaves for the weights still uncapped.
  method OnePass(p: Policy, amounts: array<nat>, isCapped: array<bool>, remaining: nat, weightSum: nat)
      returns (newlyCapped: bool, left: int)
    requires Computable(p) && amounts.Length == isCapped.Length == |p.entries|
    requires var u := Weights(p.entries);
             && Between(u, amounts[..], isCapped[..], remaining, p.totalBudget, p.maxAlloc)
             && weightSum == Sum(Masked(u, isCapped[..])) > 0
    modifies amounts, isCapped
    ensures var u, cap, free := Weights(p.entries), p.maxAlloc, Masked(Weights(p.entries), old(isCapped[..]));
            var kept := Keep(free, remaining, cap);
            && (!newlyCapped ==>
                  && |kept| == |free|
                  && Halted(u, amounts[..], isCapped[..], Level(free, remaining), cap))
            && (newlyCapped ==>
                  && |kept| < |free| && left == remaining - cap * (|free| - |kept|)
                  && kept == Masked(u, isCapped[..])
                  && (left >= 0 ==> Between(u, amounts[..], isCapped[..], left, p.totalBudget, cap)))
  {
    ghost var u, cap, a, f := Weights(p.entries), p.maxAlloc, amounts[..], isCapped[..];
    newlyCapped := CapPass(p, amounts, isCapped, remaining, weightSum);
    ghost var b, g := amounts[..], isCapped[..];
    PassMasks(u, a, f, b, g, remaining, cap);
    left := 0;
    if newlyCapped {
      PassRestoresBetween(u, a, f, b, g, remaining, p.totalBudget, cap);
      left := LeftOver(p.totalBudget, amounts, isCapped);
      LeftOverIs(u, f, b, g, remaining, p.totalBudget, cap);
    } else {
      HaltWithoutNewCaps(u, a, f, b, remaining, p.totalBudget, cap);
    }
  }

  // What is left of the budget is what was left less the newly capped.
  lemma LeftOverIs(u: seq<nat>, f: seq<bool>, b: seq<nat>, g: seq<bool>, rest: nat, budget: nat, cap: nat)
    requires |u| == |f| == |b| == |g| && |Masked(u, g)| <= |Masked(u, f)|
    requires forall i :: 0 <= i < |u| && g[i] ==> b[i] == cap
    requires rest == budget - cap * (|u| - |Masked(u, f)|)
    ensures budget - SumFlagged(b, g) == rest - cap * (|Masked(u, f)| - |Masked(u, g)|)
         == budget - cap * (|u| - |Masked(u, g)|)
  {
    CappedTotal(b, g, u, cap);
    MulDistributes(cap, |u| - |Masked(u, f)|, |Masked(u, f)| - |Masked(u, g)|);
  }

  // What the specification does with the outcome of a pass.
  lemma SettleUnfolds(free: seq<nat>, rest: nat, cap: nat, passes: nat)
    requires passes > 0 && Sum(free) > 0
    ensures var kept := Keep(free, rest, cap);
            var left := rest - cap * (|free| - |kept|);
            Settle(free, rest, cap, passes)
              == if |kept| == |free| then Some(Level(free, rest))
                 else if left < 0 then None
                 else Settle(kept, left, cap, passes - 1)
  {
  }

  // What the capping loop is to compute.
  ghost function Settled(p: Policy): Option<Level>
    requires Computable(p)
  {
    Settle(Weights(p.entries), p.totalBudget, p.maxAlloc, |p.entries| + 1)
  }

  // Between passes: where the loop stands and what is still to be settled.
  ghost predicate Standing(p: Policy, a: seq<nat>, flags: seq<bool>, rest: int, passes: nat)
    requires Computable(p)
  {
    var u, budget, cap := Weights(p.entries), p.totalBudget, p.maxAlloc;
    && Between(u, a, flags, rest, budget, cap)
    && |Masked(u, flags)| < passes
    && Settled(p) == Settle(Masked(u, flags), rest, cap, passes)
  }

  lemma StandsAtTheStart(p: Policy, a: seq<nat>, flags: seq<bool>)
    requires Computable(p) && |a| == |flags| == |p.entries|
    requires forall i :: 0 <= i < |a| ==> a[i] == 0 && !flags[i]
    ensures Standing(p, a, flags, p.totalBudget, |p.entries| + 1)
  {
    NoneMasked(Weights(p.entries), flags);
  }

  lemma HaltsWithoutWeight(p: Policy, a: seq<nat>, flags: seq<bool>, rest: nat, passes: nat)
    requires Computable(p) && Standing(p, a, flags, rest, passes) && Sum(Masked(Weights(p.entries), flags)) == 0
    ensures var l := Level(Masked(Weights(p.entries), flags), rest);
            Settled(p) == Some(l) && Halted(Weights(p.entries), a, flags, l, p.maxAlloc)
  {
    ZeroSum(Masked(Weights(p.entries), flags));
    MaskedMembers(Weights(p.entries), flags);
  }

  // One pass of the standing loop: it halts, overdraws or stands again with one pass fewer to go.
  method NextPass(p: Policy, amounts: array<nat>, isCapped: array<bool>, remaining: nat, weightSum: nat,
                  ghost passes: nat)
      returns (newlyCapped: bool, left: int)
    requires Computable(p) && amounts.Length == isCapped.Length == |p.entries|
    requires Standing(p, amounts[..], isCapped[..], remaining, passes)
    requires weightSum == Sum(Masked(Weights(p.entries), isCapped[..])) > 0
    modifies amounts, isCapped
    ensures !newlyCapped ==>
              var l := Level(Masked(Weights(p.entries), old(isCapped[..])), remaining);
              Settled(p) == Some(l) && Halted(Weights(p.entries), amounts[..], isCapped[..], l, p.maxAlloc)
    ensures newlyCapped && left < 0 ==> Settled(p) == None
    ensures newlyCapped && left >= 0 ==> Standing(p, amounts[..], isCapped[..], left, passes - 1)
  {
    SettleUnfolds(Masked(Weights(p.entries), isCapped[..]), remaining, p.maxAlloc, passes);
    newlyCapped, left := OnePass(p, amounts, isCapped, remaining, weightSum);
  }

  // The amount of a row of weight x, capped in whatever pass or never, when rest is left for sum.
  ghost predicate ClosedForm(amount: nat, x: nat, rest: nat, sum: nat, cap: nat)
  {
    if sum > 0 then amount == AtMost(rest * x / sum, cap)
    else amount == if cap > 0 && x > 0 then cap else 0
  }

  lemma SharesInClosedForm(u: seq<nat>, l: Level, cap: nat, i: nat)
    requires i < |u|
    ensures ClosedForm(Shares(u, l, cap)[i], u[i], l.rest, Sum(l.free), cap)
  {
    if Sum(l.free) > 0 {
      ShareIsMinimum(u[i], l, cap);
    }
  }

  // The capping loop, with its pass bound and its error branch. Neither is ever taken: the loop halts at the
  // fixpoint, and every amount is told in one way from what is left for whom.
  method FillLoop(p: Policy, amounts: array<nat>, isCapped: array<bool>) returns (overdrawn: bool, ghost l: Level)
    requires Computable(p)
    requires amounts.Length == isCapped.Length == |p.entries|
    requires forall i :: 0 <= i < |p.entries| ==> amounts[i] == 0 && !isCapped[i]
    modifies amounts, isCapped
    ensures !overdrawn && Settled(p) == Some(l) && Fixpoint(Weights(p.entries), p.totalBudget, p.maxAlloc, l)
    ensures Halted(Weights(p.entries), amounts[..], isCapped[..], l, p.maxAlloc)
    ensures forall i :: 0 <= i < amounts.Length ==>
              ClosedForm(amounts[i], Weights(p.entries)[i], l.rest, Sum(l.free), p.maxAlloc)
  {
    overdrawn, l := RunPasses(p, amounts, isCapped);
    ghost var u := Weights(p.entries);
    SettleReachesFixpoint(u, p.totalBudget, p.maxAlloc, |u| + 1);
    forall i | 0 <= i < amounts.Length
      ensures ClosedForm(amounts[..][i], u[i], l.rest, Sum(l.free), p.maxAlloc)
    {
      SharesInClosedForm(u, l, p.maxAlloc, i);
    }
  }

  method RunPasses(p: Policy, amounts: array<nat>, isCapped: array<bool>) returns (overdrawn: bool, ghost l: Level)
    requires Computable(p)
    requires amounts.Length == isCapped.Length == |p.entries|
    requires forall i :: 0 <= i < |p.entries| ==> amounts[i] == 0 && !isCapped[i]
    modifies amounts, isCapped
    ensures overdrawn ==> Settled(p) == None
    ensures !overdrawn ==>
              Settled(p) == Some(l) && Halted(Weights(p.entries), amounts[..], isCapped[..], l, p.maxAlloc)
  {
    var n := |p.entries|;
    var remaining: int := p.totalBudget;
    StandsAtTheStart(p, amounts[..], isCapped[..]);
    l := Level([], 0);
    var pass := 0;
    while pass <= n
      invariant 0 <= pass <= n
      invariant Standing(p, amounts[..], isCapped[..], remaining, n + 1 - pass)
    {
      var weightSum := UncappedWeight(p, isCapped);
      l := Level(Masked(Weights(p.entries), isCapped[..]), remaining);
      if weightSum == 0 {
        HaltsWithoutWeight(p, amounts[..], isCapped[..], remaining, n + 1 - pass);
        return false, l;
      }
      var newlyCapped, left := NextPass(p, amounts, isCapped, remaining, weightSum, n + 1 - pass);
      if !newlyCapped {
        return false, l;
      }
      if left < 0 {
        return true, l;
      }
      remaining := left;
      pass := pass + 1;
    }
    // Unreachable: fewer weights are left uncapped than passes to go.
    assert false;
  }

  // The remainder of the budget goes to the first row as written that may take all of it.
  method DistributeDust(p: Policy, out: array<Allocation>, isCapped: array<bool>, ghost a: seq<nat>)
    requires Computable(p) && out.Length == isCapped.Length == |p.entries| == |a|
    requires out[..] == Rows(p.entries, a)
    modifies out
    ensures out[..] == Rows(p.entries, AddDust(Weights(p.entries), a, isCapped[..], p.totalBudget, p.maxAlloc))
  {
    ghost var u, flags, rows := Weights(p.entries), isCapped[..], out[..];
    var paid := Total(out[..]);
    RowsSum(p.entries, a);
    var dust := p.totalBudget - paid;
    if dust <= 0 {
      return;
    }
    for i := 0 to out.Length
      invariant out[..] == rows
      invariant Absorber(u, a, flags, p.maxAlloc, dust, 0) == Absorber(u, a, flags, p.maxAlloc, dust, i)
    {
      assert GoodEntry(p.entries[i]);
      if isCapped[i] {
        continue;
      }
      if p.entries[i].weight == 0 {
        continue;
      }
      var candidate := out[i].amount + dust;
      if p.maxAlloc > 0 && candidate > p.maxAlloc {
        continue;
      }
      out[i] := out[i].(amount := candidate);
      assert Absorbs(u, a, flags, p.maxAlloc, dust, i);
      return;
    }
  }

  method RowsOf(p: Policy, amounts: array<nat>) returns (out: array<Allocation>)
    requires Computable(p) && amounts.Length == |p.entries|
    ensures fresh(out) && out.Length == |p.entries| && out[..] == Rows(p.entries, amounts[..])
  {
    var n := |p.entries|;
    out := new Allocation[n](i requires 0 <= i < n => Allocation(0, 0, 0));
    for i := 0 to n
      invariant forall k :: 0 <= k < i ==> out[k] == Allocation(0, p.entries[k].recipient, amounts[k])
    {
      assert GoodEntry(p.entries[i]);
      out[i] := Allocation(0, p.entries[i].recipient, amounts[i]);
    }
  }

  lemma SettledShares(p: Policy, l: Level)
    requires Computable(p) && Settled(p) == Some(l)
    ensures var u, budget, cap := Weights(p.entries), p.totalBudget, p.maxAlloc;
            WeightedShares(u, budget, cap) == Ok(AddDust(u, Shares(u, l, cap), Flags(u, l, cap), budget, cap))
  {
  }

  method WeightedAmounts(p: Policy) returns (r: Result<seq<Allocation>>)
    requires Computable(p)
    ensures match WeightedShares(Weights(p.entries), p.totalBudget, p.maxAlloc)
            case Ok(a) => r == Ok(Rows(p.entries, a))
            case Err(e) => r == Err(e)
  {
    var n := |p.entries|;
    var amounts := new nat[n](_ => 0);
    var isCapped := new bool[n](_ => false);
    var overdrawn, l := FillLoop(p, amounts, isCapped);
    if overdrawn {
      return Err(Overdrawn);
    }
    SettledShares(p, l);
    ghost var a := Shares(Weights(p.entries), l, p.maxAlloc);
    var out := RowsOf(p, amounts);
    DistributeDust(p, out, isCapped, a);
    return Ok(out[..]);
  }

  method DirectRows(p: Policy) returns (r: Result<seq<Allocation>>)
    requires Computable(p) && (p.mode == EXPLICIT || p.mode == TIERED)
    ensures r == if Banded(p) then Ok(Rows(p.entries, DirectAmounts(p))) else Err(NoSuchBand)
  {
    var n := |p.entries|;
    var out := new Allocation[n](i requires 0 <= i < n => Allocation(0, 0, 0));
    for i := 0 to n
      invariant p.mode == TIERED ==> forall k :: 0 <= k < i ==> InBands(p.entries[k], p.bands)
      invariant Banded(p) ==>
        forall k :: 0 <= k < i ==> out[k] == Allocation(0, p.entries[k].recipient, DirectAmounts(p)[k])
    {
      var e := p.entries[i];
      assert GoodEntry(e);
      if p.mode == TIERED && e.weight >= |p.bands| {
        assert !InBands(e, p.bands);
        return Err(NoSuchBand);
      }
      var amount: nat := if p.mode == TIERED then p.bands[e.weight] else e.amount;
      if p.maxAlloc > 0 && amount > p.maxAlloc {
        amount := p.maxAlloc;
      }
      out[i] := Allocation(0, e.recipient, amount);
    }
    assert out[..] == Rows(p.entries, DirectAmounts(p));
    return Ok(out[..]);
  }

  method EvaluatePolicy(p: Policy) returns (r: Result<seq<Allocation>>)
    requires Computable(p)
    ensures r == Evaluate(p)
  {
    var computed: Result<seq<Allocation>>;
    if p.mode == WEIGHTED {
      computed := WeightedAmounts(p);
    } else if p.mode == EXPLICIT || p.mode == TIERED {
      computed := DirectRows(p);
    } else {
      computed := Err(UnsupportedMode);
    }
    if computed.Err? {
      return computed;
    }
    r := TabulateRows(computed.value, p.minAlloc, p.totalBudget);
  }

  function OnlyIf(keep: bool, r: Allocation): seq<Allocation>
  {
    if keep then [r] else []
  }

  lemma Reassociate(a: seq<Allocation>, b: seq<Allocation>, c: seq<Allocation>)
    ensures a + (b + c) == (a + b) + c
  {
  }

  lemma {:induction false} KeepRowsSnoc(rows: seq<Allocation>, r: Allocation, floor: int)
    ensures KeepRows(rows + [r], floor) == KeepRows(rows, floor) + OnlyIf(Kept(r, floor), r)
  {
    if rows == [] {
      assert [r][1..] == [];
    } else {
      KeepRowsSnoc(rows[1..], r, floor);
      assert (rows + [r])[1..] == rows[1..] + [r];
      Reassociate(OnlyIf(Kept(rows[0], floor), rows[0]), KeepRows(rows[1..], floor), OnlyIf(Kept(r, floor), r));
    }
  }

  method KeepLoop(rows: seq<Allocation>, floor: int) returns (kept: seq<Allocation>)
    ensures kept == KeepRows(rows, floor)
  {
    kept := [];
    for i := 0 to |rows|
      invariant kept == KeepRows(rows[..i], floor)
    {
      KeepRowsSnoc(rows[..i], rows[i], floor);
      assert rows[..i + 1] == rows[..i] + [rows[i]];
      if rows[i].amount <= 0 {
        continue;
      }
      if floor > 0 && rows[i].amount < floor {
        continue;
      }
      kept := kept + [rows[i]];
    }
    assert rows[..|rows|] == rows;
  }

  // The library sort is not part of this model: any routine that arranges distinct recipients in
  // ascending order returns what SortRows returns.
  method TabulateRows(rows: seq<Allocation>, floor: int, budget: int) returns (r: Result<seq<Allocation>>)
    ensures r == Tabulate(rows, floor, budget)
  {
    var kept := KeepLoop(rows, floor);
    if |kept| == 0 {
      return Err(AllocatesNothing);
    }
    var sorted := SortRows(kept);
    var table := new Allocation[|sorted|](i requires 0 <= i < |sorted| => sorted[i]);
    for i := 0 to table.Length
      invariant forall k :: 0 <= k < i ==> table[k] == sorted[k].(index := k)
      invariant forall k :: i <= k < table.Length ==> table[k] == sorted[k]
    {
      table[i] := table[i].(index := i);
    }
    assert table[..] == IndexRows(sorted);
    var total := Total(table[..]);
    return if total > budget then Err(ExceedsBudget) else Ok(table[..]);
  }

  method Total(allocs: seq<Allocation>) returns (total: nat)
    ensures total == SumAllocations(allocs)
  {
    total := 0;
    for i := 0 to |allocs|
      invariant total + SumAllocations(allocs[i..]) == SumAllocations(allocs)
    {
      assert allocs[i..][1..] == allocs[i + 1..];
      total := total + allocs[i].amount;
    }
  }
}
