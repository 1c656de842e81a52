/** From a valid policy to its allocation table: the specification of `Evaluate`. */
module Allocate {
  import opened Options
  import opened WaterFill
  import opened Policies

  datatype Allocation = Allocation(index: nat, recipient: nat, amount: nat)

  datatype EvalError = UnsupportedMode | NoSuchBand | Overdrawn | AllocatesNothing | ExceedsBudget

  datatype Result<+T> = Ok(value: T) | Err(error: EvalError)

  function SumAllocations(t: seq<Allocation>): nat
  {
    if t == [] then 0 else t[0].amount + SumAllocations(t[1..])
  }

  // ---- Amounts by mode -----------------------------------------------------------------------

  function AtMost(amount: nat, cap: nat): nat
  {
    if cap > 0 && amount > cap then cap else amount
  }

  function Weights(es: seq<Entry>): (u: seq<nat>)
    requires forall i :: 0 <= i < |es| ==> GoodEntry(es[i])
    ensures |u| == |es| && forall i :: 0 <= i < |es| ==> u[i] == es[i].weight
  {
    if es == [] then [] else [assert GoodEntry(es[0]); es[0].weight] + Weights(es[1..])
  }

  predicate Absorbs(u: seq<nat>, a: seq<nat>, flags: seq<bool>, cap: nat, dust: nat, i: nat)
    requires i < |u| == |a| == |flags|
  {
    !flags[i] && u[i] != 0 && (cap > 0 ==> a[i] + dust <= cap)
  }

  // The first position from i on that can absorb the dust, or the number of rows.
  function Absorber(u: seq<nat>, a: seq<nat>, flags: seq<bool>, cap: nat, dust: nat, i: nat): (k: nat)
    requires i <= |u| == |a| == |flags|
    ensures i <= k <= |u| && (k < |u| ==> Absorbs(u, a, flags, cap, dust, k))
    ensures forall j :: i <= j < k ==> !Absorbs(u, a, flags, cap, dust, j)
    decreases |u| - i
  {
    if i == |u| || Absorbs(u, a, flags, cap, dust, i) then i
    else Absorber(u, a, flags, cap, dust, i + 1)
  }

  function AddDust(u: seq<nat>, a: seq<nat>, flags: seq<bool>, budget: nat, cap: nat): (b: seq<nat>)
    requires |u| == |a| == |flags|
    ensures |b| == |a|
  {
    if Sum(a) >= budget then a
    else
      var dust := budget - Sum(a);
      var k := Absorber(u, a, flags, cap, dust, 0);
      if k < |a| then a[k := a[k] + dust] else a
  }

  function Flags(u: seq<nat>, l: Level, cap: nat): (f: seq<bool>)
    ensures |f| == |u|
    ensures forall i :: 0 <= i < |u| ==> f[i] == Capped(u[i], l, cap)
  {
    seq(|u|, i requires 0 <= i < |u| => Capped(u[i], l, cap))
  }

  function WeightedShares(u: seq<nat>, budget: nat, cap: nat): Result<seq<nat>>
  {
    match Settle(u, budget, cap, |u| + 1)
    case None => Err(Overdrawn)
    case Some(l) => Ok(AddDust(u, Shares(u, l, cap), Flags(u, l, cap), budget, cap))
  }

  function Direct(e: Entry, p: Policy): nat
    requires GoodEntry(e) && p.maxAlloc >= 0
    requires p.mode == TIERED ==> InBands(e, p.bands) && p.bands[e.weight] >= 0
  {
    AtMost(if p.mode == TIERED then p.bands[e.weight] else e.amount, p.maxAlloc)
  }

  predicate Computable(p: Policy)
  {
    && p.maxAlloc >= 0 && p.totalBudget >= 0
    && (forall i :: 0 <= i < |p.entries| ==> GoodEntry(p.entries[i]))
    && (p.mode == TIERED ==> forall i :: 0 <= i < |p.bands| ==> p.bands[i] >= 0)
  }

  predicate Banded(p: Policy)
  {
    p.mode == TIERED ==> forall i :: 0 <= i < |p.entries| ==> InBands(p.entries[i], p.bands)
  }

  function DirectAmounts(p: Policy): (a: seq<nat>)
    requires Computable(p) && Banded(p)
    ensures |a| == |p.entries|
    ensures forall i :: 0 <= i < |a| ==> a[i] == Direct(p.entries[i], p)
  {
    seq(|p.entries|, i requires 0 <= i < |p.entries| => Direct(p.entries[i], p))
  }

  function ComputeAmounts(p: Policy): Result<seq<nat>>
    requires Computable(p)
  {
    if p.mode == WEIGHTED then WeightedShares(Weights(p.entries), p.totalBudget, p.maxAlloc)
    else if p.mode == EXPLICIT || p.mode == TIERED then
      if Banded(p) then Ok(DirectAmounts(p)) else Err(NoSuchBand)
    else Err(UnsupportedMode)
  }

  function Rows(es: seq<Entry>, a: seq<nat>): (rows: seq<Allocation>)
    requires |es| == |a| && forall i :: 0 <= i < |es| ==> GoodEntry(es[i])
    ensures |rows| == |es|
    ensures forall i :: 0 <= i < |es| ==> rows[i] == Allocation(0, es[i].recipient, a[i])
  {
    if es == [] then []
    else [Allocation(0, es[0].recipient, a[0])] + Rows(es[1..], a[1..])
  }

  // ---- Floor, order, index -------------------------------------------------------------------

  predicate Kept(row: Allocation, floor: int)
  {
    row.amount > 0 && !(floor > 0 && row.amount < floor)
  }

  function KeepRows(rows: seq<Allocation>, floor: int): (kept: seq<Allocation>)
    ensures forall r :: r in kept <==> r in rows && Kept(r, floor)
  {
    if rows == [] then []
    else
      assert rows == [rows[0]] + rows[1..];
      (if Kept(rows[0], floor) then [rows[0]] else []) + KeepRows(rows[1..], floor)
  }

  function InsertRow(x: Allocation, rows: seq<Allocation>): seq<Allocation>
  {
    if rows == [] || x.recipient <= rows[0].recipient then [x] + rows
    else [rows[0]] + InsertRow(x, rows[1..])
  }

  function SortRows(rows: seq<Allocation>): seq<Allocation>
  {
    if rows == [] then [] else InsertRow(rows[0], SortRows(rows[1..]))
  }

  function IndexRows(rows: seq<Allocation>): (t: seq<Allocation>)
    ensures |t| == |rows| && forall i :: 0 <= i < |t| ==> t[i] == rows[i].(index := i)
  {
    seq(|rows|, i requires 0 <= i < |rows| => rows[i].(index := i))
  }

  function Tabulate(rows: seq<Allocation>, floor: int, budget: int): Result<seq<Allocation>>
  {
    var kept := KeepRows(rows, floor);
    if kept == [] then Err(AllocatesNothing)
    else
      var t := IndexRows(SortRows(kept));
      if SumAllocations(t) > budget then Err(ExceedsBudget) else Ok(t)
  }

  function Evaluate(p: Policy): Result<seq<Allocation>>
    requires Computable(p)
  {
    match ComputeAmounts(p)
    case Err(e) => Err(e)
    case Ok(a) => Tabulate(Rows(p.entries, a), p.minAlloc, p.totalBudget)
  }

  // ---- Order of rows -------------------------------------------------------------------------

  ghost predicate Ascending(t: seq<Allocation>)
  {
    forall i, j :: 0 <= i < j < |t| ==> t[i].recipient < t[j].recipient
  }

  ghost predicate DistinctRows(t: seq<Allocation>)
  {
    forall i, j :: 0 <= i < j < |t| ==> t[i].recipient != t[j].recipient
  }

  lemma {:induction false} InsertKeepsRows(x: Allocation, rows: seq<Allocation>)
    ensures multiset(InsertRow(x, rows)) == multiset{x} + multiset(rows)
    ensures SumAllocations(InsertRow(x, rows)) == x.amount + SumAllocations(rows)
  {
    if !(rows == [] || x.recipient <= rows[0].recipient) {
      InsertKeepsRows(x, rows[1..]);
      assert rows == [rows[0]] + rows[1..];
      assert InsertRow(x, rows)[1..] == InsertRow(x, rows[1..]);
    } else {
      assert ([x] + rows)[1..] == rows;
    }
  }

  lemma {:induction false} SortKeepsRows(rows: seq<Allocation>)
    ensures multiset(SortRows(rows)) == multiset(rows)
    ensures SumAllocations(SortRows(rows)) == SumAllocations(rows)
  {
    if rows != [] {
      SortKeepsRows(rows[1..]);
      InsertKeepsRows(rows[0], SortRows(rows[1..]));
      assert rows == [rows[0]] + rows[1..];
    }
  }

  lemma PrependAscending(x: Allocation, rows: seq<Allocation>)
    requires Ascending(rows) && forall r :: r in rows ==> x.recipient < r.recipient
    ensures Ascending([x] + rows)
  {
    assert forall i :: 0 <= i < |rows| ==> rows[i] in rows;
  }

  lemma {:induction false} InsertMembers(x: Allocation, rows: seq<Allocation>)
    ensures forall r :: r in InsertRow(x, rows) ==> r == x || r in rows
  {
    if !(rows == [] || x.recipient <= rows[0].recipient) {
      InsertMembers(x, rows[1..]);
    }
  }

  lemma {:induction false} InsertAscending(x: Allocation, rows: seq<Allocation>)
    requires Ascending(rows) && forall r :: r in rows ==> r.recipient != x.recipient
    ensures Ascending(InsertRow(x, rows))
  {
    if rows == [] {
    } else if x.recipient <= rows[0].recipient {
      PrependAscending(x, rows);
    } else {
      InsertAscending(x, rows[1..]);
      InsertMembers(x, rows[1..]);
      PrependAscending(rows[0], InsertRow(x, rows[1..]));
    }
  }

  lemma {:induction false} SortAscending(rows: seq<Allocation>)
    requires DistinctRows(rows)
    ensures Ascending(SortRows(rows))
  {
    if rows != [] {
      SortAscending(rows[1..]);
      SortKeepsRows(rows[1..]);
      forall r | r in SortRows(rows[1..])
        ensures r.recipient != rows[0].recipient
      {
        assert r in multiset(rows[1..]);
      }
      InsertAscending(rows[0], SortRows(rows[1..]));
    }
  }

  lemma AscendingHeads(s: seq<Allocation>, t: seq<Allocation>)
    requires Ascending(s) && Ascending(t) && s != [] && t != []
    requires s[0] in t && t[0] in s
    ensures s[0] == t[0]
  {
    var i :| 0 <= i < |t| && t[i] == s[0];
    var j :| 0 <= j < |s| && s[j] == t[0];
    assert i > 0 ==> t[0].recipient < t[i].recipient;
    assert j > 0 ==> s[0].recipient < s[j].recipient;
  }

  lemma TailsAlike(s: seq<Allocation>, t: seq<Allocation>)
    requires s != [] && t != [] && s[0] == t[0] && multiset(s) == multiset(t)
    ensures multiset(s[1..]) == multiset(t[1..])
  {
    assert s == [s[0]] + s[1..] && t == [t[0]] + t[1..];
    assert multiset(s[1..]) == multiset(s) - multiset{s[0]} == multiset(t[1..]);
  }

  // There is one ascending arrangement: whatever sorting routine is used finds it.
  lemma {:induction false} AscendingUnique(s: seq<Allocation>, t: seq<Allocation>)
    requires Ascending(s) && Ascending(t) && multiset(s) == multiset(t)
    ensures s == t
  {
    assert |multiset(s)| == |multiset(t)|;
    if s != [] {
      assert s[0] in multiset(t) && t[0] in multiset(s);
      AscendingHeads(s, t);
      TailsAlike(s, t);
      AscendingUnique(s[1..], t[1..]);
    }
  }

  lemma {:induction false} SumIgnoresIndex(rows: seq<Allocation>, t: seq<Allocation>)
    requires |rows| == |t| && forall i :: 0 <= i < |t| ==> t[i].amount == rows[i].amount
    ensures SumAllocations(t) == SumAllocations(rows)
  {
    if rows != [] {
      SumIgnoresIndex(rows[1..], t[1..]);
    }
  }

  lemma {:induction false} KeepRowsDistinct(rows: seq<Allocation>, floor: int)
    requires DistinctRows(rows)
    ensures DistinctRows(KeepRows(rows, floor))
  {
    if rows != [] {
      KeepRowsDistinct(rows[1..], floor);
      forall r | r in KeepRows(rows[1..], floor)
        ensures r.recipient != rows[0].recipient
      {
        assert r in rows[1..];
      }
    }
  }

  lemma {:induction false} KeepRowsSum(rows: seq<Allocation>, floor: int)
    ensures SumAllocations(KeepRows(rows, floor)) <= SumAllocations(rows)
    ensures floor <= 0 ==> SumAllocations(KeepRows(rows, floor)) == SumAllocations(rows)
  {
    if rows != [] {
      KeepRowsSum(rows[1..], floor);
      var tail := KeepRows(rows[1..], floor);
      if Kept(rows[0], floor) {
        assert ([rows[0]] + tail)[1..] == tail;
      } else {
        assert [] + tail == tail;
      }
    }
  }

  lemma {:induction false} RowsSum(es: seq<Entry>, a: seq<nat>)
    requires |es| == |a| && forall i :: 0 <= i < |es| ==> GoodEntry(es[i])
    ensures SumAllocations(Rows(es, a)) == Sum(a)
  {
    if es != [] {
      RowsSum(es[1..], a[1..]);
      assert Rows(es, a)[1..] == Rows(es[1..], a[1..]);
    }
  }

  // ---- Sums of amounts -----------------------------------------------------------------------

  lemma {:induction false} SumPointwise(a: seq<nat>, b: seq<nat>)
    requires |a| == |b| && forall i :: 0 <= i < |a| ==> a[i] <= b[i]
    ensures Sum(a) <= Sum(b)
  {
    if a != [] {
      SumPointwise(a[1..], b[1..]);
    }
  }

  lemma {:induction false} SumUpdate(a: seq<nat>, k: nat, x: nat)
    requires k < |a|
    ensures Sum(a[k := x]) == Sum(a) - a[k] + x
  {
    if k == 0 {
      assert a[0 := x][1..] == a[1..];
    } else {
      SumUpdate(a[1..], k - 1, x);
      assert a[k := x][1..] == a[1..][k - 1 := x];
    }
  }

  lemma {:induction false} ExplicitSum(es: seq<Entry>, a: seq<nat>)
    requires |es| == |a| && forall i :: 0 <= i < |es| ==> a[i] <= es[i].amount
    ensures Sum(a) <= SumAmounts(es)
    ensures (forall i :: 0 <= i < |es| ==> a[i] == es[i].amount) ==> Sum(a) == SumAmounts(es)
  {
    if es != [] {
      ExplicitSum(es[1..], a[1..]);
    }
  }

  lemma {:induction false} TieredSum(es: seq<Entry>, bands: seq<int>, a: seq<nat>)
    requires |es| == |a| && forall i :: 0 <= i < |es| ==> InBands(es[i], bands) && a[i] <= bands[es[i].weight]
    ensures Sum(a) <= SumBands(es, bands)
    ensures (forall i :: 0 <= i < |es| ==> InBands(es[i], bands) && a[i] == bands[es[i].weight])
              ==> Sum(a) == SumBands(es, bands)
  {
    if es != [] {
      forall i | 0 <= i < |es| - 1
        ensures InBands(es[1..][i], bands) && a[1..][i] <= bands[es[1..][i].weight]
      {
        assert InBands(es[i + 1], bands);
      }
      TieredSum(es[1..], bands, a[1..]);
    }
  }

  lemma {:induction false} WeightsSum(es: seq<Entry>)
    requires forall i :: 0 <= i < |es| ==> GoodEntry(es[i])
    ensures Sum(Weights(es)) == SumWeights(es)
  {
    if es != [] {
      WeightsSum(es[1..]);
      assert Weights(es)[1..] == Weights(es[1..]);
    }
  }

  // ---- The dust ------------------------------------------------------------------------------

  ghost predicate FirstAbsorber(u: seq<nat>, a: seq<nat>, flags: seq<bool>, cap: nat, dust: nat, k: nat)
    requires k < |u| == |a| == |flags|
  {
    Absorbs(u, a, flags, cap, dust, k) && forall j :: 0 <= j < k ==> !Absorbs(u, a, flags, cap, dust, j)
  }

  ghost predicate CanAbsorb(u: seq<nat>, a: seq<nat>, flags: seq<bool>, cap: nat, dust: nat)
    requires |u| == |a| == |flags|
  {
    exists i :: 0 <= i < |u| && Absorbs(u, a, flags, cap, dust, i)
  }

  // The dust goes, whole, to the first uncapped row of positive weight with room for it; when there is
  // no dust or no such row, the amounts stay.
  lemma DustGoesToFirst(u: seq<nat>, a: seq<nat>, flags: seq<bool>, budget: nat, cap: nat)
    requires |u| == |a| == |flags| && Sum(a) <= budget
    ensures var b, dust := AddDust(u, a, flags, budget, cap), budget - Sum(a);
            if dust > 0 && CanAbsorb(u, a, flags, cap, dust)
            then exists k :: 0 <= k < |u| && FirstAbsorber(u, a, flags, cap, dust, k) && b == a[k := a[k] + dust]
            else b == a
  {
    var dust := budget - Sum(a);
    if dust > 0 {
      var k := Absorber(u, a, flags, cap, dust, 0);
      if CanAbsorb(u, a, flags, cap, dust) {
        assert FirstAbsorber(u, a, flags, cap, dust, k);
      } else {
        assert k == |u|;
      }
    }
  }

  // The row that takes the dust stays within the cap; the total becomes the budget unless no
  // uncapped row of positive weight has room for it.
  lemma DustConserves(u: seq<nat>, a: seq<nat>, flags: seq<bool>, budget: nat, cap: nat)
    requires |u| == |a| == |flags| && Sum(a) <= budget
    requires cap > 0 ==> forall i :: 0 <= i < |a| ==> a[i] <= cap
    ensures var b, dust := AddDust(u, a, flags, budget, cap), budget - Sum(a);
            && (cap > 0 ==> forall i :: 0 <= i < |b| ==> b[i] <= cap)
            && (forall i :: 0 <= i < |b| ==> b[i] >= a[i])
            && Sum(b) <= budget
            && (Sum(b) == budget <==>
                 dust == 0 || exists i :: 0 <= i < |u| && Absorbs(u, a, flags, cap, dust, i))
            && (Sum(b) != budget ==> b == a)
  {
    if Sum(a) < budget {
      var dust := budget - Sum(a);
      var k := Absorber(u, a, flags, cap, dust, 0);
      if k < |a| {
        SumUpdate(a, k, a[k] + dust);
      }
    }
  }

  // ---- Weighted mode, whole ------------------------------------------------------------------

  // The shares before dust, at the final level.
  function FinalLevel(u: seq<nat>, budget: nat, cap: nat): (l: Level)
    ensures Settle(u, budget, cap, |u| + 1) == Some(l)
    ensures Fixpoint(u, budget, cap, l)
  {
    SettleReachesFixpoint(u, budget, cap, |u| + 1);
    Settle(u, budget, cap, |u| + 1).value
  }

  lemma {:induction false} PositiveExists(u: seq<nat>) returns (i: nat)
    requires Sum(u) > 0
    ensures i < |u| && u[i] > 0
  {
    if u[0] > 0 {
      i := 0;
    } else {
      i := PositiveExists(u[1..]);
      i := i + 1;
    }
  }

  lemma NoCapAbsorbs(u: seq<nat>, l: Level, dust: nat)
    requires Sum(u) > 0
    ensures exists i :: 0 <= i < |u| && Absorbs(u, Shares(u, l, 0), Flags(u, l, 0), 0, dust, i)
  {
    var i := PositiveExists(u);
    assert Absorbs(u, Shares(u, l, 0), Flags(u, l, 0), 0, dust, i);
  }

  // Weighted mode never errs; it pays at most the budget, within the cap, and with no cap all of it.
  lemma WeightedTotal(u: seq<nat>, budget: nat, cap: nat)
    requires Sum(u) > 0
    ensures WeightedShares(u, budget, cap).Ok?
    ensures var a := WeightedShares(u, budget, cap).value;
            && |a| == |u| && Sum(a) <= budget
            && (cap > 0 ==> forall i :: 0 <= i < |a| ==> a[i] <= cap)
            && (cap == 0 ==> Sum(a) == budget)
  {
    var l := FinalLevel(u, budget, cap);
    var shares := Shares(u, l, cap);
    assert WeightedShares(u, budget, cap) == Ok(AddDust(u, shares, Flags(u, l, cap), budget, cap));
    DustBound(u, budget, cap, l);
    DustConserves(u, shares, Flags(u, l, cap), budget, cap);
    if cap == 0 {
      NoCapAbsorbs(u, l, budget - Sum(shares));
    }
  }

  // ---- Every mode ----------------------------------------------------------------------------

  lemma AmountsWithinPolicy(p: Policy)
    requires WellFormed(p)
    ensures ComputeAmounts(p).Ok?
    ensures var a := ComputeAmounts(p).value;
            && |a| == |p.entries| && Sum(a) <= p.totalBudget
            && (p.maxAlloc > 0 ==> forall i :: 0 <= i < |a| ==> a[i] <= p.maxAlloc)
            && Sum(a) <= Projected(p)
            && (p.maxAlloc == 0 ==> Sum(a) == Projected(p))
  {
    if p.mode == WEIGHTED {
      WeightsSum(p.entries);
      WeightsAddUp(p.entries);
      WeightedTotal(Weights(p.entries), p.totalBudget, p.maxAlloc);
    } else if p.mode == EXPLICIT {
      ExplicitSum(p.entries, DirectAmounts(p));
    } else {
      TieredSum(p.entries, p.bands, DirectAmounts(p));
    }
  }

  // Row k of a table: a policy recipient with a positive amount between floor and cap.
  ghost predicate GoodRow(t: seq<Allocation>, k: nat, p: Policy)
    requires k < |t|
  {
    && t[k].index == k && t[k].recipient != 0 && t[k].amount > 0
    && t[k].amount >= p.minAlloc && (p.maxAlloc > 0 ==> t[k].amount <= p.maxAlloc)
    && exists i :: 0 <= i < |p.entries| && p.entries[i].recipient == t[k].recipient
  }

  ghost predicate GoodTable(t: seq<Allocation>, p: Policy)
  {
    && 0 < |t| <= |p.entries|
    && Ascending(t)
    && (forall k :: 0 <= k < |t| ==> GoodRow(t, k, p))
    && SumAllocations(t) <= p.totalBudget
  }

  // Evaluation of a valid policy fails only when no row survives the floor, and never otherwise; the
  // table it yields is good, and its total is bounded by the previewed one.
  lemma EvaluateGood(p: Policy)
    requires WellFormed(p)
    ensures ComputeAmounts(p).Ok?
    ensures var rows := Rows(p.entries, ComputeAmounts(p).value);
            if exists r :: r in rows && Kept(r, p.minAlloc) then Evaluate(p).Ok?
            else Evaluate(p) == Err(AllocatesNothing)
    ensures Evaluate(p).Ok? ==>
              && GoodTable(Evaluate(p).value, p)
              && SumAllocations(Evaluate(p).value) <= Projected(p)
              && (p.minAlloc == 0 && p.maxAlloc == 0 ==> SumAllocations(Evaluate(p).value) == Projected(p))
  {
    AmountsWithinPolicy(p);
    var a := ComputeAmounts(p).value;
    var rows := Rows(p.entries, a);
    RowsSum(p.entries, a);
    TabulateTotal(rows, p.minAlloc, p.totalBudget);
    TableFromRows(p, a);
    if exists r :: r in rows && Kept(r, p.minAlloc) {
      var r :| r in rows && Kept(r, p.minAlloc);
      assert r in KeepRows(rows, p.minAlloc);
    } else if KeepRows(rows, p.minAlloc) != [] {
      assert KeepRows(rows, p.minAlloc)[0] in rows;
    }
  }

  // The final budget check never fires once the rows respect the budget.
  lemma TabulateTotal(rows: seq<Allocation>, floor: int, budget: int)
    requires SumAllocations(rows) <= budget
    ensures var kept := KeepRows(rows, floor);
            Tabulate(rows, floor, budget)
              == if kept == [] then Err(AllocatesNothing) else Ok(IndexRows(SortRows(kept)))
    ensures var t := IndexRows(SortRows(KeepRows(rows, floor)));
            && SumAllocations(t) <= SumAllocations(rows)
            && (floor <= 0 ==> SumAllocations(t) == SumAllocations(rows))
  {
    var kept := KeepRows(rows, floor);
    KeepRowsSum(rows, floor);
    SortKeepsRows(kept);
    SumIgnoresIndex(SortRows(kept), IndexRows(SortRows(kept)));
  }

  lemma {:induction false} KeepRowsShort(rows: seq<Allocation>, floor: int)
    ensures |KeepRows(rows, floor)| <= |rows|
  {
    if rows != [] {
      KeepRowsShort(rows[1..], floor);
    }
  }

  lemma TableFromRows(p: Policy, a: seq<nat>)
    requires WellFormed(p) && |a| == |p.entries|
    requires p.maxAlloc > 0 ==> forall i :: 0 <= i < |a| ==> a[i] <= p.maxAlloc
    ensures var t := IndexRows(SortRows(KeepRows(Rows(p.entries, a), p.minAlloc)));
            && |t| <= |p.entries| && Ascending(t) && forall k :: 0 <= k < |t| ==> GoodRow(t, k, p)
    ensures KeepRows(Rows(p.entries, a), p.minAlloc) != [] ==>
              IndexRows(SortRows(KeepRows(Rows(p.entries, a), p.minAlloc))) != []
  {
    var rows := Rows(p.entries, a);
    var kept := KeepRows(rows, p.minAlloc);
    var sorted := SortRows(kept);
    KeepRowsShort(rows, p.minAlloc);
    KeepRowsDistinct(rows, p.minAlloc);
    SortAscending(kept);
    SortKeepsRows(kept);
    assert |multiset(sorted)| == |multiset(kept)|;
    var t := IndexRows(sorted);
    forall k | 0 <= k < |t|
      ensures GoodRow(t, k, p)
    {
      assert sorted[k] in multiset(sorted);
      assert sorted[k] in kept && sorted[k] in rows;
      var i :| 0 <= i < |rows| && rows[i] == sorted[k];
      assert GoodEntry(p.entries[i]);
    }
  }
}
