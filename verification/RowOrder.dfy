/** What the order of a policy's rows can and cannot change. */
module RowOrder {
  import opened Options
  import opened WaterFill
  import opened Confluence
  import opened Policies
  import opened Allocate

  // The same policy with its rows in another order.
  ghost predicate Reordered(p: Policy, q: Policy)
  {
    multiset(p.entries) == multiset(q.entries) && q == p.(entries := q.entries)
  }

  function MapRows<A, B>(s: seq<A>, f: A -> B): (r: seq<B>)
    ensures |r| == |s| && forall i :: 0 <= i < |s| ==> r[i] == f(s[i])
  {
    seq(|s|, i requires 0 <= i < |s| => f(s[i]))
  }

  function Without<T>(t: seq<T>, k: nat): seq<T>
    requires k < |t|
  {
    t[..k] + t[k + 1..]
  }

  lemma WithoutOne<T>(t: seq<T>, k: nat)
    requires k < |t|
    ensures multiset(t) == multiset{t[k]} + multiset(Without(t, k))
  {
    assert t == t[..k] + [t[k]] + t[k + 1..];
  }

  lemma MapRowsWithoutOne<A, B>(t: seq<A>, k: nat, f: A -> B)
    requires k < |t|
    ensures multiset(MapRows(t, f)) == multiset{f(t[k])} + multiset(MapRows(Without(t, k), f))
  {
    var m := MapRows(t, f);
    WithoutOne(m, k);
    var a, b := Without(m, k), MapRows(Without(t, k), f);
    assert |a| == |b|;
    forall i | 0 <= i < |a|
      ensures a[i] == b[i]
    {
      assert i < k ==> a[i] == m[i] && Without(t, k)[i] == t[i];
      assert i >= k ==> a[i] == m[i + 1] && Without(t, k)[i] == t[i + 1];
    }
    assert a == b;
  }

  lemma Cancel<T>(x: T, a: multiset<T>, b: multiset<T>)
    requires multiset{x} + a == multiset{x} + b
    ensures a == b
  {
    assert a == (multiset{x} + a) - multiset{x};
    assert b == (multiset{x} + b) - multiset{x};
  }

  lemma {:induction false} MapRowsReorder<A, B>(s: seq<A>, t: seq<A>, f: A -> B)
    requires multiset(s) == multiset(t)
    ensures multiset(MapRows(s, f)) == multiset(MapRows(t, f))
    decreases |s|
  {
    if s == [] {
      assert |multiset(t)| == 0;
    } else {
      WithoutOne(s, 0);
      assert s[0] in multiset(t);
      var k :| 0 <= k < |t| && t[k] == s[0];
      WithoutOne(t, k);
      Cancel(s[0], multiset(Without(s, 0)), multiset(Without(t, k)));
      MapRowsReorder(Without(s, 0), Without(t, k), f);
      MapRowsWithoutOne(s, 0, f);
      MapRowsWithoutOne(t, k, f);
    }
  }

  lemma {:induction false} KeepRowsCount(rows: seq<Allocation>, floor: int, r: Allocation)
    ensures multiset(KeepRows(rows, floor))[r] == if Kept(r, floor) then multiset(rows)[r] else 0
  {
    if rows != [] {
      KeepRowsCount(rows[1..], floor, r);
      assert rows == [rows[0]] + rows[1..];
    }
  }

  // Tabulation forgets the order of the rows it is given.
  lemma TabulateIgnoresOrder(rows: seq<Allocation>, rows': seq<Allocation>, floor: int, budget: int)
    requires multiset(rows) == multiset(rows') && DistinctRows(rows) && DistinctRows(rows')
    ensures Tabulate(rows, floor, budget) == Tabulate(rows', floor, budget)
  {
    var kept, kept' := KeepRows(rows, floor), KeepRows(rows', floor);
    forall r: Allocation
      ensures multiset(kept)[r] == multiset(kept')[r]
    {
      KeepRowsCount(rows, floor, r);
      KeepRowsCount(rows', floor, r);
    }
    assert multiset(kept) == multiset(kept');
    assert |multiset(kept)| == |kept| && |multiset(kept')| == |kept'|;
    SortKeepsRows(kept);
    SortKeepsRows(kept');
    KeepRowsDistinct(rows, floor);
    KeepRowsDistinct(rows', floor);
    SortAscending(kept);
    SortAscending(kept');
    AscendingUnique(SortRows(kept), SortRows(kept'));
  }

  // The rows of a policy as an image of its entries.
  lemma RowsAsImage(es: seq<Entry>, a: seq<nat>, f: Entry -> Allocation)
    requires |es| == |a| && forall i :: 0 <= i < |es| ==> GoodEntry(es[i])
    requires forall i :: 0 <= i < |es| ==> f(es[i]) == Allocation(0, es[i].recipient, a[i])
    ensures Rows(es, a) == MapRows(es, f)
  {
  }

  lemma RowsDistinct(es: seq<Entry>, a: seq<nat>)
    requires |es| == |a| && Distinct(es) && forall i :: 0 <= i < |es| ==> GoodEntry(es[i])
    ensures DistinctRows(Rows(es, a))
  {
  }

  // Rows that are one function of their entries tabulate alike in every order.
  lemma ImagesTabulateAlike(es: seq<Entry>, a: seq<nat>, fs: seq<Entry>, b: seq<nat>, f: Entry -> Allocation,
                            floor: int, budget: int)
    requires multiset(es) == multiset(fs) && Distinct(es) && Distinct(fs) && |es| == |a| && |fs| == |b|
    requires forall i :: 0 <= i < |es| ==> GoodEntry(es[i]) && f(es[i]) == Allocation(0, es[i].recipient, a[i])
    requires forall i :: 0 <= i < |fs| ==> GoodEntry(fs[i]) && f(fs[i]) == Allocation(0, fs[i].recipient, b[i])
    ensures Tabulate(Rows(es, a), floor, budget) == Tabulate(Rows(fs, b), floor, budget)
  {
    RowsAsImage(es, a, f);
    RowsAsImage(fs, b, f);
    MapRowsReorder(es, fs, f);
    RowsDistinct(es, a);
    RowsDistinct(fs, b);
    TabulateIgnoresOrder(Rows(es, a), Rows(fs, b), floor, budget);
  }

  function DirectRow(p: Policy): Entry -> Allocation
    requires p.maxAlloc >= 0
  {
    (e: Entry) =>
      Allocation(0, e.recipient,
        if GoodEntry(e) && (p.mode == TIERED ==> InBands(e, p.bands) && p.bands[e.weight] >= 0)
        then Direct(e, p) else 0)
  }

  // In explicit and tiered mode every arrangement of the rows yields the very same table.
  lemma DirectModesIgnoreOrder(p: Policy, q: Policy)
    requires WellFormed(p) && WellFormed(q) && p.mode != WEIGHTED && Reordered(p, q)
    ensures Evaluate(p) == Evaluate(q)
  {
    ImagesTabulateAlike(p.entries, DirectAmounts(p), q.entries, DirectAmounts(q), DirectRow(p),
                        p.minAlloc, p.totalBudget);
  }

  // ---- Weighted mode -------------------------------------------------------------------------

  function WeightOf(): Entry -> nat
  {
    (e: Entry) => if e.weight >= 0 then e.weight else 0
  }

  lemma WeightsReorder(es: seq<Entry>, fs: seq<Entry>)
    requires multiset(es) == multiset(fs)
    requires forall i :: 0 <= i < |es| ==> GoodEntry(es[i])
    requires forall i :: 0 <= i < |fs| ==> GoodEntry(fs[i])
    ensures multiset(Weights(es)) == multiset(Weights(fs))
  {
    assert forall i :: 0 <= i < |es| ==> GoodEntry(es[i]) && WeightOf()(es[i]) == Weights(es)[i];
    assert forall i :: 0 <= i < |fs| ==> GoodEntry(fs[i]) && WeightOf()(fs[i]) == Weights(fs)[i];
    assert Weights(es) == MapRows(es, WeightOf());
    assert Weights(fs) == MapRows(fs, WeightOf());
    MapRowsReorder(es, fs, WeightOf());
  }

  function ShareOf(l: Level, cap: nat): nat -> nat
  {
    (x: nat) => Share(x, l, cap)
  }

  // Levels that pay and cap every weight alike.
  ghost predicate SameLevel(l: Level, k: Level, cap: nat)
  {
    forall x: nat :: Share(x, l, cap) == Share(x, k, cap) && (Capped(x, l, cap) <==> Capped(x, k, cap))
  }

  lemma FinalLevelIgnoresOrder(u: seq<nat>, v: seq<nat>, budget: nat, cap: nat)
    requires multiset(u) == multiset(v)
    ensures SameLevel(FinalLevel(u, budget, cap), FinalLevel(v, budget, cap), cap)
  {
    SettleIgnoresOrder(u, v, budget, cap);
  }

  lemma SharesTotalIgnoresOrder(u: seq<nat>, v: seq<nat>, l: Level, k: Level, cap: nat)
    requires multiset(u) == multiset(v) && SameLevel(l, k, cap)
    ensures Sum(Shares(u, l, cap)) == Sum(Shares(v, k, cap))
  {
    var a, b := Shares(u, l, cap), Shares(v, k, cap);
    assert a == MapRows(u, ShareOf(l, cap)) && b == MapRows(v, ShareOf(l, cap));
    MapRowsReorder(u, v, ShareOf(l, cap));
    TotalOfSeq(a);
    TotalOfSeq(b);
  }

  // Whether a weight can absorb the dust is told from the weight and the level.
  predicate RoomFor(x: nat, l: Level, cap: nat, dust: nat)
  {
    !Capped(x, l, cap) && x != 0 && (cap > 0 ==> Share(x, l, cap) + dust <= cap)
  }

  lemma AbsorbsIsRoom(u: seq<nat>, l: Level, cap: nat, dust: nat, i: nat)
    requires i < |u|
    ensures Absorbs(u, Shares(u, l, cap), Flags(u, l, cap), cap, dust, i) <==> RoomFor(u[i], l, cap, dust)
  {
  }

  lemma WeightedTotalTold(u: seq<nat>, budget: nat, cap: nat)
    ensures WeightedShares(u, budget, cap).Ok?
    ensures var l := FinalLevel(u, budget, cap);
            var pre := Sum(Shares(u, l, cap));
            && pre <= budget
            && Sum(WeightedShares(u, budget, cap).value)
                 == if exists x :: x in u && RoomFor(x, l, cap, budget - pre) then budget else pre
  {
    var l := FinalLevel(u, budget, cap);
    var a := Shares(u, l, cap);
    DustBound(u, budget, cap, l);
    DustConserves(u, a, Flags(u, l, cap), budget, cap);
    AbsorberIsRoom(u, l, cap, budget - Sum(a));
    if Sum(a) == budget {
      assert Sum(WeightedShares(u, budget, cap).value) == budget;
    }
  }

  lemma AbsorberIsRoom(u: seq<nat>, l: Level, cap: nat, dust: nat)
    ensures (exists i :: 0 <= i < |u| && Absorbs(u, Shares(u, l, cap), Flags(u, l, cap), cap, dust, i))
       <==> (exists x :: x in u && RoomFor(x, l, cap, dust))
  {
    if x :| x in u && RoomFor(x, l, cap, dust) {
      var i :| 0 <= i < |u| && u[i] == x;
      AbsorbsIsRoom(u, l, cap, dust, i);
    }
    if i :| 0 <= i < |u| && Absorbs(u, Shares(u, l, cap), Flags(u, l, cap), cap, dust, i) {
      AbsorbsIsRoom(u, l, cap, dust, i);
      assert u[i] in u;
    }
  }

  // Reordering weighted rows keeps what each weight is paid before dust, and the total after it.
  lemma WeightedSharesFollowRows(u: seq<nat>, v: seq<nat>, budget: nat, cap: nat)
    requires multiset(u) == multiset(v)
    ensures forall x: nat :: Share(x, FinalLevel(u, budget, cap), cap) == Share(x, FinalLevel(v, budget, cap), cap)
    ensures WeightedShares(u, budget, cap).Ok? && WeightedShares(v, budget, cap).Ok?
    ensures Sum(WeightedShares(u, budget, cap).value) == Sum(WeightedShares(v, budget, cap).value)
  {
    var l, k := FinalLevel(u, budget, cap), FinalLevel(v, budget, cap);
    FinalLevelIgnoresOrder(u, v, budget, cap);
    SharesTotalIgnoresOrder(u, v, l, k, cap);
    WeightedTotalTold(u, budget, cap);
    WeightedTotalTold(v, budget, cap);
    var dust := budget - Sum(Shares(u, l, cap));
    forall x: nat
      ensures x in u && RoomFor(x, l, cap, dust) <==> x in v && RoomFor(x, k, cap, dust)
    {
      assert x in u <==> x in multiset(u);
      assert x in v <==> x in multiset(v);
    }
  }

  // ---- Exactly when the order of weighted rows matters ---------------------------------------

  ghost predicate WeightedPolicy(p: Policy)
  {
    WellFormed(p) && p.mode == WEIGHTED
  }

  ghost function LevelOf(p: Policy): Level
    requires WeightedPolicy(p)
  {
    FinalLevel(Weights(p.entries), p.totalBudget, p.maxAlloc)
  }

  ghost function Dust(p: Policy): int
    requires WeightedPolicy(p)
  {
    p.totalBudget - Sum(Shares(Weights(p.entries), LevelOf(p), p.maxAlloc))
  }

  ghost predicate Roomy(p: Policy, i: nat)
    requires WeightedPolicy(p) && i < |p.entries|
  {
    && Dust(p) > 0
    && (assert GoodEntry(p.entries[i]); RoomFor(p.entries[i].weight, LevelOf(p), p.maxAlloc, Dust(p)))
  }

  // The row of an entry when the entry star takes the dust.
  ghost function DustedRow(p: Policy, star: Option<Entry>): Entry -> Allocation
    requires WeightedPolicy(p)
  {
    (e: Entry) => Allocation(0, e.recipient,
      if GoodEntry(e) then Share(e.weight, LevelOf(p), p.maxAlloc)
                           + (if Some(e) == star && Dust(p) > 0 then Dust(p) else 0)
      else 0)
  }

  ghost predicate AllDropped(p: Policy)
    requires WeightedPolicy(p)
  {
    forall i :: 0 <= i < |p.entries| && Roomy(p, i) ==>
      !Kept(DustedRow(p, Some(p.entries[i]))(p.entries[i]), p.minAlloc)
  }

  // There is dust for at most one row to take, or every row that can take it is dropped anyway.
  ghost predicate OrderFree(p: Policy)
    requires WeightedPolicy(p)
  {
    || (forall i, j :: 0 <= i < |p.entries| && 0 <= j < |p.entries| && Roomy(p, i) && Roomy(p, j) ==> i == j)
    || AllDropped(p)
  }

  // Which entry takes the dust: the first as written that has room.
  ghost predicate TakesDust(p: Policy, star: Option<Entry>)
    requires WeightedPolicy(p)
  {
    match star
    case None => forall i :: 0 <= i < |p.entries| ==> !Roomy(p, i)
    case Some(e) => exists k :: 0 <= k < |p.entries| && p.entries[k] == e && Roomy(p, k)
                                && forall i :: 0 <= i < k ==> !Roomy(p, i)
  }

  lemma TakerFound(p: Policy) returns (k: nat)
    requires WeightedPolicy(p)
    ensures var u, l, cap := Weights(p.entries), LevelOf(p), p.maxAlloc;
            && Dust(p) >= 0
            && AddDust(u, Shares(u, l, cap), Flags(u, l, cap), p.totalBudget, cap)
                 == if k < |u| then Shares(u, l, cap)[k := Share(u[k], l, cap) + Dust(p)] else Shares(u, l, cap)
    ensures k < |p.entries| ==> Roomy(p, k)
    ensures forall i :: 0 <= i < k && i < |p.entries| ==> !Roomy(p, i)
  {
    var u, l, cap := Weights(p.entries), LevelOf(p), p.maxAlloc;
    var shares, flags := Shares(u, l, cap), Flags(u, l, cap);
    DustBound(u, p.totalBudget, cap, l);
    k := |u|;
    if Dust(p) > 0 {
      forall i | 0 <= i < |u|
        ensures Roomy(p, i) <==> Absorbs(u, shares, flags, cap, Dust(p), i)
      {
        AbsorbsIsRoom(u, l, cap, Dust(p), i);
      }
      k := Absorber(u, shares, flags, cap, Dust(p), 0);
    }
  }

  lemma EvaluateWeighted(p: Policy) returns (a: seq<nat>, star: Option<Entry>)
    requires WeightedPolicy(p)
    ensures |a| == |p.entries| && ComputeAmounts(p) == Ok(a)
    ensures Dust(p) >= 0 && TakesDust(p, star)
    ensures Evaluate(p) == Tabulate(Rows(p.entries, a), p.minAlloc, p.totalBudget)
    ensures forall i :: 0 <= i < |a| ==>
              DustedRow(p, star)(p.entries[i]) == Allocation(0, p.entries[i].recipient, a[i])
  {
    var u, l, cap := Weights(p.entries), LevelOf(p), p.maxAlloc;
    var k := TakerFound(p);
    a := AddDust(u, Shares(u, l, cap), Flags(u, l, cap), p.totalBudget, cap);
    star := if k < |u| then Some(p.entries[k]) else None;
    forall i | 0 <= i < |a|
      ensures DustedRow(p, star)(p.entries[i]) == Allocation(0, p.entries[i].recipient, a[i])
    {
      DustedAmount(p, k, i);
    }
  }

  lemma DustedAmount(p: Policy, k: nat, i: nat)
    requires WeightedPolicy(p) && i < |p.entries| && (k < |p.entries| ==> Roomy(p, k))
    ensures var star := if k < |p.entries| then Some(p.entries[k]) else None;
            var share := Share(Weights(p.entries)[i], LevelOf(p), p.maxAlloc);
            DustedRow(p, star)(p.entries[i])
              == Allocation(0, p.entries[i].recipient, if i == k then share + Dust(p) else share)
  {
    assert GoodEntry(p.entries[i]);
    if k < |p.entries| && p.entries[i] == p.entries[k] {
      assert i == k;
    }
  }

  lemma ReorderedAlike(p: Policy, q: Policy)
    requires WeightedPolicy(p) && WeightedPolicy(q) && Reordered(p, q)
    ensures Dust(p) == Dust(q) && SameLevel(LevelOf(p), LevelOf(q), p.maxAlloc)
    ensures forall e, star :: DustedRow(p, star)(e) == DustedRow(q, star)(e)
    ensures forall i, j :: 0 <= i < |p.entries| && 0 <= j < |q.entries| && p.entries[i] == q.entries[j] ==>
              (Roomy(p, i) <==> Roomy(q, j))
  {
    WeightsReorder(p.entries, q.entries);
    var u, v := Weights(p.entries), Weights(q.entries);
    FinalLevelIgnoresOrder(u, v, p.totalBudget, p.maxAlloc);
    SharesTotalIgnoresOrder(u, v, LevelOf(p), LevelOf(q), p.maxAlloc);
  }

  // A row with room has room wherever it is written.
  lemma RoomyCarries(p: Policy, q: Policy, i: nat) returns (j: nat)
    requires WeightedPolicy(p) && WeightedPolicy(q) && Reordered(p, q)
    requires i < |p.entries| && Roomy(p, i)
    ensures j < |q.entries| && q.entries[j] == p.entries[i] && Roomy(q, j)
  {
    ReorderedAlike(p, q);
    assert p.entries[i] in multiset(q.entries);
    j :| 0 <= j < |q.entries| && q.entries[j] == p.entries[i];
  }

  lemma SameTaker(p: Policy, q: Policy, s: Option<Entry>, t: Option<Entry>)
    requires WeightedPolicy(p) && WeightedPolicy(q) && Reordered(p, q)
    requires TakesDust(p, s) && TakesDust(q, t)
    requires forall i, j :: 0 <= i < |p.entries| && 0 <= j < |p.entries| && Roomy(p, i) && Roomy(p, j) ==> i == j
    ensures s == t
  {
    if t.Some? {
      var j :| 0 <= j < |q.entries| && q.entries[j] == t.value && Roomy(q, j);
      var i := RoomyCarries(q, p, j);
      assert s.Some?;
    } else if s.Some? {
      var i :| 0 <= i < |p.entries| && p.entries[i] == s.value && Roomy(p, i);
      var j := RoomyCarries(p, q, i);
      assert false;
    }
  }

  // Rows that differ only where both are dropped tabulate alike.
  lemma {:induction false} DroppedRowsIrrelevant(rows: seq<Allocation>, rows': seq<Allocation>, floor: int)
    requires |rows| == |rows'|
    requires forall i :: 0 <= i < |rows| ==> rows[i] == rows'[i] || (!Kept(rows[i], floor) && !Kept(rows'[i], floor))
    ensures KeepRows(rows, floor) == KeepRows(rows', floor)
  {
    if rows != [] {
      DroppedRowsIrrelevant(rows[1..], rows'[1..], floor);
    }
  }

  // When no roomy row survives the floor, the table is the one without dust.
  lemma DustDropped(p: Policy, a: seq<nat>, star: Option<Entry>) returns (b: seq<nat>)
    requires WeightedPolicy(p) && |a| == |p.entries| && TakesDust(p, star)
    requires forall i :: 0 <= i < |a| ==>
               DustedRow(p, star)(p.entries[i]) == Allocation(0, p.entries[i].recipient, a[i])
    requires AllDropped(p)
    ensures |b| == |p.entries|
    ensures forall i :: 0 <= i < |b| ==>
              DustedRow(p, None)(p.entries[i]) == Allocation(0, p.entries[i].recipient, b[i])
    ensures Tabulate(Rows(p.entries, a), p.minAlloc, p.totalBudget)
         == Tabulate(Rows(p.entries, b), p.minAlloc, p.totalBudget)
  {
    b := Shares(Weights(p.entries), LevelOf(p), p.maxAlloc);
    var rows, rows' := Rows(p.entries, a), Rows(p.entries, b);
    forall i | 0 <= i < |p.entries|
      ensures DustedRow(p, None)(p.entries[i]) == Allocation(0, p.entries[i].recipient, b[i])
      ensures rows[i] == rows'[i] || (!Kept(rows[i], p.minAlloc) && !Kept(rows'[i], p.minAlloc))
    {
      DroppedAnyway(p, star, i);
    }
    DroppedRowsIrrelevant(rows, rows', p.minAlloc);
  }

  // The dust changes a row only where it is dropped with it and without it.
  lemma DroppedAnyway(p: Policy, star: Option<Entry>, i: nat)
    requires WeightedPolicy(p) && TakesDust(p, star) && AllDropped(p) && i < |p.entries|
    ensures var e := p.entries[i];
            var with, without := DustedRow(p, star)(e), DustedRow(p, None)(e);
            && GoodEntry(e) && without == Allocation(0, e.recipient, Share(e.weight, LevelOf(p), p.maxAlloc))
            && (with == without || (!Kept(with, p.minAlloc) && !Kept(without, p.minAlloc)))
  {
    assert GoodEntry(p.entries[i]);
    if star == Some(p.entries[i]) {
      var k :| 0 <= k < |p.entries| && p.entries[k] == star.value && Roomy(p, k);
      assert k == i;
    }
  }

  lemma SameTakerSuffices(p: Policy, q: Policy, s: Option<Entry>, a: seq<nat>, b: seq<nat>)
    requires WeightedPolicy(p) && WeightedPolicy(q) && Reordered(p, q)
    requires |a| == |p.entries| && |b| == |q.entries|
    requires forall i :: 0 <= i < |a| ==> DustedRow(p, s)(p.entries[i]) == Allocation(0, p.entries[i].recipient, a[i])
    requires forall i :: 0 <= i < |b| ==> DustedRow(q, s)(q.entries[i]) == Allocation(0, q.entries[i].recipient, b[i])
    ensures Tabulate(Rows(p.entries, a), p.minAlloc, p.totalBudget)
         == Tabulate(Rows(q.entries, b), q.minAlloc, q.totalBudget)
  {
    ReorderedAlike(p, q);
    ImagesTabulateAlike(p.entries, a, q.entries, b, DustedRow(p, s), p.minAlloc, p.totalBudget);
  }

  lemma AllDroppedCarries(p: Policy, q: Policy)
    requires WeightedPolicy(p) && WeightedPolicy(q) && Reordered(p, q) && AllDropped(p)
    ensures AllDropped(q)
  {
    ReorderedAlike(p, q);
    forall j | 0 <= j < |q.entries| && Roomy(q, j)
      ensures !Kept(DustedRow(q, Some(q.entries[j]))(q.entries[j]), q.minAlloc)
    {
      var i := RoomyCarries(q, p, j);
    }
  }

  lemma OrderFreeSuffices(p: Policy, q: Policy)
    requires WeightedPolicy(p) && WeightedPolicy(q) && Reordered(p, q) && OrderFree(p)
    ensures Evaluate(p) == Evaluate(q)
  {
    var a, s := EvaluateWeighted(p);
    var b, t := EvaluateWeighted(q);
    if AllDropped(p) {
      AllDroppedCarries(p, q);
      var a' := DustDropped(p, a, s);
      var b' := DustDropped(q, b, t);
      SameTakerSuffices(p, q, None, a', b');
    } else {
      SameTaker(p, q, s, t);
      SameTakerSuffices(p, q, s, a, b);
    }
  }

  // ---- The other half: a reordering that shows ------------------------------------------------

  // The policy with row x written first.
  function Front(p: Policy, x: nat): Policy
    requires x < |p.entries|
  {
    p.(entries := [p.entries[x]] + Without(p.entries, x))
  }

  lemma FrontEntries(es: seq<Entry>, x: nat)
    requires x < |es| && Distinct(es) && forall i :: 0 <= i < |es| ==> GoodEntry(es[i]) && es[i].amount == 0
    ensures var fs := [es[x]] + Without(es, x);
            && |fs| == |es| && multiset(fs) == multiset(es) && Distinct(fs)
            && forall j :: 0 <= j < |fs| ==> GoodEntry(fs[j]) && fs[j].amount == 0
  {
    WithoutOne(es, x);
    var fs := [es[x]] + Without(es, x);
    forall j | 0 <= j < |fs|
      ensures fs[j] == es[if j == 0 then x else if j <= x then j - 1 else j]
    {
    }
  }

  lemma WeightsSumReorder(es: seq<Entry>, fs: seq<Entry>)
    requires multiset(es) == multiset(fs)
    requires forall i :: 0 <= i < |es| ==> GoodEntry(es[i])
    requires forall i :: 0 <= i < |fs| ==> GoodEntry(fs[i])
    ensures SumWeights(es) == SumWeights(fs)
  {
    WeightsReorder(es, fs);
    WeightsSum(es);
    WeightsSum(fs);
    TotalOfSeq(Weights(es));
    TotalOfSeq(Weights(fs));
  }

  lemma FrontIsReordering(p: Policy, x: nat)
    requires WeightedPolicy(p) && x < |p.entries|
    ensures WeightedPolicy(Front(p, x)) && Reordered(p, Front(p, x))
  {
    FrontEntries(p.entries, x);
    WeightsSumReorder(p.entries, Front(p, x).entries);
  }

  // The table gives recipient r exactly amount x.
  ghost predicate Pays(table: Result<seq<Allocation>>, r: nat, x: nat)
  {
    table.Ok? && exists k :: 0 <= k < |table.value| && table.value[k].recipient == r && table.value[k].amount == x
  }

  lemma TabulatePays(rows: seq<Allocation>, floor: int, budget: int, r: nat, x: nat)
    requires SumAllocations(rows) <= budget && forall i :: 0 <= i < |rows| ==> rows[i].index == 0
    ensures Pays(Tabulate(rows, floor, budget), r, x) <==> Allocation(0, r, x) in KeepRows(rows, floor)
  {
    var kept := KeepRows(rows, floor);
    var sorted := SortRows(kept);
    TabulateTotal(rows, floor, budget);
    SortKeepsRows(kept);
    var t := IndexRows(sorted);
    assert |multiset(kept)| == |kept| && |multiset(sorted)| == |sorted|;
    if Allocation(0, r, x) in kept {
      assert Allocation(0, r, x) in multiset(sorted);
      var k :| 0 <= k < |sorted| && sorted[k] == Allocation(0, r, x);
      assert t[k].recipient == r && t[k].amount == x;
    }
    if Pays(Tabulate(rows, floor, budget), r, x) {
      var k :| 0 <= k < |t| && t[k].recipient == r && t[k].amount == x;
      assert sorted[k] in multiset(kept);
      assert sorted[k] in kept && sorted[k] in rows;
    }
  }

  // Among rows with distinct recipients, a recipient's row is the one at its position.
  lemma RowOfRecipient(p: Policy, a: seq<nat>, m: nat, x: nat)
    requires WellFormed(p) && |a| == |p.entries| && m < |a|
    ensures Allocation(0, p.entries[m].recipient, x) in KeepRows(Rows(p.entries, a), p.minAlloc)
       <==> a[m] == x && Kept(Allocation(0, p.entries[m].recipient, x), p.minAlloc)
  {
    var rows, r := Rows(p.entries, a), Allocation(0, p.entries[m].recipient, x);
    assert rows[m] in rows;
    if r in rows {
      var i :| 0 <= i < |rows| && rows[i] == r;
      assert i == m;
    }
  }

  // A roomy row that survives with the dust is paid the dust exactly when it takes it.
  lemma PaidDust(p: Policy, m: nat)
    requires WeightedPolicy(p) && m < |p.entries| && Roomy(p, m)
    requires Kept(DustedRow(p, Some(p.entries[m]))(p.entries[m]), p.minAlloc)
    ensures Pays(Evaluate(p), p.entries[m].recipient, DustedRow(p, Some(p.entries[m]))(p.entries[m]).amount)
       <==> forall i :: 0 <= i < m ==> !Roomy(p, i)
  {
    var a, star := EvaluateWeighted(p);
    var e := p.entries[m];
    var x := DustedRow(p, Some(e))(e).amount;
    AmountsWithinPolicy(p);
    RowsSum(p.entries, a);
    TabulatePays(Rows(p.entries, a), p.minAlloc, p.totalBudget, e.recipient, x);
    RowOfRecipient(p, a, m, x);
    TakerPosition(p, star, m);
    assert GoodEntry(e) && DustedRow(p, star)(e) == Allocation(0, e.recipient, a[m]);
  }

  lemma TakerPosition(p: Policy, star: Option<Entry>, m: nat)
    requires WeightedPolicy(p) && m < |p.entries| && Roomy(p, m) && TakesDust(p, star)
    ensures star == Some(p.entries[m]) <==> forall i :: 0 <= i < m ==> !Roomy(p, i)
  {
    var k :| 0 <= k < |p.entries| && star == Some(p.entries[k]) && Roomy(p, k)
             && forall i :: 0 <= i < k ==> !Roomy(p, i);
    assert p.entries[k] == p.entries[m] ==> k == m;
  }

  // Where row m stands once row x is written first.
  function FrontPosition(m: nat, x: nat): nat
  {
    if m == x then 0 else if m < x then m + 1 else m
  }

  lemma FrontKeeps(p: Policy, m: nat, x: nat)
    requires m < |p.entries| && x < |p.entries|
    ensures var q := Front(p, x);
            |q.entries| == |p.entries| && FrontPosition(m, x) < |q.entries|
            && q.entries[FrontPosition(m, x)] == p.entries[m]
  {
  }

  // Writing row x first shows when the surviving roomy row m takes the dust before or after, not both.
  lemma FrontShows(p: Policy, m: nat, x: nat)
    requires WeightedPolicy(p) && m < |p.entries| && x < |p.entries| && Roomy(p, m) && Roomy(p, x)
    requires Kept(DustedRow(p, Some(p.entries[m]))(p.entries[m]), p.minAlloc)
    requires x == m <==> exists i :: 0 <= i < m && Roomy(p, i)
    ensures WeightedPolicy(Front(p, x)) && Reordered(p, Front(p, x)) && Evaluate(p) != Evaluate(Front(p, x))
  {
    var q, m' := Front(p, x), FrontPosition(m, x);
    FrontIsReordering(p, x);
    FrontKeeps(p, m, x);
    FrontKeeps(p, x, x);
    RoomyAt(p, q, m, m');
    RoomyAt(p, q, x, 0);
    PaidDust(p, m);
    PaidDust(q, m');
  }

  lemma RoomyAt(p: Policy, q: Policy, i: nat, j: nat)
    requires WeightedPolicy(p) && WeightedPolicy(q) && Reordered(p, q)
    requires i < |p.entries| && j < |q.entries| && p.entries[i] == q.entries[j]
    ensures Roomy(p, i) <==> Roomy(q, j)
    ensures DustedRow(p, Some(p.entries[i]))(p.entries[i]) == DustedRow(q, Some(q.entries[j]))(q.entries[j])
  {
    ReorderedAlike(p, q);
  }

  lemma OrderFreeNecessary(p: Policy) returns (q: Policy)
    requires WeightedPolicy(p) && !OrderFree(p)
    ensures WeightedPolicy(q) && Reordered(p, q) && Evaluate(p) != Evaluate(q)
  {
    var m :| 0 <= m < |p.entries| && Roomy(p, m) && Kept(DustedRow(p, Some(p.entries[m]))(p.entries[m]), p.minAlloc);
    var x := m;
    if forall i :: 0 <= i < m ==> !Roomy(p, i) {
      x :| 0 <= x < |p.entries| && Roomy(p, x) && x != m;
    }
    FrontShows(p, m, x);
    q := Front(p, x);
  }

  // Shuffling the rows of a weighted policy cannot change its table if and only if at most one
  // row has room for a positive dust, or no row with room for it survives the floor with it.
  lemma OrderMattersExactly(p: Policy)
    requires WeightedPolicy(p)
    ensures OrderFree(p) <==> forall q :: WeightedPolicy(q) && Reordered(p, q) ==> Evaluate(p) == Evaluate(q)
  {
    if OrderFree(p) {
      forall q | WeightedPolicy(q) && Reordered(p, q)
        ensures Evaluate(p) == Evaluate(q)
      {
        OrderFreeSuffices(p, q);
      }
    } else {
      var q := OrderFreeNecessary(p);
    }
  }

  function TwoEqualRows(): Policy
  {
    Policy(9, 0, 9, WEIGHTED, 3, 0, 0, [], [Entry(1, 1, 0), Entry(2, 1, 0)])
  }

  lemma TwoEqualRowsWeigh()
    ensures WeightedPolicy(TwoEqualRows()) && Weights(TwoEqualRows().entries) == [1, 1] && Sum([1, 1]) == 2
  {
    var es := TwoEqualRows().entries;
    assert es[1..] == [es[1]] && [es[1]][1..] == [];
    assert SumWeights([es[1]]) == 1 + SumWeights([]) && SumWeights(es) == 1 + SumWeights([es[1]]);
    assert [1, 1][1..] == [1] && [1][1..] == [];
    assert Sum([1]) == 1 + Sum([]) && Sum([1, 1]) == 1 + Sum([1]);
  }

  // One unit is left over, and either row could take it.
  lemma TwoEqualRowsHaveRoom()
    requires WeightedPolicy(TwoEqualRows()) && Weights(TwoEqualRows().entries) == [1, 1] && Sum([1, 1]) == 2
    ensures Dust(TwoEqualRows()) == 1 && Roomy(TwoEqualRows(), 0) && Roomy(TwoEqualRows(), 1)
  {
    var p := TwoEqualRows();
    assert LevelOf(p) == Level([1, 1], 3);
    assert Shares([1, 1], LevelOf(p), 0) == [1, 1];
    assert GoodEntry(p.entries[0]) && GoodEntry(p.entries[1]);
  }

  // Three units over two equal weights: the odd unit goes to whoever is written first.
  lemma ShufflingCanChangeTheTable()
    ensures exists p, q :: WeightedPolicy(p) && WeightedPolicy(q) && Reordered(p, q) && Evaluate(p) != Evaluate(q)
  {
    var p := TwoEqualRows();
    TwoEqualRowsWeigh();
    TwoEqualRowsHaveRoom();
    assert Kept(DustedRow(p, Some(p.entries[0]))(p.entries[0]), 0);
    assert !OrderFree(p);
    var q := OrderFreeNecessary(p);
  }
}
