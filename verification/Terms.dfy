/**
 What a policy's own terms give each of its entries, written on the policy's fields alone, and that the
 evaluated table pays exactly this.
 */
module Terms {
  import opened WaterFill
  import opened Confluence
  import opened Policies
  import opened Allocate

  // ---- Weighted terms ------------------------------------------------------------------------

  // Weight x would be paid more than the cap out of what is left for the weights still uncapped.
  ghost predicate Overpaid(m: multiset<nat>, rest: int, cap: nat, x: nat)
  {
    x in m && cap > 0 && rest >= 0 && Total(m) > 0 && rest * x / Total(m) > cap
  }

  ghost function Overpays(cap: nat): Guard
  {
    (m: multiset<nat>, rest: int, x: nat) => Overpaid(m, rest, cap, x)
  }

  // Paying the cap to overpaid weights, one after the other in some order, until none is overpaid, leaves
  // the weights m and the budget rest.
  ghost predicate Levels(u: seq<nat>, budget: nat, cap: nat, path: seq<nat>, m: multiset<nat>, rest: nat)
  {
    Run(Overpays(cap), cap, multiset(u), budget, path, m, rest) && Stuck(Overpays(cap), m, rest)
  }

  // The part of weight x when rest is left for weights of that sum: its floored proportion, at most the cap.
  function Part(x: nat, rest: nat, sum: nat, cap: nat): nat
  {
    if sum == 0 then (if cap > 0 && x > 0 then cap else 0)
    else if cap > 0 && rest * x / sum > cap then cap
    else rest * x / sum
  }

  function Parts(u: seq<nat>, rest: nat, sum: nat, cap: nat): (a: seq<nat>)
    ensures |a| == |u| && forall i :: 0 <= i < |u| ==> a[i] == Part(u[i], rest, sum, cap)
  {
    seq(|u|, i requires 0 <= i < |u| => Part(u[i], rest, sum, cap))
  }

  // Weight x was not cut, and the dust on top of its part keeps it within the cap.
  predicate TakesAll(x: nat, rest: nat, sum: nat, cap: nat, dust: nat)
  {
    x > 0 && (cap > 0 ==> sum > 0 && rest * x / sum <= cap && rest * x / sum + dust <= cap)
  }

  // Entry i is the first as written that can take the dust.
  ghost predicate First(u: seq<nat>, rest: nat, sum: nat, cap: nat, dust: nat, i: nat)
  {
    && i < |u| && TakesAll(u[i], rest, sum, cap, dust)
    && forall j :: 0 <= j < i ==> !TakesAll(u[j], rest, sum, cap, dust)
  }

  // What the i-th weight is paid: its part, and all the dust if it is the first that can take it.
  ghost predicate WeightPaid(u: seq<nat>, budget: nat, cap: nat, rest: nat, sum: nat, i: nat, x: nat)
    requires i < |u|
  {
    var dust := budget - Sum(Parts(u, rest, sum, cap));
    x == Part(u[i], rest, sum, cap) + if dust > 0 && First(u, rest, sum, cap, dust, i) then dust else 0
  }

  ghost predicate WeightedTerms(u: seq<nat>, budget: nat, cap: nat, i: nat, x: nat)
    requires i < |u|
  {
    exists path, m, rest: nat ::
      Levels(u, budget, cap, path, m, rest) && WeightPaid(u, budget, cap, rest, Total(m), i, x)
  }

  lemma SameGuard(cap: nat, m: multiset<nat>, rest: int, x: nat)
    ensures Overpays(cap)(m, rest, x) <==> OverCap(cap)(m, rest, x)
  {
  }

  lemma {:induction false} SameRuns(cap: nat, m: multiset<nat>, rest: int, path: seq<nat>, m': multiset<nat>,
                                    rest': int)
    ensures Run(Overpays(cap), cap, m, rest, path, m', rest') <==> Run(OverCap(cap), cap, m, rest, path, m', rest')
    decreases |path|
  {
    if path != [] {
      SameGuard(cap, m, rest, path[0]);
      SameRuns(cap, m - multiset{path[0]}, rest - cap, path[1..], m', rest');
    }
  }

  lemma SameHalts(cap: nat, m: multiset<nat>, rest: int)
    ensures Stuck(Overpays(cap), m, rest) <==> Stuck(OverCap(cap), m, rest)
  {
    assert forall x: nat :: Overpays(cap)(m, rest, x) <==> OverCap(cap)(m, rest, x);
  }

  // The terms speak of the level the loop ends at, in whatever order they are followed.
  lemma LevelIsFinal(u: seq<nat>, budget: nat, cap: nat, path: seq<nat>, m: multiset<nat>, rest: nat)
    requires Levels(u, budget, cap, path, m, rest)
    ensures rest == FinalLevel(u, budget, cap).rest && Total(m) == Sum(FinalLevel(u, budget, cap).free)
  {
    SameRuns(cap, multiset(u), budget, path, m, rest);
    SameHalts(cap, m, rest);
    AnyOrderEndsWhereLoopEnds(u, budget, cap, path, m, rest);
    TotalOfSeq(FinalLevel(u, budget, cap).free);
  }

  lemma SomeLevel(u: seq<nat>, budget: nat, cap: nat) returns (path: seq<nat>)
    ensures var l := FinalLevel(u, budget, cap);
            Levels(u, budget, cap, path, multiset(l.free), l.rest) && Total(multiset(l.free)) == Sum(l.free)
  {
    path := BatchesAreRun(u, budget, cap, |u| + 1);
    var l := FinalLevel(u, budget, cap);
    SameRuns(cap, multiset(u), budget, path, multiset(l.free), l.rest);
    SameHalts(cap, multiset(l.free), l.rest);
    TotalOfSeq(l.free);
  }

  lemma PartIsShare(x: nat, l: Level, cap: nat)
    ensures Part(x, l.rest, Sum(l.free), cap) == Share(x, l, cap)
  {
  }

  lemma PartsAreShares(u: seq<nat>, l: Level, cap: nat)
    ensures Parts(u, l.rest, Sum(l.free), cap) == Shares(u, l, cap)
  {
    forall i | 0 <= i < |u|
      ensures Parts(u, l.rest, Sum(l.free), cap)[i] == Shares(u, l, cap)[i]
    {
      PartIsShare(u[i], l, cap);
    }
  }

  lemma TakesAllIsAbsorbs(u: seq<nat>, l: Level, cap: nat, dust: nat, i: nat)
    requires i < |u| && (cap == 0 ==> Sum(l.free) > 0)
    ensures Absorbs(u, Shares(u, l, cap), Flags(u, l, cap), cap, dust, i)
       <==> TakesAll(u[i], l.rest, Sum(l.free), cap, dust)
  {
  }

  lemma FirstIsFirstAbsorber(u: seq<nat>, l: Level, cap: nat, dust: nat, i: nat)
    requires i < |u| && (cap == 0 ==> Sum(l.free) > 0)
    ensures FirstAbsorber(u, Shares(u, l, cap), Flags(u, l, cap), cap, dust, i)
       <==> First(u, l.rest, Sum(l.free), cap, dust, i)
  {
    forall j: nat | j <= i
      ensures Absorbs(u, Shares(u, l, cap), Flags(u, l, cap), cap, dust, j)
         <==> TakesAll(u[j], l.rest, Sum(l.free), cap, dust)
    {
      TakesAllIsAbsorbs(u, l, cap, dust, j);
    }
  }

  // After the dust, every position holds its share, and the first absorber the dust as well.
  lemma DustAt(u: seq<nat>, a: seq<nat>, flags: seq<bool>, budget: nat, cap: nat, i: nat)
    requires i < |u| == |a| == |flags| && Sum(a) <= budget
    ensures var dust := budget - Sum(a);
            AddDust(u, a, flags, budget, cap)[i] ==
              a[i] + if dust > 0 && FirstAbsorber(u, a, flags, cap, dust, i) then dust else 0
  {
    var dust := budget - Sum(a);
    if dust > 0 {
      var k := Absorber(u, a, flags, cap, dust, 0);
      assert i < k ==> !Absorbs(u, a, flags, cap, dust, i);
      assert i > k ==> Absorbs(u, a, flags, cap, dust, k);
    }
  }

  // The weighted split pays what the terms say at the level the loop ends at.
  lemma SplitAtLevel(u: seq<nat>, budget: nat, cap: nat, i: nat, x: nat)
    requires Sum(u) > 0 && i < |u|
    ensures WeightedShares(u, budget, cap).Ok? && |WeightedShares(u, budget, cap).value| == |u|
    ensures var l := FinalLevel(u, budget, cap);
            WeightPaid(u, budget, cap, l.rest, Sum(l.free), i, x) <==> x == WeightedShares(u, budget, cap).value[i]
  {
    var l := FinalLevel(u, budget, cap);
    WeightedTotal(u, budget, cap);
    DustBound(u, budget, cap, l);
    PaidAtLevel(u, budget, cap, l, i, x);
  }

  lemma PaidAtLevel(u: seq<nat>, budget: nat, cap: nat, l: Level, i: nat, x: nat)
    requires i < |u| && Sum(Shares(u, l, cap)) <= budget && (cap == 0 ==> Sum(l.free) > 0)
    ensures WeightPaid(u, budget, cap, l.rest, Sum(l.free), i, x)
       <==> x == AddDust(u, Shares(u, l, cap), Flags(u, l, cap), budget, cap)[i]
  {
    var a := Shares(u, l, cap);
    var first := FirstAbsorber(u, a, Flags(u, l, cap), cap, budget - Sum(a), i);
    PartsAreShares(u, l, cap);
    FirstIsFirstAbsorber(u, l, cap, budget - Sum(a), i);
    PaidTold(u, budget, cap, l.rest, Sum(l.free), i, x, a, first);
    DustAt(u, a, Flags(u, l, cap), budget, cap, i);
  }

  lemma PaidTold(u: seq<nat>, budget: nat, cap: nat, rest: nat, sum: nat, i: nat, x: nat, a: seq<nat>, first: bool)
    requires i < |u| && a == Parts(u, rest, sum, cap) && Sum(a) <= budget
    requires first <==> First(u, rest, sum, cap, budget - Sum(a), i)
    ensures WeightPaid(u, budget, cap, rest, sum, i, x)
       <==> x == a[i] + if budget > Sum(a) && first then budget - Sum(a) else 0
  {
  }

  // The weighted split follows its terms, in whatever order they are followed.
  lemma SplitFollowsTerms(u: seq<nat>, budget: nat, cap: nat, i: nat, x: nat)
    requires Sum(u) > 0 && i < |u|
    ensures WeightedShares(u, budget, cap).Ok? && |WeightedShares(u, budget, cap).value| == |u|
    ensures WeightedTerms(u, budget, cap, i, x) <==> x == WeightedShares(u, budget, cap).value[i]
  {
    SplitAtLevel(u, budget, cap, i, x);
    var l := FinalLevel(u, budget, cap);
    if x == WeightedShares(u, budget, cap).value[i] {
      var path := SomeLevel(u, budget, cap);
    } else if WeightedTerms(u, budget, cap, i, x) {
      var path, m, rest: nat :| Levels(u, budget, cap, path, m, rest)
                                && WeightPaid(u, budget, cap, rest, Total(m), i, x);
      LevelIsFinal(u, budget, cap, path, m, rest);
    }
  }

  // ---- The terms of every mode ---------------------------------------------------------------

  // What the policy gives its i-th entry before the floor: the amount stated for it, or the amount of its
  // band, cut to the cap; or its part of the budget.
  ghost predicate Gives(p: Policy, i: nat, x: nat)
    requires WellFormed(p) && i < |p.entries|
  {
    if p.mode == WEIGHTED then
      WeightedTerms(Weights(p.entries), p.totalBudget, p.maxAlloc, i, x)
    else
      var stated := if p.mode == TIERED then p.bands[p.entries[i].weight] else p.entries[i].amount;
      x == if p.maxAlloc > 0 && stated > p.maxAlloc then p.maxAlloc else stated
  }

  // What it pays: the same, unless that is nothing or below the floor.
  ghost predicate Pays(p: Policy, i: nat, x: nat)
    requires WellFormed(p) && i < |p.entries|
  {
    Gives(p, i, x) && x > 0 && x >= p.minAlloc
  }

  // The table has a row for who with amount x.
  ghost predicate Lists(t: seq<Allocation>, who: nat, x: nat)
  {
    exists k :: 0 <= k < |t| && t[k].recipient == who && t[k].amount == x
  }

  // The table pays every entry exactly what the policy does.
  ghost predicate Follows(t: seq<Allocation>, p: Policy)
    requires WellFormed(p)
  {
    forall i, x: nat :: 0 <= i < |p.entries| ==> (Lists(t, p.entries[i].recipient, x) <==> Pays(p, i, x))
  }

  ghost predicate PaysSomething(p: Policy)
    requires WellFormed(p)
  {
    exists i, x: nat :: 0 <= i < |p.entries| && Pays(p, i, x)
  }

  lemma AmountIsGiven(p: Policy, i: nat, x: nat)
    requires WellFormed(p) && i < |p.entries|
    ensures ComputeAmounts(p).Ok? && |ComputeAmounts(p).value| == |p.entries|
    ensures Gives(p, i, x) <==> x == ComputeAmounts(p).value[i]
  {
    AmountsWithinPolicy(p);
    if p.mode == WEIGHTED {
      WeightsSum(p.entries);
      WeightsAddUp(p.entries);
      SplitFollowsTerms(Weights(p.entries), p.totalBudget, p.maxAlloc, i, x);
    } else {
      assert GoodEntry(p.entries[i]) && ComputeAmounts(p).value[i] == Direct(p.entries[i], p);
    }
  }

  // A row survives the floor with this recipient and amount.
  ghost predicate Survives(rows: seq<Allocation>, floor: int, who: nat, x: nat)
  {
    exists r :: r in rows && Kept(r, floor) && r.recipient == who && r.amount == x
  }

  lemma SortedMembers(rows: seq<Allocation>)
    ensures forall r :: r in SortRows(rows) <==> r in rows
  {
    SortKeepsRows(rows);
    assert forall r :: r in SortRows(rows) <==> r in multiset(SortRows(rows));
    assert forall r :: r in rows <==> r in multiset(rows);
  }

  // The table's rows are, recipient and amount, the rows that survive the floor.
  lemma ListedRows(rows: seq<Allocation>, floor: int, who: nat, x: nat)
    ensures Lists(IndexRows(SortRows(KeepRows(rows, floor))), who, x) <==> Survives(rows, floor, who, x)
  {
    var sorted := SortRows(KeepRows(rows, floor));
    var t := IndexRows(sorted);
    SortedMembers(KeepRows(rows, floor));
    if Lists(t, who, x) {
      var k :| 0 <= k < |t| && t[k].recipient == who && t[k].amount == x;
      assert sorted[k] in rows && Kept(sorted[k], floor);
    }
    if Survives(rows, floor, who, x) {
      SurvivorIsListed(rows, floor, who, x, sorted);
    }
  }

  lemma SurvivorIsListed(rows: seq<Allocation>, floor: int, who: nat, x: nat, sorted: seq<Allocation>)
    requires Survives(rows, floor, who, x) && forall r :: r in rows && Kept(r, floor) ==> r in sorted
    ensures Lists(IndexRows(sorted), who, x)
  {
    var r :| r in rows && Kept(r, floor) && r.recipient == who && r.amount == x;
    var k :| 0 <= k < |sorted| && sorted[k] == r;
    assert IndexRows(sorted)[k].recipient == who && IndexRows(sorted)[k].amount == x;
  }

  // Among the rows of distinct entries, the one for entry i has its amount.
  lemma RowOfEntry(p: Policy, a: seq<nat>, i: nat, x: nat)
    requires WellFormed(p) && |a| == |p.entries| && i < |a|
    ensures Survives(Rows(p.entries, a), p.minAlloc, p.entries[i].recipient, x)
       <==> x == a[i] && x > 0 && x >= p.minAlloc
  {
    var rows := Rows(p.entries, a);
    assert rows[i] in rows;
    if r :| r in rows && Kept(r, p.minAlloc) && r.recipient == p.entries[i].recipient && r.amount == x {
      var k :| 0 <= k < |rows| && rows[k] == r;
      assert p.entries[k].recipient == p.entries[i].recipient;
      assert k == i;
    }
  }

  lemma TableRow(p: Policy, i: nat, x: nat)
    requires WellFormed(p) && i < |p.entries|
    ensures ComputeAmounts(p).Ok? && |ComputeAmounts(p).value| == |p.entries|
    ensures Lists(IndexRows(SortRows(KeepRows(Rows(p.entries, ComputeAmounts(p).value), p.minAlloc))),
                  p.entries[i].recipient, x)
       <==> Pays(p, i, x)
  {
    AmountIsGiven(p, i, x);
    var a := ComputeAmounts(p).value;
    ListedRows(Rows(p.entries, a), p.minAlloc, p.entries[i].recipient, x);
    RowOfEntry(p, a, i, x);
  }

  // A well-formed policy of any mode evaluates to a table exactly if it pays somebody something, and the
  // table then pays every entry exactly what the policy's terms say, and nobody else.
  lemma EvaluateFollowsTerms(p: Policy)
    requires WellFormed(p)
    ensures Evaluate(p).Ok? <==> PaysSomething(p)
    ensures Evaluate(p).Ok? ==> Follows(Evaluate(p).value, p) && GoodTable(Evaluate(p).value, p)
  {
    EvaluateGood(p);
    var a := ComputeAmounts(p).value;
    var rows := Rows(p.entries, a);
    RowsSum(p.entries, a);
    AmountsWithinPolicy(p);
    TabulateTotal(rows, p.minAlloc, p.totalBudget);
    var t := IndexRows(SortRows(KeepRows(rows, p.minAlloc)));
    forall i, x: nat | 0 <= i < |p.entries|
      ensures Lists(t, p.entries[i].recipient, x) <==> Pays(p, i, x)
    {
      TableRow(p, i, x);
    }
    SomethingPaid(p, a);
  }

  // Some row survives exactly if some entry is paid.
  lemma SomethingPaid(p: Policy, a: seq<nat>)
    requires WellFormed(p) && ComputeAmounts(p) == Ok(a) && |a| == |p.entries|
    ensures PaysSomething(p) <==> exists r :: r in Rows(p.entries, a) && Kept(r, p.minAlloc)
  {
    if exists r :: r in Rows(p.entries, a) && Kept(r, p.minAlloc) {
      SurvivorIsPaid(p, a);
    }
    if i, x: nat :| 0 <= i < |p.entries| && Pays(p, i, x) {
      AmountIsGiven(p, i, x);
      assert Rows(p.entries, a)[i] in Rows(p.entries, a);
    }
  }

  lemma SurvivorIsPaid(p: Policy, a: seq<nat>)
    requires WellFormed(p) && ComputeAmounts(p) == Ok(a) && |a| == |p.entries|
    requires exists r :: r in Rows(p.entries, a) && Kept(r, p.minAlloc)
    ensures PaysSomething(p)
  {
    var k := SurvivorAt(Rows(p.entries, a), p.minAlloc);
    assert Rows(p.entries, a)[k].amount == a[k];
    AmountIsGiven(p, k, a[k]);
    assert Pays(p, k, a[k]);
  }

  lemma SurvivorAt(rows: seq<Allocation>, floor: int) returns (k: nat)
    requires exists r :: r in rows && Kept(r, floor)
    ensures k < |rows| && rows[k].amount > 0 && rows[k].amount >= floor
  {
    var r :| r in rows && Kept(r, floor);
    k :| 0 <= k < |rows| && rows[k] == r;
  }

  // Good tables that follow the same terms are the same table.
  lemma TermsFixTable(p: Policy, s: seq<Allocation>, t: seq<Allocation>)
    requires WellFormed(p) && GoodTable(s, p) && GoodTable(t, p) && Follows(s, p) && Follows(t, p)
    ensures s == t
  {
    FollowsAlike(p, s, t);
    FollowsAlike(p, t, s);
    SameColumns(s, t);
    forall k | 0 <= k < |s|
      ensures s[k] == t[k]
    {
      assert GoodRow(s, k, p) && GoodRow(t, k, p);
    }
  }

  // Every row of s is, recipient and amount, one of t.
  ghost predicate ListedIn(s: seq<Allocation>, t: seq<Allocation>)
  {
    forall k :: 0 <= k < |s| ==> Lists(t, s[k].recipient, s[k].amount)
  }

  lemma FollowsAlike(p: Policy, s: seq<Allocation>, t: seq<Allocation>)
    requires WellFormed(p) && GoodTable(s, p) && Follows(s, p) && Follows(t, p)
    ensures ListedIn(s, t)
  {
    forall k | 0 <= k < |s|
      ensures Lists(t, s[k].recipient, s[k].amount)
    {
      assert GoodRow(s, k, p);
      var i :| 0 <= i < |p.entries| && p.entries[i].recipient == s[k].recipient;
      assert Lists(s, p.entries[i].recipient, s[k].amount);
      assert Pays(p, i, s[k].amount);
    }
  }

  // The least recipients of ascending tables that list each other's rows are one.
  lemma SameHeads(s: seq<Allocation>, t: seq<Allocation>)
    requires Ascending(s) && Ascending(t) && ListedIn(s, t) && ListedIn(t, s) && s != []
    ensures t != [] && s[0].recipient == t[0].recipient && s[0].amount == t[0].amount
  {
    assert Lists(t, s[0].recipient, s[0].amount);
    HeadBelow(t, s[0].recipient, s[0].amount);
    assert Lists(s, t[0].recipient, t[0].amount);
    HeadBelow(s, t[0].recipient, t[0].amount);
  }

  // The first row has the least recipient; a row with that recipient is the first.
  lemma HeadBelow(t: seq<Allocation>, who: nat, x: nat)
    requires Ascending(t) && Lists(t, who, x)
    ensures t != [] && t[0].recipient <= who && (t[0].recipient == who ==> t[0].amount == x)
  {
    var j :| 0 <= j < |t| && t[j].recipient == who && t[j].amount == x;
    if j > 0 {
      assert t[0].recipient < t[j].recipient;
    }
  }

  lemma TailsListed(s: seq<Allocation>, t: seq<Allocation>)
    requires Ascending(s) && ListedIn(s, t) && s != [] && t != [] && s[0].recipient == t[0].recipient
    ensures ListedIn(s[1..], t[1..])
  {
    forall k | 0 <= k < |s[1..]|
      ensures Lists(t[1..], s[1..][k].recipient, s[1..][k].amount)
    {
      var r := s[k + 1];
      assert Lists(t, r.recipient, r.amount);
      var j :| 0 <= j < |t| && t[j].recipient == r.recipient && t[j].amount == r.amount;
      assert s[0].recipient < r.recipient;
      assert t[1..][j - 1] == t[j];
    }
  }

  lemma {:induction false} SameColumns(s: seq<Allocation>, t: seq<Allocation>)
    requires Ascending(s) && Ascending(t) && ListedIn(s, t) && ListedIn(t, s)
    ensures |s| == |t|
    ensures forall k :: 0 <= k < |s| ==> s[k].recipient == t[k].recipient && s[k].amount == t[k].amount
  {
    if s != [] {
      SameHeads(s, t);
      TailsListed(s, t);
      TailsListed(t, s);
      SameColumns(s[1..], t[1..]);
      assert forall k :: 0 < k < |s| ==> s[k] == s[1..][k - 1] && t[k] == t[1..][k - 1];
    } else if t != [] {
      SameHeads(t, s);
    }
  }
}
