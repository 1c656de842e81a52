/** The dashboard's treasury summary, and its agreement with the contract's own counters. */
module Summary {
  import opened Options
  import opened Rounds
  import opened Books
  import opened Enclave
  import opened Protocol
  import opened Tally
  import opened Runs

  datatype Listing = Listing(id: nat, round: Round)

  datatype TreasurySummary = TreasurySummary(heldByContract: int, totalFunded: int, unclaimed: int,
                                             activeRound: Option<Listing>, awaitingFinalization: int,
                                             finalizedCount: int, recipientsAllocated: int, unsweptCount: int)

  predicate InFlightRound(r: Round)
  {
    r.status == Open || r.status == Committed || r.status == Computing
  }

  predicate Allocated(r: Round)
  {
    r.status == Finalized || r.status == Closed
  }

  function SumListings(l: seq<Listing>, f: Round -> int): int
  {
    if l == [] then 0 else f(l[0].round) + SumListings(l[1..], f)
  }

  function Held(): Round -> int
  {
    (r: Round) => if !r.swept && r.status != Cancelled then r.funded - r.totalClaimed else 0
  }

  function Funded(): Round -> int
  {
    (r: Round) => r.funded
  }

  function Unclaimed(): Round -> int
  {
    (r: Round) => if Allocated(r) then r.totalAllocated - r.totalClaimed else 0
  }

  function CountIf(p: Round -> bool): Round -> int
  {
    (r: Round) => if p(r) then 1 else 0
  }

  function Recipients(): Round -> int
  {
    (r: Round) => if Allocated(r) then r.recipientCount else 0
  }

  // The first listing still in flight.
  function FirstInFlight(l: seq<Listing>): Option<Listing>
  {
    if l == [] then None else if InFlightRound(l[0].round) then Some(l[0]) else FirstInFlight(l[1..])
  }

  function Summarized(l: seq<Listing>): TreasurySummary
  {
    TreasurySummary(SumListings(l, Held()), SumListings(l, Funded()), SumListings(l, Unclaimed()), FirstInFlight(l),
                    SumListings(l, CountIf((r: Round) => r.status == Computing)),
                    SumListings(l, CountIf((r: Round) => Allocated(r))), SumListings(l, Recipients()),
                    SumListings(l, CountIf((r: Round) => !r.swept && r.status != Cancelled)))
  }

  // The summary of what the loop has seen, followed by what it has not.
  ghost function Joined(a: TreasurySummary, b: TreasurySummary): TreasurySummary
  {
    TreasurySummary(a.heldByContract + b.heldByContract, a.totalFunded + b.totalFunded, a.unclaimed + b.unclaimed,
                    if a.activeRound == None then b.activeRound else a.activeRound,
                    a.awaitingFinalization + b.awaitingFinalization, a.finalizedCount + b.finalizedCount,
                    a.recipientsAllocated + b.recipientsAllocated, a.unsweptCount + b.unsweptCount)
  }

  // One listing more.
  function Counted(t: TreasurySummary, x: Listing): TreasurySummary
  {
    var r := x.round;
    var open := !r.swept && r.status != Cancelled;
    TreasurySummary(
      t.heldByContract + (if open then r.funded - r.totalClaimed else 0), t.totalFunded + r.funded,
      t.unclaimed + (if Allocated(r) then r.totalAllocated - r.totalClaimed else 0),
      if InFlightRound(r) && t.activeRound == None then Some(x) else t.activeRound,
      t.awaitingFinalization + (if r.status == Computing then 1 else 0),
      t.finalizedCount + (if Allocated(r) then 1 else 0),
      t.recipientsAllocated + (if Allocated(r) then r.recipientCount else 0),
      t.unsweptCount + (if open then 1 else 0))
  }

  lemma CountedJoins(t: TreasurySummary, l: seq<Listing>)
    requires l != []
    ensures Joined(Counted(t, l[0]), Summarized(l[1..])) == Joined(t, Summarized(l))
  {
  }

  method SummarizeRounds(listings: seq<Listing>) returns (t: TreasurySummary)
    ensures t == Summarized(listings)
  {
    t := TreasurySummary(0, 0, 0, None, 0, 0, 0, 0);
    for i := 0 to |listings|
      invariant Joined(t, Summarized(listings[i..])) == Summarized(listings)
    {
      CountedJoins(t, listings[i..]);
      assert listings[i..][0] == listings[i] && listings[i..][1..] == listings[i + 1..];
      t := CountOne(t, listings[i]);
    }
  }

  method CountOne(before: TreasurySummary, listing: Listing) returns (t: TreasurySummary)
    ensures t == Counted(before, listing)
  {
    t := before;
    var r := listing.round;
    t := t.(totalFunded := t.totalFunded + r.funded);
    if !r.swept && r.status != Cancelled {
      t := t.(heldByContract := t.heldByContract + (r.funded - r.totalClaimed), unsweptCount := t.unsweptCount + 1);
    }
    if Allocated(r) {
      t := t.(finalizedCount := t.finalizedCount + 1, recipientsAllocated := t.recipientsAllocated + r.recipientCount,
              unclaimed := t.unclaimed + (r.totalAllocated - r.totalClaimed));
    }
    if r.status == Computing {
      t := t.(awaitingFinalization := t.awaitingFinalization + 1);
    }
    if InFlightRound(r) && t.activeRound == None {
      t := t.(activeRound := Some(listing));
    }
  }

  // ---- What the figures mean -----------------------------------------------------------------

  // The places of a list whose rounds are of a kind.
  ghost function Places(l: seq<Listing>, p: Round -> bool): set<nat>
  {
    set i | 0 <= i < |l| && p(l[i].round)
  }

  lemma PlacesSnoc(l: seq<Listing>, x: Listing, p: Round -> bool)
    ensures Places(l + [x], p) == if p(x.round) then Places(l, p) + {|l|} else Places(l, p)
  {
    var m := l + [x];
    forall i: nat
      ensures i in Places(m, p) <==> i in Places(l, p) || (p(x.round) && i == |l|)
    {
      assert i < |l| ==> m[i] == l[i];
    }
  }

  lemma {:induction false} SumSnoc(l: seq<Listing>, x: Listing, f: Round -> int)
    ensures SumListings(l + [x], f) == SumListings(l, f) + f(x.round)
  {
    if l == [] {
      assert [x][1..] == [];
    } else {
      SumSnoc(l[1..], x, f);
      assert (l + [x])[1..] == l[1..] + [x];
    }
  }

  lemma {:induction false} CountIsPlaces(l: seq<Listing>, p: Round -> bool)
    ensures SumListings(l, CountIf(p)) == |Places(l, p)|
  {
    if l != [] {
      var n := |l| - 1;
      CountIsPlaces(l[..n], p);
      assert l == l[..n] + [l[n]];
      SumSnoc(l[..n], l[n], CountIf(p));
      PlacesSnoc(l[..n], l[n], p);
    }
  }

  // Running sums of a figure over the list.
  ghost predicate RunningSums(l: seq<Listing>, sums: seq<int>, f: Round -> int)
  {
    && |sums| == |l| + 1 && sums[0] == 0
    && forall i :: 0 <= i < |l| ==> sums[i + 1] == sums[i] + f(l[i].round)
  }

  ghost predicate AddsUp(l: seq<Listing>, total: int, f: Round -> int)
  {
    exists sums: seq<int> :: RunningSums(l, sums, f) && sums[|l|] == total
  }

  lemma {:induction false} SumAddsUp(l: seq<Listing>, f: Round -> int, g: Round -> int)
    requires forall r :: f(r) == g(r)
    ensures AddsUp(l, SumListings(l, f), g)
  {
    if l == [] {
      assert RunningSums(l, [0], g);
    } else {
      var n := |l| - 1;
      SumAddsUp(l[..n], f, g);
      assert l == l[..n] + [l[n]];
      SumSnoc(l[..n], l[n], f);
      var sums: seq<int> :| RunningSums(l[..n], sums, g) && sums[n] == SumListings(l[..n], f);
      assert RunningSums(l, sums + [SumListings(l, f)], g);
    }
  }

  // The first listing whose round has not been finalized nor cancelled.
  ghost predicate FirstOpen(l: seq<Listing>, k: nat)
  {
    && k < |l| && l[k].round.status in {Open, Committed, Computing}
    && forall i :: 0 <= i < k ==> l[i].round.status !in {Open, Committed, Computing}
  }

  lemma {:induction false} FirstInFlightExactly(l: seq<Listing>)
    ensures match FirstInFlight(l)
            case None => forall i :: 0 <= i < |l| ==> l[i].round.status in {Finalized, Closed, Cancelled}
            case Some(x) => exists k: nat :: FirstOpen(l, k) && l[k] == x
  {
    if l != [] {
      if InFlightRound(l[0].round) {
        assert FirstOpen(l, 0);
      } else {
        FirstInFlightExactly(l[1..]);
        if FirstInFlight(l).Some? {
          var k: nat :| FirstOpen(l[1..], k) && l[1..][k] == FirstInFlight(l).value;
          assert forall i :: 0 < i < |l| ==> l[i] == l[1..][i - 1];
          assert FirstOpen(l, k + 1);
        } else {
          assert forall i :: 0 < i < |l| ==> l[i] == l[1..][i - 1];
        }
      }
    }
  }

  // Each figure of the summary, in terms of the rounds listed.
  lemma SummaryMeans(l: seq<Listing>)
    ensures var t := Summarized(l);
            && AddsUp(l, t.totalFunded, (r: Round) => r.funded)
            && AddsUp(l, t.heldByContract,
                      (r: Round) => if r.swept || r.status == Cancelled then 0 else r.funded - r.totalClaimed)
            && AddsUp(l, t.unclaimed, (r: Round) =>
                 if r.status in {Finalized, Closed} then r.totalAllocated - r.totalClaimed else 0)
            && AddsUp(l, t.recipientsAllocated, (r: Round) =>
                 if r.status in {Finalized, Closed} then r.recipientCount else 0)
    ensures var t := Summarized(l);
            && t.awaitingFinalization == |Places(l, (r: Round) => r.status == Computing)|
            && t.finalizedCount == |Places(l, (r: Round) => Allocated(r))|
            && t.unsweptCount == |Places(l, (r: Round) => !r.swept && r.status != Cancelled)|
  {
    SumAddsUp(l, Funded(), (r: Round) => r.funded);
    SumAddsUp(l, Held(), (r: Round) => if r.swept || r.status == Cancelled then 0 else r.funded - r.totalClaimed);
    SumAddsUp(l, Unclaimed(), (r: Round) =>
      if r.status in {Finalized, Closed} then r.totalAllocated - r.totalClaimed else 0);
    SumAddsUp(l, Recipients(), (r: Round) => if r.status in {Finalized, Closed} then r.recipientCount else 0);
    CountIsPlaces(l, (r: Round) => r.status == Computing);
    CountIsPlaces(l, (r: Round) => Allocated(r));
    CountIsPlaces(l, (r: Round) => !r.swept && r.status != Cancelled);
  }

  // ---- Agreement with the contract -----------------------------------------------------------

  // All rounds, newest first.
  function Newest(rounds: seq<Round>): seq<Listing>
  {
    if rounds == [] then []
    else [Listing(|rounds| - 1, rounds[|rounds| - 1])] + Newest(rounds[..|rounds| - 1])
  }

  lemma {:induction false} NewestSum(rounds: seq<Round>, f: Round -> int)
    ensures SumListings(Newest(rounds), f) == SumOver(rounds, f)
  {
    if rounds != [] {
      var n := |rounds| - 1;
      NewestSum(rounds[..n], f);
      SumOverSnoc(rounds[..n], rounds[n], f);
      assert rounds == rounds[..n] + [rounds[n]];
      assert Newest(rounds)[1..] == Newest(rounds[..n]);
    }
  }

  // A figure kept per token, over all rounds and some tokens.
  function Across(tokens: seq<nat>, rounds: seq<Round>, f: nat -> Round -> int): int
  {
    if tokens == [] then 0 else SumOver(rounds, f(tokens[0])) + Across(tokens[1..], rounds, f)
  }

  function OutstandingAcross(tokens: seq<nat>, m: map<nat, nat>): nat
  {
    if tokens == [] then 0 else Get(m, tokens[0]) + OutstandingAcross(tokens[1..], m)
  }

  function Once(tokens: seq<nat>, r: Round, f: nat -> Round -> int): int
  {
    if tokens == [] then 0 else f(tokens[0])(r) + Once(tokens[1..], r, f)
  }

  ghost predicate Distinct(tokens: seq<nat>)
  {
    forall i, j :: 0 <= i < j < |tokens| ==> tokens[i] != tokens[j]
  }

  // The figure counts a round under its own token alone.
  ghost predicate OwnOnly(f: nat -> Round -> int)
  {
    forall t: nat, r: Round :: r.token != t ==> f(t)(r) == 0
  }

  lemma {:induction false} OnceIsOwn(tokens: seq<nat>, r: Round, f: nat -> Round -> int)
    requires Distinct(tokens) && OwnOnly(f)
    ensures Once(tokens, r, f) == if r.token in tokens then f(r.token)(r) else 0
  {
    if tokens != [] {
      OnceIsOwn(tokens[1..], r, f);
      assert tokens == [tokens[0]] + tokens[1..];
    }
  }

  lemma {:induction false} AcrossFirst(tokens: seq<nat>, rounds: seq<Round>, f: nat -> Round -> int)
    requires rounds != []
    ensures Across(tokens, rounds, f) == Once(tokens, rounds[0], f) + Across(tokens, rounds[1..], f)
  {
    if tokens != [] {
      AcrossFirst(tokens[1..], rounds, f);
    }
  }

  lemma {:induction false} AcrossNone(tokens: seq<nat>, f: nat -> Round -> int)
    ensures Across(tokens, [], f) == 0
  {
    if tokens != [] {
      AcrossNone(tokens[1..], f);
    }
  }

  // Over tokens that cover the rounds, each round counts exactly once.
  lemma {:induction false} AcrossIsSum(tokens: seq<nat>, rounds: seq<Round>, f: nat -> Round -> int, g: Round -> int)
    requires Distinct(tokens) && OwnOnly(f)
    requires forall i :: 0 <= i < |rounds| ==>
               rounds[i].token in tokens && g(rounds[i]) == f(rounds[i].token)(rounds[i])
    ensures SumOver(rounds, g) == Across(tokens, rounds, f)
  {
    if rounds == [] {
      AcrossNone(tokens, f);
    } else {
      AcrossIsSum(tokens, rounds[1..], f, g);
      AcrossFirst(tokens, rounds, f);
      OnceIsOwn(tokens, rounds[0], f);
    }
  }

  lemma {:induction false} OutstandingAcrossTold(tokens: seq<nat>, s: System)
    requires Tallied(s)
    ensures Across(tokens, s.chain.rounds, Unswept)
         == OutstandingAcross(tokens, s.chain.outstanding) + Across(tokens, s.chain.rounds, Overdrawn)
  {
    if tokens != [] {
      OutstandingTold(s, tokens[0]);
      OutstandingAcrossTold(tokens[1..], s);
    }
  }

  // What was claimed of rounds that are swept and live, of whatever token.
  function ClaimedBack(): Round -> int
  {
    (r: Round) => if BroughtBack(r) then r.totalClaimed else 0
  }

  // The tokens in use, each once.
  ghost predicate TokensOf(tokens: seq<nat>, rounds: seq<Round>)
  {
    Distinct(tokens) && forall i :: 0 <= i < |rounds| ==> rounds[i].token in tokens
  }

  lemma HeldTold(s: System, tokens: seq<nat>)
    requires Tallied(s) && TokensOf(tokens, s.chain.rounds)
    ensures SumOver(s.chain.rounds, Held())
         == OutstandingAcross(tokens, s.chain.outstanding) + SumOver(s.chain.rounds, ClaimedBack())
  {
    var rounds := s.chain.rounds;
    forall i | 0 <= i < |rounds|
      ensures Held()(rounds[i]) == Unswept(rounds[i].token)(rounds[i])
    {
      assert Flagged(rounds[i]);
    }
    AcrossIsSum(tokens, rounds, Unswept, Held());
    AcrossIsSum(tokens, rounds, Overdrawn, ClaimedBack());
    OutstandingAcrossTold(tokens, s);
  }

  ghost predicate NothingClaimedBack(rounds: seq<Round>)
  {
    forall id: nat :: id < |rounds| && BroughtBack(rounds[id]) ==> rounds[id].totalClaimed == 0
  }

  lemma ClaimedBackExactly(rounds: seq<Round>)
    ensures SumOver(rounds, ClaimedBack()) == 0 <==> NothingClaimedBack(rounds)
  {
    SumIsZeroExactly(rounds, ClaimedBack());
    assert forall j :: 0 <= j < |rounds| ==>
      (ClaimedBack()(rounds[j]) == 0 <==> (BroughtBack(rounds[j]) ==> rounds[j].totalClaimed == 0));
  }

  // After any run, over the full list, the dashboard's figure is what the contract keeps as outstanding,
  // summed over the tokens in use, and what was claimed of rounds that are swept and live. So the two agree
  // exactly if nothing was claimed of such a round.
  lemma HeldMatchesOutstanding(d: Deployment, owner: uint256, steps: seq<Step>, tokens: seq<nat>)
    requires TokensOf(tokens, After(d, owner, steps).chain.rounds)
    ensures var chain := After(d, owner, steps).chain;
            var held := Summarized(Newest(chain.rounds)).heldByContract;
            && held == OutstandingAcross(tokens, chain.outstanding) + SumOver(chain.rounds, ClaimedBack())
            && (held == OutstandingAcross(tokens, chain.outstanding) <==> NothingClaimedBack(chain.rounds))
  {
    var chain := After(d, owner, steps).chain;
    AfterTallied(d, owner, steps);
    NewestSum(chain.rounds, Held());
    HeldTold(After(d, owner, steps), tokens);
    ClaimedBackExactly(chain.rounds);
  }
}
