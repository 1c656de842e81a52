/** The money books of the round contract: what every entry point keeps, for every token. */
module Books {
  import opened Options
  import opened Bytes
  import opened Merkle
  import opened Rounds

  // ---- Sums over rounds ----------------------------------------------------------------------

  function SumOver(rounds: seq<Round>, f: Round -> int): int
  {
    if rounds == [] then 0 else f(rounds[0]) + SumOver(rounds[1..], f)
  }

  lemma {:induction false} SumOverUpdate(rounds: seq<Round>, i: nat, r: Round, f: Round -> int)
    requires i < |rounds|
    ensures SumOver(rounds[i := r], f) == SumOver(rounds, f) - f(rounds[i]) + f(r)
  {
    if i == 0 {
      assert rounds[0 := r][1..] == rounds[1..];
    } else {
      SumOverUpdate(rounds[1..], i - 1, r, f);
      assert rounds[i := r][1..] == rounds[1..][i - 1 := r];
    }
  }

  lemma {:induction false} SumOverSnoc(rounds: seq<Round>, r: Round, f: Round -> int)
    ensures SumOver(rounds + [r], f) == SumOver(rounds, f) + f(r)
  {
    if rounds == [] {
      assert [r][1..] == [];
    } else {
      SumOverSnoc(rounds[1..], r, f);
      assert (rounds + [r])[1..] == rounds[1..] + [r];
    }
  }

  lemma {:induction false} AllNonNegative(rounds: seq<Round>, f: Round -> int)
    requires forall j :: 0 <= j < |rounds| ==> f(rounds[j]) >= 0
    ensures SumOver(rounds, f) >= 0
  {
    if rounds != [] {
      AllNonNegative(rounds[1..], f);
    }
  }

  lemma {:induction false} OneOfMany(rounds: seq<Round>, f: Round -> int, id: nat)
    requires id < |rounds| && forall j :: 0 <= j < |rounds| ==> f(rounds[j]) >= 0
    ensures SumOver(rounds, f) >= f(rounds[id])
  {
    if id > 0 {
      OneOfMany(rounds[1..], f, id - 1);
    } else {
      AllNonNegative(rounds[1..], f);
    }
  }

  // A sum of non-negative parts is nothing exactly if every part is.
  lemma {:induction false} SumIsZeroExactly(rounds: seq<Round>, f: Round -> int)
    requires forall j :: 0 <= j < |rounds| ==> f(rounds[j]) >= 0
    ensures SumOver(rounds, f) >= 0
    ensures SumOver(rounds, f) == 0 <==> forall j :: 0 <= j < |rounds| ==> f(rounds[j]) == 0
  {
    if rounds != [] {
      SumIsZeroExactly(rounds[1..], f);
      assert forall j :: 0 < j < |rounds| ==> rounds[j] == rounds[1..][j - 1];
    }
  }

  // Sums follow what holds of each part.
  lemma {:induction false} SumOverPointwise(rounds: seq<Round>, f: Round -> int, g: Round -> int)
    requires forall j :: 0 <= j < |rounds| ==> f(rounds[j]) <= g(rounds[j])
    ensures SumOver(rounds, f) <= SumOver(rounds, g)
  {
    if rounds != [] {
      SumOverPointwise(rounds[1..], f, g);
    }
  }

  lemma {:induction false} SumOverSplits(rounds: seq<Round>, f: Round -> int, g: Round -> int, k: Round -> int)
    requires forall j :: 0 <= j < |rounds| ==> f(rounds[j]) == g(rounds[j]) + k(rounds[j])
    ensures SumOver(rounds, f) == SumOver(rounds, g) + SumOver(rounds, k)
  {
    if rounds != [] {
      SumOverSplits(rounds[1..], f, g, k);
    }
  }

  // What a live round still ties up in a token.
  function Owed(t: nat): Round -> int
  {
    (r: Round) => if r.token == t && Live(r) then r.funded - r.totalClaimed else 0
  }

  function FundedIn(t: nat): Round -> int
  {
    (r: Round) => if r.token == t then r.funded else 0
  }

  function Paid(payments: seq<Payment>, t: nat): nat
  {
    if payments == [] then 0
    else Paid(payments[..|payments| - 1], t)
         + (if payments[|payments| - 1].token == t then payments[|payments| - 1].amount else 0)
  }

  function InFlight(s: State, t: nat): nat
  {
    match s.lock
    case Idle => 0
    case Funding(id, amount) => if id < |s.rounds| && s.rounds[id].token == t then amount else 0
  }

  // ---- The invariant -------------------------------------------------------------------------

  // What was ever funded is outstanding or was paid out, and the contract holds at least what is
  // outstanding and what is in flight.
  ghost predicate Covered(s: State, t: nat)
  {
    && SumOver(s.rounds, FundedIn(t)) == Get(s.outstanding, t) + Paid(s.payments, t)
    && Get(s.held, t) >= Get(s.outstanding, t) + InFlight(s, t)
  }

  // What live rounds tie up beyond what is outstanding.
  ghost function Gap(s: State, t: nat): int
  {
    SumOver(s.rounds, Owed(t)) - Get(s.outstanding, t)
  }

  // A round that has a root was finalized, within its funding; one that has none was never claimed of.
  ghost predicate RoundOk(s: State, id: nat)
    requires id < |s.rounds|
  {
    var r := s.rounds[id];
    && r.funded < UINT256
    && (r.merkleRoot != ZERO32 ==> r.totalAllocated <= r.funded)
    && (r.merkleRoot == ZERO32 ==> r.totalClaimed == 0 && forall i: nat :: (id, i) !in s.claimed)
    && (Settled(r) ==> r.merkleRoot != ZERO32)
    && (!Dispatched(r) ==> r.merkleRoot == ZERO32)
  }

  ghost predicate LockOk(s: State)
  {
    s.lock.Funding? ==>
      && s.lock.roundId < |s.rounds| && s.lock.amount > 0
      && s.rounds[s.lock.roundId].funded + s.lock.amount < UINT256
      && Live(s.rounds[s.lock.roundId])
  }

  ghost predicate AllCovered(s: State)
  {
    forall t: nat :: Covered(s, t)
  }

  ghost predicate AllRoundsOk(s: State)
  {
    && (forall id: nat :: id < |s.rounds| ==> RoundOk(s, id))
    && (forall p :: p in s.claimed ==> p.0 < |s.rounds|)
  }

  // What holds in every run.
  ghost predicate Steady(s: State)
  {
    AllCovered(s) && AllRoundsOk(s) && LockOk(s)
  }

  // The sweep flags tell which rounds are over.
  ghost predicate FlagsOk(s: State)
  {
    forall id: nat :: id < |s.rounds| ==> (s.rounds[id].swept <==> !Live(s.rounds[id]))
  }

  // The books are right: moreover outstanding is, for every token, what live rounds tie up.
  ghost predicate Sound(s: State)
  {
    Steady(s) && FlagsOk(s) && forall t: nat :: Gap(s, t) == 0
  }

  ghost predicate SameGaps(s: State, s': State)
  {
    forall t: nat :: Gap(s', t) == Gap(s, t)
  }

  // What every entry point but one does for the books: it keeps them as right or wrong as they were.
  ghost predicate Keeps(s: State, s': State)
  {
    Steady(s') && SameGaps(s, s') && (FlagsOk(s) ==> FlagsOk(s'))
  }

  lemma KeepsSound(s: State, s': State)
    requires Sound(s) && Keeps(s, s')
    ensures Sound(s')
  {
    forall t: nat
      ensures Gap(s', t) == 0
    {
      assert Gap(s', t) == Gap(s, t);
    }
  }

  lemma InitSound(owner: uint256)
    ensures Sound(Init(owner))
  {
  }

  // ---- One round changes ---------------------------------------------------------------------

  // Replacing one round moves both sums by that round's own difference.
  lemma ReplaceRound(s: State, id: nat, r: Round, t: nat)
    requires id < |s.rounds|
    ensures SumOver(s.rounds[id := r], Owed(t)) == SumOver(s.rounds, Owed(t)) - Owed(t)(s.rounds[id]) + Owed(t)(r)
    ensures SumOver(s.rounds[id := r], FundedIn(t))
         == SumOver(s.rounds, FundedIn(t)) - FundedIn(t)(s.rounds[id]) + FundedIn(t)(r)
  {
    SumOverUpdate(s.rounds, id, r, Owed(t));
    SumOverUpdate(s.rounds, id, r, FundedIn(t));
  }

  // No money moves.
  ghost predicate SameMoney(s: State, s': State)
  {
    && s'.claimed == s.claimed && s'.outstanding == s.outstanding && s'.lock == s.lock && s'.held == s.held
    && s'.payments == s.payments
  }

  // One round gets new values.
  ghost predicate OneReplaced(s: State, s': State, id: nat)
  {
    id < |s.rounds| && id < |s'.rounds| && s'.rounds == s.rounds[id := s'.rounds[id]]
  }

  // A round changes nothing but its progress.
  ghost predicate Progress(q: Round, r: Round)
  {
    && r.token == q.token && r.funded == q.funded && r.totalClaimed == q.totalClaimed && r.swept == q.swept
    && Live(r)
    && (r.merkleRoot == ZERO32 ==> q.merkleRoot == ZERO32)
    && (r.merkleRoot != ZERO32 ==> r.totalAllocated <= r.funded)
    && (Settled(r) ==> r.merkleRoot != ZERO32)
    && (!Dispatched(r) ==> r.merkleRoot == ZERO32)
  }

  lemma ProgressRounds(s: State, s': State, id: nat)
    requires AllRoundsOk(s) && LockOk(s) && SameMoney(s, s') && OneReplaced(s, s', id)
    requires Progress(s.rounds[id], s'.rounds[id])
    ensures AllRoundsOk(s') && LockOk(s')
  {
    forall j: nat | j < |s'.rounds|
      ensures RoundOk(s', j)
    {
      assert RoundOk(s, j);
    }
  }

  // What a round that is over owes again when it goes on.
  function Revival(q: Round, t: nat): int
  {
    if q.token == t && !Live(q) then q.funded - q.totalClaimed else 0
  }

  lemma ProgressMoney(s: State, s': State, id: nat, t: nat)
    requires Covered(s, t) && SameMoney(s, s') && OneReplaced(s, s', id)
    requires Progress(s.rounds[id], s'.rounds[id])
    ensures Covered(s', t) && Gap(s', t) == Gap(s, t) + Revival(s.rounds[id], t)
  {
    ReplaceRound(s, id, s'.rounds[id], t);
    assert InFlight(s', t) == InFlight(s, t);
  }

  // Progress of a live round leaves the books as they are; going on with a round that is over makes it
  // owe again what outstanding no longer counts.
  lemma ProgressKeeps(s: State, s': State, id: nat)
    requires Steady(s) && SameMoney(s, s') && OneReplaced(s, s', id)
    requires Progress(s.rounds[id], s'.rounds[id])
    ensures Steady(s')
    ensures forall t: nat :: Gap(s', t) == Gap(s, t) + Revival(s.rounds[id], t)
    ensures Live(s.rounds[id]) ==> Keeps(s, s')
  {
    ProgressRounds(s, s', id);
    forall t: nat
      ensures Covered(s', t) && Gap(s', t) == Gap(s, t) + Revival(s.rounds[id], t)
    {
      ProgressMoney(s, s', id, t);
    }
  }

  lemma PaidOne(payments: seq<Payment>, p: Payment, t: nat)
    ensures Paid(payments + [p], t) == Paid(payments, t) + if p.token == t then p.amount else 0
  {
    assert (payments + [p])[..|payments|] == payments;
  }

  // A payment and the balance move together.
  lemma PayMoney(s: State, token: uint256, to: uint256, amount: nat, moved: bool, t: nat)
    ensures var o := PayOut(s, token, to, amount, moved);
            o.Done? ==>
              && o.state.rounds == s.rounds && o.state.outstanding == s.outstanding && o.state.lock == s.lock
              && o.state.claimed == s.claimed
              && Paid(o.state.payments, t) == Paid(s.payments, t) + (if token == t then amount else 0)
              && Get(o.state.held, t) == Get(s.held, t) - (if token == t then amount else 0)
  {
    PaidOne(s.payments, Payment(token, to, amount), t);
  }

  // What a release does to the sums of a token.
  lemma ReleaseSums(s: State, id: nat, r: Round, amount: nat, t: nat)
    requires id < |s.rounds|
    requires var q := s.rounds[id];
             && r.token == q.token && r.funded == q.funded && amount <= Get(s.outstanding, q.token)
             && Owed(q.token)(r) == Owed(q.token)(q) - amount
    ensures var u, part := Release(s, id, r, amount), if r.token == t then amount else 0;
            && SumOver(u.rounds, Owed(t)) == SumOver(s.rounds, Owed(t)) - part
            && SumOver(u.rounds, FundedIn(t)) == SumOver(s.rounds, FundedIn(t))
            && Get(u.outstanding, t) == Get(s.outstanding, t) - part
            && u.payments == s.payments && u.held == s.held && u.lock == s.lock
  {
    ReplaceRound(s, id, r, t);
  }

  // Money leaving a round through outstanding and a payment moves every sum alike.
  lemma ReleaseMoney(s: State, id: nat, r: Round, to: uint256, amount: nat, moved: bool, t: nat)
    requires Covered(s, t) && id < |s.rounds| && s.lock == Idle
    requires var q := s.rounds[id];
             && r.token == q.token && r.funded == q.funded && amount <= Get(s.outstanding, q.token)
             && Owed(q.token)(r) == Owed(q.token)(q) - amount
    ensures var o := PayOut(Release(s, id, r, amount), r.token, to, amount, moved);
            o.Done? ==> Covered(o.state, t) && Gap(o.state, t) == Gap(s, t)
  {
    ReleaseSums(s, id, r, amount, t);
    PayMoney(Release(s, id, r, amount), r.token, to, amount, moved, t);
  }

  lemma ReleaseKeepsBooks(s: State, id: nat, r: Round, to: uint256, amount: nat, moved: bool)
    requires AllCovered(s) && id < |s.rounds| && s.lock == Idle
    requires var q := s.rounds[id];
             && r.token == q.token && r.funded == q.funded && amount <= Get(s.outstanding, q.token)
             && Owed(q.token)(r) == Owed(q.token)(q) - amount
    ensures var o := PayOut(Release(s, id, r, amount), r.token, to, amount, moved);
            o.Done? ==> AllCovered(o.state) && SameGaps(s, o.state) && o.state.lock == Idle
                        && o.state.rounds == s.rounds[id := r] && o.state.claimed == s.claimed
  {
    var o := PayOut(Release(s, id, r, amount), r.token, to, amount, moved);
    if o.Done? {
      forall t: nat
        ensures Covered(o.state, t) && Gap(o.state, t) == Gap(s, t)
      {
        ReleaseMoney(s, id, r, to, amount, moved, t);
      }
    }
  }

  // ---- Entry point by entry point ------------------------------------------------------------

  lemma CreateMoney(s: State, c: Call, token: uint256, window: nat, t: nat)
    requires Covered(s, t) && LockOk(s)
    ensures var o := CreateRound(s, c, token, window);
            o.Done? ==> Covered(o.state, t) && Gap(o.state, t) == Gap(s, t)
  {
    var o := CreateRound(s, c, token, window);
    if o.Done? {
      var r := o.state.rounds[|s.rounds|];
      SumOverSnoc(s.rounds, r, Owed(t));
      SumOverSnoc(s.rounds, r, FundedIn(t));
    }
  }

  lemma CreateKeeps(s: State, c: Call, token: uint256, window: nat)
    requires Steady(s)
    ensures var o := CreateRound(s, c, token, window); o.Done? ==> Keeps(s, o.state)
  {
    var o := CreateRound(s, c, token, window);
    if o.Done? {
      forall t: nat
        ensures Covered(o.state, t) && Gap(o.state, t) == Gap(s, t)
      {
        CreateMoney(s, c, token, window, t);
      }
      forall j: nat | j < |o.state.rounds|
        ensures RoundOk(o.state, j)
      {
        if j < |s.rounds| {
          assert RoundOk(s, j);
        }
      }
    }
  }

  lemma FundEnterKeeps(s: State, c: Call, id: nat, amount: nat, moved: bool)
    requires Steady(s)
    ensures var o := FundEnter(s, c, id, amount, moved); o.Done? ==> Keeps(s, o.state)
  {
    var o := FundEnter(s, c, id, amount, moved);
    if o.Done? {
      forall t: nat
        ensures Covered(o.state, t) && Gap(o.state, t) == Gap(s, t)
      {
        assert Covered(s, t);
      }
      forall j: nat | j < |s.rounds|
        ensures RoundOk(o.state, j)
      {
        assert RoundOk(s, j);
      }
    }
  }

  lemma FundSettleMoney(s: State, t: nat)
    requires Covered(s, t) && LockOk(s) && s.lock.Funding?
    ensures var o := FundSettle(s); o.Done? && Covered(o.state, t) && Gap(o.state, t) == Gap(s, t)
  {
    var id, amount := s.lock.roundId, s.lock.amount;
    ReplaceRound(s, id, s.rounds[id].(funded := s.rounds[id].funded + amount), t);
  }

  // Crediting after the token call succeeds, whatever the round has become meanwhile.
  lemma FundSettleKeeps(s: State)
    requires Steady(s) && s.lock.Funding?
    ensures var o := FundSettle(s); o.Done? && Keeps(s, o.state)
  {
    var o := FundSettle(s);
    forall t: nat
      ensures Covered(o.state, t) && Gap(o.state, t) == Gap(s, t)
    {
      FundSettleMoney(s, t);
    }
    forall j: nat | j < |s.rounds|
      ensures RoundOk(o.state, j)
    {
      assert RoundOk(s, j);
    }
  }

  lemma SubmitKeeps(s: State, c: Call, id: nat, commitment: Bytes32)
    requires Steady(s)
    ensures var o := SubmitPolicy(s, c, id, commitment); o.Done? ==> Keeps(s, o.state)
  {
    var o := SubmitPolicy(s, c, id, commitment);
    if o.Done? {
      assert RoundOk(s, id);
      ProgressKeeps(s, o.state, id);
    }
  }

  lemma FinalizeKeeps(s: State, now: nat, self: uint256, res: AllocationResult, actionId: Bytes32, status: nat,
                      signer: uint256)
    requires Steady(s)
    ensures var o := FinalizeRound(s, now, self, res, actionId, status, signer); o.Done? ==> Keeps(s, o.state)
  {
    var o := FinalizeRound(s, now, self, res, actionId, status, signer);
    if o.Done? {
      ProgressKeeps(s, o.state, res.roundId);
    }
  }

  lemma ClaimKeeps(s: State, c: Call, keccak: Hash, id: nat, index: uint256, amount: uint256, proof: seq<Bytes32>,
                   moved: bool)
    requires Steady(s)
    ensures var o := Claim(s, c, keccak, id, index, amount, proof, moved); o.Done? ==> Keeps(s, o.state)
  {
    if Claim(s, c, keccak, id, index, amount, proof, moved).Done? {
      PayClaimKeeps(s, id, index, c.sender, amount, moved);
    }
  }

  // Claims of no round but id are new.
  ghost predicate ClaimsOf(s: State, s': State, id: nat)
  {
    && (forall j: nat, i: nat :: j != id ==> ((j, i) in s'.claimed <==> (j, i) in s.claimed))
    && (forall p :: p in s'.claimed ==> p.0 < |s'.rounds|)
  }

  // With the money right, one round written and in order keeps everything.
  lemma WrittenKeeps(s: State, s': State, id: nat)
    requires Steady(s) && AllCovered(s') && SameGaps(s, s') && s'.lock == Idle
    requires OneReplaced(s, s', id) && ClaimsOf(s, s', id) && RoundOk(s', id)
    requires (s.rounds[id].swept <==> !Live(s.rounds[id])) ==> (s'.rounds[id].swept <==> !Live(s'.rounds[id]))
    ensures Keeps(s, s')
  {
    forall j: nat | j < |s'.rounds|
      ensures RoundOk(s', j)
    {
      assert RoundOk(s, j);
    }
  }

  lemma GapsCompose(s: State, u: State, v: State)
    requires SameGaps(s, u) && SameGaps(u, v)
    ensures SameGaps(s, v)
  {
    forall t: nat
      ensures Gap(v, t) == Gap(s, t)
    {
      assert Gap(u, t) == Gap(s, t);
    }
  }

  lemma PayClaimKeeps(s: State, id: nat, index: uint256, to: uint256, amount: uint256, moved: bool)
    requires Steady(s) && s.lock == Idle && id < |s.rounds| && s.rounds[id].status == Finalized
    ensures var o := PayClaim(s, id, index, to, amount, moved); o.Done? ==> Keeps(s, o.state)
  {
    var o := PayClaim(s, id, index, to, amount, moved);
    if o.Done? {
      var marked := s.(claimed := s.claimed + {(id, index)});
      var r := s.rounds[id].(totalClaimed := s.rounds[id].totalClaimed + amount);
      MarkedBooks(s, marked);
      ReleaseKeepsBooks(marked, id, r, to, amount, moved);
      ClaimedInOrder(s, o.state, id, index, amount);
      GapsCompose(s, marked, o.state);
      WrittenKeeps(s, o.state, id);
    }
  }

  lemma ClaimedInOrder(s: State, s': State, id: nat, index: nat, amount: nat)
    requires AllRoundsOk(s) && id < |s.rounds| && s.rounds[id].status == Finalized
    requires s'.rounds == s.rounds[id := s.rounds[id].(totalClaimed := s.rounds[id].totalClaimed + amount)]
    requires s'.claimed == s.claimed + {(id, index)}
    ensures OneReplaced(s, s', id) && ClaimsOf(s, s', id) && RoundOk(s', id)
  {
    assert RoundOk(s, id);
  }

  // Marking a claim moves no money.
  lemma MarkedBooks(s: State, marked: State)
    requires AllCovered(s) && marked == s.(claimed := marked.claimed)
    ensures AllCovered(marked) && SameGaps(s, marked)
  {
    forall t: nat
      ensures Covered(marked, t) && Gap(marked, t) == Gap(s, t)
    {
      assert Covered(s, t);
    }
  }

  lemma WindDownKeeps(s: State, id: nat, status: Status, moved: bool)
    requires Steady(s) && s.lock == Idle && id < |s.rounds| && Live(s.rounds[id])
    requires status == if s.rounds[id].status == Finalized then Closed else Cancelled
    requires s.rounds[id].status != Finalized ==> !Dispatched(s.rounds[id])
    ensures var o := WindDown(s, id, status, s.rounds[id].funded - s.rounds[id].totalClaimed, moved);
            o.Done? ==> Keeps(s, o.state)
  {
    var q := s.rounds[id];
    var o := WindDown(s, id, status, q.funded - q.totalClaimed, moved);
    if o.Done? {
      ReleaseKeepsBooks(s, id, q.(swept := true, status := status), q.organization, q.funded - q.totalClaimed, moved);
      WoundDownKeeps(s, o.state, id, status);
    }
  }

  lemma WoundDownKeeps(s: State, s': State, id: nat, status: Status)
    requires Steady(s) && AllCovered(s') && SameGaps(s, s') && s'.lock == Idle && id < |s.rounds|
    requires status == if s.rounds[id].status == Finalized then Closed else Cancelled
    requires s.rounds[id].status != Finalized ==> !Dispatched(s.rounds[id])
    requires s'.rounds == s.rounds[id := s.rounds[id].(swept := true, status := status)] && s'.claimed == s.claimed
    ensures Keeps(s, s')
  {
    OverInOrder(s, s', id, status);
    WrittenKeeps(s, s', id);
  }

  lemma OverInOrder(s: State, s': State, id: nat, status: Status)
    requires AllRoundsOk(s) && id < |s.rounds| && s'.claimed == s.claimed
    requires status == if s.rounds[id].status == Finalized then Closed else Cancelled
    requires s'.rounds == s.rounds[id := s.rounds[id].(swept := true, status := status)]
    requires s.rounds[id].status != Finalized ==> !Dispatched(s.rounds[id])
    ensures OneReplaced(s, s', id) && ClaimsOf(s, s', id) && RoundOk(s', id)
  {
    assert RoundOk(s, id);
  }

  lemma CloseKeeps(s: State, c: Call, id: nat, moved: bool)
    requires Steady(s)
    ensures var o := CloseRound(s, c, id, moved); o.Done? ==> Keeps(s, o.state)
  {
    if CloseRound(s, c, id, moved).Done? {
      WindDownKeeps(s, id, Closed, moved);
    }
  }

  lemma CancelKeeps(s: State, c: Call, id: nat, moved: bool)
    requires Steady(s)
    ensures var o := CancelRound(s, c, id, moved); o.Done? ==> Keeps(s, o.state)
  {
    if CancelRound(s, c, id, moved).Done? {
      assert RoundOk(s, id);
      WindDownKeeps(s, id, Cancelled, moved);
    }
  }

  lemma UntouchedRounds(s: State, s': State)
    requires Steady(s) && s'.rounds == s.rounds && s'.claimed == s.claimed && s'.outstanding == s.outstanding
    requires s'.lock == s.lock && s'.payments == s.payments
    requires forall t: nat :: Get(s'.held, t) >= Get(s.outstanding, t) + InFlight(s, t)
    ensures Keeps(s, s')
  {
    forall t: nat
      ensures Covered(s', t) && Gap(s', t) == Gap(s, t)
    {
      assert Covered(s, t);
    }
    forall j: nat | j < |s.rounds|
      ensures RoundOk(s', j)
    {
      assert RoundOk(s, j);
    }
  }

  // Neither rounds nor money change.
  lemma OnlyRestChanges(s: State, s': State)
    requires Steady(s) && s'.rounds == s.rounds && SameMoney(s, s')
    ensures Keeps(s, s')
  {
    forall t: nat
      ensures Get(s'.held, t) >= Get(s.outstanding, t) + InFlight(s, t)
    {
      assert Covered(s, t);
    }
    UntouchedRounds(s, s');
  }

  lemma ReceiveKeeps(s: State, token: uint256, amount: nat)
    requires Steady(s)
    ensures Keeps(s, Receive(s, token, amount))
  {
    forall t: nat
      ensures Get(Receive(s, token, amount).held, t) >= Get(s.outstanding, t) + InFlight(s, t)
    {
      assert Covered(s, t);
    }
    UntouchedRounds(s, Receive(s, token, amount));
  }

  // A rescue leaves exactly what is outstanding, and touches no other token.
  lemma RescueLeavesOutstanding(s: State, c: Call, token: uint256, to: uint256, moved: bool)
    requires Steady(s)
    ensures var o := Rescue(s, c, token, to, moved);
            o.Done? ==>
              && Keeps(s, o.state)
              && Get(o.state.held, token) == Get(s.outstanding, token) == SumOver(s.rounds, Owed(token)) - Gap(s, token)
              && forall t: nat :: t != token ==> Get(o.state.held, t) == Get(s.held, t)
  {
    var o := Rescue(s, c, token, to, moved);
    if o.Done? {
      forall t: nat
        ensures Get(o.state.held, t) >= Get(s.outstanding, t) + InFlight(s, t)
      {
        assert Covered(s, t);
      }
      UntouchedRounds(s, o.state);
    }
  }

  // ---- Recording the registry's answer -------------------------------------------------------

  // The round whose answer is recorded next.
  function Answered(s: State): Option<Round>
  {
    if s.pending == [] || s.pending[|s.pending| - 1].roundId >= |s.rounds| then None
    else Some(s.rounds[s.pending[|s.pending| - 1].roundId])
  }

  // Recording is the one entry point that may leave the books wrong, and by exactly what a round that was
  // cancelled or closed while the registry was asked owes again.
  lemma RecordMoves(s: State, now: nat, answer: Bytes32)
    requires Steady(s) && Answered(s).Some?
    ensures var o := RecordCompute(s, now, answer);
            o.Done? && Steady(o.state) && forall t: nat :: Gap(o.state, t) == Gap(s, t) + Revival(Answered(s).value, t)
  {
    var id := s.pending[|s.pending| - 1].roundId;
    assert RoundOk(s, id);
    ProgressKeeps(s, RecordCompute(s, now, answer).state, id);
  }

  // Right books stay right exactly when the round is not over when the registry answers.
  lemma RecordKeepsSoundExactly(s: State, now: nat, answer: Bytes32)
    requires Sound(s) && Answered(s).Some?
    ensures Sound(RecordCompute(s, now, answer).state) <==> Live(Answered(s).value)
  {
    var s' := RecordCompute(s, now, answer).state;
    var id := s.pending[|s.pending| - 1].roundId;
    assert RoundOk(s, id);
    ProgressKeeps(s, s', id);
    if Live(s.rounds[id]) {
      KeepsSound(s, s');
    } else {
      assert s'.rounds[id].swept && Live(s'.rounds[id]);
    }
  }

  // ---- What paying calls change --------------------------------------------------------------

  // One round gets new values; everything else a payment does is to money.
  ghost predicate PaysFor(s: State, t: State, id: nat, r: Round)
  {
    && id < |s.rounds| && t.rounds == s.rounds[id := r] && s.payments <= t.payments
    && t.owner == s.owner && t.teeAddress == s.teeAddress && t.pending == s.pending && t.lock == s.lock
  }

  lemma CloseEffect(s: State, c: Call, id: nat, moved: bool)
    ensures var o := CloseRound(s, c, id, moved);
            o.Done? ==>
              && id < |s.rounds| && s.rounds[id].status == Finalized && o.state.claimed == s.claimed
              && PaysFor(s, o.state, id, s.rounds[id].(swept := true, status := Closed))
  {
  }

  lemma CancelEffect(s: State, c: Call, id: nat, moved: bool)
    ensures var o := CancelRound(s, c, id, moved);
            o.Done? ==>
              && id < |s.rounds| && (s.rounds[id].status == Open || s.rounds[id].status == Committed)
              && o.state.claimed == s.claimed
              && PaysFor(s, o.state, id, s.rounds[id].(swept := true, status := Cancelled))
  {
  }

  lemma ClaimPays(s: State, c: Call, keccak: Hash, id: nat, index: uint256, amount: uint256, proof: seq<Bytes32>,
                  moved: bool)
    ensures var o := Claim(s, c, keccak, id, index, amount, proof, moved);
            o.Done? ==>
              && id < |s.rounds| && s.rounds[id].status == Finalized && (id, index) !in s.claimed && s.lock == Idle
              && Clock(c.now) <= s.rounds[id].claimDeadline
              && Verify(keccak, s.rounds[id].merkleRoot, id, index, c.sender, amount, proof)
              && o.state.claimed == s.claimed + {(id, index)}
              && PaysFor(s, o.state, id, s.rounds[id].(totalClaimed := s.rounds[id].totalClaimed + amount))
              && o.state.payments == (if amount == 0 then s.payments
                                      else s.payments + [Payment(s.rounds[id].token, c.sender, amount)])
  {
  }

  // What finalization writes.
  function Finished(r: Round, res: AllocationResult, now: nat): Round
  {
    r.(merkleRoot := res.merkleRoot, totalAllocated := res.totalAllocated, recipientCount := res.recipientCount,
       engineVersion := res.engineVersion, claimDeadline := Clock(now) + r.claimWindow, status := Finalized)
  }

  lemma FinalizeEffect(s: State, now: nat, self: uint256, res: AllocationResult, actionId: Bytes32, status: nat,
                       signer: uint256)
    ensures var o := FinalizeRound(s, now, self, res, actionId, status, signer);
            o.Done? ==>
              && status == SUCCESS && res.roundId < |s.rounds| && s.rounds[res.roundId].status == Computing
              && s.rounds[res.roundId].computeInstructionId == actionId && res.merkleRoot != ZERO32
              && s.rounds[res.roundId].policyCommitment == res.policyCommitment
              && o.state == s.(rounds := s.rounds[res.roundId := Finished(s.rounds[res.roundId], res, now)])
  {
  }

  // A result that matches its round is applied.
  lemma FinalizeAccepts(s: State, now: nat, self: uint256, res: AllocationResult, actionId: Bytes32)
    requires s.teeAddress != 0 && res.contractAddr == self && res.roundId < |s.rounds|
    requires var r := s.rounds[res.roundId];
             && r.status == Computing && r.computeInstructionId == actionId
             && r.policyCommitment == res.policyCommitment
             && res.merkleRoot != ZERO32 && res.recipientCount > 0 && res.totalAllocated <= r.funded
             && Clock(now) + r.claimWindow < UINT48
    ensures FinalizeRound(s, now, self, res, actionId, SUCCESS, s.teeAddress)
         == Done(s.(rounds := s.rounds[res.roundId := Finished(s.rounds[res.roundId], res, now)]))
  {
  }

  // ---- What closing sends --------------------------------------------------------------------

  // Closing returns all that was funded and not claimed. The design document bounds it by the
  // allocation not claimed; that bound holds exactly when the whole funding was allocated.
  lemma CloseSweepsFunding(s: State, c: Call, id: nat, moved: bool)
    requires Steady(s) && CloseRound(s, c, id, moved).Done?
    ensures var r := s.rounds[id];
            var sent := Paid(CloseRound(s, c, id, moved).state.payments, r.token) - Paid(s.payments, r.token);
            && sent == r.funded - r.totalClaimed
            && (sent <= r.totalAllocated - r.totalClaimed <==> r.totalAllocated == r.funded)
  {
    var r := s.rounds[id];
    assert RoundOk(s, id);
    PaidOne(s.payments, Payment(r.token, r.organization, r.funded - r.totalClaimed), r.token);
  }
}
