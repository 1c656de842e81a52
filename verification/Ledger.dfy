/** Money over whole runs: what came in is held, was paid out or was rescued, round by round and token by token. */
module Ledger {
  import opened Options
  import opened Rounds
  import opened Books
  import opened Enclave
  import opened Protocol
  import opened Safety
  import opened Runs
  import opened Entries

  // ---- What came in --------------------------------------------------------------------------

  // What the step takes in for a round.
  function TakenBy(step: Step, id: nat): nat
  {
    if step.BeginFund? && step.id == id then step.amount else 0
  }

  function TakenIn(s: System, step: Step, token: nat): nat
  {
    if step.BeginFund? && step.id < |s.chain.rounds| && s.chain.rounds[step.id].token == token then step.amount else 0
  }

  // What the step sends the contract for no round.
  function GivenBy(step: Step, token: nat): nat
  {
    if step.Donate? && step.token == token then step.amount else 0
  }

  // Over the accepted steps of a run.
  ghost function Taken(h: Host, s: System, steps: seq<Step>, id: nat): nat
    decreases |steps|
  {
    if steps == [] then 0
    else
      match Next(h, s, steps[0])
      case None => Taken(h, s, steps[1..], id)
      case Some(t) => TakenBy(steps[0], id) + Taken(h, t, steps[1..], id)
  }

  ghost function TakenOf(h: Host, s: System, steps: seq<Step>, token: nat): nat
    decreases |steps|
  {
    if steps == [] then 0
    else
      match Next(h, s, steps[0])
      case None => TakenOf(h, s, steps[1..], token)
      case Some(t) => TakenIn(s, steps[0], token) + TakenOf(h, t, steps[1..], token)
  }

  ghost function GivenOf(h: Host, s: System, steps: seq<Step>, token: nat): nat
    decreases |steps|
  {
    if steps == [] then 0
    else
      match Next(h, s, steps[0])
      case None => GivenOf(h, s, steps[1..], token)
      case Some(t) => GivenBy(steps[0], token) + GivenOf(h, t, steps[1..], token)
  }

  // ---- Where it is ---------------------------------------------------------------------------

  // What a round has been credited, or is about to be.
  function Credited(s: State, id: nat): nat
  {
    (if id < |s.rounds| then s.rounds[id].funded else 0)
    + (if s.lock.Funding? && s.lock.roundId == id then s.lock.amount else 0)
  }

  // What all rounds of a token have been.
  ghost function CreditedIn(s: State, token: nat): int
  {
    SumOver(s.rounds, FundedIn(token)) + InFlight(s, token)
  }

  // What is held or has left.
  function Accounted(s: State, token: nat): nat
  {
    Get(s.held, token) + Paid(s.payments, token) + Paid(s.rescues, token)
  }

  ghost predicate CreditStep(s: System, step: Step, t: System)
  {
    && (forall id: nat :: Credited(t.chain, id) == Credited(s.chain, id) + TakenBy(step, id))
    && (forall k: nat :: CreditedIn(t.chain, k) == CreditedIn(s.chain, k) + TakenIn(s, step, k))
  }

  ghost predicate BalanceStep(s: System, step: Step, t: System)
  {
    forall k: nat :: Accounted(t.chain, k) == Accounted(s.chain, k) + TakenIn(s, step, k) + GivenBy(step, k)
  }

  // ---- Steps that take nothing in ------------------------------------------------------------

  // No round's funding changes.
  ghost predicate SameFunding(s: State, t: State)
  {
    && (forall id: nat :: Credited(t, id) == Credited(s, id))
    && (forall k: nat :: CreditedIn(t, k) == CreditedIn(s, k))
  }

  lemma OneRoundFunding(s: State, t: State, id: nat)
    requires OneReplaced(s, t, id) && t.lock == s.lock
    requires t.rounds[id].funded == s.rounds[id].funded && t.rounds[id].token == s.rounds[id].token
    ensures SameFunding(s, t)
  {
    forall k: nat
      ensures CreditedIn(t, k) == CreditedIn(s, k)
    {
      ReplaceRound(s, id, t.rounds[id], k);
    }
  }

  lemma NewRoundFunding(s: State, c: Call, token: uint256, window: nat)
    requires LockOk(s)
    ensures var o := CreateRound(s, c, token, window); o.Done? ==> SameFunding(s, o.state)
  {
    var o := CreateRound(s, c, token, window);
    if o.Done? {
      forall k: nat
        ensures CreditedIn(o.state, k) == CreditedIn(s, k)
      {
        SumOverSnoc(s.rounds, o.state.rounds[|s.rounds|], FundedIn(k));
      }
    }
  }

  lemma PaidAccounted(s: State, t: State, token: uint256, to: uint256, amount: nat, k: nat)
    requires PaidTo(s, t, token, to, amount) && t.rescues == s.rescues
    ensures Accounted(t, k) == Accounted(s, k)
  {
    if amount == 0 {
      assert t.payments == s.payments;
    } else {
      PaidOne(s.payments, Payment(token, to, amount), k);
    }
  }

  // ---- Step by step --------------------------------------------------------------------------

  lemma CreateLedger(h: Host, s: System, step: Step, t: System)
    requires step.Create? && Next(h, s, step) == Some(t) && LockOk(s.chain)
    ensures CreditStep(s, step, t) && BalanceStep(s, step, t)
  {
    NewRoundFunding(s.chain, Call(step.sender, 0, s.now), step.token, step.window);
  }

  lemma BeginFundLedger(h: Host, s: System, step: Step, t: System)
    requires step.BeginFund? && Next(h, s, step) == Some(t)
    ensures CreditStep(s, step, t) && BalanceStep(s, step, t)
  {
    FundEnterExactly(s.chain, Call(step.sender, step.value, s.now), step.id, step.amount, step.moved);
  }

  lemma SettledCredit(s: State, t: State, k: nat)
    requires FundSettle(s) == Done(t)
    ensures CreditedIn(t, k) == CreditedIn(s, k)
  {
    var id, amount := s.lock.roundId, s.lock.amount;
    ReplaceRound(s, id, s.rounds[id].(funded := s.rounds[id].funded + amount), k);
  }

  lemma EndFundLedger(h: Host, s: System, step: Step, t: System)
    requires step.EndFund? && Next(h, s, step) == Some(t)
    ensures CreditStep(s, step, t) && BalanceStep(s, step, t)
  {
    forall k: nat
      ensures CreditedIn(t.chain, k) == CreditedIn(s.chain, k)
    {
      SettledCredit(s.chain, t.chain, k);
    }
  }

  // Progress of one round, with no money moving.
  lemma ProgressLedger(s: System, step: Step, t: System, id: nat)
    requires OneReplaced(s.chain, t.chain, id) && SameMoney(s.chain, t.chain) && t.chain.rescues == s.chain.rescues
    requires t.chain.rounds[id].funded == s.chain.rounds[id].funded
    requires t.chain.rounds[id].token == s.chain.rounds[id].token && !step.BeginFund? && !step.Donate?
    ensures CreditStep(s, step, t) && BalanceStep(s, step, t)
  {
    OneRoundFunding(s.chain, t.chain, id);
  }

  lemma RoundLedger(h: Host, s: System, step: Step, t: System)
    requires (step.Submit? || step.EndCompute? || step.Finalize?) && Next(h, s, step) == Some(t)
    ensures CreditStep(s, step, t) && BalanceStep(s, step, t)
  {
    if step.Submit? {
      ProgressLedger(s, step, t, step.id);
    } else if step.EndCompute? {
      ProgressLedger(s, step, t, s.chain.pending[|s.chain.pending| - 1].roundId);
    } else {
      var x := step.result;
      FinalizeEffect(s.chain, s.now, h.self, x.data, x.actionId, x.status, x.machine);
      ProgressLedger(s, step, t, x.data.roundId);
    }
  }

  // A payment for one round.
  lemma PayingLedger(s: System, step: Step, t: System, id: nat, to: uint256, amount: nat)
    requires OneReplaced(s.chain, t.chain, id) && t.chain.lock == s.chain.lock && t.chain.rescues == s.chain.rescues
    requires t.chain.rounds[id].funded == s.chain.rounds[id].funded
    requires t.chain.rounds[id].token == s.chain.rounds[id].token && !step.BeginFund? && !step.Donate?
    requires PaidTo(s.chain, t.chain, s.chain.rounds[id].token, to, amount)
    ensures CreditStep(s, step, t) && BalanceStep(s, step, t)
  {
    OneRoundFunding(s.chain, t.chain, id);
    forall k: nat
      ensures Accounted(t.chain, k) == Accounted(s.chain, k)
    {
      PaidAccounted(s.chain, t.chain, s.chain.rounds[id].token, to, amount, k);
    }
  }

  lemma ClaimLedger(h: Host, s: System, step: Step, t: System)
    requires step.MakeClaim? && Next(h, s, step) == Some(t)
    ensures CreditStep(s, step, t) && BalanceStep(s, step, t)
  {
    ClaimCall(h, s, step, t);
    ClaimExactly(s.chain, Call(step.sender, 0, s.now), h.keccak, step.id, step.index, step.share, step.proof,
                 step.moved);
    PayingLedger(s, step, t, step.id, step.sender, step.share);
  }

  lemma CloseLedger(h: Host, s: System, step: Step, t: System)
    requires step.Close? && Next(h, s, step) == Some(t)
    ensures CreditStep(s, step, t) && BalanceStep(s, step, t)
  {
    var r := s.chain.rounds[step.id];
    CloseAccepted(s.chain, Call(0, 0, s.now), step.id, step.moved);
    PayingLedger(s, step, t, step.id, r.organization, r.funded - r.totalClaimed);
  }

  lemma CancelLedger(h: Host, s: System, step: Step, t: System)
    requires step.Cancel? && Next(h, s, step) == Some(t)
    ensures CreditStep(s, step, t) && BalanceStep(s, step, t)
  {
    var r := s.chain.rounds[step.id];
    CancelAccepted(s.chain, Call(step.sender, 0, s.now), step.id, step.moved);
    PayingLedger(s, step, t, step.id, r.organization, r.funded);
  }

  lemma RescueLedger(h: Host, s: System, step: Step, t: System)
    requires step.DoRescue? && Next(h, s, step) == Some(t)
    ensures CreditStep(s, step, t) && BalanceStep(s, step, t)
  {
    RescueExactly(s.chain, Call(step.sender, 0, s.now), step.token, step.to, step.moved);
    var excess := Get(s.chain.held, step.token) - Get(s.chain.outstanding, step.token);
    forall k: nat
      ensures Accounted(t.chain, k) == Accounted(s.chain, k)
    {
      PaidOne(s.chain.rescues, Payment(step.token, step.to, excess), k);
    }
  }

  lemma DonateLedger(h: Host, s: System, step: Step, t: System)
    requires step.Donate? && Next(h, s, step) == Some(t)
    ensures CreditStep(s, step, t) && BalanceStep(s, step, t)
  {
  }

  // Neither rounds nor balances change.
  lemma RestLedger(s: System, step: Step, t: System)
    requires t.chain.rounds == s.chain.rounds && SameMoney(s.chain, t.chain) && t.chain.rescues == s.chain.rescues
    requires !step.BeginFund? && !step.Donate?
    ensures CreditStep(s, step, t) && BalanceStep(s, step, t)
  {
  }

  lemma OtherLedger(h: Host, s: System, step: Step, t: System)
    requires Next(h, s, step) == Some(t)
    requires step.Tick? || step.BeginCompute? || step.AskDisclosure? || step.AskAttestation? || step.SetTee?
          || Enclaved(step)
    ensures CreditStep(s, step, t) && BalanceStep(s, step, t)
  {
    if Enclaved(step) {
      EnclavesStayOffChain(h, s, step, t);
    }
    RestLedger(s, step, t);
  }

  lemma StepLedger(h: Host, s: System, step: Step, t: System)
    requires Next(h, s, step) == Some(t) && LockOk(s.chain)
    ensures CreditStep(s, step, t) && BalanceStep(s, step, t)
  {
    match step {
      case Create(_, _, _) => CreateLedger(h, s, step, t);
      case BeginFund(_, _, _, _, _) => BeginFundLedger(h, s, step, t);
      case EndFund => EndFundLedger(h, s, step, t);
      case Submit(_, _, _) => RoundLedger(h, s, step, t);
      case EndCompute(_) => RoundLedger(h, s, step, t);
      case Finalize(_) => RoundLedger(h, s, step, t);
      case MakeClaim(_, _, _, _, _, _) => ClaimLedger(h, s, step, t);
      case Close(_, _) => CloseLedger(h, s, step, t);
      case Cancel(_, _, _) => CancelLedger(h, s, step, t);
      case DoRescue(_, _, _, _) => RescueLedger(h, s, step, t);
      case Donate(_, _) => DonateLedger(h, s, step, t);
      case _ => OtherLedger(h, s, step, t);
    }
  }

  // ---- Over runs -----------------------------------------------------------------------------

  lemma {:induction false} RunLedger(h: Host, s: System, steps: seq<Step>, id: nat, token: nat)
    requires Inv(h, s)
    ensures var t := Execute(h, s, steps);
            && Credited(t.chain, id) == Credited(s.chain, id) + Taken(h, s, steps, id)
            && CreditedIn(t.chain, token) == CreditedIn(s.chain, token) + TakenOf(h, s, steps, token)
            && Accounted(t.chain, token)
                 == Accounted(s.chain, token) + TakenOf(h, s, steps, token) + GivenOf(h, s, steps, token)
    decreases |steps|
  {
    if steps != [] {
      match Next(h, s, steps[0])
      case None => RunLedger(h, s, steps[1..], id, token);
      case Some(t) =>
        StepLedger(h, s, steps[0], t);
        StepKeepsInv(h, s, steps[0], t);
        RunLedger(h, t, steps[1..], id, token);
    }
  }

  // After any run a round's funding is all that `fund` collected for it, but for what is about to be credited.
  lemma FundingIsCollected(d: Deployment, owner: uint256, steps: seq<Step>, id: nat)
    requires id < |After(d, owner, steps).chain.rounds|
    ensures var chain := After(d, owner, steps).chain;
            chain.rounds[id].funded + (if chain.lock.Funding? && chain.lock.roundId == id then chain.lock.amount else 0)
              == Taken(HostOf(d), Start(owner), steps, id)
  {
    EngineIsFaithful(d);
    StartInv(HostOf(d), owner);
    RunLedger(HostOf(d), Start(owner), steps, id, 0);
  }

  // After any run and for every token: all that `fund` collected is outstanding, was paid out, or is about to
  // be credited; and with what was sent for no round it is held, was paid out or was rescued.
  lemma MoneyIsConserved(d: Deployment, owner: uint256, steps: seq<Step>, token: nat)
    ensures var chain := After(d, owner, steps).chain;
            var taken := TakenOf(HostOf(d), Start(owner), steps, token);
            && taken == Get(chain.outstanding, token) + Paid(chain.payments, token) + InFlight(chain, token)
            && taken + GivenOf(HostOf(d), Start(owner), steps, token)
                 == Get(chain.held, token) + Paid(chain.payments, token) + Paid(chain.rescues, token)
  {
    EngineIsFaithful(d);
    StartInv(HostOf(d), owner);
    RunLedger(HostOf(d), Start(owner), steps, 0, token);
    AfterInv(d, owner, steps);
    assert Covered(After(d, owner, steps).chain, token);
  }
}
