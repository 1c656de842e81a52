/**
 What a round costs that is cancelled while the registry is asked and goes on all the same: what such rounds
 owe again is told from the rounds themselves, in every run.
 */
module Tally {
  import opened Options
  import opened Bytes
  import opened Rounds
  import opened Books
  import opened Enclave
  import opened Protocol
  import opened Safety

  // ---- Rounds that went on after their funding was returned -----------------------------------

  predicate BroughtBack(r: Round)
  {
    r.swept && Live(r)
  }

  // What was returned with such rounds.
  function Returned(t: nat): Round -> int
  {
    (r: Round) => if r.token == t && BroughtBack(r) then r.funded else 0
  }

  // What was claimed of such rounds.
  function Overdrawn(t: nat): Round -> int
  {
    (r: Round) => if r.token == t && BroughtBack(r) then r.totalClaimed else 0
  }

  // What such rounds still tie up.
  function Debt(t: nat): Round -> int
  {
    (r: Round) => Returned(t)(r) - Overdrawn(t)(r)
  }

  // What rounds hold whose remainder was not returned.
  function Unswept(t: nat): Round -> int
  {
    (r: Round) => if r.token == t && !r.swept then r.funded - r.totalClaimed else 0
  }

  // ---- The invariant -------------------------------------------------------------------------

  // A round that is over was swept, one that was not dispatched was not, and none is dispatched without funding.
  predicate Flagged(r: Round)
  {
    && (!Live(r) ==> r.swept) && (r.status == Open || r.status == Committed ==> !r.swept)
    && (r.status == Committed || Dispatched(r) ==> r.funded > 0)
    && MIN_CLAIM_WINDOW <= r.claimWindow
  }

  // A round an answer may still be recorded for: time stands still while its call waits, so one that is
  // finalized meanwhile cannot be closed.
  predicate Resumable(r: Round, now: nat)
  {
    && r.status != Open && r.status != Closed && r.funded > 0
    && (r.status == Finalized ==> Clock(now) <= r.claimDeadline)
  }

  ghost predicate AllFlagged(s: State)
  {
    forall id: nat :: id < |s.rounds| ==> Flagged(s.rounds[id])
  }

  ghost predicate AllResumable(s: System)
  {
    forall w :: w in s.chain.pending ==>
      w.roundId < |s.chain.rounds| && Resumable(s.chain.rounds[w.roundId], s.now)
  }

  ghost predicate FundingUnswept(s: State)
  {
    s.lock.Funding? ==> s.lock.roundId < |s.rounds| && !s.rounds[s.lock.roundId].swept
  }

  // Live rounds tie up beyond outstanding just what was returned with rounds that went on.
  ghost predicate GapsTold(s: State)
  {
    forall t: nat :: Gap(s, t) == SumOver(s.rounds, Returned(t))
  }

  ghost predicate Tallied(s: System)
  {
    AllFlagged(s.chain) && AllResumable(s) && FundingUnswept(s.chain) && GapsTold(s.chain)
  }

  lemma StartTallied(owner: uint256)
    ensures Tallied(Start(owner))
  {
  }

  // ---- What the tally says -------------------------------------------------------------------

  lemma OwedOf(r: Round, t: nat)
    requires Flagged(r)
    ensures Owed(t)(r) == Unswept(t)(r) + Debt(t)(r)
  {
    assert Debt(t)(r) == Returned(t)(r) - Overdrawn(t)(r);
    if !r.swept {
      assert Returned(t)(r) == Overdrawn(t)(r) == 0;
    }
  }

  // What live rounds tie up, by whether they were brought back.
  lemma OwedSplits(rounds: seq<Round>, t: nat)
    requires forall j :: 0 <= j < |rounds| ==> Flagged(rounds[j])
    ensures SumOver(rounds, Owed(t))
         == SumOver(rounds, Unswept(t)) + SumOver(rounds, Returned(t)) - SumOver(rounds, Overdrawn(t))
  {
    forall j | 0 <= j < |rounds|
      ensures Owed(t)(rounds[j]) == Unswept(t)(rounds[j]) + Debt(t)(rounds[j])
    {
      OwedOf(rounds[j], t);
    }
    SumOverSplits(rounds, Owed(t), Unswept(t), Debt(t));
    SumOverSplits(rounds, Returned(t), Debt(t), Overdrawn(t));
  }

  // What unswept rounds hold is outstanding, but for what was claimed of rounds brought back.
  lemma OutstandingTold(s: System, t: nat)
    requires Tallied(s)
    ensures SumOver(s.chain.rounds, Unswept(t)) == Get(s.chain.outstanding, t) + SumOver(s.chain.rounds, Overdrawn(t))
  {
    OwedSplits(s.chain.rounds, t);
    assert Gap(s.chain, t) == SumOver(s.chain.rounds, Returned(t));
  }

  // No round of the token was brought back.
  ghost predicate NoneBack(rounds: seq<Round>, t: nat)
  {
    forall id: nat :: id < |rounds| && rounds[id].token == t ==> !BroughtBack(rounds[id])
  }

  // The books of a token are right exactly if no round of it was brought back: every one of them cost money.
  lemma GapExactly(s: System, t: nat)
    requires Tallied(s)
    ensures Gap(s.chain, t) >= 0
    ensures Gap(s.chain, t) == 0 <==> NoneBack(s.chain.rounds, t)
  {
    var rounds := s.chain.rounds;
    SumIsZeroExactly(rounds, Returned(t));
    assert Gap(s.chain, t) == SumOver(rounds, Returned(t));
    forall j: nat | j < |rounds|
      ensures Returned(t)(rounds[j]) == 0 <==> !(rounds[j].token == t && BroughtBack(rounds[j]))
    {
      assert Flagged(rounds[j]);
    }
  }

  lemma SoundExactly(s: System)
    requires Tallied(s) && Steady(s.chain)
    ensures Sound(s.chain) <==> forall t: nat :: NoneBack(s.chain.rounds, t)
  {
    forall t: nat
      ensures Gap(s.chain, t) == 0 <==> NoneBack(s.chain.rounds, t)
    {
      GapExactly(s, t);
    }
    forall id: nat | id < |s.chain.rounds|
      ensures BroughtBack(s.chain.rounds[id]) <==> !(s.chain.rounds[id].swept <==> !Live(s.chain.rounds[id]))
    {
      assert Flagged(s.chain.rounds[id]);
    }
    if forall t: nat :: NoneBack(s.chain.rounds, t) {
      forall id: nat | id < |s.chain.rounds|
        ensures !BroughtBack(s.chain.rounds[id])
      {
        assert NoneBack(s.chain.rounds, s.chain.rounds[id].token);
      }
    }
  }

  // An answer never finds its round open or closed, and one that finds it cancelled finds it funded and
  // unclaimed.
  lemma AnswerFinds(s: System)
    requires Tallied(s) && AllRoundsOk(s.chain) && Answered(s.chain).Some?
    ensures var r := Answered(s.chain).value;
            && r.status != Open && r.status != Closed && r.funded > 0
            && (r.status == Cancelled ==> r.totalClaimed == 0)
            && (r.status == Finalized ==> Clock(s.now) <= r.claimDeadline)
  {
    var w := s.chain.pending[|s.chain.pending| - 1];
    assert w in s.chain.pending && RoundOk(s.chain, w.roundId);
  }

  // ---- One round changes ---------------------------------------------------------------------

  // Replacing the round moves what was returned as it moves the gaps.
  ghost predicate MovesAlike(s: State, t: State, id: nat)
    requires id < |s.rounds| && id < |t.rounds|
  {
    forall k: nat :: Gap(t, k) - Gap(s, k) == Returned(k)(t.rounds[id]) - Returned(k)(s.rounds[id])
  }

  lemma OneGapTold(s: State, t: State, id: nat)
    requires GapsTold(s) && OneReplaced(s, t, id) && MovesAlike(s, t, id)
    ensures GapsTold(t)
  {
    forall k: nat
      ensures Gap(t, k) == SumOver(t.rounds, Returned(k))
    {
      assert Gap(s, k) == SumOver(s.rounds, Returned(k));
      SumOverUpdate(s.rounds, id, t.rounds[id], Returned(k));
    }
  }

  lemma OneRoundTallied(s: System, t: System, id: nat)
    requires Tallied(s) && OneReplaced(s.chain, t.chain, id) && MovesAlike(s.chain, t.chain, id)
    requires Flagged(t.chain.rounds[id]) && FundingUnswept(t.chain) && t.now == s.now
    requires forall w :: w in t.chain.pending ==> w in s.chain.pending
    requires Resumable(s.chain.rounds[id], s.now) ==> Resumable(t.chain.rounds[id], s.now)
    ensures Tallied(t)
  {
    OneGapTold(s.chain, t.chain, id);
    forall j: nat | j < |t.chain.rounds|
      ensures Flagged(t.chain.rounds[j])
    {
      assert Flagged(s.chain.rounds[j]);
    }
  }

  // A step that leaves the gaps alone replaces a round by one that was brought back exactly if it was.
  lemma KeptRoundTallied(s: System, t: System, id: nat)
    requires Tallied(s) && Keeps(s.chain, t.chain) && OneReplaced(s.chain, t.chain, id) && t.now == s.now
    requires var r, q := s.chain.rounds[id], t.chain.rounds[id];
             && Flagged(q) && q.token == r.token && (BroughtBack(q) <==> BroughtBack(r))
             && (BroughtBack(q) ==> q.funded == r.funded)
             && (Resumable(r, s.now) ==> Resumable(q, s.now))
    requires FundingUnswept(t.chain) && t.chain.pending == s.chain.pending
    ensures Tallied(t)
  {
    OneRoundTallied(s, t, id);
  }

  lemma NoRoundTallied(s: System, t: System)
    requires Tallied(s) && Keeps(s.chain, t.chain) && t.chain.rounds == s.chain.rounds
    requires FundingUnswept(t.chain)
    requires forall w :: w in t.chain.pending ==> t.now == s.now
    requires forall w :: w in t.chain.pending && w !in s.chain.pending ==>
               w.roundId < |s.chain.rounds| && Resumable(s.chain.rounds[w.roundId], s.now)
    ensures Tallied(t)
  {
    forall k: nat
      ensures Gap(t.chain, k) == SumOver(t.chain.rounds, Returned(k))
    {
      assert Gap(s.chain, k) == SumOver(s.chain.rounds, Returned(k));
    }
  }

  // ---- Step by step --------------------------------------------------------------------------

  lemma CreateTallied(h: Host, s: System, step: Step, t: System)
    requires Tallied(s) && step.Create? && Next(h, s, step) == Some(t) && Keeps(s.chain, t.chain)
    ensures Tallied(t)
  {
    var r := t.chain.rounds[|s.chain.rounds|];
    forall k: nat
      ensures Gap(t.chain, k) == SumOver(t.chain.rounds, Returned(k))
    {
      assert Gap(s.chain, k) == SumOver(s.chain.rounds, Returned(k));
      SumOverSnoc(s.chain.rounds, r, Returned(k));
    }
    forall j: nat | j < |t.chain.rounds|
      ensures Flagged(t.chain.rounds[j])
    {
      if j < |s.chain.rounds| {
        assert Flagged(s.chain.rounds[j]);
      }
    }
  }

  lemma FundTallied(h: Host, s: System, step: Step, t: System)
    requires Tallied(s) && (step.BeginFund? || step.EndFund?) && Next(h, s, step) == Some(t) && Keeps(s.chain, t.chain)
    ensures Tallied(t)
  {
    if step.BeginFund? {
      assert Flagged(s.chain.rounds[step.id]);
      NoRoundTallied(s, t);
    } else {
      assert Flagged(s.chain.rounds[s.chain.lock.roundId]);
      KeptRoundTallied(s, t, s.chain.lock.roundId);
    }
  }

  lemma SubmitTallied(h: Host, s: System, step: Step, t: System)
    requires Tallied(s) && step.Submit? && Next(h, s, step) == Some(t) && Keeps(s.chain, t.chain)
    ensures Tallied(t)
  {
    assert Flagged(s.chain.rounds[step.id]);
    KeptRoundTallied(s, t, step.id);
  }

  lemma BeginComputeTallied(h: Host, s: System, step: Step, t: System)
    requires Tallied(s) && step.BeginCompute? && Next(h, s, step) == Some(t) && Keeps(s.chain, t.chain)
    ensures Tallied(t)
  {
    assert Flagged(s.chain.rounds[step.id]);
    NoRoundTallied(s, t);
  }

  // Recording an answer brings the round back if it was cancelled meanwhile.
  lemma RecordedTold(s: State, t: State, id: nat, now: nat, answer: Bytes32)
    requires id < |s.rounds| && id < |t.rounds| && t.rounds[id] == Recorded(s.rounds[id], now, answer)
    requires Flagged(s.rounds[id]) && RoundOk(s, id) && Resumable(s.rounds[id], now)
    requires forall k: nat :: Gap(t, k) == Gap(s, k) + Revival(s.rounds[id], k)
    ensures MovesAlike(s, t, id) && Flagged(t.rounds[id]) && Resumable(t.rounds[id], now)
  {
  }

  // The one step that brings a round back.
  lemma AnsweredTallied(s: System, t: System, w: Dispatch, answer: Bytes32)
    requires Tallied(s) && AllRoundsOk(s.chain) && AnswerCall(s, t, w.roundId, w, answer)
    requires t.now == s.now && t.chain.lock == s.chain.lock
    requires forall k: nat :: Gap(t.chain, k) == Gap(s.chain, k) + Revival(s.chain.rounds[w.roundId], k)
    ensures Tallied(t)
  {
    RecordedTold(s.chain, t.chain, w.roundId, s.now, answer);
    OneRoundTallied(s, t, w.roundId);
  }

  lemma AnswerTallied(h: Host, s: System, step: Step, t: System)
    requires Tallied(s) && step.EndCompute? && Next(h, s, step) == Some(t)
    requires AllRoundsOk(s.chain) && BooksStep(s, step, t)
    ensures Tallied(t)
  {
    AnswerEffect(h, s, step, t);
    AnsweredTallied(s, t, s.chain.pending[|s.chain.pending| - 1], step.answer);
  }

  lemma FinalizeTallied(h: Host, s: System, step: Step, t: System)
    requires Tallied(s) && step.Finalize? && Next(h, s, step) == Some(t) && Keeps(s.chain, t.chain)
    ensures Tallied(t)
  {
    var x := step.result;
    FinalizeEffect(s.chain, s.now, h.self, x.data, x.actionId, x.status, x.machine);
    assert Flagged(s.chain.rounds[x.data.roundId]);
    KeptRoundTallied(s, t, x.data.roundId);
  }

  lemma ClaimedTallied(h: Host, s: System, step: Step, t: System)
    requires Tallied(s) && step.MakeClaim? && OnlyChain(s, t) && Keeps(s.chain, t.chain)
    requires Claim(s.chain, Call(step.sender, 0, s.now), h.keccak, step.id, step.index, step.share, step.proof,
                   step.moved) == Done(t.chain)
    ensures Tallied(t)
  {
    ClaimPays(s.chain, Call(step.sender, 0, s.now), h.keccak, step.id, step.index, step.share, step.proof, step.moved);
    assert Flagged(s.chain.rounds[step.id]);
    KeptRoundTallied(s, t, step.id);
  }

  lemma ClaimTallied(h: Host, s: System, step: Step, t: System)
    requires Tallied(s) && step.MakeClaim? && Next(h, s, step) == Some(t) && Keeps(s.chain, t.chain)
    ensures Tallied(t)
  {
    ClaimCall(h, s, step, t);
    ClaimedTallied(h, s, step, t);
  }

  lemma CloseTallied(h: Host, s: System, step: Step, t: System)
    requires Tallied(s) && step.Close? && Next(h, s, step) == Some(t) && Keeps(s.chain, t.chain)
    ensures Tallied(t)
  {
    CloseEffect(s.chain, Call(0, 0, s.now), step.id, step.moved);
    assert Flagged(s.chain.rounds[step.id]);
    KeptRoundTallied(s, t, step.id);
  }

  lemma CancelTallied(h: Host, s: System, step: Step, t: System)
    requires Tallied(s) && step.Cancel? && Next(h, s, step) == Some(t) && Keeps(s.chain, t.chain)
    requires AllRoundsOk(s.chain)
    ensures Tallied(t)
  {
    CancelEffect(s.chain, Call(step.sender, 0, s.now), step.id, step.moved);
    assert Flagged(s.chain.rounds[step.id]);
    KeptRoundTallied(s, t, step.id);
  }

  // Rounds, lock and waiting calls stay, and time passes only when no call waits.
  lemma RestTallied(h: Host, s: System, step: Step, t: System)
    requires Tallied(s) && Next(h, s, step) == Some(t) && Keeps(s.chain, t.chain)
    requires step.Tick? || step.Donate? || step.SetTee? || step.DoRescue? || step.AskDisclosure? || step.AskAttestation?
    ensures Tallied(t)
  {
    NoRoundTallied(s, t);
  }

  lemma EnclaveTallied(h: Host, s: System, step: Step, t: System)
    requires Tallied(s) && Enclaved(step) && Next(h, s, step) == Some(t) && Keeps(s.chain, t.chain)
    ensures Tallied(t)
  {
    EnclavesStayOffChain(h, s, step, t);
    NoRoundTallied(s, t);
  }

  lemma OrganizationTallied(h: Host, s: System, step: Step, t: System)
    requires Tallied(s) && Next(h, s, step) == Some(t) && Keeps(s.chain, t.chain)
    requires ForTheOrganization(step) && !step.EndCompute?
    ensures Tallied(t)
  {
    match step {
      case Create(_, _, _) => CreateTallied(h, s, step, t);
      case BeginFund(_, _, _, _, _) => FundTallied(h, s, step, t);
      case EndFund => FundTallied(h, s, step, t);
      case Submit(_, _, _) => SubmitTallied(h, s, step, t);
      case BeginCompute(_, _, _, _) => BeginComputeTallied(h, s, step, t);
    }
  }

  lemma OtherTallied(h: Host, s: System, step: Step, t: System)
    requires Tallied(s) && AllRoundsOk(s.chain) && Next(h, s, step) == Some(t) && Keeps(s.chain, t.chain)
    requires !ForTheOrganization(step)
    ensures Tallied(t)
  {
    match step {
      case Finalize(_) => FinalizeTallied(h, s, step, t);
      case MakeClaim(_, _, _, _, _, _) => ClaimTallied(h, s, step, t);
      case Close(_, _) => CloseTallied(h, s, step, t);
      case Cancel(_, _, _) => CancelTallied(h, s, step, t);
      case RunCompute(_, _) => EnclaveTallied(h, s, step, t);
      case RunAttest(_, _) => EnclaveTallied(h, s, step, t);
      case RunDisclose(_, _, _, _) => EnclaveTallied(h, s, step, t);
      case SignNonSuccess(_, _, _, _) => EnclaveTallied(h, s, step, t);
      case Restart(_) => EnclaveTallied(h, s, step, t);
      case _ => RestTallied(h, s, step, t);
    }
  }

  lemma StepTallied(h: Host, s: System, step: Step, t: System)
    requires Tallied(s) && Steady(s.chain) && Next(h, s, step) == Some(t) && BooksStep(s, step, t)
    ensures Tallied(t)
  {
    if step.EndCompute? {
      AnswerTallied(h, s, step, t);
    } else if ForTheOrganization(step) {
      OrganizationTallied(h, s, step, t);
    } else {
      OtherTallied(h, s, step, t);
    }
  }

  // The tally is right in every run.
  lemma {:induction false} RunTallied(h: Host, s: System, steps: seq<Step>)
    requires Inv(h, s) && Tallied(s)
    ensures Tallied(Execute(h, s, steps))
    decreases |steps|
  {
    if steps != [] {
      match Next(h, s, steps[0])
      case None => RunTallied(h, s, steps[1..]);
      case Some(t) =>
        StepKeepsInv(h, s, steps[0], t);
        StepTallied(h, s, steps[0], t);
        RunTallied(h, t, steps[1..]);
    }
  }
}
