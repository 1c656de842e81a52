/** How a state may develop: what only grows, what is written once, and where a status may lead. */
module History {
  import opened Options
  import opened Bytes
  import opened Rounds
  import opened Books
  import opened Enclave
  import opened Protocol

  // The declared status graph, one edge at a time.
  predicate Edge(a: Status, b: Status)
  {
    match a
    case Open => b == Committed || b == Cancelled
    case Committed => b == Computing || b == Cancelled
    case Computing => b == Computing || b == Finalized
    case Finalized => b == Closed
    case Closed => false
    case Cancelled => false
  }

  function Rank(a: Status): nat
  {
    match a
    case Open => 0
    case Committed => 1
    case Computing => 2
    case Finalized => 3
    case Closed => 4
    case Cancelled => 5
  }

  // Reachability in the graph.
  predicate Leads(a: Status, b: Status)
  {
    a == b || (b == Cancelled && Rank(a) < 2) || (a != Cancelled && b != Cancelled && Rank(a) < Rank(b))
  }

  // One round before and after, in every run: who owns it never changes, its commitment stands once it was
  // made, its totals only grow, and a root is not taken back. (That it keeps its value needs hashes that do
  // not collide: `Runs.ResultStands`.)
  ghost predicate RoundGrows(r: Round, q: Round)
  {
    && q.organization == r.organization && q.token == r.token && q.claimWindow == r.claimWindow
    && r.funded <= q.funded && r.totalClaimed <= q.totalClaimed
    && (r.status != Open ==> q.status != Open && q.policyCommitment == r.policyCommitment)
    && (r.merkleRoot != ZERO32 ==> q.merkleRoot != ZERO32)
  }

  // What finalization writes.
  ghost predicate SameResult(r: Round, q: Round)
  {
    && q.merkleRoot == r.merkleRoot && q.totalAllocated == r.totalAllocated && q.recipientCount == r.recipientCount
    && q.claimDeadline == r.claimDeadline && q.engineVersion == r.engineVersion
  }

  // And where nothing was recorded out of order: its status follows the graph, and what a stage writes no
  // later stage rewrites.
  ghost predicate RoundFollows(r: Round, q: Round)
  {
    && RoundGrows(r, q) && Leads(r.status, q.status)
    && (Rank(r.status) >= 3 ==>
          SameResult(r, q) && q.computeInstructionId == r.computeInstructionId
          && q.computeRequestedAt == r.computeRequestedAt)
    && (Rank(r.status) < 3 && Rank(q.status) < 3 ==> SameResult(r, q))
    && (Rank(r.status) >= 4 ==> q.totalClaimed == r.totalClaimed && q.swept == r.swept)
  }

  // An instruction id not on a round now, though already issued, is never on it later.
  ghost predicate NoOldOrder(s: System, t: System, id: nat)
    requires id < |s.chain.rounds| && id < |t.chain.rounds|
  {
    t.chain.rounds[id].computeInstructionId != s.chain.rounds[id].computeInstructionId ==>
      t.chain.rounds[id].computeInstructionId !in s.orders && t.chain.rounds[id].computeInstructionId in t.orders
  }

  // Everything but the rounds only grows.
  ghost predicate RestFollows(s: System, t: System)
  {
    && t.chain.owner == s.chain.owner && s.signed <= t.signed && s.replies <= t.replies && s.hashed <= t.hashed
    && s.now <= t.now && (forall k :: k in s.orders ==> k in t.orders && t.orders[k] == s.orders[k])
    && s.chain.claimed <= t.chain.claimed && s.chain.payments <= t.chain.payments
  }

  ghost predicate Follows(s: System, t: System)
  {
    && RestFollows(s, t) && |s.chain.rounds| <= |t.chain.rounds|
    && forall id: nat :: id < |s.chain.rounds| ==>
         RoundGrows(s.chain.rounds[id], t.chain.rounds[id]) && NoOldOrder(s, t, id)
  }

  lemma FollowsSelf(s: System)
    ensures Follows(s, s)
  {
  }

  lemma LeadsTransitive(a: Status, b: Status, c: Status)
    requires Leads(a, b) && Leads(b, c)
    ensures Leads(a, c)
  {
  }

  lemma RoundFollowsTransitive(r: Round, q: Round, p: Round)
    requires RoundFollows(r, q) && RoundFollows(q, p)
    ensures RoundFollows(r, p)
  {
    LeadsTransitive(r.status, q.status, p.status);
  }

  lemma FollowsTransitive(s: System, t: System, u: System)
    requires Follows(s, t) && Follows(t, u)
    ensures Follows(s, u)
  {
    forall id: nat | id < |s.chain.rounds|
      ensures RoundGrows(s.chain.rounds[id], u.chain.rounds[id]) && NoOldOrder(s, u, id)
    {
      assert NoOldOrder(s, t, id) && NoOldOrder(t, u, id);
    }
  }

  // ---- One step ------------------------------------------------------------------------------

  // The step records an answer for round id that found it neither committed nor computing.
  predicate OutOfOrder(s: System, step: Step, id: nat)
  {
    && step.EndCompute? && s.chain.pending != [] && s.chain.pending[|s.chain.pending| - 1].roundId == id
    && id < |s.chain.rounds| && s.chain.rounds[id].status != Committed && s.chain.rounds[id].status != Computing
  }

  // A round moves along one edge of the graph, or not at all, and keeps what was written.
  ghost predicate RoundSteps(r: Round, q: Round)
  {
    RoundFollows(r, q) && (r.status == q.status || Edge(r.status, q.status))
  }

  // What a step does to the rounds: each moves along the graph, exactly unless an answer for it is recorded
  // out of order.
  ghost predicate StepsTo(s: System, step: Step, t: System)
  {
    && Follows(s, t)
    && forall id: nat :: id < |s.chain.rounds| ==>
         (RoundSteps(s.chain.rounds[id], t.chain.rounds[id]) <==> !OutOfOrder(s, step, id))
  }

  lemma SameRounds(s: System, step: Step, t: System)
    requires RestFollows(s, t) && t.chain.rounds == s.chain.rounds && !step.EndCompute?
    ensures StepsTo(s, step, t)
  {
  }

  lemma OneRound(s: System, step: Step, t: System, id: nat)
    requires RestFollows(s, t) && id < |s.chain.rounds| && |t.chain.rounds| == |s.chain.rounds|
    requires t.chain.rounds == s.chain.rounds[id := t.chain.rounds[id]]
    requires RoundGrows(s.chain.rounds[id], t.chain.rounds[id]) && NoOldOrder(s, t, id)
    requires RoundSteps(s.chain.rounds[id], t.chain.rounds[id]) <==> !OutOfOrder(s, step, id)
    requires step.EndCompute? ==> s.chain.pending != [] && s.chain.pending[|s.chain.pending| - 1].roundId == id
    ensures StepsTo(s, step, t)
  {
    forall j: nat | j < |s.chain.rounds|
      ensures RoundGrows(s.chain.rounds[j], t.chain.rounds[j]) && NoOldOrder(s, t, j)
      ensures RoundSteps(s.chain.rounds[j], t.chain.rounds[j]) <==> !OutOfOrder(s, step, j)
    {
      if j != id {
        assert t.chain.rounds[j] == s.chain.rounds[j];
      }
    }
  }

  lemma CreateStep(h: Host, s: System, step: Step, t: System)
    requires step.Create? && Next(h, s, step) == Some(t)
    ensures StepsTo(s, step, t)
  {
    forall id: nat | id < |s.chain.rounds|
      ensures t.chain.rounds[id] == s.chain.rounds[id]
    {
    }
  }

  lemma BeginFundStep(h: Host, s: System, step: Step, t: System)
    requires step.BeginFund? && Next(h, s, step) == Some(t)
    ensures StepsTo(s, step, t)
  {
    SameRounds(s, step, t);
  }

  lemma EndFundStep(h: Host, s: System, step: Step, t: System)
    requires step.EndFund? && Next(h, s, step) == Some(t)
    ensures StepsTo(s, step, t)
  {
    OneRound(s, step, t, s.chain.lock.roundId);
  }

  lemma SubmitStep(h: Host, s: System, step: Step, t: System)
    requires step.Submit? && Next(h, s, step) == Some(t)
    ensures StepsTo(s, step, t)
  {
    OneRound(s, step, t, step.id);
  }

  lemma AnswerStep(h: Host, s: System, step: Step, t: System)
    requires step.EndCompute? && Next(h, s, step) == Some(t)
    ensures StepsTo(s, step, t)
  {
    var id := s.chain.pending[|s.chain.pending| - 1].roundId;
    var r, q := s.chain.rounds[id], t.chain.rounds[id];
    assert q == Recorded(r, s.now, step.answer);
    OneRound(s, step, t, id);
  }

  lemma FinalizeStep(h: Host, s: System, step: Step, t: System)
    requires step.Finalize? && Next(h, s, step) == Some(t)
    ensures StepsTo(s, step, t)
  {
    OneRound(s, step, t, step.result.data.roundId);
  }

  // A payment for a round that takes it one step on.
  lemma PaidStep(s: System, step: Step, t: System, id: nat, r: Round)
    requires OnlyChain(s, t) && PaysFor(s.chain, t.chain, id, r) && s.chain.claimed <= t.chain.claimed
    requires RoundSteps(s.chain.rounds[id], r) && !step.EndCompute?
    requires r.computeInstructionId == s.chain.rounds[id].computeInstructionId
    ensures StepsTo(s, step, t)
  {
    OneRound(s, step, t, id);
  }

  // What a claim makes of its round keeps to the graph.
  lemma ClaimedSteps(r: Round, share: nat)
    requires r.status == Finalized
    ensures RoundSteps(r, r.(totalClaimed := r.totalClaimed + share))
  {
  }

  lemma ClaimStep(h: Host, s: System, step: Step, t: System)
    requires step.MakeClaim? && OnlyChain(s, t)
    requires Claim(s.chain, Call(step.sender, 0, s.now), h.keccak, step.id, step.index, step.share, step.proof,
                   step.moved) == Done(t.chain)
    ensures StepsTo(s, step, t)
  {
    ClaimPays(s.chain, Call(step.sender, 0, s.now), h.keccak, step.id, step.index, step.share, step.proof, step.moved);
    var r := s.chain.rounds[step.id];
    ClaimedSteps(r, step.share);
    PaidStep(s, step, t, step.id, r.(totalClaimed := r.totalClaimed + step.share));
  }

  lemma CloseStep(h: Host, s: System, step: Step, t: System)
    requires step.Close? && Next(h, s, step) == Some(t)
    ensures StepsTo(s, step, t)
  {
    CloseEffect(s.chain, Call(0, 0, s.now), step.id, step.moved);
    PaidStep(s, step, t, step.id, s.chain.rounds[step.id].(swept := true, status := Closed));
  }

  lemma CancelStep(h: Host, s: System, step: Step, t: System)
    requires step.Cancel? && Next(h, s, step) == Some(t)
    ensures StepsTo(s, step, t)
  {
    CancelEffect(s.chain, Call(step.sender, 0, s.now), step.id, step.moved);
    PaidStep(s, step, t, step.id, s.chain.rounds[step.id].(swept := true, status := Cancelled));
  }

  lemma AskStep(h: Host, s: System, step: Step, t: System)
    requires (step.BeginCompute? || step.AskDisclosure? || step.AskAttestation?) && Next(h, s, step) == Some(t)
    ensures StepsTo(s, step, t)
  {
    SameRounds(s, step, t);
  }

  lemma OwnerStep(h: Host, s: System, step: Step, t: System)
    requires (step.Tick? || step.Donate? || step.SetTee? || step.DoRescue?) && Next(h, s, step) == Some(t)
    ensures StepsTo(s, step, t)
  {
    SameRounds(s, step, t);
  }

  lemma EnclaveStep(s: System, step: Step, t: System)
    requires Enclaved(step) && OffChain(s, t)
    ensures StepsTo(s, step, t)
  {
    SameRounds(s, step, t);
  }

  // Each round moves along one edge of the declared graph or not at all, and keeps what earlier stages
  // wrote, if and only if the step does not record an answer for it out of order.
  lemma StepFollows(h: Host, s: System, step: Step, t: System)
    requires Next(h, s, step) == Some(t)
    ensures StepsTo(s, step, t)
  {
    match step {
      case Create(_, _, _) => CreateStep(h, s, step, t);
      case BeginFund(_, _, _, _, _) => BeginFundStep(h, s, step, t);
      case EndFund => EndFundStep(h, s, step, t);
      case Submit(_, _, _) => SubmitStep(h, s, step, t);
      case BeginCompute(_, _, _, _) => AskStep(h, s, step, t);
      case EndCompute(_) => AnswerStep(h, s, step, t);
      case AskDisclosure(_, _, _, _, _) => AskStep(h, s, step, t);
      case AskAttestation(_, _, _) => AskStep(h, s, step, t);
      case Finalize(_) => FinalizeStep(h, s, step, t);
      case MakeClaim(_, _, _, _, _, _) =>
        ClaimCall(h, s, step, t);
        ClaimStep(h, s, step, t);
      case Close(_, _) => CloseStep(h, s, step, t);
      case Cancel(_, _, _) => CancelStep(h, s, step, t);
      case Tick(_) => OwnerStep(h, s, step, t);
      case Donate(_, _) => OwnerStep(h, s, step, t);
      case SetTee(_, _) => OwnerStep(h, s, step, t);
      case DoRescue(_, _, _, _) => OwnerStep(h, s, step, t);
      case _ =>
        EnclavesStayOffChain(h, s, step, t);
        EnclaveStep(s, step, t);
    }
  }

  // Recording an answer keeps the books right and the graph obeyed if and only if the round is committed or
  // computing when the registry answers.
  lemma RecordedInOrderExactly(s: State, now: nat, answer: Bytes32)
    requires Sound(s) && Answered(s).Some?
    ensures var r, o := Answered(s).value, RecordCompute(s, now, answer);
            && o.Done?
            && (Sound(o.state) && Edge(r.status, Computing) <==> r.status == Committed || r.status == Computing)
  {
    RecordKeepsSoundExactly(s, now, answer);
  }

  // ---- Runs ----------------------------------------------------------------------------------

  // Every answer recorded for round id in the run finds it committed or computing.
  ghost predicate InOrder(h: Host, s: System, steps: seq<Step>, id: nat)
    decreases |steps|
  {
    steps != [] ==>
      match Next(h, s, steps[0])
      case None => InOrder(h, s, steps[1..], id)
      case Some(t) => !OutOfOrder(s, steps[0], id) && InOrder(h, t, steps[1..], id)
  }

  // In every run, calls within calls included.
  lemma {:induction false} RunGrows(h: Host, s: System, steps: seq<Step>)
    ensures Follows(s, Execute(h, s, steps))
    decreases |steps|
  {
    if steps == [] {
      FollowsSelf(s);
    } else {
      match Next(h, s, steps[0])
      case None => RunGrows(h, s, steps[1..]);
      case Some(t) =>
        StepFollows(h, s, steps[0], t);
        RunGrows(h, t, steps[1..]);
        FollowsTransitive(s, t, Execute(h, t, steps[1..]));
    }
  }

  // Over a run whose answers for a round are recorded in order, that round follows the graph and what was
  // written of it stays, whatever happens to other rounds.
  lemma {:induction false} RunFollows(h: Host, s: System, steps: seq<Step>, id: nat)
    requires id < |s.chain.rounds| && InOrder(h, s, steps, id)
    ensures id < |Execute(h, s, steps).chain.rounds|
    ensures RoundFollows(s.chain.rounds[id], Execute(h, s, steps).chain.rounds[id])
    decreases |steps|
  {
    if steps != [] {
      match Next(h, s, steps[0])
      case None => RunFollows(h, s, steps[1..], id);
      case Some(t) =>
        StepFollows(h, s, steps[0], t);
        assert RoundSteps(s.chain.rounds[id], t.chain.rounds[id]);
        RunFollows(h, t, steps[1..], id);
        RoundFollowsTransitive(s.chain.rounds[id], t.chain.rounds[id], Execute(h, t, steps[1..]).chain.rounds[id]);
    }
  }

  // ---- Consequences --------------------------------------------------------------------------

  // A claimed row is refused in every later state, to every sender, with whatever amount and proof.
  lemma ClaimedForever(h: Host, s: System, steps: seq<Step>, claim: Step)
    requires claim.MakeClaim? && (claim.id, claim.index) in s.chain.claimed
    ensures Next(h, Execute(h, s, steps), claim) == None
  {
    RunGrows(h, s, steps);
  }

  // A result for an instruction that was issued but is not the round's current one is refused in every
  // later state: superseded results stay superseded, and one round's results never finalize another.
  lemma SupersededForever(h: Host, s: System, steps: seq<Step>, x: Signed)
    requires x.actionId in s.orders && x.data.roundId < |s.chain.rounds|
    requires s.chain.rounds[x.data.roundId].computeInstructionId != x.actionId
    ensures Next(h, Execute(h, s, steps), Finalize(x)) == None
  {
    RunGrows(h, s, steps);
    NotCurrentRefused(h, s, Execute(h, s, steps), x);
  }

  lemma NotCurrentRefused(h: Host, s: System, t: System, x: Signed)
    requires Follows(s, t) && x.actionId in s.orders && x.data.roundId < |s.chain.rounds|
    requires s.chain.rounds[x.data.roundId].computeInstructionId != x.actionId
    ensures Next(h, t, Finalize(x)) == None
  {
    assert NoOldOrder(s, t, x.data.roundId);
    if Next(h, t, Finalize(x)).Some? {
      FinalizeEffect(t.chain, t.now, h.self, x.data, x.actionId, x.status, x.machine);
      assert false;
    }
  }

  // Recording an answer replaces the instruction: no earlier one can finalize the round any more.
  lemma RetrySupersedes(h: Host, s: System, retry: Step, t: System, steps: seq<Step>, x: Signed)
    requires retry.EndCompute? && Next(h, s, retry) == Some(t) && x.actionId in s.orders
    requires x.data.roundId == s.chain.pending[|s.chain.pending| - 1].roundId
    ensures Next(h, Execute(h, t, steps), Finalize(x)) == None
  {
    SupersededForever(h, t, steps, x);
  }

  // What an accepted result has found, and what it leaves.
  lemma AcceptedResult(h: Host, s: System, x: Signed, t: System)
    requires Next(h, s, Finalize(x)) == Some(t)
    ensures x.data.roundId < |s.chain.rounds| && s.chain.rounds[x.data.roundId].status == Computing
    ensures x.data.roundId < |t.chain.rounds| && t.chain.rounds[x.data.roundId].status == Finalized
  {
    FinalizeEffect(s.chain, s.now, h.self, x.data, x.actionId, x.status, x.machine);
  }

  // At most one instruction finalizes a round, at most once, unless an answer for it is recorded out of
  // order in between.
  lemma FinalizedOnce(h: Host, s: System, x: Signed, t: System, steps: seq<Step>, y: Signed)
    requires Next(h, s, Finalize(x)) == Some(t) && y.data.roundId == x.data.roundId
    requires InOrder(h, t, steps, x.data.roundId)
    ensures Next(h, Execute(h, t, steps), Finalize(y)) == None
  {
    AcceptedResult(h, s, x, t);
    RunFollows(h, t, steps, x.data.roundId);
    var next := Next(h, Execute(h, t, steps), Finalize(y));
    if next.Some? {
      AcceptedResult(h, Execute(h, t, steps), y, next.value);
    }
  }
}
