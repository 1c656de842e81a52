/** Who can bring what about: what every step leaves alone unless it is a call of the account entitled to it. */
module Authority {
  import opened Options
  import opened Bytes
  import opened Rounds
  import opened Books
  import opened Enclave
  import opened Protocol
  import opened Entries

  // ---- One step ------------------------------------------------------------------------------

  // A round's commitment is made by its organization, while it is open; it is cancelled by its organization;
  // its claimed total and its claims move by claims of it.
  ghost predicate RoundByRight(s: State, step: Step, t: State, id: nat)
    requires id < |s.rounds| && id < |t.rounds|
  {
    var r, q := s.rounds[id], t.rounds[id];
    && q.organization == r.organization && q.token == r.token && q.claimWindow == r.claimWindow
    && (q.policyCommitment != r.policyCommitment ==>
          r.status == Open && step == Submit(r.organization, id, q.policyCommitment))
    && (q.status == Cancelled != r.status ==> step.Cancel? && step.id == id && step.sender == r.organization)
    && (q.totalClaimed != r.totalClaimed ==> step.MakeClaim? && step.id == id)
  }

  // A new round is its creator's and undecided.
  ghost predicate NewByRight(s: State, step: Step, t: State)
  {
    && |s.rounds| <= |t.rounds|
    && forall id: nat :: |s.rounds| <= id < |t.rounds| ==>
         && step.Create? && t.rounds[id].organization == step.sender && t.rounds[id].token == step.token
         && t.rounds[id].claimWindow == step.window && t.rounds[id].status == Open
         && t.rounds[id].policyCommitment == ZERO32
  }

  // What is waiting was asked for by the round's organization; only the owner registers machines and rescues.
  ghost predicate RestByRight(s: State, step: Step, t: State)
  {
    && t.owner == s.owner
    && (t.teeAddress != s.teeAddress ==> step == SetTee(s.owner, t.teeAddress))
    && (t.rescues != s.rescues ==> step.DoRescue? && step.sender == s.owner)
    && (forall w :: w in t.pending && w !in s.pending ==>
          && w.roundId < |s.rounds| && step.BeginCompute? && step.id == w.roundId
          && step.sender == s.rounds[w.roundId].organization)
    && (forall p :: p in t.claimed && p !in s.claimed ==> step.MakeClaim? && p == (step.id, step.index))
  }

  ghost predicate ByRight(s: State, step: Step, t: State)
  {
    && NewByRight(s, step, t) && RestByRight(s, step, t)
    && forall id: nat :: id < |s.rounds| ==> RoundByRight(s, step, t, id)
  }

  lemma OneByRight(s: State, step: Step, t: State, id: nat)
    requires OneReplaced(s, t, id) && RoundByRight(s, step, t, id) && RestByRight(s, step, t)
    ensures ByRight(s, step, t)
  {
    forall j: nat | j < |s.rounds|
      ensures RoundByRight(s, step, t, j)
    {
      if j != id {
        assert t.rounds[j] == s.rounds[j];
      }
    }
  }

  lemma CreateByRight(h: Host, s: System, step: Step, t: System)
    requires step.Create? && Next(h, s, step) == Some(t)
    ensures ByRight(s.chain, step, t.chain)
  {
    CreateExactly(s.chain, Call(step.sender, 0, s.now), step.token, step.window);
    forall j: nat | j < |s.chain.rounds|
      ensures RoundByRight(s.chain, step, t.chain, j)
    {
      assert t.chain.rounds[j] == t.chain.rounds[..|s.chain.rounds|][j];
    }
  }

  lemma RoundStepByRight(h: Host, s: System, step: Step, t: System)
    requires (step.EndFund? || step.Submit? || step.EndCompute?) && Next(h, s, step) == Some(t)
    ensures ByRight(s.chain, step, t.chain)
  {
    if step.EndFund? {
      FundSettleExactly(s.chain);
      OneByRight(s.chain, step, t.chain, s.chain.lock.roundId);
    } else if step.Submit? {
      SubmitExactly(s.chain, Call(step.sender, 0, s.now), step.id, step.commitment);
      OneByRight(s.chain, step, t.chain, step.id);
    } else {
      RecordExactly(s.chain, s.now, step.answer);
      OneByRight(s.chain, step, t.chain, s.chain.pending[|s.chain.pending| - 1].roundId);
    }
  }

  lemma FinalizeByRight(h: Host, s: System, step: Step, t: System)
    requires step.Finalize? && Next(h, s, step) == Some(t)
    ensures ByRight(s.chain, step, t.chain)
  {
    var x := step.result;
    FinalizeExactly(s.chain, s.now, h.self, x.data, x.actionId, x.status, x.machine);
    OneByRight(s.chain, step, t.chain, x.data.roundId);
  }

  lemma ClaimByRight(h: Host, s: System, step: Step, t: System)
    requires step.MakeClaim? && Next(h, s, step) == Some(t)
    ensures ByRight(s.chain, step, t.chain)
  {
    ClaimCall(h, s, step, t);
    ClaimExactly(s.chain, Call(step.sender, 0, s.now), h.keccak, step.id, step.index, step.share, step.proof,
                 step.moved);
    OneByRight(s.chain, step, t.chain, step.id);
  }

  lemma WindDownByRight(h: Host, s: System, step: Step, t: System)
    requires (step.Close? || step.Cancel?) && Next(h, s, step) == Some(t)
    ensures ByRight(s.chain, step, t.chain)
  {
    if step.Close? {
      CloseAccepted(s.chain, Call(0, 0, s.now), step.id, step.moved);
    } else {
      CancelAccepted(s.chain, Call(step.sender, 0, s.now), step.id, step.moved);
    }
    OneByRight(s.chain, step, t.chain, step.id);
  }

  // Rounds and claims stay.
  lemma SameByRight(s: State, step: Step, t: State)
    requires t.rounds == s.rounds && RestByRight(s, step, t)
    ensures ByRight(s, step, t)
  {
  }

  lemma AskByRight(h: Host, s: System, step: Step, t: System)
    requires (step.BeginFund? || step.BeginCompute? || step.AskDisclosure? || step.AskAttestation?)
    requires Next(h, s, step) == Some(t)
    ensures ByRight(s.chain, step, t.chain)
  {
    if step.BeginCompute? {
      DispatchExactly(s.chain, Call(step.sender, 0, s.now), h.keccak, step.id, step.ciphertext, step.machineFound);
    }
    SameByRight(s.chain, step, t.chain);
  }

  lemma OwnerByRight(h: Host, s: System, step: Step, t: System)
    requires (step.SetTee? || step.DoRescue?) && Next(h, s, step) == Some(t)
    ensures ByRight(s.chain, step, t.chain)
  {
    if step.SetTee? {
      SetTeeExactly(s.chain, Call(step.sender, 0, s.now), step.tee);
    } else {
      RescueExactly(s.chain, Call(step.sender, 0, s.now), step.token, step.to, step.moved);
    }
    SameByRight(s.chain, step, t.chain);
  }

  lemma RestStepByRight(h: Host, s: System, step: Step, t: System)
    requires (step.Tick? || step.Donate? || Enclaved(step)) && Next(h, s, step) == Some(t)
    ensures ByRight(s.chain, step, t.chain)
  {
    if Enclaved(step) {
      EnclavesStayOffChain(h, s, step, t);
    }
    SameByRight(s.chain, step, t.chain);
  }

  // Whatever a step brings about, it is a call of the account entitled to it.
  lemma StepByRight(h: Host, s: System, step: Step, t: System)
    requires Next(h, s, step) == Some(t)
    ensures ByRight(s.chain, step, t.chain)
  {
    match step {
      case Create(_, _, _) => CreateByRight(h, s, step, t);
      case EndFund => RoundStepByRight(h, s, step, t);
      case Submit(_, _, _) => RoundStepByRight(h, s, step, t);
      case EndCompute(_) => RoundStepByRight(h, s, step, t);
      case Finalize(_) => FinalizeByRight(h, s, step, t);
      case MakeClaim(_, _, _, _, _, _) => ClaimByRight(h, s, step, t);
      case Close(_, _) => WindDownByRight(h, s, step, t);
      case Cancel(_, _, _) => WindDownByRight(h, s, step, t);
      case BeginFund(_, _, _, _, _) => AskByRight(h, s, step, t);
      case BeginCompute(_, _, _, _) => AskByRight(h, s, step, t);
      case AskDisclosure(_, _, _, _, _) => AskByRight(h, s, step, t);
      case AskAttestation(_, _, _) => AskByRight(h, s, step, t);
      case SetTee(_, _) => OwnerByRight(h, s, step, t);
      case DoRescue(_, _, _, _) => OwnerByRight(h, s, step, t);
      case _ => RestStepByRight(h, s, step, t);
    }
  }

  // ---- Over runs -----------------------------------------------------------------------------

  // What the round is committed to, if it exists and is.
  function CommitmentOf(s: System, id: nat): Bytes32
  {
    if id < |s.chain.rounds| then s.chain.rounds[id].policyCommitment else ZERO32
  }

  // The k-th step of the run is accepted.
  ghost predicate AcceptedAt(h: Host, s: System, steps: seq<Step>, k: nat)
    requires k < |steps|
  {
    Next(h, Execute(h, s, steps[..k]), steps[k]).Some?
  }

  lemma AcceptedLater(h: Host, s: System, steps: seq<Step>, t: System, k: nat)
    requires steps != [] && t == (match Next(h, s, steps[0]) case None => s case Some(u) => u)
    requires k < |steps[1..]| && AcceptedAt(h, t, steps[1..], k)
    ensures AcceptedAt(h, s, steps, k + 1)
  {
    assert steps[..k + 1][1..] == steps[1..][..k];
    assert steps[..k + 1][0] == steps[0];
  }

  lemma {:induction false} OrganizationStays(h: Host, s: System, steps: seq<Step>, id: nat)
    requires id < |s.chain.rounds|
    ensures id < |Execute(h, s, steps).chain.rounds|
    ensures Execute(h, s, steps).chain.rounds[id].organization == s.chain.rounds[id].organization
    decreases |steps|
  {
    if steps != [] {
      match Next(h, s, steps[0])
      case None => OrganizationStays(h, s, steps[1..], id);
      case Some(t) =>
        StepByRight(h, s, steps[0], t);
        assert RoundByRight(s.chain, steps[0], t.chain, id);
        OrganizationStays(h, t, steps[1..], id);
    }
  }

  // The k-th step of the run is an accepted call that submits the commitment round id has after the run, by the
  // round's organization.
  ghost predicate SubmittedAt(h: Host, s: System, steps: seq<Step>, id: nat, k: nat)
  {
    && k < |steps| && AcceptedAt(h, s, steps, k) && id < |Execute(h, s, steps).chain.rounds|
    && var r := Execute(h, s, steps).chain.rounds[id]; steps[k] == Submit(r.organization, id, r.policyCommitment)
  }

  lemma SubmittedLater(h: Host, s: System, steps: seq<Step>, t: System, id: nat, k: nat)
    requires steps != [] && t == (match Next(h, s, steps[0]) case None => s case Some(u) => u)
    requires SubmittedAt(h, t, steps[1..], id, k)
    ensures SubmittedAt(h, s, steps, id, k + 1)
  {
    AcceptedLater(h, s, steps, t, k);
  }

  // A commitment that is there after a run, and was not before, was submitted in an accepted call of the
  // round's organization.
  lemma {:induction false} CommittedByOrganization(h: Host, s: System, steps: seq<Step>, id: nat) returns (k: nat)
    requires id < |Execute(h, s, steps).chain.rounds|
    requires CommitmentOf(Execute(h, s, steps), id) != CommitmentOf(s, id)
    ensures SubmittedAt(h, s, steps, id, k)
    decreases |steps|
  {
    match Next(h, s, steps[0])
    case None =>
      k := CommittedByOrganization(h, s, steps[1..], id);
      SubmittedLater(h, s, steps, s, id, k);
      k := k + 1;
    case Some(t) =>
      if CommitmentOf(Execute(h, t, steps[1..]), id) != CommitmentOf(t, id) {
        k := CommittedByOrganization(h, t, steps[1..], id);
        SubmittedLater(h, s, steps, t, id, k);
        k := k + 1;
      } else {
        FirstStepCommits(h, s, steps, t, id);
        k := 0;
      }
  }

  lemma FirstStepCommits(h: Host, s: System, steps: seq<Step>, t: System, id: nat)
    requires steps != [] && Next(h, s, steps[0]) == Some(t)
    requires CommitmentOf(Execute(h, t, steps[1..]), id) == CommitmentOf(t, id) != CommitmentOf(s, id)
    ensures SubmittedAt(h, s, steps, id, 0)
  {
    StepByRight(h, s, steps[0], t);
    if id < |s.chain.rounds| {
      assert RoundByRight(s.chain, steps[0], t.chain, id);
    }
    OrganizationStays(h, t, steps[1..], id);
    assert steps[..0] == [];
  }

  // The machine that is registered after a run was registered in it by the owner.
  lemma {:induction false} RegisteredByOwner(h: Host, s: System, steps: seq<Step>) returns (k: nat)
    requires Execute(h, s, steps).chain.teeAddress != s.chain.teeAddress
    ensures k < |steps| && AcceptedAt(h, s, steps, k)
    ensures steps[k] == SetTee(s.chain.owner, Execute(h, s, steps).chain.teeAddress)
    decreases |steps|
  {
    match Next(h, s, steps[0])
    case None =>
      k := RegisteredByOwner(h, s, steps[1..]);
      AcceptedLater(h, s, steps, s, k);
      k := k + 1;
    case Some(t) =>
      StepByRight(h, s, steps[0], t);
      if Execute(h, t, steps[1..]).chain.teeAddress != t.chain.teeAddress {
        k := RegisteredByOwner(h, t, steps[1..]);
        AcceptedLater(h, s, steps, t, k);
        k := k + 1;
      } else {
        assert steps[..0] == [];
        k := 0;
      }
  }
}
