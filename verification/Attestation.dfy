/** Computations, retries, disclosures and attestations agree on what a commitment computes to. */
module Attestation {
  import opened Options
  import opened Bytes
  import opened Merkle
  import opened Rounds
  import opened Enclave
  import opened Protocol
  import opened Safety
  import opened History
  import opened Runs
  import opened FrontendMerkle

  // data is what a hashed ciphertext with its commitment computes to.
  ghost predicate ResultFor(h: Host, hashed: set<seq<byte>>, data: AllocationResult)
  {
    exists c :: c in hashed && Explains(h, c, data)
  }

  ghost predicate Explains(h: Host, c: seq<byte>, data: AllocationResult)
  {
    h.keccak(c) == data.policyCommitment && h.compute(c).Some? && data == ResultOf(h, h.compute(c).value)
  }

  // Memory holds under each commitment what a hashed ciphertext of that commitment computes to.
  ghost predicate RemembersHashed(h: Host, hashed: set<seq<byte>>, m: Memory)
  {
    forall k :: k in m ==> exists c :: c in hashed && h.keccak(c) == k && h.compute(c) == Some(m[k])
  }

  ghost predicate ExplainedAt(h: Host, s: System, x: Signed)
  {
    x.status == SUCCESS ==>
      && x.actionId in s.orders
      && (!s.orders[x.actionId].DiscloseOrder? ==> ResultFor(h, s.hashed, x.data))
  }

  ghost predicate Explained(h: Host, s: System)
  {
    && Faithful(h)
    && (forall m :: m in s.memory ==> RemembersHashed(h, s.hashed, s.memory[m]))
    && (forall x :: x in s.signed ==> ExplainedAt(h, s, x))
  }

  lemma MemoryStays(h: Host, a: set<seq<byte>>, b: set<seq<byte>>, m: Memory)
    requires a <= b && RemembersHashed(h, a, m)
    ensures RemembersHashed(h, b, m)
  {
    forall k | k in m
      ensures exists c :: c in b && h.keccak(c) == k && h.compute(c) == Some(m[k])
    {
      var c :| c in a && h.keccak(c) == k && h.compute(c) == Some(m[k]);
      assert c in b;
    }
  }

  lemma SignedStays(h: Host, s: System, t: System, x: Signed)
    requires Grows(s, t) && ExplainedAt(h, s, x)
    ensures ExplainedAt(h, t, x)
  {
    if x.status == SUCCESS && !s.orders[x.actionId].DiscloseOrder? {
      var c :| c in s.hashed && Explains(h, c, x.data);
      assert c in t.hashed;
    }
  }

  // Memory and results carry over; what is new must be explained.
  lemma CarryOver(h: Host, s: System, t: System)
    requires Explained(h, s) && Grows(s, t)
    requires forall x :: x in t.signed && x !in s.signed ==> ExplainedAt(h, t, x)
    requires forall m :: m in t.memory ==>
               (m in s.memory && t.memory[m] == s.memory[m]) || RemembersHashed(h, t.hashed, t.memory[m])
    ensures Explained(h, t)
  {
    forall m | m in t.memory
      ensures RemembersHashed(h, t.hashed, t.memory[m])
    {
      if m in s.memory && t.memory[m] == s.memory[m] {
        MemoryStays(h, s.hashed, t.hashed, s.memory[m]);
      }
    }
    forall x | x in t.signed
      ensures ExplainedAt(h, t, x)
    {
      if x in s.signed {
        SignedStays(h, s, t, x);
      }
    }
  }

  lemma RemembersMore(h: Host, a: set<seq<byte>>, b: set<seq<byte>>, m: Memory, c: seq<byte>, r: ComputedRound)
    requires RemembersHashed(h, a, m) && a <= b && c in b
    requires h.compute(c) == Some(r) && h.keccak(c) == r.commitment
    ensures RemembersHashed(h, b, m[r.commitment := r])
  {
    MemoryStays(h, a, b, m);
  }

  lemma ComputeExplained(h: Host, s: System, machine: uint256, actionId: Bytes32)
    requires Explained(h, s) && actionId in s.orders && s.orders[actionId].ComputeOrder?
    ensures Explained(h, HandleCompute(h, s, machine, actionId, s.orders[actionId].ciphertext))
  {
    var c := s.orders[actionId].ciphertext;
    if h.compute(c).Some? {
      var r := h.compute(c).value;
      var t := HandleCompute(h, s, machine, actionId, c);
      assert FaithfulAt(h, c);
      ComputeAdds(h, s, machine, actionId, c, r);
      assert Explains(h, c, ResultOf(h, r));
      RemembersMore(h, s.hashed, t.hashed, MemoryOf(s, machine), c, r);
      CarryOver(h, s, t);
    }
  }

  lemma AttestExplained(h: Host, s: System, step: Step, t: System)
    requires Explained(h, s) && step.RunAttest? && Next(h, s, step) == Some(t)
    ensures Explained(h, t)
  {
    var order, m := s.orders[step.actionId], MemoryOf(s, step.machine);
    var data := Attest(h, m, h.self, order.roundId, order.commitment);
    if data.Some? {
      assert RemembersHashed(h, s.hashed, m);
      var c :| c in s.hashed && h.keccak(c) == order.commitment && h.compute(c) == Some(m[order.commitment]);
      assert FaithfulAt(h, c);
      assert Explains(h, c, data.value);
      CarryOver(h, s, t);
    }
  }

  // Machines that disclose, fail or restart.
  lemma MachineExplained(h: Host, s: System, step: Step, t: System)
    requires Explained(h, s) && Next(h, s, step) == Some(t)
    requires step.RunDisclose? || step.SignNonSuccess? || step.Restart?
    ensures Explained(h, t)
  {
    EnclavesStayOffChain(h, s, step, t);
    CarryOver(h, s, t);
  }

  // No call of the contract signs anything or touches a machine.
  lemma CallSignsNothing(h: Host, s: System, step: Step, t: System)
    requires Next(h, s, step) == Some(t) && !Enclaved(step)
    ensures t.signed == s.signed && t.memory == s.memory && t.replies == s.replies
  {
  }

  lemma StepExplained(h: Host, s: System, step: Step, t: System)
    requires Explained(h, s) && Next(h, s, step) == Some(t)
    ensures Explained(h, t)
  {
    if step.RunCompute? {
      ComputeExplained(h, s, step.machine, step.actionId);
    } else if step.RunAttest? {
      AttestExplained(h, s, step, t);
    } else if Enclaved(step) {
      MachineExplained(h, s, step, t);
    } else {
      StepFollows(h, s, step, t);
      CallSignsNothing(h, s, step, t);
      CarryOver(h, s, t);
    }
  }

  lemma {:induction false} RunExplained(h: Host, s: System, steps: seq<Step>)
    requires Inv(h, s) && Explained(h, s)
    ensures Explained(h, Execute(h, s, steps))
    decreases |steps|
  {
    if steps != [] {
      match Next(h, s, steps[0])
      case None => RunExplained(h, s, steps[1..]);
      case Some(t) =>
        StepKeepsInv(h, s, steps[0], t);
        StepExplained(h, s, steps[0], t);
        RunExplained(h, t, steps[1..]);
    }
  }

  lemma AfterExplained(d: Deployment, owner: uint256, steps: seq<Step>)
    ensures Explained(HostOf(d), After(d, owner, steps))
  {
    EngineIsFaithful(d);
    StartInv(HostOf(d), owner);
    RunExplained(HostOf(d), Start(owner), steps);
  }

  // In whatever order deferred computations, retries and attestations complete, on whatever machines and
  // across restarts: all successful results for one commitment carry the same data.
  lemma OneResultPerCommitment(d: Deployment, owner: uint256, steps: seq<Step>, x: Signed, y: Signed)
    requires var s := After(d, owner, steps);
             && CollisionFree(d.keccak, s.hashed) && x in s.signed && y in s.signed
             && x.status == SUCCESS && y.status == SUCCESS
             && x.actionId in s.orders && !s.orders[x.actionId].DiscloseOrder?
             && y.actionId in s.orders && !s.orders[y.actionId].DiscloseOrder?
             && x.data.policyCommitment == y.data.policyCommitment
    ensures x.data == y.data
  {
    var h, s := HostOf(d), After(d, owner, steps);
    AfterExplained(d, owner, steps);
    assert ExplainedAt(h, s, x) && ExplainedAt(h, s, y);
    var c :| c in s.hashed && Explains(h, c, x.data);
    var e :| e in s.hashed && Explains(h, e, y.data);
    assert c == e;
  }

  // Whatever was stored by whichever interleaving, a round a machine holds is coherent, its self-check
  // passes, and its attestation is issued; nothing else is attested.
  lemma SelfCheckPassesInEveryRun(d: Deployment, owner: uint256, steps: seq<Step>, machine: uint256,
                                  roundId: nat, commitment: Bytes32)
    ensures var m := MemoryOf(After(d, owner, steps), machine);
            if Holds(m, roundId, commitment)
            then && Coherent(HostOf(d), m[commitment]) && RootIsIntact(HostOf(d), m[commitment])
                 && Attest(HostOf(d), m, d.self, roundId, commitment) == Some(ResultOf(HostOf(d), m[commitment]))
            else Attest(HostOf(d), m, d.self, roundId, commitment) == None
  {
    AfterInv(d, owner, steps);
    SelfCheckNeverFails(HostOf(d), MemoryOf(After(d, owner, steps), machine), d.self, roundId, commitment);
  }

  // ---- What was computed is answered ----------------------------------------------------------

  ghost predicate Unrestarted(steps: seq<Step>, machine: uint256)
  {
    forall k :: 0 <= k < |steps| ==> steps[k] != Restart(machine)
  }

  lemma StepForgetsNothing(h: Host, s: System, step: Step, t: System, machine: uint256, k: Bytes32)
    requires Next(h, s, step) == Some(t) && step != Restart(machine) && k in MemoryOf(s, machine)
    ensures k in MemoryOf(t, machine)
  {
    if !Enclaved(step) {
      CallSignsNothing(h, s, step, t);
    }
  }

  lemma {:induction false} RunForgetsNothing(h: Host, s: System, steps: seq<Step>, machine: uint256, k: Bytes32)
    requires Unrestarted(steps, machine) && k in MemoryOf(s, machine)
    ensures k in MemoryOf(Execute(h, s, steps), machine)
    decreases |steps|
  {
    if steps != [] {
      match Next(h, s, steps[0])
      case None => RunForgetsNothing(h, s, steps[1..], machine, k);
      case Some(t) =>
        StepForgetsNothing(h, s, steps[0], t, machine, k);
        RunForgetsNothing(h, t, steps[1..], machine, k);
    }
  }

  // What is still held under a commitment is what the hashed ciphertext of that commitment computes to.
  lemma StillHolds(h: Host, t: System, machine: uint256, ciphertext: seq<byte>, c: ComputedRound)
    requires Explained(h, t) && CollisionFree(h.keccak, t.hashed) && ciphertext in t.hashed
    requires h.compute(ciphertext) == Some(c) && c.commitment in MemoryOf(t, machine)
    ensures Holds(MemoryOf(t, machine), c.roundId, c.commitment) && MemoryOf(t, machine)[c.commitment] == c
  {
    assert RemembersHashed(h, t.hashed, MemoryOf(t, machine));
    var e :| e in t.hashed && h.keccak(e) == c.commitment && h.compute(e) == Some(MemoryOf(t, machine)[c.commitment]);
    assert FaithfulAt(h, ciphertext);
  }

  lemma ComputedIsHeld(h: Host, s: System, machine: uint256, action: Bytes32, c: ComputedRound, later: seq<Step>)
    requires Inv(h, s) && Explained(h, s) && action in s.orders && s.orders[action].ComputeOrder?
    requires h.compute(s.orders[action].ciphertext) == Some(c) && Unrestarted(later, machine)
    ensures Next(h, s, RunCompute(machine, action)).Some?
    ensures var t := Execute(h, Next(h, s, RunCompute(machine, action)).value, later);
            CollisionFree(h.keccak, t.hashed) ==>
              && Inv(h, t) && Holds(MemoryOf(t, machine), c.roundId, c.commitment)
              && MemoryOf(t, machine)[c.commitment] == c
  {
    var ciphertext := s.orders[action].ciphertext;
    RunIsHandled(h, s, machine, action, ciphertext);
    var u := HandleCompute(h, s, machine, action, ciphertext);
    ComputeAdds(h, s, machine, action, ciphertext, c);
    StepKeepsInv(h, s, RunCompute(machine, action), u);
    ComputeExplained(h, s, machine, action);
    RunForgetsNothing(h, u, later, machine, c.commitment);
    RunExplained(h, u, later);
    RunKeepsInv(h, u, later);
    RunGrows(h, u, later);
    if CollisionFree(h.keccak, Execute(h, u, later).hashed) {
      StillHolds(h, Execute(h, u, later), machine, ciphertext, c);
    }
  }

  // The disclosure of a row: its fields, its generated proof and the root.
  function RowOf(h: Host, c: ComputedRound, i: nat): Disclosure
    requires i < |c.table|
  {
    Disclosure(c.roundId, i, c.table[i].recipient, c.table[i].amount,
               Proof(h.keccak, Leaves(h.keccak, c.roundId, c.table), i), c.root)
  }

  // The machine answers every recipient of what it holds with the recipient's row and proof, and every
  // request for an attestation with the public aggregate.
  ghost predicate AnswersFor(h: Host, t: System, machine: uint256, c: ComputedRound)
  {
    && (forall ask, i, bytesAsResult :: ask in t.orders && 0 <= i < |c.table| ==>
          AnswersRow(h, t, machine, c, ask, i, bytesAsResult))
    && (forall ask :: ask in t.orders && t.orders[ask] == AttestOrder(c.roundId, c.commitment) ==>
          AnswersAggregate(h, t, machine, c, ask))
  }

  ghost predicate AnswersAggregate(h: Host, t: System, machine: uint256, c: ComputedRound, ask: Bytes32)
  {
    var next := Next(h, t, RunAttest(machine, ask));
    next.Some? && Signed(machine, ask, SUCCESS, ResultOf(h, c)) in next.value.signed
  }

  ghost predicate AnswersRow(h: Host, t: System, machine: uint256, c: ComputedRound, ask: Bytes32, i: nat,
                             bytesAsResult: AllocationResult)
    requires ask in t.orders && i < |c.table|
  {
    var order := t.orders[ask];
    order.DiscloseOrder? && order.roundId == c.roundId && order.commitment == c.commitment
    && order.requester == c.table[i].recipient ==>
      var next := Next(h, t, RunDisclose(machine, ask, true, bytesAsResult));
      next.Some? && Reply(machine, ask, order.key, RowOf(h, c, i)) in next.value.replies
  }

  lemma RowIsDisclosed(h: Host, m: Memory, c: ComputedRound, i: nat)
    requires Coherent(h, c) && Holds(m, c.roundId, c.commitment) && m[c.commitment] == c && i < |c.table|
    ensures Disclose(h, m, h.self, c.roundId, c.commitment, c.table[i].recipient) == Some(RowOf(h, c, i))
  {
    StoredProof(h.keccak, Leaves(h.keccak, c.roundId, c.table), i);
    assert c.byRecipient[c.table[i].recipient] == i;
  }

  lemma DisclosedIsSent(h: Host, t: System, machine: uint256, ask: Bytes32, row: Disclosure,
                        bytesAsResult: AllocationResult)
    requires ask in t.orders && t.orders[ask].DiscloseOrder?
    requires var o := t.orders[ask];
             Disclose(h, MemoryOf(t, machine), h.self, o.roundId, o.commitment, o.requester) == Some(row)
    ensures var next := Next(h, t, RunDisclose(machine, ask, true, bytesAsResult));
            next.Some? && Reply(machine, ask, t.orders[ask].key, row) in next.value.replies
  {
  }

  lemma RowIsAnswered(h: Host, t: System, machine: uint256, c: ComputedRound, ask: Bytes32, i: nat,
                      bytesAsResult: AllocationResult)
    requires Coherent(h, c) && Holds(MemoryOf(t, machine), c.roundId, c.commitment)
    requires MemoryOf(t, machine)[c.commitment] == c && ask in t.orders && i < |c.table|
    ensures AnswersRow(h, t, machine, c, ask, i, bytesAsResult)
  {
    var order := t.orders[ask];
    if order.DiscloseOrder? && order.roundId == c.roundId && order.commitment == c.commitment
       && order.requester == c.table[i].recipient {
      RowIsDisclosed(h, MemoryOf(t, machine), c, i);
      DisclosedIsSent(h, t, machine, ask, RowOf(h, c, i), bytesAsResult);
    }
  }

  lemma AggregateIsAnswered(h: Host, t: System, machine: uint256, c: ComputedRound, ask: Bytes32)
    requires Attest(h, MemoryOf(t, machine), h.self, c.roundId, c.commitment) == Some(ResultOf(h, c))
    requires ask in t.orders && t.orders[ask] == AttestOrder(c.roundId, c.commitment)
    ensures AnswersAggregate(h, t, machine, c, ask)
  {
  }

  lemma HeldIsAnswered(h: Host, t: System, machine: uint256, c: ComputedRound)
    requires Inv(h, t) && Holds(MemoryOf(t, machine), c.roundId, c.commitment)
    requires MemoryOf(t, machine)[c.commitment] == c
    ensures AnswersFor(h, t, machine, c)
  {
    SelfCheckNeverFails(h, MemoryOf(t, machine), h.self, c.roundId, c.commitment);
    forall ask, i, bytesAsResult | ask in t.orders && 0 <= i < |c.table|
      ensures AnswersRow(h, t, machine, c, ask, i, bytesAsResult)
    {
      RowIsAnswered(h, t, machine, c, ask, i, bytesAsResult);
    }
    forall ask | ask in t.orders && t.orders[ask] == AttestOrder(c.roundId, c.commitment)
      ensures AnswersAggregate(h, t, machine, c, ask)
    {
      AggregateIsAnswered(h, t, machine, c, ask);
    }
  }

  // In every run, a machine that has run a COMPUTE answers for it, whatever happens later, until it restarts:
  // each recipient that asked is sent its own row with its proof, and each request for an attestation gets
  // the aggregate signed.
  lemma ComputedIsAnswered(d: Deployment, owner: uint256, steps: seq<Step>, machine: uint256, action: Bytes32,
                           c: ComputedRound, later: seq<Step>)
    requires var s := After(d, owner, steps);
             && action in s.orders && s.orders[action].ComputeOrder?
             && ComputeRound(d, s.orders[action].ciphertext) == Some(c) && Unrestarted(later, machine)
    ensures Next(HostOf(d), After(d, owner, steps), RunCompute(machine, action)).Some?
    ensures var u := Next(HostOf(d), After(d, owner, steps), RunCompute(machine, action)).value;
            var t := Execute(HostOf(d), u, later);
            CollisionFree(d.keccak, t.hashed) ==> AnswersFor(HostOf(d), t, machine, c)
  {
    var s := After(d, owner, steps);
    AfterInv(d, owner, steps);
    AfterExplained(d, owner, steps);
    ComputedIsHeld(HostOf(d), s, machine, action, c, later);
    var t := Execute(HostOf(d), Next(HostOf(d), s, RunCompute(machine, action)).value, later);
    if CollisionFree(d.keccak, t.hashed) {
      HeldIsAnswered(HostOf(d), t, machine, c);
    }
  }

  // ---- From disclosure to payment ------------------------------------------------------------

  // Whatever machine still remembers a settled round's commitment remembers the round behind it.
  lemma MemoryIsBehind(d: Deployment, owner: uint256, steps: seq<Step>, machine: uint256, id: nat)
    requires var s := After(d, owner, steps);
             && CollisionFree(d.keccak, s.hashed) && id < |s.chain.rounds| && Settled(s.chain.rounds[id])
             && s.chain.rounds[id].policyCommitment in MemoryOf(s, machine)
    ensures var s := After(d, owner, steps);
            var c := MemoryOf(s, machine)[s.chain.rounds[id].policyCommitment];
            && Coherent(HostOf(d), c) && c.roundId == id && c.table == TableOf(d, s, id)
            && c.root == s.chain.rounds[id].merkleRoot
  {
    AfterInv(d, owner, steps);
    AfterExplained(d, owner, steps);
    MemoryMatches(HostOf(d), After(d, owner, steps), machine, id);
  }

  lemma MemoryMatches(h: Host, s: System, machine: uint256, id: nat)
    requires Inv(h, s) && Explained(h, s) && CollisionFree(h.keccak, s.hashed) && id < |s.chain.rounds|
    requires Settled(s.chain.rounds[id]) && s.chain.rounds[id].policyCommitment in MemoryOf(s, machine)
    ensures Computes(h, s, id)
    ensures var c := MemoryOf(s, machine)[s.chain.rounds[id].policyCommitment];
            && Coherent(h, c) && c == Behind(h, s, id) && c.roundId == id && c.root == s.chain.rounds[id].merkleRoot
  {
    assert RoundInv(h, s, id);
    var commitment := s.chain.rounds[id].policyCommitment;
    assert RemembersHashed(h, s.hashed, MemoryOf(s, machine));
    var c :| c in s.hashed && h.keccak(c) == commitment && h.compute(c) == Some(MemoryOf(s, machine)[commitment]);
    SameCiphertext(h, s, id, c);
    assert FaithfulAt(h, c);
  }

  // What a machine discloses of a finalized round passes the recipient's own check against the chain and
  // fits in twelve siblings. Sent as a claim before the deadline it pays the disclosed amount exactly if that
  // is outstanding, which it is unless the run revived a round of its token.
  lemma DisclosurePays(d: Deployment, owner: uint256, steps: seq<Step>, machine: uint256, id: nat, who: uint256)
    requires var s := After(d, owner, steps);
             && CollisionFree(d.keccak, s.hashed) && id < |s.chain.rounds|
             && s.chain.rounds[id].status == Finalized && Clock(s.now) <= s.chain.rounds[id].claimDeadline
             && s.chain.lock == Idle
    ensures var h, s := HostOf(d), After(d, owner, steps);
            var r := s.chain.rounds[id];
            var x := Disclose(h, MemoryOf(s, machine), d.self, id, r.policyCommitment, who);
            x.Some? ==>
              var o := x.value;
              && o.index < UINT256 && o.amount < UINT256
              && CheckDisclosure(d.keccak, o, r.merkleRoot) && |o.proof| <= 12
              && ((id, o.index) !in s.chain.claimed ==>
                    var next := Next(h, s, MakeClaim(who, id, o.index, o.amount, o.proof, true));
                    && (next.Some? <==> o.amount <= Get(s.chain.outstanding, r.token))
                    && (next == None ==> RevivedIn(d, owner, steps, r.token) > 0)
                    && (next.Some? ==>
                          next.value.chain.payments == s.chain.payments + [Payment(r.token, who, o.amount)]))
  {
    var h, s := HostOf(d), After(d, owner, steps);
    var r := s.chain.rounds[id];
    var x := Disclose(h, MemoryOf(s, machine), d.self, id, r.policyCommitment, who);
    if x.Some? {
      DisclosedRow(d, owner, steps, machine, id, who);
      if (id, x.value.index) !in s.chain.claimed {
        EveryRowIsClaimable(d, owner, steps, id, x.value.index);
      }
    }
  }

  // The browser's check of a disclosure says exactly whether the contract would take its proof: in time, unclaimed
  // and with the guard free, a claim with what was disclosed is refused for its proof if and only if the
  // check fails.
  lemma CheckIsTheContracts(keccak: Hash, s: State, c: Call, id: nat, o: Disclosure)
    requires id < |s.rounds| && s.rounds[id].status == Finalized && Clock(c.now) <= s.rounds[id].claimDeadline
    requires s.lock == Idle && (id, o.index) !in s.claimed && o.index < UINT256 && o.amount < UINT256
    requires o.roundId == id && o.recipient == c.sender
    ensures CheckDisclosure(keccak, o, s.rounds[id].merkleRoot) <==>
              && o.merkleRoot == s.rounds[id].merkleRoot
              && Claim(s, c, keccak, id, o.index, o.amount, o.proof, true) != Reverted(BadMerkleProof)
  {
  }

  // What is disclosed of a settled round is the row of the table behind it, with its generated proof.
  lemma DisclosedRow(d: Deployment, owner: uint256, steps: seq<Step>, machine: uint256, id: nat, who: uint256)
    requires var s := After(d, owner, steps);
             && CollisionFree(d.keccak, s.hashed) && id < |s.chain.rounds| && Settled(s.chain.rounds[id])
             && Disclose(HostOf(d), MemoryOf(s, machine), d.self, id, s.chain.rounds[id].policyCommitment, who).Some?
    ensures var s := After(d, owner, steps);
            var r, t := s.chain.rounds[id], TableOf(d, s, id);
            var o := Disclose(HostOf(d), MemoryOf(s, machine), d.self, id, r.policyCommitment, who).value;
            && o.index < |t| && o.index < UINT256 && o.amount == t[o.index].amount < UINT256
            && t[o.index].recipient == who && o.proof == Proof(d.keccak, Leaves(d.keccak, id, t), o.index)
            && CheckDisclosure(d.keccak, o, r.merkleRoot) && |o.proof| <= 12
  {
    var s := After(d, owner, steps);
    var r := s.chain.rounds[id];
    MemoryIsBehind(d, owner, steps, machine, id);
    var c := MemoryOf(s, machine)[r.policyCommitment];
    var i := c.byRecipient[who];
    var leaves := Leaves(d.keccak, id, c.table);
    StoredProof(d.keccak, leaves, i);
    RowsFit(d, owner, steps, id, i);
    RowVerifies(d, id, c.table, i, r.merkleRoot);
    ProofFitsTwelve(d.keccak, leaves, i);
  }

  lemma ProofFitsTwelve(keccak: Hash, leaves: seq<Bytes32>, i: nat)
    requires i < |leaves| <= 4096
    ensures |Proof(keccak, leaves, i)| <= 12
  {
    assert Pow2(12) == 4096;
    ProofLength(keccak, leaves, i, 12);
  }

  // ---- Whom a disclosure is for --------------------------------------------------------------

  // row is what some hashed ciphertext of the order's commitment allots to the order's requester.
  ghost predicate RowFor(h: Host, hashed: set<seq<byte>>, order: Order, row: Disclosure)
    requires order.DiscloseOrder?
  {
    exists c :: c in hashed && RowFrom(h, c, order, row)
  }

  ghost predicate RowFrom(h: Host, c: seq<byte>, order: Order, row: Disclosure)
    requires order.DiscloseOrder?
  {
    && h.keccak(c) == order.commitment && h.compute(c).Some?
    && var r := h.compute(c).value;
       && row.roundId == r.roundId == order.roundId && row.merkleRoot == r.root && row.index < |r.table|
       && row.recipient == order.requester == r.table[row.index].recipient && row.amount == r.table[row.index].amount
  }

  ghost predicate ReplyOk(h: Host, s: System, p: Reply)
  {
    && p.actionId in s.orders && s.orders[p.actionId].DiscloseOrder? && p.key == s.orders[p.actionId].key
    && RowFor(h, s.hashed, s.orders[p.actionId], p.row)
  }

  ghost predicate RepliesOk(h: Host, s: System)
  {
    forall p :: p in s.replies ==> ReplyOk(h, s, p)
  }

  lemma ReplyStays(h: Host, s: System, t: System, p: Reply)
    requires Grows(s, t) && ReplyOk(h, s, p)
    ensures ReplyOk(h, t, p)
  {
    var c :| c in s.hashed && RowFrom(h, c, s.orders[p.actionId], p.row);
    assert c in t.hashed;
  }

  lemma DisclosedIsRowFor(h: Host, hashed: set<seq<byte>>, m: Memory, order: Order)
    requires Faithful(h) && RemembersHashed(h, hashed, m) && order.DiscloseOrder?
    requires Disclose(h, m, h.self, order.roundId, order.commitment, order.requester).Some?
    ensures RowFor(h, hashed, order, Disclose(h, m, h.self, order.roundId, order.commitment, order.requester).value)
  {
    var row := Disclose(h, m, h.self, order.roundId, order.commitment, order.requester).value;
    var c :| c in hashed && h.keccak(c) == order.commitment && h.compute(c) == Some(m[order.commitment]);
    assert FaithfulAt(h, c);
    assert RowFrom(h, c, order, row);
  }

  lemma AllRepliesStay(h: Host, s: System, t: System)
    requires RepliesOk(h, s) && Grows(s, t) && t.replies == s.replies
    ensures RepliesOk(h, t)
  {
    forall p | p in t.replies
      ensures ReplyOk(h, t, p)
    {
      ReplyStays(h, s, t, p);
    }
  }

  // A reply that is new is the row of the order's requester.
  lemma NewReply(h: Host, s: System, machine: uint256, action: Bytes32, keyOk: bool, data: AllocationResult, p: Reply)
    requires Explained(h, s) && action in s.orders && s.orders[action].DiscloseOrder? && p !in s.replies
    requires p in HandleDisclose(h, s, machine, action, keyOk, data).replies
    ensures ReplyOk(h, s, p)
  {
    assert RemembersHashed(h, s.hashed, MemoryOf(s, machine));
    DisclosedIsRowFor(h, s.hashed, MemoryOf(s, machine), s.orders[action]);
  }

  lemma DiscloseReplies(h: Host, s: System, machine: uint256, action: Bytes32, keyOk: bool, data: AllocationResult)
    requires Explained(h, s) && RepliesOk(h, s) && action in s.orders && s.orders[action].DiscloseOrder?
    ensures RepliesOk(h, HandleDisclose(h, s, machine, action, keyOk, data))
  {
    var t := HandleDisclose(h, s, machine, action, keyOk, data);
    forall p | p in t.replies
      ensures ReplyOk(h, t, p)
    {
      if p !in s.replies {
        NewReply(h, s, machine, action, keyOk, data, p);
      }
      ReplyStays(h, s, t, p);
    }
  }

  // Only a disclosure sends a reply.
  lemma NoOtherReplies(h: Host, s: System, step: Step, t: System)
    requires Next(h, s, step) == Some(t) && Enclaved(step) && !step.RunDisclose?
    ensures t.replies == s.replies
  {
  }

  lemma StepReplies(h: Host, s: System, step: Step, t: System)
    requires Explained(h, s) && RepliesOk(h, s) && Next(h, s, step) == Some(t)
    ensures RepliesOk(h, t)
  {
    if step.RunDisclose? {
      DiscloseReplies(h, s, step.machine, step.actionId, step.keyOk, step.bytesAsResult);
    } else {
      StepFollows(h, s, step, t);
      if Enclaved(step) {
        NoOtherReplies(h, s, step, t);
      } else {
        CallSignsNothing(h, s, step, t);
      }
      AllRepliesStay(h, s, t);
    }
  }

  lemma {:induction false} RunReplies(h: Host, s: System, steps: seq<Step>)
    requires Inv(h, s) && Explained(h, s) && RepliesOk(h, s)
    ensures RepliesOk(h, Execute(h, s, steps))
    decreases |steps|
  {
    if steps != [] {
      match Next(h, s, steps[0])
      case None => RunReplies(h, s, steps[1..]);
      case Some(t) =>
        StepKeepsInv(h, s, steps[0], t);
        StepExplained(h, s, steps[0], t);
        StepReplies(h, s, steps[0], t);
        RunReplies(h, t, steps[1..]);
    }
  }

  // The step asks for the disclosure that became the order under the action id.
  predicate AsksFor(step: Step, order: Order, action: Bytes32)
  {
    && order.DiscloseOrder? && step.AskDisclosure? && step.answer == action
    && step.sender == order.requester && step.id == order.roundId && step.key == order.key
  }

  // A step issues a disclosure order only if it asks for it.
  lemma OnlyAskingOrders(h: Host, s: System, step: Step, t: System, action: Bytes32)
    requires Next(h, s, step) == Some(t) && action !in s.orders && action in t.orders
    requires t.orders[action].DiscloseOrder?
    ensures AsksFor(step, t.orders[action], action)
  {
    if Enclaved(step) {
      EnclavesStayOffChain(h, s, step, t);
    }
  }

  // A disclosure is ordered only by a call of the account it names.
  lemma {:induction false} OrderWasSent(h: Host, s: System, steps: seq<Step>, action: Bytes32) returns (k: nat)
    requires action !in s.orders && action in Execute(h, s, steps).orders
    requires Execute(h, s, steps).orders[action].DiscloseOrder?
    ensures k < |steps| && AsksFor(steps[k], Execute(h, s, steps).orders[action], action)
    decreases |steps|
  {
    match Next(h, s, steps[0])
    case None =>
      k := OrderWasSent(h, s, steps[1..], action);
      k := k + 1;
    case Some(t) =>
      if action in t.orders {
        RunGrows(h, t, steps[1..]);
        OnlyAskingOrders(h, s, steps[0], t, action);
        k := 0;
      } else {
        k := OrderWasSent(h, t, steps[1..], action);
        k := k + 1;
      }
  }

  // Whatever any machine ever discloses is, encrypted to the key of the request, the row of the very account
  // that sent the request, out of the table its round's committed ciphertext computes to.
  lemma DisclosedToRequesterOnly(d: Deployment, owner: uint256, steps: seq<Step>, p: Reply)
    requires p in After(d, owner, steps).replies
    ensures ReplyOk(HostOf(d), After(d, owner, steps), p)
    ensures exists k :: 0 <= k < |steps| && steps[k].AskDisclosure? && steps[k].answer == p.actionId
                        && steps[k].sender == p.row.recipient && steps[k].key == p.key
  {
    var h, s := HostOf(d), After(d, owner, steps);
    EngineIsFaithful(d);
    StartInv(h, owner);
    RunReplies(h, Start(owner), steps);
    assert ReplyOk(h, s, p);
    var k := OrderWasSent(h, Start(owner), steps, p.actionId);
    assert steps[k].sender == p.row.recipient;
  }
}
