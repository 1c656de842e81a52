/** What every run of contract and enclaves keeps. */
module Safety {
  import opened Options
  import opened Bytes
  import opened Merkle
  import opened Rounds
  import opened Books
  import opened Enclave
  import opened Protocol
  import A = Allocate

  // ---- What was claimed of a table -----------------------------------------------------------

  // The amounts of the rows claimed of round id, for rows numbered from k.
  function ClaimedSum(t: seq<A.Allocation>, claimed: set<(nat, nat)>, id: nat, k: nat): nat
    decreases |t|
  {
    if t == [] then 0
    else (if (id, k) in claimed then t[0].amount else 0) + ClaimedSum(t[1..], claimed, id, k + 1)
  }

  lemma {:induction false} ClaimedSumBound(t: seq<A.Allocation>, claimed: set<(nat, nat)>, id: nat, k: nat)
    ensures ClaimedSum(t, claimed, id, k) <= A.SumAllocations(t)
    decreases |t|
  {
    if t != [] {
      ClaimedSumBound(t[1..], claimed, id, k + 1);
    }
  }

  lemma {:induction false} ClaimedSumAdd(t: seq<A.Allocation>, claimed: set<(nat, nat)>, id: nat, k: nat,
                                         id': nat, j: nat)
    requires (id', j) !in claimed
    ensures ClaimedSum(t, claimed + {(id', j)}, id, k)
         == ClaimedSum(t, claimed, id, k) + if id' == id && k <= j < k + |t| then t[j - k].amount else 0
    decreases |t|
  {
    if t != [] {
      ClaimedSumAdd(t[1..], claimed, id, k + 1, id', j);
    }
  }

  // Nothing claimed of a round sums to nothing.
  lemma {:induction false} ClaimedSumNone(t: seq<A.Allocation>, claimed: set<(nat, nat)>, id: nat, k: nat)
    requires forall i: nat :: (id, i) !in claimed
    ensures ClaimedSum(t, claimed, id, k) == 0
    decreases |t|
  {
    if t != [] {
      ClaimedSumNone(t[1..], claimed, id, k + 1);
    }
  }

  // ---- The invariant -------------------------------------------------------------------------

  // A dispatched round's instruction is a COMPUTE of a ciphertext with the committed hash.
  ghost predicate OrderOk(h: Host, s: System, id: nat)
    requires id < |s.chain.rounds|
  {
    var r := s.chain.rounds[id];
    Dispatched(r) ==>
      && r.computeInstructionId in s.orders
      && s.orders[r.computeInstructionId].ComputeOrder?
      && h.keccak(s.orders[r.computeInstructionId].ciphertext) == r.policyCommitment
  }

  // What the enclave computed under an instruction is signed as computed, and was hashed.
  ghost predicate ComputedUnder(h: Host, s: System, ciphertext: seq<byte>, data: AllocationResult)
  {
    var c := h.compute(ciphertext);
    c.Some? && c.value.table != [] && data == ResultOf(h, c.value) && TablePreimages(h, c.value) <= s.hashed
  }

  ghost predicate SignedOk(h: Host, s: System, x: Signed)
  {
    x.status == SUCCESS ==>
      && x.actionId in s.orders
      && (s.orders[x.actionId].ComputeOrder? ==> ComputedUnder(h, s, s.orders[x.actionId].ciphertext, x.data))
  }

  // The round's instruction computes to something.
  ghost predicate Computes(h: Host, s: System, id: nat)
    requires id < |s.chain.rounds|
  {
    var action := s.chain.rounds[id].computeInstructionId;
    action in s.orders && s.orders[action].ComputeOrder? && h.compute(s.orders[action].ciphertext).Some?
  }

  // The computed round behind a round of the contract.
  ghost function Behind(h: Host, s: System, id: nat): ComputedRound
    requires id < |s.chain.rounds| && Computes(h, s, id)
  {
    h.compute(s.orders[s.chain.rounds[id].computeInstructionId].ciphertext).value
  }

  // The round bears the root, the total and the count of the table its ciphertext computes to, and the version
  // of the engine.
  ghost predicate BearsTable(h: Host, s: System, id: nat)
    requires id < |s.chain.rounds| && Computes(h, s, id)
  {
    var r, c := s.chain.rounds[id], Behind(h, s, id);
    && c.table != [] && TablePreimages(h, c) <= s.hashed
    && c.roundId == id && c.root == r.merkleRoot && c.total == r.totalAllocated && |c.table| == r.recipientCount
    && r.engineVersion == h.version
  }

  ghost predicate SettledOk(h: Host, s: System, id: nat)
    requires id < |s.chain.rounds|
  {
    Settled(s.chain.rounds[id]) ==> Computes(h, s, id) && BearsTable(h, s, id)
  }

  // The claims of a round are rows of its table, and their amounts add up.
  ghost predicate ClaimsOk(h: Host, s: System, id: nat)
    requires id < |s.chain.rounds| && Computes(h, s, id)
  {
    && (forall i: nat :: (id, i) in s.chain.claimed ==> i < |Behind(h, s, id).table|)
    && s.chain.rounds[id].totalClaimed == ClaimedSum(Behind(h, s, id).table, s.chain.claimed, id, 0)
  }

  // A round that has a root was finalized, though a callback may have put it back to computing since.
  ghost predicate BoundOk(h: Host, s: System, id: nat)
    requires id < |s.chain.rounds|
  {
    s.chain.rounds[id].merkleRoot != ZERO32 ==> Computes(h, s, id) && BearsTable(h, s, id) && ClaimsOk(h, s, id)
  }

  ghost predicate RoundInv(h: Host, s: System, id: nat)
    requires id < |s.chain.rounds|
  {
    && OrderOk(h, s, id) && SettledOk(h, s, id)
    && (CollisionFree(h.keccak, s.hashed) ==> BoundOk(h, s, id))
  }

  // A call that waits for the registry was admitted with the ciphertext its round is committed to.
  ghost predicate WaitingOk(h: Host, s: System, w: Dispatch)
  {
    && w.roundId < |s.chain.rounds| && s.chain.rounds[w.roundId].status != Open
    && w.ciphertext in s.hashed && h.keccak(w.ciphertext) == s.chain.rounds[w.roundId].policyCommitment
  }

  ghost predicate AllWaitingOk(h: Host, s: System)
  {
    forall k :: 0 <= k < |s.chain.pending| ==> WaitingOk(h, s, s.chain.pending[k])
  }

  // The contract hashed every ciphertext it dispatched.
  ghost predicate OrdersHashed(s: System)
  {
    forall k :: k in s.orders && s.orders[k].ComputeOrder? ==> s.orders[k].ciphertext in s.hashed
  }

  ghost predicate AllRoundsInv(h: Host, s: System)
  {
    forall id: nat :: id < |s.chain.rounds| ==> RoundInv(h, s, id)
  }

  ghost predicate AllSignedOk(h: Host, s: System)
  {
    forall x :: x in s.signed ==> SignedOk(h, s, x)
  }

  ghost predicate AllRemember(h: Host, s: System)
  {
    forall machine :: machine in s.memory ==> Remembers(h, s.memory[machine])
  }

  ghost predicate Inv(h: Host, s: System)
  {
    && Faithful(h) && Steady(s.chain) && AllRoundsInv(h, s) && AllWaitingOk(h, s)
    && OrdersHashed(s) && AllSignedOk(h, s) && AllRemember(h, s)
  }

  lemma StartInv(h: Host, owner: uint256)
    requires Faithful(h)
    ensures Inv(h, Start(owner))
  {
    InitSound(owner);
  }

  // ---- Growth --------------------------------------------------------------------------------

  // Orders, results and hashed strings only accumulate.
  ghost predicate Grows(s: System, t: System)
  {
    && (forall k :: k in s.orders ==> k in t.orders && t.orders[k] == s.orders[k])
    && s.hashed <= t.hashed
  }

  lemma FewerHashed(h: Host, s: System, t: System)
    requires s.hashed <= t.hashed && CollisionFree(h.keccak, t.hashed)
    ensures CollisionFree(h.keccak, s.hashed)
  {
  }

  lemma SignedStaysOk(h: Host, s: System, t: System, x: Signed)
    requires Grows(s, t) && SignedOk(h, s, x)
    ensures SignedOk(h, t, x)
  {
  }

  // What the invariant reads of a round.
  ghost predicate SameRecord(r: Round, q: Round)
  {
    && (Settled(r) <==> Settled(q)) && (Dispatched(r) <==> Dispatched(q))
    && r.computeInstructionId == q.computeInstructionId && r.policyCommitment == q.policyCommitment
    && r.merkleRoot == q.merkleRoot && r.totalAllocated == q.totalAllocated
    && r.recipientCount == q.recipientCount && r.engineVersion == q.engineVersion && r.totalClaimed == q.totalClaimed
  }

  lemma TableStays(h: Host, s: System, t: System, id: nat)
    requires Grows(s, t) && id < |s.chain.rounds| && id < |t.chain.rounds|
    requires SameRecord(s.chain.rounds[id], t.chain.rounds[id])
    requires Computes(h, s, id) && BearsTable(h, s, id)
    ensures Computes(h, t, id) && BearsTable(h, t, id) && Behind(h, t, id) == Behind(h, s, id)
  {
  }

  // A round whose record did not change, with no new claim of its own, stays in order.
  lemma RoundStays(h: Host, s: System, t: System, id: nat)
    requires Grows(s, t) && id < |s.chain.rounds| && id < |t.chain.rounds| && RoundInv(h, s, id)
    requires SameRecord(s.chain.rounds[id], t.chain.rounds[id])
    requires forall i: nat :: (id, i) in t.chain.claimed <==> (id, i) in s.chain.claimed
    ensures RoundInv(h, t, id)
  {
    if Settled(s.chain.rounds[id]) {
      TableStays(h, s, t, id);
    }
    if CollisionFree(h.keccak, t.hashed) && s.chain.rounds[id].merkleRoot != ZERO32 {
      FewerHashed(h, s, t);
      TableStays(h, s, t, id);
      ClaimedSumSame(Behind(h, s, id).table, s.chain.claimed, t.chain.claimed, id, 0);
    }
  }

  lemma {:induction false} ClaimedSumSame(t: seq<A.Allocation>, a: set<(nat, nat)>, b: set<(nat, nat)>, id: nat, k: nat)
    requires forall i: nat :: (id, i) in a <==> (id, i) in b
    ensures ClaimedSum(t, a, id, k) == ClaimedSum(t, b, id, k)
    decreases |t|
  {
    if t != [] {
      ClaimedSumSame(t[1..], a, b, id, k + 1);
    }
  }

  ghost predicate ClaimsOnlyIn(s: State, t: State, id: nat)
  {
    forall j: nat, i: nat :: j != id ==> ((j, i) in t.claimed <==> (j, i) in s.claimed)
  }

  // Only round id and its claims change.
  ghost predicate OnlyRound(s: System, t: System, id: nat)
  {
    && ClaimsOnlyIn(s.chain, t.chain, id) && |t.chain.rounds| == |s.chain.rounds|
    && forall j: nat :: j < |s.chain.rounds| && j != id ==> t.chain.rounds[j] == s.chain.rounds[j]
  }

  lemma OtherRoundsStay(h: Host, s: System, t: System, id: nat)
    requires AllRoundsInv(h, s) && Grows(s, t) && OnlyRound(s, t, id)
    requires id < |s.chain.rounds| ==> RoundInv(h, t, id)
    ensures AllRoundsInv(h, t)
  {
    forall j: nat | j < |t.chain.rounds|
      ensures RoundInv(h, t, j)
    {
      if j != id {
        RoundStays(h, s, t, j);
      }
    }
  }

  lemma AllSignedStay(h: Host, s: System, t: System)
    requires AllSignedOk(h, s) && Grows(s, t) && t.signed == s.signed
    ensures AllSignedOk(h, t)
  {
    forall x | x in t.signed
      ensures SignedOk(h, t, x)
    {
      SignedStaysOk(h, s, t, x);
    }
  }

  // Once a round is no longer open its commitment stands.
  ghost predicate CommitmentsStand(s: State, t: State)
  {
    |s.rounds| <= |t.rounds| && forall j: nat :: j < |s.rounds| && s.rounds[j].status != Open ==>
      t.rounds[j].status != Open && t.rounds[j].policyCommitment == s.rounds[j].policyCommitment
  }

  lemma WaitingStays(h: Host, s: System, t: System)
    requires AllWaitingOk(h, s) && Grows(s, t) && CommitmentsStand(s.chain, t.chain)
    requires forall w :: w in t.chain.pending ==> w in s.chain.pending || WaitingOk(h, t, w)
    ensures AllWaitingOk(h, t)
  {
    forall k | 0 <= k < |t.chain.pending|
      ensures WaitingOk(h, t, t.chain.pending[k])
    {
      var w := t.chain.pending[k];
      if w in s.chain.pending {
        assert WaitingOk(h, s, w);
      }
    }
  }

  // A step of the contract that touches one round and its claims keeps the invariant when that round
  // stays in order.
  lemma OneRoundChanges(h: Host, s: System, t: System, id: nat)
    requires Inv(h, s) && Grows(s, t) && Steady(t.chain) && t.signed == s.signed && t.memory == s.memory
    requires OnlyRound(s, t, id) && (id < |s.chain.rounds| ==> RoundInv(h, t, id))
    requires OrdersHashed(t) && CommitmentsStand(s.chain, t.chain)
    requires forall w :: w in t.chain.pending ==> w in s.chain.pending || WaitingOk(h, t, w)
    ensures Inv(h, t)
  {
    OtherRoundsStay(h, s, t, id);
    AllSignedStay(h, s, t);
    WaitingStays(h, s, t);
  }

  // Rounds and claims as they were.
  lemma NoRoundChanges(h: Host, s: System, t: System)
    requires Inv(h, s) && Grows(s, t) && Steady(t.chain) && t.signed == s.signed && t.memory == s.memory
    requires t.chain.claimed == s.chain.claimed && t.chain.rounds == s.chain.rounds && OrdersHashed(t)
    requires forall w :: w in t.chain.pending ==> w in s.chain.pending || WaitingOk(h, t, w)
    ensures Inv(h, t)
  {
    OneRoundChanges(h, s, t, |s.chain.rounds|);
  }

  // A round that was never finalized, and whose order is in order, is in order.
  lemma UnboundInOrder(h: Host, s: System, id: nat)
    requires id < |s.chain.rounds| && RoundOk(s.chain, id) && s.chain.rounds[id].merkleRoot == ZERO32
    requires OrderOk(h, s, id)
    ensures RoundInv(h, s, id)
  {
  }

  // ---- Money, step by step -------------------------------------------------------------------

  // What a step does to the books: recording an answer makes the round owe again what it owed if it was
  // over; every other step keeps them as right or wrong as they were.
  ghost predicate BooksStep(s: System, step: Step, t: System)
  {
    && Steady(t.chain)
    && (step.EndCompute? ==>
          Answered(s.chain).Some?
          && forall k: nat :: Gap(t.chain, k) == Gap(s.chain, k) + Revival(Answered(s.chain).value, k))
    && (!step.EndCompute? || Live(Answered(s.chain).value) ==> Keeps(s.chain, t.chain))
  }

  lemma OrganizationBooks(h: Host, s: System, step: Step, t: System)
    requires Steady(s.chain) && Next(h, s, step) == Some(t)
    requires step.Create? || step.BeginFund? || step.EndFund? || step.Submit?
    ensures BooksStep(s, step, t)
  {
    if step.Create? {
      CreateKeeps(s.chain, Call(step.sender, 0, s.now), step.token, step.window);
    } else if step.BeginFund? {
      FundEnterKeeps(s.chain, Call(step.sender, step.value, s.now), step.id, step.amount, step.moved);
    } else if step.EndFund? {
      FundSettleKeeps(s.chain);
    } else {
      SubmitKeeps(s.chain, Call(step.sender, 0, s.now), step.id, step.commitment);
    }
  }

  lemma ComputeBooks(h: Host, s: System, step: Step, t: System)
    requires Steady(s.chain) && Next(h, s, step) == Some(t) && (step.BeginCompute? || step.EndCompute?)
    ensures BooksStep(s, step, t)
  {
    if step.BeginCompute? {
      OnlyRestChanges(s.chain, t.chain);
    } else {
      RecordMoves(s.chain, s.now, step.answer);
    }
  }

  lemma FinalizeBooks(h: Host, s: System, step: Step, t: System)
    requires Steady(s.chain) && Next(h, s, step) == Some(t) && step.Finalize?
    ensures BooksStep(s, step, t)
  {
    var x := step.result;
    FinalizeKeeps(s.chain, s.now, h.self, x.data, x.actionId, x.status, x.machine);
  }

  lemma PayingBooks(h: Host, s: System, step: Step, t: System)
    requires Steady(s.chain) && Next(h, s, step) == Some(t) && (step.MakeClaim? || step.Close? || step.Cancel?)
    ensures BooksStep(s, step, t)
  {
    if step.MakeClaim? {
      ClaimKeeps(s.chain, Call(step.sender, 0, s.now), h.keccak, step.id, step.index, step.share, step.proof,
                 step.moved);
    } else if step.Close? {
      CloseKeeps(s.chain, Call(0, 0, s.now), step.id, step.moved);
    } else {
      CancelKeeps(s.chain, Call(step.sender, 0, s.now), step.id, step.moved);
    }
  }

  lemma OwnerBooks(h: Host, s: System, step: Step, t: System)
    requires Steady(s.chain) && Next(h, s, step) == Some(t)
    requires step.SetTee? || step.DoRescue? || step.Donate? || step.Tick?
    ensures BooksStep(s, step, t)
  {
    if step.DoRescue? {
      RescueLeavesOutstanding(s.chain, Call(step.sender, 0, s.now), step.token, step.to, step.moved);
    } else if step.Donate? {
      ReceiveKeeps(s.chain, step.token, step.amount);
    } else {
      OnlyRestChanges(s.chain, t.chain);
    }
  }

  lemma AskBooks(h: Host, s: System, step: Step, t: System)
    requires Steady(s.chain) && Next(h, s, step) == Some(t) && (step.AskDisclosure? || step.AskAttestation?)
    ensures BooksStep(s, step, t)
  {
    OnlyRestChanges(s.chain, t.chain);
  }

  lemma EnclaveBooks(s: System, step: Step, t: System)
    requires Steady(s.chain) && Enclaved(step) && OffChain(s, t)
    ensures BooksStep(s, step, t)
  {
    OnlyRestChanges(s.chain, t.chain);
  }

  lemma StepBooks(h: Host, s: System, step: Step, t: System)
    requires Steady(s.chain) && Next(h, s, step) == Some(t)
    ensures BooksStep(s, step, t)
  {
    match step {
      case Create(_, _, _) => OrganizationBooks(h, s, step, t);
      case BeginFund(_, _, _, _, _) => OrganizationBooks(h, s, step, t);
      case EndFund => OrganizationBooks(h, s, step, t);
      case Submit(_, _, _) => OrganizationBooks(h, s, step, t);
      case BeginCompute(_, _, _, _) => ComputeBooks(h, s, step, t);
      case EndCompute(_) => ComputeBooks(h, s, step, t);
      case Finalize(_) => FinalizeBooks(h, s, step, t);
      case MakeClaim(_, _, _, _, _, _) => PayingBooks(h, s, step, t);
      case Close(_, _) => PayingBooks(h, s, step, t);
      case Cancel(_, _, _) => PayingBooks(h, s, step, t);
      case Tick(_) => OwnerBooks(h, s, step, t);
      case Donate(_, _) => OwnerBooks(h, s, step, t);
      case SetTee(_, _) => OwnerBooks(h, s, step, t);
      case DoRescue(_, _, _, _) => OwnerBooks(h, s, step, t);
      case AskDisclosure(_, _, _, _, _) => AskBooks(h, s, step, t);
      case AskAttestation(_, _, _) => AskBooks(h, s, step, t);
      case _ =>
        EnclavesStayOffChain(h, s, step, t);
        EnclaveBooks(s, step, t);
    }
  }

  // ---- Step by step --------------------------------------------------------------------------

  lemma CreateKeepsInv(h: Host, s: System, step: Step, t: System)
    requires Inv(h, s) && step.Create? && Next(h, s, step) == Some(t) && Steady(t.chain)
    ensures Inv(h, t)
  {
    forall j: nat | j < |t.chain.rounds|
      ensures RoundInv(h, t, j)
    {
      if j < |s.chain.rounds| {
        RoundStays(h, s, t, j);
      } else {
        assert RoundOk(t.chain, j);
        UnboundInOrder(h, t, j);
      }
    }
    AllSignedStay(h, s, t);
    WaitingStays(h, s, t);
  }

  lemma BeginFundKeepsInv(h: Host, s: System, step: Step, t: System)
    requires Inv(h, s) && step.BeginFund? && Next(h, s, step) == Some(t) && Steady(t.chain)
    ensures Inv(h, t)
  {
    NoRoundChanges(h, s, t);
  }

  // A call that writes one round and claims nothing.
  ghost predicate RoundCall(s: System, t: System, id: nat, r: Round)
  {
    && OnlyChain(s, t) && id < |s.chain.rounds| && t.chain.rounds == s.chain.rounds[id := r]
    && t.chain.claimed == s.chain.claimed && t.chain.pending == s.chain.pending
    && (s.chain.rounds[id].status != Open ==>
          r.status != Open && r.policyCommitment == s.chain.rounds[id].policyCommitment)
  }

  lemma CalledRound(h: Host, s: System, t: System, id: nat, r: Round)
    requires Inv(h, s) && RoundCall(s, t, id, r) && Steady(t.chain) && RoundInv(h, t, id)
    ensures Inv(h, t)
  {
    OneRoundChanges(h, s, t, id);
  }

  // The round's record is as it was.
  lemma RecordKept(h: Host, s: System, t: System, id: nat, r: Round)
    requires Inv(h, s) && RoundCall(s, t, id, r) && Steady(t.chain) && SameRecord(s.chain.rounds[id], r)
    ensures Inv(h, t)
  {
    RoundStays(h, s, t, id);
    CalledRound(h, s, t, id, r);
  }

  // The round was never dispatched and is not now.
  lemma UndispatchedKept(h: Host, s: System, t: System, id: nat, r: Round)
    requires Inv(h, s) && RoundCall(s, t, id, r) && Steady(t.chain) && !Dispatched(r)
    ensures Inv(h, t)
  {
    assert RoundOk(t.chain, id);
    UnboundInOrder(h, t, id);
    CalledRound(h, s, t, id, r);
  }

  lemma EndFundKeepsInv(h: Host, s: System, step: Step, t: System)
    requires Inv(h, s) && step.EndFund? && Next(h, s, step) == Some(t) && Steady(t.chain)
    ensures Inv(h, t)
  {
    var id := s.chain.lock.roundId;
    RecordKept(h, s, t, id, t.chain.rounds[id]);
  }

  lemma SubmitKeepsInv(h: Host, s: System, step: Step, t: System)
    requires Inv(h, s) && step.Submit? && Next(h, s, step) == Some(t) && Steady(t.chain)
    ensures Inv(h, t)
  {
    UndispatchedKept(h, s, t, step.id, t.chain.rounds[step.id]);
  }

  lemma BeginComputeKeepsInv(h: Host, s: System, step: Step, t: System)
    requires Inv(h, s) && step.BeginCompute? && Next(h, s, step) == Some(t) && Steady(t.chain)
    ensures Inv(h, t)
  {
    assert WaitingOk(h, t, Dispatch(step.id, step.ciphertext));
    NoRoundChanges(h, s, t);
  }

  // An answer recorded for round id under a new instruction.
  ghost predicate AnswerCall(s: System, t: System, id: nat, w: Dispatch, answer: Bytes32)
  {
    && w in s.chain.pending && w.roundId == id < |s.chain.rounds|
    && t.chain.rounds == s.chain.rounds[id := Recorded(s.chain.rounds[id], s.now, answer)]
    && t.chain.claimed == s.chain.claimed && (forall x :: x in t.chain.pending ==> x in s.chain.pending)
    && answer !in s.orders && t.orders == s.orders[answer := ComputeOrder(w.ciphertext)]
    && t.hashed == s.hashed && t.signed == s.signed && t.memory == s.memory
  }

  lemma AnswerEffect(h: Host, s: System, step: Step, t: System)
    requires step.EndCompute? && Next(h, s, step) == Some(t)
    ensures s.chain.pending != []
    ensures var w := s.chain.pending[|s.chain.pending| - 1]; AnswerCall(s, t, w.roundId, w, step.answer)
  {
  }

  // Recording an answer, whatever the round has become: the ciphertext is the committed one again.
  lemma AnsweredRound(h: Host, s: System, t: System, id: nat, w: Dispatch, answer: Bytes32)
    requires Inv(h, s) && AnswerCall(s, t, id, w, answer)
    ensures RoundInv(h, t, id)
  {
    assert WaitingOk(h, s, w);
    assert RoundInv(h, s, id) && RoundOk(s.chain, id);
    if s.chain.rounds[id].merkleRoot != ZERO32 && CollisionFree(h.keccak, s.hashed) {
      SameCiphertext(h, s, id, w.ciphertext);
      assert BoundOk(h, s, id);
      assert Behind(h, t, id) == Behind(h, s, id);
    }
  }

  lemma SameCiphertext(h: Host, s: System, id: nat, ciphertext: seq<byte>)
    requires CollisionFree(h.keccak, s.hashed) && OrdersHashed(s) && ciphertext in s.hashed
    requires id < |s.chain.rounds| && OrderOk(h, s, id) && Dispatched(s.chain.rounds[id])
    requires h.keccak(ciphertext) == s.chain.rounds[id].policyCommitment
    ensures s.orders[s.chain.rounds[id].computeInstructionId].ciphertext == ciphertext
  {
  }

  lemma AnswerKeepsInv(h: Host, s: System, t: System, id: nat, w: Dispatch, answer: Bytes32)
    requires Inv(h, s) && AnswerCall(s, t, id, w, answer) && Steady(t.chain)
    ensures Inv(h, t)
  {
    assert WaitingOk(h, s, w);
    AnsweredRound(h, s, t, id, w, answer);
    OneRoundChanges(h, s, t, id);
  }

  lemma AskKeepsInv(h: Host, s: System, step: Step, t: System)
    requires Inv(h, s) && (step.AskDisclosure? || step.AskAttestation?)
    requires Next(h, s, step) == Some(t) && Steady(t.chain)
    ensures Inv(h, t)
  {
    NoRoundChanges(h, s, t);
  }

  // A result applied to its round.
  ghost predicate ResultCall(s: System, t: System, x: Signed)
  {
    && x in s.signed && x.status == SUCCESS && x.data.roundId < |s.chain.rounds|
    && var r := s.chain.rounds[x.data.roundId];
       && r.status == Computing && r.computeInstructionId == x.actionId && r.policyCommitment == x.data.policyCommitment
       && x.data.merkleRoot != ZERO32 && RoundCall(s, t, x.data.roundId, Finished(r, x.data, s.now))
       && t.hashed == s.hashed
  }

  lemma ResultEffect(h: Host, s: System, x: Signed, t: System)
    requires Next(h, s, Finalize(x)) == Some(t)
    ensures ResultCall(s, t, x)
  {
    FinalizeEffect(s.chain, s.now, h.self, x.data, x.actionId, x.status, x.machine);
  }

  // What a finalization that is accepted has found.
  lemma FinalizedRound(h: Host, s: System, x: Signed, t: System)
    requires Inv(h, s) && ResultCall(s, t, x)
    ensures var id: nat := x.data.roundId;
            && Computes(h, t, id) && BearsTable(h, t, id) && OrderOk(h, t, id)
            && Computes(h, s, id) && Behind(h, t, id) == Behind(h, s, id)
  {
    assert SignedOk(h, s, x) && RoundInv(h, s, x.data.roundId);
    assert ComputedUnder(h, s, s.orders[x.actionId].ciphertext, x.data);
  }

  lemma FinalizedClaims(h: Host, s: System, x: Signed, t: System)
    requires Inv(h, s) && ResultCall(s, t, x) && CollisionFree(h.keccak, s.hashed)
    requires var id: nat := x.data.roundId;
             Computes(h, t, id) && Computes(h, s, id) && Behind(h, t, id) == Behind(h, s, id)
    ensures ClaimsOk(h, t, x.data.roundId)
  {
    var id: nat := x.data.roundId;
    assert RoundInv(h, s, id) && RoundOk(s.chain, id);
    if s.chain.rounds[id].merkleRoot == ZERO32 {
      ClaimedSumNone(Behind(h, t, id).table, t.chain.claimed, id, 0);
    } else {
      assert BoundOk(h, s, id);
    }
  }

  // The finalized round bears what the enclave computed from the committed ciphertext.
  lemma FinalizeKeepsInv(h: Host, s: System, x: Signed, t: System)
    requires Inv(h, s) && ResultCall(s, t, x) && Steady(t.chain)
    ensures Inv(h, t)
  {
    FinalizedRound(h, s, x, t);
    if CollisionFree(h.keccak, t.hashed) {
      FinalizedClaims(h, s, x, t);
    }
    CalledRound(h, s, t, x.data.roundId, t.chain.rounds[x.data.roundId]);
  }

  // All an accepted claim needs and does.
  ghost predicate ClaimedTo(h: Host, s: System, step: Step, t: System)
    requires step.MakeClaim?
  {
    && step.id < |s.chain.rounds| && (step.id, step.index) !in s.chain.claimed
    && var r := s.chain.rounds[step.id];
       && r.status == Finalized && Clock(s.now) <= r.claimDeadline && s.chain.lock == Idle
       && Verify(h.keccak, r.merkleRoot, step.id, step.index, step.sender, step.share, step.proof)
       && t.chain.rounds == s.chain.rounds[step.id := r.(totalClaimed := r.totalClaimed + step.share)]
       && t.chain.claimed == s.chain.claimed + {(step.id, step.index)} && t.chain.pending == s.chain.pending
       && t.orders == s.orders && t.signed == s.signed && t.memory == s.memory
       && t.hashed == s.hashed + ClaimPreimages(h.keccak, step.id, step.index, step.sender, step.share, step.proof)
       && t.chain.payments == (if step.share == 0 then s.chain.payments
                               else s.chain.payments + [Payment(r.token, step.sender, step.share)])
  }

  lemma ClaimedFrom(h: Host, s: System, step: Step, t: System)
    requires step.MakeClaim? && OnlyChain(s, t)
    requires t.hashed
          == s.hashed + ClaimPreimages(h.keccak, step.id, step.index, step.sender, step.share, step.proof)
    requires Claim(s.chain, Call(step.sender, 0, s.now), h.keccak, step.id, step.index, step.share, step.proof,
                   step.moved) == Done(t.chain)
    ensures ClaimedTo(h, s, step, t)
  {
    ClaimPays(s.chain, Call(step.sender, 0, s.now), h.keccak, step.id, step.index, step.share, step.proof, step.moved);
  }

  lemma ClaimEffect(h: Host, s: System, step: Step, t: System)
    requires step.MakeClaim? && Next(h, s, step) == Some(t)
    ensures ClaimedTo(h, s, step, t)
  {
    ClaimCall(h, s, step, t);
    ClaimedFrom(h, s, step, t);
  }

  // An accepted claim is for an unclaimed row of the table behind the round.
  lemma ClaimIsForARow(h: Host, s: System, step: Step, t: System)
    requires Inv(h, s) && step.MakeClaim? && ClaimedTo(h, s, step, t) && CollisionFree(h.keccak, t.hashed)
    ensures Computes(h, s, step.id)
    ensures var rows := Behind(h, s, step.id).table;
            step.index < |rows| && rows[step.index].recipient == step.sender && rows[step.index].amount == step.share
  {
    assert RoundInv(h, s, step.id);
    var c := Behind(h, s, step.id);
    assert FaithfulAt(h, s.orders[s.chain.rounds[step.id].computeInstructionId].ciphertext);
    TableSoundness(h, t.hashed, c, step.index, step.sender, step.share, step.proof);
  }

  // Claiming changes nothing of a round but its claimed total.
  lemma ClaimedRecord(h: Host, s: System, t: System, id: nat)
    requires id < |s.chain.rounds| == |t.chain.rounds| && OrderOk(h, s, id) && SettledOk(h, s, id)
    requires t.orders == s.orders && s.hashed <= t.hashed
    requires t.chain.rounds[id] == s.chain.rounds[id].(totalClaimed := t.chain.rounds[id].totalClaimed)
    requires Settled(s.chain.rounds[id])
    ensures OrderOk(h, t, id) && SettledOk(h, t, id) && Behind(h, t, id) == Behind(h, s, id)
  {
  }

  lemma RowAddsUp(rows: seq<A.Allocation>, claimed: set<(nat, nat)>, id: nat, index: nat)
    requires index < |rows| && (id, index) !in claimed && forall i: nat :: (id, i) in claimed ==> i < |rows|
    ensures var more := claimed + {(id, index)};
            && ClaimedSum(rows, more, id, 0) == ClaimedSum(rows, claimed, id, 0) + rows[index].amount
            && forall i: nat :: (id, i) in more ==> i < |rows|
  {
    ClaimedSumAdd(rows, claimed, id, 0, id, index);
  }

  // The claimed round adds the row's amount to its total and the row to its claims.
  lemma ClaimAddsUp(h: Host, s: System, id: nat, index: nat, share: nat, t: System)
    requires id < |s.chain.rounds| && id < |t.chain.rounds| && Computes(h, s, id) && Computes(h, t, id)
    requires Behind(h, t, id) == Behind(h, s, id) && ClaimsOk(h, s, id)
    requires index < |Behind(h, s, id).table| && Behind(h, s, id).table[index].amount == share
    requires (id, index) !in s.chain.claimed && t.chain.claimed == s.chain.claimed + {(id, index)}
    requires t.chain.rounds[id].totalClaimed == s.chain.rounds[id].totalClaimed + share
    ensures ClaimsOk(h, t, id)
  {
    RowAddsUp(Behind(h, s, id).table, s.chain.claimed, id, index);
  }

  lemma ClaimKeepsRound(h: Host, s: System, step: Step, t: System)
    requires Inv(h, s) && step.MakeClaim? && ClaimedTo(h, s, step, t)
    ensures RoundInv(h, t, step.id)
  {
    assert RoundInv(h, s, step.id);
    ClaimedRecord(h, s, t, step.id);
    if CollisionFree(h.keccak, t.hashed) {
      FewerHashed(h, s, t);
      assert RoundOk(s.chain, step.id) && BoundOk(h, s, step.id);
      ClaimIsForARow(h, s, step, t);
      ClaimAddsUp(h, s, step.id, step.index, step.share, t);
    }
  }

  lemma ClaimKeepsInv(h: Host, s: System, step: Step, t: System)
    requires Inv(h, s) && step.MakeClaim? && ClaimedTo(h, s, step, t) && Steady(t.chain)
    ensures Inv(h, t)
  {
    ClaimKeepsRound(h, s, step, t);
    OneRoundChanges(h, s, t, step.id);
  }

  lemma CloseKeepsInv(h: Host, s: System, step: Step, t: System)
    requires Inv(h, s) && step.Close? && Next(h, s, step) == Some(t) && Steady(t.chain)
    ensures Inv(h, t)
  {
    CloseEffect(s.chain, Call(0, 0, s.now), step.id, step.moved);
    RecordKept(h, s, t, step.id, s.chain.rounds[step.id].(swept := true, status := Closed));
  }

  lemma CancelKeepsInv(h: Host, s: System, step: Step, t: System)
    requires Inv(h, s) && step.Cancel? && Next(h, s, step) == Some(t) && Steady(t.chain)
    ensures Inv(h, t)
  {
    CancelEffect(s.chain, Call(step.sender, 0, s.now), step.id, step.moved);
    UndispatchedKept(h, s, t, step.id, s.chain.rounds[step.id].(swept := true, status := Cancelled));
  }

  lemma OwnerKeepsInv(h: Host, s: System, step: Step, t: System)
    requires Inv(h, s) && (step.SetTee? || step.DoRescue? || step.Donate? || step.Tick?)
    requires Next(h, s, step) == Some(t) && Steady(t.chain)
    ensures Inv(h, t)
  {
    NoRoundChanges(h, s, t);
  }

  // A step inside the enclaves: the chain is as it was, what is new is in order.
  lemma EnclaveOnly(h: Host, s: System, t: System)
    requires Inv(h, s) && t.chain == s.chain && t.orders == s.orders && s.hashed <= t.hashed
    requires forall x :: x in t.signed && x !in s.signed ==> SignedOk(h, t, x)
    requires AllRemember(h, t)
    ensures Inv(h, t)
  {
    OtherRoundsStay(h, s, t, |s.chain.rounds|);
    WaitingStays(h, s, t);
    forall x | x in t.signed
      ensures SignedOk(h, t, x)
    {
      if x in s.signed {
        SignedStaysOk(h, s, t, x);
      }
    }
  }

  lemma HandleComputeKeepsInv(h: Host, s: System, machine: uint256, actionId: Bytes32)
    requires Inv(h, s) && actionId in s.orders && s.orders[actionId].ComputeOrder?
    ensures Inv(h, HandleCompute(h, s, machine, actionId, s.orders[actionId].ciphertext))
  {
    var c := s.orders[actionId].ciphertext;
    if h.compute(c).Some? {
      ComputedRemembers(h, s, machine, actionId, c);
      ComputeAdds(h, s, machine, actionId, c, h.compute(c).value);
      ComputedIsSignedOk(h, s, machine, actionId);
      EnclaveOnly(h, s, HandleCompute(h, s, machine, actionId, c));
    }
  }

  lemma ComputedRemembers(h: Host, s: System, machine: uint256, actionId: Bytes32, c: seq<byte>)
    requires Faithful(h) && AllRemember(h, s) && h.compute(c).Some?
    ensures AllRemember(h, HandleCompute(h, s, machine, actionId, c))
  {
    var r := h.compute(c).value;
    ComputeAdds(h, s, machine, actionId, c, r);
    assert FaithfulAt(h, c);
    RememberOne(h, MemoryOf(s, machine), c, r);
  }

  lemma ComputedIsSignedOk(h: Host, s: System, machine: uint256, actionId: Bytes32)
    requires Faithful(h) && actionId in s.orders && s.orders[actionId].ComputeOrder?
    requires h.compute(s.orders[actionId].ciphertext).Some?
    ensures var c := s.orders[actionId].ciphertext;
            SignedOk(h, HandleCompute(h, s, machine, actionId, c),
                     Signed(machine, actionId, SUCCESS, ResultOf(h, h.compute(c).value)))
  {
    assert FaithfulAt(h, s.orders[actionId].ciphertext);
  }

  lemma AttestKeepsInv(h: Host, s: System, step: Step, t: System)
    requires Inv(h, s) && Next(h, s, step) == Some(t) && (step.RunAttest? || step.RunDisclose?)
    ensures Inv(h, t)
  {
    EnclaveOnly(h, s, t);
  }

  lemma MachineKeepsInv(h: Host, s: System, step: Step, t: System)
    requires Inv(h, s) && Next(h, s, step) == Some(t) && (step.SignNonSuccess? || step.Restart?)
    ensures Inv(h, t)
  {
    EnclaveOnly(h, s, t);
  }

  predicate ForTheOrganization(step: Step)
  {
    step.Create? || step.BeginFund? || step.EndFund? || step.Submit? || step.BeginCompute? || step.EndCompute?
  }

  lemma OrganizationKeepsInv(h: Host, s: System, step: Step, t: System)
    requires Inv(h, s) && Next(h, s, step) == Some(t) && Steady(t.chain) && ForTheOrganization(step)
    ensures Inv(h, t)
  {
    match step {
      case Create(_, _, _) => CreateKeepsInv(h, s, step, t);
      case BeginFund(_, _, _, _, _) => BeginFundKeepsInv(h, s, step, t);
      case EndFund => EndFundKeepsInv(h, s, step, t);
      case Submit(_, _, _) => SubmitKeepsInv(h, s, step, t);
      case BeginCompute(_, _, _, _) => BeginComputeKeepsInv(h, s, step, t);
      case EndCompute(answer) =>
        AnswerEffect(h, s, step, t);
        var w := s.chain.pending[|s.chain.pending| - 1];
        AnswerKeepsInv(h, s, t, w.roundId, w, answer);
    }
  }

  lemma EnclaveKeepsInv(h: Host, s: System, step: Step, t: System)
    requires Inv(h, s) && Next(h, s, step) == Some(t) && Enclaved(step)
    ensures Inv(h, t)
  {
    match step {
      case RunCompute(machine, actionId) => HandleComputeKeepsInv(h, s, machine, actionId);
      case RunAttest(_, _) => AttestKeepsInv(h, s, step, t);
      case RunDisclose(_, _, _, _) => AttestKeepsInv(h, s, step, t);
      case SignNonSuccess(_, _, _, _) => MachineKeepsInv(h, s, step, t);
      case Restart(_) => MachineKeepsInv(h, s, step, t);
    }
  }

  lemma OtherKeepsInv(h: Host, s: System, step: Step, t: System)
    requires Inv(h, s) && Next(h, s, step) == Some(t) && Steady(t.chain)
    requires !ForTheOrganization(step) && !Enclaved(step)
    ensures Inv(h, t)
  {
    match step {
      case AskDisclosure(_, _, _, _, _) => AskKeepsInv(h, s, step, t);
      case AskAttestation(_, _, _) => AskKeepsInv(h, s, step, t);
      case Finalize(x) =>
        ResultEffect(h, s, x, t);
        FinalizeKeepsInv(h, s, x, t);
      case MakeClaim(_, _, _, _, _, _) =>
        ClaimEffect(h, s, step, t);
        ClaimKeepsInv(h, s, step, t);
      case Close(_, _) => CloseKeepsInv(h, s, step, t);
      case Cancel(_, _, _) => CancelKeepsInv(h, s, step, t);
      case Tick(_) => OwnerKeepsInv(h, s, step, t);
      case Donate(_, _) => OwnerKeepsInv(h, s, step, t);
      case SetTee(_, _) => OwnerKeepsInv(h, s, step, t);
      case DoRescue(_, _, _, _) => OwnerKeepsInv(h, s, step, t);
    }
  }

  // Every step of every caller keeps the invariant, calls within calls included.
  lemma StepKeepsInv(h: Host, s: System, step: Step, t: System)
    requires Inv(h, s) && Next(h, s, step) == Some(t)
    ensures Inv(h, t) && BooksStep(s, step, t)
  {
    StepBooks(h, s, step, t);
    if ForTheOrganization(step) {
      OrganizationKeepsInv(h, s, step, t);
    } else if Enclaved(step) {
      EnclaveKeepsInv(h, s, step, t);
    } else {
      OtherKeepsInv(h, s, step, t);
    }
  }

  lemma {:induction false} RunKeepsInv(h: Host, s: System, steps: seq<Step>)
    requires Inv(h, s)
    ensures Inv(h, Execute(h, s, steps))
    decreases |steps|
  {
    if steps != [] {
      match Next(h, s, steps[0])
      case None => RunKeepsInv(h, s, steps[1..]);
      case Some(t) =>
        StepKeepsInv(h, s, steps[0], t);
        RunKeepsInv(h, t, steps[1..]);
    }
  }
}
