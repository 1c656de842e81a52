/** The main theorems: what holds after any run of contract, registry and engine from the start. */
module Runs {
  import opened Options
  import opened Bytes
  import opened Merkle
  import opened Rounds
  import opened Books
  import opened Enclave
  import opened Protocol
  import opened Safety
  import opened Tally
  import opened History
  import A = Allocate
  import P = Policies
  import Terms

  // The state after a run.
  ghost function After(d: Deployment, owner: uint256, steps: seq<Step>): System
  {
    Execute(HostOf(d), Start(owner), steps)
  }

  lemma AfterInv(d: Deployment, owner: uint256, steps: seq<Step>)
    ensures Inv(HostOf(d), After(d, owner, steps))
  {
    EngineIsFaithful(d);
    StartInv(HostOf(d), owner);
    RunKeepsInv(HostOf(d), Start(owner), steps);
  }

  // The table the committed ciphertext of a settled round computes to, as far as the state names one.
  ghost function TableOf(d: Deployment, s: System, id: nat): seq<A.Allocation>
    requires id < |s.chain.rounds|
  {
    var action := s.chain.rounds[id].computeInstructionId;
    if action in s.orders && s.orders[action].ComputeOrder? && ComputeRound(d, s.orders[action].ciphertext).Some?
    then ComputeRound(d, s.orders[action].ciphertext).value.table
    else []
  }

  // ---- What callbacks during a dispatch can bring back ---------------------------------------

  lemma AfterTallied(d: Deployment, owner: uint256, steps: seq<Step>)
    ensures Tallied(After(d, owner, steps)) && Inv(HostOf(d), After(d, owner, steps))
  {
    EngineIsFaithful(d);
    StartInv(HostOf(d), owner);
    StartTallied(owner);
    RunTallied(HostOf(d), Start(owner), steps);
    AfterInv(d, owner, steps);
  }

  // The step records an answer for a round of the token that was cancelled while the registry was asked.
  predicate FindsCancelled(s: System, step: Step, token: nat)
  {
    && step.EndCompute? && Answered(s.chain).Some?
    && Answered(s.chain).value.token == token && Answered(s.chain).value.status == Cancelled
  }

  // What the step makes a round owe again: its funding.
  function RevivedBy(s: System, step: Step, token: nat): nat
  {
    if FindsCancelled(s, step, token) then Answered(s.chain).value.funded else 0
  }

  // What the run makes rounds owe again, all in all: the funding of the rounds that were cancelled while
  // the registry was asked for them.
  ghost function Revived(h: Host, s: System, steps: seq<Step>, token: nat): nat
    decreases |steps|
  {
    if steps == [] then 0
    else
      match Next(h, s, steps[0])
      case None => Revived(h, s, steps[1..], token)
      case Some(t) => RevivedBy(s, steps[0], token) + Revived(h, t, steps[1..], token)
  }

  // From the start.
  ghost function RevivedIn(d: Deployment, owner: uint256, steps: seq<Step>, token: nat): nat
  {
    Revived(HostOf(d), Start(owner), steps, token)
  }

  // No answer recorded in the run finds a round of the token cancelled.
  ghost predicate RevivesNothing(h: Host, s: System, steps: seq<Step>, token: nat)
    decreases |steps|
  {
    steps != [] ==>
      match Next(h, s, steps[0])
      case None => RevivesNothing(h, s, steps[1..], token)
      case Some(t) => !FindsCancelled(s, steps[0], token) && RevivesNothing(h, t, steps[1..], token)
  }

  lemma StepGap(s: System, step: Step, t: System, token: nat)
    requires Tallied(s) && Steady(s.chain) && BooksStep(s, step, t)
    ensures Gap(t.chain, token) == Gap(s.chain, token) + RevivedBy(s, step, token)
    ensures RevivedBy(s, step, token) == 0 <==> !FindsCancelled(s, step, token)
  {
    if step.EndCompute? {
      AnswerFinds(s);
    }
  }

  // What live rounds tie up beyond outstanding is what the run revived, to the unit, and a run that revives
  // no round revives no money.
  lemma {:induction false} GapIsRevived(h: Host, s: System, steps: seq<Step>, token: nat)
    requires Inv(h, s) && Tallied(s)
    ensures Gap(Execute(h, s, steps).chain, token) == Gap(s.chain, token) + Revived(h, s, steps, token)
    ensures Revived(h, s, steps, token) == 0 <==> RevivesNothing(h, s, steps, token)
    decreases |steps|
  {
    if steps != [] {
      match Next(h, s, steps[0])
      case None => GapIsRevived(h, s, steps[1..], token);
      case Some(t) =>
        StepKeepsInv(h, s, steps[0], t);
        StepTallied(h, s, steps[0], t);
        StepGap(s, steps[0], t, token);
        GapIsRevived(h, t, steps[1..], token);
    }
  }

  lemma AfterGap(d: Deployment, owner: uint256, steps: seq<Step>, token: nat)
    ensures Gap(After(d, owner, steps).chain, token) == RevivedIn(d, owner, steps, token)
    ensures RevivedIn(d, owner, steps, token) == 0 <==> RevivesNothing(HostOf(d), Start(owner), steps, token)
  {
    EngineIsFaithful(d);
    StartInv(HostOf(d), owner);
    StartTallied(owner);
    GapIsRevived(HostOf(d), Start(owner), steps, token);
  }

  // What a run revived can be told from its last state: it is the funding of the rounds that are swept and
  // live. They are computing or finalized, and none of them can ever be closed.
  lemma RevivedIsReturned(d: Deployment, owner: uint256, steps: seq<Step>, token: nat)
    ensures var chain := After(d, owner, steps).chain;
            && RevivedIn(d, owner, steps, token) == SumOver(chain.rounds, Returned(token))
            && forall id: nat :: id < |chain.rounds| && BroughtBack(chain.rounds[id]) ==>
                 chain.rounds[id].status == Computing || chain.rounds[id].status == Finalized
  {
    AfterTallied(d, owner, steps);
    AfterGap(d, owner, steps, token);
    var chain := After(d, owner, steps).chain;
    assert Gap(chain, token) == SumOver(chain.rounds, Returned(token));
    forall id: nat | id < |chain.rounds| && BroughtBack(chain.rounds[id])
      ensures chain.rounds[id].status == Computing || chain.rounds[id].status == Finalized
    {
      assert Flagged(chain.rounds[id]);
    }
  }

  // The books are right after a run exactly if no answer recorded in it found its round cancelled.
  lemma AfterSound(d: Deployment, owner: uint256, steps: seq<Step>)
    ensures Sound(After(d, owner, steps).chain) <==> RevivesNoToken(HostOf(d), Start(owner), steps)
  {
    AfterTallied(d, owner, steps);
    SoundExactly(After(d, owner, steps));
    RevivesExactly(d, owner, steps);
  }

  // No answer recorded in the run finds any round cancelled.
  ghost predicate RevivesNoToken(h: Host, s: System, steps: seq<Step>)
  {
    forall token: nat :: RevivesNothing(h, s, steps, token)
  }

  lemma RevivesExactly(d: Deployment, owner: uint256, steps: seq<Step>)
    ensures (forall token: nat :: NoneBack(After(d, owner, steps).chain.rounds, token)) <==>
            RevivesNoToken(HostOf(d), Start(owner), steps)
  {
    var rounds := After(d, owner, steps).chain.rounds;
    if forall token: nat :: NoneBack(rounds, token) {
      forall token: nat
        ensures RevivesNothing(HostOf(d), Start(owner), steps, token)
      {
        assert NoneBack(rounds, token);
        BooksBalanceExactly(d, owner, steps, token);
      }
    }
    if RevivesNoToken(HostOf(d), Start(owner), steps) {
      forall token: nat
        ensures NoneBack(rounds, token)
      {
        assert RevivesNothing(HostOf(d), Start(owner), steps, token);
        BooksBalanceExactly(d, owner, steps, token);
      }
    }
  }

  // What is outstanding is what unswept rounds hold, less what was claimed of rounds that were cancelled
  // and went on all the same.
  lemma OutstandingExactly(d: Deployment, owner: uint256, steps: seq<Step>, token: nat)
    ensures var chain := After(d, owner, steps).chain;
            Get(chain.outstanding, token)
              == SumOver(chain.rounds, Unswept(token)) - SumOver(chain.rounds, Overdrawn(token))
  {
    AfterTallied(d, owner, steps);
    OutstandingTold(After(d, owner, steps), token);
  }

  // ---- Claims and allocation -----------------------------------------------------------------

  // Claims never exceed the allocation, nor the allocation the funding, although the contract compares
  // claims with neither: what was claimed of a settled round is the sum of its table over the claimed
  // rows, unless two byte strings hashed during the run collide.
  lemma ClaimsNeverExceedAllocation(d: Deployment, owner: uint256, steps: seq<Step>, id: nat)
    requires var s := After(d, owner, steps);
             CollisionFree(d.keccak, s.hashed) && id < |s.chain.rounds| && Settled(s.chain.rounds[id])
    ensures var s := After(d, owner, steps);
            var r, t := s.chain.rounds[id], TableOf(d, s, id);
            && (forall i: nat :: (id, i) in s.chain.claimed ==> i < |t|)
            && r.totalClaimed == ClaimedSum(t, s.chain.claimed, id, 0)
            && r.totalClaimed <= r.totalAllocated == A.SumAllocations(t) && r.totalAllocated <= r.funded
            && r.recipientCount == |t|
  {
    AfterInv(d, owner, steps);
    var s := After(d, owner, steps);
    assert RoundInv(HostOf(d), s, id) && RoundOk(s.chain, id) && BoundOk(HostOf(d), s, id);
    assert FaithfulAt(HostOf(d), s.orders[s.chain.rounds[id].computeInstructionId].ciphertext);
    ClaimedSumBound(TableOf(d, s, id), s.chain.claimed, id, 0);
  }

  // Every round ties up a non-negative amount.
  lemma OwedNonNegative(h: Host, s: System, id: nat)
    requires Inv(h, s) && CollisionFree(h.keccak, s.hashed) && id < |s.chain.rounds|
    ensures s.chain.rounds[id].totalClaimed <= s.chain.rounds[id].funded
  {
    assert RoundInv(h, s, id) && RoundOk(s.chain, id);
    if s.chain.rounds[id].merkleRoot != ZERO32 {
      assert BoundOk(h, s, id);
      assert FaithfulAt(h, s.orders[s.chain.rounds[id].computeInstructionId].ciphertext);
      ClaimedSumBound(Behind(h, s, id).table, s.chain.claimed, id, 0);
    }
  }

  // What a live round ties up is outstanding but for what was revived, and what is outstanding is held.
  lemma OwnShareOutstanding(h: Host, s: System, id: nat)
    requires Inv(h, s) && CollisionFree(h.keccak, s.hashed) && id < |s.chain.rounds| && Live(s.chain.rounds[id])
    ensures var r := s.chain.rounds[id];
            && r.funded - r.totalClaimed <= Get(s.chain.outstanding, r.token) + Gap(s.chain, r.token)
            && Get(s.chain.outstanding, r.token) <= Get(s.chain.held, r.token)
  {
    var r := s.chain.rounds[id];
    forall j | 0 <= j < |s.chain.rounds|
      ensures Owed(r.token)(s.chain.rounds[j]) >= 0
    {
      OwedNonNegative(h, s, j);
    }
    OneOfMany(s.chain.rounds, Owed(r.token), id);
    assert Covered(s.chain, r.token);
  }

  // ---- Winding down --------------------------------------------------------------------------

  // All that closing asks but the money.
  predicate Closable(chain: State, c: Call, id: nat)
  {
    && chain.lock == Idle && id < |chain.rounds| && chain.rounds[id].status == Finalized && !chain.rounds[id].swept
    && Clock(c.now) > chain.rounds[id].claimDeadline
  }

  // All that cancelling asks but the money.
  predicate Cancellable(chain: State, c: Call, id: nat)
  {
    && chain.lock == Idle && id < |chain.rounds| && c.sender == chain.rounds[id].organization
    && (chain.rounds[id].status == Open || chain.rounds[id].status == Committed)
  }

  // What winding a round down leaves: the round over, its remainder no longer outstanding and sent, if it
  // is anything, to the organization.
  predicate WoundDown(chain: State, next: State, id: nat, status: Status)
    requires id < |chain.rounds|
  {
    var r := chain.rounds[id];
    var rest := r.funded - r.totalClaimed;
    && next.rounds == chain.rounds[id := r.(swept := true, status := status)]
    && Get(next.outstanding, r.token) == Get(chain.outstanding, r.token) - rest
    && next.payments == chain.payments + (if rest <= 0 then [] else [Payment(r.token, r.organization, rest)])
  }

  // Only the money decides once a round may be wound down.
  lemma CloseOutcome(chain: State, c: Call, id: nat)
    requires Closable(chain, c, id) ==>
               var r := chain.rounds[id];
               r.totalClaimed <= r.funded && Get(chain.outstanding, r.token) <= Get(chain.held, r.token)
    ensures var o := CloseRound(chain, c, id, true);
            && o != Reverted(TransferFailed)
            && (o.Done? || o == Reverted(Panic) ==> Closable(chain, c, id))
            && (Closable(chain, c, id) ==>
                  var r := chain.rounds[id];
                  && (r.funded - r.totalClaimed <= Get(chain.outstanding, r.token) ==> o.Done?)
                  && (r.funded - r.totalClaimed > Get(chain.outstanding, r.token) ==> o == Reverted(Panic))
                  && (o.Done? ==> WoundDown(chain, o.state, id, Closed)))
  {
  }

  lemma CancelOutcome(chain: State, c: Call, id: nat)
    requires Cancellable(chain, c, id) ==>
               var r := chain.rounds[id];
               r.totalClaimed == 0 && Get(chain.outstanding, r.token) <= Get(chain.held, r.token)
    ensures var o := CancelRound(chain, c, id, true);
            && o != Reverted(TransferFailed)
            && (o.Done? || o == Reverted(Panic) ==> Cancellable(chain, c, id))
            && (Cancellable(chain, c, id) ==>
                  var r := chain.rounds[id];
                  && (r.funded <= Get(chain.outstanding, r.token) ==> o.Done?)
                  && (r.funded > Get(chain.outstanding, r.token) ==> o == Reverted(Panic))
                  && (o.Done? ==> WoundDown(chain, o.state, id, Cancelled)))
  {
  }

  // What unswept rounds hold beside round id.
  ghost function OthersHold(chain: State, id: nat): int
    requires id < |chain.rounds|
  {
    SumOver(chain.rounds, Unswept(chain.rounds[id].token)) - Unswept(chain.rounds[id].token)(chain.rounds[id])
  }

  // The remainder of an unswept round is outstanding exactly if what was claimed of rounds brought back is
  // within what the other unswept rounds hold.
  lemma RemainderOutstanding(s: System, id: nat)
    requires Tallied(s) && id < |s.chain.rounds| && !s.chain.rounds[id].swept
    ensures var r := s.chain.rounds[id];
            r.funded - r.totalClaimed <= Get(s.chain.outstanding, r.token) <==>
              SumOver(s.chain.rounds, Overdrawn(r.token)) <= OthersHold(s.chain, id)
  {
    OutstandingTold(s, s.chain.rounds[id].token);
  }

  // Others hold nothing negative.
  lemma OthersNonNegative(h: Host, s: System, id: nat)
    requires Inv(h, s) && CollisionFree(h.keccak, s.hashed) && id < |s.chain.rounds|
    ensures OthersHold(s.chain, id) >= 0
  {
    var token := s.chain.rounds[id].token;
    forall j | 0 <= j < |s.chain.rounds|
      ensures Unswept(token)(s.chain.rounds[j]) >= 0
    {
      OwedNonNegative(h, s, j);
    }
    OneOfMany(s.chain.rounds, Unswept(token), id);
  }

  // After any run an expired finalized round that was not swept can be closed exactly if its remainder is
  // outstanding, that is, if what was claimed of rounds brought back is within what the other unswept
  // rounds hold; then just the remainder is sent. Nothing else closes.
  lemma CloseExactly(d: Deployment, owner: uint256, steps: seq<Step>, c: Call, id: nat)
    requires CollisionFree(d.keccak, After(d, owner, steps).hashed)
    ensures var chain := After(d, owner, steps).chain;
            var o := CloseRound(chain, c, id, true);
            && (o.Done? || o == Reverted(Panic) <==> Closable(chain, c, id))
            && (Closable(chain, c, id) ==>
                  var r := chain.rounds[id];
                  && (o.Done? <==> r.funded - r.totalClaimed <= Get(chain.outstanding, r.token))
                  && (o.Done? <==> SumOver(chain.rounds, Overdrawn(r.token)) <= OthersHold(chain, id))
                  && (o.Done? ==> WoundDown(chain, o.state, id, Closed)))
  {
    AfterTallied(d, owner, steps);
    var s := After(d, owner, steps);
    if Closable(s.chain, c, id) {
      OwedNonNegative(HostOf(d), s, id);
      assert Covered(s.chain, s.chain.rounds[id].token);
      RemainderOutstanding(s, id);
    }
    CloseOutcome(s.chain, c, id);
  }

  // The same of an organization's round that was not dispatched, whatever may collide.
  lemma CancelExactly(d: Deployment, owner: uint256, steps: seq<Step>, c: Call, id: nat)
    ensures var chain := After(d, owner, steps).chain;
            var o := CancelRound(chain, c, id, true);
            && (o.Done? || o == Reverted(Panic) <==> Cancellable(chain, c, id))
            && (Cancellable(chain, c, id) ==>
                  var r := chain.rounds[id];
                  && (o.Done? <==> r.funded <= Get(chain.outstanding, r.token))
                  && (o.Done? <==> SumOver(chain.rounds, Overdrawn(r.token)) <= OthersHold(chain, id))
                  && (o.Done? ==> r.totalClaimed == 0 && WoundDown(chain, o.state, id, Cancelled)))
  {
    AfterTallied(d, owner, steps);
    var s := After(d, owner, steps);
    if Cancellable(s.chain, c, id) {
      assert RoundOk(s.chain, id) && Flagged(s.chain.rounds[id]);
      assert Covered(s.chain, s.chain.rounds[id].token);
      RemainderOutstanding(s, id);
    }
    CancelOutcome(s.chain, c, id);
  }

  // No more was claimed of rounds brought back than was returned with them.
  lemma OverdrawnWasReturned(h: Host, s: System, token: nat)
    requires Inv(h, s) && Tallied(s) && CollisionFree(h.keccak, s.hashed)
    ensures SumOver(s.chain.rounds, Overdrawn(token)) <= Gap(s.chain, token)
  {
    forall j | 0 <= j < |s.chain.rounds|
      ensures Overdrawn(token)(s.chain.rounds[j]) <= Returned(token)(s.chain.rounds[j])
    {
      OwedNonNegative(h, s, j);
    }
    SumOverPointwise(s.chain.rounds, Overdrawn(token), Returned(token));
    assert Gap(s.chain, token) == SumOver(s.chain.rounds, Returned(token));
  }

  // If others hold too little, something was claimed of rounds brought back, and so something was revived.
  lemma OverdrawnAgainst(h: Host, s: System, id: nat)
    requires Inv(h, s) && Tallied(s) && CollisionFree(h.keccak, s.hashed) && id < |s.chain.rounds|
    requires SumOver(s.chain.rounds, Overdrawn(s.chain.rounds[id].token)) > OthersHold(s.chain, id)
    ensures SumOver(s.chain.rounds, Overdrawn(s.chain.rounds[id].token)) > 0
    ensures Gap(s.chain, s.chain.rounds[id].token) > 0
  {
    OthersNonNegative(h, s, id);
    OverdrawnWasReturned(h, s, s.chain.rounds[id].token);
  }

  // Whatever was admitted, closing or cancelling a round finds enough to pay, and its checked subtraction
  // fails only if something was claimed of a round that was brought back.
  lemma WindDownNeverPanics(d: Deployment, owner: uint256, steps: seq<Step>, c: Call, id: nat)
    requires CollisionFree(d.keccak, After(d, owner, steps).hashed)
    ensures var chain := After(d, owner, steps).chain;
            && CloseRound(chain, c, id, true) != Reverted(TransferFailed)
            && CancelRound(chain, c, id, true) != Reverted(TransferFailed)
    ensures var chain := After(d, owner, steps).chain;
            CloseRound(chain, c, id, true) == Reverted(Panic) || CancelRound(chain, c, id, true) == Reverted(Panic) ==>
              && id < |chain.rounds|
              && SumOver(chain.rounds, Overdrawn(chain.rounds[id].token)) > 0
              && RevivedIn(d, owner, steps, chain.rounds[id].token) > 0
  {
    CloseExactly(d, owner, steps, c, id);
    CancelExactly(d, owner, steps, c, id);
    if Closable(After(d, owner, steps).chain, c, id) || Cancellable(After(d, owner, steps).chain, c, id) {
      ShortExplained(d, owner, steps, id);
    }
  }

  lemma ShortExplained(d: Deployment, owner: uint256, steps: seq<Step>, id: nat)
    requires CollisionFree(d.keccak, After(d, owner, steps).hashed) && id < |After(d, owner, steps).chain.rounds|
    ensures var chain := After(d, owner, steps).chain;
            SumOver(chain.rounds, Overdrawn(chain.rounds[id].token)) > OthersHold(chain, id) ==>
              && SumOver(chain.rounds, Overdrawn(chain.rounds[id].token)) > 0
              && RevivedIn(d, owner, steps, chain.rounds[id].token) > 0
  {
    var s := After(d, owner, steps);
    AfterTallied(d, owner, steps);
    AfterGap(d, owner, steps, s.chain.rounds[id].token);
    if SumOver(s.chain.rounds, Overdrawn(s.chain.rounds[id].token)) > OthersHold(s.chain, id) {
      OverdrawnAgainst(HostOf(d), s, id);
    }
  }

  // ---- Every row can be claimed, once, by its recipient ---------------------------------------

  // The claim a recipient makes with the proof the engine discloses.
  function RowClaim(d: Deployment, id: nat, t: seq<A.Allocation>, i: nat): Step
    requires i < |t| && t[i].recipient < UINT256 && t[i].amount < UINT256 && i < UINT256
  {
    MakeClaim(t[i].recipient, id, i, t[i].amount, Proof(d.keccak, Leaves(d.keccak, id, t), i), true)
  }

  // Rows fit the contract's number types.
  lemma RowsFit(d: Deployment, owner: uint256, steps: seq<Step>, id: nat, i: nat)
    requires var s := After(d, owner, steps);
             id < |s.chain.rounds| && Settled(s.chain.rounds[id]) && i < |TableOf(d, s, id)|
    ensures var s := After(d, owner, steps);
            var t := TableOf(d, s, id);
            && t[i].recipient < UINT256 && 0 < t[i].amount < UINT256 && i < UINT256 && t[i].index == i
            && s.chain.rounds[id].merkleRoot == Root(d.keccak, Leaves(d.keccak, id, t)) != ZERO32
  {
    AfterInv(d, owner, steps);
    var s := After(d, owner, steps);
    assert RoundInv(HostOf(d), s, id) && RoundOk(s.chain, id);
    assert FaithfulAt(HostOf(d), s.orders[s.chain.rounds[id].computeInstructionId].ciphertext);
  }

  // An unclaimed row's claim verifies, whatever the size of the table.
  lemma RowVerifies(d: Deployment, id: nat, t: seq<A.Allocation>, i: nat, root: Bytes32)
    requires i < |t| && t[i].index == i && root == Root(d.keccak, Leaves(d.keccak, id, t)) && root != ZERO32
    ensures Verify(d.keccak, root, id, i, t[i].recipient, t[i].amount, Proof(d.keccak, Leaves(d.keccak, id, t), i))
  {
    Completeness(d.keccak, Leaves(d.keccak, id, t), i);
  }

  // There is room for an unclaimed row in the totals: claiming it overflows nothing.
  lemma RowFitsAllocation(h: Host, s: System, id: nat, i: nat)
    requires Inv(h, s) && CollisionFree(h.keccak, s.hashed)
    requires id < |s.chain.rounds| && s.chain.rounds[id].status == Finalized && (id, i) !in s.chain.claimed
    requires Computes(h, s, id) && i < |Behind(h, s, id).table|
    ensures var r := s.chain.rounds[id];
            r.totalClaimed + Behind(h, s, id).table[i].amount <= r.totalAllocated <= r.funded < UINT256
  {
    var claimed, r := s.chain.claimed, s.chain.rounds[id];
    assert RoundInv(h, s, id) && RoundOk(s.chain, id) && BoundOk(h, s, id);
    assert FaithfulAt(h, s.orders[r.computeInstructionId].ciphertext);
    RowFits(Behind(h, s, id).table, claimed, id, i);
  }

  lemma RowFits(t: seq<A.Allocation>, claimed: set<(nat, nat)>, id: nat, i: nat)
    requires i < |t| && (id, i) !in claimed
    ensures ClaimedSum(t, claimed, id, 0) + t[i].amount <= A.SumAllocations(t)
  {
    ClaimedSumAdd(t, claimed, id, 0, id, i);
    ClaimedSumBound(t, claimed + {(id, i)}, id, 0);
  }

  // An unclaimed row is covered unless the run revived a round of its token.
  lemma RowIsCovered(h: Host, s: System, id: nat, i: nat)
    requires Inv(h, s) && CollisionFree(h.keccak, s.hashed)
    requires id < |s.chain.rounds| && s.chain.rounds[id].status == Finalized && (id, i) !in s.chain.claimed
    requires Computes(h, s, id) && i < |Behind(h, s, id).table|
    ensures var r, amount := s.chain.rounds[id], Behind(h, s, id).table[i].amount;
            && r.totalClaimed + amount < UINT256
            && (amount > Get(s.chain.outstanding, r.token) ==> Gap(s.chain, r.token) > 0)
            && Get(s.chain.outstanding, r.token) <= Get(s.chain.held, r.token)
  {
    RowFitsAllocation(h, s, id, i);
    OwnShareOutstanding(h, s, id);
  }

  // What a claim has passed when only the money is left to decide.
  ghost predicate Proved(keccak: Hash, chain: State, id: nat, index: uint256, who: uint256, amount: uint256,
                         proof: seq<Bytes32>)
  {
    && id < |chain.rounds| && chain.rounds[id].status == Finalized && (id, index) !in chain.claimed
    && Verify(keccak, chain.rounds[id].merkleRoot, id, index, who, amount, proof)
  }

  // What the contract has promised and taken in.
  ghost predicate Covers(chain: State, r: Round, amount: nat)
  {
    r.totalClaimed + amount < UINT256 && Get(chain.outstanding, r.token) <= Get(chain.held, r.token)
  }

  // A proved claim in time goes through and pays exactly if its amount is outstanding.
  lemma ProvedClaimOutcome(h: Host, s: System, id: nat, index: uint256, who: uint256, amount: uint256,
                           proof: seq<Bytes32>)
    requires Proved(h.keccak, s.chain, id, index, who, amount, proof) && s.chain.lock == Idle && amount > 0
    requires Clock(s.now) <= s.chain.rounds[id].claimDeadline && Covers(s.chain, s.chain.rounds[id], amount)
    ensures var r := s.chain.rounds[id];
            var next := Next(h, s, MakeClaim(who, id, index, amount, proof, true));
            && (next.Some? <==> amount <= Get(s.chain.outstanding, r.token))
            && (next.Some? ==>
                  && (id, index) in next.value.chain.claimed
                  && next.value.chain.payments == s.chain.payments + [Payment(r.token, who, amount)])
  {
    ClaimOutcome(s.chain, Call(who, 0, s.now), h.keccak, id, index, amount, proof);
  }

  lemma ClaimOutcome(chain: State, c: Call, keccak: Hash, id: nat, index: uint256, amount: uint256,
                     proof: seq<Bytes32>)
    requires Proved(keccak, chain, id, index, c.sender, amount, proof) && chain.lock == Idle && amount > 0
    requires Clock(c.now) <= chain.rounds[id].claimDeadline && Covers(chain, chain.rounds[id], amount)
    ensures var r := chain.rounds[id];
            var o := Claim(chain, c, keccak, id, index, amount, proof, true);
            && (o.Done? <==> amount <= Get(chain.outstanding, r.token))
            && (o.Done? ==>
                  && (id, index) in o.state.claimed
                  && o.state.payments == chain.payments + [Payment(r.token, c.sender, amount)])
  {
  }

  lemma OnlyMoneyFails(keccak: Hash, chain: State, c: Call, id: nat, index: uint256, amount: uint256,
                       proof: seq<Bytes32>)
    requires Proved(keccak, chain, id, index, c.sender, amount, proof) ==> Covers(chain, chain.rounds[id], amount)
    ensures var o := Claim(chain, c, keccak, id, index, amount, proof, true);
            && o != Reverted(TransferFailed)
            && (o == Reverted(Panic) ==>
                  Proved(keccak, chain, id, index, c.sender, amount, proof)
                  && amount > Get(chain.outstanding, chain.rounds[id].token))
  {
  }

  // A proved claim is a row's, and so covered.
  lemma ProvedIsCovered(h: Host, s: System, id: nat, index: uint256, who: uint256, amount: uint256,
                        proof: seq<Bytes32>)
    requires Inv(h, s) && Proved(h.keccak, s.chain, id, index, who, amount, proof)
    requires CollisionFree(h.keccak, s.hashed + ClaimPreimages(h.keccak, id, index, who, amount, proof))
    ensures var r := s.chain.rounds[id];
            && Covers(s.chain, r, amount)
            && (amount > Get(s.chain.outstanding, r.token) ==> Gap(s.chain, r.token) > 0)
  {
    assert RoundInv(h, s, id);
    assert FaithfulAt(h, s.orders[s.chain.rounds[id].computeInstructionId].ciphertext);
    var hashed := s.hashed + ClaimPreimages(h.keccak, id, index, who, amount, proof);
    TableSoundness(h, hashed, Behind(h, s, id), index, who, amount, proof);
    RowIsCovered(h, s, id, index);
  }

  // Whatever was admitted, a proved claim never overflows the claimed total nor finds an empty purse, and
  // its checked subtraction fails only if the run revived a round of its token that was over.
  lemma ClaimNeverPanics(d: Deployment, owner: uint256, steps: seq<Step>, c: Call, id: nat,
                         index: uint256, amount: uint256, proof: seq<Bytes32>)
    requires CollisionFree(d.keccak, After(d, owner, steps).hashed
                                     + ClaimPreimages(d.keccak, id, index, c.sender, amount, proof))
    ensures var chain := After(d, owner, steps).chain;
            var o := Claim(chain, c, d.keccak, id, index, amount, proof, true);
            && o != Reverted(TransferFailed)
            && (o == Reverted(Panic) ==>
                  id < |chain.rounds| && RevivedIn(d, owner, steps, chain.rounds[id].token) > 0)
  {
    AfterInv(d, owner, steps);
    var s := After(d, owner, steps);
    if Proved(d.keccak, s.chain, id, index, c.sender, amount, proof) {
      ProvedIsCovered(HostOf(d), s, id, index, c.sender, amount, proof);
      AfterGap(d, owner, steps, s.chain.rounds[id].token);
    }
    OnlyMoneyFails(d.keccak, s.chain, c, id, index, amount, proof);
  }

  // Before the deadline, the recipient of an unclaimed row of a finalized round can claim it with the proof
  // the engine discloses exactly if its amount is outstanding, which it is unless the run revived a round of
  // its token; the claim pays exactly the row's amount to that recipient.
  lemma EveryRowIsClaimable(d: Deployment, owner: uint256, steps: seq<Step>, id: nat, i: nat)
    requires var s := After(d, owner, steps);
             && CollisionFree(d.keccak, s.hashed) && id < |s.chain.rounds|
             && s.chain.rounds[id].status == Finalized && Clock(s.now) <= s.chain.rounds[id].claimDeadline
             && s.chain.lock == Idle && (id, i) !in s.chain.claimed && i < |TableOf(d, s, id)|
    ensures var s := After(d, owner, steps);
            var t, r := TableOf(d, s, id), s.chain.rounds[id];
            && t[i].recipient < UINT256 && t[i].amount < UINT256 && i < UINT256
            && var next := Next(HostOf(d), s, RowClaim(d, id, t, i));
               && (next.Some? <==> t[i].amount <= Get(s.chain.outstanding, r.token))
               && (next == None ==> RevivedIn(d, owner, steps, r.token) > 0)
               && (next.Some? ==>
                     && (id, i) in next.value.chain.claimed
                     && next.value.chain.payments
                          == s.chain.payments + [Payment(r.token, t[i].recipient, t[i].amount)])
  {
    var s := After(d, owner, steps);
    var t := TableOf(d, s, id);
    RowsFit(d, owner, steps, id, i);
    RowIsProved(d, owner, steps, id, i);
    ProvedClaimOutcome(HostOf(d), s, id, i, t[i].recipient, t[i].amount, Proof(d.keccak, Leaves(d.keccak, id, t), i));
  }

  // The claim of an unclaimed row of a finalized round passes every check, and only the money decides.
  lemma RowIsProved(d: Deployment, owner: uint256, steps: seq<Step>, id: nat, i: nat)
    requires var s := After(d, owner, steps);
             && CollisionFree(d.keccak, s.hashed) && id < |s.chain.rounds|
             && s.chain.rounds[id].status == Finalized && (id, i) !in s.chain.claimed && i < |TableOf(d, s, id)|
    ensures var s := After(d, owner, steps);
            var t, r := TableOf(d, s, id), s.chain.rounds[id];
            && t[i].recipient < UINT256 && 0 < t[i].amount < UINT256 && i < UINT256
            && Proved(d.keccak, s.chain, id, i, t[i].recipient, t[i].amount,
                      Proof(d.keccak, Leaves(d.keccak, id, t), i))
            && Covers(s.chain, r, t[i].amount)
            && (t[i].amount > Get(s.chain.outstanding, r.token) ==> RevivedIn(d, owner, steps, r.token) > 0)
  {
    var s := After(d, owner, steps);
    var r := s.chain.rounds[id];
    AfterInv(d, owner, steps);
    RowsFit(d, owner, steps, id, i);
    assert RoundInv(HostOf(d), s, id);
    RowIsCovered(HostOf(d), s, id, i);
    AfterGap(d, owner, steps, r.token);
    RowVerifies(d, id, TableOf(d, s, id), i, r.merkleRoot);
  }

  // Conversely an accepted claim is its sender's own unclaimed row, pays its amount, and is accepted
  // once: the row is refused ever after, to every sender, with whatever amount and proof.
  lemma ClaimIsOwnRowOnce(d: Deployment, owner: uint256, steps: seq<Step>, claim: Step, later: seq<Step>, again: Step)
    requires claim.MakeClaim? && Next(HostOf(d), After(d, owner, steps), claim).Some?
    requires CollisionFree(d.keccak, Next(HostOf(d), After(d, owner, steps), claim).value.hashed)
    requires again.MakeClaim? && again.id == claim.id && again.index == claim.index
    ensures var s := After(d, owner, steps);
            && claim.id < |s.chain.rounds|
            && var t := TableOf(d, s, claim.id);
               && claim.index < |t| && t[claim.index].recipient == claim.sender && t[claim.index].amount == claim.share
               && (claim.id, claim.index) !in s.chain.claimed
    ensures var t := Next(HostOf(d), After(d, owner, steps), claim).value;
            Next(HostOf(d), Execute(HostOf(d), t, later), again) == None
  {
    var s := After(d, owner, steps);
    AfterInv(d, owner, steps);
    ClaimEffect(HostOf(d), s, claim, Next(HostOf(d), s, claim).value);
    ClaimIsForARow(HostOf(d), s, claim, Next(HostOf(d), s, claim).value);
    ClaimedForever(HostOf(d), Next(HostOf(d), s, claim).value, later, again);
  }

  // A claim with another sender's row is refused, even with that row's own proof and amount.
  lemma NobodyElseCanClaim(d: Deployment, owner: uint256, steps: seq<Step>, id: nat, i: nat, who: uint256)
    requires var s := After(d, owner, steps);
             && id < |s.chain.rounds| && Settled(s.chain.rounds[id])
             && var t := TableOf(d, s, id);
                && i < |t| && who != t[i].recipient
                && CollisionFree(d.keccak, s.hashed
                     + ClaimPreimages(d.keccak, id, i, who, t[i].amount, Proof(d.keccak, Leaves(d.keccak, id, t), i)))
    ensures var s := After(d, owner, steps);
            var t := TableOf(d, s, id);
            && i < UINT256 && t[i].amount < UINT256
            && var proof := Proof(d.keccak, Leaves(d.keccak, id, t), i);
               Next(HostOf(d), s, MakeClaim(who, id, i, t[i].amount, proof, true)) == None
  {
    var t := TableOf(d, After(d, owner, steps), id);
    AfterInv(d, owner, steps);
    RowsFit(d, owner, steps, id, i);
    var claim := MakeClaim(who, id, i, t[i].amount, Proof(d.keccak, Leaves(d.keccak, id, t), i), true);
    OthersAreRefused(HostOf(d), After(d, owner, steps), claim);
  }

  lemma OthersAreRefused(h: Host, s: System, claim: Step)
    requires Inv(h, s) && claim.MakeClaim? && claim.id < |s.chain.rounds| && Computes(h, s, claim.id)
    requires claim.index < |Behind(h, s, claim.id).table|
    requires Behind(h, s, claim.id).table[claim.index].recipient != claim.sender
    requires CollisionFree(h.keccak, s.hashed + ClaimPreimages(h.keccak, claim.id, claim.index, claim.sender,
                                                               claim.share, claim.proof))
    ensures Next(h, s, claim) == None
  {
    var next := Next(h, s, claim);
    if next.Some? {
      ClaimEffect(h, s, claim, next.value);
      ClaimIsForARow(h, s, claim, next.value);
      assert false;
    }
  }

  // ---- From policy to payment ----------------------------------------------------------------

  // What was dispatched for a round last.
  ghost function CiphertextOf(s: System, id: nat): seq<byte>
    requires id < |s.chain.rounds|
  {
    var action := s.chain.rounds[id].computeInstructionId;
    if action in s.orders && s.orders[action].ComputeOrder? then s.orders[action].ciphertext else []
  }

  // The policy a round committed to: the ciphertext has the committed hash and decrypts to it.
  ghost predicate CommittedTo(d: Deployment, s: System, id: nat, p: P.Policy)
    requires id < |s.chain.rounds|
  {
    && d.keccak(CiphertextOf(s, id)) == s.chain.rounds[id].policyCommitment
    && d.decrypt(CiphertextOf(s, id)).Some? && d.decrypt(CiphertextOf(s, id)).value == p
    && P.Valid(p, Some(d.self)) && p.roundId == id
  }

  lemma TableFollows(d: Deployment, s: System, id: nat) returns (p: P.Policy)
    requires Inv(HostOf(d), s) && id < |s.chain.rounds| && Settled(s.chain.rounds[id])
    ensures CommittedTo(d, s, id, p) && A.GoodTable(TableOf(d, s, id), p) && Terms.Follows(TableOf(d, s, id), p)
    ensures s.chain.rounds[id].totalAllocated == A.SumAllocations(TableOf(d, s, id))
  {
    assert RoundInv(HostOf(d), s, id);
    ComputeExactly(d, CiphertextOf(s, id));
    p := d.decrypt(CiphertextOf(s, id)).value;
  }

  // After any run, a finalized or closed round allocates what the policy it committed to says, entry by
  // entry, and within that policy's budget.
  lemma AllocationFollowsPolicy(d: Deployment, owner: uint256, steps: seq<Step>, id: nat) returns (p: P.Policy)
    requires id < |After(d, owner, steps).chain.rounds| && Settled(After(d, owner, steps).chain.rounds[id])
    ensures var s := After(d, owner, steps);
            && CommittedTo(d, s, id, p) && A.GoodTable(TableOf(d, s, id), p) && Terms.Follows(TableOf(d, s, id), p)
            && s.chain.rounds[id].totalAllocated == A.SumAllocations(TableOf(d, s, id)) <= p.totalBudget
  {
    AfterInv(d, owner, steps);
    p := TableFollows(d, After(d, owner, steps), id);
  }

  // A row of a table that follows a policy is what the policy pays one of its entries.
  lemma RowFollows(t: seq<A.Allocation>, p: P.Policy, k: nat) returns (i: nat)
    requires P.WellFormed(p) && A.GoodTable(t, p) && Terms.Follows(t, p) && k < |t|
    ensures i < |p.entries| && p.entries[i].recipient == t[k].recipient && Terms.Pays(p, i, t[k].amount)
    ensures p.minAlloc <= t[k].amount && (p.maxAlloc > 0 ==> t[k].amount <= p.maxAlloc)
  {
    assert A.GoodRow(t, k, p);
    i :| 0 <= i < |p.entries| && p.entries[i].recipient == t[k].recipient;
    assert Terms.Lists(t, p.entries[i].recipient, t[k].amount);
  }

  // After any run, whoever claims is an entry of the policy the round committed to and is paid exactly what
  // that policy's terms give the entry, which is within its floor and its cap.
  lemma ClaimFollowsPolicy(d: Deployment, owner: uint256, steps: seq<Step>, claim: Step)
      returns (p: P.Policy, i: nat)
    requires claim.MakeClaim? && Next(HostOf(d), After(d, owner, steps), claim).Some?
    requires CollisionFree(d.keccak, Next(HostOf(d), After(d, owner, steps), claim).value.hashed)
    ensures claim.id < |After(d, owner, steps).chain.rounds| && CommittedTo(d, After(d, owner, steps), claim.id, p)
    ensures i < |p.entries| && p.entries[i].recipient == claim.sender && Terms.Pays(p, i, claim.share)
    ensures p.minAlloc <= claim.share && (p.maxAlloc > 0 ==> claim.share <= p.maxAlloc)
  {
    var s := After(d, owner, steps);
    ClaimIsOwnRowOnce(d, owner, steps, claim, [], claim);
    ClaimEffect(HostOf(d), s, claim, Next(HostOf(d), s, claim).value);
    p := AllocationFollowsPolicy(d, owner, steps, claim.id);
    i := RowFollows(TableOf(d, s, claim.id), p, claim.index);
  }

  // And conversely: an entry that policy pays has a row with just that amount, which its recipient can claim in
  // time exactly if it is outstanding.
  lemma PaidEntryCanClaim(d: Deployment, owner: uint256, steps: seq<Step>, id: nat, p: P.Policy, i: nat, x: nat)
      returns (k: nat)
    requires var s := After(d, owner, steps);
             && CollisionFree(d.keccak, s.hashed) && id < |s.chain.rounds|
             && s.chain.rounds[id].status == Finalized && Clock(s.now) <= s.chain.rounds[id].claimDeadline
             && s.chain.lock == Idle && CommittedTo(d, s, id, p) && i < |p.entries| && Terms.Pays(p, i, x)
    ensures var s := After(d, owner, steps);
            var t := TableOf(d, s, id);
            && k < |t| && t[k].recipient == p.entries[i].recipient < UINT256 && t[k].amount == x < UINT256
            && k < UINT256
            && ((id, k) !in s.chain.claimed ==>
                  (Next(HostOf(d), s, RowClaim(d, id, t, k)).Some? <==>
                     x <= Get(s.chain.outstanding, s.chain.rounds[id].token)))
  {
    var s := After(d, owner, steps);
    var t := TableOf(d, s, id);
    var q := AllocationFollowsPolicy(d, owner, steps, id);
    assert Terms.Lists(t, p.entries[i].recipient, x);
    k :| 0 <= k < |t| && t[k].recipient == p.entries[i].recipient && t[k].amount == x;
    RowsFit(d, owner, steps, id, k);
    if (id, k) !in s.chain.claimed {
      EveryRowIsClaimable(d, owner, steps, id, k);
    }
  }

  // ---- Money ---------------------------------------------------------------------------------

  // For every token, after every run: what live rounds tie up is what is outstanding and what the run
  // revived, so the two agree if and only if it revived nothing; what was ever funded is outstanding or was
  // paid out; the contract holds enough.
  lemma BooksAlwaysBalance(d: Deployment, owner: uint256, steps: seq<Step>, token: nat)
    ensures var chain := After(d, owner, steps).chain;
            && SumOver(chain.rounds, Owed(token)) == Get(chain.outstanding, token) + RevivedIn(d, owner, steps, token)
            && SumOver(chain.rounds, FundedIn(token)) == Get(chain.outstanding, token) + Paid(chain.payments, token)
            && Get(chain.held, token) >= Get(chain.outstanding, token) + InFlight(chain, token)
  {
    AfterInv(d, owner, steps);
    AfterGap(d, owner, steps, token);
    assert Covered(After(d, owner, steps).chain, token);
  }

  // The books of a token are right after a run exactly if no round of it is swept and live, and that is so
  // exactly if no answer recorded in the run found a round of it cancelled.
  lemma BooksBalanceExactly(d: Deployment, owner: uint256, steps: seq<Step>, token: nat)
    ensures var chain := After(d, owner, steps).chain;
            && ((SumOver(chain.rounds, Owed(token)) == Get(chain.outstanding, token)) <==>
                  NoneBack(chain.rounds, token))
            && (NoneBack(chain.rounds, token) <==> RevivesNothing(HostOf(d), Start(owner), steps, token))
  {
    AfterTallied(d, owner, steps);
    AfterGap(d, owner, steps, token);
    GapExactly(After(d, owner, steps), token);
  }

  // What finalized rounds promise and have not paid.
  function Promised(t: nat): Round -> int
  {
    (r: Round) => if r.token == t && r.status == Finalized then r.totalAllocated - r.totalClaimed else 0
  }

  // Every allocation nobody has claimed yet is in the contract's hands, for all rounds at once, but for
  // what the run revived.
  lemma PromisesAreHeld(d: Deployment, owner: uint256, steps: seq<Step>, token: nat)
    requires CollisionFree(d.keccak, After(d, owner, steps).hashed)
    ensures var chain := After(d, owner, steps).chain;
            && SumOver(chain.rounds, Promised(token))
                 <= Get(chain.outstanding, token) + RevivedIn(d, owner, steps, token)
            && Get(chain.outstanding, token) <= Get(chain.held, token)
  {
    AfterInv(d, owner, steps);
    var s := After(d, owner, steps);
    forall j | 0 <= j < |s.chain.rounds|
      ensures Promised(token)(s.chain.rounds[j]) <= Owed(token)(s.chain.rounds[j])
    {
      assert RoundOk(s.chain, j);
      OwedNonNegative(HostOf(d), s, j);
    }
    SumOverPointwise(s.chain.rounds, Promised(token), Owed(token));
    AfterGap(d, owner, steps, token);
    assert Covered(s.chain, token);
  }

  // What live rounds tie up beyond what they promise.
  function Unpromised(t: nat): Round -> int
  {
    (r: Round) => Owed(t)(r) - Promised(t)(r)
  }

  // The promises the design document speaks of, and what unswept rounds hold beyond them.
  function UnsweptPromise(t: nat): Round -> int
  {
    (r: Round) => if !r.swept then Promised(t)(r) else 0
  }

  function Spare(t: nat): Round -> int
  {
    (r: Round) => Unswept(t)(r) - UnsweptPromise(t)(r)
  }

  // What finalized rounds promise is outstanding exactly if the run revived no more than live rounds tie up
  // beyond their promises.
  lemma PromisesOutstandingExactly(d: Deployment, owner: uint256, steps: seq<Step>, token: nat)
    ensures var chain := After(d, owner, steps).chain;
            SumOver(chain.rounds, Promised(token)) <= Get(chain.outstanding, token) <==>
              RevivedIn(d, owner, steps, token) <= SumOver(chain.rounds, Unpromised(token))
  {
    AfterGap(d, owner, steps, token);
    SumOverSplits(After(d, owner, steps).chain.rounds, Owed(token), Promised(token), Unpromised(token));
  }

  // The balance covers what unswept finalized rounds promise exactly if what was claimed of rounds brought
  // back is within what unswept rounds hold beyond their promises and what is held beyond outstanding;
  // neither of these is negative.
  lemma PromisesHeldExactly(d: Deployment, owner: uint256, steps: seq<Step>, token: nat)
    requires CollisionFree(d.keccak, After(d, owner, steps).hashed)
    ensures var chain := After(d, owner, steps).chain;
            var spare := SumOver(chain.rounds, Spare(token));
            var excess := Get(chain.held, token) - Get(chain.outstanding, token);
            && spare >= 0 && excess >= 0
            && (SumOver(chain.rounds, UnsweptPromise(token)) <= Get(chain.held, token) <==>
                  SumOver(chain.rounds, Overdrawn(token)) <= spare + excess)
  {
    AfterTallied(d, owner, steps);
    var s := After(d, owner, steps);
    SpareNonNegative(HostOf(d), s, token);
    OutstandingTold(s, token);
    SumOverSplits(s.chain.rounds, Unswept(token), UnsweptPromise(token), Spare(token));
    assert Covered(s.chain, token);
  }

  lemma SpareNonNegative(h: Host, s: System, token: nat)
    requires Inv(h, s) && CollisionFree(h.keccak, s.hashed)
    ensures SumOver(s.chain.rounds, Spare(token)) >= 0
  {
    forall j | 0 <= j < |s.chain.rounds|
      ensures Spare(token)(s.chain.rounds[j]) >= 0
    {
      var r := s.chain.rounds[j];
      assert RoundOk(s.chain, j);
      OwedNonNegative(h, s, j);
      assert Promised(token)(r) <= Unswept(token)(r) || r.swept || r.token != token;
    }
    AllNonNegative(s.chain.rounds, Spare(token));
  }

  // Whatever the owner rescues, what is left is what live rounds tie up less what the run revived, and no
  // round and no other token is touched.
  lemma RescueTakesOnlyExcess(d: Deployment, owner: uint256, steps: seq<Step>, c: Call, token: uint256,
                              to: uint256, moved: bool)
    ensures var chain := After(d, owner, steps).chain;
            var o := Rescue(chain, c, token, to, moved);
            o.Done? ==>
              && Get(o.state.held, token)
                   == SumOver(o.state.rounds, Owed(token)) - RevivedIn(d, owner, steps, token)
              && o.state.rounds == chain.rounds
              && forall t: nat :: t != token ==> Get(o.state.held, t) == Get(chain.held, t)
  {
    AfterInv(d, owner, steps);
    AfterGap(d, owner, steps, token);
    RescueLeavesOutstanding(After(d, owner, steps).chain, c, token, to, moved);
  }

  // ---- Which results finalize ----------------------------------------------------------------

  // Only results of COMPUTE instructions finalize a round. In particular an attestation never does,
  // although its data equals the computation's: it is signed under an instruction id of its own.
  lemma OnlyComputeFinalizes(d: Deployment, owner: uint256, steps: seq<Step>, x: Signed)
    requires Next(HostOf(d), After(d, owner, steps), Finalize(x)).Some?
    ensures var s := After(d, owner, steps);
            && x.actionId in s.orders && s.orders[x.actionId].ComputeOrder?
            && d.keccak(s.orders[x.actionId].ciphertext) == x.data.policyCommitment
            && ComputeRound(d, s.orders[x.actionId].ciphertext).Some?
            && x.data == ResultOf(HostOf(d), ComputeRound(d, s.orders[x.actionId].ciphertext).value)
  {
    AfterInv(d, owner, steps);
    var s := After(d, owner, steps);
    assert SignedOk(HostOf(d), s, x) && RoundInv(HostOf(d), s, x.data.roundId);
  }

  // ---- Completion ----------------------------------------------------------------------------

  // What a result makes of the round, told from the computation.
  function Completed(h: Host, r: Round, c: ComputedRound, now: nat): Round
  {
    r.(status := Finalized, merkleRoot := c.root, totalAllocated := c.total, recipientCount := |c.table|,
       engineVersion := h.version, claimDeadline := Clock(now) + r.claimWindow)
  }

  // The machine runs the round's instruction, which leads to t, and its result x is accepted, which leads to u.
  ghost predicate CompletesBy(h: Host, s: System, id: nat, c: ComputedRound, t: System, x: Signed, u: System)
    requires id < |s.chain.rounds|
  {
    && Next(h, s, RunCompute(x.machine, s.chain.rounds[id].computeInstructionId)) == Some(t)
    && Next(h, t, Finalize(x)) == Some(u)
    && u.chain.rounds == s.chain.rounds[id := Completed(h, s.chain.rounds[id], c, s.now)]
  }

  // The registered machine can complete the round.
  ghost predicate Completes(h: Host, s: System, id: nat, c: ComputedRound)
    requires id < |s.chain.rounds|
  {
    exists t: System, x: Signed, u: System :: x.machine == s.chain.teeAddress && CompletesBy(h, s, id, c, t, x, u)
  }

  // What a computing round needs to be completed, besides its table.
  ghost predicate Ready(s: System, id: nat, c: ComputedRound)
  {
    && id < |s.chain.rounds| && s.chain.rounds[id].status == Computing && c.roundId == id && c.root != ZERO32
    && c.total <= s.chain.rounds[id].funded && s.chain.teeAddress != 0
    && Clock(s.now) + s.chain.rounds[id].claimWindow < UINT48
  }

  // After any run, a computing round whose ciphertext computes to a table of its own, with a root and
  // within its funding, is finalized by the registered machine running the instruction and anyone relaying
  // the result, as long as the clock has room for the claim window.
  lemma ComputingRoundFinalizes(d: Deployment, owner: uint256, steps: seq<Step>, id: nat, c: ComputedRound)
    requires Ready(After(d, owner, steps), id, c)
    requires HostOf(d).compute(CiphertextOf(After(d, owner, steps), id)) == Some(c)
    ensures var s := After(d, owner, steps); Completes(HostOf(d), s, id, c)
  {
    AfterInv(d, owner, steps);
    ReadyCompletes(HostOf(d), After(d, owner, steps), id, c);
  }

  lemma ReadyCompletes(h: Host, s: System, id: nat, c: ComputedRound)
    requires Inv(h, s) && Ready(s, id, c) && h.compute(CiphertextOf(s, id)) == Some(c)
    ensures Completes(h, s, id, c)
  {
    assert RoundInv(h, s, id);
    assert FaithfulAt(h, CiphertextOf(s, id));
    RanThenFinalized(h, s, id, c);
  }

  // The registered machine's result for a round that is ready is accepted.
  lemma ResultAccepted(h: Host, s: System, id: nat, c: ComputedRound, x: Signed)
    requires Ready(s, id, c) && c.table != [] && c.commitment == s.chain.rounds[id].policyCommitment && x in s.signed
    requires x == Signed(s.chain.teeAddress, s.chain.rounds[id].computeInstructionId, SUCCESS, ResultOf(h, c))
    ensures var rounds := s.chain.rounds[id := Finished(s.chain.rounds[id], x.data, s.now)];
            Next(h, s, Finalize(x)) == Some(s.(chain := s.chain.(rounds := rounds)))
  {
    FinalizeAccepts(s.chain, s.now, h.self, x.data, x.actionId);
  }

  lemma RanThenFinalized(h: Host, s: System, id: nat, c: ComputedRound)
    requires Ready(s, id, c) && h.compute(CiphertextOf(s, id)) == Some(c) && c.table != []
    requires s.chain.rounds[id].computeInstructionId in s.orders
    requires s.orders[s.chain.rounds[id].computeInstructionId].ComputeOrder?
    requires c.commitment == s.chain.rounds[id].policyCommitment
    ensures Completes(h, s, id, c)
  {
    var action, machine := s.chain.rounds[id].computeInstructionId, s.chain.teeAddress;
    var x := Signed(machine, action, SUCCESS, ResultOf(h, c));
    RunIsHandled(h, s, machine, action, CiphertextOf(s, id));
    var t := HandleCompute(h, s, machine, action, CiphertextOf(s, id));
    ComputeAdds(h, s, machine, action, CiphertextOf(s, id), c);
    ResultAccepted(h, t, id, c, x);
    var u := t.(chain := s.chain.(rounds := s.chain.rounds[id := Finished(s.chain.rounds[id], x.data, s.now)]));
    assert CompletesBy(h, s, id, c, t, x, u);
  }

  lemma RunIsHandled(h: Host, s: System, machine: uint256, action: Bytes32, ciphertext: seq<byte>)
    requires action in s.orders && s.orders[action] == ComputeOrder(ciphertext)
    ensures Next(h, s, RunCompute(machine, action)) == Some(HandleCompute(h, s, machine, action, ciphertext))
  {
  }

  // ---- Results stand -------------------------------------------------------------------------

  // Both rounds are bound to the one ciphertext that has the committed hash.
  lemma SameBehind(h: Host, s: System, t: System, id: nat)
    requires Inv(h, s) && Inv(h, t) && Follows(s, t) && CollisionFree(h.keccak, t.hashed)
    requires id < |s.chain.rounds| && s.chain.rounds[id].merkleRoot != ZERO32
    ensures id < |t.chain.rounds| && t.chain.rounds[id].merkleRoot != ZERO32
    ensures Computes(h, s, id) && Computes(h, t, id) && Behind(h, t, id) == Behind(h, s, id)
  {
    FewerHashed(h, s, t);
    assert RoundInv(h, s, id) && RoundOk(s.chain, id);
    assert RoundGrows(s.chain.rounds[id], t.chain.rounds[id]);
    assert RoundInv(h, t, id) && RoundOk(t.chain, id);
    SameCiphertext(h, t, id, s.orders[s.chain.rounds[id].computeInstructionId].ciphertext);
  }

  lemma ResultKept(h: Host, s: System, t: System, id: nat)
    requires Inv(h, s) && Inv(h, t) && Follows(s, t) && CollisionFree(h.keccak, t.hashed)
    requires id < |s.chain.rounds| && s.chain.rounds[id].merkleRoot != ZERO32
    ensures id < |t.chain.rounds| && Computes(h, s, id) && Computes(h, t, id) && Behind(h, t, id) == Behind(h, s, id)
    ensures var r, q := s.chain.rounds[id], t.chain.rounds[id];
            && q.merkleRoot == r.merkleRoot && q.totalAllocated == r.totalAllocated
            && q.recipientCount == r.recipientCount && q.engineVersion == r.engineVersion
  {
    SameBehind(h, s, t, id);
    FewerHashed(h, s, t);
    assert RoundInv(h, s, id) && RoundInv(h, t, id);
  }

  // What was written of a result is never rewritten with another value, even where a round is finalized
  // twice: its root, total, count and engine version stand, and so does the table behind them.
  lemma ResultStands(d: Deployment, owner: uint256, steps: seq<Step>, later: seq<Step>, id: nat)
    requires var s := After(d, owner, steps);
             && id < |s.chain.rounds| && s.chain.rounds[id].merkleRoot != ZERO32
             && CollisionFree(d.keccak, Execute(HostOf(d), s, later).hashed)
    ensures var s := After(d, owner, steps);
            var t := Execute(HostOf(d), s, later);
            && id < |t.chain.rounds| && TableOf(d, t, id) == TableOf(d, s, id)
            && var r, q := s.chain.rounds[id], t.chain.rounds[id];
               && q.merkleRoot == r.merkleRoot && q.totalAllocated == r.totalAllocated
               && q.recipientCount == r.recipientCount && q.engineVersion == r.engineVersion
  {
    var s := After(d, owner, steps);
    AfterInv(d, owner, steps);
    RunKeepsInv(HostOf(d), s, later);
    RunGrows(HostOf(d), s, later);
    ResultKept(HostOf(d), s, Execute(HostOf(d), s, later), id);
  }
}
