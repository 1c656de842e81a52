/**
 What each entry point of the contract accepts, and all that an accepted call writes, told from the stored
 fields and the call. Money held and promised is followed over whole runs in `Ledger`.
 */
module Entries {
  import opened Bytes
  import opened Merkle
  import opened Rounds

  // All maps agree but for one token.
  ghost predicate OnlyToken(m: map<nat, nat>, n: map<nat, nat>, token: nat, amount: int)
  {
    && Get(n, token) == Get(m, token) + amount
    && forall k: nat :: k != token ==> Get(n, k) == Get(m, k)
  }

  // ---- Organization side ---------------------------------------------------------------------

  // Anyone may open a round, with any token and a window between an hour and a year; the round belongs to the
  // caller, holds nothing and has decided nothing.
  lemma CreateExactly(s: State, c: Call, token: uint256, window: nat)
    ensures var o := CreateRound(s, c, token, window);
            && (o.Done? <==> 3600 <= window <= 365 * 86400 && |s.rounds| + 1 < UINT256)
            && (o.Done? ==>
                  && |o.state.rounds| == |s.rounds| + 1 && o.state.rounds[..|s.rounds|] == s.rounds
                  && o.state == s.(rounds := o.state.rounds)
                  && var r := o.state.rounds[|s.rounds|];
                     && r.organization == c.sender && r.token == token && r.claimWindow == window
                     && r.status == Open && !r.swept && r.funded == r.totalAllocated == r.totalClaimed == 0
                     && r.policyCommitment == r.merkleRoot == r.computeInstructionId == ZERO32)
  {
  }

  // Funding is taken for open rounds only, in the round's token and of exactly the amount named.
  lemma FundEnterExactly(s: State, c: Call, id: nat, amount: nat, moved: bool)
    ensures var o := FundEnter(s, c, id, amount, moved);
            && (o.Done? <==>
                  && s.lock == Idle && id < |s.rounds| && s.rounds[id].status == Open && amount > 0
                  && (if s.rounds[id].token == 0 then c.value == amount else c.value == 0 && moved)
                  && s.rounds[id].funded + amount < UINT256
                  && Get(s.outstanding, s.rounds[id].token) + amount < UINT256)
            && (o.Done? ==>
                  && o.state == s.(lock := o.state.lock, held := o.state.held) && o.state.lock == Funding(id, amount)
                  && OnlyToken(s.held, o.state.held, s.rounds[id].token, amount))
  {
  }

  // Then exactly what was taken is credited to that round and to its token, for every token and every
  // top-up, and to nothing else.
  lemma FundSettleExactly(s: State)
    ensures var o := FundSettle(s);
            && (o.Done? <==> s.lock.Funding? && s.lock.roundId < |s.rounds|)
            && (o.Done? ==>
                  var r := s.rounds[s.lock.roundId];
                  && o.state.rounds == s.rounds[s.lock.roundId := r.(funded := r.funded + s.lock.amount)]
                  && OnlyToken(s.outstanding, o.state.outstanding, r.token, s.lock.amount)
                  && o.state == s.(rounds := o.state.rounds, outstanding := o.state.outstanding, lock := Idle))
  {
  }

  // Both together: an accepted call that nobody interrupts.
  lemma FundExactly(s: State, c: Call, id: nat, amount: nat, moved: bool)
    requires FundEnter(s, c, id, amount, moved).Done?
    ensures var o := FundSettle(FundEnter(s, c, id, amount, moved).state);
            && o.Done? && id < |s.rounds|
            && var r := s.rounds[id];
               && o.state.rounds == s.rounds[id := r.(funded := r.funded + amount)]
               && OnlyToken(s.outstanding, o.state.outstanding, r.token, amount)
               && OnlyToken(s.held, o.state.held, r.token, amount)
               && o.state == s.(rounds := o.state.rounds, outstanding := o.state.outstanding, held := o.state.held)
  {
    FundEnterExactly(s, c, id, amount, moved);
    FundSettleExactly(FundEnter(s, c, id, amount, moved).state);
  }

  // Only the round's organization commits a policy, once, to an open round that holds something.
  lemma SubmitExactly(s: State, c: Call, id: nat, commitment: Bytes32)
    ensures var o := SubmitPolicy(s, c, id, commitment);
            && (o.Done? <==>
                  && id < |s.rounds| && s.rounds[id].status == Open && c.sender == s.rounds[id].organization
                  && commitment != ZERO32 && s.rounds[id].funded > 0)
            && (o.Done? ==>
                  && o.state == s.(rounds := o.state.rounds)
                  && o.state.rounds
                       == s.rounds[id := s.rounds[id].(policyCommitment := commitment, status := Committed)])
  {
  }

  // Whether the round can be dispatched now: for the first time, or again half an hour after the last.
  predicate Due(r: Round, now: nat)
  {
    || r.status == Committed
    || (r.status == Computing && r.computeRequestedAt + 1800 < UINT48 && now % UINT48 >= r.computeRequestedAt + 1800)
  }

  // Only the round's organization dispatches it, with the ciphertext it committed to.
  lemma DispatchExactly(s: State, c: Call, keccak: Hash, id: nat, ciphertext: seq<byte>, machineFound: bool)
    ensures var o := EnterCompute(s, c, keccak, id, ciphertext, machineFound);
            && (o.Done? <==>
                  && id < |s.rounds| && c.sender == s.rounds[id].organization && ciphertext != []
                  && Due(s.rounds[id], c.now) && keccak(ciphertext) == s.rounds[id].policyCommitment && machineFound)
            && (o.Done? ==> o.state == s.(pending := s.pending + [Dispatch(id, ciphertext)]))
  {
  }

  // The answer is written to the round of the innermost waiting call.
  lemma RecordExactly(s: State, now: nat, answer: Bytes32)
    ensures var o := RecordCompute(s, now, answer);
            && (o.Done? <==> s.pending != [] && s.pending[|s.pending| - 1].roundId < |s.rounds|)
            && (o.Done? ==>
                  var n := |s.pending| - 1;
                  var id := s.pending[n].roundId;
                  && o.state == s.(rounds := o.state.rounds, pending := s.pending[..n])
                  && o.state.rounds == s.rounds[id := s.rounds[id].(computeInstructionId := answer, status := Computing,
                                                                   computeRequestedAt := now % UINT48)])
  {
  }

  // A disclosure may be asked for by anyone, for themselves, once the round was dispatched and until it is over.
  lemma DisclosureExactly(s: State, c: Call, id: nat, key: seq<byte>, machineFound: bool)
    ensures var q := RequestDisclosure(s, c, id, key, machineFound);
            && (q.Sent? <==>
                  && id < |s.rounds| && (s.rounds[id].status == Computing || s.rounds[id].status == Finalized)
                  && (|key| == 33 || |key| == 65) && machineFound)
            && (q.Sent? ==> q.order == DiscloseOrder(id, c.sender, s.rounds[id].policyCommitment, key))
  {
  }

  lemma AttestationExactly(s: State, id: nat, machineFound: bool)
    ensures var q := RequestAttestation(s, id, machineFound);
            && (q.Sent? <==>
                  && id < |s.rounds| && (s.rounds[id].status == Computing || s.rounds[id].status == Finalized)
                  && machineFound)
            && (q.Sent? ==> q.order == AttestOrder(id, s.rounds[id].policyCommitment))
  {
  }

  // ---- Finalization --------------------------------------------------------------------------

  // A result is applied exactly if the registered machine signed it as a success, for this contract, under the
  // round's current instruction and its commitment, with a root, recipients and a total within the funding.
  lemma FinalizeExactly(s: State, now: nat, self: uint256, res: AllocationResult, actionId: Bytes32, status: nat,
                        signer: uint256)
    ensures var o := FinalizeRound(s, now, self, res, actionId, status, signer);
            && (o.Done? <==>
                  && s.teeAddress != 0 && signer == s.teeAddress && status == 1 && res.contractAddr == self
                  && res.roundId < |s.rounds|
                  && var r := s.rounds[res.roundId];
                     && r.status == Computing && r.computeInstructionId == actionId
                     && r.policyCommitment == res.policyCommitment && res.merkleRoot != ZERO32
                     && res.recipientCount > 0 && res.totalAllocated <= r.funded
                     && now % UINT48 + r.claimWindow < UINT48)
            && (o.Done? ==>
                  var r := s.rounds[res.roundId];
                  && o.state == s.(rounds := o.state.rounds)
                  && o.state.rounds == s.rounds[res.roundId := r.(
                       status := Finalized, merkleRoot := res.merkleRoot, totalAllocated := res.totalAllocated,
                       recipientCount := res.recipientCount, engineVersion := res.engineVersion,
                       claimDeadline := now % UINT48 + r.claimWindow)])
  {
  }

  // ---- Recipient side ------------------------------------------------------------------------

  // Nothing is sent for nothing; otherwise the recipient's call went through and is logged.
  ghost predicate PaidTo(s: State, t: State, token: uint256, to: uint256, amount: nat)
  {
    && OnlyToken(s.held, t.held, token, 0 - amount)
    && t.payments == s.payments + (if amount == 0 then [] else [Payment(token, to, amount)])
  }

  predicate CanPay(s: State, token: uint256, amount: nat, moved: bool)
  {
    amount > 0 ==> moved && amount <= Get(s.held, token)
  }

  // All that a claim asks of the round and the proof.
  predicate Claimable(s: State, c: Call, keccak: Hash, id: nat, index: uint256, amount: uint256, proof: seq<Bytes32>)
  {
    && s.lock == Idle && id < |s.rounds| && (id, index) !in s.claimed
    && var r := s.rounds[id];
       && r.status == Finalized && c.now % UINT48 <= r.claimDeadline && r.merkleRoot != ZERO32
       && Climb(keccak, LeafHash(keccak, id, index, c.sender, amount), proof) == r.merkleRoot
  }

  // A claim is accepted exactly if it is in time, its row unclaimed, its proof leads to the root, its amount
  // outstanding and paid; it marks that row alone and pays the sender.
  lemma ClaimExactly(s: State, c: Call, keccak: Hash, id: nat, index: uint256, amount: uint256, proof: seq<Bytes32>,
                     moved: bool)
    ensures var o := Claim(s, c, keccak, id, index, amount, proof, moved);
            && (o.Done? <==>
                  && Claimable(s, c, keccak, id, index, amount, proof)
                  && s.rounds[id].totalClaimed + amount < UINT256
                  && amount <= Get(s.outstanding, s.rounds[id].token) && CanPay(s, s.rounds[id].token, amount, moved))
            && (o.Done? ==>
                  var r := s.rounds[id];
                  && o.state.rounds == s.rounds[id := r.(totalClaimed := r.totalClaimed + amount)]
                  && o.state.claimed == s.claimed + {(id, index)}
                  && OnlyToken(s.outstanding, o.state.outstanding, r.token, 0 - amount)
                  && PaidTo(s, o.state, r.token, c.sender, amount)
                  && o.state == s.(rounds := o.state.rounds, claimed := o.state.claimed,
                                   outstanding := o.state.outstanding, held := o.state.held,
                                   payments := o.state.payments))
  {
  }

  // ---- Wind-down -----------------------------------------------------------------------------

  // The round is over, its remainder is no longer promised, and the organization was sent it.
  ghost predicate Returned(s: State, t: State, id: nat, status: Status, rest: nat)
    requires id < |s.rounds|
  {
    var r := s.rounds[id];
    && t.rounds == s.rounds[id := r.(swept := true, status := status)]
    && OnlyToken(s.outstanding, t.outstanding, r.token, 0 - rest) && PaidTo(s, t, r.token, r.organization, rest)
    && t == s.(rounds := t.rounds, outstanding := t.outstanding, held := t.held, payments := t.payments)
  }

  // Anyone may close a finalized round once its deadline has passed, and once only.
  lemma CloseAccepted(s: State, c: Call, id: nat, moved: bool)
    ensures var o := CloseRound(s, c, id, moved);
            && (o.Done? <==>
                  && s.lock == Idle && id < |s.rounds| && s.rounds[id].status == Finalized
                  && c.now % UINT48 > s.rounds[id].claimDeadline && !s.rounds[id].swept
                  && 0 <= s.rounds[id].funded - s.rounds[id].totalClaimed <= Get(s.outstanding, s.rounds[id].token)
                  && CanPay(s, s.rounds[id].token, s.rounds[id].funded - s.rounds[id].totalClaimed, moved))
            && (o.Done? ==> Returned(s, o.state, id, Closed, s.rounds[id].funded - s.rounds[id].totalClaimed))
  {
  }

  // Only the organization cancels, only before anything was dispatched, and gets all it funded.
  lemma CancelAccepted(s: State, c: Call, id: nat, moved: bool)
    ensures var o := CancelRound(s, c, id, moved);
            && (o.Done? <==>
                  && s.lock == Idle && id < |s.rounds| && c.sender == s.rounds[id].organization
                  && (s.rounds[id].status == Open || s.rounds[id].status == Committed)
                  && s.rounds[id].funded <= Get(s.outstanding, s.rounds[id].token)
                  && CanPay(s, s.rounds[id].token, s.rounds[id].funded, moved))
            && (o.Done? ==> Returned(s, o.state, id, Cancelled, s.rounds[id].funded))
  {
  }

  // ---- Owner side ----------------------------------------------------------------------------

  // Only the owner registers a machine, and never the zero address.
  lemma SetTeeExactly(s: State, c: Call, tee: uint256)
    ensures var o := SetTeeAddress(s, c, tee);
            && (o.Done? <==> c.sender == s.owner && tee != 0)
            && (o.Done? ==> o.state == s.(teeAddress := tee))
  {
  }

  // Only the owner rescues, only what is held beyond what is outstanding, and all of it.
  lemma RescueExactly(s: State, c: Call, token: uint256, to: uint256, moved: bool)
    ensures var o := Rescue(s, c, token, to, moved);
            && (o.Done? <==>
                  && c.sender == s.owner && s.lock == Idle && to != 0 && moved
                  && Get(s.held, token) > Get(s.outstanding, token))
            && (o.Done? ==>
                  var excess := Get(s.held, token) - Get(s.outstanding, token);
                  && OnlyToken(s.held, o.state.held, token, 0 - excess)
                  && o.state.rescues == s.rescues + [Payment(token, to, excess)]
                  && o.state == s.(held := o.state.held, rescues := o.state.rescues))
  {
  }
}
