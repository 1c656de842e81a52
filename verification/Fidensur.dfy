/**
 The contract with its storage: rounds by id, claim bits in 256-bit words, explicit counters. Every
 entry point is proved to do to the abstract state what `Rounds` says, and nothing on a revert.
 */
module Fidensur {
  import opened Options
  import opened Bytes
  import opened Merkle
  import opened EngineMerkle
  import opened Rounds
  import opened Bitmap

  // The outcome the specification prescribes: its state on success, the old one on a revert.
  ghost predicate Agrees(before: State, after: State, err: Option<Error>, o: Outcome)
  {
    match o
    case Done(s) => err == None && after == s
    case Reverted(e) => err == Some(e) && after == before
  }

  ghost function RoundList(rounds: map<nat, Round>, n: nat): (l: seq<Round>)
    requires forall i: nat :: i < n ==> i in rounds
    ensures |l| == n && forall i: nat :: i < n ==> l[i] == rounds[i]
  {
    seq(n, i requires 0 <= i < n && i in rounds => rounds[i])
  }

  // Writing one round of the mapping is an update of the list.
  lemma Written(rounds: map<nat, Round>, n: nat, id: nat, r: Round)
    requires id < n && forall i: nat :: i < n ==> i in rounds
    ensures RoundList(rounds[id := r], n) == RoundList(rounds, n)[id := r]
  {
  }

  class Contract {
    const keccak: Hash
    const self: uint256

    var rounds: map<nat, Round>
    var words: Words
    var outstanding: map<nat, nat>
    var nextRoundId: nat
    var owner: uint256
    var teeAddress: uint256
    var entered: Lock

    // The calls of `requestCompute` that wait for the registry, innermost last.
    var pending: seq<Dispatch>

    // What the tokens say this contract holds, and what it has sent.
    var held: map<nat, nat>
    ghost var payments: seq<Payment>
    ghost var rescues: seq<Payment>

    // The pairs the claim words stand for.
    ghost var claimed: set<(nat, nat)>

    ghost predicate Valid()
      reads this
    {
      && (forall i: nat :: i in rounds <==> i < nextRoundId)
      && StandsFor(words, claimed)
    }

    ghost function View(): State
      reads this
      requires Valid()
    {
      State(RoundList(rounds, nextRoundId), claimed, outstanding, owner, teeAddress, entered, pending,
            held, payments, rescues)
    }

    constructor (hash: Hash, address: uint256, initialOwner: uint256)
      ensures Valid() && View() == Init(initialOwner) && keccak == hash && self == address
    {
      keccak, self := hash, address;
      rounds, words, outstanding, nextRoundId := map[], map[], map[], 0;
      owner, teeAddress, entered, pending, held := initialOwner, 0, Idle, [], map[];
      payments, rescues, claimed := [], [], {};
      EmptyStandsForNone();
    }

    // Deployment refuses registries that are absent or have no code.
    static method Deploy(hash: Hash, address: uint256, extensions: uint256, machines: uint256,
                         hasCode: uint256 -> bool, initialOwner: uint256)
        returns (err: Option<Error>, c: Contract?)
      ensures err == None <==> extensions != 0 && machines != 0 && hasCode(extensions) && hasCode(machines)
      ensures err == Some(ZeroAddress) <==> extensions == 0 || machines == 0
      ensures err == None || err == Some(ZeroAddress) || err == Some(NoCode)
      ensures err != None ==> c == null
      ensures err == None ==> c != null && fresh(c) && c.Valid() && c.View() == Init(initialOwner)
    {
      if extensions == 0 || machines == 0 {
        return Some(ZeroAddress), null;
      }
      if !hasCode(extensions) || !hasCode(machines) {
        return Some(NoCode), null;
      }
      var deployed := new Contract(hash, address, initialOwner);
      return None, deployed;
    }

    // ---- Value movement ----------------------------------------------------------------------

    method PayOutOf(token: uint256, to: uint256, amount: nat, moved: bool) returns (ok: bool)
      requires Valid()
      modifies this`held, this`payments
      ensures Valid()
      ensures var o := PayOut(old(View()), token, to, amount, moved);
              ok == o.Done? && View() == if ok then o.state else old(View())
    {
      if amount == 0 {
        return true;
      }
      if !moved || Get(held, token) < amount {
        return false;
      }
      held := held[token := Get(held, token) - amount];
      payments := payments + [Payment(token, to, amount)];
      return true;
    }

    method Collect(token: uint256, amount: nat, nativeValue: nat, moved: bool) returns (err: Option<Error>)
      requires Valid()
      modifies this`held
      ensures Valid()
      ensures err == if token == NATIVE then if nativeValue != amount then Some(UnexpectedNativeValue) else None
                     else if nativeValue != 0 then Some(UnexpectedNativeValue)
                     else if !moved then Some(TransferFailed) else None
      ensures View() == if err == None then Receive(old(View()), token, amount) else old(View())
    {
      if token == NATIVE {
        if nativeValue != amount {
          return Some(UnexpectedNativeValue);
        }
      } else {
        if nativeValue != 0 {
          return Some(UnexpectedNativeValue);
        }
        if !moved {
          return Some(TransferFailed);
        }
      }
      held := held[token := Get(held, token) + amount];
      return None;
    }

    method Write(id: nat, r: Round)
      requires Valid() && id < nextRoundId
      modifies this`rounds
      ensures Valid() && rounds == old(rounds)[id := r]
      ensures View() == old(View()).(rounds := old(View()).rounds[id := r])
    {
      Written(rounds, nextRoundId, id, r);
      rounds := rounds[id := r];
    }

    method Append(r: Round)
      requires Valid()
      modifies this`rounds, this`nextRoundId
      ensures Valid() && nextRoundId == old(nextRoundId) + 1
      ensures View() == old(View()).(rounds := old(View()).rounds + [r])
    {
      rounds := rounds[nextRoundId := r];
      nextRoundId := nextRoundId + 1;
      assert RoundList(rounds, nextRoundId - 1) == RoundList(old(rounds), old(nextRoundId));
    }

    // A round, what is owed, and the guard in one go.
    method Store(id: nat, r: Round, owed: map<nat, nat>, lock: Lock)
      requires Valid() && id < nextRoundId
      modifies this`rounds, this`outstanding, this`entered
      ensures Valid() && words == old(words)
      ensures View() == old(View()).(rounds := old(View()).rounds[id := r], outstanding := owed, lock := lock)
    {
      Written(rounds, nextRoundId, id, r);
      rounds, outstanding, entered := rounds[id := r], owed, lock;
    }

    method Hold(balances: map<nat, nat>)
      requires Valid()
      modifies this`held
      ensures Valid() && View() == old(View()).(held := balances)
    {
      held := balances;
    }

    method Guard(lock: Lock)
      requires Valid()
      modifies this`entered
      ensures Valid() && View() == old(View()).(lock := lock)
    {
      entered := lock;
    }

    method PutBack(rounds0: map<nat, Round>, outstanding0: map<nat, nat>)
      requires Valid() && forall i: nat :: i in rounds0 <==> i < nextRoundId
      modifies this`rounds, this`outstanding
      ensures Valid()
      ensures View() == old(View()).(rounds := RoundList(rounds0, nextRoundId), outstanding := outstanding0)
    {
      rounds, outstanding := rounds0, outstanding0;
    }

    // Effects first, then the payment; a failed payment undoes the effects.
    method ReleaseAndPay(id: nat, r: Round, to: uint256, amount: nat, moved: bool) returns (ok: bool)
      requires Valid() && id < nextRoundId && amount <= Get(outstanding, r.token)
      modifies this`rounds, this`outstanding, this`entered, this`held, this`payments
      ensures Valid()
      ensures var o := PayOut(Release(old(View()), id, r, amount), r.token, to, amount, moved);
              ok == o.Done? && View() == if ok then o.state else old(View())
    {
      var rounds0, outstanding0 := rounds, outstanding;
      ghost var before := View();
      assert before.rounds == RoundList(rounds0, nextRoundId) && before.outstanding == outstanding0;
      Store(id, r, outstanding[r.token := Get(outstanding, r.token) - amount], entered);
      ok := PayOutOf(r.token, to, amount, moved);
      if !ok {
        PutBack(rounds0, outstanding0);
        assert View() == before;
      }
    }

    // ---- Organization side -------------------------------------------------------------------

    method CreateRoundFor(c: Call, token: uint256, window: nat) returns (err: Option<Error>, roundId: nat)
      requires Valid()
      modifies this`rounds, this`nextRoundId
      ensures Valid() && Agrees(old(View()), View(), err, CreateRound(old(View()), c, token, window))
      ensures err == None ==> roundId == old(nextRoundId) && roundId in rounds
    {
      if window < MIN_CLAIM_WINDOW || window > MAX_CLAIM_WINDOW {
        return Some(InvalidClaimWindow), 0;
      }
      if nextRoundId + 1 >= UINT256 {
        return Some(Panic), 0;
      }
      roundId := nextRoundId;
      Append(Round(c.sender, Open, false, 0, window, token, 0, 0, 0, 0, 0, ZERO32, ZERO32, ZERO32, ZERO32));
      return None, roundId;
    }

    method EnterFund(c: Call, id: nat, amount: nat, moved: bool) returns (err: Option<Error>)
      requires Valid()
      modifies this`held, this`entered
      ensures Valid() && Agrees(old(View()), View(), err, FundEnter(old(View()), c, id, amount, moved))
    {
      if entered != Idle {
        return Some(ReentrantCall);
      }
      if id >= nextRoundId {
        return Some(NoSuchRound);
      }
      var r := rounds[id];
      if r.status != Open {
        return Some(WrongStatus);
      }
      if amount == 0 {
        return Some(ZeroAmount);
      }
      var before := held;
      err := Collect(r.token, amount, c.value, moved);
      if err != None {
        return;
      }
      if r.funded + amount >= UINT256 || Get(outstanding, r.token) + amount >= UINT256 {
        Hold(before);
        return Some(Panic);
      }
      Guard(Funding(id, amount));
    }

    method SettleFund() returns (err: Option<Error>)
      requires Valid()
      modifies this`rounds, this`outstanding, this`entered
      ensures Valid() && Agrees(old(View()), View(), err, FundSettle(old(View())))
    {
      if entered == Idle || entered.roundId >= nextRoundId {
        return Some(Panic);
      }
      var id, amount := entered.roundId, entered.amount;
      var r := rounds[id];
      Store(id, r.(funded := r.funded + amount), outstanding[r.token := Get(outstanding, r.token) + amount], Idle);
      return None;
    }

    method SubmitPolicyFor(c: Call, id: nat, commitment: Bytes32) returns (err: Option<Error>)
      requires Valid()
      modifies this`rounds
      ensures Valid() && Agrees(old(View()), View(), err, SubmitPolicy(old(View()), c, id, commitment))
    {
      if id >= nextRoundId {
        return Some(NoSuchRound);
      }
      var r := rounds[id];
      if r.status != Open {
        return Some(WrongStatus);
      }
      if c.sender != r.organization {
        return Some(NotOrganization);
      }
      if commitment == ZERO32 {
        return Some(EmptyCommitment);
      }
      if r.funded == 0 {
        return Some(NothingFunded);
      }
      Write(id, r.(policyCommitment := commitment, status := Committed));
      return None;
    }

    method EnterComputeFor(c: Call, id: nat, ciphertext: seq<byte>, machineFound: bool) returns (err: Option<Error>)
      requires Valid()
      modifies this`pending
      ensures Valid()
      ensures Agrees(old(View()), View(), err, EnterCompute(old(View()), c, keccak, id, ciphertext, machineFound))
    {
      if id >= nextRoundId {
        return Some(NoSuchRound);
      }
      var r := rounds[id];
      if c.sender != r.organization {
        return Some(NotOrganization);
      }
      if |ciphertext| == 0 {
        return Some(EmptyCiphertext);
      }
      if r.status == Computing {
        var earliest := r.computeRequestedAt + RETRY_TIMEOUT;
        if earliest >= UINT48 {
          return Some(Panic);
        }
        if Clock(c.now) < earliest {
          return Some(RetryTooSoon);
        }
      } else if r.status != Committed {
        return Some(WrongStatus);
      }
      if keccak(ciphertext) != r.policyCommitment {
        return Some(CiphertextMismatch);
      }
      if !machineFound {
        return Some(NoTeeAvailable);
      }
      pending := pending + [Dispatch(id, ciphertext)];
      return None;
    }

    // The registry has answered; control was with the caller in between.
    method RecordComputeFor(now: nat, answer: Bytes32) returns (err: Option<Error>)
      requires Valid()
      modifies this`pending, this`rounds
      ensures Valid() && Agrees(old(View()), View(), err, RecordCompute(old(View()), now, answer))
    {
      if |pending| == 0 {
        return Some(Panic);
      }
      var n := |pending| - 1;
      var id := pending[n].roundId;
      if id >= nextRoundId {
        return Some(Panic);
      }
      var r := rounds[id];
      Write(id, r.(computeInstructionId := answer, computeRequestedAt := Clock(now), status := Computing));
      pending := pending[..n];
      return None;
    }

    // What is sent is stamped with the caller and with the round's own commitment; nothing is stored.
    method RequestDisclosureFor(c: Call, id: nat, key: seq<byte>, machineFound: bool) returns (answer: Request)
      requires Valid()
      ensures answer == RequestDisclosure(View(), c, id, key, machineFound)
      ensures answer.Sent? ==>
                && id in rounds && answer.order.DiscloseOrder? && answer.order.roundId == id
                && answer.order.requester == c.sender && answer.order.commitment == rounds[id].policyCommitment
                && (rounds[id].status == Computing || rounds[id].status == Finalized)
    {
      if id >= nextRoundId {
        return Declined(NoSuchRound);
      }
      var r := rounds[id];
      if r.status != Computing && r.status != Finalized {
        return Declined(WrongStatus);
      }
      if |key| != 33 && |key| != 65 {
        return Declined(InvalidDisclosureKey);
      }
      if !machineFound {
        return Declined(NoTeeAvailable);
      }
      return Sent(DiscloseOrder(id, c.sender, r.policyCommitment, key));
    }

    method RequestAttestationFor(id: nat, machineFound: bool) returns (answer: Request)
      requires Valid()
      ensures answer == RequestAttestation(View(), id, machineFound)
      ensures answer.Sent? ==>
                && id in rounds && answer.order == AttestOrder(id, rounds[id].policyCommitment)
                && (rounds[id].status == Computing || rounds[id].status == Finalized)
    {
      if id >= nextRoundId {
        return Declined(NoSuchRound);
      }
      var r := rounds[id];
      if r.status != Computing && r.status != Finalized {
        return Declined(WrongStatus);
      }
      if !machineFound {
        return Declined(NoTeeAvailable);
      }
      return Sent(AttestOrder(id, r.policyCommitment));
    }

    // ---- Finalization ------------------------------------------------------------------------

    method Finalize(now: nat, res: AllocationResult, actionId: Bytes32, status: nat, signer: uint256)
        returns (err: Option<Error>)
      requires Valid()
      modifies this`rounds
      ensures Valid()
      ensures Agrees(old(View()), View(), err, FinalizeRound(old(View()), now, self, res, actionId, status, signer))
    {
      if teeAddress == 0 {
        return Some(TeeAddressNotSet);
      }
      if status != SUCCESS {
        return Some(TeeReportedFailure);
      }
      if signer != teeAddress {
        return Some(UnexpectedSigner);
      }
      err := Apply(now, res, actionId);
    }

    method Apply(now: nat, res: AllocationResult, actionId: Bytes32) returns (err: Option<Error>)
      requires Valid()
      modifies this`rounds
      ensures Valid() && Agrees(old(View()), View(), err, ApplyResult(old(View()), now, self, res, actionId))
    {
      if res.contractAddr != self {
        return Some(ResultNotForThisContract);
      }
      if res.roundId >= nextRoundId {
        return Some(NoSuchRound);
      }
      var r := rounds[res.roundId];
      assert r == View().rounds[res.roundId];
      if r.status != Computing {
        return Some(WrongStatus);
      }
      if actionId != r.computeInstructionId {
        return Some(ResultNotForThisRound);
      }
      if res.policyCommitment != r.policyCommitment {
        return Some(PolicyCommitmentMismatch);
      }
      if res.merkleRoot == ZERO32 {
        return Some(EmptyMerkleRoot);
      }
      if res.recipientCount == 0 {
        return Some(NoRecipients);
      }
      if res.totalAllocated > r.funded {
        return Some(OverAllocated);
      }
      if Clock(now) + r.claimWindow >= UINT48 {
        return Some(Panic);
      }
      Write(res.roundId, r.(
        merkleRoot := res.merkleRoot, totalAllocated := res.totalAllocated,
        recipientCount := res.recipientCount, engineVersion := res.engineVersion,
        claimDeadline := Clock(now) + r.claimWindow, status := Finalized));
      return None;
    }

    // ---- Recipient side and wind-down --------------------------------------------------------

    method IsClaimedAt(id: nat, index: nat) returns (b: bool)
      requires Valid()
      ensures b <==> (id, index) in claimed
    {
      assert AgreeAt(words, claimed, id, index);
      b := IsClaimed(words, id, index);
    }

    method ClaimFor(c: Call, id: nat, index: uint256, amount: uint256, proof: seq<Bytes32>, moved: bool)
        returns (err: Option<Error>)
      requires Valid()
      modifies this`words, this`claimed, this`rounds, this`outstanding, this`entered, this`held, this`payments
      ensures Valid()
      ensures Agrees(old(View()), View(), err, Claim(old(View()), c, keccak, id, index, amount, proof, moved))
    {
      if entered != Idle {
        return Some(ReentrantCall);
      }
      if id >= nextRoundId {
        return Some(NoSuchRound);
      }
      var r := rounds[id];
      if r.status != Finalized {
        return Some(WrongStatus);
      }
      if Clock(c.now) > r.claimDeadline {
        return Some(ClaimWindowClosed);
      }
      var already := IsClaimedAt(id, index);
      if already {
        return Some(AlreadyClaimed);
      }
      var proved := VerifyProof(keccak, r.merkleRoot, LeafHash(keccak, id, index, c.sender, amount), proof);
      if r.merkleRoot == ZERO32 || !proved {
        return Some(BadMerkleProof);
      }
      err := PerformClaim(id, index, c.sender, amount, moved);
    }

    method Mark(id: nat, index: nat)
      requires Valid()
      modifies this`words, this`claimed
      ensures Valid() && claimed == old(claimed) + {(id, index)}
      ensures View() == old(View()).(claimed := old(View()).claimed + {(id, index)})
    {
      SetClaimedAdds(words, claimed, id, index);
      words := SetClaimed(words, id, index);
      claimed := claimed + {(id, index)};
    }

    method PerformClaim(id: nat, index: uint256, to: uint256, amount: uint256, moved: bool)
        returns (err: Option<Error>)
      requires Valid() && id < nextRoundId
      modifies this`words, this`claimed, this`rounds, this`outstanding, this`entered, this`held, this`payments
      ensures Valid()
      ensures Agrees(old(View()), View(), err, PayClaim(old(View()), id, index, to, amount, moved))
    {
      var r := rounds[id];
      assert r == View().rounds[id];
      if r.totalClaimed + amount >= UINT256 || Get(outstanding, r.token) < amount {
        return Some(Panic);
      }
      var ok := MarkAndPay(id, index, r.(totalClaimed := r.totalClaimed + amount), to, amount, moved);
      return if ok then None else Some(TransferFailed);
    }

    // The claim bit and the totals are written before the payment; a failed payment undoes them.
    method MarkAndPay(id: nat, index: uint256, r: Round, to: uint256, amount: uint256, moved: bool) returns (ok: bool)
      requires Valid() && id < nextRoundId && amount <= Get(outstanding, r.token)
      modifies this`words, this`claimed, this`rounds, this`outstanding, this`entered, this`held, this`payments
      ensures Valid()
      ensures var marked := old(View()).(claimed := old(View()).claimed + {(id, index)});
              var o := PayOut(Release(marked, id, r, amount), r.token, to, amount, moved);
              ok == o.Done? && View() == if ok then o.state else old(View())
    {
      var words0 := words;
      Mark(id, index);
      ok := ReleaseAndPay(id, r, to, amount, moved);
      if !ok {
        words, claimed := words0, old(claimed);
      }
    }

    // Writes the ending of a round and sends what it still ties up.
    method WindDownFor(id: nat, status: Status, amount: int, moved: bool) returns (err: Option<Error>)
      requires Valid() && id < nextRoundId
      modifies this`rounds, this`outstanding, this`entered, this`held, this`payments
      ensures Valid() && Agrees(old(View()), View(), err, WindDown(old(View()), id, status, amount, moved))
    {
      var r := rounds[id];
      if amount < 0 || Get(outstanding, r.token) < amount {
        return Some(Panic);
      }
      var ok := ReleaseAndPay(id, r.(swept := true, status := status), r.organization, amount, moved);
      return if ok then None else Some(TransferFailed);
    }

    method CloseRoundFor(c: Call, id: nat, moved: bool) returns (err: Option<Error>)
      requires Valid()
      modifies this`rounds, this`outstanding, this`entered, this`held, this`payments
      ensures Valid() && Agrees(old(View()), View(), err, CloseRound(old(View()), c, id, moved))
    {
      if entered != Idle {
        return Some(ReentrantCall);
      }
      if id >= nextRoundId {
        return Some(NoSuchRound);
      }
      var r := rounds[id];
      if r.status != Finalized {
        return Some(WrongStatus);
      }
      if Clock(c.now) <= r.claimDeadline {
        return Some(ClaimWindowStillOpen);
      }
      if r.swept {
        return Some(AlreadySwept);
      }
      err := WindDownFor(id, Closed, r.funded - r.totalClaimed, moved);
    }

    method CancelRoundFor(c: Call, id: nat, moved: bool) returns (err: Option<Error>)
      requires Valid()
      modifies this`rounds, this`outstanding, this`entered, this`held, this`payments
      ensures Valid() && Agrees(old(View()), View(), err, CancelRound(old(View()), c, id, moved))
    {
      if entered != Idle {
        return Some(ReentrantCall);
      }
      if id >= nextRoundId {
        return Some(NoSuchRound);
      }
      var r := rounds[id];
      if r.status != Open && r.status != Committed {
        return Some(WrongStatus);
      }
      if c.sender != r.organization {
        return Some(NotOrganization);
      }
      err := WindDownFor(id, Cancelled, r.funded, moved);
    }

    // ---- Owner side --------------------------------------------------------------------------

    method SetTee(c: Call, tee: uint256) returns (err: Option<Error>)
      requires Valid()
      modifies this`teeAddress
      ensures Valid() && Agrees(old(View()), View(), err, SetTeeAddress(old(View()), c, tee))
    {
      if c.sender != owner {
        return Some(NotOwner);
      }
      if tee == 0 {
        return Some(ZeroAddress);
      }
      teeAddress := tee;
      return None;
    }

    method RescueFor(c: Call, token: uint256, to: uint256, moved: bool) returns (err: Option<Error>)
      requires Valid()
      modifies this`held, this`rescues
      ensures Valid() && Agrees(old(View()), View(), err, Rescue(old(View()), c, token, to, moved))
    {
      if c.sender != owner {
        return Some(NotOwner);
      }
      if entered != Idle {
        return Some(ReentrantCall);
      }
      if to == 0 {
        return Some(ZeroAddress);
      }
      var balance, owed := Get(held, token), Get(outstanding, token);
      if balance <= owed {
        return Some(NothingToRescue);
      }
      if !moved {
        return Some(TransferFailed);
      }
      held := held[token := owed];
      rescues := rescues + [Payment(token, to, balance - owed)];
      return None;
    }
  }
}
