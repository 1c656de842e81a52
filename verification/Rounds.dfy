/**
 The round contract as a state machine: one function per entry point, from a state and a call to the
 next state or a revert. A revert leaves no trace, as on the chain.

 Token and registry behaviour enter as arguments: whether a transfer went through, and which
 instruction id the registry answered with.
 */
module Rounds {
  import opened Bytes
  import opened Merkle

  type uint256 = n: nat | n < UINT256

  // uint48 values wrap at this bound when cast, and revert on overflow when added.
  const UINT48: nat := 0x1_0000_0000_0000

  function Clock(now: nat): nat
  {
    now % UINT48
  }

  const RETRY_TIMEOUT: nat := 1800
  const MIN_CLAIM_WINDOW: nat := 3600
  const MAX_CLAIM_WINDOW: nat := 31536000
  const NATIVE: uint256 := 0
  const SUCCESS: nat := 1

  datatype Status = Open | Committed | Computing | Finalized | Closed | Cancelled

  datatype Round = Round(organization: uint256, status: Status, swept: bool, recipientCount: nat,
                         claimWindow: nat, token: uint256, claimDeadline: nat, computeRequestedAt: nat,
                         funded: nat, totalAllocated: nat, totalClaimed: nat,
                         policyCommitment: Bytes32, merkleRoot: Bytes32, computeInstructionId: Bytes32,
                         engineVersion: Bytes32)

  // A computation was asked for, and may have been finalized since.
  predicate Dispatched(r: Round)
  {
    r.status == Computing || r.status == Finalized || r.status == Closed
  }

  predicate Settled(r: Round)
  {
    r.status == Finalized || r.status == Closed
  }

  predicate Live(r: Round)
  {
    r.status != Closed && r.status != Cancelled
  }

  datatype Payment = Payment(token: uint256, to: uint256, amount: nat)

  // The reentrancy guard. It is observable only while `fund` waits for the token: every other guarded
  // call moves value as its last action.
  datatype Lock = Idle | Funding(roundId: nat, amount: nat)

  // A `requestCompute` that waits for the registry; these calls may nest.
  datatype Dispatch = Dispatch(roundId: nat, ciphertext: seq<byte>)

  datatype State = State(rounds: seq<Round>, claimed: set<(nat, nat)>, outstanding: map<nat, nat>,
                         owner: uint256, teeAddress: uint256, lock: Lock, pending: seq<Dispatch>,
                         held: map<nat, nat>, payments: seq<Payment>, rescues: seq<Payment>)

  datatype Call = Call(sender: uint256, value: nat, now: nat)

  datatype AllocationResult = AllocationResult(contractAddr: uint256, roundId: uint256,
                                               policyCommitment: Bytes32, merkleRoot: Bytes32,
                                               totalAllocated: nat, recipientCount: nat, engineVersion: Bytes32)

  datatype Error =
    | NoSuchRound | WrongStatus | NotOrganization | InvalidClaimWindow | ZeroAmount | NothingFunded
    | EmptyCommitment | CiphertextMismatch | EmptyCiphertext | RetryTooSoon | NoTeeAvailable
    | TeeAddressNotSet | TeeReportedFailure | UnexpectedSigner | ResultNotForThisContract
    | ResultNotForThisRound | PolicyCommitmentMismatch | EmptyMerkleRoot | NoRecipients | OverAllocated
    | AlreadyClaimed | ClaimWindowClosed | ClaimWindowStillOpen | BadMerkleProof | AlreadySwept
    | InvalidDisclosureKey | NothingToRescue | NotOwner | ZeroAddress | ReentrantCall
    | UnexpectedNativeValue | TransferFailed | NoCode | Panic

  datatype Outcome = Done(state: State) | Reverted(error: Error)

  function Get(m: map<nat, nat>, k: nat): nat
  {
    if k in m then m[k] else 0
  }

  function Init(owner: uint256): State
  {
    State([], {}, map[], owner, 0, Idle, [], map[], [], [])
  }

  // ---- Value movement ------------------------------------------------------------------------

  // Pays out of this contract's own balance; nothing is called for a zero amount.
  function PayOut(s: State, token: uint256, to: uint256, amount: nat, moved: bool): Outcome
  {
    if amount == 0 then Done(s)
    else if !moved || Get(s.held, token) < amount then Reverted(TransferFailed)
    else Done(s.(held := s.held[token := Get(s.held, token) - amount],
                 payments := s.payments + [Payment(token, to, amount)]))
  }

  // Writes a round together with what it no longer ties up.
  function Release(s: State, id: nat, r: Round, amount: nat): State
    requires id < |s.rounds| && amount <= Get(s.outstanding, r.token)
  {
    s.(rounds := s.rounds[id := r],
       outstanding := s.outstanding[r.token := Get(s.outstanding, r.token) - amount])
  }

  // Value that arrives without crediting any round.
  function Receive(s: State, token: uint256, amount: nat): State
  {
    s.(held := s.held[token := Get(s.held, token) + amount])
  }

  // ---- Organization side ---------------------------------------------------------------------

  function CreateRound(s: State, c: Call, token: uint256, window: nat): Outcome
  {
    if window < MIN_CLAIM_WINDOW || window > MAX_CLAIM_WINDOW then Reverted(InvalidClaimWindow)
    else if |s.rounds| + 1 >= UINT256 then Reverted(Panic)
    else Done(s.(rounds := s.rounds + [Round(c.sender, Open, false, 0, window, token, 0, 0, 0, 0, 0,
                                             ZERO32, ZERO32, ZERO32, ZERO32)]))
  }

  // `fund` up to the token call. The two checked additions come after that call; no call admitted in
  // between can change their operands, so deciding them here refuses the same transactions.
  function FundEnter(s: State, c: Call, id: nat, amount: nat, moved: bool): Outcome
  {
    if s.lock != Idle then Reverted(ReentrantCall)
    else if id >= |s.rounds| then Reverted(NoSuchRound)
    else
      var r := s.rounds[id];
      if r.status != Open then Reverted(WrongStatus)
      else if amount == 0 then Reverted(ZeroAmount)
      else if (if r.token == NATIVE then c.value != amount else c.value != 0) then Reverted(UnexpectedNativeValue)
      else if r.token != NATIVE && !moved then Reverted(TransferFailed)
      else if r.funded + amount >= UINT256 || Get(s.outstanding, r.token) + amount >= UINT256 then Reverted(Panic)
      else Done(s.(lock := Funding(id, amount), held := s.held[r.token := Get(s.held, r.token) + amount]))
  }

  // `fund` after the token call: the round is credited, whatever its status has become.
  function FundSettle(s: State): Outcome
  {
    match s.lock
    case Idle => Reverted(Panic)
    case Funding(id, amount) =>
      if id >= |s.rounds| then Reverted(Panic)
      else
        var r := s.rounds[id];
        Done(s.(rounds := s.rounds[id := r.(funded := r.funded + amount)],
                outstanding := s.outstanding[r.token := Get(s.outstanding, r.token) + amount],
                lock := Idle))
  }

  function SubmitPolicy(s: State, c: Call, id: nat, commitment: Bytes32): Outcome
  {
    if id >= |s.rounds| then Reverted(NoSuchRound)
    else
      var r := s.rounds[id];
      if r.status != Open then Reverted(WrongStatus)
      else if c.sender != r.organization then Reverted(NotOrganization)
      else if commitment == ZERO32 then Reverted(EmptyCommitment)
      else if r.funded == 0 then Reverted(NothingFunded)
      else Done(s.(rounds := s.rounds[id := r.(policyCommitment := commitment, status := Committed)]))
  }

  // `requestCompute` up to the registry call, which hands control to the caller with the refund of the
  // fee: the first dispatch, or a retry once the timeout has passed.
  function EnterCompute(s: State, c: Call, keccak: Hash, id: nat, ciphertext: seq<byte>, machineFound: bool): Outcome
  {
    if id >= |s.rounds| then Reverted(NoSuchRound)
    else
      var r := s.rounds[id];
      if c.sender != r.organization then Reverted(NotOrganization)
      else if ciphertext == [] then Reverted(EmptyCiphertext)
      else if r.status == Computing && r.computeRequestedAt + RETRY_TIMEOUT >= UINT48 then Reverted(Panic)
      else if r.status == Computing && Clock(c.now) < r.computeRequestedAt + RETRY_TIMEOUT then Reverted(RetryTooSoon)
      else if r.status != Computing && r.status != Committed then Reverted(WrongStatus)
      else if keccak(ciphertext) != r.policyCommitment then Reverted(CiphertextMismatch)
      else if !machineFound then Reverted(NoTeeAvailable)
      else Done(s.(pending := s.pending + [Dispatch(id, ciphertext)]))
  }

  // What the round looks like once the registry's answer is recorded, whatever it looked like before.
  function Recorded(r: Round, now: nat, answer: Bytes32): Round
  {
    r.(computeInstructionId := answer, computeRequestedAt := Clock(now), status := Computing)
  }

  // `requestCompute` after the registry call: three writes, and no check.
  function RecordCompute(s: State, now: nat, answer: Bytes32): Outcome
  {
    if s.pending == [] then Reverted(Panic)
    else
      var n := |s.pending| - 1;
      var id := s.pending[n].roundId;
      if id >= |s.rounds| then Reverted(Panic)
      else Done(s.(rounds := s.rounds[id := Recorded(s.rounds[id], now, answer)], pending := s.pending[..n]))
  }

  // A disclosure or attestation request changes no state. What it sends names the caller and the
  // committed hash, whatever the caller says.
  datatype Request = Sent(order: Order) | Declined(error: Error)

  datatype Order =
    | ComputeOrder(ciphertext: seq<byte>)
    | DiscloseOrder(roundId: nat, requester: uint256, commitment: Bytes32, key: seq<byte>)
    | AttestOrder(roundId: nat, commitment: Bytes32)

  function RequestDisclosure(s: State, c: Call, id: nat, key: seq<byte>, machineFound: bool): Request
  {
    if id >= |s.rounds| then Declined(NoSuchRound)
    else if s.rounds[id].status != Computing && s.rounds[id].status != Finalized then Declined(WrongStatus)
    else if |key| != 33 && |key| != 65 then Declined(InvalidDisclosureKey)
    else if !machineFound then Declined(NoTeeAvailable)
    else Sent(DiscloseOrder(id, c.sender, s.rounds[id].policyCommitment, key))
  }

  function RequestAttestation(s: State, id: nat, machineFound: bool): Request
  {
    if id >= |s.rounds| then Declined(NoSuchRound)
    else if s.rounds[id].status != Computing && s.rounds[id].status != Finalized then Declined(WrongStatus)
    else if !machineFound then Declined(NoTeeAvailable)
    else Sent(AttestOrder(id, s.rounds[id].policyCommitment))
  }

  // ---- Finalization --------------------------------------------------------------------------

  function ApplyResult(s: State, now: nat, self: uint256, res: AllocationResult, actionId: Bytes32): Outcome
  {
    if res.contractAddr != self then Reverted(ResultNotForThisContract)
    else if res.roundId >= |s.rounds| then Reverted(NoSuchRound)
    else
      var r := s.rounds[res.roundId];
      if r.status != Computing then Reverted(WrongStatus)
      else if actionId != r.computeInstructionId then Reverted(ResultNotForThisRound)
      else if res.policyCommitment != r.policyCommitment then Reverted(PolicyCommitmentMismatch)
      else if res.merkleRoot == ZERO32 then Reverted(EmptyMerkleRoot)
      else if res.recipientCount == 0 then Reverted(NoRecipients)
      else if res.totalAllocated > r.funded then Reverted(OverAllocated)
      else if Clock(now) + r.claimWindow >= UINT48 then Reverted(Panic)
      else Done(s.(rounds := s.rounds[res.roundId := r.(
                     merkleRoot := res.merkleRoot, totalAllocated := res.totalAllocated,
                     recipientCount := res.recipientCount, engineVersion := res.engineVersion,
                     claimDeadline := Clock(now) + r.claimWindow, status := Finalized)]))
  }

  // signer is who the signature over (res, actionId, status) recovers to.
  function FinalizeRound(s: State, now: nat, self: uint256, res: AllocationResult, actionId: Bytes32,
                         status: nat, signer: uint256): Outcome
  {
    if s.teeAddress == 0 then Reverted(TeeAddressNotSet)
    else if status != SUCCESS then Reverted(TeeReportedFailure)
    else if signer != s.teeAddress then Reverted(UnexpectedSigner)
    else ApplyResult(s, now, self, res, actionId)
  }

  // ---- Recipient side and wind-down ----------------------------------------------------------

  // What a claim does once it is admitted.
  function PayClaim(s: State, id: nat, index: uint256, to: uint256, amount: uint256, moved: bool): Outcome
    requires id < |s.rounds|
  {
    var r := s.rounds[id];
    if r.totalClaimed + amount >= UINT256 || Get(s.outstanding, r.token) < amount then Reverted(Panic)
    else PayOut(Release(s.(claimed := s.claimed + {(id, index)}), id,
                        r.(totalClaimed := r.totalClaimed + amount), amount),
                r.token, to, amount, moved)
  }

  function Claim(s: State, c: Call, keccak: Hash, id: nat, index: uint256, amount: uint256,
                 proof: seq<Bytes32>, moved: bool): Outcome
  {
    if s.lock != Idle then Reverted(ReentrantCall)
    else if id >= |s.rounds| then Reverted(NoSuchRound)
    else
      var r := s.rounds[id];
      if r.status != Finalized then Reverted(WrongStatus)
      else if Clock(c.now) > r.claimDeadline then Reverted(ClaimWindowClosed)
      else if (id, index) in s.claimed then Reverted(AlreadyClaimed)
      else if !Verify(keccak, r.merkleRoot, id, index, c.sender, amount, proof) then Reverted(BadMerkleProof)
      else PayClaim(s, id, index, c.sender, amount, moved)
  }

  // Ends a round: its unclaimed funding leaves `outstanding` and goes to the organization.
  function WindDown(s: State, id: nat, status: Status, amount: int, moved: bool): Outcome
    requires id < |s.rounds|
  {
    var r := s.rounds[id];
    if amount < 0 || Get(s.outstanding, r.token) < amount then Reverted(Panic)
    else PayOut(Release(s, id, r.(swept := true, status := status), amount),
                r.token, r.organization, amount, moved)
  }

  function CloseRound(s: State, c: Call, id: nat, moved: bool): Outcome
  {
    if s.lock != Idle then Reverted(ReentrantCall)
    else if id >= |s.rounds| then Reverted(NoSuchRound)
    else
      var r := s.rounds[id];
      if r.status != Finalized then Reverted(WrongStatus)
      else if Clock(c.now) <= r.claimDeadline then Reverted(ClaimWindowStillOpen)
      else if r.swept then Reverted(AlreadySwept)
      else WindDown(s, id, Closed, r.funded - r.totalClaimed, moved)
  }

  function CancelRound(s: State, c: Call, id: nat, moved: bool): Outcome
  {
    if s.lock != Idle then Reverted(ReentrantCall)
    else if id >= |s.rounds| then Reverted(NoSuchRound)
    else
      var r := s.rounds[id];
      if r.status != Open && r.status != Committed then Reverted(WrongStatus)
      else if c.sender != r.organization then Reverted(NotOrganization)
      else WindDown(s, id, Cancelled, r.funded, moved)
  }

  // ---- Owner side ----------------------------------------------------------------------------

  function SetTeeAddress(s: State, c: Call, tee: uint256): Outcome
  {
    if c.sender != s.owner then Reverted(NotOwner)
    else if tee == 0 then Reverted(ZeroAddress)
    else Done(s.(teeAddress := tee))
  }

  // Withdraws what is held beyond what is owed.
  function Rescue(s: State, c: Call, token: uint256, to: uint256, moved: bool): Outcome
  {
    if c.sender != s.owner then Reverted(NotOwner)
    else if s.lock != Idle then Reverted(ReentrantCall)
    else if to == 0 then Reverted(ZeroAddress)
    else if Get(s.held, token) <= Get(s.outstanding, token) then Reverted(NothingToRescue)
    else if !moved then Reverted(TransferFailed)
    else
      var excess := Get(s.held, token) - Get(s.outstanding, token);
      Done(s.(held := s.held[token := Get(s.outstanding, token)],
              rescues := s.rescues + [Payment(token, to, excess)]))
  }
}
