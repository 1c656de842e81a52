/**
 Contract, registry and enclaves as one transition system.

 Assumed of the parts outside it: a result counts as signed only if an enclave of this system signed
 it; the registry answers with ids never answered before; a token moves exactly the amount or fails;
 decryption is a function of the ciphertext. Everything else is a step that may happen at any time:
 handlers run in any order, any number of times and on any machine; machines lose their memory;
 results are relayed late or never; time passes between calls. A call that hands control to others
 before it has written is two steps, and any step may come in between.
 */
module Protocol {
  import opened Options
  import opened Bytes
  import opened Rounds
  import opened Enclave
  import F = FrontendMerkle

  datatype Signed = Signed(machine: uint256, actionId: Bytes32, status: nat, data: AllocationResult)

  // What a machine sent, encrypted to key, for a disclosure.
  datatype Reply = Reply(machine: uint256, actionId: Bytes32, key: seq<byte>, row: F.Disclosure)

  // hashed collects the byte strings the system hashed; it takes no part in what happens.
  datatype System = System(chain: State, now: nat, orders: map<Bytes32, Order>, memory: map<uint256, Memory>,
                           signed: set<Signed>, replies: set<Reply>, hashed: set<seq<byte>>)

  datatype Step =
    | Tick(seconds: nat)
    | Donate(token: uint256, amount: nat)
    | Create(sender: uint256, token: uint256, window: nat)
    | BeginFund(sender: uint256, value: nat, id: nat, amount: nat, moved: bool)
    | EndFund
    | Submit(sender: uint256, id: nat, commitment: Bytes32)
    | BeginCompute(sender: uint256, id: nat, ciphertext: seq<byte>, machineFound: bool)
    | EndCompute(answer: Bytes32)
    | AskDisclosure(sender: uint256, id: nat, key: seq<byte>, machineFound: bool, answer: Bytes32)
    | AskAttestation(id: nat, machineFound: bool, answer: Bytes32)
    | Finalize(result: Signed)
    | MakeClaim(sender: uint256, id: nat, index: uint256, share: uint256, proof: seq<Bytes32>, moved: bool)
    | Close(id: nat, moved: bool)
    | Cancel(sender: uint256, id: nat, moved: bool)
    | SetTee(sender: uint256, tee: uint256)
    | DoRescue(sender: uint256, token: uint256, to: uint256, moved: bool)
    | RunCompute(machine: uint256, actionId: Bytes32)
    | RunAttest(machine: uint256, actionId: Bytes32)
    | RunDisclose(machine: uint256, actionId: Bytes32, keyOk: bool, bytesAsResult: AllocationResult)
    | SignNonSuccess(machine: uint256, actionId: Bytes32, status: nat, data: AllocationResult)
    | Restart(machine: uint256)

  function Start(owner: uint256): System
  {
    System(Init(owner), 0, map[], map[], {}, {}, {})
  }

  function MemoryOf(s: System, machine: uint256): Memory
  {
    if machine in s.memory then s.memory[machine] else map[]
  }

  function OnChain(s: System, o: Outcome): Option<System>
  {
    match o
    case Done(chain) => Some(s.(chain := chain))
    case Reverted(_) => None
  }

  // The registry issues an instruction under an id it never issued before.
  function Issued(s: System, answer: Bytes32, order: Order): Option<System>
  {
    if answer in s.orders then None else Some(s.(orders := s.orders[answer := order]))
  }

  function Issuing(s: System, request: Request, answer: Bytes32): Option<System>
  {
    match request
    case Declined(_) => None
    case Sent(order) => Issued(s, answer, order)
  }

  // The registry answers the innermost `requestCompute`, which then records the answer. Machines see the
  // instruction once it has been issued.
  function Answering(s: System, answer: Bytes32): Option<System>
  {
    match RecordCompute(s.chain, s.now, answer)
    case Reverted(_) => None
    case Done(chain) =>
      Issued(s.(chain := chain), answer, ComputeOrder(s.chain.pending[|s.chain.pending| - 1].ciphertext))
  }

  // Whether no call is waiting for a token or for the registry.
  predicate BetweenCalls(s: System)
  {
    s.chain.lock == Idle && s.chain.pending == []
  }

  // None when the step is refused.
  ghost function Next(h: Host, s: System, step: Step): Option<System>
  {
    match step
    case Tick(seconds) => if BetweenCalls(s) then Some(s.(now := s.now + seconds)) else None
    case Donate(token, amount) => Some(s.(chain := Receive(s.chain, token, amount)))
    case Create(sender, token, window) => OnChain(s, CreateRound(s.chain, Call(sender, 0, s.now), token, window))
    case BeginFund(sender, value, id, amount, moved) =>
      OnChain(s, FundEnter(s.chain, Call(sender, value, s.now), id, amount, moved))
    case EndFund => OnChain(s, FundSettle(s.chain))
    case Submit(sender, id, commitment) => OnChain(s, SubmitPolicy(s.chain, Call(sender, 0, s.now), id, commitment))
    case BeginCompute(sender, id, ciphertext, machineFound) =>
      OnChain(s.(hashed := s.hashed + {ciphertext}),
              EnterCompute(s.chain, Call(sender, 0, s.now), h.keccak, id, ciphertext, machineFound))
    case EndCompute(answer) => Answering(s, answer)
    case AskDisclosure(sender, id, key, machineFound, answer) =>
      Issuing(s, RequestDisclosure(s.chain, Call(sender, 0, s.now), id, key, machineFound), answer)
    case AskAttestation(id, machineFound, answer) =>
      Issuing(s, RequestAttestation(s.chain, id, machineFound), answer)
    case Finalize(r) =>
      if r !in s.signed then None
      else OnChain(s, FinalizeRound(s.chain, s.now, h.self, r.data, r.actionId, r.status, r.machine))
    case MakeClaim(sender, id, index, share, proof, moved) =>
      OnChain(s.(hashed := s.hashed + ClaimPreimages(h.keccak, id, index, sender, share, proof)),
              Claim(s.chain, Call(sender, 0, s.now), h.keccak, id, index, share, proof, moved))
    case Close(id, moved) => OnChain(s, CloseRound(s.chain, Call(0, 0, s.now), id, moved))
    case Cancel(sender, id, moved) => OnChain(s, CancelRound(s.chain, Call(sender, 0, s.now), id, moved))
    case SetTee(sender, tee) => OnChain(s, SetTeeAddress(s.chain, Call(sender, 0, s.now), tee))
    case DoRescue(sender, token, to, moved) => OnChain(s, Rescue(s.chain, Call(sender, 0, s.now), token, to, moved))
    case RunCompute(machine, actionId) =>
      if actionId !in s.orders || !s.orders[actionId].ComputeOrder? then None
      else Some(HandleCompute(h, s, machine, actionId, s.orders[actionId].ciphertext))
    case RunAttest(machine, actionId) =>
      if actionId !in s.orders || !s.orders[actionId].AttestOrder? then None
      else
        var order := s.orders[actionId];
        (match Attest(h, MemoryOf(s, machine), h.self, order.roundId, order.commitment)
         case None => Some(s)
         case Some(data) => Some(s.(signed := s.signed + {Signed(machine, actionId, SUCCESS, data)})))
    case RunDisclose(machine, actionId, keyOk, bytesAsResult) =>
      if actionId !in s.orders || !s.orders[actionId].DiscloseOrder? then None
      else Some(HandleDisclose(h, s, machine, actionId, keyOk, bytesAsResult))
    case SignNonSuccess(machine, actionId, status, data) =>
      if status == SUCCESS then None else Some(s.(signed := s.signed + {Signed(machine, actionId, status, data)}))
    case Restart(machine) => Some(s.(memory := s.memory[machine := map[]]))
  }

  // A deferred COMPUTE completing: one write to the shared map, then a signed success.
  ghost function HandleCompute(h: Host, s: System, machine: uint256, actionId: Bytes32, ciphertext: seq<byte>): System
  {
    match h.compute(ciphertext)
    case None => s
    case Some(r) =>
      s.(memory := s.memory[machine := MemoryOf(s, machine)[r.commitment := r]],
         signed := s.signed + {Signed(machine, actionId, SUCCESS, ResultOf(h, r))},
         hashed := s.hashed + {ciphertext} + (if r.table == [] then {} else TablePreimages(h, r)))
  }

  // A disclosure, encrypted to the key of its request if that can be done. The signed reply is encrypted
  // bytes; nothing is assumed of what they would decode to.
  ghost function HandleDisclose(h: Host, s: System, machine: uint256, actionId: Bytes32, keyOk: bool,
                                bytesAsResult: AllocationResult): System
    requires actionId in s.orders && s.orders[actionId].DiscloseOrder?
  {
    var order := s.orders[actionId];
    match Disclose(h, MemoryOf(s, machine), h.self, order.roundId, order.commitment, order.requester)
    case None => s
    case Some(row) =>
      if !keyOk then s
      else s.(replies := s.replies + {Reply(machine, actionId, order.key, row)},
              signed := s.signed + {Signed(machine, actionId, SUCCESS, bytesAsResult)})
  }

  // A run: refused steps leave everything as it was.
  ghost function Execute(h: Host, s: System, steps: seq<Step>): System
    decreases |steps|
  {
    if steps == [] then s
    else
      match Next(h, s, steps[0])
      case None => Execute(h, s, steps[1..])
      case Some(t) => Execute(h, t, steps[1..])
  }

  // ---- What steps leave alone ----------------------------------------------------------------

  // The contract, the registry and the clock are as they were; what enclaves sent and hashed only grows.
  ghost predicate OffChain(s: System, t: System)
  {
    && t.chain == s.chain && t.orders == s.orders && t.now == s.now
    && s.signed <= t.signed && s.replies <= t.replies && s.hashed <= t.hashed
  }

  predicate Enclaved(step: Step)
  {
    step.RunCompute? || step.RunAttest? || step.RunDisclose? || step.SignNonSuccess? || step.Restart?
  }

  lemma ComputeOffChain(h: Host, s: System, machine: uint256, actionId: Bytes32, ciphertext: seq<byte>)
    ensures OffChain(s, HandleCompute(h, s, machine, actionId, ciphertext))
  {
  }

  // What a completed computation adds.
  lemma ComputeAdds(h: Host, s: System, machine: uint256, actionId: Bytes32, c: seq<byte>, r: ComputedRound)
    requires h.compute(c) == Some(r)
    ensures var t := HandleCompute(h, s, machine, actionId, c);
            && OffChain(s, t) && c in t.hashed
            && t.signed == s.signed + {Signed(machine, actionId, SUCCESS, ResultOf(h, r))}
            && t.memory == s.memory[machine := MemoryOf(s, machine)[r.commitment := r]]
  {
  }

  lemma EnclavesStayOffChain(h: Host, s: System, step: Step, t: System)
    requires Enclaved(step) && Next(h, s, step) == Some(t)
    ensures OffChain(s, t)
  {
    match step {
      case RunCompute(machine, actionId) => ComputeOffChain(h, s, machine, actionId, s.orders[actionId].ciphertext);
      case RunAttest(_, _) =>
      case RunDisclose(_, _, _, _) =>
      case SignNonSuccess(_, _, _, _) =>
      case Restart(_) =>
    }
  }

  // A call of the contract: it changes the contract's state and what was hashed, and may issue an instruction.
  ghost predicate OnlyChain(s: System, t: System)
  {
    t == s.(chain := t.chain, hashed := t.hashed) && s.hashed <= t.hashed
  }

  lemma ClaimCall(h: Host, s: System, step: Step, t: System)
    requires step.MakeClaim? && Next(h, s, step) == Some(t)
    ensures OnlyChain(s, t)
    ensures t.hashed
         == s.hashed + ClaimPreimages(h.keccak, step.id, step.index, step.sender, step.share, step.proof)
    ensures Claim(s.chain, Call(step.sender, 0, s.now), h.keccak, step.id, step.index, step.share, step.proof,
                  step.moved) == Done(t.chain)
  {
  }
}
