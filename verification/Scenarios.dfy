/**
 Runs that show what the conditions of the main theorems are for. They are given for any hash function, any
 accounts and any amounts; all that is asked of the hash is that it does not answer zero where the contract
 refuses zero.
 */
module Scenarios {
  import opened Options
  import opened Bytes
  import opened Merkle
  import opened Rounds
  import opened Books
  import opened Enclave
  import opened Protocol
  import opened Safety
  import opened Tally
  import opened Runs
  import opened Summary
  import opened Policies
  import A = Allocate

  // ---- A deployment whose ciphertexts hold one explicit row each ------------------------------

  datatype Grant = Grant(roundId: uint256, who: uint256, share: uint256)

  function GrantPolicy(self: uint256, g: Grant): AbiPolicy
  {
    Policy(self, g.roundId, 0, EXPLICIT, g.share, 0, 0, [], [Entry(g.who, 0, g.share)])
  }

  // The given ciphertext holds the first grant, every other the second.
  function Granting(keccak: Hash, self: uint256, ciphertext: seq<byte>, first: Grant, second: Grant): Deployment
  {
    Deployment(keccak, (c: seq<byte>) => Some(GrantPolicy(self, if c == ciphertext then first else second)), self,
               ZERO32)
  }

  lemma GrantWellFormed(self: uint256, g: Grant)
    requires g.who > 0 && g.share > 0
    ensures WellFormed(GrantPolicy(self, g)) && Projected(GrantPolicy(self, g)) == g.share
  {
    var es := [Entry(g.who, 0, g.share)];
    assert es[1..] == [];
    assert SumAmounts(es) == g.share + SumAmounts(es[1..]);
  }

  lemma GrantTable(self: uint256, g: Grant)
    requires g.who > 0 && g.share > 0
    ensures WellFormed(GrantPolicy(self, g))
    ensures A.Evaluate(GrantPolicy(self, g)) == A.Ok([A.Allocation(0, g.who, g.share)])
  {
    var p := GrantPolicy(self, g);
    GrantWellFormed(self, g);
    A.EvaluateGood(p);
    A.AmountsWithinPolicy(p);
    var a := A.ComputeAmounts(p).value;
    assert a == [g.share];
    var rows := A.Rows(p.entries, a);
    assert rows[0] == A.Allocation(0, g.who, g.share) && rows[0] in rows && A.Kept(rows[0], 0);
    var t := A.Evaluate(p).value;
    assert |t| == 1 && A.GoodRow(t, 0, p);
    assert t[1..] == [] && A.SumAllocations(t) == t[0].amount + A.SumAllocations(t[1..]);
    assert t == [t[0]];
  }

  // What a ciphertext computes to that holds the grant.
  lemma GrantComputes(d: Deployment, g: Grant, ciphertext: seq<byte>)
    requires g.who > 0 && g.share > 0 && d.decrypt(ciphertext) == Some(GrantPolicy(d.self, g))
    ensures var c := ComputeRound(d, ciphertext);
            && c.Some? && c.value.roundId == g.roundId && c.value.table == [A.Allocation(0, g.who, g.share)]
            && c.value.total == g.share && c.value.root == LeafHash(d.keccak, g.roundId, 0, g.who, g.share)
            && c.value.commitment == d.keccak(ciphertext)
  {
    GrantTable(d.self, g);
    var t := [A.Allocation(0, g.who, g.share)];
    assert t[1..] == [] && A.SumAllocations(t) == g.share + A.SumAllocations(t[1..]);
    assert Leaves(d.keccak, g.roundId, t) == [LeafHash(d.keccak, g.roundId, 0, g.who, g.share)];
  }

  // ---- Stringing steps together ---------------------------------------------------------------

  lemma {:induction false} Then(h: Host, s: System, steps: seq<Step>, step: Step, t: System)
    requires Next(h, Execute(h, s, steps), step) == Some(t)
    ensures Execute(h, s, steps + [step]) == t
    decreases |steps|
  {
    if steps == [] {
      assert steps + [step] == [step] && [step][1..] == [];
    } else {
      var next := Next(h, s, steps[0]);
      assert (steps + [step])[1..] == steps[1..] + [step];
      Then(h, if next == None then s else next.value, steps[1..], step, t);
    }
  }

  lemma {:induction false} Join(h: Host, s: System, a: seq<Step>, b: seq<Step>)
    ensures Execute(h, s, a + b) == Execute(h, Execute(h, s, a), b)
    decreases |a|
  {
    if a == [] {
      assert a + b == b;
    } else {
      var next := Next(h, s, a[0]);
      assert (a + b)[1..] == a[1..] + b;
      Join(h, if next == None then s else next.value, a[1..], b);
    }
  }

  // Where a run stands: its rounds, what is outstanding and held of the native token, the calls that wait.
  ghost predicate Stands(s: System, rounds: seq<Round>, out: nat, pending: seq<Dispatch>)
  {
    && s.chain.rounds == rounds && Get(s.chain.outstanding, NATIVE) == out == Get(s.chain.held, NATIVE)
    && s.chain.pending == pending && s.chain.lock == Idle
  }

  // Instructions, results, machines, clock, owner and claims are as they were.
  ghost predicate SameRest(s: System, t: System)
  {
    && t.orders == s.orders && t.signed == s.signed && t.memory == s.memory && t.now == s.now
    && t.chain.owner == s.chain.owner && t.chain.teeAddress == s.chain.teeAddress
    && t.chain.claimed == s.chain.claimed
  }

  // Who takes part: two organizations with what they fund and dispatch, the machine, and what the registry
  // answers.
  datatype Cast = Cast(owner: uint256, org: uint256, funded: nat, ciphertext: seq<byte>, other: uint256,
                       otherFunded: nat, otherCiphertext: seq<byte>, machine: uint256, first: Bytes32,
                       second: Bytes32)

  ghost predicate Playable(h: Host, k: Cast)
  {
    && k.funded > 0 && k.otherFunded > 0 && k.funded + k.otherFunded < UINT256 && k.ciphertext != []
    && h.keccak(k.ciphertext) != ZERO32 && k.machine > 0 && k.first != k.second
  }

  // ---- Two funded rounds, the first committed -------------------------------------------------

  function FundedRound(org: uint256, funded: nat): Round
  {
    Round(org, Open, false, 0, MIN_CLAIM_WINDOW, NATIVE, 0, 0, funded, 0, 0, ZERO32, ZERO32, ZERO32, ZERO32)
  }

  function CommittedRound(h: Host, k: Cast): Round
  {
    FundedRound(k.org, k.funded).(status := Committed, policyCommitment := h.keccak(k.ciphertext))
  }

  lemma CreateNext(h: Host, s: System, org: uint256, rounds: seq<Round>, out: nat)
    requires Stands(s, rounds, out, []) && |rounds| + 1 < UINT256
    ensures var next := Next(h, s, Create(org, NATIVE, MIN_CLAIM_WINDOW));
            && next.Some? && Stands(next.value, rounds + [FundedRound(org, 0)], out, [])
            && SameRest(s, next.value) && next.value.chain.payments == s.chain.payments
  {
  }

  lemma BeginFundNext(h: Host, s: System, org: uint256, id: nat, amount: nat, rounds: seq<Round>, out: nat)
    requires Stands(s, rounds, out, []) && id < |rounds| && amount > 0 && out + amount < UINT256
    requires rounds[id] == FundedRound(org, 0)
    ensures var next := Next(h, s, BeginFund(org, amount, id, amount, true));
            && next.Some? && SameRest(s, next.value)
            && next.value.chain == s.chain.(lock := Lock.Funding(id, amount),
                                            held := s.chain.held[NATIVE := out + amount])
  {
  }

  lemma EndFundNext(h: Host, s: System, org: uint256, id: nat, amount: nat, out: nat)
    requires s.chain.lock == Lock.Funding(id, amount) && id < |s.chain.rounds| && s.chain.pending == []
    requires s.chain.rounds[id] == FundedRound(org, 0)
    requires Get(s.chain.outstanding, NATIVE) == out && Get(s.chain.held, NATIVE) == out + amount
    ensures var next := Next(h, s, EndFund);
            && next.Some? && SameRest(s, next.value) && next.value.chain.payments == s.chain.payments
            && Stands(next.value, s.chain.rounds[id := FundedRound(org, amount)], out + amount, [])
  {
  }

  function Funding(org: uint256, id: nat, amount: nat): seq<Step>
  {
    [Create(org, NATIVE, MIN_CLAIM_WINDOW), BeginFund(org, amount, id, amount, true), EndFund]
  }

  lemma Fund(h: Host, s: System, org: uint256, amount: nat, rounds: seq<Round>, out: nat)
    requires Stands(s, rounds, out, []) && amount > 0 && out + amount < UINT256 && |rounds| + 1 < UINT256
    ensures var t := Execute(h, s, Funding(org, |rounds|, amount));
            && Stands(t, rounds + [FundedRound(org, amount)], out + amount, [])
            && SameRest(s, t) && t.chain.payments == s.chain.payments
  {
    var id := |rounds|;
    var create, begin := Create(org, NATIVE, MIN_CLAIM_WINDOW), BeginFund(org, amount, id, amount, true);
    CreateNext(h, s, org, rounds, out);
    var s1 := Next(h, s, create).value;
    Then(h, s, [], create, s1);
    BeginFundNext(h, s1, org, id, amount, rounds + [FundedRound(org, 0)], out);
    var s2 := Next(h, s1, begin).value;
    Then(h, s, [create], begin, s2);
    EndFundNext(h, s2, org, id, amount, out);
    Then(h, s, [create, begin], EndFund, Next(h, s2, EndFund).value);
    assert s2.chain.rounds[id := FundedRound(org, amount)] == rounds + [FundedRound(org, amount)];
  }

  function Opening(h: Host, k: Cast): seq<Step>
  {
    Funding(k.org, 0, k.funded) + Funding(k.other, 1, k.otherFunded) + [Submit(k.org, 0, h.keccak(k.ciphertext))]
  }

  function OpeningRounds(h: Host, k: Cast): seq<Round>
  {
    [CommittedRound(h, k), FundedRound(k.other, k.otherFunded)]
  }

  function Submitted(r: Round, commitment: Bytes32): Round
  {
    r.(status := Committed, policyCommitment := commitment)
  }

  lemma SubmitNext(h: Host, s: System, id: nat, commitment: Bytes32, rounds: seq<Round>, out: nat)
    requires Stands(s, rounds, out, []) && id < |rounds| && commitment != ZERO32
    requires rounds[id].status == Open && rounds[id].funded > 0
    ensures var next := Next(h, s, Submit(rounds[id].organization, id, commitment));
            && next.Some? && Stands(next.value, rounds[id := Submitted(rounds[id], commitment)], out, [])
            && SameRest(s, next.value) && next.value.chain.payments == s.chain.payments
  {
  }

  lemma Opened(h: Host, k: Cast)
    requires Playable(h, k)
    ensures var t := Execute(h, Start(k.owner), Opening(h, k));
            && Stands(t, OpeningRounds(h, k), k.funded + k.otherFunded, [])
            && SameRest(Start(k.owner), t) && t.chain.payments == []
  {
    var s := Start(k.owner);
    var one, two := Funding(k.org, 0, k.funded), Funding(k.other, 1, k.otherFunded);
    Fund(h, s, k.org, k.funded, [], 0);
    var s1 := Execute(h, s, one);
    assert [] + [FundedRound(k.org, k.funded)] == [FundedRound(k.org, k.funded)];
    Fund(h, s1, k.other, k.otherFunded, [FundedRound(k.org, k.funded)], k.funded);
    Join(h, s, one, two);
    var s2 := Execute(h, s1, two);
    assert [FundedRound(k.org, k.funded)] + [FundedRound(k.other, k.otherFunded)]
        == [FundedRound(k.org, k.funded), FundedRound(k.other, k.otherFunded)];
    var funded := [FundedRound(k.org, k.funded), FundedRound(k.other, k.otherFunded)];
    SubmitNext(h, s2, 0, h.keccak(k.ciphertext), funded, k.funded + k.otherFunded);
    assert funded[0 := Submitted(funded[0], h.keccak(k.ciphertext))] == OpeningRounds(h, k);
    Then(h, s, one + two, Submit(k.org, 0, h.keccak(k.ciphertext)),
         Next(h, s2, Submit(k.org, 0, h.keccak(k.ciphertext))).value);
  }

  // ---- Dispatch, answer, computation, result --------------------------------------------------

  lemma BeginNext(h: Host, s: System, id: nat, ciphertext: seq<byte>, rounds: seq<Round>, out: nat)
    requires Stands(s, rounds, out, []) && id < |rounds| && ciphertext != []
    requires rounds[id].policyCommitment == h.keccak(ciphertext)
    requires rounds[id].status == Committed
          || (rounds[id].status == Computing && rounds[id].computeRequestedAt + RETRY_TIMEOUT <= Clock(s.now))
    ensures var next := Next(h, s, BeginCompute(rounds[id].organization, id, ciphertext, true));
            && next.Some? && Stands(next.value, rounds, out, [Dispatch(id, ciphertext)])
            && SameRest(s, next.value) && next.value.chain.payments == s.chain.payments
  {
  }

  lemma EndNext(h: Host, s: System, id: nat, ciphertext: seq<byte>, answer: Bytes32, rounds: seq<Round>, out: nat)
    requires Stands(s, rounds, out, [Dispatch(id, ciphertext)]) && id < |rounds| && answer !in s.orders
    ensures var next := Next(h, s, EndCompute(answer));
            && next.Some? && Stands(next.value, rounds[id := Recorded(rounds[id], s.now, answer)], out, [])
            && SameRest(s.(orders := s.orders[answer := ComputeOrder(ciphertext)]), next.value)
            && next.value.chain.payments == s.chain.payments
  {
    var w := s.chain.pending[|s.chain.pending| - 1];
    assert s.chain.pending[..0] == [];
  }

  lemma SetTeeNext(h: Host, s: System, machine: uint256, rounds: seq<Round>, out: nat)
    requires Stands(s, rounds, out, []) && machine > 0
    ensures var next := Next(h, s, SetTee(s.chain.owner, machine));
            && next.Some? && Stands(next.value, rounds, out, []) && next.value.chain.payments == s.chain.payments
            && SameRest(s.(chain := s.chain.(teeAddress := machine)), next.value)
  {
  }

  lemma TickNext(h: Host, s: System, seconds: nat, rounds: seq<Round>, out: nat)
    requires Stands(s, rounds, out, [])
    ensures Next(h, s, Tick(seconds)) == Some(s.(now := s.now + seconds))
  {
  }

  // The signed result of computing the cast's ciphertext under an instruction.
  ghost function ResultUnder(h: Host, k: Cast, action: Bytes32, c: ComputedRound): Signed
  {
    Signed(k.machine, action, SUCCESS, ResultOf(h, c))
  }

  lemma RunNext(h: Host, s: System, k: Cast, ciphertext: seq<byte>, action: Bytes32, c: ComputedRound)
    requires h.compute(ciphertext) == Some(c)
    requires action in s.orders && s.orders[action] == ComputeOrder(ciphertext)
    ensures var next := Next(h, s, RunCompute(k.machine, action));
            && next.Some? && OffChain(s, next.value)
            && next.value.signed == s.signed + {ResultUnder(h, k, action, c)}
  {
    ComputeOffChain(h, s, k.machine, action, ciphertext);
  }

  // A ciphertext computes to a table for a round, within its funding.
  ghost predicate ComputableFor(h: Host, ciphertext: seq<byte>, id: nat, funded: nat, c: ComputedRound)
  {
    && h.compute(ciphertext) == Some(c) && c.roundId == id && c.root != ZERO32 && c.table != []
    && c.total <= funded && c.commitment == h.keccak(ciphertext)
  }

  // The first organization's ciphertext is for the first round.
  ghost predicate Computable(h: Host, k: Cast, c: ComputedRound)
  {
    ComputableFor(h, k.ciphertext, 0, k.funded, c)
  }

  // The other organization's is for the second.
  ghost predicate OtherComputable(h: Host, k: Cast, c: ComputedRound)
  {
    && k.otherCiphertext != [] && h.keccak(k.otherCiphertext) != ZERO32
    && ComputableFor(h, k.otherCiphertext, 1, k.otherFunded, c)
  }

  lemma FinalizeNext(h: Host, s: System, k: Cast, ciphertext: seq<byte>, id: nat, c: ComputedRound,
                     rounds: seq<Round>, out: nat, pending: seq<Dispatch>)
    requires Stands(s, rounds, out, pending) && id < |rounds|
    requires ComputableFor(h, ciphertext, id, rounds[id].funded, c)
    requires s.chain.teeAddress == k.machine > 0
    requires rounds[id].status == Computing && rounds[id].policyCommitment == c.commitment
    requires rounds[id].claimWindow == MIN_CLAIM_WINDOW && s.now + MIN_CLAIM_WINDOW < UINT48
    requires ResultUnder(h, k, rounds[id].computeInstructionId, c) in s.signed
    ensures var next := Next(h, s, Finalize(ResultUnder(h, k, rounds[id].computeInstructionId, c)));
            && next.Some? && Stands(next.value, rounds[id := Finished(rounds[id], ResultOf(h, c), s.now)], out, pending)
            && SameRest(s, next.value) && next.value.chain.payments == s.chain.payments
  {
    FinalizeAccepts(s.chain, s.now, h.self, ResultOf(h, c), rounds[id].computeInstructionId);
  }

  // ---- Cancelled while the registry is asked --------------------------------------------------

  function Asking(h: Host, k: Cast): seq<Step>
  {
    Opening(h, k) + [BeginCompute(k.org, 0, k.ciphertext, true)]
  }

  lemma Asked(h: Host, k: Cast)
    requires Playable(h, k)
    ensures var t := Execute(h, Start(k.owner), Asking(h, k));
            && Stands(t, OpeningRounds(h, k), k.funded + k.otherFunded, [Dispatch(0, k.ciphertext)])
            && SameRest(Start(k.owner), t) && t.chain.payments == []
  {
    Opened(h, k);
    var s, step := Execute(h, Start(k.owner), Opening(h, k)), BeginCompute(k.org, 0, k.ciphertext, true);
    BeginNext(h, s, 0, k.ciphertext, OpeningRounds(h, k), k.funded + k.otherFunded);
    Then(h, Start(k.owner), Opening(h, k), step, Next(h, s, step).value);
  }

  lemma CancelPays(s: State, c: Call)
    requires s.lock == Idle && s.rounds != [] && s.rounds[0].status == Committed && s.rounds[0].token == NATIVE
    requires c.sender == s.rounds[0].organization
    requires 0 < s.rounds[0].funded <= Get(s.outstanding, NATIVE) && s.rounds[0].funded <= Get(s.held, NATIVE)
    ensures var o, r := CancelRound(s, c, 0, true), s.rounds[0];
            o == Done(s.(rounds := s.rounds[0 := r.(swept := true, status := Cancelled)],
                         outstanding := s.outstanding[NATIVE := Get(s.outstanding, NATIVE) - r.funded],
                         held := s.held[NATIVE := Get(s.held, NATIVE) - r.funded],
                         payments := s.payments + [Payment(NATIVE, r.organization, r.funded)]))
  {
  }

  lemma CancelledStands(h: Host, s: System, k: Cast)
    requires Playable(h, k)
    requires Stands(s, OpeningRounds(h, k), k.funded + k.otherFunded, [Dispatch(0, k.ciphertext)])
    ensures var o := CancelRound(s.chain, Call(k.org, 0, s.now), 0, true);
            && o.Done? && SameRest(s, s.(chain := o.state))
            && Stands(s.(chain := o.state),
                      [CommittedRound(h, k).(swept := true, status := Cancelled),
                       FundedRound(k.other, k.otherFunded)], k.otherFunded, [Dispatch(0, k.ciphertext)])
            && o.state.payments == s.chain.payments + [Payment(NATIVE, k.org, k.funded)]
  {
    CancelPays(s.chain, Call(k.org, 0, s.now));
  }

  lemma CancelNext(h: Host, s: System, k: Cast)
    requires Playable(h, k)
    requires Stands(s, OpeningRounds(h, k), k.funded + k.otherFunded, [Dispatch(0, k.ciphertext)])
    ensures var o, next := CancelRound(s.chain, Call(k.org, 0, s.now), 0, true), Next(h, s, Cancel(k.org, 0, true));
            o.Done? && next == Some(s.(chain := o.state))
  {
    CancelledStands(h, s, k);
  }

  // The organization cancels its round out of the refund that the registry sends it.
  function Reviving(h: Host, k: Cast): seq<Step>
  {
    Asking(h, k) + [Cancel(k.org, 0, true)] + [EndCompute(k.first)]
  }

  function RevivedRounds(h: Host, k: Cast): seq<Round>
  {
    [Recorded(CommittedRound(h, k).(swept := true, status := Cancelled), 0, k.first),
     FundedRound(k.other, k.otherFunded)]
  }

  lemma RevivedRun(h: Host, k: Cast)
    requires Playable(h, k)
    ensures var t := Execute(h, Start(k.owner), Reviving(h, k));
            && Stands(t, RevivedRounds(h, k), k.otherFunded, [])
            && SameRest(Start(k.owner).(orders := map[k.first := ComputeOrder(k.ciphertext)]), t)
            && t.chain.payments == [Payment(NATIVE, k.org, k.funded)]
  {
    var start := Start(k.owner);
    Asked(h, k);
    var s := Execute(h, Start(k.owner), Asking(h, k));
    CancelNext(h, s, k);
    CancelledStands(h, s, k);
    var s1 := Next(h, s, Cancel(k.org, 0, true)).value;
    Then(h, start, Asking(h, k), Cancel(k.org, 0, true), s1);
    EndNext(h, s1, 0, k.ciphertext, k.first, s1.chain.rounds, k.otherFunded);
    Then(h, start, Asking(h, k) + [Cancel(k.org, 0, true)], EndCompute(k.first),
         Next(h, s1, EndCompute(k.first)).value);
  }

  lemma TwoSum(rounds: seq<Round>, f: Round -> int)
    requires |rounds| == 2
    ensures SumOver(rounds, f) == f(rounds[0]) + f(rounds[1])
  {
    assert rounds[1..] == [rounds[1]] && [rounds[1]][1..] == [];
    assert SumOver([rounds[1]], f) == f(rounds[1]) + SumOver([], f);
  }

  // The round is computing again although its funding is back with the organization, and the books are
  // short by just that.
  lemma CancelledWhileAsked(h: Host, k: Cast)
    requires Playable(h, k) && Faithful(h)
    ensures var chain := Execute(h, Start(k.owner), Reviving(h, k)).chain;
            && chain.rounds == RevivedRounds(h, k) && chain.rounds[0].status == Computing
            && chain.payments == [Payment(NATIVE, k.org, k.funded)]
            && Get(chain.outstanding, NATIVE) == k.otherFunded
            && SumOver(chain.rounds, Owed(NATIVE)) == k.funded + k.otherFunded
            && Revived(h, Start(k.owner), Reviving(h, k), NATIVE) == k.funded && !Sound(chain)
  {
    RevivedRun(h, k);
    var chain := Execute(h, Start(k.owner), Reviving(h, k)).chain;
    TwoSum(chain.rounds, Owed(NATIVE));
    assert Gap(chain, NATIVE) == k.funded;
    RevivedIsGap(h, k.owner, Reviving(h, k), NATIVE);
  }

  lemma RevivedIsGap(h: Host, owner: uint256, steps: seq<Step>, token: nat)
    requires Faithful(h)
    ensures Revived(h, Start(owner), steps, token) == Gap(Execute(h, Start(owner), steps).chain, token)
  {
    StartInv(h, owner);
    StartTallied(owner);
    GapIsRevived(h, Start(owner), steps, token);
  }

  // ---- Another round pays ---------------------------------------------------------------------

  lemma ClaimPaid(s: State, c: Call, keccak: Hash, share: uint256)
    requires s.lock == Idle && s.rounds != [] && s.rounds[0].status == Finalized && s.claimed == {}
    requires Verify(keccak, s.rounds[0].merkleRoot, 0, 0, c.sender, share, [])
    requires Clock(c.now) <= s.rounds[0].claimDeadline && s.rounds[0].token == NATIVE && s.rounds[0].totalClaimed == 0
    requires 0 < share <= Get(s.outstanding, NATIVE) && share <= Get(s.held, NATIVE)
    ensures var r := s.rounds[0];
            Claim(s, c, keccak, 0, 0, share, [], true)
              == Done(s.(rounds := s.rounds[0 := r.(totalClaimed := share)], claimed := s.claimed + {(0, 0)},
                         outstanding := s.outstanding[NATIVE := Get(s.outstanding, NATIVE) - share],
                         held := s.held[NATIVE := Get(s.held, NATIVE) - share],
                         payments := s.payments + [Payment(NATIVE, c.sender, share)]))
  {
  }

  lemma ClaimNext(h: Host, s: System, who: uint256, share: uint256, rounds: seq<Round>, out: nat)
    requires Stands(s, rounds, out, []) && rounds != [] && rounds[0].status == Finalized && s.chain.claimed == {}
    requires Verify(h.keccak, rounds[0].merkleRoot, 0, 0, who, share, [])
    requires Clock(s.now) <= rounds[0].claimDeadline && rounds[0].token == NATIVE
    requires 0 < share <= out && rounds[0].totalClaimed == 0
    ensures var next := Next(h, s, MakeClaim(who, 0, 0, share, [], true));
            && next.Some? && Stands(next.value, rounds[0 := rounds[0].(totalClaimed := share)], out - share, [])
            && next.value.chain.payments == s.chain.payments + [Payment(NATIVE, who, share)]
            && next.value.orders == s.orders && next.value.now == s.now
            && next.value.chain.teeAddress == s.chain.teeAddress
  {
    ClaimPaid(s.chain, Call(who, 0, s.now), h.keccak, share);
    ClaimCall(h, s, MakeClaim(who, 0, 0, share, [], true), Next(h, s, MakeClaim(who, 0, 0, share, [], true)).value);
  }

  // The revived round goes on to be finalized.
  ghost function Finishing(h: Host, k: Cast, c: ComputedRound): seq<Step>
  {
    Reviving(h, k) + [SetTee(k.owner, k.machine)] + [RunCompute(k.machine, k.first)]
      + [Finalize(ResultUnder(h, k, k.first, c))]
  }

  function FinishedRounds(h: Host, k: Cast, c: ComputedRound): seq<Round>
  {
    RevivedRounds(h, k)[0 := Finished(RevivedRounds(h, k)[0], ResultOf(h, c), 0)]
  }

  // And claimed of.
  ghost function Spending(h: Host, k: Cast, c: ComputedRound, who: uint256, share: uint256): seq<Step>
  {
    Finishing(h, k, c) + [MakeClaim(who, 0, 0, share, [], true)]
  }

  function SpentRounds(h: Host, k: Cast, c: ComputedRound, share: uint256): seq<Round>
  {
    FinishedRounds(h, k, c)[0 := FinishedRounds(h, k, c)[0].(totalClaimed := share)]
  }

  lemma RevivedFinalizes(h: Host, k: Cast, c: ComputedRound)
    requires Playable(h, k) && Computable(h, k, c)
    ensures var t := Execute(h, Start(k.owner), Finishing(h, k, c));
            && Stands(t, FinishedRounds(h, k, c), k.otherFunded, [])
            && t.chain.claimed == {} && t.now == 0 && t.chain.payments == [Payment(NATIVE, k.org, k.funded)]
            && t.orders == map[k.first := ComputeOrder(k.ciphertext)] && t.chain.teeAddress == k.machine
  {
    var start := Start(k.owner);
    var run, rounds, x := Reviving(h, k), RevivedRounds(h, k), ResultUnder(h, k, k.first, c);
    RevivedRun(h, k);
    var s := Execute(h, Start(k.owner), run);
    SetTeeNext(h, s, k.machine, rounds, k.otherFunded);
    var s1 := Next(h, s, SetTee(k.owner, k.machine)).value;
    Then(h, start, run, SetTee(k.owner, k.machine), s1);
    RunNext(h, s1, k, k.ciphertext, k.first, c);
    var s2 := Next(h, s1, RunCompute(k.machine, k.first)).value;
    Then(h, start, run + [SetTee(k.owner, k.machine)], RunCompute(k.machine, k.first), s2);
    FinalizeNext(h, s2, k, k.ciphertext, 0, c, rounds, k.otherFunded, []);
    Then(h, start, run + [SetTee(k.owner, k.machine)] + [RunCompute(k.machine, k.first)], Finalize(x),
         Next(h, s2, Finalize(x)).value);
  }

  lemma SpentRun(h: Host, k: Cast, c: ComputedRound, who: uint256, share: uint256)
    requires Playable(h, k) && Computable(h, k, c) && Verify(h.keccak, c.root, 0, 0, who, share, [])
    requires 0 < share <= k.otherFunded
    ensures var t := Execute(h, Start(k.owner), Spending(h, k, c, who, share));
            && Stands(t, SpentRounds(h, k, c, share), k.otherFunded - share, [])
            && t.chain.payments == [Payment(NATIVE, k.org, k.funded), Payment(NATIVE, who, share)]
            && t.orders == map[k.first := ComputeOrder(k.ciphertext)]
            && t.now == 0 && t.chain.teeAddress == k.machine
  {
    var run, claim := Finishing(h, k, c), MakeClaim(who, 0, 0, share, [], true);
    RevivedFinalizes(h, k, c);
    var s := Execute(h, Start(k.owner), run);
    ClaimNext(h, s, who, share, FinishedRounds(h, k, c), k.otherFunded);
    Then(h, Start(k.owner), run, claim, Next(h, s, claim).value);
  }

  // A round whose funding went back to its organization pays its recipient out of the other organization's
  // funding, and that organization can no longer cancel.
  lemma AnotherRoundPays(h: Host, k: Cast, c: ComputedRound, who: uint256, share: uint256)
    requires Playable(h, k) && Computable(h, k, c) && Verify(h.keccak, c.root, 0, 0, who, share, [])
    requires 0 < share <= k.otherFunded
    ensures var chain := Execute(h, Start(k.owner), Spending(h, k, c, who, share)).chain;
            && chain.payments == [Payment(NATIVE, k.org, k.funded), Payment(NATIVE, who, share)]
            && |chain.rounds| == 2 && chain.rounds[1] == FundedRound(k.other, k.otherFunded)
            && CancelRound(chain, Call(k.other, 0, 0), 1, true) == Reverted(Panic)
  {
    SpentRun(h, k, c, who, share);
  }

  // There the dashboard shows more than is outstanding, by what was claimed.
  lemma DashboardOverstates(h: Host, k: Cast, c: ComputedRound, who: uint256, share: uint256)
    requires Playable(h, k) && Computable(h, k, c) && Verify(h.keccak, c.root, 0, 0, who, share, [])
    requires 0 < share <= k.otherFunded
    ensures var chain := Execute(h, Start(k.owner), Spending(h, k, c, who, share)).chain;
            && TokensOf([NATIVE], chain.rounds)
            && Summarized(Newest(chain.rounds)).heldByContract == k.otherFunded
            && OutstandingAcross([NATIVE], chain.outstanding) == k.otherFunded - share
  {
    SpentRun(h, k, c, who, share);
    var chain := Execute(h, Start(k.owner), Spending(h, k, c, who, share)).chain;
    NewestSum(chain.rounds, Held());
    TwoSum(chain.rounds, Held());
    assert OutstandingAcross([NATIVE][1..], chain.outstanding) == 0;
  }

  // ---- Promises beyond the balance ------------------------------------------------------------

  // The other organization goes on with its round, unaware.
  function GoingOn(h: Host, k: Cast): seq<Step>
  {
    [Submit(k.other, 1, h.keccak(k.otherCiphertext))]
    + ([BeginCompute(k.other, 1, k.otherCiphertext, true)] + [EndCompute(k.second)])
  }

  ghost function Promising(h: Host, k: Cast, c: ComputedRound, who: uint256, share: uint256): seq<Step>
  {
    Spending(h, k, c, who, share) + GoingOn(h, k)
  }

  ghost function Overpromising(h: Host, k: Cast, c: ComputedRound, who: uint256, share: uint256, o: ComputedRound):
    seq<Step>
  {
    Promising(h, k, c, who, share) + ([RunCompute(k.machine, k.second)] + [Finalize(ResultUnder(h, k, k.second, o))])
  }

  // The other round once its answer is recorded.
  function OtherAsked(h: Host, k: Cast): Round
  {
    Recorded(Submitted(FundedRound(k.other, k.otherFunded), h.keccak(k.otherCiphertext)), 0, k.second)
  }

  lemma OtherSubmits(h: Host, s: System, k: Cast, first: Round, out: nat)
    requires h.keccak(k.otherCiphertext) != ZERO32 && k.otherFunded > 0
    requires Stands(s, [first, FundedRound(k.other, k.otherFunded)], out, [])
    ensures var commitment := h.keccak(k.otherCiphertext);
            var next := Next(h, s, Submit(k.other, 1, commitment));
            && next.Some? && SameRest(s, next.value)
            && Stands(next.value, [first, Submitted(FundedRound(k.other, k.otherFunded), commitment)], out, [])
  {
    var rounds := [first, FundedRound(k.other, k.otherFunded)];
    var commitment := h.keccak(k.otherCiphertext);
    SubmitNext(h, s, 1, commitment, rounds, out);
    assert rounds[1 := Submitted(rounds[1], commitment)] == [first, Submitted(rounds[1], commitment)];
  }

  lemma OtherAsks(h: Host, s: System, k: Cast, first: Round, out: nat)
    requires k.otherCiphertext != [] && s.now == 0 && k.second !in s.orders
    requires Stands(s, [first, Submitted(FundedRound(k.other, k.otherFunded), h.keccak(k.otherCiphertext))], out, [])
    ensures var t := Execute(h, s, [BeginCompute(k.other, 1, k.otherCiphertext, true)] + [EndCompute(k.second)]);
            && Stands(t, [first, OtherAsked(h, k)], out, [])
            && SameRest(s.(orders := s.orders[k.second := ComputeOrder(k.otherCiphertext)]), t)
  {
    var ask := BeginCompute(k.other, 1, k.otherCiphertext, true);
    var rounds := [first, Submitted(FundedRound(k.other, k.otherFunded), h.keccak(k.otherCiphertext))];
    BeginNext(h, s, 1, k.otherCiphertext, rounds, out);
    var s1 := Next(h, s, ask).value;
    Then(h, s, [], ask, s1);
    assert [] + [ask] == [ask];
    EndNext(h, s1, 1, k.otherCiphertext, k.second, rounds, out);
    Then(h, s, [ask], EndCompute(k.second), Next(h, s1, EndCompute(k.second)).value);
    assert rounds[1 := Recorded(rounds[1], 0, k.second)] == [first, OtherAsked(h, k)];
  }

  lemma OtherFinishes(h: Host, s: System, k: Cast, o: ComputedRound, first: Round, out: nat)
    requires Playable(h, k) && OtherComputable(h, k, o) && s.now == 0 && s.chain.teeAddress == k.machine
    requires k.second in s.orders && s.orders[k.second] == ComputeOrder(k.otherCiphertext)
    requires Stands(s, [first, OtherAsked(h, k)], out, [])
    ensures var t := Execute(h, s, [RunCompute(k.machine, k.second)] + [Finalize(ResultUnder(h, k, k.second, o))]);
            Stands(t, [first, Finished(OtherAsked(h, k), ResultOf(h, o), 0)], out, []) && t.now == 0
  {
    var run, x := RunCompute(k.machine, k.second), ResultUnder(h, k, k.second, o);
    var rounds := [first, OtherAsked(h, k)];
    RunNext(h, s, k, k.otherCiphertext, k.second, o);
    var s1 := Next(h, s, run).value;
    Then(h, s, [], run, s1);
    assert [] + [run] == [run];
    FinalizeNext(h, s1, k, k.otherCiphertext, 1, o, rounds, out, []);
    Then(h, s, [run], Finalize(x), Next(h, s1, Finalize(x)).value);
    assert rounds[1 := Finished(rounds[1], ResultOf(h, o), 0)] == [first, Finished(rounds[1], ResultOf(h, o), 0)];
  }

  lemma OtherGoesOn(h: Host, s: System, k: Cast, first: Round, out: nat)
    requires k.otherCiphertext != [] && h.keccak(k.otherCiphertext) != ZERO32 && k.otherFunded > 0
    requires s.now == 0 && k.second !in s.orders
    requires Stands(s, [first, FundedRound(k.other, k.otherFunded)], out, [])
    ensures var t := Execute(h, s, GoingOn(h, k));
            && Stands(t, [first, OtherAsked(h, k)], out, [])
            && SameRest(s.(orders := s.orders[k.second := ComputeOrder(k.otherCiphertext)]), t)
  {
    var submit := Submit(k.other, 1, h.keccak(k.otherCiphertext));
    var asks := [BeginCompute(k.other, 1, k.otherCiphertext, true)] + [EndCompute(k.second)];
    OtherSubmits(h, s, k, first, out);
    var s1 := Next(h, s, submit).value;
    Then(h, s, [], submit, s1);
    assert [] + [submit] == [submit];
    OtherAsks(h, s1, k, first, out);
    Join(h, s, [submit], asks);
  }

  lemma PromisedRun(h: Host, k: Cast, c: ComputedRound, who: uint256, share: uint256)
    requires Playable(h, k) && Computable(h, k, c) && Verify(h.keccak, c.root, 0, 0, who, share, [])
    requires 0 < share <= k.otherFunded && k.otherCiphertext != [] && h.keccak(k.otherCiphertext) != ZERO32
    ensures var t := Execute(h, Start(k.owner), Promising(h, k, c, who, share));
            && Stands(t, [SpentRounds(h, k, c, share)[0], OtherAsked(h, k)], k.otherFunded - share, [])
            && k.second in t.orders && t.orders[k.second] == ComputeOrder(k.otherCiphertext)
            && t.now == 0 && t.chain.teeAddress == k.machine
  {
    var first := SpentRounds(h, k, c, share)[0];
    SpentRun(h, k, c, who, share);
    assert SpentRounds(h, k, c, share) == [first, FundedRound(k.other, k.otherFunded)];
    OtherGoesOn(h, Execute(h, Start(k.owner), Spending(h, k, c, who, share)), k, first, k.otherFunded - share);
    Join(h, Start(k.owner), Spending(h, k, c, who, share), GoingOn(h, k));
  }

  lemma OverpromisedRun(h: Host, k: Cast, c: ComputedRound, who: uint256, share: uint256, o: ComputedRound)
    requires Playable(h, k) && Computable(h, k, c) && Verify(h.keccak, c.root, 0, 0, who, share, [])
    requires OtherComputable(h, k, o) && 0 < share <= k.otherFunded
    ensures Stands(Execute(h, Start(k.owner), Overpromising(h, k, c, who, share, o)),
                   [SpentRounds(h, k, c, share)[0], Finished(OtherAsked(h, k), ResultOf(h, o), 0)],
                   k.otherFunded - share, [])
    ensures Execute(h, Start(k.owner), Overpromising(h, k, c, who, share, o)).now == 0
  {
    var s, first := Execute(h, Start(k.owner), Promising(h, k, c, who, share)), SpentRounds(h, k, c, share)[0];
    var run, x := RunCompute(k.machine, k.second), Finalize(ResultUnder(h, k, k.second, o));
    PromisedRun(h, k, c, who, share);
    OtherFinishes(h, s, k, o, first, k.otherFunded - share);
    Join(h, Start(k.owner), Promising(h, k, c, who, share), [run] + [x]);
  }

  // What the two rounds promise: the one that is swept nothing, the other its total.
  lemma OtherPromise(h: Host, k: Cast, c: ComputedRound, share: uint256, o: ComputedRound)
    ensures var first, other := SpentRounds(h, k, c, share)[0], Finished(OtherAsked(h, k), ResultOf(h, o), 0);
            && other.status == Finalized && !other.swept && other.totalAllocated - other.totalClaimed == o.total
            && SumOver([first, other], UnsweptPromise(NATIVE)) == o.total
  {
    var first, other := SpentRounds(h, k, c, share)[0], Finished(OtherAsked(h, k), ResultOf(h, o), 0);
    assert first.swept && Promised(NATIVE)(other) == o.total;
    TwoSum([first, other], UnsweptPromise(NATIVE));
  }

  // Its round ends finalized, and promises more than the contract holds.
  lemma PromisedBeyondBalance(h: Host, k: Cast, c: ComputedRound, who: uint256, share: uint256, o: ComputedRound)
    requires Playable(h, k) && Computable(h, k, c) && Verify(h.keccak, c.root, 0, 0, who, share, [])
    requires OtherComputable(h, k, o) && 0 < share <= k.otherFunded < o.total + share
    ensures var chain := Execute(h, Start(k.owner), Overpromising(h, k, c, who, share, o)).chain;
            && |chain.rounds| == 2 && chain.rounds[1].status == Finalized && !chain.rounds[1].swept
            && chain.rounds[1].totalAllocated - chain.rounds[1].totalClaimed == o.total
            && SumOver(chain.rounds, UnsweptPromise(NATIVE)) == o.total > Get(chain.held, NATIVE)
  {
    OverpromisedRun(h, k, c, who, share, o);
    OtherPromise(h, k, c, share, o);
  }

  ghost function Outlasting(h: Host, k: Cast, c: ComputedRound, who: uint256, share: uint256, o: ComputedRound):
    seq<Step>
  {
    Overpromising(h, k, c, who, share, o) + [Tick(MIN_CLAIM_WINDOW + 1)]
  }

  lemma OutlastedRun(h: Host, k: Cast, c: ComputedRound, who: uint256, share: uint256, o: ComputedRound)
    requires Playable(h, k) && Computable(h, k, c) && Verify(h.keccak, c.root, 0, 0, who, share, [])
    requires OtherComputable(h, k, o) && 0 < share <= k.otherFunded
    ensures var t := Execute(h, Start(k.owner), Outlasting(h, k, c, who, share, o));
            && Stands(t, [SpentRounds(h, k, c, share)[0], Finished(OtherAsked(h, k), ResultOf(h, o), 0)],
                      k.otherFunded - share, [])
            && t.now == MIN_CLAIM_WINDOW + 1
  {
    var run, wait := Overpromising(h, k, c, who, share, o), Tick(MIN_CLAIM_WINDOW + 1);
    OverpromisedRun(h, k, c, who, share, o);
    var s := Execute(h, Start(k.owner), run);
    TickNext(h, s, MIN_CLAIM_WINDOW + 1, s.chain.rounds, k.otherFunded - share);
    Then(h, Start(k.owner), run, wait, s.(now := s.now + MIN_CLAIM_WINDOW + 1));
  }

  // Once its claim window is over, that round cannot be closed.
  lemma RemainderStranded(h: Host, k: Cast, c: ComputedRound, who: uint256, share: uint256, o: ComputedRound)
    requires Playable(h, k) && Computable(h, k, c) && Verify(h.keccak, c.root, 0, 0, who, share, [])
    requires OtherComputable(h, k, o) && 0 < share <= k.otherFunded
    ensures var s := Execute(h, Start(k.owner), Outlasting(h, k, c, who, share, o));
            && |s.chain.rounds| == 2 && Closable(s.chain, Call(0, 0, s.now), 1)
            && CloseRound(s.chain, Call(0, 0, s.now), 1, true) == Reverted(Panic)
  {
    var s := Execute(h, Start(k.owner), Outlasting(h, k, c, who, share, o));
    OutlastedRun(h, k, c, who, share, o);
    OtherLapsed(h, k, o);
    CloseShort(s, s.chain.rounds, k.otherFunded - share);
  }

  lemma OtherLapsed(h: Host, k: Cast, o: ComputedRound)
    ensures var r := Finished(OtherAsked(h, k), ResultOf(h, o), 0);
            && r.status == Finalized && !r.swept && r.claimDeadline < Clock(MIN_CLAIM_WINDOW + 1)
            && r.funded == k.otherFunded && r.totalClaimed == 0 && r.token == NATIVE
  {
  }

  lemma CloseShort(s: System, rounds: seq<Round>, out: nat)
    requires Stands(s, rounds, out, []) && |rounds| == 2 && rounds[1].status == Finalized && !rounds[1].swept
    requires rounds[1].claimDeadline < Clock(s.now) && rounds[1].token == NATIVE
    requires rounds[1].funded - rounds[1].totalClaimed > out
    ensures Closable(s.chain, Call(0, 0, s.now), 1)
    ensures CloseRound(s.chain, Call(0, 0, s.now), 1, true) == Reverted(Panic)
  {
  }

  // ---- Finalized while the registry is asked again --------------------------------------------

  // The first dispatch, computed on the registered machine.
  function Computed(h: Host, k: Cast): seq<Step>
  {
    Asking(h, k) + [EndCompute(k.first)] + [SetTee(k.owner, k.machine)] + [RunCompute(k.machine, k.first)]
  }

  function ComputingRounds(h: Host, k: Cast): seq<Round>
  {
    OpeningRounds(h, k)[0 := Recorded(CommittedRound(h, k), 0, k.first)]
  }

  lemma ComputedRun(h: Host, k: Cast, c: ComputedRound)
    requires Playable(h, k) && Computable(h, k, c)
    ensures var t := Execute(h, Start(k.owner), Computed(h, k));
            && Stands(t, ComputingRounds(h, k), k.funded + k.otherFunded, [])
            && t.orders == map[k.first := ComputeOrder(k.ciphertext)] && t.now == 0 && t.chain.payments == []
            && t.chain.teeAddress == k.machine && t.chain.owner == k.owner && t.chain.claimed == {}
            && t.signed == {ResultUnder(h, k, k.first, c)}
  {
    var start, out := Start(k.owner), k.funded + k.otherFunded;
    var run, rounds := Asking(h, k), ComputingRounds(h, k);
    Asked(h, k);
    var s := Execute(h, Start(k.owner), run);
    EndNext(h, s, 0, k.ciphertext, k.first, OpeningRounds(h, k), out);
    var s1 := Next(h, s, EndCompute(k.first)).value;
    Then(h, start, run, EndCompute(k.first), s1);
    SetTeeNext(h, s1, k.machine, rounds, out);
    var s2 := Next(h, s1, SetTee(k.owner, k.machine)).value;
    Then(h, start, run + [EndCompute(k.first)], SetTee(k.owner, k.machine), s2);
    RunNext(h, s2, k, k.ciphertext, k.first, c);
    Then(h, start, run + [EndCompute(k.first)] + [SetTee(k.owner, k.machine)], RunCompute(k.machine, k.first),
         Next(h, s2, RunCompute(k.machine, k.first)).value);
  }

  function Waiting(h: Host, k: Cast): seq<Step>
  {
    Computed(h, k) + [Tick(RETRY_TIMEOUT)]
  }

  lemma WaitedRun(h: Host, k: Cast, c: ComputedRound)
    requires Playable(h, k) && Computable(h, k, c)
    ensures var t := Execute(h, Start(k.owner), Waiting(h, k));
            && Stands(t, ComputingRounds(h, k), k.funded + k.otherFunded, [])
            && t.orders == map[k.first := ComputeOrder(k.ciphertext)] && t.now == RETRY_TIMEOUT
            && t.chain.teeAddress == k.machine && t.signed == {ResultUnder(h, k, k.first, c)}
  {
    ComputedRun(h, k, c);
    var s := Execute(h, Start(k.owner), Computed(h, k));
    TickNext(h, s, RETRY_TIMEOUT, ComputingRounds(h, k), k.funded + k.otherFunded);
    Then(h, Start(k.owner), Computed(h, k), Tick(RETRY_TIMEOUT), s.(now := s.now + RETRY_TIMEOUT));
  }

  // After the timeout the organization asks again, and out of the refund somebody relays the first result.
  function Retrying(h: Host, k: Cast): seq<Step>
  {
    Waiting(h, k) + [BeginCompute(k.org, 0, k.ciphertext, true)]
  }

  lemma RetriedRun(h: Host, k: Cast, c: ComputedRound)
    requires Playable(h, k) && Computable(h, k, c)
    ensures var t := Execute(h, Start(k.owner), Retrying(h, k));
            && Stands(t, ComputingRounds(h, k), k.funded + k.otherFunded, [Dispatch(0, k.ciphertext)])
            && t.orders == map[k.first := ComputeOrder(k.ciphertext)] && t.now == RETRY_TIMEOUT
            && t.chain.teeAddress == k.machine && t.signed == {ResultUnder(h, k, k.first, c)}
  {
    var rounds, ask := ComputingRounds(h, k), BeginCompute(k.org, 0, k.ciphertext, true);
    WaitedRun(h, k, c);
    var s := Execute(h, Start(k.owner), Waiting(h, k));
    RetryIsDue(h, k);
    BeginNext(h, s, 0, k.ciphertext, rounds, k.funded + k.otherFunded);
    Then(h, Start(k.owner), Waiting(h, k), ask, Next(h, s, ask).value);
  }

  lemma RetryIsDue(h: Host, k: Cast)
    ensures var r := ComputingRounds(h, k)[0];
            && r.status == Computing && r.organization == k.org && r.policyCommitment == h.keccak(k.ciphertext)
            && r.computeRequestedAt + RETRY_TIMEOUT <= Clock(RETRY_TIMEOUT)
            && r.funded == k.funded && r.claimWindow == MIN_CLAIM_WINDOW && r.computeInstructionId == k.first
            && r.token == NATIVE && !r.swept && r.totalClaimed == 0
  {
  }

  // The second answer is recorded, time passes, and the second instruction is computed.
  function Again(k: Cast, seconds: nat): seq<Step>
  {
    [EndCompute(k.second)] + [Tick(seconds)] + [RunCompute(k.machine, k.second)]
  }

  lemma AgainRun(h: Host, s: System, k: Cast, c: ComputedRound, seconds: nat, rounds: seq<Round>, out: nat)
    requires Playable(h, k) && Computable(h, k, c) && rounds != []
    requires Stands(s, rounds, out, [Dispatch(0, k.ciphertext)]) && s.chain.teeAddress == k.machine
    requires s.orders == map[k.first := ComputeOrder(k.ciphertext)]
    ensures var t := Execute(h, s, Again(k, seconds));
            && Stands(t, rounds[0 := Recorded(rounds[0], s.now, k.second)], out, [])
            && t.now == s.now + seconds && t.chain.teeAddress == k.machine
            && ResultUnder(h, k, k.second, c) in t.signed
  {
    EndNext(h, s, 0, k.ciphertext, k.second, rounds, out);
    var s1 := Next(h, s, EndCompute(k.second)).value;
    Then(h, s, [], EndCompute(k.second), s1);
    var after := rounds[0 := Recorded(rounds[0], s.now, k.second)];
    TickNext(h, s1, seconds, after, out);
    var s2 := Next(h, s1, Tick(seconds)).value;
    Then(h, s, [EndCompute(k.second)], Tick(seconds), s2);
    RunNext(h, s2, k, k.ciphertext, k.second, c);
    assert [] + [EndCompute(k.second)] == [EndCompute(k.second)];
    Then(h, s, [EndCompute(k.second)] + [Tick(seconds)], RunCompute(k.machine, k.second),
         Next(h, s2, RunCompute(k.machine, k.second)).value);
  }

  // What a second finalization makes of a round whose next answer was recorded after the first.
  lemma TwoDeadlines(r: Round, res: AllocationResult, now: nat, answer: Bytes32, seconds: nat)
    requires now + seconds + r.claimWindow < UINT48
    ensures var one := Finished(r, res, now);
            var two := Finished(Recorded(one, now, answer), res, now + seconds);
            one.status == two.status == Finalized && two.claimDeadline == one.claimDeadline + seconds
  {
  }

  // Two results for one round are accepted one after the other, and its deadline moves by the time between.
  ghost predicate AcceptedTwice(h: Host, s: System, x: Signed, between: seq<Step>, y: Signed, seconds: nat)
  {
    var one := Next(h, s, Finalize(x));
    && one.Some? && one.value.chain.rounds != []
    && var two := Next(h, Execute(h, one.value, between), Finalize(y));
       && two.Some? && two.value.chain.rounds != []
       && var a, b := one.value.chain.rounds[0], two.value.chain.rounds[0];
          a.status == b.status == Finalized && b.claimDeadline == a.claimDeadline + seconds
  }

  // A round is finalized twice, by two instructions.
  lemma FinalizedWhileAsked(h: Host, k: Cast, c: ComputedRound, seconds: nat)
    requires Playable(h, k) && Computable(h, k, c) && RETRY_TIMEOUT + seconds + MIN_CLAIM_WINDOW < UINT48
    ensures AcceptedTwice(h, Execute(h, Start(k.owner), Retrying(h, k)), ResultUnder(h, k, k.first, c),
                          Again(k, seconds), ResultUnder(h, k, k.second, c), seconds)
  {
    var s := Execute(h, Start(k.owner), Retrying(h, k));
    RetriedRun(h, k, c);
    RetryIsDue(h, k);
    TwiceFrom(h, s, k, c, seconds, ComputingRounds(h, k), k.funded + k.otherFunded);
  }

  lemma TwiceFrom(h: Host, s: System, k: Cast, c: ComputedRound, seconds: nat, rounds: seq<Round>, out: nat)
    requires Playable(h, k) && Computable(h, k, c) && rounds != [] && s.chain.teeAddress == k.machine
    requires Stands(s, rounds, out, [Dispatch(0, k.ciphertext)]) && s.now + seconds + MIN_CLAIM_WINDOW < UINT48
    requires s.orders == map[k.first := ComputeOrder(k.ciphertext)] && ResultUnder(h, k, k.first, c) in s.signed
    requires rounds[0].status == Computing && rounds[0].policyCommitment == c.commitment
    requires rounds[0].funded == k.funded && rounds[0].claimWindow == MIN_CLAIM_WINDOW
    requires rounds[0].computeInstructionId == k.first
    ensures AcceptedTwice(h, s, ResultUnder(h, k, k.first, c), Again(k, seconds), ResultUnder(h, k, k.second, c),
                          seconds)
  {
    var x, y := ResultUnder(h, k, k.first, c), ResultUnder(h, k, k.second, c);
    FinalizeNext(h, s, k, k.ciphertext, 0, c, rounds, out, [Dispatch(0, k.ciphertext)]);
    var one := Next(h, s, Finalize(x)).value;
    var after := rounds[0 := Finished(rounds[0], ResultOf(h, c), s.now)];
    AgainRun(h, one, k, c, seconds, after, out);
    var t := Execute(h, one, Again(k, seconds));
    FinalizeNext(h, t, k, k.ciphertext, 0, c, after[0 := Recorded(after[0], s.now, k.second)], out, []);
    TwoDeadlines(rounds[0], ResultOf(h, c), s.now, k.second, seconds);
    AcceptedTwiceBy(h, s, x, Again(k, seconds), y, seconds, one, Next(h, t, Finalize(y)).value);
  }

  lemma AcceptedTwiceBy(h: Host, s: System, x: Signed, between: seq<Step>, y: Signed, seconds: nat,
                        one: System, two: System)
    requires Next(h, s, Finalize(x)) == Some(one) && Next(h, Execute(h, one, between), Finalize(y)) == Some(two)
    requires one.chain.rounds != [] && two.chain.rounds != []
    requires one.chain.rounds[0].status == two.chain.rounds[0].status == Finalized
    requires two.chain.rounds[0].claimDeadline == one.chain.rounds[0].claimDeadline + seconds
    ensures AcceptedTwice(h, s, x, between, y, seconds)
  {
  }

  // ---- Closed with funding to spare -----------------------------------------------------------

  lemma CloseNext(h: Host, s: System, rounds: seq<Round>, out: nat)
    requires Stands(s, rounds, out, []) && rounds != [] && rounds[0].status == Finalized && !rounds[0].swept
    requires Clock(s.now) > rounds[0].claimDeadline && rounds[0].token == NATIVE
    requires rounds[0].totalClaimed < rounds[0].funded && rounds[0].funded - rounds[0].totalClaimed <= out
    ensures var next, r := Next(h, s, Close(0, true)), rounds[0];
            && next.Some?
            && next.value.chain.payments
                 == s.chain.payments + [Payment(NATIVE, r.organization, r.funded - r.totalClaimed)]
  {
  }

  // The ordinary course of a round, up to the end of its claim window.
  ghost function Lapsing(h: Host, k: Cast, c: ComputedRound): seq<Step>
  {
    Computed(h, k) + [Finalize(ResultUnder(h, k, k.first, c))] + [Tick(MIN_CLAIM_WINDOW + 1)]
  }

  function LapsedRounds(h: Host, k: Cast, c: ComputedRound): seq<Round>
  {
    ComputingRounds(h, k)[0 := Finished(ComputingRounds(h, k)[0], ResultOf(h, c), 0)]
  }

  lemma LapsedRun(h: Host, k: Cast, c: ComputedRound)
    requires Playable(h, k) && Computable(h, k, c)
    ensures var t := Execute(h, Start(k.owner), Lapsing(h, k, c));
            && Stands(t, LapsedRounds(h, k, c), k.funded + k.otherFunded, [])
            && t.now == MIN_CLAIM_WINDOW + 1 && t.chain.payments == []
  {
    var start, out := Start(k.owner), k.funded + k.otherFunded;
    var x := ResultUnder(h, k, k.first, c);
    ComputedRun(h, k, c);
    RetryIsDue(h, k);
    var s := Execute(h, start, Computed(h, k));
    FinalizeNext(h, s, k, k.ciphertext, 0, c, ComputingRounds(h, k), out, []);
    var t := Next(h, s, Finalize(x)).value;
    Then(h, start, Computed(h, k), Finalize(x), t);
    TickNext(h, t, MIN_CLAIM_WINDOW + 1, LapsedRounds(h, k, c), out);
    Then(h, start, Computed(h, k) + [Finalize(x)], Tick(MIN_CLAIM_WINDOW + 1), t.(now := t.now + MIN_CLAIM_WINDOW + 1));
  }

  // Nobody claims: closing sends the whole funding, and that is more than the unclaimed allocation whenever
  // less than the funding was allocated.
  lemma SweepCanExceedAllocation(h: Host, k: Cast, c: ComputedRound)
    requires Playable(h, k) && Computable(h, k, c) && c.total < k.funded
    ensures var s := Execute(h, Start(k.owner), Lapsing(h, k, c));
            var next := Next(h, s, Close(0, true));
            && next.Some? && next.value.chain.payments == [Payment(NATIVE, k.org, k.funded)]
            && s.chain.rounds != [] && s.chain.rounds[0].totalAllocated - s.chain.rounds[0].totalClaimed < k.funded
  {
    LapsedRun(h, k, c);
    LapsedIsOver(h, k, c);
    SweepFrom(h, Execute(h, Start(k.owner), Lapsing(h, k, c)), LapsedRounds(h, k, c), k.funded + k.otherFunded);
  }

  lemma SweepFrom(h: Host, s: System, rounds: seq<Round>, out: nat)
    requires Stands(s, rounds, out, []) && s.chain.payments == [] && rounds != [] && rounds[0].status == Finalized
    requires Clock(s.now) > rounds[0].claimDeadline && rounds[0].token == NATIVE && !rounds[0].swept
    requires rounds[0].totalClaimed == 0 < rounds[0].funded <= out && rounds[0].totalAllocated < rounds[0].funded
    ensures var next, r := Next(h, s, Close(0, true)), s.chain.rounds[0];
            && next.Some? && next.value.chain.payments == [Payment(NATIVE, r.organization, r.funded)]
            && r.totalAllocated - r.totalClaimed < r.funded
  {
    CloseNext(h, s, rounds, out);
  }

  lemma LapsedIsOver(h: Host, k: Cast, c: ComputedRound)
    ensures var r := LapsedRounds(h, k, c)[0];
            && r.status == Finalized && r.claimDeadline < Clock(MIN_CLAIM_WINDOW + 1) && !r.swept
            && r.totalAllocated == c.total && r.totalClaimed == 0 && r.funded == k.funded
            && r.organization == k.org && r.token == NATIVE
  {
  }

  // What the runs ask of the ciphertexts is met by the engine with one explicit row each, of any shares within
  // the funding, under any hash that does not answer zero for them.
  lemma GrantsAreComputable(keccak: Hash, self: uint256, k: Cast, first: Grant, second: Grant)
    requires first.roundId == 0 && first.who > 0 && 0 < first.share <= k.funded
    requires second.roundId == 1 && second.who > 0 && 0 < second.share <= k.otherFunded
    requires k.otherCiphertext != [] && k.otherCiphertext != k.ciphertext && keccak(k.otherCiphertext) != ZERO32
    requires LeafHash(keccak, 0, 0, first.who, first.share) != ZERO32
    requires LeafHash(keccak, 1, 0, second.who, second.share) != ZERO32
    ensures var h := HostOf(Granting(keccak, self, k.ciphertext, first, second));
            var c, o := h.compute(k.ciphertext), h.compute(k.otherCiphertext);
            && Faithful(h) && c.Some? && Computable(h, k, c.value) && c.value.total == first.share
            && Verify(h.keccak, c.value.root, 0, 0, first.who, first.share, [])
            && o.Some? && OtherComputable(h, k, o.value) && o.value.total == second.share
  {
    var d := Granting(keccak, self, k.ciphertext, first, second);
    EngineIsFaithful(d);
    GrantComputes(d, first, k.ciphertext);
    GrantComputes(d, second, k.otherCiphertext);
  }
}
