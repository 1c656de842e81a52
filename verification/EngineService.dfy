/** The engine object: its map of computed rounds and its counters, handler by handler. */
module EngineService {
  import opened Options
  import opened Bytes
  import opened Merkle
  import opened Rounds
  import opened Policies
  import opened Enclave
  import A = Allocate
  import G = EngineAllocate
  import T = EngineMerkle
  import F = FrontendMerkle

  datatype Stats = Stats(computeRequests: nat, discloseRequests: nat, attestRequests: nat, failedRequests: nat)

  class Engine {
    const d: Deployment
    var rounds: Memory
    var stats: Stats

    constructor (deployment: Deployment)
      ensures d == deployment && rounds == map[] && stats == Stats(0, 0, 0, 0) && Remembers(HostOf(d), rounds)
    {
      d := deployment;
      rounds, stats := map[], Stats(0, 0, 0, 0);
    }

    method LeavesOf(roundId: nat, table: seq<A.Allocation>) returns (leaves: seq<Bytes32>)
      ensures leaves == Leaves(d.keccak, roundId, table)
    {
      leaves := [];
      for i := 0 to |table|
        invariant leaves == Leaves(d.keccak, roundId, table)[..i]
      {
        var a := table[i];
        leaves := leaves + [LeafHash(d.keccak, roundId, a.index, a.recipient, a.amount)];
      }
    }

    method IndexByRecipient(table: seq<A.Allocation>) returns (m: map<nat, nat>)
      ensures m == RecipientIndex(table, |table|)
    {
      m := map[];
      for i := 0 to |table|
        invariant m == RecipientIndex(table, i)
      {
        m := m[table[i].recipient := i];
      }
    }

    // The decrypt, validate, evaluate and commit steps, before anything is stored.
    method Run(ciphertext: seq<byte>) returns (computed: Option<ComputedRound>)
      ensures computed == ComputeRound(d, ciphertext)
    {
      var plaintext := d.decrypt(ciphertext);
      if plaintext == None {
        return None;
      }
      var policy: Policy := plaintext.value;
      var fault := Validate(policy, Some(d.self));
      if fault != None {
        return None;
      }
      var evaluated := G.EvaluatePolicy(policy);
      if evaluated.Err? {
        return None;
      }
      var table := evaluated.value;
      var leaves := LeavesOf(policy.roundId, table);
      var built := T.BuildMerkleTree(d.keccak, leaves);
      if built == T.NoTree {
        return None;
      }
      var root := T.RootOf(d.keccak, built.tree, leaves);
      var total := G.Total(table);
      var byRecipient := IndexByRecipient(table);
      return Some(ComputedRound(policy.roundId, d.keccak(ciphertext), policy.organization, table,
                                built.tree.levels, root, total, byRecipient));
    }

    method ProcessCompute(ciphertext: seq<byte>) returns (answer: Option<AllocationResult>)
      requires Remembers(HostOf(d), rounds)
      modifies this
      ensures Remembers(HostOf(d), rounds)
      ensures match ComputeRound(d, ciphertext)
              case None => answer == None && rounds == old(rounds)
              case Some(r) => answer == Some(ResultOf(HostOf(d), r)) && rounds == old(rounds)[r.commitment := r]
      ensures stats == old(stats).(computeRequests := old(stats).computeRequests + 1,
                                   failedRequests := old(stats).failedRequests + if answer == None then 1 else 0)
    {
      stats := stats.(computeRequests := stats.computeRequests + 1);
      var computed := Run(ciphertext);
      if computed == None {
        stats := stats.(failedRequests := stats.failedRequests + 1);
        return None;
      }
      RememberComputed(d, rounds, ciphertext, computed.value);
      rounds := rounds[computed.value.commitment := computed.value];
      return Some(ResultOf(HostOf(d), computed.value));
    }

    method RowFor(round: ComputedRound, requester: nat) returns (x: F.Disclosure)
      requires Coherent(HostOf(d), round) && requester in round.byRecipient
      ensures var idx := round.byRecipient[requester];
              && idx < |round.table|
              && x == F.Disclosure(round.roundId, round.table[idx].index, round.table[idx].recipient,
                                   round.table[idx].amount, ProofFrom(round.levels, idx), round.root)
    {
      var idx := round.byRecipient[requester];
      var row := round.table[idx];
      ghost var leaves := Leaves(d.keccak, round.roundId, round.table);
      var proof := T.ProofOf(d.keccak, T.MerkleTree(round.levels), idx, leaves);
      StoredProof(d.keccak, leaves, idx);
      x := F.Disclosure(round.roundId, row.index, row.recipient, row.amount, proof, round.root);
    }

    // keyOk says whether the reply could be encrypted to the requester's key.
    method ProcessDisclose(contract: uint256, roundId: nat, commitment: Bytes32, requester: nat, keyOk: bool)
        returns (answer: Option<F.Disclosure>)
      requires Remembers(HostOf(d), rounds)
      modifies this`stats
      ensures answer == if keyOk then Disclose(HostOf(d), rounds, contract, roundId, commitment, requester) else None
      ensures stats == old(stats).(discloseRequests := old(stats).discloseRequests + 1,
                                   failedRequests := old(stats).failedRequests + if answer == None then 1 else 0)
    {
      stats := stats.(discloseRequests := stats.discloseRequests + 1);
      answer := Disclosed(contract, roundId, commitment, requester, keyOk);
      if answer == None {
        stats := stats.(failedRequests := stats.failedRequests + 1);
      }
    }

    method Disclosed(contract: uint256, roundId: nat, commitment: Bytes32, requester: nat, keyOk: bool)
        returns (answer: Option<F.Disclosure>)
      requires Remembers(HostOf(d), rounds)
      ensures answer == if keyOk then Disclose(HostOf(d), rounds, contract, roundId, commitment, requester) else None
    {
      EngineIsFaithful(d);
      SelfCheckNeverFails(HostOf(d), rounds, contract, roundId, commitment);
      if contract != d.self || requester == 0 || commitment !in rounds {
        return None;
      }
      var round := rounds[commitment];
      if round.roundId != roundId || requester !in round.byRecipient || !keyOk {
        return None;
      }
      var disclosure := RowFor(round, requester);
      return Some(disclosure);
    }

    method Intact(round: ComputedRound) returns (ok: bool)
      ensures ok <==> RootIsIntact(HostOf(d), round)
    {
      var leaves := LeavesOf(round.roundId, round.table);
      var built := T.BuildMerkleTree(d.keccak, leaves);
      if built == T.NoTree {
        return false;
      }
      var root := T.RootOf(d.keccak, built.tree, leaves);
      return root == round.root;
    }

    method ProcessAttest(contract: uint256, roundId: nat, commitment: Bytes32)
        returns (answer: Option<AllocationResult>)
      modifies this`stats
      ensures answer == Attest(HostOf(d), rounds, contract, roundId, commitment)
      ensures stats == old(stats).(attestRequests := old(stats).attestRequests + 1,
                                   failedRequests := old(stats).failedRequests + if answer == None then 1 else 0)
    {
      stats := stats.(attestRequests := stats.attestRequests + 1);
      if contract != d.self || commitment !in rounds || rounds[commitment].roundId != roundId {
        stats := stats.(failedRequests := stats.failedRequests + 1);
        return None;
      }
      var round := rounds[commitment];
      var intact := Intact(round);
      if !intact {
        stats := stats.(failedRequests := stats.failedRequests + 1);
        return None;
      }
      return Some(ResultOf(HostOf(d), round));
    }
  }
}
