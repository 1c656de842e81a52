/** What the enclave computes from a ciphertext, what it remembers, and what it answers. */
module Enclave {
  import opened Options
  import opened Bytes
  import opened Merkle
  import opened Rounds
  import opened Policies
  import A = Allocate
  import Terms
  import F = FrontendMerkle

  // A policy as ABI decoding yields it: every number fits its field.
  predicate InAbiRange(p: Policy)
  {
    && p.contractAddr < UINT256 && p.roundId < UINT256 && p.totalBudget < UINT256
    && forall i :: 0 <= i < |p.entries| ==> p.entries[i].recipient < UINT256
  }

  type AbiPolicy = p: Policy | InAbiRange(p) witness Policy(0, 0, 0, 0, 0, 0, 0, [], [])

  // A deployment: the hash function, decryption with decoding, the served contract, the version string.
  datatype Deployment = Deployment(keccak: Hash, decrypt: seq<byte> -> Option<AbiPolicy>, self: uint256,
                                   version: Bytes32)

  datatype ComputedRound = ComputedRound(roundId: uint256, commitment: Bytes32, organization: nat,
                                         table: seq<A.Allocation>, levels: seq<seq<Bytes32>>, root: Bytes32,
                                         total: nat, byRecipient: map<nat, nat>)

  function Leaves(keccak: Hash, roundId: nat, t: seq<A.Allocation>): (leaves: seq<Bytes32>)
    ensures |leaves| == |t|
    ensures forall i :: 0 <= i < |t| ==>
              leaves[i] == LeafHash(keccak, roundId, t[i].index, t[i].recipient, t[i].amount)
  {
    seq(|t|, i requires 0 <= i < |t| => LeafHash(keccak, roundId, t[i].index, t[i].recipient, t[i].amount))
  }

  function RecipientIndex(t: seq<A.Allocation>, n: nat): map<nat, nat>
    requires n <= |t|
  {
    if n == 0 then map[] else RecipientIndex(t, n - 1)[t[n - 1].recipient := n - 1]
  }

  // ---- COMPUTE -------------------------------------------------------------------------------

  function ComputeRound(d: Deployment, ciphertext: seq<byte>): Option<ComputedRound>
  {
    match d.decrypt(ciphertext)
    case None => None
    case Some(p) =>
      if !Valid(p, Some(d.self)) then None
      else
        match A.Evaluate(p)
        case Err(_) => None
        case Ok(t) =>
          var leaves := Leaves(d.keccak, p.roundId, t);
          if leaves == [] then None
          else Some(ComputedRound(p.roundId, d.keccak(ciphertext), p.organization, t,
                                  Levels(d.keccak, leaves), Root(d.keccak, leaves),
                                  A.SumAllocations(t), RecipientIndex(t, |t|)))
  }

  // A ciphertext computes to something exactly if it decrypts to a valid policy that pays somebody; what is
  // computed is then for that policy's round and organization, and its table is the one that follows the
  // policy's terms.
  lemma ComputeExactly(d: Deployment, ciphertext: seq<byte>)
    ensures ComputeRound(d, ciphertext).Some? <==>
              && d.decrypt(ciphertext).Some? && Valid(d.decrypt(ciphertext).value, Some(d.self))
              && Terms.PaysSomething(d.decrypt(ciphertext).value)
    ensures ComputeRound(d, ciphertext).Some? ==>
              var r, p: Policy := ComputeRound(d, ciphertext).value, d.decrypt(ciphertext).value;
              && r.roundId == p.roundId && r.organization == p.organization && r.commitment == d.keccak(ciphertext)
              && r.total == A.SumAllocations(r.table) && A.Evaluate(p) == A.Ok(r.table)
              && A.GoodTable(r.table, p) && Terms.Follows(r.table, p)
  {
    if d.decrypt(ciphertext).Some? && Valid(d.decrypt(ciphertext).value, Some(d.self)) {
      Terms.EvaluateFollowsTerms(d.decrypt(ciphertext).value);
    }
  }

  // What the rest of the system relies on of an enclave: its hash function, the contract it serves, its
  // version, and the function from ciphertexts to computed rounds it runs.
  datatype Host = Host(keccak: Hash, self: uint256, version: Bytes32,
                       compute: seq<byte> -> Option<ComputedRound>)

  function HostOf(d: Deployment): Host
  {
    Host(d.keccak, d.self, d.version, (ciphertext: seq<byte>) => ComputeRound(d, ciphertext))
  }

  // The public aggregate of a computed round.
  function ResultOf(h: Host, r: ComputedRound): AllocationResult
  {
    AllocationResult(h.self, r.roundId, r.commitment, r.root, r.total, |r.table|, h.version)
  }

  type Memory = map<Bytes32, ComputedRound>

  // ---- DISCLOSE and ATTEST -------------------------------------------------------------------

  function Find(h: Host, m: Memory, contract: uint256, roundId: nat, commitment: Bytes32): Option<ComputedRound>
  {
    if contract != h.self || commitment !in m || m[commitment].roundId != roundId then None
    else Some(m[commitment])
  }

  function Disclose(h: Host, m: Memory, contract: uint256, roundId: nat, commitment: Bytes32,
                    requester: nat): Option<F.Disclosure>
  {
    match Find(h, m, contract, roundId, commitment)
    case None => None
    case Some(r) =>
      if requester == 0 || requester !in r.byRecipient || r.byRecipient[requester] >= |r.table| then None
      else
        var idx := r.byRecipient[requester];
        var row := r.table[idx];
        Some(F.Disclosure(r.roundId, row.index, row.recipient, row.amount, ProofFrom(r.levels, idx), r.root))
  }

  predicate RootIsIntact(h: Host, r: ComputedRound)
  {
    var leaves := Leaves(h.keccak, r.roundId, r.table);
    leaves != [] && Root(h.keccak, leaves) == r.root
  }

  function Attest(h: Host, m: Memory, contract: uint256, roundId: nat, commitment: Bytes32): Option<AllocationResult>
  {
    match Find(h, m, contract, roundId, commitment)
    case None => None
    case Some(r) => if RootIsIntact(h, r) then Some(ResultOf(h, r)) else None
  }

  // ---- What a computed round is --------------------------------------------------------------

  // The table, its tree, its total and its lookup fit together and fit the chain's number ranges.
  ghost predicate Coherent(h: Host, r: ComputedRound)
  {
    var leaves := Leaves(h.keccak, r.roundId, r.table);
    && r.table != []
    && (forall i :: 0 <= i < |r.table| ==>
          && r.table[i].index == i && 0 < r.table[i].amount < UINT256 && 0 < r.table[i].recipient < UINT256
          && r.table[i].recipient in r.byRecipient && r.byRecipient[r.table[i].recipient] == i)
    && (forall who :: who in r.byRecipient ==>
          r.byRecipient[who] < |r.table| && r.table[r.byRecipient[who]].recipient == who)
    && |r.table| <= MAX_RECIPIENTS
    && r.levels == Levels(h.keccak, leaves) && r.root == Root(h.keccak, leaves)
    && r.total == A.SumAllocations(r.table)
  }

  lemma {:induction false} RecipientIndexInverts(t: seq<A.Allocation>, n: nat)
    requires n <= |t| && A.Ascending(t)
    ensures forall i :: 0 <= i < n ==>
              t[i].recipient in RecipientIndex(t, n) && RecipientIndex(t, n)[t[i].recipient] == i
    ensures forall who :: who in RecipientIndex(t, n) ==>
              RecipientIndex(t, n)[who] < n && t[RecipientIndex(t, n)[who]].recipient == who
  {
    if n > 0 {
      RecipientIndexInverts(t, n - 1);
    }
  }

  lemma {:induction false} RowBelowSum(t: seq<A.Allocation>, i: nat)
    requires i < |t|
    ensures t[i].amount <= A.SumAllocations(t)
  {
    if i > 0 {
      RowBelowSum(t[1..], i - 1);
    }
  }

  // Computed rounds are coherent and bear the commitment of their ciphertext.
  ghost predicate Faithful(h: Host)
  {
    forall ciphertext :: FaithfulAt(h, ciphertext)
  }

  ghost predicate FaithfulAt(h: Host, ciphertext: seq<byte>)
  {
    var r := h.compute(ciphertext);
    r.Some? ==> Coherent(h, r.value) && r.value.commitment == h.keccak(ciphertext)
  }

  // The engine is faithful, whatever it is sent.
  lemma EngineIsFaithful(d: Deployment)
    ensures Faithful(HostOf(d))
  {
    forall ciphertext: seq<byte>
      ensures FaithfulAt(HostOf(d), ciphertext)
    {
      ComputedIsCoherent(d, ciphertext);
    }
  }

  lemma ComputedIsCoherent(d: Deployment, ciphertext: seq<byte>)
    ensures FaithfulAt(HostOf(d), ciphertext)
  {
    var r := ComputeRound(d, ciphertext);
    if r.Some? {
      var p := d.decrypt(ciphertext).value;
      A.EvaluateGood(p);
      var t := A.Evaluate(p).value;
      RecipientIndexInverts(t, |t|);
      forall i | 0 <= i < |t|
        ensures t[i].index == i && 0 < t[i].amount < UINT256 && 0 < t[i].recipient < UINT256
      {
        assert A.GoodRow(t, i, p);
        RowBelowSum(t, i);
      }
    }
  }

  // ---- What memory holds ---------------------------------------------------------------------

  // Every remembered round is what some ciphertext of its commitment computes to.
  ghost predicate Remembers(h: Host, m: Memory)
  {
    forall c :: c in m ==> exists ciphertext ::
      h.keccak(ciphertext) == c && h.compute(ciphertext) == Some(m[c])
  }

  lemma RememberOne(h: Host, m: Memory, ciphertext: seq<byte>, r: ComputedRound)
    requires FaithfulAt(h, ciphertext) && Remembers(h, m) && h.compute(ciphertext) == Some(r)
    ensures Remembers(h, m[r.commitment := r])
  {
  }

  lemma RememberComputed(d: Deployment, m: Memory, ciphertext: seq<byte>, r: ComputedRound)
    requires ComputeRound(d, ciphertext) == Some(r) && Remembers(HostOf(d), m)
    ensures Remembers(HostOf(d), m[r.commitment := r])
  {
    ComputedIsCoherent(d, ciphertext);
    RememberOne(HostOf(d), m, ciphertext, r);
  }

  // Memory holds a computed round of that number under the commitment.
  predicate Holds(m: Memory, roundId: nat, commitment: Bytes32)
  {
    commitment in m && m[commitment].roundId == roundId
  }

  // What is held is coherent.
  lemma HeldIsCoherent(h: Host, m: Memory, roundId: nat, commitment: Bytes32)
    requires Faithful(h) && Remembers(h, m) && Holds(m, roundId, commitment)
    ensures Coherent(h, m[commitment]) && m[commitment].commitment == commitment
  {
    var ciphertext :| h.keccak(ciphertext) == commitment && h.compute(ciphertext) == Some(m[commitment]);
    assert FaithfulAt(h, ciphertext);
  }

  // The self-check before re-signing never fails: for the contract it serves, the engine attests exactly the
  // rounds it holds, with their public aggregates.
  lemma SelfCheckNeverFails(h: Host, m: Memory, contract: uint256, roundId: nat, commitment: Bytes32)
    requires Faithful(h) && Remembers(h, m)
    ensures if contract == h.self && Holds(m, roundId, commitment)
            then && RootIsIntact(h, m[commitment]) && Coherent(h, m[commitment])
                 && Attest(h, m, contract, roundId, commitment) == Some(ResultOf(h, m[commitment]))
            else Attest(h, m, contract, roundId, commitment) == None
  {
    if contract == h.self && Holds(m, roundId, commitment) {
      HeldIsCoherent(h, m, roundId, commitment);
    }
  }

  // A disclosure names the requester's own row of a coherent table, and checks against its root.
  lemma DisclosureIsOwnRow(h: Host, m: Memory, contract: uint256, roundId: nat, commitment: Bytes32, requester: nat)
    requires Faithful(h) && Remembers(h, m)
    ensures var x := Disclose(h, m, contract, roundId, commitment, requester);
            x.Some? ==>
              var r := m[commitment];
              && x.value.index < |r.table| && r.table[x.value.index].recipient == requester == x.value.recipient
              && x.value.amount == r.table[x.value.index].amount
              && (r.root != ZERO32 ==> F.CheckDisclosure(h.keccak, x.value, r.root))
  {
    var x := Disclose(h, m, contract, roundId, commitment, requester);
    if x.Some? {
      SelfCheckNeverFails(h, m, contract, roundId, commitment);
      var r := m[commitment];
      var idx := r.byRecipient[requester];
      var leaves := Leaves(h.keccak, r.roundId, r.table);
      StoredProof(h.keccak, leaves, idx);
      Completeness(h.keccak, leaves, idx);
    }
  }

  // For the contract it serves and a round it holds, the engine answers exactly the requesters that have a
  // row; for anything else it answers nobody.
  lemma DisclosureForRowsOnly(h: Host, m: Memory, contract: uint256, roundId: nat, commitment: Bytes32, requester: nat)
    requires Faithful(h) && Remembers(h, m)
    ensures Disclose(h, m, contract, roundId, commitment, requester).Some? <==>
              && contract == h.self && Holds(m, roundId, commitment)
              && exists i :: 0 <= i < |m[commitment].table| && m[commitment].table[i].recipient == requester
  {
    if contract == h.self && Holds(m, roundId, commitment) {
      HeldIsCoherent(h, m, roundId, commitment);
      var r := m[commitment];
      if i :| 0 <= i < |r.table| && r.table[i].recipient == requester {
        assert r.byRecipient[requester] == i;
      }
      if Disclose(h, m, contract, roundId, commitment, requester).Some? {
        assert r.table[r.byRecipient[requester]].recipient == requester;
      }
    }
  }

  // ---- Soundness for tables ------------------------------------------------------------------

  // All that building a round's tree hashes.
  ghost function TablePreimages(h: Host, r: ComputedRound): set<seq<byte>>
    requires r.table != []
  {
    (set i | 0 <= i < |r.table| :: RowBytes(r.roundId, r.table[i].index, r.table[i].recipient, r.table[i].amount))
    + (set i | 0 <= i < |r.table| ::
         h.keccak(RowBytes(r.roundId, r.table[i].index, r.table[i].recipient, r.table[i].amount)))
    + TreePreimages(h.keccak, SplitTree(Leaves(h.keccak, r.roundId, r.table)))
  }

  // All that checking a claim hashes.
  ghost function ClaimPreimages(keccak: Hash, roundId: nat, index: nat, who: nat, amount: nat,
                                proof: seq<Bytes32>): set<seq<byte>>
  {
    var row := RowBytes(roundId, index, who, amount);
    {row, keccak(row)} + ClimbPreimages(keccak, keccak(keccak(row)), proof)
  }

  // A row's own bytes and the inner hash of its leaf.
  ghost predicate RowHashed(keccak: Hash, hashed: set<seq<byte>>, row: seq<byte>)
  {
    row in hashed && keccak(row) in hashed
  }

  lemma TableRowHashed(h: Host, hashed: set<seq<byte>>, r: ComputedRound, i: nat)
    requires r.table != [] && TablePreimages(h, r) <= hashed && i < |r.table|
    ensures RowHashed(h.keccak, hashed,
                      RowBytes(r.roundId, r.table[i].index, r.table[i].recipient, r.table[i].amount))
  {
  }

  // Leaves are outer hashes of words that were hashed.
  lemma LeavesHashWords(h: Host, hashed: set<seq<byte>>, r: ComputedRound)
    requires r.table != [] && TablePreimages(h, r) <= hashed
    ensures forall leaf :: leaf in Leaves(h.keccak, r.roundId, r.table) ==> HashesWord(h.keccak, hashed, leaf)
  {
    var leaves := Leaves(h.keccak, r.roundId, r.table);
    forall leaf | leaf in leaves
      ensures HashesWord(h.keccak, hashed, leaf)
    {
      var i :| 0 <= i < |leaves| && leaves[i] == leaf;
      TableRowHashed(h, hashed, r, i);
    }
  }

  // Hashed rows with one leaf are one row.
  lemma OneLeafOneRow(keccak: Hash, hashed: set<seq<byte>>, row: seq<byte>, row': seq<byte>)
    requires CollisionFree(keccak, hashed) && RowHashed(keccak, hashed, row) && RowHashed(keccak, hashed, row')
    requires keccak(keccak(row)) == keccak(keccak(row'))
    ensures row == row'
  {
  }

  // An accepted proof leads from one of the leaves.
  lemma ProvedLeaf(h: Host, hashed: set<seq<byte>>, r: ComputedRound, leaf: Bytes32, proof: seq<Bytes32>)
    requires r.table != [] && r.root == Root(h.keccak, Leaves(h.keccak, r.roundId, r.table))
    requires CollisionFree(h.keccak, hashed) && TablePreimages(h, r) <= hashed
    requires ClimbPreimages(h.keccak, leaf, proof) <= hashed && HashesWord(h.keccak, hashed, leaf)
    requires Climb(h.keccak, leaf, proof) == r.root
    ensures leaf in Leaves(h.keccak, r.roundId, r.table)
  {
    var leaves := Leaves(h.keccak, r.roundId, r.table);
    LeavesHashWords(h, hashed, r);
    LevelsBuildSplitTree(h.keccak, leaves);
    SplitTreeTips(leaves);
    TreeSoundness(h.keccak, hashed, SplitTree(leaves), leaf, proof);
  }

  // A hashed row whose leaf is the i-th is the i-th row.
  lemma RowAtLeaf(h: Host, hashed: set<seq<byte>>, r: ComputedRound, i: nat, index: uint256, who: uint256,
                  amount: uint256)
    requires Coherent(h, r) && CollisionFree(h.keccak, hashed) && TablePreimages(h, r) <= hashed && i < |r.table|
    requires RowHashed(h.keccak, hashed, RowBytes(r.roundId, index, who, amount))
    requires Leaves(h.keccak, r.roundId, r.table)[i] == LeafHash(h.keccak, r.roundId, index, who, amount)
    ensures index == i && r.table[i].recipient == who && r.table[i].amount == amount
  {
    var a := r.table[i];
    TableRowHashed(h, hashed, r, i);
    OneLeafOneRow(h.keccak, hashed, RowBytes(r.roundId, index, who, amount),
                  RowBytes(r.roundId, a.index, a.recipient, a.amount));
    RowBytesInjective(r.roundId, index, who, amount, r.roundId, a.index, a.recipient, a.amount);
  }

  // A proof the contract accepts against the root of a table is for a row of that table, unless two
  // byte strings hashed by the tree or by the verification collide.
  lemma TableSoundness(h: Host, hashed: set<seq<byte>>, r: ComputedRound, index: uint256, who: uint256,
                       amount: uint256, proof: seq<Bytes32>)
    requires Coherent(h, r) && CollisionFree(h.keccak, hashed)
    requires TablePreimages(h, r) <= hashed
    requires ClaimPreimages(h.keccak, r.roundId, index, who, amount, proof) <= hashed
    requires Verify(h.keccak, r.root, r.roundId, index, who, amount, proof)
    ensures index < |r.table| && r.table[index].recipient == who && r.table[index].amount == amount
  {
    var leaf := LeafHash(h.keccak, r.roundId, index, who, amount);
    assert RowHashed(h.keccak, hashed, RowBytes(r.roundId, index, who, amount));
    ProvedLeaf(h, hashed, r, leaf, proof);
    var i :| 0 <= i < |r.table| && Leaves(h.keccak, r.roundId, r.table)[i] == leaf;
    RowAtLeaf(h, hashed, r, i, index, who, amount);
  }

  // An accepted proof for anything but a row of the table exhibits a collision among the finitely many
  // byte strings that building the tree and checking the proof hash.
  lemma ForgeryIsCollision(h: Host, r: ComputedRound, index: uint256, who: uint256, amount: uint256,
                           proof: seq<Bytes32>)
    requires Coherent(h, r)
    requires Verify(h.keccak, r.root, r.roundId, index, who, amount, proof)
    requires !(index < |r.table| && r.table[index].recipient == who && r.table[index].amount == amount)
    ensures var hashed := TablePreimages(h, r) + ClaimPreimages(h.keccak, r.roundId, index, who, amount, proof);
            exists p, q :: p in hashed && q in hashed && p != q && h.keccak(p) == h.keccak(q)
  {
    var hashed := TablePreimages(h, r) + ClaimPreimages(h.keccak, r.roundId, index, who, amount, proof);
    if CollisionFree(h.keccak, hashed) {
      TableSoundness(h, hashed, r, index, who, amount, proof);
      assert false;
    }
  }

  // ---- The root binds the table --------------------------------------------------------------

  // Checking the proof of a row hashes nothing that building the table's tree did not.
  lemma OwnProofWithin(h: Host, r: ComputedRound, i: nat)
    requires Coherent(h, r) && i < |r.table|
    ensures ClaimPreimages(h.keccak, r.roundId, i, r.table[i].recipient, r.table[i].amount,
                           Proof(h.keccak, Leaves(h.keccak, r.roundId, r.table), i))
         <= TablePreimages(h, r)
  {
    TableRowHashed(h, TablePreimages(h, r), r, i);
    ProofWithinTree(h.keccak, Leaves(h.keccak, r.roundId, r.table), i);
  }

  lemma RowsOfOneAreRowsOfOther(h: Host, hashed: set<seq<byte>>, a: ComputedRound, b: ComputedRound, i: nat)
    requires Coherent(h, a) && Coherent(h, b) && a.roundId == b.roundId && a.root == b.root != ZERO32
    requires CollisionFree(h.keccak, hashed) && TablePreimages(h, a) <= hashed && TablePreimages(h, b) <= hashed
    requires i < |a.table|
    ensures i < |b.table| && b.table[i] == a.table[i]
  {
    var leaves := Leaves(h.keccak, a.roundId, a.table);
    Completeness(h.keccak, leaves, i);
    OwnProofWithin(h, a, i);
    TableSoundness(h, hashed, b, i, a.table[i].recipient, a.table[i].amount, Proof(h.keccak, leaves, i));
  }

  lemma {:induction false} FirstRowsAgree(h: Host, hashed: set<seq<byte>>, a: ComputedRound, b: ComputedRound, n: nat)
    requires Coherent(h, a) && Coherent(h, b) && a.roundId == b.roundId && a.root == b.root != ZERO32
    requires CollisionFree(h.keccak, hashed) && TablePreimages(h, a) <= hashed && TablePreimages(h, b) <= hashed
    requires n <= |a.table|
    ensures n <= |b.table| && a.table[..n] == b.table[..n]
  {
    if n > 0 {
      FirstRowsAgree(h, hashed, a, b, n - 1);
      RowsOfOneAreRowsOfOther(h, hashed, a, b, n - 1);
      LastRowExtends(a.table, b.table, n);
    }
  }

  lemma LastRowExtends(a: seq<A.Allocation>, b: seq<A.Allocation>, n: nat)
    requires 0 < n <= |a| && n <= |b| && a[..n - 1] == b[..n - 1] && a[n - 1] == b[n - 1]
    ensures a[..n] == b[..n]
  {
    assert a[..n] == a[..n - 1] + [a[n - 1]] && b[..n] == b[..n - 1] + [b[n - 1]];
  }

  lemma PrefixesMeet(a: seq<A.Allocation>, b: seq<A.Allocation>)
    requires |a| <= |b| <= |a| && a[..|a|] == b[..|a|]
    ensures a == b
  {
    assert a[..|a|] == a && b[..|b|] == b;
  }

  // Two tables of one round with one root are one table, row by row and in order: the index inside each
  // leaf restores what sorted pairs forget.
  lemma RootBindsTable(h: Host, hashed: set<seq<byte>>, a: ComputedRound, b: ComputedRound)
    requires Coherent(h, a) && Coherent(h, b) && a.roundId == b.roundId && a.root == b.root != ZERO32
    requires CollisionFree(h.keccak, hashed)
    requires TablePreimages(h, a) <= hashed && TablePreimages(h, b) <= hashed
    ensures a.table == b.table
  {
    FirstRowsAgree(h, hashed, a, b, |a.table|);
    FirstRowsAgree(h, hashed, b, a, |b.table|);
    PrefixesMeet(a.table, b.table);
  }
}
