/**
 The signature gate in front of finalization: what a signature covers, and who is taken to have signed.
 Elliptic-curve recovery is a parameter; it answers zero when it fails.
 */
module TeeResult {
  import opened Bytes
  import opened Merkle
  import opened Rounds

  // What the enclave reports: the result bytes, the instruction, the submission tag and the status.
  datatype Report = Report(data: seq<byte>, actionId: Bytes32, tag: seq<byte>, status: byte)

  // ecrecover(digest, v, r, s)
  type Recovery = (Bytes32, nat, Bytes32, Bytes32) -> uint256

  function Ascii(s: string): (b: seq<byte>)
    ensures |b| == |s|
  {
    seq(|s|, i requires 0 <= i < |s| => s[i] as int % 256)
  }

  // bytes32("TEE_ACTION_RESULT")
  function Prefix(): Bytes32
  {
    Ascii("TEE_ACTION_RESULT") + seq(15, _ => 0)
  }

  function SignedHeader(): seq<byte>
  {
    [0x19] + Ascii("Ethereum Signed Message:\n32")
  }

  function ResultBytes(keccak: Hash, t: Report): seq<byte>
  {
    keccak(t.data) + t.actionId + keccak(t.tag) + [t.status]
  }

  function PayloadBytes(keccak: Hash, chainId: nat, t: Report): seq<byte>
  {
    Prefix() + Word(chainId) + keccak(ResultBytes(keccak, t))
  }

  function DigestBytes(keccak: Hash, chainId: nat, t: Report): seq<byte>
  {
    SignedHeader() + keccak(PayloadBytes(keccak, chainId, t))
  }

  function Digest(keccak: Hash, chainId: nat, t: Report): Bytes32
  {
    keccak(DigestBytes(keccak, chainId, t))
  }

  // All that computing a digest hashes.
  function DigestPreimages(keccak: Hash, chainId: nat, t: Report): set<seq<byte>>
  {
    {t.data, t.tag, ResultBytes(keccak, t), PayloadBytes(keccak, chainId, t), DigestBytes(keccak, chainId, t)}
  }

  // ---- Verification --------------------------------------------------------------------------

  datatype Refusal = Failure(status: byte) | BadLength(length: nat) | BadV(v: nat) | InvalidSignature
                   | WrongSigner(recovered: uint256)

  datatype Recovered = By(signer: uint256) | Malformed(reason: Refusal)

  datatype Verdict = Accepted | Refused(reason: Refusal)

  function NormalV(v: byte): nat
  {
    if v < 27 then v + 27 else v
  }

  // Splits r, s and v off the signature and recovers; a zero answer counts as no signature.
  function Recover(ecrecover: Recovery, digest: Bytes32, sig: seq<byte>): Recovered
  {
    if |sig| != 65 then Malformed(BadLength(|sig|))
    else
      var v := NormalV(sig[64]);
      if v != 27 && v != 28 then Malformed(BadV(v))
      else
        var signer := ecrecover(digest, v, sig[..32], sig[32..64]);
        if signer == 0 then Malformed(InvalidSignature) else By(signer)
  }

  // The reverting check of finalization.
  function RequireValid(keccak: Hash, ecrecover: Recovery, chainId: nat, t: Report, sig: seq<byte>,
                        tee: uint256): Verdict
  {
    if t.status != SUCCESS then Refused(Failure(t.status))
    else
      match Recover(ecrecover, Digest(keccak, chainId, t), sig)
      case Malformed(reason) => Refused(reason)
      case By(signer) => if signer != tee then Refused(WrongSigner(signer)) else Accepted
  }

  // The variant for views, written apart.
  predicate IsValid(keccak: Hash, ecrecover: Recovery, chainId: nat, t: Report, sig: seq<byte>, tee: uint256)
  {
    if t.status != SUCCESS || |sig| != 65 || tee == 0 then false
    else
      var v := NormalV(sig[64]);
      (v == 27 || v == 28) && ecrecover(Digest(keccak, chainId, t), v, sig[..32], sig[32..64]) == tee
  }

  // The view says yes exactly when finalization would not refuse the signature, registered machine or not.
  lemma ViewAgreesWithFinalization(keccak: Hash, ecrecover: Recovery, chainId: nat, t: Report, sig: seq<byte>,
                                   tee: uint256)
    ensures IsValid(keccak, ecrecover, chainId, t, sig, tee)
       <==> RequireValid(keccak, ecrecover, chainId, t, sig, tee) == Accepted
    ensures RequireValid(keccak, ecrecover, chainId, t, sig, 0) != Accepted
  {
    var verdict := RequireValid(keccak, ecrecover, chainId, t, sig, tee);
    if verdict == Accepted {
      assert Recover(ecrecover, Digest(keccak, chainId, t), sig) == By(tee);
    }
  }

  // A signature is accepted exactly if it is over a success, has 65 bytes, ends in a known parity and recovers
  // to the given machine, which is not the zero address.
  lemma AcceptedExactly(keccak: Hash, ecrecover: Recovery, chainId: nat, t: Report, sig: seq<byte>, tee: uint256)
    ensures RequireValid(keccak, ecrecover, chainId, t, sig, tee) == Accepted <==>
              && t.status == 1 && |sig| == 65 && sig[64] in {0, 1, 27, 28} && tee != 0
              && var v := if sig[64] % 27 == 1 then 28 else 27;
                 ecrecover(Digest(keccak, chainId, t), v, sig[..32], sig[32..64]) == tee
  {
  }

  // Who the state machine takes to have signed; nobody when the signature is malformed.
  function SignerOf(keccak: Hash, ecrecover: Recovery, chainId: nat, t: Report, sig: seq<byte>): uint256
  {
    match Recover(ecrecover, Digest(keccak, chainId, t), sig)
    case By(signer) => signer
    case Malformed(_) => 0
  }

  // Finalization in the state machine is the verified finalization of the contract.
  lemma FinalizesWhenVerified(keccak: Hash, ecrecover: Recovery, chainId: nat, t: Report, sig: seq<byte>,
                              s: State, now: nat, self: uint256, res: AllocationResult)
    ensures var signer := SignerOf(keccak, ecrecover, chainId, t, sig);
            var o := FinalizeRound(s, now, self, res, t.actionId, t.status, signer);
            if s.teeAddress != 0 && RequireValid(keccak, ecrecover, chainId, t, sig, s.teeAddress) == Accepted
            then o == ApplyResult(s, now, self, res, t.actionId)
            else o.Reverted?
  {
  }

  // ---- What a signature binds ----------------------------------------------------------------

  lemma ResultBytesParts(a: Bytes32, id: Bytes32, b: Bytes32, status: byte)
    ensures var s := a + id + b + [status];
            |s| == 97 && s[..32] == a && s[32..64] == id && s[64..96] == b && s[96] == status
  {
  }

  lemma PayloadParts(chain: Bytes32, h: Bytes32)
    ensures var s := Prefix() + chain + h; |s| == 96 && s[32..64] == chain && s[64..] == h
  {
  }

  lemma HeaderParts(h: Bytes32)
    ensures (SignedHeader() + h)[|SignedHeader()|..] == h
  {
  }

  // What is hashed, byte by byte: the prefix of a signed message, then the hash of tag, chain and hash of the
  // result; the result hash covers data, instruction, tag and status in this order.
  lemma DigestLayout(keccak: Hash, chainId: nat, t: Report)
    requires chainId < UINT256
    ensures var d, p, r := DigestBytes(keccak, chainId, t), PayloadBytes(keccak, chainId, t), ResultBytes(keccak, t);
            && |d| == 60 && d[0] == 0x19 && d[1..28] == Ascii("Ethereum Signed Message:\n32") && d[28..] == keccak(p)
            && |p| == 96 && p[..17] == Ascii("TEE_ACTION_RESULT") && (forall i :: 17 <= i < 32 ==> p[i] == 0)
            && Value(p[32..64]) == chainId && p[64..] == keccak(r)
            && |r| == 97 && r[..32] == keccak(t.data) && r[32..64] == t.actionId && r[64..96] == keccak(t.tag)
            && r[96] == t.status
  {
    PayloadParts(Word(chainId), keccak(ResultBytes(keccak, t)));
    ResultBytesParts(keccak(t.data), t.actionId, keccak(t.tag), t.status);
    Pow256OfWord();
    PaddedKeepsValue(chainId, 32);
  }

  // One digest covers one report on one chain: no signature carries over to another chain, instruction,
  // tag, status or result, unless two of the byte strings hashed collide.
  lemma DigestBinds(keccak: Hash, chainId: nat, t: Report, chainId': nat, t': Report)
    requires chainId < UINT256 && chainId' < UINT256
    requires CollisionFree(keccak, DigestPreimages(keccak, chainId, t) + DigestPreimages(keccak, chainId', t'))
    requires Digest(keccak, chainId, t) == Digest(keccak, chainId', t')
    ensures chainId == chainId' && t == t'
  {
    var p, p' := PayloadBytes(keccak, chainId, t), PayloadBytes(keccak, chainId', t');
    var r, r' := ResultBytes(keccak, t), ResultBytes(keccak, t');
    HeaderParts(keccak(p));
    HeaderParts(keccak(p'));
    assert keccak(p) == keccak(p');
    PayloadParts(Word(chainId), keccak(r));
    PayloadParts(Word(chainId'), keccak(r'));
    assert keccak(r) == keccak(r');
    WordInjective(chainId, chainId');
    ResultBytesParts(keccak(t.data), t.actionId, keccak(t.tag), t.status);
    ResultBytesParts(keccak(t'.data), t'.actionId, keccak(t'.tag), t'.status);
    assert keccak(t.data) == keccak(t'.data) && keccak(t.tag) == keccak(t'.tag);
  }
}
