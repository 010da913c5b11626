/** The hardware signer: cascade over the envelopes at registration, one pinned envelope ever after. */
module LedgerSigner {
  import opened Wrappers
  import opened AuthTypes
  import opened ByteStrings
  import opened Offchain

  /** What a device answers to one envelope: a signature, a header rejection (0x6a81), or a failure. */
  datatype Reply = Signature(bytes: Bytes) | HeaderRejected | OtherFailure

  /** Which envelopes a firmware takes. The signature itself is the key's, not the firmware's. */
  type Firmware = Bytes -> Verdict
  datatype Verdict = Accepts | RejectsHeader | Fails

  /** A device signs bytes deterministically (ed25519), whatever firmware it runs. */
  function Answer(sign: Bytes -> Bytes, fw: Firmware, envelope: Bytes): Reply {
    match fw(envelope)
    case Accepts => Signature(sign(envelope))
    case RejectsHeader => HeaderRejected
    case Fails => OtherFailure
  }

  datatype SignError = Encoding(e: EncodeError) | Device | AllRejected | BadLength

  type Signed = Result<Bytes, SignError>

  /** Pinned: one envelope, no fallback. */
  function SignPinned(sign: Bytes -> Bytes, fw: Firmware, e: OffchainEnvelope, msg: Bytes, signer: Bytes): Signed {
    match EncodeAs(e, msg, signer, DEFAULTS)
    case Failure(err) => Failure(Encoding(err))
    case Success(envelope) =>
      match Answer(sign, fw, envelope)
      case Signature(s) => if |s| == 64 then Success(s) else Failure(BadLength)
      case _ => Failure(Device)
  }

  /** What a registration ends with: the signature or an error, and the layout that signed. */
  datatype Outcome = Outcome(result: Signed, reported: Option<OffchainEnvelope>)

  /** The pinned outcome under the first layout whose header the device does not reject. */
  function Cascade(sign: Bytes -> Bytes, fw: Firmware, msg: Bytes, signer: Bytes): Outcome {
    match Candidates(msg, signer, DEFAULTS)
    case Failure(e) => Outcome(Failure(Encoding(e)), None)
    case Success(_) =>
      if !HeaderRejects(fw, OffchainEnvelope.Legacy, msg, signer) then
        Pinned(sign, fw, OffchainEnvelope.Legacy, msg, signer)
      else if !HeaderRejects(fw, OffchainEnvelope.V0, msg, signer) then
        Pinned(sign, fw, OffchainEnvelope.V0, msg, signer)
      else Outcome(Failure(AllRejected), None)
  }

  function Pinned(sign: Bytes -> Bytes, fw: Firmware, e: OffchainEnvelope, msg: Bytes, signer: Bytes): Outcome {
    var r := SignPinned(sign, fw, e, msg, signer);
    Outcome(r, if r.Success? then Some(e) else None)
  }

  /** The cascade: each layout in turn, moving on only when the device rejects the header. */
  method SignCascade(sign: Bytes -> Bytes, fw: Firmware, msg: Bytes, signer: Bytes)
    returns (r: Signed, reported: Option<OffchainEnvelope>)
    ensures Outcome(r, reported) == Cascade(sign, fw, msg, signer)
    ensures r.Success? <==> reported.Some?
    ensures r.Success? ==> SignPinned(sign, fw, reported.value, msg, signer) == r
    ensures reported == Some(OffchainEnvelope.V0) ==> HeaderRejects(fw, OffchainEnvelope.Legacy, msg, signer)
  {
    reported := None;
    var candidates := Candidates(msg, signer, DEFAULTS);
    if candidates.Failure? { return Failure(Encoding(candidates.error)), None; }
    var i := 0;
    while i < |candidates.value|
      invariant 0 <= i <= |candidates.value| == 2
      invariant forall k :: 0 <= k < i ==> HeaderRejects(fw, OFFCHAIN_ENVELOPES[k], msg, signer)
    {
      var reply := Answer(sign, fw, candidates.value[i]);
      assert EncodeAs(OFFCHAIN_ENVELOPES[i], msg, signer, DEFAULTS) == Success(candidates.value[i]);
      assert i == 1 ==> HeaderRejects(fw, OFFCHAIN_ENVELOPES[0], msg, signer);
      match reply {
        case Signature(s) =>
          if |s| != 64 { return Failure(BadLength), None; }
          return Success(s), Some(OFFCHAIN_ENVELOPES[i]);
        case HeaderRejected =>
        case OtherFailure => return Failure(Device), None;
      }
      i := i + 1;
    }
    assert HeaderRejects(fw, OFFCHAIN_ENVELOPES[0], msg, signer);
    assert HeaderRejects(fw, OFFCHAIN_ENVELOPES[1], msg, signer);
    r := Failure(AllRejected);
  }

  predicate HeaderRejects(fw: Firmware, e: OffchainEnvelope, msg: Bytes, signer: Bytes) {
    var envelope := EncodeAs(e, msg, signer, DEFAULTS);
    envelope.Success? && fw(envelope.value) == RejectsHeader
  }

  predicate Takes(fw: Firmware, e: OffchainEnvelope, msg: Bytes, signer: Bytes) {
    var envelope := EncodeAs(e, msg, signer, DEFAULTS);
    envelope.Success? && fw(envelope.value) == Accepts
  }

  /**
   * The pin holds. If registration produced `s` and reported layout `e`, a later pinned call under
   * any firmware returns `s` if that firmware takes the layout and fails if not: never a different
   * signature, so never a different key.
   */
  lemma PinHolds(sign: Bytes -> Bytes, registered: Firmware, later: Firmware, msg: Bytes, signer: Bytes,
                 e: OffchainEnvelope, s: Bytes)
    requires Cascade(sign, registered, msg, signer) == Outcome(Success(s), Some(e))
    ensures SignPinned(sign, later, e, msg, signer) == Success(s) <==> Takes(later, e, msg, signer)
    ensures SignPinned(sign, later, e, msg, signer).Failure? <==> !Takes(later, e, msg, signer)
  {
    assert SignPinned(sign, registered, e, msg, signer) == Success(s);
  }

  /**
   * Why the pin is needed. For a key that signs different bytes differently, two registrations of
   * one message, under any two firmwares, produce the same signature if and only if they report
   * the same layout: a firmware that flips the layout flips the key.
   */
  lemma LayoutDecidesKey(sign: Bytes -> Bytes, msg: Bytes, signer: Bytes, before: Firmware, updated: Firmware)
    requires |signer| == 32 && PrintableAscii(msg)
    requires forall x, y :: sign(x) == sign(y) ==> x == y
    requires Cascade(sign, before, msg, signer).result.Success?
    requires Cascade(sign, updated, msg, signer).result.Success?
    ensures var a, b := Cascade(sign, before, msg, signer), Cascade(sign, updated, msg, signer);
            a.result == b.result <==> a.reported == b.reported
  {
    CandidateBytes(msg, signer);
    if LegacyLayout(RestrictedAscii, msg) == V0Layout(NO_DOMAIN, RestrictedAscii, signer, msg) {
      LayoutsDisjoint(RestrictedAscii, msg, NO_DOMAIN, RestrictedAscii, signer, msg);
    }
  }
}
