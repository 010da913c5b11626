/** Off-chain message envelopes: the two layouts, what they have in common, and what keeps them apart. */
module Offchain {
  import opened Wrappers
  import opened ByteStrings
  import opened AuthTypes

  /** `0xFF "solana offchain"`. */
  const SIGNING_DOMAIN: Bytes :=
    [0xff, 0x73, 0x6f, 0x6c, 0x61, 0x6e, 0x61, 0x20, 0x6f, 0x66, 0x66, 0x63, 0x68, 0x61, 0x69, 0x6e]

  const DEFAULT_MAX_MESSAGE_BYTES := 1212
  /** 32 zero bytes: no application domain. */
  const NO_DOMAIN: Bytes :=
    [0, 0, 0, 0, 0, 0, 0, 0, 0, 0, 0, 0, 0, 0, 0, 0, 0, 0, 0, 0, 0, 0, 0, 0, 0, 0, 0, 0, 0, 0, 0, 0]

  datatype Format = RestrictedAscii | LimitedUtf8
  datatype EncodeError = EmptyMessage | TooLong | NotAscii | NotUtf8 | BadSigner | BadDomain

  /** `validUtf8` is the verdict of a fatal UTF-8 decoder on the message. */
  datatype Options = Options(
    applicationDomain: Option<Bytes>, allowUtf8: bool, maxMessageBytes: Option<nat>, validUtf8: bool)
  const DEFAULTS := Options(None, false, None, false)

  function Code(f: Format): Byte {
    match f case RestrictedAscii => 0 case LimitedUtf8 => 1
  }

  predicate PrintableByte(c: Byte) {
    c == 0x0a || 0x20 <= c <= 0x7e
  }

  predicate PrintableAscii(msg: Bytes) {
    forall i :: 0 <= i < |msg| ==> PrintableByte(msg[i])
  }

  method IsPrintableAscii(msg: Bytes) returns (r: bool)
    ensures r == PrintableAscii(msg)
  {
    var i := 0;
    while i < |msg|
      invariant 0 <= i <= |msg| && PrintableAscii(msg[..i])
    {
      var c := msg[i];
      if c != 0x0a && (c < 0x20 || c > 0x7e) {
        assert !PrintableByte(msg[i]);
        return false;
      }
      assert forall k :: 0 <= k < i ==> msg[..i][k] == msg[k];
      i := i + 1;
    }
    assert msg[..i] == msg;
    r := true;
  }

  function Prepare(msg: Bytes, o: Options): Result<Format, EncodeError> {
    if |msg| == 0 then Failure(EmptyMessage)
    else if |msg| > o.maxMessageBytes.GetOr(DEFAULT_MAX_MESSAGE_BYTES) then Failure(TooLong)
    else if PrintableAscii(msg) then Success(RestrictedAscii)
    else if !o.allowUtf8 then Failure(NotAscii)
    else if o.validUtf8 then Success(LimitedUtf8)
    else Failure(NotUtf8)
  }

  /** A 16-bit little-endian length: longer messages wrap. */
  function U16(n: nat): (b: Bytes)
    ensures |b| == 2
  {
    [n % 256, n / 256 % 256]
  }

  // The two layouts.

  function LegacyLayout(format: Format, msg: Bytes): Bytes {
    SIGNING_DOMAIN + [0] + [Code(format)] + U16(|msg|) + msg
  }

  function V0Layout(domain: Bytes, format: Format, signer: Bytes, msg: Bytes): Bytes {
    SIGNING_DOMAIN + [0] + domain + [Code(format), 1] + signer + U16(|msg|) + msg
  }

  function EncodeLegacy(msg: Bytes, o: Options): Result<Bytes, EncodeError> {
    match Prepare(msg, o)
    case Success(f) => Success(LegacyLayout(f, msg))
    case Failure(e) => Failure(e)
  }

  function EncodeV0(msg: Bytes, signer: Bytes, o: Options): Result<Bytes, EncodeError> {
    if |signer| != 32 then Failure(BadSigner)
    else
      match Prepare(msg, o)
      case Failure(e) => Failure(e)
      case Success(f) =>
        if |o.applicationDomain.GetOr(NO_DOMAIN)| != 32 then Failure(BadDomain)
        else Success(V0Layout(o.applicationDomain.GetOr(NO_DOMAIN), f, signer, msg))
  }

  function EncodeAs(e: OffchainEnvelope, msg: Bytes, signer: Bytes, o: Options): Result<Bytes, EncodeError> {
    match e case Legacy => EncodeLegacy(msg, o) case V0 => EncodeV0(msg, signer, o)
  }

  const OFFCHAIN_ENVELOPES: seq<OffchainEnvelope> := [OffchainEnvelope.Legacy, OffchainEnvelope.V0]

  /** Both layouts or an error: the candidates a signer tries and a verifier accepts. */
  function Candidates(msg: Bytes, signer: Bytes, o: Options): Result<seq<Bytes>, EncodeError> {
    match (EncodeLegacy(msg, o), EncodeV0(msg, signer, o))
    case (Success(a), Success(b)) => Success([a, b])
    case (Failure(e), _) => Failure(e)
    case (_, Failure(e)) => Failure(e)
  }

  // The encoders as the code runs them: one buffer, one moving offset.

  /** `Uint8Array.set` at the moving offset: what was written before stays. */
  method SetAt(out: array<Byte>, src: Bytes, o: nat)
    requires o + |src| <= out.Length
    modifies out
    ensures out[..o + |src|] == old(out[..o]) + src
  {
    ghost var before := out[..o];
    var i := 0;
    while i < |src|
      invariant 0 <= i <= |src|
      invariant out[..o + i] == before + src[..i]
    {
      out[o + i] := src[i];
      i := i + 1;
      assert out[..o + i] == out[..o + i - 1] + [src[i - 1]];
    }
    assert src[..i] == src;
  }

  method PutByte(out: array<Byte>, x: Byte, o: nat)
    requires o < out.Length
    modifies out
    ensures out[..o + 1] == old(out[..o]) + [x]
  {
    out[o] := x;
  }

  method PutU16(out: array<Byte>, offset: nat, value: nat)
    requires offset + 2 <= out.Length
    modifies out
    ensures out[..offset + 2] == old(out[..offset]) + U16(value)
  {
    out[offset] := value % 256;
    out[offset + 1] := value / 256 % 256;
  }

  /** What both layouts begin with. */
  method FillStart(out: array<Byte>) returns (o: nat)
    requires out.Length >= 17
    modifies out
    ensures o == 17 && out[..o] == SIGNING_DOMAIN + [0]
  {
    o := 0;
    SetAt(out, SIGNING_DOMAIN, o);
    o := o + |SIGNING_DOMAIN|;
    PutByte(out, 0, o);
    o := o + 1;
  }

  method FillLegacy(format: Format, msg: Bytes) returns (out: array<Byte>)
    ensures fresh(out) && out[..] == LegacyLayout(format, msg)
  {
    out := new Byte[20 + |msg|];
    var o := FillStart(out);
    ghost var start := out[..o];
    PutByte(out, Code(format), o);
    o := o + 1;
    PutU16(out, o, |msg|);
    o := o + 2;
    SetAt(out, msg, o);
    assert out[..] == out[..o + |msg|] == start + [Code(format)] + U16(|msg|) + msg;
  }

  /** Everything of the v0 header before the signer. */
  method FillV0Head(out: array<Byte>, domain: Bytes, format: Format) returns (o: nat)
    requires |domain| == 32 && out.Length >= 51
    modifies out
    ensures o == 51 && out[..o] == SIGNING_DOMAIN + [0] + domain + [Code(format), 1]
  {
    o := FillStart(out);
    ghost var start := out[..o];
    SetAt(out, domain, o);
    o := o + 32;
    PutByte(out, Code(format), o);
    o := o + 1;
    PutByte(out, 1, o);
    o := o + 1;
    assert out[..o] == start + domain + [Code(format), 1];
  }

  method FillV0(domain: Bytes, format: Format, signer: Bytes, msg: Bytes) returns (out: array<Byte>)
    requires |domain| == 32 && |signer| == 32
    ensures fresh(out) && out[..] == V0Layout(domain, format, signer, msg)
  {
    out := new Byte[85 + |msg|];
    var o := FillV0Head(out, domain, format);
    ghost var head := out[..o];
    SetAt(out, signer, o);
    o := o + 32;
    PutU16(out, o, |msg|);
    o := o + 2;
    SetAt(out, msg, o);
    assert out[..] == out[..o + |msg|] == head + signer + U16(|msg|) + msg;
  }

  method EncodeOffchainMessageLegacy(msg: Bytes, o: Options) returns (r: Result<Bytes, EncodeError>)
    ensures r == EncodeLegacy(msg, o)
  {
    match Prepare(msg, o)
    case Failure(e) => r := Failure(e);
    case Success(format) =>
      var out := FillLegacy(format, msg);
      r := Success(out[..]);
  }

  method EncodeOffchainMessage(msg: Bytes, signer: Bytes, o: Options) returns (r: Result<Bytes, EncodeError>)
    ensures r == EncodeV0(msg, signer, o)
  {
    if |signer| != 32 { return Failure(BadSigner); }
    match Prepare(msg, o)
    case Failure(e) => r := Failure(e);
    case Success(format) =>
      var domain := o.applicationDomain.GetOr(NO_DOMAIN);
      if |domain| != 32 { return Failure(BadDomain); }
      var out := FillV0(domain, format, signer, msg);
      r := Success(out[..]);
  }

  // Reading an envelope back.

  function ReadU16(b: Bytes): nat
    requires |b| >= 2
  {
    b[0] as int + 256 * b[1] as int
  }

  datatype Parsed = Parsed(format: Byte, signer: Bytes, msg: Bytes)

  function ParseLegacy(b: Bytes): Option<Parsed> {
    if |b| >= 20 && b[..16] == SIGNING_DOMAIN && b[16] == 0 && ReadU16(b[18..20]) == |b| - 20
    then Some(Parsed(b[17], [], b[20..])) else None
  }

  function ParseV0(b: Bytes): Option<Parsed> {
    if |b| >= 85 && b[..16] == SIGNING_DOMAIN && b[16] == 0 && b[50] == 1 && ReadU16(b[83..85]) == |b| - 85
    then Some(Parsed(b[49], b[51..83], b[85..])) else None
  }

  lemma LegacyParts(format: Format, msg: Bytes)
    ensures var b := LegacyLayout(format, msg);
            && |b| == 20 + |msg| && b[..16] == SIGNING_DOMAIN && b[16] == 0 && b[17] == Code(format)
            && b[18..20] == U16(|msg|) && b[20..] == msg
  {
  }

  lemma V0Parts(domain: Bytes, format: Format, signer: Bytes, msg: Bytes)
    requires |domain| == 32 && |signer| == 32
    ensures var b := V0Layout(domain, format, signer, msg);
            && |b| == 85 + |msg| && b[..16] == SIGNING_DOMAIN && b[16] == 0 && b[17..49] == domain
            && b[49] == Code(format) && b[50] == 1 && b[51..83] == signer
            && b[83..85] == U16(|msg|) && b[85..] == msg
  {
  }

  lemma ReadsBack(n: nat)
    ensures ReadU16(U16(n)) == n <==> n <= 65535
  {
  }

  /** Each envelope parses back to its message and signer exactly when the length fits its field. */
  lemma EnvelopesParseBack(domain: Bytes, format: Format, signer: Bytes, msg: Bytes)
    requires |domain| == 32 && |signer| == 32
    ensures ParseLegacy(LegacyLayout(format, msg)) == Some(Parsed(Code(format), [], msg)) <==> |msg| <= 65535
    ensures ParseV0(V0Layout(domain, format, signer, msg)) == Some(Parsed(Code(format), signer, msg))
       <==> |msg| <= 65535
  {
    LegacyParts(format, msg);
    V0Parts(domain, format, signer, msg);
    ReadsBack(|msg|);
  }

  /** Within one layout the bytes determine the message, at any length. */
  lemma LayoutsInjective(d1: Bytes, f1: Format, s1: Bytes, m1: Bytes, d2: Bytes, f2: Format, s2: Bytes, m2: Bytes)
    requires |d1| == 32 && |s1| == 32 && |d2| == 32 && |s2| == 32
    ensures LegacyLayout(f1, m1) == LegacyLayout(f2, m2) ==> m1 == m2
    ensures V0Layout(d1, f1, s1, m1) == V0Layout(d2, f2, s2, m2) ==> s1 == s2 && m1 == m2
  {
    LegacyParts(f1, m1);
    LegacyParts(f2, m2);
    V0Parts(d1, f1, s1, m1);
    V0Parts(d2, f2, s2, m2);
  }

  /**
   * A legacy envelope of printable text is never a v0 envelope, at any length and under any domain:
   * the v0 version byte would be part of its message. One of other text can only be a v0 envelope
   * under a domain that begins with its format byte.
   */
  lemma LayoutsDisjoint(f1: Format, m1: Bytes, domain: Bytes, f2: Format, signer: Bytes, m2: Bytes)
    requires |domain| == 32 && |signer| == 32 && (f1 == RestrictedAscii ==> PrintableAscii(m1))
    requires LegacyLayout(f1, m1) == V0Layout(domain, f2, signer, m2)
    ensures f1 == LimitedUtf8 && domain[0] == 1
  {
    LegacyParts(f1, m1);
    V0Parts(domain, f2, signer, m2);
    var b, c := LegacyLayout(f1, m1), V0Layout(domain, f2, signer, m2);
    assert c[17] == c[17..49][0];
    assert b[50] == b[20..][30] == m1[30];
    assert PrintableAscii(m1) ==> PrintableByte(m1[30]);
  }

  /**
   * The two encoders never meet: whatever the messages, the options and the signer, a legacy
   * envelope differs from every v0 envelope, unless UTF-8 is allowed, the message needs it, and
   * the v0 envelope's application domain begins with a one. Without a domain they never meet.
   */
  lemma EncodersDisjoint(m1: Bytes, o1: Options, m2: Bytes, signer: Bytes, o2: Options)
    requires EncodeLegacy(m1, o1).Success? && EncodeV0(m2, signer, o2).Success?
    requires EncodeLegacy(m1, o1).value == EncodeV0(m2, signer, o2).value
    ensures o1.allowUtf8 && !PrintableAscii(m1)
    ensures o2.applicationDomain.Some? && o2.applicationDomain.value[0] == 1
  {
    LayoutsDisjoint(Prepare(m1, o1).value, m1,
                    o2.applicationDomain.GetOr(NO_DOMAIN), Prepare(m2, o2).value, signer, m2);
  }

  /** What a v0 envelope holds from its twentieth byte on: the message of a legacy envelope with the same bytes. */
  function Echo(domain: Bytes, format: Format, signer: Bytes, msg: Bytes): Bytes
    requires |domain| == 32
  {
    domain[3..] + [Code(format), 1] + signer + U16(|msg|) + msg
  }

  lemma EchoIsTail(domain: Bytes, format: Format, signer: Bytes, msg: Bytes)
    requires |domain| == 32 && |signer| == 32
    ensures var e, b := Echo(domain, format, signer, msg), V0Layout(domain, format, signer, msg);
            && |e| == 65 + |msg| && b[20..] == e && b[18..20] == domain[1..3] && !PrintableAscii(e)
            && (domain[0] == 1 && domain[1..3] == U16(|e|) ==> LegacyLayout(LimitedUtf8, e) == b)
  {
    V0Parts(domain, format, signer, msg);
    var e, b := Echo(domain, format, signer, msg), V0Layout(domain, format, signer, msg);
    assert e[30] == 1 && !PrintableByte(e[30]);
    assert b[18..20] == b[17..49][1..3];
    if domain[0] == 1 && domain[1..3] == U16(|e|) {
      LegacyParts(LimitedUtf8, e);
      assert domain == [domain[0]] + domain[1..3] + domain[3..];
      assert b == SIGNING_DOMAIN + [0] + [domain[0]] + domain[1..3] + e;
    }
  }

  /** The options tell the truth about the message: `utf8` is the decoder. */
  predicate Honest(utf8: Bytes -> bool, msg: Bytes, o: Options) {
    o.validUtf8 == utf8(msg)
  }

  /**
   * Which v0 envelopes a legacy envelope can equal, exactly: those whose domain begins with a one
   * and then spells out the length of the rest, if that rest is UTF-8.
   */
  lemma EncodersMeetExactly(utf8: Bytes -> bool, m2: Bytes, signer: Bytes, o2: Options)
    requires EncodeV0(m2, signer, o2).Success?
    ensures var domain := o2.applicationDomain.GetOr(NO_DOMAIN);
            var echo := Echo(domain, Prepare(m2, o2).value, signer, m2);
            (exists m1, o1 :: Honest(utf8, m1, o1) && EncodeLegacy(m1, o1) == EncodeV0(m2, signer, o2))
            <==> domain[0] == 1 && domain[1..3] == U16(|m2| + 65) && utf8(echo)
  {
    var domain, f2 := o2.applicationDomain.GetOr(NO_DOMAIN), Prepare(m2, o2).value;
    var echo := Echo(domain, f2, signer, m2);
    EchoIsTail(domain, f2, signer, m2);
    if exists m1, o1 :: Honest(utf8, m1, o1) && EncodeLegacy(m1, o1) == EncodeV0(m2, signer, o2) {
      var m1, o1 :| Honest(utf8, m1, o1) && EncodeLegacy(m1, o1) == EncodeV0(m2, signer, o2);
      LegacyParts(Prepare(m1, o1).value, m1);
      LayoutsDisjoint(Prepare(m1, o1).value, m1, domain, f2, signer, m2);
      assert m1 == echo;
    }
    if domain[0] == 1 && domain[1..3] == U16(|m2| + 65) && utf8(echo) {
      var o1 := Options(None, true, Some(|echo|), true);
      assert Honest(utf8, echo, o1) && EncodeLegacy(echo, o1) == EncodeV0(m2, signer, o2);
    }
  }

  /** Such envelopes exist. */
  lemma EncodersMeet()
    ensures exists m1, o1, m2, signer, o2 ::
              && EncodeLegacy(m1, o1).Success? && EncodeV0(m2, signer, o2).Success?
              && EncodeLegacy(m1, o1).value == EncodeV0(m2, signer, o2).value
  {
    var a29: Bytes := seq(29, i => 0x61);
    var signer: Bytes := seq(32, i => 0x61);
    var m2: Bytes := [0x61];
    var domain: Bytes := [1, 66, 0] + a29;
    var o2 := Options(Some(domain), false, None, false);
    assert PrintableAscii(m2) && domain[1..3] == U16(66);
    EncodersMeetExactly(b => true, m2, signer, o2);
  }

  /** Printable text is no envelope. */
  lemma RawDisjoint(raw: Bytes, f: Format, domain: Bytes, signer: Bytes, m: Bytes)
    requires PrintableAscii(raw) && |domain| == 32 && |signer| == 32
    ensures raw != LegacyLayout(f, m) && raw != V0Layout(domain, f, signer, m)
  {
    LegacyParts(f, m);
    V0Parts(domain, f, signer, m);
    assert LegacyLayout(f, m)[..16][0] == 0xff && V0Layout(domain, f, signer, m)[..16][0] == 0xff;
    assert raw != [] ==> PrintableByte(raw[0]);
  }

  /**
   * What a signature over `signed` can stand for: the raw message, or either envelope when the
   * message can be enveloped at all.
   */
  predicate Preimage(signed: Bytes, msg: Bytes, signer: Bytes) {
    || signed == msg
    || (Candidates(msg, signer, DEFAULTS).Success? && signed in Candidates(msg, signer, DEFAULTS).value)
  }

  /**
   * The three preimages the verifier tries never stand for a different login: one signed byte
   * string is a preimage of one printable message only.
   */
  lemma PreimageDeterminesMessage(signed: Bytes, m1: Bytes, m2: Bytes, s1: Bytes, s2: Bytes)
    requires PrintableAscii(m1) && PrintableAscii(m2) && |s1| == 32 && |s2| == 32
    requires Preimage(signed, m1, s1) && Preimage(signed, m2, s2)
    ensures m1 == m2
  {
    CandidateBytes(m1, s1);
    CandidateBytes(m2, s2);
    RawDisjoint(m1, RestrictedAscii, NO_DOMAIN, s2, m2);
    RawDisjoint(m2, RestrictedAscii, NO_DOMAIN, s1, m1);
    LayoutsInjective(NO_DOMAIN, RestrictedAscii, s1, m1, NO_DOMAIN, RestrictedAscii, s2, m2);
    var l1, l2 := LegacyLayout(RestrictedAscii, m1), LegacyLayout(RestrictedAscii, m2);
    if l1 == V0Layout(NO_DOMAIN, RestrictedAscii, s2, m2) {
      LayoutsDisjoint(RestrictedAscii, m1, NO_DOMAIN, RestrictedAscii, s2, m2);
    }
    if l2 == V0Layout(NO_DOMAIN, RestrictedAscii, s1, m1) {
      LayoutsDisjoint(RestrictedAscii, m2, NO_DOMAIN, RestrictedAscii, s1, m1);
    }
  }

  predicate Enveloped(msg: Bytes) {
    0 < |msg| <= DEFAULT_MAX_MESSAGE_BYTES
  }

  lemma CandidateBytes(msg: Bytes, signer: Bytes)
    requires PrintableAscii(msg) && |signer| == 32
    ensures Candidates(msg, signer, DEFAULTS).Success? <==> Enveloped(msg)
    ensures Enveloped(msg) ==>
              Candidates(msg, signer, DEFAULTS).value
              == [LegacyLayout(RestrictedAscii, msg), V0Layout(NO_DOMAIN, RestrictedAscii, signer, msg)]
  {
  }
}
