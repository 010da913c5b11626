/** The sign-in message a wallet signs, and why its bytes name one login only. */
module LoginMessage {
  import opened Wrappers
  import opened Strings
  import opened Hex
  import opened ByteStrings
  import opened Offchain

  const STATEMENT :=
    "Sign in to prove" + " you own this" + " wallet. This" + " request does" + " not send a" + " transaction or"
    + " cost any fees."

  /** The two fields of the parsed origin that reach the message, as the URL parser serializes them. */
  datatype ParsedUrl = ParsedUrl(host: string, origin: string)
  type Url = u: ParsedUrl | Serialized(u.host) && Serialized(u.origin) witness ParsedUrl("", "")
  datatype Login = Login(url: Url, address: string, challenge: string)

  predicate Base58Char(c: char) {
    '1' <= c <= '9' || ('A' <= c <= 'Z' && c != 'I' && c != 'O') || ('a' <= c <= 'z' && c != 'l')
  }

  predicate AlphaNumeric(c: char) {
    '0' <= c <= '9' || 'A' <= c <= 'Z' || 'a' <= c <= 'z'
  }

  /** A serialized host or origin: printable, no blanks. */
  predicate Serialized(s: string) {
    forall i :: 0 <= i < |s| ==> '!' <= s[i] <= '~'
  }

  /** The fields the builder accepts; it throws on any other. */
  predicate Buildable(l: Login) {
    && 32 <= |l.address| <= 44 && (forall i :: 0 <= i < |l.address| ==> Base58Char(l.address[i]))
    && 8 <= |l.challenge| && (forall i :: 0 <= i < |l.challenge| ==> AlphaNumeric(l.challenge[i]))
  }

  const LINE1 := " wants you" + " to sign in" + " with your" + " Solana account:"

  /** The fixed text: behind the host, between address and URI, between URI and nonce. */
  datatype Template = Template(line1: string, between: string, after: string)

  const TEMPLATE := Template(LINE1, "\n" + STATEMENT + "\n\nURI: ", "Version: 1\n" + "Nonce: ")

  function Message(t: Template, l: Login): string {
    (l.url.host + t.line1) + ['\n'] + (l.address + ['\n'] + (t.between + Rest(t, l)))
  }

  function Rest(t: Template, l: Login): string {
    l.url.origin + ['\n'] + (t.after + l.challenge)
  }

  function WalletLoginMessage(l: Login): string {
    Message(TEMPLATE, l)
  }

  predicate Plain(s: string) {
    forall i :: 0 <= i < |s| ==> ' ' <= s[i] <= '~'
  }

  lemma PlainJoin(s: string, t: string)
    requires Plain(s) && Plain(t)
    ensures Plain(s + t)
  {
  }

  lemma Line1Plain()
    ensures Plain(LINE1)
  {
    PlainJoin(" wants you", " to sign in");
    PlainJoin(" wants you" + " to sign in", " with your");
    PlainJoin(" wants you" + " to sign in" + " with your", " Solana account:");
  }

  lemma StatementPlain()
    ensures Plain(STATEMENT)
  {
    var s2 := "Sign in to prove" + " you own this";
    var s3 := s2 + " wallet. This";
    var s4 := s3 + " request does";
    var s5 := s4 + " not send a";
    var s6 := s5 + " transaction or";
    PlainJoin("Sign in to prove", " you own this");
    PlainJoin(s2, " wallet. This");
    PlainJoin(s3, " request does");
    PlainJoin(s4, " not send a");
    PlainJoin(s5, " transaction or");
    PlainJoin(s6, " cost any fees.");
  }

  lemma OneLine(t: Template, l: Login)
    requires Buildable(l) && Plain(t.line1)
    ensures Free('\n', l.url.host + t.line1) && Free('\n', l.address) && Free('\n', l.url.origin)
  {
  }

  lemma SameTail(a: string, x: string, y: string)
    requires a + x == a + y
    ensures x == y
  {
    assert x == (a + x)[|a|..] && y == (a + y)[|a|..];
  }

  lemma SameFront(x: string, y: string, a: string)
    requires x + a == y + a
    ensures x == y
  {
    assert |x| == |y|;
    assert x == (x + a)[..|x|] && y == (y + a)[..|x|];
  }

  /** The message determines host, origin, address and challenge. */
  lemma MessageInjective(t: Template, a: Login, b: Login)
    requires Plain(t.line1) && Buildable(a) && Buildable(b) && Message(t, a) == Message(t, b)
    ensures a == b
  {
    OneLine(t, a);
    OneLine(t, b);
    var ta, tb := t.between + Rest(t, a), t.between + Rest(t, b);
    SplitUnique('\n', a.url.host + t.line1, b.url.host + t.line1, a.address + ['\n'] + ta, b.address + ['\n'] + tb);
    SameFront(a.url.host, b.url.host, t.line1);
    SplitUnique('\n', a.address, b.address, ta, tb);
    SameTail(t.between, Rest(t, a), Rest(t, b));
    SplitUnique('\n', a.url.origin, b.url.origin, t.after + a.challenge, t.after + b.challenge);
    SameTail(t.after, a.challenge, b.challenge);
  }

  predicate Ascii(s: string) {
    forall i :: 0 <= i < |s| ==> s[i] == '\n' || ' ' <= s[i] <= '~'
  }

  /** UTF-8 of a plain ASCII string. */
  function Utf8(s: string): Bytes
    requires Ascii(s)
  {
    seq(|s|, i requires 0 <= i < |s| => s[i] as int)
  }

  lemma Utf8Injective(s: string, t: string)
    requires Ascii(s) && Ascii(t) && Utf8(s) == Utf8(t)
    ensures s == t
  {
    forall i | 0 <= i < |s| ensures s[i] == t[i] {
      assert Utf8(s)[i] == Utf8(t)[i];
    }
  }

  lemma AsciiJoin(s: string, t: string)
    requires Ascii(s) && Ascii(t)
    ensures Ascii(s + t)
  {
  }

  lemma TemplateAscii()
    ensures Plain(TEMPLATE.line1) && Ascii(TEMPLATE.between) && Ascii(TEMPLATE.after)
  {
    Line1Plain();
    StatementPlain();
    AsciiJoin("\n", STATEMENT);
    AsciiJoin("\n" + STATEMENT, "\n\nURI: ");
    AsciiJoin("Version: 1\n", "Nonce: ");
  }

  lemma MessageAscii(t: Template, l: Login)
    requires Buildable(l) && Plain(t.line1) && Ascii(t.between) && Ascii(t.after)
    ensures Ascii(Message(t, l))
  {
    assert Ascii(Rest(t, l));
  }

  /** The bytes of a login that the builder accepts. */
  function LoginBytes(l: Login): Bytes
    requires Buildable(l)
  {
    TemplateAscii();
    MessageAscii(TEMPLATE, l);
    Utf8(WalletLoginMessage(l))
  }

  lemma Printable(s: string)
    requires Ascii(s)
    ensures PrintableAscii(Utf8(s))
  {
  }

  lemma LoginPrintable(l: Login)
    requires Buildable(l)
    ensures Ascii(WalletLoginMessage(l)) && PrintableAscii(LoginBytes(l))
  {
    TemplateAscii();
    MessageAscii(TEMPLATE, l);
    Printable(WalletLoginMessage(l));
  }

  /**
   * No relay. Whatever bytes were signed, raw or in either envelope, they are a preimage of one
   * login: the origin, the address and the challenge cannot be swapped under a signature.
   */
  lemma SignatureNamesOneLogin(signed: Bytes, a: Login, b: Login, s1: Bytes, s2: Bytes)
    requires Buildable(a) && Buildable(b) && |s1| == 32 && |s2| == 32
    requires Preimage(signed, LoginBytes(a), s1) && Preimage(signed, LoginBytes(b), s2)
    ensures a == b
  {
    LoginPrintable(a);
    LoginPrintable(b);
    PreimageDeterminesMessage(signed, LoginBytes(a), LoginBytes(b), s1, s2);
    Utf8Injective(WalletLoginMessage(a), WalletLoginMessage(b));
    TemplateAscii();
    MessageInjective(TEMPLATE, a, b);
  }

  /** A decoded public key. */
  type PublicKey = b: Bytes | |b| == 32 witness NO_DOMAIN

  /**
   * What is outside this model: base58 decoding of a key, which may throw, and the signature check,
   * which throws on a signature of the wrong length.
   */
  datatype Crypto = Crypto(decodeKey: string -> Option<PublicKey>, verify: (Bytes, Bytes, PublicKey) -> bool)

  /** Somewhere among the login's preimages there is one that the key signed. */
  ghost predicate Signed(c: Crypto, l: Login, signature: Bytes, key: PublicKey)
    requires Buildable(l)
  {
    exists signed :: Preimage(signed, LoginBytes(l), key) && c.verify(signed, signature, key)
  }

  /**
   * The verifier: the raw message first, then every candidate envelope; any error on the way is a
   * refusal. It accepts exactly the fields the builder takes, with a readable signature and key, over
   * one of the login's preimages.
   */
  method VerifySolanaSignature(c: Crypto, l: Login, signatureHex: string) returns (ok: bool)
    ensures ok <==> && Buildable(l) && FromHex(signatureHex).Some? && c.decodeKey(l.address).Some?
                    && Signed(c, l, FromHex(signatureHex).value, c.decodeKey(l.address).value)
  {
    if !Buildable(l) { return false; }
    var message := LoginBytes(l);
    var signature := HexToBytes(signatureHex);
    if signature.None? { return false; }
    var key := c.decodeKey(l.address);
    if key.None? { return false; }
    if c.verify(message, signature.value, key.value) {
      assert Preimage(message, message, key.value);
      return true;
    }
    var candidates := Candidates(message, key.value, DEFAULTS);
    if candidates.Failure? { return false; }
    var i := 0;
    while i < |candidates.value|
      invariant 0 <= i <= |candidates.value|
      invariant forall k :: 0 <= k < i ==> !c.verify(candidates.value[k], signature.value, key.value)
    {
      if c.verify(candidates.value[i], signature.value, key.value) {
        assert Preimage(candidates.value[i], message, key.value);
        return true;
      }
      i := i + 1;
    }
    ok := false;
  }
}
