/** The flat key-value keyspace: how typed lookups become strings, and why no two ever meet. */
module Keys {
  import opened Wrappers
  import opened Strings
  import opened AuthTypes

  datatype KeyPrefixes = KeyPrefixes(
    challenge: string, pubKey: string, session: string, email: string, rateLimit: string)

  const DEFAULT_PREFIXES := KeyPrefixes("challenge:", "pubKey:", "session:", "email:", "ratelimit:")

  /** What a key means. An email key holds the address already normalized. */
  datatype Key =
    | SessionKey(appId: string, tokenHash: string)
    | ChallengeKey(appId: string, publicKey: string, challenge: string)
    | LimitKey(bucket: RateLimitBucket)
    | UserKey(appId: string, publicKey: string)
    | EmailKey(email: string)

  function AppScoped(prefix: string, appId: string, id: string): string {
    prefix + appId + ":" + id
  }

  function Scope(b: RateLimitBucket): string {
    match b.appId
    case None => b.endpoint
    case Some(app) => b.endpoint + ":" + app
  }

  function PrefixOf(p: KeyPrefixes, k: Key): string {
    match k
    case SessionKey(_, _) => p.session
    case ChallengeKey(_, _, _) => p.challenge
    case LimitKey(_) => p.rateLimit
    case UserKey(_, _) => p.pubKey
    case EmailKey(_) => p.email
  }

  function Build(p: KeyPrefixes, k: Key): string {
    match k
    case SessionKey(app, hash) => AppScoped(p.session, app, hash)
    case ChallengeKey(app, pk, challenge) => AppScoped(p.challenge, app, pk) + ":" + challenge
    case LimitKey(b) => p.rateLimit + Scope(b) + ":" + b.identifier
    case UserKey(app, pk) => AppScoped(p.pubKey, app, pk)
    case EmailKey(email) => p.email + email
  }

  /** The endpoints whose buckets the handlers always scope to an app; the rest are global. */
  const APP_SCOPED_ENDPOINTS: set<string> := {"challenge", "register", "login", "connect", "search"}

  predicate BucketOk(b: RateLimitBucket) {
    && Free(':', b.endpoint)
    && (b.appId.Some? <==> b.endpoint in APP_SCOPED_ENDPOINTS)
    && (b.appId.Some? ==> Free(':', b.appId.value) && b.appId.value != "")
  }

  /** The shapes the handlers validate before anything reaches a key. */
  predicate KeyOk(k: Key) {
    match k
    case SessionKey(app, _) => Free(':', app)
    case ChallengeKey(app, pk, _) => Free(':', app) && Free(':', pk)
    case LimitKey(b) => BucketOk(b)
    case UserKey(app, _) => Free(':', app)
    case EmailKey(_) => true
  }

  /** No prefix begins another one. */
  predicate PrefixFree(p: KeyPrefixes) {
    var ps := [p.challenge, p.pubKey, p.session, p.email, p.rateLimit];
    forall i, j :: 0 <= i < |ps| && 0 <= j < |ps| && i != j ==> !(ps[i] <= ps[j])
  }

  lemma DefaultPrefixesAreFree()
    ensures PrefixFree(DEFAULT_PREFIXES)
  {
    var ps := ["challenge:", "pubKey:", "session:", "email:", "ratelimit:"];
    forall i, j | 0 <= i < |ps| && 0 <= j < |ps| && i != j ensures !(ps[i] <= ps[j]) {
      assert ps[0][0] == 'c' && ps[1][0] == 'p' && ps[2][0] == 's' && ps[3][0] == 'e' && ps[4][0] == 'r';
      assert ps[i][0] != ps[j][0];
    }
  }

  /** What follows the prefix. */
  function Body(k: Key): string {
    match k
    case SessionKey(app, hash) => app + [':'] + hash
    case ChallengeKey(app, pk, challenge) => app + [':'] + (pk + [':'] + challenge)
    case LimitKey(b) => Scope(b) + [':'] + b.identifier
    case UserKey(app, pk) => app + [':'] + pk
    case EmailKey(email) => email
  }

  lemma BuildSplits(p: KeyPrefixes, k: Key)
    ensures Build(p, k) == PrefixOf(p, k) + Body(k)
  {
    match k
    case ChallengeKey(app, pk, challenge) =>
      assert Build(p, k) == p.challenge + (app + [':'] + (pk + [':'] + challenge));
    case _ =>
  }

  lemma SameKind(p: KeyPrefixes, k1: Key, k2: Key)
    requires PrefixFree(p)
    requires Build(p, k1) == Build(p, k2)
    ensures PrefixOf(p, k1) == PrefixOf(p, k2) && Body(k1) == Body(k2)
    ensures k1.SessionKey? == k2.SessionKey? && k1.ChallengeKey? == k2.ChallengeKey?
    ensures k1.LimitKey? == k2.LimitKey? && k1.UserKey? == k2.UserKey? && k1.EmailKey? == k2.EmailKey?
  {
    BuildSplits(p, k1);
    BuildSplits(p, k2);
    CommonString(PrefixOf(p, k1), Body(k1), PrefixOf(p, k2), Body(k2));
    var ps := [p.challenge, p.pubKey, p.session, p.email, p.rateLimit];
    var i1, i2 := KindIndex(k1), KindIndex(k2);
    assert ps[i1] == PrefixOf(p, k1) && ps[i2] == PrefixOf(p, k2);
    assert i1 == i2;
    assert Body(k1) == Build(p, k1)[|PrefixOf(p, k1)|..];
    assert Body(k2) == Build(p, k2)[|PrefixOf(p, k2)|..];
  }

  function KindIndex(k: Key): nat {
    match k
    case ChallengeKey(_, _, _) => 0
    case UserKey(_, _) => 1
    case SessionKey(_, _) => 2
    case EmailKey(_) => 3
    case LimitKey(_) => 4
  }

  /**
   * The one fact the key-value store stands on: prefix-free prefixes and colon-free scopes make
   * all five key builders injective and their images disjoint.
   */
  lemma BuildInjective(p: KeyPrefixes, k1: Key, k2: Key)
    requires PrefixFree(p) && KeyOk(k1) && KeyOk(k2)
    requires Build(p, k1) == Build(p, k2)
    ensures k1 == k2
  {
    SameKind(p, k1, k2);
    match k1
    case SessionKey(app, hash) => SplitUnique(':', app, k2.appId, hash, k2.tokenHash);
    case UserKey(app, pk) => SplitUnique(':', app, k2.appId, pk, k2.publicKey);
    case EmailKey(_) =>
    case ChallengeKey(app, pk, challenge) =>
      SplitUnique(':', app, k2.appId, pk + [':'] + challenge, k2.publicKey + [':'] + k2.challenge);
      SplitUnique(':', pk, k2.publicKey, challenge, k2.challenge);
    case LimitKey(b) =>
      BucketSplit(b, k2.bucket);
  }

  /** The tail of a bucket key behind its endpoint. */
  function AfterEndpoint(b: RateLimitBucket): string {
    match b.appId
    case None => b.identifier
    case Some(app) => app + [':'] + b.identifier
  }

  lemma BucketBody(b: RateLimitBucket)
    ensures Body(LimitKey(b)) == b.endpoint + [':'] + AfterEndpoint(b)
  {
  }

  lemma BucketSplit(b1: RateLimitBucket, b2: RateLimitBucket)
    requires BucketOk(b1) && BucketOk(b2)
    requires Body(LimitKey(b1)) == Body(LimitKey(b2))
    ensures b1 == b2
  {
    BucketBody(b1);
    BucketBody(b2);
    SplitUnique(':', b1.endpoint, b2.endpoint, AfterEndpoint(b1), AfterEndpoint(b2));
    if b1.appId.Some? {
      SplitUnique(':', b1.appId.value, b2.appId.value, b1.identifier, b2.identifier);
    }
  }

  /** A global bucket whose identifier spells out an app-scoped bucket of the same endpoint. */
  predicate Impersonates(g: RateLimitBucket, s: RateLimitBucket) {
    && g.endpoint == s.endpoint && g.appId.None? && s.appId.Some?
    && g.identifier == s.appId.value + [':'] + s.identifier
  }

  /**
   * Without the discipline that an endpoint is always scoped or always global, bucket keys are
   * not injective. They meet in exactly one way: a global identifier that spells out a scoped one.
   */
  lemma BucketsCollideExactly(b1: RateLimitBucket, b2: RateLimitBucket)
    requires Free(':', b1.endpoint) && Free(':', b2.endpoint)
    requires b1.appId.Some? ==> Free(':', b1.appId.value)
    requires b2.appId.Some? ==> Free(':', b2.appId.value)
    ensures Body(LimitKey(b1)) == Body(LimitKey(b2))
       <==> b1 == b2 || Impersonates(b1, b2) || Impersonates(b2, b1)
  {
    BucketBody(b1);
    BucketBody(b2);
    if Body(LimitKey(b1)) == Body(LimitKey(b2)) {
      SplitUnique(':', b1.endpoint, b2.endpoint, AfterEndpoint(b1), AfterEndpoint(b2));
      if b1.appId.Some? && b2.appId.Some? {
        SplitUnique(':', b1.appId.value, b2.appId.value, b1.identifier, b2.identifier);
      }
    }
  }

  lemma BucketCollisionExample()
    ensures var g := RateLimitBucket("login", None, "acme:bob");
            var s := RateLimitBucket("login", Some("acme"), "bob");
            g != s && Build(DEFAULT_PREFIXES, LimitKey(g)) == Build(DEFAULT_PREFIXES, LimitKey(s))
  {
    var g := RateLimitBucket("login", None, "acme:bob");
    var s := RateLimitBucket("login", Some("acme"), "bob");
    BucketsCollideExactly(g, s);
    BuildSplits(DEFAULT_PREFIXES, LimitKey(g));
    BuildSplits(DEFAULT_PREFIXES, LimitKey(s));
  }

  // Fields of a user hash.

  const F_PROFILE := "p"
  const F_TOKEN := "t"

  function ChainName(c: Chain): string {
    match c case Solana => "solana" case Evm => "evm"
  }

  function RoleName(r: WalletRole): string {
    match r case Funds => "funds" case Signing => "signing"
  }

  function WalletField(s: Slot): string {
    "w:" + ChainName(s.chain) + ":" + RoleName(s.role)
  }

  predicate IsWalletField(f: string) {
    "w:" <= f
  }

  /** Wallet fields alias neither each other nor the profile and pointer fields. */
  lemma WalletFieldsDistinct(s1: Slot, s2: Slot)
    ensures IsWalletField(WalletField(s1))
    ensures WalletField(s1) != F_PROFILE && WalletField(s1) != F_TOKEN
    ensures WalletField(s1) == WalletField(s2) ==> s1 == s2
  {
    assert WalletField(s1)[2] == ChainName(s1.chain)[0];
    assert WalletField(s2)[2] == ChainName(s2.chain)[0];
    assert WalletField(s1)[|"w:" + ChainName(s1.chain) + ":"|] == RoleName(s1.role)[0];
    assert WalletField(s2)[|"w:" + ChainName(s2.chain) + ":"|] == RoleName(s2.role)[0];
  }
}
