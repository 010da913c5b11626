/** The key-value auth store refines the abstract store. */
module KvStore {
  import opened Wrappers
  import opened Expiry
  import opened AuthTypes
  import opened Keys
  import opened AuthSpec
  import opened MemoryAdapters

  // The simulation relation: what each flat key must hold for a given abstract state.

  datatype Item = SessionItem(v: SessionValue) | ChallengeItem | CounterItem(n: nat)

  function AsString(t: Text): string {
    match t
    case Plain(s) => s
    case _ => ""
  }

  predicate TimedKey(k: Key) {
    k.SessionKey? || k.ChallengeKey? || k.LimitKey?
  }

  function ReadItem(k: Key, t: Text): Item
    requires TimedKey(k)
  {
    match k
    case SessionKey(_, _) => SessionItem(DecodeSession(AsString(t)))
    case ChallengeKey(_, _, _) => ChallengeItem
    case LimitKey(_) => CounterItem(ParseCount(t))
  }

  function Seen(k: Key, e: Option<Timed<Text>>): Option<Timed<Item>>
    requires TimedKey(k)
  {
    match e
    case None => None
    case Some(t) => Some(Timed(ReadItem(k, t.value), t.expiresAt))
  }

  function Expected(a: AuthState, k: Key, now: int): Option<Timed<Item>>
    requires TimedKey(k)
  {
    match k
    case SessionKey(_, _) =>
      (match Live(a.sessions, k, now)
       case None => None
       case Some(t) => Some(Timed(SessionItem(t.value), t.expiresAt)))
    case ChallengeKey(_, _, _) =>
      (match Live(a.challenges, k, now)
       case None => None
       case Some(t) => Some(Timed(ChallengeItem, t.expiresAt)))
    case LimitKey(b) =>
      (match Live(a.limits, b, now)
       case None => None
       case Some(t) => Some(Timed(CounterItem(t.value), t.expiresAt)))
  }

  ghost predicate ItemsAgree(s: Store, p: KeyPrefixes, a: AuthState, now: int) {
    forall k: Key :: TimedKey(k) && KeyOk(k) ==> Seen(k, Live(s, Build(p, k), now)) == Expected(a, k, now)
  }

  predicate HashKey(k: Key) {
    k.UserKey? || k.EmailKey?
  }

  function WalletAt(slots: Slots, s: Slot): Option<Text> {
    if s in slots then Some(WalletJson(slots[s])) else None
  }

  function RecordField(r: Record, f: string): Option<Text> {
    if f == F_PROFILE then (if r.profile.Some? then Some(ProfileJson(r.profile.value)) else None)
    else if f == F_TOKEN then (if r.pointer.Some? then Some(Plain(r.pointer.value)) else None)
    else if f == WalletField(WALLET_SLOTS[0]) then WalletAt(r.slots, WALLET_SLOTS[0])
    else if f == WalletField(WALLET_SLOTS[1]) then WalletAt(r.slots, WALLET_SLOTS[1])
    else if f == WalletField(WALLET_SLOTS[2]) then WalletAt(r.slots, WALLET_SLOTS[2])
    else if f == WalletField(WALLET_SLOTS[3]) then WalletAt(r.slots, WALLET_SLOTS[3])
    else None
  }

  function ExpectedField(a: AuthState, k: Key, f: string): Option<Text>
    requires HashKey(k)
  {
    match k
    case UserKey(_, _) => RecordField(RecordAt(a, k), f)
    case EmailKey(email) =>
      if Address(email, f) in a.emails then Some(Plain(a.emails[Address(email, f)])) else None
  }

  ghost predicate HashesAgree(h: Hashes, p: KeyPrefixes, a: AuthState) {
    forall k: Key, f: string :: HashKey(k) && KeyOk(k) ==> Field(h, Build(p, k), f) == ExpectedField(a, k, f)
  }

  // How the relation survives time and single-key updates.

  lemma ItemsAgreeLater(s: Store, p: KeyPrefixes, a: AuthState, now: int, later: int)
    requires ItemsAgree(s, p, a, now) && now <= later
    ensures ItemsAgree(s, p, a, later)
  {
    forall k: Key | TimedKey(k) && KeyOk(k) ensures Seen(k, Live(s, Build(p, k), later)) == Expected(a, k, later) {
      assert Seen(k, Live(s, Build(p, k), now)) == Expected(a, k, now);
      LiveLater(s, Build(p, k), now, later);
    }
  }

  lemma ItemsUpdate(s: Store, s': Store, p: KeyPrefixes, a: AuthState, a': AuthState, k0: Key, now: int)
    requires PrefixFree(p) && ItemsAgree(s, p, a, now) && KeyOk(k0)
    requires forall key :: key != Build(p, k0) ==> Live(s', key, now) == Live(s, key, now)
    requires forall k: Key :: TimedKey(k) && k != k0 ==> Expected(a', k, now) == Expected(a, k, now)
    requires TimedKey(k0) ==> Seen(k0, Live(s', Build(p, k0), now)) == Expected(a', k0, now)
    ensures ItemsAgree(s', p, a', now)
  {
    forall k: Key | TimedKey(k) && KeyOk(k) ensures Seen(k, Live(s', Build(p, k), now)) == Expected(a', k, now) {
      if k != k0 {
        if Build(p, k) == Build(p, k0) { BuildInjective(p, k, k0); }
        assert Seen(k, Live(s, Build(p, k), now)) == Expected(a, k, now);
      }
    }
  }

  /** The item a session write leaves is the abstract session. */
  lemma WriteSession(s: Store, p: KeyPrefixes, a: AuthState, k: Key, v: SessionValue, ttl: int, now: int)
    requires PrefixFree(p) && ItemsAgree(s, p, a, now) && KeyOk(k) && k.SessionKey?
    ensures ItemsAgree(Apply(s, Set(Build(p, k), Plain(EncodeSession(v)), Some(ttl)), now).0, p,
                       PutSession(KvBackend, a, k, v, ttl, now), now)
  {
    var a' := PutSession(KvBackend, a, k, v, ttl, now);
    var key, t := Build(p, k), Timed(Plain(EncodeSession(v)), Deadline(Some(ttl), now));
    assert a'.sessions[k] == Timed(DecodeSession(EncodeSession(v)), t.expiresAt);
    assert Seen(k, Live(s[key := t], key, now)) == Expected(a', k, now);
    ItemsUpdate(s, s[key := t], p, a, a', k, now);
  }

  lemma WriteChallenge(s: Store, p: KeyPrefixes, a: AuthState, k: Key, ttl: int, now: int)
    requires PrefixFree(p) && ItemsAgree(s, p, a, now) && KeyOk(k) && k.ChallengeKey?
    ensures ItemsAgree(Apply(s, Set(Build(p, k), Plain("1"), Some(ttl)), now).0, p,
                       PutChallenge(KvBackend, a, k, ttl, now), now)
  {
    var a' := PutChallenge(KvBackend, a, k, ttl, now);
    var key, t := Build(p, k), Timed(Plain("1"), Deadline(Some(ttl), now));
    assert a'.challenges[k] == Timed((), t.expiresAt);
    assert Seen(k, Live(s[key := t], key, now)) == Expected(a', k, now);
    ItemsUpdate(s, s[key := t], p, a, a', k, now);
  }

  /** A counter after one increment, seen from the abstract side. */
  function Counted(c: Option<Timed<nat>>): Timed<nat> {
    if c.None? then Timed(1, None) else Timed(c.value.value + 1, c.value.expiresAt)
  }

  lemma CountItem(s: Store, p: KeyPrefixes, a: AuthState, b: RateLimitBucket, now: int)
    requires PrefixFree(p) && ItemsAgree(s, p, a, now) && BucketOk(b)
    ensures var key := Build(p, LimitKey(b));
            && Apply(s, Incr(key), now).1 == Count(Counted(Live(a.limits, b, now)).value)
            && ItemsAgree(Apply(s, Incr(key), now).0, p,
                          a.(limits := a.limits[b := Counted(Live(a.limits, b, now))]), now)
  {
    var k := LimitKey(b);
    var key, hit := Build(p, k), Counted(Live(a.limits, b, now));
    var a', s' := a.(limits := a.limits[b := hit]), Apply(s, Incr(key), now).0;
    assert Seen(k, Live(s, key, now)) == Expected(a, k, now);
    assert s'[key] == Timed(Decimal(hit.value), hit.expiresAt);
    assert Seen(k, Live(s', key, now)) == Expected(a', k, now);
    ItemsUpdate(s, s', p, a, a', k, now);
  }

  lemma FieldUpdate(h: Hashes, h': Hashes, p: KeyPrefixes, a: AuthState, a': AuthState, k0: Key, f0: string)
    requires PrefixFree(p) && HashesAgree(h, p, a) && HashKey(k0) && KeyOk(k0)
    requires forall key, f :: key != Build(p, k0) || f != f0 ==> Field(h', key, f) == Field(h, key, f)
    requires forall k: Key, f :: HashKey(k) && (k != k0 || f != f0) ==>
               ExpectedField(a', k, f) == ExpectedField(a, k, f)
    requires Field(h', Build(p, k0), f0) == ExpectedField(a', k0, f0)
    ensures HashesAgree(h', p, a')
  {
    forall k: Key, f: string | HashKey(k) && KeyOk(k)
      ensures Field(h', Build(p, k), f) == ExpectedField(a', k, f)
    {
      assert Field(h, Build(p, k), f) == ExpectedField(a, k, f);
      if k != k0 && Build(p, k) == Build(p, k0) { BuildInjective(p, k, k0); }
    }
  }

  /** Deleting a session key from both keyspaces touches no hash: no session key is a hash key. */
  lemma DeletedElsewhere(h: Hashes, p: KeyPrefixes, a: AuthState, k0: Key)
    requires PrefixFree(p) && HashesAgree(h, p, a) && KeyOk(k0) && !HashKey(k0)
    ensures HashesAgree(h - {Build(p, k0)}, p, a)
  {
    forall k: Key, f: string | HashKey(k) && KeyOk(k)
      ensures Field(h - {Build(p, k0)}, Build(p, k), f) == ExpectedField(a, k, f)
    {
      assert Field(h, Build(p, k), f) == ExpectedField(a, k, f);
      if Build(p, k) == Build(p, k0) { BuildInjective(p, k, k0); }
    }
  }

  lemma FourFields(s: Slot)
    ensures s in WALLET_SLOTS
    ensures forall r: Record :: RecordField(r, WalletField(s)) == WalletAt(r.slots, s)
  {
    assert WALLET_SLOTS[Rank(s)] == s;
    forall i | 0 <= i < |WALLET_SLOTS| { WalletFieldsDistinct(s, WALLET_SLOTS[i]); }
  }

  lemma WriteProfile(h: Hashes, p: KeyPrefixes, a: AuthState, u: Key, profile: Profile)
    requires PrefixFree(p) && HashesAgree(h, p, a) && u.UserKey? && KeyOk(u)
    ensures HashesAgree(h[Build(p, u) := HashAt(h, Build(p, u))[F_PROFILE := ProfileJson(profile)]], p,
                        a.(records := a.records[u := RecordAt(a, u).(profile := Some(profile))]))
  {
    FieldUpdate(h, h[Build(p, u) := HashAt(h, Build(p, u))[F_PROFILE := ProfileJson(profile)]], p, a,
                a.(records := a.records[u := RecordAt(a, u).(profile := Some(profile))]), u, F_PROFILE);
  }

  lemma WritePointer(h: Hashes, p: KeyPrefixes, a: AuthState, u: Key, hash: string)
    requires PrefixFree(p) && HashesAgree(h, p, a) && u.UserKey? && KeyOk(u)
    ensures HashesAgree(h[Build(p, u) := HashAt(h, Build(p, u))[F_TOKEN := Plain(hash)]], p,
                        SetSessionPointer(KvBackend, a, u, hash))
  {
    FieldUpdate(h, h[Build(p, u) := HashAt(h, Build(p, u))[F_TOKEN := Plain(hash)]], p, a,
                SetSessionPointer(KvBackend, a, u, hash), u, F_TOKEN);
  }

  lemma WriteSlot(h: Hashes, p: KeyPrefixes, a: AuthState, u: Key, w: EncryptedWallet)
    requires PrefixFree(p) && HashesAgree(h, p, a) && u.UserKey? && KeyOk(u)
    ensures HashesAgree(h[Build(p, u) := HashAt(h, Build(p, u))[WalletField(w.At()) := WalletJson(w)]], p,
                        PutWalletSlot(a, u, w))
  {
    var a' := PutWalletSlot(a, u, w);
    FourFields(w.At());
    forall k: Key, f | HashKey(k) && (k != u || f != WalletField(w.At()))
      ensures ExpectedField(a', k, f) == ExpectedField(a, k, f)
    {
      if k == u { OtherField(RecordAt(a, u), w, f); }
    }
    FieldUpdate(h, h[Build(p, u) := HashAt(h, Build(p, u))[WalletField(w.At()) := WalletJson(w)]], p, a, a',
                u, WalletField(w.At()));
  }

  lemma OtherField(r: Record, w: EncryptedWallet, f: string)
    requires f != WalletField(w.At())
    ensures RecordField(r.(slots := r.slots[w.At() := w]), f) == RecordField(r, f)
  {
  }

  lemma WriteEmail(h: Hashes, h': Hashes, p: KeyPrefixes, a: AuthState, at: Address, pk: string)
    requires PrefixFree(p) && HashesAgree(h, p, a)
    requires h'[Build(p, EmailKey(at.email)) := map[]] == h[Build(p, EmailKey(at.email)) := map[]]
    requires HashAt(h', Build(p, EmailKey(at.email))) == HashAt(h, Build(p, EmailKey(at.email)))[at.appId := Plain(pk)]
    ensures HashesAgree(h', p, a.(emails := a.emails[at := pk]))
  {
    var key := Build(p, EmailKey(at.email));
    forall key', f | key' != key || f != at.appId ensures Field(h', key', f) == Field(h, key', f) {
      SameField(h, h', key, key', f);
      if key' == key {
        assert Field(h, key, f) == FieldOf(HashAt(h, key), f);
        assert Field(h', key, f) == FieldOf(HashAt(h', key), f);
      }
    }
    assert Field(h', key, at.appId) == FieldOf(HashAt(h', key), at.appId);
    FieldUpdate(h, h', p, a, a.(emails := a.emails[at := pk]), EmailKey(at.email), at.appId);
  }

  function FieldOf(m: map<string, Text>, f: string): Option<Text> {
    if f in m then Some(m[f]) else None
  }

  lemma SameField(h: Hashes, h': Hashes, key: string, key': string, f: string)
    requires h'[key := map[]] == h[key := map[]]
    ensures key' != key ==> Field(h', key', f) == Field(h, key', f)
  {
    assert key' in h[key := map[]] <==> key' in h'[key := map[]];
    if key' != key && key' in h { assert h[key := map[]][key'] == h'[key := map[]][key']; }
  }

  /** A refused claim leaves every field as it was, whether or not the hash came to exist. */
  lemma SameHashes(h: Hashes, h': Hashes, p: KeyPrefixes, a: AuthState, key: string)
    requires HashesAgree(h, p, a)
    requires h'[key := map[]] == h[key := map[]] && HashAt(h', key) == HashAt(h, key)
    ensures HashesAgree(h', p, a)
  {
    forall k: Key, f: string | HashKey(k) && KeyOk(k)
      ensures Field(h', Build(p, k), f) == ExpectedField(a, k, f)
    {
      SameField(h, h', key, Build(p, k), f);
      assert Field(h, key, f) == FieldOf(HashAt(h, key), f);
      assert Field(h', key, f) == FieldOf(HashAt(h', key), f);
      assert Field(h, Build(p, k), f) == ExpectedField(a, k, f);
    }
  }

  // Reading a whole record.

  function TokenOf(h: map<string, Text>): Option<string> {
    if F_TOKEN in h && AsString(h[F_TOKEN]) != "" then Some(AsString(h[F_TOKEN])) else None
  }

  /** The hash of a record that agrees with an abstract record. */
  ghost predicate HashHolds(h: map<string, Text>, r: Record) {
    forall f :: FieldOf(h, f) == RecordField(r, f)
  }

  lemma HashOfRecord(h: Hashes, p: KeyPrefixes, a: AuthState, u: Key)
    requires HashesAgree(h, p, a) && u.UserKey? && KeyOk(u)
    ensures HashHolds(HashAt(h, Build(p, u)), RecordAt(a, u))
  {
    forall f ensures FieldOf(HashAt(h, Build(p, u)), f) == RecordField(RecordAt(a, u), f) {
      assert Field(h, Build(p, u), f) == ExpectedField(a, u, f);
    }
  }

  lemma ProfileFieldHolds(h: map<string, Text>, r: Record)
    requires HashHolds(h, r)
    ensures F_PROFILE in h <==> r.profile.Some?
    ensures F_PROFILE in h ==> h[F_PROFILE] == ProfileJson(r.profile.value)
  {
    assert FieldOf(h, F_PROFILE) == RecordField(r, F_PROFILE);
  }

  /** The only wallet fields are the four slots'. */
  lemma WalletFieldHolds(h: map<string, Text>, r: Record, f: string)
    requires HashHolds(h, r) && f in h && IsWalletField(f)
    ensures exists s: Slot :: f == WalletField(s) && s in r.slots && h[f] == WalletJson(r.slots[s])
  {
    assert FieldOf(h, f) == RecordField(r, f);
    assert f[0] == 'w';
    var i :| 0 <= i < 4 && f == WalletField(WALLET_SLOTS[i]) && WalletAt(r.slots, WALLET_SLOTS[i]) == Some(h[f]);
  }

  lemma SlotHolds(h: map<string, Text>, r: Record, s: Slot)
    requires HashHolds(h, r) && s in r.slots
    ensures WalletField(s) in h && h[WalletField(s)] == WalletJson(r.slots[s]) && IsWalletField(WalletField(s))
  {
    FourFields(s);
    WalletFieldsDistinct(s, s);
    assert FieldOf(h, WalletField(s)) == RecordField(r, WalletField(s));
  }

  /** The fields and wallets collected from a record's hash, one for one, in any order. */
  ghost predicate Collected(h: map<string, Text>, fields: seq<string>, ws: seq<EncryptedWallet>) {
    && |fields| == |ws| && (forall i, j :: 0 <= i < j < |fields| ==> fields[i] != fields[j])
    && (forall i :: 0 <= i < |ws| ==>
          fields[i] in h && IsWalletField(fields[i]) && h[fields[i]] == WalletJson(ws[i]))
    && (forall f :: f in h && IsWalletField(f) ==> f in fields)
  }

  lemma CollectedAt(h: map<string, Text>, r: Record, fields: seq<string>, ws: seq<EncryptedWallet>, i: nat)
    requires HashHolds(h, r) && Filed(r.slots) && Collected(h, fields, ws) && i < |ws|
    ensures fields[i] == WalletField(ws[i].At()) && ws[i].At() in r.slots && r.slots[ws[i].At()] == ws[i]
  {
    WalletFieldHolds(h, r, fields[i]);
  }

  lemma CollectedIs(h: map<string, Text>, r: Record, fields: seq<string>, ws: seq<EncryptedWallet>, v: EncryptedWallet)
    requires HashHolds(h, r) && Filed(r.slots) && Collected(h, fields, ws)
    ensures v in ws <==> v.At() in r.slots && r.slots[v.At()] == v
  {
    if v in ws {
      var i :| 0 <= i < |ws| && ws[i] == v;
      CollectedAt(h, r, fields, ws, i);
    }
    if v.At() in r.slots && r.slots[v.At()] == v {
      SlotHolds(h, r, v.At());
      var i :| 0 <= i < |fields| && fields[i] == WalletField(v.At());
      assert ws[i] == v;
    }
  }

  /** A listing of all wallet fields of a record's hash lists the record's wallets, one per slot. */
  lemma ListingOfRecord(h: map<string, Text>, r: Record, fields: seq<string>, ws: seq<EncryptedWallet>)
    requires HashHolds(h, r) && Filed(r.slots) && Collected(h, fields, ws)
    ensures SortWalletsBySlot(ws) == WalletsInOrder(r.slots)
  {
    forall i | 0 <= i < |ws| ensures fields[i] == WalletField(ws[i].At()) { CollectedAt(h, r, fields, ws, i); }
    forall v ensures v in ws <==> v.At() in r.slots && r.slots[v.At()] == v { CollectedIs(h, r, fields, ws, v); }
    SortedListing(ws, r.slots);
  }
}
