/**
 * The abstract auth store: typed maps, one meaning for every operation of the storage port.
 * Both backends are proved against it. Where they really differ, the operation takes the backend.
 */
module AuthSpec {
  import opened Wrappers
  import opened Strings
  import opened Expiry
  import opened AuthTypes
  import opened Keys

  datatype Backend = KvBackend | SqlBackend

  datatype Record = Record(profile: Option<Profile>, pointer: Option<string>, slots: Slots)

  const NO_RECORD := Record(None, None, map[])

  /** One email under one app. */
  datatype Address = Address(email: string, appId: string)

  datatype AuthState = AuthState(
    records: map<Key, Record>,
    emails: map<Address, string>,
    challenges: map<Key, Timed<()>>,
    sessions: map<Key, Timed<SessionValue>>,
    limits: map<RateLimitBucket, Timed<nat>>)

  const EMPTY := AuthState(map[], map[], map[], map[], map[])

  function RecordAt(a: AuthState, u: Key): Record {
    if u in a.records then a.records[u] else NO_RECORD
  }

  ghost predicate AllFiled(a: AuthState) {
    forall u :: u in a.records ==> Filed(a.records[u].slots)
  }

  function Keyed(user: UserData): Key {
    UserKey(user.profile.appId, user.profile.publicKey)
  }

  // Users.

  function FileAll(slots: Slots, ws: seq<EncryptedWallet>): Slots {
    if ws == [] then slots else FileAll(slots, ws[..|ws| - 1])[ws[|ws| - 1].At() := ws[|ws| - 1]]
  }

  lemma {:induction false} FileAllFiled(slots: Slots, ws: seq<EncryptedWallet>)
    requires Filed(slots)
    ensures Filed(FileAll(slots, ws))
  {
    if ws != [] { FileAllFiled(slots, ws[..|ws| - 1]); }
  }

  function AddressOf(user: UserData): Address
    requires user.profile.email.Some?
  {
    Address(NormalizeEmail(user.profile.email.value), user.profile.appId)
  }

  /** Whether the record's email, if it has one, is free or already its own. */
  predicate MayClaim(a: AuthState, user: UserData) {
    Truthy(user.profile.email) && AddressOf(user) in a.emails
    ==> a.emails[AddressOf(user)] == user.profile.publicKey
  }

  /** The record a whole-record write leaves: a key-value backend keeps a pointer it is not given. */
  function WrittenRecord(b: Backend, r: Record, user: UserData): Record {
    Record(Some(user.profile),
           if b == KvBackend && !Truthy(user.authTokenHash) then r.pointer else user.authTokenHash,
           FileAll(r.slots, user.wallets))
  }

  /** Losing the email leaves the record behind on a key-value backend, and nothing at all on SQL. */
  function PutUser(b: Backend, a: AuthState, user: UserData): (AuthState, bool) {
    var u := Keyed(user);
    var written := a.(records := a.records[u := WrittenRecord(b, RecordAt(a, u), user)]);
    if !MayClaim(a, user) then (if b == KvBackend then written else a, false)
    else if Truthy(user.profile.email) then
      (written.(emails := a.emails[AddressOf(user) := user.profile.publicKey]), true)
    else (written, true)
  }

  function PutWalletSlot(a: AuthState, u: Key, w: EncryptedWallet): AuthState {
    var r := RecordAt(a, u);
    a.(records := a.records[u := r.(slots := r.slots[w.At() := w])])
  }

  /** One slot write per wallet, in order. */
  function PutWalletSlots(a: AuthState, u: Key, ws: seq<EncryptedWallet>): AuthState {
    if ws == [] then a else PutWalletSlot(PutWalletSlots(a, u, ws[..|ws| - 1]), u, ws[|ws| - 1])
  }

  lemma {:induction false} PutWalletSlotsFile(a: AuthState, u: Key, ws: seq<EncryptedWallet>)
    requires u in a.records
    ensures PutWalletSlots(a, u, ws)
         == a.(records := a.records[u := a.records[u].(slots := FileAll(a.records[u].slots, ws))])
  {
    if ws == [] {
      assert a.records[u := a.records[u]] == a.records;
    } else {
      PutWalletSlotsFile(a, u, ws[..|ws| - 1]);
    }
  }

  /** A key-value record after its profile and session field: all of the written record but the wallets. */
  function HeadRecord(r: Record, user: UserData): Record {
    Record(Some(user.profile), if Truthy(user.authTokenHash) then user.authTokenHash else r.pointer, r.slots)
  }

  /** The head and then the wallets make the whole record. */
  lemma HeadThenWallets(a: AuthState, user: UserData)
    ensures var u := Keyed(user);
            var head := a.(records := a.records[u := HeadRecord(RecordAt(a, u), user)]);
            PutWalletSlots(head, u, user.wallets)
            == a.(records := a.records[u := WrittenRecord(KvBackend, RecordAt(a, u), user)])
  {
    var u := Keyed(user);
    PutWalletSlotsFile(a.(records := a.records[u := HeadRecord(RecordAt(a, u), user)]), u, user.wallets);
  }

  /** SQL updates a row that must exist; a hash field needs none. */
  function SetSessionPointer(b: Backend, a: AuthState, u: Key, tokenHash: string): AuthState {
    var r := RecordAt(a, u);
    if b == SqlBackend && r.profile.None? then a
    else a.(records := a.records[u := r.(pointer := Some(tokenHash))])
  }

  function GetUser(b: Backend, a: AuthState, u: Key): Option<UserData> {
    var r := RecordAt(a, u);
    match r.profile
    case None => None
    case Some(profile) =>
      Some(UserData(profile, WalletsInOrder(r.slots),
                    if b == KvBackend && !Truthy(r.pointer) then None else r.pointer))
  }

  function GetPublicKeyByEmail(a: AuthState, appId: string, email: string): Option<string> {
    var at := Address(NormalizeEmail(email), appId);
    if at in a.emails then Some(a.emails[at]) else None
  }

  // Challenges and sessions.

  /** A zero lifetime never expires on a key-value backend and is dead on arrival on SQL. */
  function DeadlineOf(b: Backend, ttlSeconds: int, now: int): Option<int> {
    if b == KvBackend && ttlSeconds == 0 then None else Some(After(ttlSeconds, now))
  }

  function PutChallenge(b: Backend, a: AuthState, k: Key, ttlSeconds: int, now: int): AuthState {
    a.(challenges := a.challenges[k := Timed((), DeadlineOf(b, ttlSeconds, now))])
  }

  function TakeChallenge(a: AuthState, k: Key, now: int): (AuthState, bool) {
    if Live(a.challenges, k, now).Some? then (a.(challenges := a.challenges - {k}), true) else (a, false)
  }

  /** The key-value encoding of a session value, and what it reads back as. */
  function EncodeSession(v: SessionValue): string {
    if Truthy(v.fingerprint) then v.publicKey + "|" + v.fingerprint.value else v.publicKey
  }

  function DecodeSession(raw: string): SessionValue {
    var i := IndexOf('|', raw);
    if i == |raw| then SessionValue(raw, None) else SessionValue(raw[..i], Some(raw[i + 1..]))
  }

  /**
   * A session value survives its string encoding exactly when the public key holds no separator
   * and the fingerprint is absent or non-empty.
   */
  lemma SessionRoundTrip(v: SessionValue)
    ensures DecodeSession(EncodeSession(v)) == v <==> Free('|', v.publicKey) && v.fingerprint != Some("")
  {
    var raw := EncodeSession(v);
    if Free('|', v.publicKey) {
      if Truthy(v.fingerprint) {
        IndexOfSeparator('|', v.publicKey, v.fingerprint.value);
        assert raw == v.publicKey + ['|'] + v.fingerprint.value;
        assert raw[..|v.publicKey|] == v.publicKey && raw[|v.publicKey| + 1..] == v.fingerprint.value;
      } else {
        IndexOfAbsent('|', raw);
      }
    } else {
      assert Free('|', DecodeSession(raw).publicKey);
    }
  }

  function StoredSession(b: Backend, v: SessionValue): SessionValue {
    if b == KvBackend then DecodeSession(EncodeSession(v)) else v
  }

  function PutSession(b: Backend, a: AuthState, k: Key, v: SessionValue, ttlSeconds: int, now: int): AuthState {
    a.(sessions := a.sessions[k := Timed(StoredSession(b, v), DeadlineOf(b, ttlSeconds, now))])
  }

  function GetSession(a: AuthState, k: Key, now: int): Option<SessionValue> {
    match Live(a.sessions, k, now)
    case Some(t) => Some(t.value)
    case None => None
  }

  function DeleteSession(a: AuthState, k: Key): AuthState {
    a.(sessions := a.sessions - {k})
  }

  // Rate limits.

  /**
   * The counter after a hit. `read` is the clock at the increment, `stamp` the clock at the
   * key-value backend's separate expiry call, which fires on the first hit and on the first hit
   * past the cap. SQL reads the clock once and only stamps a fresh window.
   */
  function HitCounter(b: Backend, c: Option<Timed<nat>>, windowSeconds: int, maxAttempts: int,
                      read: int, stamp: int): Timed<nat> {
    match b
    case SqlBackend =>
      if c.None? then Timed(1, Some(After(windowSeconds, read)))
      else Timed(c.value.value + 1, c.value.expiresAt)
    case KvBackend =>
      var hit := if c.None? then Timed(1, None) else Timed(c.value.value + 1, c.value.expiresAt);
      if (hit.value == 1 || hit.value == maxAttempts + 1) && !Expired(hit, stamp)
      then hit.(expiresAt := Some(After(windowSeconds, stamp)))
      else hit
  }

  function Decide(count: nat, maxAttempts: int): RateLimitResult {
    RateLimitResult(count <= maxAttempts, if maxAttempts - count > 0 then maxAttempts - count else 0)
  }

  function HitRateLimit(b: Backend, a: AuthState, bucket: RateLimitBucket, windowSeconds: int,
                        maxAttempts: int, read: int, stamp: int): (AuthState, RateLimitResult) {
    var c := HitCounter(b, Live(a.limits, bucket, read), windowSeconds, maxAttempts, read, stamp);
    (a.(limits := a.limits[bucket := c]), Decide(c.value, maxAttempts))
  }

  // What the operations promise each other.

  lemma {:induction false} FileAllDistinct(slots: Slots, ws: seq<EncryptedWallet>)
    requires DistinctSlots(ws)
    ensures forall s :: s in FileAll(slots, ws) <==> s in slots || exists w :: w in ws && w.At() == s
    ensures forall w :: w in ws ==> w.At() in FileAll(slots, ws) && FileAll(slots, ws)[w.At()] == w
    ensures forall s :: s in slots && (forall w :: w in ws ==> w.At() != s) ==>
              s in FileAll(slots, ws) && FileAll(slots, ws)[s] == slots[s]
  {
    if ws != [] {
      var front, last := ws[..|ws| - 1], ws[|ws| - 1];
      assert forall w :: w in ws <==> w == last || w in front;
      FileAllDistinct(slots, front);
    }
  }

  /** Filing one-per-slot wallets in an empty record and listing the record sorts them. */
  lemma FileAllSorted(ws: seq<EncryptedWallet>)
    requires DistinctSlots(ws)
    ensures WalletsInOrder(FileAll(map[], ws)) == SortWalletsBySlot(ws)
  {
    var slots := FileAll(map[], ws);
    FileAllFiled(map[], ws);
    FileAllDistinct(map[], ws);
    forall v ensures v in ws <==> v.At() in slots && slots[v.At()] == v {
      if v.At() in slots && slots[v.At()] == v {
        var w :| w in ws && w.At() == v.At();
      }
    }
    SortedListing(ws, slots);
  }

  /** Registering a new identity and reading it back yields the same record, wallets in slot order. */
  lemma RegisterRoundTrip(b: Backend, a: AuthState, user: UserData)
    requires RecordAt(a, Keyed(user)) == NO_RECORD && MayClaim(a, user)
    requires DistinctSlots(user.wallets) && user.authTokenHash != Some("")
    ensures PutUser(b, a, user).1
    ensures GetUser(b, PutUser(b, a, user).0, Keyed(user))
         == Some(user.(wallets := SortWalletsBySlot(user.wallets)))
    ensures Truthy(user.profile.email) ==>
              GetPublicKeyByEmail(PutUser(b, a, user).0, user.profile.appId, user.profile.email.value)
              == Some(user.profile.publicKey)
  {
    var u := Keyed(user);
    var a' := PutUser(b, a, user).0;
    assert RecordAt(a', u) == WrittenRecord(b, NO_RECORD, user);
    assert RecordAt(a', u).slots == FileAll(map[], user.wallets);
    FileAllSorted(user.wallets);
    assert GetUser(b, a', u).value.wallets == SortWalletsBySlot(user.wallets);
  }

  /** A slot write and any other slot write or pointer write can overlap: either order, same record. */
  lemma FieldWritesCommute(b: Backend, a: AuthState, u: Key, v: EncryptedWallet, w: EncryptedWallet, hash: string)
    requires RecordAt(a, u).profile.Some?
    requires v.At() != w.At()
    ensures RecordAt(PutWalletSlot(PutWalletSlot(a, u, v), u, w), u)
         == RecordAt(PutWalletSlot(PutWalletSlot(a, u, w), u, v), u)
    ensures SetSessionPointer(b, PutWalletSlot(a, u, w), u, hash)
         == PutWalletSlot(SetSessionPointer(b, a, u, hash), u, w)
  {
    var s := RecordAt(a, u).slots;
    assert s[v.At() := v][w.At() := w] == s[w.At() := w][v.At() := v];
    var p := RecordAt(a, u).(pointer := Some(hash));
    assert a.records[u := RecordAt(a, u).(slots := s[w.At() := w])][u := p.(slots := s[w.At() := w])]
        == a.records[u := p][u := p.(slots := s[w.At() := w])];
  }

  // Where the two backends part, exactly.

  /** A whole-record write means the same on both backends iff it wins, and brings or needs no pointer. */
  lemma PutUserAgrees(a: AuthState, user: UserData)
    ensures var u := Keyed(user);
            var kv, sql := PutUser(KvBackend, a, user), PutUser(SqlBackend, a, user);
            && kv.1 == sql.1
            && (kv.0 == sql.0 <==>
                 if MayClaim(a, user) then Truthy(user.authTokenHash) || RecordAt(a, u).pointer == user.authTokenHash
                 else u in a.records && WrittenRecord(KvBackend, a.records[u], user) == a.records[u])
  {
    var u := Keyed(user);
    var kv, sql := PutUser(KvBackend, a, user).0, PutUser(SqlBackend, a, user).0;
    assert kv.records[u] == WrittenRecord(KvBackend, RecordAt(a, u), user);
    if MayClaim(a, user) {
      assert sql.records[u] == WrittenRecord(SqlBackend, RecordAt(a, u), user);
    } else {
      assert sql == a;
      assert u in a.records && kv.records[u] == a.records[u] ==> kv.records == a.records;
    }
  }

  /** A hit is decided alike on both backends; the windows part iff it crosses the cap. */
  lemma HitRateLimitAgrees(a: AuthState, bucket: RateLimitBucket, windowSeconds: int, maxAttempts: int, now: int)
    requires Live(a.limits, bucket, now).Some? ==> Live(a.limits, bucket, now).value.value >= 1
    ensures var kv := HitRateLimit(KvBackend, a, bucket, windowSeconds, maxAttempts, now, now);
            var sql := HitRateLimit(SqlBackend, a, bucket, windowSeconds, maxAttempts, now, now);
            var c := Live(a.limits, bucket, now);
            && kv.1 == sql.1
            && (kv.0 == sql.0 <==>
                 c.Some? && c.value.value == maxAttempts ==> c.value.expiresAt == Some(After(windowSeconds, now)))
  {
    var kv := HitRateLimit(KvBackend, a, bucket, windowSeconds, maxAttempts, now, now).0;
    var sql := HitRateLimit(SqlBackend, a, bucket, windowSeconds, maxAttempts, now, now).0;
    assert kv.limits[bucket] == sql.limits[bucket] ==> kv.limits == sql.limits;
  }
}
