/**
 * Whole runs of the storage port on the two backends: exactly which calls mean the same on both,
 * and the theorem that a run keeps the backends alike if and only if it makes no others.
 */
module BackendRuns {
  import opened Wrappers
  import opened Strings
  import opened Expiry
  import opened AuthTypes
  import opened Keys
  import opened AuthSpec

  datatype Op =
    | DoPutUser(user: UserData)
    | DoPutWalletSlot(id: Key, wallet: EncryptedWallet)
    | DoSetSessionPointer(id: Key, tokenHash: string)
    | DoGetUser(id: Key)
    | DoGetPublicKeyByEmail(appId: string, email: string)
    | DoPutChallenge(key: Key, ttlSeconds: int)
    | DoTakeChallenge(key: Key)
    | DoPutSession(key: Key, session: SessionValue, ttlSeconds: int)
    | DoGetSession(key: Key)
    | DoDeleteSession(key: Key)
    | DoHitRateLimit(bucket: RateLimitBucket, windowSeconds: int, maxAttempts: int)

  datatype Answer =
    | Done
    | Flag(b: bool)
    | User(user: Option<UserData>)
    | Name(name: Option<string>)
    | Session(session: Option<SessionValue>)
    | Decision(result: RateLimitResult)

  datatype Call = Call(op: Op, at: int)

  function Step(b: Backend, a: AuthState, c: Call): (AuthState, Answer) {
    match c.op
    case DoPutUser(user) => var (a', ok) := PutUser(b, a, user); (a', Flag(ok))
    case DoPutWalletSlot(u, w) => (PutWalletSlot(a, u, w), Done)
    case DoSetSessionPointer(u, hash) => (SetSessionPointer(b, a, u, hash), Done)
    case DoGetUser(u) => (a, User(GetUser(b, a, u)))
    case DoGetPublicKeyByEmail(app, email) => (a, Name(GetPublicKeyByEmail(a, app, email)))
    case DoPutChallenge(k, ttl) => (PutChallenge(b, a, k, ttl, c.at), Done)
    case DoTakeChallenge(k) => var (a', taken) := TakeChallenge(a, k, c.at); (a', Flag(taken))
    case DoPutSession(k, v, ttl) => (PutSession(b, a, k, v, ttl, c.at), Done)
    case DoGetSession(k) => (a, Session(GetSession(a, k, c.at)))
    case DoDeleteSession(k) => (DeleteSession(a, k), Done)
    case DoHitRateLimit(bucket, window, max) =>
      var (a', r) := HitRateLimit(b, a, bucket, window, max, c.at, c.at);
      (a', Decision(r))
  }

  function Answers(b: Backend, a: AuthState, run: seq<Call>): seq<Answer>
    decreases run
  {
    if run == [] then [] else [Step(b, a, run[0]).1] + Answers(b, Step(b, a, run[0]).0, run[1..])
  }

  /**
   * The calls on which the backends agree, as a caller could check beforehand:
   *  - a whole-record write that may claim its email, and brings a pointer or the one there is;
   *    or one that may not, and rewrites the record as it stands;
   *  - a pointer write to an existing record, or one that repeats what a missing record holds;
   *  - any nonzero lifetime of a challenge, any negative lifetime of a session, and a positive
   *    one of a session value the string encoding keeps;
   *  - any hit but one that crosses the cap and moves the deadline, as only a key-value backend does.
   */
  predicate Portable(a: AuthState, c: Call) {
    match c.op
    case DoPutUser(user) =>
      var r := RecordAt(a, Keyed(user));
      if MayClaim(a, user) then Truthy(user.authTokenHash) || r.pointer == user.authTokenHash
      else WrittenRecord(KvBackend, r, user) == r
    case DoSetSessionPointer(u, hash) =>
      var r := RecordAt(a, u);
      if r.profile.Some? then hash != "" else r.pointer == Some(hash)
    case DoPutChallenge(_, ttl) => ttl != 0
    case DoPutSession(_, v, ttl) => ttl < 0 || (ttl > 0 && Free('|', v.publicKey) && v.fingerprint != Some(""))
    case DoHitRateLimit(bucket, window, max) =>
      var counter := Live(a.limits, bucket, c.at);
      counter.Some? && counter.value.value == max ==> counter.value.expiresAt == Some(After(window, c.at))
    case _ => true
  }

  /** Portable all along the run, as the SQL backend takes it. */
  predicate PortableRun(a: AuthState, run: seq<Call>)
    decreases run
  {
    run != [] ==> Portable(a, run[0]) && PortableRun(Step(SqlBackend, a, run[0]).0, run[1..])
  }

  predicate Timely(run: seq<Call>, from: int) {
    run != [] ==> from <= run[0].at && Timely(run[1..], run[0].at)
  }

  /** The two abstract states agree in everything a later call computes with. */
  ghost predicate Alike(kv: AuthState, sql: AuthState, now: int) {
    && (forall u: Key :: RecordAt(kv, u) == RecordAt(sql, u))
    && (forall u: Key :: RecordAt(sql, u).pointer != Some(""))
    && kv.emails == sql.emails
    && (forall k: Key :: Live(kv.challenges, k, now) == Live(sql.challenges, k, now))
    && (forall k: Key :: Live(kv.sessions, k, now) == Live(sql.sessions, k, now))
    && (forall b: RateLimitBucket :: Live(kv.limits, b, now) == Live(sql.limits, b, now))
    && (forall b: RateLimitBucket :: Live(sql.limits, b, now).Some? ==> Live(sql.limits, b, now).value.value >= 1)
  }

  lemma AlikeLater(kv: AuthState, sql: AuthState, now: int, later: int)
    requires Alike(kv, sql, now) && now <= later
    ensures Alike(kv, sql, later)
  {
    forall k: Key
      ensures Live(kv.challenges, k, later) == Live(sql.challenges, k, later)
      ensures Live(kv.sessions, k, later) == Live(sql.sessions, k, later)
    {
      LiveLater(kv.challenges, k, now, later);
      LiveLater(sql.challenges, k, now, later);
      LiveLater(kv.sessions, k, now, later);
      LiveLater(sql.sessions, k, now, later);
    }
    forall b: RateLimitBucket
      ensures Live(kv.limits, b, later) == Live(sql.limits, b, later)
      ensures Live(sql.limits, b, later).Some? ==> Live(sql.limits, b, later).value.value >= 1
    {
      LiveLater(kv.limits, b, now, later);
      LiveLater(sql.limits, b, now, later);
    }
  }

  /** A change to one record, the same on both sides. */
  lemma SameRecordWrite(kv: AuthState, sql: AuthState, u: Key, r: Record, now: int)
    requires Alike(kv, sql, now) && r.pointer != Some("")
    ensures Alike(kv.(records := kv.records[u := r]), sql.(records := sql.records[u := r]), now)
  {
    var kv', sql' := kv.(records := kv.records[u := r]), sql.(records := sql.records[u := r]);
    forall v: Key ensures RecordAt(kv', v) == RecordAt(sql', v) && RecordAt(sql', v).pointer != Some("") {
      assert RecordAt(kv, v) == RecordAt(sql, v) && RecordAt(sql, v).pointer != Some("");
    }
    AlikeElsewhere(kv, sql, kv', sql', now);
  }

  /** Off the records, only the maps that changed need another look. */
  lemma AlikeElsewhere(kv: AuthState, sql: AuthState, kv': AuthState, sql': AuthState, now: int)
    requires Alike(kv, sql, now) && kv'.emails == sql'.emails
    requires forall u: Key :: RecordAt(kv', u) == RecordAt(sql', u) && RecordAt(sql', u).pointer != Some("")
    requires forall k: Key :: Live(kv.challenges, k, now) == Live(sql.challenges, k, now) ==>
               Live(kv'.challenges, k, now) == Live(sql'.challenges, k, now)
    requires forall k: Key :: Live(kv.sessions, k, now) == Live(sql.sessions, k, now) ==>
               Live(kv'.sessions, k, now) == Live(sql'.sessions, k, now)
    requires kv'.limits == kv.limits && sql'.limits == sql.limits
    ensures Alike(kv', sql', now)
  {
  }

  lemma SameRecords(kv: AuthState, sql: AuthState, kv': AuthState, sql': AuthState, now: int)
    requires Alike(kv, sql, now) && kv'.records == kv.records && sql'.records == sql.records
    ensures forall u: Key :: RecordAt(kv', u) == RecordAt(sql', u) && RecordAt(sql', u).pointer != Some("")
  {
    forall u: Key ensures RecordAt(kv', u) == RecordAt(sql', u) && RecordAt(sql', u).pointer != Some("") {
      assert RecordAt(kv, u) == RecordAt(sql, u) && RecordAt(sql, u).pointer != Some("");
    }
  }

  /** A winning whole-record write, spelled out. */
  lemma PutUserWins(b: Backend, a: AuthState, user: UserData)
    requires MayClaim(a, user)
    ensures PutUser(b, a, user).1
    ensures var u := Keyed(user);
            PutUser(b, a, user).0
            == a.(records := a.records[u := WrittenRecord(b, RecordAt(a, u), user)], emails := ClaimedEmails(a, user))
  {
  }

  function ClaimedEmails(a: AuthState, user: UserData): map<Address, string> {
    if Truthy(user.profile.email) then a.emails[AddressOf(user) := user.profile.publicKey] else a.emails
  }

  /** A record written on both sides leaves them alike iff it is one record, its pointer not empty. */
  lemma WinningWrite(kv: AuthState, sql: AuthState, u: Key, rk: Record, rs: Record, emails: map<Address, string>,
                     now: int)
    requires Alike(kv, sql, now)
    ensures Alike(kv.(records := kv.records[u := rk], emails := emails),
                  sql.(records := sql.records[u := rs], emails := emails), now)
       <==> rk == rs && rs.pointer != Some("")
  {
    var kv', sql' := kv.(records := kv.records[u := rk]), sql.(records := sql.records[u := rs]);
    if rk == rs && rs.pointer != Some("") {
      SameRecordWrite(kv, sql, u, rs, now);
      SameEmails(kv', sql', emails, now);
    } else {
      assert RecordAt(kv'.(emails := emails), u) == rk && RecordAt(sql'.(emails := emails), u) == rs;
    }
  }

  lemma SameEmails(kv: AuthState, sql: AuthState, emails: map<Address, string>, now: int)
    requires Alike(kv, sql, now)
    ensures Alike(kv.(emails := emails), sql.(emails := emails), now)
  {
    SameRecords(kv, sql, kv.(emails := emails), sql.(emails := emails), now);
    AlikeElsewhere(kv, sql, kv.(emails := emails), sql.(emails := emails), now);
  }

  lemma AlikePutUser(kv: AuthState, sql: AuthState, user: UserData, now: int)
    requires Alike(kv, sql, now)
    ensures var k, s := PutUser(KvBackend, kv, user), PutUser(SqlBackend, sql, user);
            k.1 == s.1 && (Alike(k.0, s.0, now) <==> Portable(sql, Call(DoPutUser(user), now)))
  {
    var u := Keyed(user);
    var r := RecordAt(sql, u);
    assert RecordAt(kv, u) == r && r.pointer != Some("");
    if MayClaim(sql, user) {
      PutUserWins(KvBackend, kv, user);
      PutUserWins(SqlBackend, sql, user);
      WinningWrite(kv, sql, u, WrittenRecord(KvBackend, r, user), WrittenRecord(SqlBackend, r, user),
                   ClaimedEmails(sql, user), now);
    } else {
      LosingWrite(kv, sql, u, WrittenRecord(KvBackend, r, user), now);
    }
  }

  /** A record written on one side only leaves them alike iff it is the one that was there. */
  lemma LosingWrite(kv: AuthState, sql: AuthState, u: Key, r: Record, now: int)
    requires Alike(kv, sql, now)
    ensures Alike(kv.(records := kv.records[u := r]), sql, now) <==> r == RecordAt(sql, u)
  {
    var kv' := kv.(records := kv.records[u := r]);
    if r == RecordAt(sql, u) {
      forall v: Key ensures RecordAt(kv', v) == RecordAt(sql, v) && RecordAt(sql, v).pointer != Some("") {
        assert RecordAt(kv, v) == RecordAt(sql, v) && RecordAt(sql, v).pointer != Some("");
      }
      AlikeElsewhere(kv, sql, kv', sql, now);
    } else {
      assert RecordAt(kv', u) == r;
    }
  }

  lemma AlikePointer(kv: AuthState, sql: AuthState, u: Key, hash: string, now: int)
    requires Alike(kv, sql, now)
    ensures Alike(SetSessionPointer(KvBackend, kv, u, hash), SetSessionPointer(SqlBackend, sql, u, hash), now)
       <==> Portable(sql, Call(DoSetSessionPointer(u, hash), now))
  {
    var r := RecordAt(sql, u);
    var pointed := r.(pointer := Some(hash));
    assert RecordAt(kv, u) == r && r.pointer != Some("");
    if r.profile.Some? {
      WinningWrite(kv, sql, u, pointed, pointed, sql.emails, now);
    } else {
      LosingWrite(kv, sql, u, pointed, now);
    }
  }

  lemma AlikeHit(kv: AuthState, sql: AuthState, bucket: RateLimitBucket, window: int, max: int, now: int)
    requires Alike(kv, sql, now)
    ensures var k := HitRateLimit(KvBackend, kv, bucket, window, max, now, now);
            var s := HitRateLimit(SqlBackend, sql, bucket, window, max, now, now);
            && k.1 == s.1
            && (Alike(k.0, s.0, now) <==> Portable(sql, Call(DoHitRateLimit(bucket, window, max), now)))
  {
    assert Live(kv.limits, bucket, now) == Live(sql.limits, bucket, now);
    var c := Live(sql.limits, bucket, now);
    assert c.Some? ==> c.value.value >= 1;
    var hk := HitCounter(KvBackend, c, window, max, now, now);
    var hs := HitCounter(SqlBackend, c, window, max, now, now);
    var k, s := kv.(limits := kv.limits[bucket := hk]), sql.(limits := sql.limits[bucket := hs]);
    assert hk.value == hs.value;
    if hk == hs {
      SameRecords(kv, sql, k, s, now);
      forall b: RateLimitBucket
        ensures Live(k.limits, b, now) == Live(s.limits, b, now)
        ensures Live(s.limits, b, now).Some? ==> Live(s.limits, b, now).value.value >= 1
      {
        assert Live(kv.limits, b, now) == Live(sql.limits, b, now);
      }
    } else {
      assert Live(k.limits, bucket, now) != Live(s.limits, bucket, now);
    }
  }

  /**
   * One call, exactly. From alike states both backends give the same answer, and leave alike states
   * if and only if the call is portable.
   */
  lemma AlikeStep(kv: AuthState, sql: AuthState, c: Call)
    requires Alike(kv, sql, c.at)
    ensures Step(KvBackend, kv, c).1 == Step(SqlBackend, sql, c).1
    ensures Alike(Step(KvBackend, kv, c).0, Step(SqlBackend, sql, c).0, c.at) <==> Portable(sql, c)
  {
    match c.op
    case DoPutUser(user) => AlikePutUser(kv, sql, user, c.at);
    case DoPutWalletSlot(u, w) => AlikeSlot(kv, sql, u, w, c.at);
    case DoSetSessionPointer(u, hash) => AlikePointer(kv, sql, u, hash, c.at);
    case DoPutChallenge(k, ttl) => AlikePutChallenge(kv, sql, k, ttl, c.at);
    case DoPutSession(k, v, ttl) => AlikePutSession(kv, sql, k, v, ttl, c.at);
    case DoTakeChallenge(k) => AlikeTake(kv, sql, k, c.at);
    case DoDeleteSession(k) => AlikeDelete(kv, sql, k, c.at);
    case DoHitRateLimit(bucket, window, max) => AlikeHit(kv, sql, bucket, window, max, c.at);
    case _ => AlikeRead(kv, sql, c);
  }

  lemma AlikeRead(kv: AuthState, sql: AuthState, c: Call)
    requires Alike(kv, sql, c.at) && (c.op.DoGetUser? || c.op.DoGetPublicKeyByEmail? || c.op.DoGetSession?)
    ensures Step(KvBackend, kv, c).1 == Step(SqlBackend, sql, c).1
    ensures Step(KvBackend, kv, c).0 == kv && Step(SqlBackend, sql, c).0 == sql
  {
    match c.op
    case DoGetUser(u) => assert RecordAt(kv, u) == RecordAt(sql, u);
    case DoGetSession(k) => assert Live(kv.sessions, k, c.at) == Live(sql.sessions, k, c.at);
    case _ =>
  }

  lemma AlikeSlot(kv: AuthState, sql: AuthState, u: Key, w: EncryptedWallet, now: int)
    requires Alike(kv, sql, now)
    ensures Alike(PutWalletSlot(kv, u, w), PutWalletSlot(sql, u, w), now)
  {
    var r := RecordAt(sql, u);
    assert RecordAt(kv, u) == r && r.pointer != Some("");
    SameRecordWrite(kv, sql, u, r.(slots := r.slots[w.At() := w]), now);
  }

  lemma AlikePutChallenge(kv: AuthState, sql: AuthState, k: Key, ttl: int, now: int)
    requires Alike(kv, sql, now)
    ensures Alike(PutChallenge(KvBackend, kv, k, ttl, now), PutChallenge(SqlBackend, sql, k, ttl, now), now)
       <==> ttl != 0
  {
    var kv', sql' := PutChallenge(KvBackend, kv, k, ttl, now), PutChallenge(SqlBackend, sql, k, ttl, now);
    if ttl != 0 {
      SameRecords(kv, sql, kv', sql', now);
      AlikeElsewhere(kv, sql, kv', sql', now);
    } else {
      assert Live(kv'.challenges, k, now).Some? && Live(sql'.challenges, k, now).None?;
    }
  }

  lemma AlikePutSession(kv: AuthState, sql: AuthState, k: Key, v: SessionValue, ttl: int, now: int)
    requires Alike(kv, sql, now)
    ensures Alike(PutSession(KvBackend, kv, k, v, ttl, now), PutSession(SqlBackend, sql, k, v, ttl, now), now)
       <==> Portable(sql, Call(DoPutSession(k, v, ttl), now))
  {
    SessionRoundTrip(v);
    var kv', sql' := PutSession(KvBackend, kv, k, v, ttl, now), PutSession(SqlBackend, sql, k, v, ttl, now);
    if Portable(sql, Call(DoPutSession(k, v, ttl), now)) {
      SameRecords(kv, sql, kv', sql', now);
      AlikeElsewhere(kv, sql, kv', sql', now);
    } else {
      assert Live(kv'.sessions, k, now) != Live(sql'.sessions, k, now);
    }
  }

  lemma AlikeTake(kv: AuthState, sql: AuthState, k: Key, now: int)
    requires Alike(kv, sql, now)
    ensures TakeChallenge(kv, k, now).1 == TakeChallenge(sql, k, now).1
    ensures Alike(TakeChallenge(kv, k, now).0, TakeChallenge(sql, k, now).0, now)
  {
    assert Live(kv.challenges, k, now) == Live(sql.challenges, k, now);
    var kv', sql' := TakeChallenge(kv, k, now).0, TakeChallenge(sql, k, now).0;
    forall j: Key ensures Live(kv'.challenges, j, now) == Live(sql'.challenges, j, now) {
      assert Live(kv.challenges, j, now) == Live(sql.challenges, j, now);
    }
    SameRecords(kv, sql, kv', sql', now);
    AlikeElsewhere(kv, sql, kv', sql', now);
  }

  lemma AlikeDelete(kv: AuthState, sql: AuthState, k: Key, now: int)
    requires Alike(kv, sql, now)
    ensures Alike(DeleteSession(kv, k), DeleteSession(sql, k), now)
  {
    var kv', sql' := DeleteSession(kv, k), DeleteSession(sql, k);
    forall j: Key ensures Live(kv'.sessions, j, now) == Live(sql'.sessions, j, now) {
      assert Live(kv.sessions, j, now) == Live(sql.sessions, j, now);
    }
    SameRecords(kv, sql, kv', sql', now);
    AlikeElsewhere(kv, sql, kv', sql', now);
  }

  /** After every call of the run the two backends are alike. */
  ghost predicate StaysAlike(kv: AuthState, sql: AuthState, run: seq<Call>)
    decreases run
  {
    run != [] ==>
      var kv', sql' := Step(KvBackend, kv, run[0]).0, Step(SqlBackend, sql, run[0]).0;
      Alike(kv', sql', run[0].at) && StaysAlike(kv', sql', run[1..])
  }

  /**
   * Whole runs, exactly. A run of any length keeps the backends alike if and only if its calls are
   * portable, and is then answered alike, call by call.
   */
  lemma {:induction false} BackendsIndistinguishable(kv: AuthState, sql: AuthState, run: seq<Call>, from: int)
    requires Alike(kv, sql, from) && Timely(run, from)
    ensures StaysAlike(kv, sql, run) <==> PortableRun(sql, run)
    ensures PortableRun(sql, run) ==> Answers(KvBackend, kv, run) == Answers(SqlBackend, sql, run)
    decreases run
  {
    if run != [] {
      var c := run[0];
      AlikeLater(kv, sql, from, c.at);
      AlikeStep(kv, sql, c);
      if Portable(sql, c) {
        BackendsIndistinguishable(Step(KvBackend, kv, c).0, Step(SqlBackend, sql, c).0, run[1..], c.at);
      }
    }
  }

  /** In particular from two empty stores. */
  lemma FreshBackendsAgree(run: seq<Call>, from: int)
    requires Timely(run, from)
    ensures StaysAlike(EMPTY, EMPTY, run) <==> PortableRun(EMPTY, run)
    ensures PortableRun(EMPTY, run) ==> Answers(KvBackend, EMPTY, run) == Answers(SqlBackend, EMPTY, run)
  {
    BackendsIndistinguishable(EMPTY, EMPTY, run, from);
  }

  /**
   * Crossing the cap does tell them apart: a hit one window after the first is refused by the
   * key-value backend and allowed by SQL.
   */
  lemma CapCrossingTells(bucket: RateLimitBucket)
    ensures var hit := DoHitRateLimit(bucket, 60, 1);
            && Third(KvBackend, hit, 0, 59000, 60000) == Decision(RateLimitResult(false, 0))
            && Third(SqlBackend, hit, 0, 59000, 60000) == Decision(RateLimitResult(true, 0))
  {
  }

  /** The answer to the third of three calls on an empty store. */
  function Third(b: Backend, op: Op, t1: int, t2: int, t3: int): Answer {
    Step(b, Step(b, Step(b, EMPTY, Call(op, t1)).0, Call(op, t2)).0, Call(op, t3)).1
  }
}
