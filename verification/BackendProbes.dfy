/**
 * What tells the backends apart: after a call that is not portable some later calls are answered
 * differently. And what neither backend ever does: take an email claim away.
 */
module BackendProbes {
  import opened Wrappers
  import opened Strings
  import opened Expiry
  import opened AuthTypes
  import opened Keys
  import opened AuthSpec
  import opened BackendRuns

  /** Some later calls are answered differently. */
  ghost predicate ToldApart(kv: AuthState, sql: AuthState, now: int) {
    exists run :: Timely(run, now) && Answers(KvBackend, kv, run) != Answers(SqlBackend, sql, run)
  }

  lemma OneProbe(kv: AuthState, sql: AuthState, now: int, probe: Call)
    requires now <= probe.at && Step(KvBackend, kv, probe).1 != Step(SqlBackend, sql, probe).1
    ensures ToldApart(kv, sql, now)
  {
    var run := [probe];
    assert Answers(KvBackend, kv, run)[0] == Step(KvBackend, kv, probe).1;
    assert Answers(SqlBackend, sql, run)[0] == Step(SqlBackend, sql, probe).1;
    assert run[1..] == [];
    assert Timely(run, now);
  }

  /** A call, and then a probe. */
  lemma TwoProbes(kv: AuthState, sql: AuthState, now: int, first: Call, probe: Call)
    requires now <= first.at <= probe.at
    requires Step(KvBackend, Step(KvBackend, kv, first).0, probe).1
          != Step(SqlBackend, Step(SqlBackend, sql, first).0, probe).1
    ensures ToldApart(kv, sql, now)
  {
    var kv', sql' := Step(KvBackend, kv, first).0, Step(SqlBackend, sql, first).0;
    OneProbe(kv', sql', first.at, probe);
    var run :| Timely(run, first.at) && Answers(KvBackend, kv', run) != Answers(SqlBackend, sql', run);
    var whole := [first] + run;
    assert whole[1..] == run && Timely(whole, now);
    assert Answers(KvBackend, kv, whole)[1..] == Answers(KvBackend, kv', run);
    assert Answers(SqlBackend, sql, whole)[1..] == Answers(SqlBackend, sql', run);
  }

  lemma InListing(slots: Slots, v: EncryptedWallet)
    requires Filed(slots)
    ensures v in WalletsInOrder(slots) <==> v.At() in slots && slots[v.At()] == v
  {
    WalletsFromSorted(slots, 0);
  }

  /** Filed wallets show in their listing. */
  lemma ListingTells(a: Slots, b: Slots)
    requires Filed(a) && Filed(b) && WalletsInOrder(a) == WalletsInOrder(b)
    ensures a == b
  {
    forall s ensures s in a ==> s in b && b[s] == a[s] {
      if s in a {
        InListing(a, a[s]);
        InListing(b, a[s]);
      }
    }
    forall s ensures s in b ==> s in a && a[s] == b[s] {
      if s in b {
        InListing(a, b[s]);
        InListing(b, b[s]);
      }
    }
  }

  /** Two records that differ are read differently, if the one a key-value backend wrote has a profile. */
  lemma RecordTells(kv: AuthState, sql: AuthState, u: Key, now: int)
    requires RecordAt(kv, u) != RecordAt(sql, u) && RecordAt(kv, u).profile.Some?
    requires Filed(RecordAt(kv, u).slots) && Filed(RecordAt(sql, u).slots)
    requires RecordAt(kv, u).pointer != Some("")
    ensures ToldApart(kv, sql, now)
  {
    var r, q := RecordAt(kv, u), RecordAt(sql, u);
    if q.profile.Some? && WalletsInOrder(r.slots) == WalletsInOrder(q.slots) { ListingTells(r.slots, q.slots); }
    OneProbe(kv, sql, now, Call(DoGetUser(u), now));
  }

  lemma PutUserTells(kv: AuthState, sql: AuthState, user: UserData, now: int)
    requires Alike(kv, sql, now) && AllFiled(sql) && !Portable(sql, Call(DoPutUser(user), now))
    ensures ToldApart(PutUser(KvBackend, kv, user).0, PutUser(SqlBackend, sql, user).0, now)
  {
    var u := Keyed(user);
    var r := RecordAt(sql, u);
    assert RecordAt(kv, u) == r && r.pointer != Some("");
    var kv', sql' := PutUser(KvBackend, kv, user).0, PutUser(SqlBackend, sql, user).0;
    FileAllFiled(r.slots, user.wallets);
    assert RecordAt(kv', u) == WrittenRecord(KvBackend, r, user);
    assert RecordAt(sql', u) == if MayClaim(sql, user) then WrittenRecord(SqlBackend, r, user) else r;
    RecordTells(kv', sql', u, now);
  }

  /** A pointer write nobody can ever see: an empty hash on a record that does not exist. */
  predicate Unseen(a: AuthState, c: Call) {
    c.op.DoSetSessionPointer? && RecordAt(a, c.op.id).profile.None? && c.op.tokenHash == ""
  }

  lemma PointerTells(kv: AuthState, sql: AuthState, u: Key, hash: string, now: int)
    requires Alike(kv, sql, now) && u.UserKey?
    requires var c := Call(DoSetSessionPointer(u, hash), now); !Portable(sql, c) && !Unseen(sql, c)
    ensures ToldApart(SetSessionPointer(KvBackend, kv, u, hash), SetSessionPointer(SqlBackend, sql, u, hash), now)
  {
    var r := RecordAt(sql, u);
    assert RecordAt(kv, u) == r;
    var kv', sql' := SetSessionPointer(KvBackend, kv, u, hash), SetSessionPointer(SqlBackend, sql, u, hash);
    var read := Call(DoGetUser(u), now);
    if r.profile.Some? {
      assert RecordAt(kv', u).pointer == RecordAt(sql', u).pointer == Some("");
      OneProbe(kv', sql', now, read);
    } else {
      // Bring the record into being without a session field of its own.
      var user := UserData(Profile(u.appId, u.publicKey, None, None, WalletAuth, 0, None, None), [], None);
      var create := Call(DoPutUser(user), now);
      assert Keyed(user) == u;
      assert RecordAt(kv', u).pointer == Some(hash);
      Created(KvBackend, kv', user);
      Created(SqlBackend, sql', user);
      TwoProbes(kv', sql', now, create, read);
    }
  }

  /** A record written without a session field keeps the one it had on a key-value backend only. */
  lemma Created(b: Backend, a: AuthState, user: UserData)
    requires user.profile.email.None? && user.authTokenHash.None?
    ensures var r := RecordAt(PutUser(b, a, user).0, Keyed(user));
            r.profile.Some? && r.pointer == if b == KvBackend then RecordAt(a, Keyed(user)).pointer else None
  {
  }

  lemma HitTells(kv: AuthState, sql: AuthState, bucket: RateLimitBucket, window: int, max: int, now: int)
    requires Alike(kv, sql, now) && !Portable(sql, Call(DoHitRateLimit(bucket, window, max), now))
    ensures ToldApart(HitRateLimit(KvBackend, kv, bucket, window, max, now, now).0,
                      HitRateLimit(SqlBackend, sql, bucket, window, max, now, now).0, now)
  {
    assert Live(kv.limits, bucket, now) == Live(sql.limits, bucket, now);
    var c := Live(sql.limits, bucket, now).value;
    var kv' := HitRateLimit(KvBackend, kv, bucket, window, max, now, now).0;
    var sql' := HitRateLimit(SqlBackend, sql, bucket, window, max, now, now).0;
    var moved := After(window, now);
    assert kv'.limits[bucket] == Timed(max + 1, Some(moved));
    assert sql'.limits[bucket] == Timed(max + 1, c.expiresAt);
    // At the earlier of the two deadlines one counter is dead and the other is not.
    var first := if c.expiresAt.None? || moved < c.expiresAt.value then moved else c.expiresAt.value;
    var at := if first < now then now else first;
    var probe := Call(DoHitRateLimit(bucket, 1, max + 3), at);
    assert Expired(kv'.limits[bucket], at) != Expired(sql'.limits[bucket], at);
    OneProbe(kv', sql', now, probe);
  }

  lemma PutChallengeTells(kv: AuthState, sql: AuthState, k: Key, now: int)
    ensures ToldApart(PutChallenge(KvBackend, kv, k, 0, now), PutChallenge(SqlBackend, sql, k, 0, now), now)
  {
    var kv', sql' := PutChallenge(KvBackend, kv, k, 0, now), PutChallenge(SqlBackend, sql, k, 0, now);
    OneProbe(kv', sql', now, Call(DoTakeChallenge(k), now));
  }

  lemma PutSessionTells(kv: AuthState, sql: AuthState, k: Key, v: SessionValue, ttl: int, now: int)
    requires !Portable(sql, Call(DoPutSession(k, v, ttl), now))
    ensures ToldApart(PutSession(KvBackend, kv, k, v, ttl, now), PutSession(SqlBackend, sql, k, v, ttl, now), now)
  {
    SessionRoundTrip(v);
    var kv', sql' := PutSession(KvBackend, kv, k, v, ttl, now), PutSession(SqlBackend, sql, k, v, ttl, now);
    assert GetSession(kv', k, now) != GetSession(sql', k, now);
    OneProbe(kv', sql', now, Call(DoGetSession(k), now));
  }

  /**
   * Portability is not only what keeps the states alike: from alike states a call that is not
   * portable can be told from its effect, unless it is a pointer write nobody can ever see.
   */
  lemma NonPortableTells(kv: AuthState, sql: AuthState, c: Call)
    requires Alike(kv, sql, c.at) && AllFiled(sql) && !Portable(sql, c) && !Unseen(sql, c)
    requires c.op.DoSetSessionPointer? ==> c.op.id.UserKey?
    ensures ToldApart(Step(KvBackend, kv, c).0, Step(SqlBackend, sql, c).0, c.at)
  {
    match c.op
    case DoPutUser(user) => PutUserTells(kv, sql, user, c.at);
    case DoSetSessionPointer(u, hash) => PointerTells(kv, sql, u, hash, c.at);
    case DoPutChallenge(k, ttl) => PutChallengeTells(kv, sql, k, c.at);
    case DoPutSession(k, v, ttl) => PutSessionTells(kv, sql, k, v, ttl, c.at);
    case DoHitRateLimit(bucket, window, max) => HitTells(kv, sql, bucket, window, max, c.at);
  }

  // Email claims, on either backend.

  function AfterRun(b: Backend, a: AuthState, run: seq<Call>): AuthState
    decreases run
  {
    if run == [] then a else AfterRun(b, Step(b, a, run[0]).0, run[1..])
  }

  /** Every claim points to an existing record. */
  ghost predicate Backed(a: AuthState) {
    forall at :: at in a.emails ==> RecordAt(a, UserKey(at.appId, a.emails[at])).profile.Some?
  }

  /** Records stay, and claims stay with their key. */
  ghost predicate Keeps(a: AuthState, a': AuthState) {
    && (forall u :: RecordAt(a, u).profile.Some? ==> RecordAt(a', u).profile.Some?)
    && (forall at :: at in a.emails ==> at in a'.emails && a'.emails[at] == a.emails[at])
  }

  /** A record written in place keeps its profile or gains one. */
  lemma RecordKeeps(a: AuthState, u: Key, r: Record)
    requires Backed(a) && (RecordAt(a, u).profile.Some? ==> r.profile.Some?)
    ensures var a' := a.(records := a.records[u := r]); Keeps(a, a') && Backed(a')
  {
    var a' := a.(records := a.records[u := r]);
    forall v ensures RecordAt(a', v) == if v == u then r else RecordAt(a, v) {
    }
  }

  lemma ClaimKeeps(a: AuthState, at: Address, publicKey: string)
    requires Backed(a) && RecordAt(a, UserKey(at.appId, publicKey)).profile.Some?
    requires at in a.emails ==> a.emails[at] == publicKey
    ensures var a' := a.(emails := a.emails[at := publicKey]); Keeps(a, a') && Backed(a')
  {
    var a' := a.(emails := a.emails[at := publicKey]);
    forall v ensures RecordAt(a', v) == RecordAt(a, v) {
    }
  }

  lemma PutUserKeeps(b: Backend, a: AuthState, user: UserData)
    requires Backed(a)
    ensures Keeps(a, PutUser(b, a, user).0) && Backed(PutUser(b, a, user).0)
  {
    var u := Keyed(user);
    var r := WrittenRecord(b, RecordAt(a, u), user);
    RecordKeeps(a, u, r);
    if MayClaim(a, user) && Truthy(user.profile.email) {
      ClaimKeeps(a.(records := a.records[u := r]), AddressOf(user), user.profile.publicKey);
    }
  }

  lemma FieldKeeps(b: Backend, a: AuthState, u: Key, w: EncryptedWallet, hash: string)
    requires Backed(a)
    ensures Keeps(a, PutWalletSlot(a, u, w)) && Backed(PutWalletSlot(a, u, w))
    ensures Keeps(a, SetSessionPointer(b, a, u, hash)) && Backed(SetSessionPointer(b, a, u, hash))
  {
    var r := RecordAt(a, u);
    RecordKeeps(a, u, r.(slots := r.slots[w.At() := w]));
    RecordKeeps(a, u, r.(pointer := Some(hash)));
  }

  lemma StepKeeps(b: Backend, a: AuthState, c: Call)
    requires Backed(a)
    ensures Keeps(a, Step(b, a, c).0) && Backed(Step(b, a, c).0)
  {
    match c.op
    case DoPutUser(user) => PutUserKeeps(b, a, user);
    case DoPutWalletSlot(u, w) => FieldKeeps(b, a, u, w, "");
    case DoSetSessionPointer(u, hash) => FieldKeeps(b, a, u, EncryptedWallet(Solana, Funds, "", ""), hash);
    case _ => OtherCallKeeps(b, a, c);
  }

  lemma OtherCallFrame(b: Backend, a: AuthState, c: Call)
    requires !c.op.DoPutUser? && !c.op.DoPutWalletSlot? && !c.op.DoSetSessionPointer?
    ensures Step(b, a, c).0.records == a.records && Step(b, a, c).0.emails == a.emails
  {
    match c.op
    case DoPutChallenge(k, ttl) => assert Step(b, a, c).0 == PutChallenge(b, a, k, ttl, c.at);
    case DoTakeChallenge(k) => assert Step(b, a, c).0 == TakeChallenge(a, k, c.at).0;
    case DoPutSession(k, v, ttl) => assert Step(b, a, c).0 == PutSession(b, a, k, v, ttl, c.at);
    case DoDeleteSession(k) => assert Step(b, a, c).0 == DeleteSession(a, k);
    case DoHitRateLimit(bucket, window, max) =>
      assert Step(b, a, c).0 == HitRateLimit(b, a, bucket, window, max, c.at, c.at).0;
    case DoGetUser(_) =>
    case DoGetPublicKeyByEmail(_, _) =>
    case DoGetSession(_) =>
  }

  lemma OtherCallKeeps(b: Backend, a: AuthState, c: Call)
    requires Backed(a) && !c.op.DoPutUser? && !c.op.DoPutWalletSlot? && !c.op.DoSetSessionPointer?
    ensures Keeps(a, Step(b, a, c).0) && Backed(Step(b, a, c).0)
  {
    OtherCallFrame(b, a, c);
    SameRecordsKeep(a, Step(b, a, c).0);
  }

  lemma SameRecordsKeep(a: AuthState, a': AuthState)
    requires Backed(a) && a'.records == a.records && a'.emails == a.emails
    ensures Keeps(a, a') && Backed(a')
  {
    forall u ensures RecordAt(a', u) == RecordAt(a, u) {
    }
  }

  /**
   * On either backend a claim points to an existing record, and to the same key for ever after,
   * whatever calls are made.
   */
  lemma {:induction false} ClaimsStay(b: Backend, a: AuthState, run: seq<Call>)
    requires Backed(a)
    ensures Keeps(a, AfterRun(b, a, run)) && Backed(AfterRun(b, a, run))
    decreases run
  {
    if run != [] {
      StepKeeps(b, a, run[0]);
      ClaimsStay(b, Step(b, a, run[0]).0, run[1..]);
    }
  }
}
