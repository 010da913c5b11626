/**
 * The auth store over SQL tables: one engine, with and without `RETURNING`. Each call here runs on
 * its own; `SqliteStore` runs calls inside one another's transactions.
 */
module SqlAuthStores {
  import opened Wrappers
  import opened Expiry
  import opened AuthTypes
  import opened Keys
  import Spec = AuthSpec
  import opened MemoryAdapters
  import opened KvStore
  import opened SqlTables

  /** `DELETE ... WHERE expires_at <= now` bounded to a batch of at least one row, in any row order. */
  method DeleteExpiredLimited<K(==), V(==)>(m: map<K, Timed<V>>, limit: int, now: int)
    returns (kept: map<K, Timed<V>>, removed: nat)
    ensures Swept(m, kept, now)
    ensures removed == |m| - |kept| && removed <= if limit < 1 then 1 else limit
    ensures removed < limit ==> forall k :: k in kept ==> !Expired(kept[k], now)
    ensures Dated(m) ==> Dated(kept)
  {
    var batch := if limit < 1 then 1 else limit;
    kept, removed := m, 0;
    var pending := m.Keys;
    while pending != {} && removed < batch
      invariant pending <= kept.Keys
      invariant Swept(m, kept, now) && removed == |m| - |kept| && removed <= batch
      invariant forall k :: k in kept && k !in pending ==> !Expired(kept[k], now)
      decreases pending
    {
      var k :| k in pending;
      pending := pending - {k};
      if Expired(kept[k], now) {
        var fewer := kept - {k};
        assert fewer.Keys == kept.Keys - {k};
        assert |fewer| == |fewer.Keys| && |kept| == |kept.Keys|;
        kept, removed := fewer, removed + 1;
      }
    }
  }

  class SqlAuthStore {
    /** The dialect's one flag: PostgreSQL and SQLite have `RETURNING`, MySQL does not. */
    const supportsReturning: bool
    var tables: Tables
    ghost var view: Spec.AuthState
    ghost var clock: int

    ghost predicate Valid()
      reads this
    {
      TablesAgree(tables, view, clock) && Spec.AllFiled(view)
    }

    constructor (supportsReturning: bool)
      ensures Valid() && tables == NO_TABLES && view == Spec.EMPTY
      ensures this.supportsReturning == supportsReturning
    {
      this.supportsReturning := supportsReturning;
      tables, view, clock := NO_TABLES, Spec.EMPTY, 0;
    }

    ghost method Age(now: int)
      requires Valid() && clock <= now
      modifies this`clock
      ensures Valid() && clock == now
    {
      TablesAgreeLater(tables, view, clock, now);
      clock := now;
    }

    /** A profile row that does not parse fails the read; only a missing row is an absent user. */
    method GetUser(appId: string, publicKey: string) returns (r: Result<Option<UserData>, AuthError>)
      requires Valid()
      ensures r == Success(Spec.GetUser(Spec.SqlBackend, view, UserKey(appId, publicKey)))
    {
      var u := UserKey(appId, publicKey);
      assert RecordAgrees(tables, Spec.RecordAt(view, u), u);
      if u !in tables.users { return Success(None); }
      var row := tables.users[u];
      if !row.data.ProfileJson? { return Failure(ParseFailed); }
      ghost var record := Spec.RecordAt(view, u);
      var wallets: seq<EncryptedWallet> := [];
      var pending := set id | id in tables.userWallets && id.user == u;
      forall s | s in record.slots ensures WalletId(u, s) in pending {
        assert WalletCell(tables, u, s) == WalletAt(record.slots, s);
      }
      while pending != {}
        invariant forall id :: id in pending ==> id in tables.userWallets && id.user == u
        invariant forall w :: w in wallets ==>
                    w.At() in record.slots && record.slots[w.At()] == w && WalletId(u, w.At()) !in pending
        invariant DistinctSlots(wallets)
        invariant forall s :: s in record.slots && WalletId(u, s) !in pending ==> record.slots[s] in wallets
        decreases pending
      {
        var id :| id in pending;
        pending := pending - {id};
        assert WalletCell(tables, u, id.slot) == WalletAt(record.slots, id.slot);
        if !tables.userWallets[id].WalletJson? { return Failure(ParseFailed); }
        wallets := wallets + [tables.userWallets[id].wallet];
      }
      forall v ensures v in wallets <==> v.At() in record.slots && record.slots[v.At()] == v {
        if v.At() in record.slots && record.slots[v.At()] == v {
          assert record.slots[v.At()] in wallets;
        }
      }
      SortedListing(wallets, record.slots);
      r := Success(Some(UserData(row.data.profile, SortWalletsBySlot(wallets), row.authTokenHash)));
    }

    /** Whether `rival` takes the address between this transaction's read of the index and its insert. */
    ghost predicate Raced(user: UserData, rival: Option<UserData>)
      reads this
    {
      rival.Some? && Truthy(user.profile.email) && Spec.AddressOf(user) !in view.emails
    }

    /**
     * One transaction: the row, the wallets and the claim land together or not at all. `rival` is
     * the registration, if any, of the same address that a concurrent transaction commits just
     * before the insert: the insert then fails, and what stays is the rival's registration.
     */
    method PutUser(user: UserData, rival: Option<UserData>) returns (r: Result<(), AuthError>)
      requires Valid()
      requires rival.Some? && Truthy(user.profile.email) ==>
                 Truthy(rival.value.profile.email) && Spec.AddressOf(rival.value) == Spec.AddressOf(user)
      modifies this`tables, this`view
      ensures Valid()
      ensures !old(Raced(user, rival)) ==>
                && view == Spec.PutUser(Spec.SqlBackend, old(view), user).0
                && r == (if Spec.PutUser(Spec.SqlBackend, old(view), user).1 then Success(()) else Failure(EmailTaken))
                && (r.Failure? ==> tables == old(tables))
      ensures old(Raced(user, rival)) ==>
                && r == Failure(EmailTaken)
                && view == Spec.PutUser(Spec.SqlBackend, old(view), rival.value).0
      decreases if rival.Some? then 1 else 0
    {
      var saved := tables;
      var u := UserKey(user.profile.appId, user.profile.publicKey);
      ghost var record := Spec.WrittenRecord(Spec.SqlBackend, Spec.RecordAt(view, u), user);
      UpsertRecord(u, user, record);
      Spec.FileAllFiled(Spec.RecordAt(view, u).slots, user.wallets);
      view := view.(records := view.records[u := record]);
      if Truthy(user.profile.email) {
        var at := Spec.AddressOf(user);
        if at !in tables.emailIndex {
          if rival.Some? {
            tables, view := saved, old(view);
            var _ := PutUser(rival.value, None);
            return Failure(EmailTaken);
          }
          Claim(at, user.profile.publicKey);
        } else if tables.emailIndex[at] != user.profile.publicKey {
          tables, view := saved, old(view);
          return Failure(EmailTaken);
        } else {
          assert view.emails[at := user.profile.publicKey] == view.emails;
        }
      }
      r := Success(());
    }

    /** One row of the email index. */
    method Claim(at: Spec.Address, publicKey: string)
      requires Valid()
      modifies this`tables, this`view
      ensures Valid()
      ensures tables == old(tables).(emailIndex := old(tables).emailIndex[at := publicKey])
      ensures view == old(view).(emails := old(view).emails[at := publicKey])
    {
      ghost var t, a := tables, view;
      tables := tables.(emailIndex := tables.emailIndex[at := publicKey]);
      view := view.(emails := view.emails[at := publicKey]);
      RowsUpdate(t, tables, a, view, clock);
    }

    method UpsertRecord(u: Key, user: UserData, ghost record: Spec.Record)
      requires Valid() && u == Spec.Keyed(user)
      requires record == Spec.WrittenRecord(Spec.SqlBackend, Spec.RecordAt(view, u), user)
      modifies this`tables
      ensures tables == old(tables).(users := tables.users, userWallets := tables.userWallets)
      ensures TablesAgree(tables, view.(records := view.records[u := record]), clock)
    {
      ghost var slots := Spec.RecordAt(view, u).slots;
      assert RecordAgrees(tables, Spec.RecordAt(view, u), u);
      tables := tables.(users := tables.users[u := UserRow(ProfileJson(user.profile), user.authTokenHash)]);
      var i := 0;
      while i < |user.wallets|
        invariant 0 <= i <= |user.wallets|
        invariant tables == old(tables).(users := tables.users, userWallets := tables.userWallets)
        invariant tables.users == old(tables).users[u := UserRow(ProfileJson(user.profile), user.authTokenHash)]
        invariant forall v, s :: v != u ==> WalletCell(tables, v, s) == WalletCell(old(tables), v, s)
        invariant forall s: Slot :: WalletCell(tables, u, s) == WalletAt(Spec.FileAll(slots, user.wallets[..i]), s)
      {
        var w := user.wallets[i];
        assert user.wallets[..i + 1][..i] == user.wallets[..i];
        ghost var before := tables;
        tables := tables.(userWallets := tables.userWallets[WalletId(u, w.At()) := WalletJson(w)]);
        i := i + 1;
        assert Spec.FileAll(slots, user.wallets[..i]) == Spec.FileAll(slots, user.wallets[..i - 1])[w.At() := w];
        forall s: Slot ensures WalletCell(tables, u, s) == WalletAt(Spec.FileAll(slots, user.wallets[..i]), s) {
          assert WalletCell(before, u, s) == WalletAt(Spec.FileAll(slots, user.wallets[..i - 1]), s);
        }
        forall v, s | v != u ensures WalletCell(tables, v, s) == WalletCell(old(tables), v, s) {
          assert WalletCell(before, v, s) == WalletCell(old(tables), v, s);
        }
      }
      assert user.wallets[..i] == user.wallets;
      UserUpdate(old(tables), tables, view, u, record, clock);
    }

    method PutWalletSlot(appId: string, publicKey: string, wallet: EncryptedWallet)
      requires Valid()
      modifies this`tables, this`view
      ensures Valid()
      ensures view == Spec.PutWalletSlot(old(view), UserKey(appId, publicKey), wallet)
    {
      var u := UserKey(appId, publicKey);
      ghost var r := Spec.RecordAt(view, u);
      assert RecordAgrees(tables, r, u);
      tables := tables.(userWallets := tables.userWallets[WalletId(u, wallet.At()) := WalletJson(wallet)]);
      ghost var r' := r.(slots := r.slots[wallet.At() := wallet]);
      forall s: Slot ensures WalletCell(tables, u, s) == WalletAt(r'.slots, s) {
        assert WalletCell(old(tables), u, s) == WalletAt(r.slots, s);
      }
      UserUpdate(old(tables), tables, view, u, r', clock);
      view := Spec.PutWalletSlot(view, u, wallet);
    }

    /** An UPDATE: no row, no effect. */
    method SetSessionPointer(appId: string, publicKey: string, tokenHash: string)
      requires Valid()
      modifies this`tables, this`view
      ensures Valid()
      ensures view == Spec.SetSessionPointer(Spec.SqlBackend, old(view), UserKey(appId, publicKey), tokenHash)
    {
      var u := UserKey(appId, publicKey);
      ghost var r := Spec.RecordAt(view, u);
      assert RecordAgrees(tables, r, u);
      if u in tables.users {
        tables := tables.(users := tables.users[u := tables.users[u].(authTokenHash := Some(tokenHash))]);
        forall s: Slot ensures WalletCell(tables, u, s) == WalletAt(r.slots, s) {
          assert WalletCell(old(tables), u, s) == WalletAt(r.slots, s);
        }
        UserUpdate(old(tables), tables, view, u, r.(pointer := Some(tokenHash)), clock);
      }
      view := Spec.SetSessionPointer(Spec.SqlBackend, view, u, tokenHash);
    }

    method GetPublicKeyByEmail(appId: string, email: string) returns (publicKey: Option<string>)
      requires Valid()
      ensures publicKey == Spec.GetPublicKeyByEmail(view, appId, email)
    {
      var at := Spec.Address(NormalizeEmail(email), appId);
      publicKey := if at in tables.emailIndex then Some(tables.emailIndex[at]) else None;
    }

    method PutChallenge(appId: string, publicKey: string, challenge: string, ttlSeconds: int, now: int)
      requires Valid() && clock <= now
      modifies this
      ensures Valid() && clock == now
      ensures view == Spec.PutChallenge(Spec.SqlBackend, old(view), ChallengeKey(appId, publicKey, challenge),
                                        ttlSeconds, now)
    {
      Age(now);
      ghost var t, a := tables, view;
      var k := ChallengeKey(appId, publicKey, challenge);
      tables := tables.(challenges := tables.challenges[k := Timed((), Some(After(ttlSeconds, now)))]);
      view := Spec.PutChallenge(Spec.SqlBackend, view, k, ttlSeconds, now);
      RowsUpdate(t, tables, a, view, now);
    }

    /**
     * Both dialect paths take a live challenge exactly once: one `DELETE ... RETURNING`, or a
     * locking select and a delete in one transaction.
     */
    method TakeChallenge(appId: string, publicKey: string, presented: string, now: int) returns (taken: bool)
      requires Valid() && clock <= now
      modifies this
      ensures Valid() && clock == now
      ensures (view, taken) == Spec.TakeChallenge(old(view), ChallengeKey(appId, publicKey, presented), now)
    {
      Age(now);
      ghost var t, a := tables, view;
      var k := ChallengeKey(appId, publicKey, presented);
      assert Live(tables.challenges, k, now) == Live(view.challenges, k, now);
      if supportsReturning {
        var rows := set id | id in tables.challenges && id == k && !Expired(tables.challenges[id], now);
        assert k in rows <==> Live(tables.challenges, k, now).Some?;
        tables := tables.(challenges := tables.challenges - rows);
        taken := |rows| > 0;
        assert taken <==> k in rows by {
          if rows != {} { var id :| id in rows; }
        }
        if taken { assert rows == {k}; } else { assert tables.challenges == old(tables).challenges; }
      } else {
        taken := Live(tables.challenges, k, now).Some?;
        if taken {
          tables := tables.(challenges := tables.challenges - {k});
        }
      }
      view := Spec.TakeChallenge(view, k, now).0;
      RowsUpdate(t, tables, a, view, now);
    }

    method PutSession(appId: string, tokenHash: string, value: SessionValue, ttlSeconds: int, now: int)
      requires Valid() && clock <= now
      modifies this
      ensures Valid() && clock == now
      ensures view == Spec.PutSession(Spec.SqlBackend, old(view), SessionKey(appId, tokenHash), value, ttlSeconds, now)
    {
      Age(now);
      ghost var t, a := tables, view;
      var k := SessionKey(appId, tokenHash);
      tables := tables.(sessions := tables.sessions[k := Timed(value, Some(After(ttlSeconds, now)))]);
      view := Spec.PutSession(Spec.SqlBackend, view, k, value, ttlSeconds, now);
      RowsUpdate(t, tables, a, view, now);
    }

    method GetSession(appId: string, tokenHash: string, now: int) returns (value: Option<SessionValue>)
      requires Valid() && clock <= now
      modifies this`clock
      ensures Valid() && clock == now
      ensures value == Spec.GetSession(view, SessionKey(appId, tokenHash), now)
    {
      Age(now);
      var k := SessionKey(appId, tokenHash);
      assert Live(tables.sessions, k, now) == Live(view.sessions, k, now);
      if k !in tables.sessions || tables.sessions[k].expiresAt.value <= now { return None; }
      value := Some(tables.sessions[k].value);
    }

    method DeleteSession(appId: string, tokenHash: string)
      requires Valid()
      modifies this`tables, this`view
      ensures Valid()
      ensures view == Spec.DeleteSession(old(view), SessionKey(appId, tokenHash))
    {
      ghost var t, a := tables, view;
      var k := SessionKey(appId, tokenHash);
      tables := tables.(sessions := tables.sessions - {k});
      view := Spec.DeleteSession(view, k);
      RowsUpdate(t, tables, a, view, clock);
    }

    /** One upsert. A dead row starts a fresh window, whichever way the engine evaluates its SET list. */
    method HitRateLimit(bucket: RateLimitBucket, windowSeconds: int, maxAttempts: int, now: int)
      returns (r: RateLimitResult)
      requires Valid() && Scoped(bucket) && clock <= now
      modifies this
      ensures Valid() && clock == now
      ensures (view, r) == Spec.HitRateLimit(Spec.SqlBackend, old(view), bucket, windowSeconds, maxAttempts, now, now)
    {
      Age(now);
      var id := IdOf(bucket);
      var renewed := After(windowSeconds, now);
      assert Live(tables.rateLimits, id, now) == Live(view.limits, bucket, now);
      var row := LimitRow(1, renewed);
      if id in tables.rateLimits {
        var present := LimitRow(tables.rateLimits[id].value, tables.rateLimits[id].expiresAt.value);
        HitClausesOrderFree(present, now, renewed);
        row := if supportsReturning then UpdateAtOnce(present, HitClauses(now, renewed))
               else UpdateInOrder(present, HitClauses(now, renewed));
      }
      ghost var counter := Live(view.limits, bucket, now);
      ghost var hit := Spec.HitCounter(Spec.SqlBackend, counter, windowSeconds, maxAttempts, now, now);
      assert Timed(row.count, Some(row.expiresAt)) == hit;
      LimitUpdate(tables, view, bucket, hit, now);
      tables := tables.(rateLimits := tables.rateLimits[id := Timed(row.count, Some(row.expiresAt))]);
      view := view.(limits := view.limits[bucket := hit]);
      var left := maxAttempts - row.count;
      r := RateLimitResult(row.count <= maxAttempts, if left > 0 then left else 0);
    }

    /** A bounded batch of dead rows from each expiring table; what the tables stand for is unchanged. */
    method SweepExpired(limit: int, now: int) returns (removed: nat)
      requires Valid() && clock <= now
      modifies this`tables, this`clock
      ensures Valid() && clock == now
      ensures removed == (|old(tables).sessions| - |tables.sessions|)
                       + (|old(tables).challenges| - |tables.challenges|)
                       + (|old(tables).rateLimits| - |tables.rateLimits|)
      ensures removed <= 3 * if limit < 1 then 1 else limit
      ensures tables == old(tables).(sessions := tables.sessions, challenges := tables.challenges,
                                     rateLimits := tables.rateLimits)
      ensures Swept(old(tables).sessions, tables.sessions, now) && Swept(old(tables).challenges, tables.challenges, now)
      ensures Swept(old(tables).rateLimits, tables.rateLimits, now)
    {
      Age(now);
      var sessions, a := DeleteExpiredLimited(tables.sessions, limit, now);
      var challenges, b := DeleteExpiredLimited(tables.challenges, limit, now);
      var rateLimits, c := DeleteExpiredLimited(tables.rateLimits, limit, now);
      var swept := tables.(sessions := sessions, challenges := challenges, rateLimits := rateLimits);
      SweptTablesAgree(tables, swept, view, now);
      tables := swept;
      removed := a + b + c;
    }
  }
}
