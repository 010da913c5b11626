/** The auth store over a key-value adapter, as the sequence of adapter calls it makes. */
module KvAuthStores {
  import opened Wrappers
  import opened Expiry
  import opened AuthTypes
  import opened Keys
  import Spec = AuthSpec
  import opened KvStore
  import opened MemoryAdapters

  /**
   * Assembles a record from its hash, taking the fields in any order. Absence is reported only
   * for a hash without a profile; a field that does not parse fails the read.
   */
  method ParseRecord(h: map<string, Text>) returns (r: Result<Option<UserData>, AuthError>)
    ensures r == Success(None) <==> F_PROFILE !in h || h[F_PROFILE] == Plain("")
    ensures r.Success? && r.value.Some? ==>
              && h[F_PROFILE] == ProfileJson(r.value.value.profile)
              && forall f :: f in h && IsWalletField(f) ==> h[f].WalletJson?
    ensures forall record: Spec.Record :: HashHolds(h, record) && Filed(record.slots) ==>
              r == Success(Spec.GetUser(Spec.KvBackend, Lone(record), LONE))
  {
    if F_PROFILE !in h || h[F_PROFILE] == Plain("") {
      forall record: Spec.Record | HashHolds(h, record) ensures record.profile.None? {
        ProfileFieldHolds(h, record);
      }
      return Success(None);
    }
    if !h[F_PROFILE].ProfileJson? {
      forall record: Spec.Record | HashHolds(h, record) ensures false {
        ProfileFieldHolds(h, record);
      }
      return Failure(ParseFailed);
    }
    var wallets: seq<EncryptedWallet> := [];
    ghost var fields: seq<string> := [];
    var pending := h.Keys;
    while pending != {}
      invariant pending <= h.Keys
      invariant |fields| == |wallets|
      invariant forall i :: 0 <= i < |fields| ==> fields[i] !in pending
      invariant forall i, j :: 0 <= i < j < |fields| ==> fields[i] != fields[j]
      invariant forall i :: 0 <= i < |wallets| ==>
                  fields[i] in h && IsWalletField(fields[i]) && h[fields[i]] == WalletJson(wallets[i])
      invariant forall f :: f in h && IsWalletField(f) && f !in pending ==> f in fields && h[f].WalletJson?
    {
      var f :| f in pending;
      pending := pending - {f};
      if IsWalletField(f) {
        if !h[f].WalletJson? {
          forall record: Spec.Record | HashHolds(h, record) ensures false {
            WalletFieldHolds(h, record, f);
          }
          return Failure(ParseFailed);
        }
        wallets, fields := wallets + [h[f].wallet], fields + [f];
      }
    }
    r := Success(Some(UserData(h[F_PROFILE].profile, SortWalletsBySlot(wallets), TokenOf(h))));
    forall record: Spec.Record | HashHolds(h, record) && Filed(record.slots)
      ensures r == Success(Spec.GetUser(Spec.KvBackend, Lone(record), LONE))
    {
      ListingOfRecord(h, record, fields, wallets);
      ProfileFieldHolds(h, record);
      assert FieldOf(h, F_TOKEN) == RecordField(record, F_TOKEN);
    }
  }

  const LONE: Key := UserKey("", "")

  /** The store holding one record, under a fixed key. */
  function Lone(record: Spec.Record): Spec.AuthState {
    Spec.EMPTY.(records := map[LONE := record])
  }

  class KvAuthStore {
    const kv: MemoryAdapter
    const prefixes: KeyPrefixes
    /** The abstract state the keyspace stands for, and the latest clock reading. */
    ghost var view: Spec.AuthState
    ghost var clock: int

    ghost predicate Valid()
      reads this, kv
    {
      && PrefixFree(prefixes)
      && Spec.AllFiled(view)
      && ItemsAgree(kv.store, prefixes, view, clock)
      && HashesAgree(kv.hstore, prefixes, view)
    }

    /** Wraps an adapter whose keyspace already stands for `view` (an empty one for the empty view). */
    constructor (kv: MemoryAdapter, prefixes: KeyPrefixes, ghost view: Spec.AuthState, ghost clock: int)
      requires PrefixFree(prefixes) && Spec.AllFiled(view)
      requires ItemsAgree(kv.store, prefixes, view, clock) && HashesAgree(kv.hstore, prefixes, view)
      ensures Valid() && this.kv == kv && this.prefixes == prefixes && this.view == view && this.clock == clock
    {
      this.kv, this.prefixes := kv, prefixes;
      this.view, this.clock := view, clock;
    }

    method GetUser(appId: string, publicKey: string) returns (r: Result<Option<UserData>, AuthError>)
      requires Valid() && KeyOk(UserKey(appId, publicKey))
      ensures r == Success(Spec.GetUser(Spec.KvBackend, view, UserKey(appId, publicKey)))
    {
      var h := kv.HGetAll(AppScoped(prefixes.pubKey, appId, publicKey));
      r := ParseRecord(h);
      HashOfRecord(kv.hstore, prefixes, view, UserKey(appId, publicKey));
      assert HashHolds(h, Spec.RecordAt(view, UserKey(appId, publicKey)));
    }

    /** Profile, pointer, wallets, then the email claim: the claim comes last and may be lost. */
    method PutUser(user: UserData) returns (r: Result<(), AuthError>)
      requires Valid() && KeyOk(Spec.Keyed(user))
      modifies this`view, kv
      ensures Valid() && clock == old(clock)
      ensures view == Spec.PutUser(Spec.KvBackend, old(view), user).0
      ensures r == if Spec.PutUser(Spec.KvBackend, old(view), user).1 then Success(()) else Failure(EmailTaken)
      ensures kv.store == old(kv.store)
    {
      var key := AppScoped(prefixes.pubKey, user.profile.appId, user.profile.publicKey);
      ghost var u := Spec.Keyed(user);
      WriteHead(key, user);
      WriteWallets(key, u, user.wallets);
      Spec.HeadThenWallets(old(view), user);
      if Truthy(user.profile.email) {
        r := ClaimEmail(user);
      } else {
        r := Success(());
      }
    }

    /** The profile, and the session field if the record brings one. */
    method WriteHead(key: string, user: UserData)
      requires Valid() && KeyOk(Spec.Keyed(user)) && key == Build(prefixes, Spec.Keyed(user))
      modifies this`view, kv`hstore
      ensures Valid()
      ensures view == old(view).(records := old(view).records[Spec.Keyed(user) :=
                Spec.HeadRecord(Spec.RecordAt(old(view), Spec.Keyed(user)), user)])
    {
      ghost var u := Spec.Keyed(user);
      WriteProfile(kv.hstore, prefixes, view, u, user.profile);
      view := view.(records := view.records[u := Spec.RecordAt(view, u).(profile := Some(user.profile))]);
      kv.HSet(key, F_PROFILE, ProfileJson(user.profile));
      if Truthy(user.authTokenHash) {
        WritePointer(kv.hstore, prefixes, view, u, user.authTokenHash.value);
        view := Spec.SetSessionPointer(Spec.KvBackend, view, u, user.authTokenHash.value);
        kv.HSet(key, F_TOKEN, Plain(user.authTokenHash.value));
      }
    }

    method WriteWallets(key: string, ghost u: Key, wallets: seq<EncryptedWallet>)
      requires Valid() && u.UserKey? && KeyOk(u) && key == Build(prefixes, u)
      modifies this`view, kv`hstore
      ensures Valid() && view == Spec.PutWalletSlots(old(view), u, wallets)
    {
      var i := 0;
      while i < |wallets|
        invariant 0 <= i <= |wallets|
        invariant Valid() && view == Spec.PutWalletSlots(old(view), u, wallets[..i])
      {
        var w := wallets[i];
        WriteSlot(kv.hstore, prefixes, view, u, w);
        view := Spec.PutWalletSlot(view, u, w);
        kv.HSet(key, WalletField(w.At()), WalletJson(w));
        i := i + 1;
        assert wallets[..i][..i - 1] == wallets[..i - 1];
      }
      assert wallets[..i] == wallets;
    }

    method ClaimEmail(user: UserData) returns (r: Result<(), AuthError>)
      requires Valid() && Truthy(user.profile.email)
      modifies this`view, kv`hstore
      ensures Valid()
      ensures r == if Spec.MayClaim(old(view), user) then Success(()) else Failure(EmailTaken)
      ensures view == if Spec.MayClaim(old(view), user)
                      then old(view).(emails := old(view).emails[Spec.AddressOf(user) := user.profile.publicKey])
                      else old(view)
    {
      ghost var at := Spec.AddressOf(user);
      var emailKey := prefixes.email + NormalizeEmail(user.profile.email.value);
      ghost var h0 := kv.hstore;
      ghost var k := EmailKey(at.email);
      assert Field(h0, Build(prefixes, k), at.appId) == ExpectedField(view, k, at.appId);
      var created := kv.HSetNx(emailKey, user.profile.appId, Plain(user.profile.publicKey));
      if created {
        WriteEmail(h0, kv.hstore, prefixes, view, at, user.profile.publicKey);
        view := view.(emails := view.emails[at := user.profile.publicKey]);
      } else {
        SameHashes(h0, kv.hstore, prefixes, view, emailKey);
        assert Field(kv.hstore, Build(prefixes, k), at.appId) == ExpectedField(view, k, at.appId);
        var holder := kv.HGet(emailKey, user.profile.appId);
        if holder != Some(Plain(user.profile.publicKey)) { return Failure(EmailTaken); }
        assert view.emails[at := user.profile.publicKey] == view.emails;
      }
      r := Success(());
    }

    method PutWalletSlot(appId: string, publicKey: string, wallet: EncryptedWallet)
      requires Valid() && KeyOk(UserKey(appId, publicKey))
      modifies this`view, kv`hstore
      ensures Valid()
      ensures view == Spec.PutWalletSlot(old(view), UserKey(appId, publicKey), wallet)
    {
      WriteSlot(kv.hstore, prefixes, view, UserKey(appId, publicKey), wallet);
      view := Spec.PutWalletSlot(view, UserKey(appId, publicKey), wallet);
      kv.HSet(AppScoped(prefixes.pubKey, appId, publicKey), WalletField(wallet.At()), WalletJson(wallet));
    }

    method SetSessionPointer(appId: string, publicKey: string, tokenHash: string)
      requires Valid() && KeyOk(UserKey(appId, publicKey))
      modifies this`view, kv`hstore
      ensures Valid()
      ensures view == Spec.SetSessionPointer(Spec.KvBackend, old(view), UserKey(appId, publicKey), tokenHash)
    {
      WritePointer(kv.hstore, prefixes, view, UserKey(appId, publicKey), tokenHash);
      view := Spec.SetSessionPointer(Spec.KvBackend, view, UserKey(appId, publicKey), tokenHash);
      kv.HSet(AppScoped(prefixes.pubKey, appId, publicKey), F_TOKEN, Plain(tokenHash));
    }

    method GetPublicKeyByEmail(appId: string, email: string) returns (publicKey: Option<string>)
      requires Valid()
      ensures publicKey == Spec.GetPublicKeyByEmail(view, appId, email)
    {
      var value := kv.HGet(prefixes.email + NormalizeEmail(email), appId);
      ghost var k := EmailKey(NormalizeEmail(email));
      assert Field(kv.hstore, Build(prefixes, k), appId) == ExpectedField(view, k, appId);
      publicKey := if value.None? then None else Some(AsString(value.value));
    }

    method PutChallenge(appId: string, publicKey: string, challenge: string, ttlSeconds: int, now: int)
      requires Valid() && KeyOk(ChallengeKey(appId, publicKey, challenge)) && clock <= now
      modifies this`view, this`clock, kv`store
      ensures Valid() && clock == now
      ensures view == Spec.PutChallenge(Spec.KvBackend, old(view), ChallengeKey(appId, publicKey, challenge),
                                        ttlSeconds, now)
    {
      ghost var k := ChallengeKey(appId, publicKey, challenge);
      ghost var before := Aged(now);
      WriteChallenge(before, prefixes, view, k, ttlSeconds, now);
      kv.Write(AppScoped(prefixes.challenge, appId, publicKey) + ":" + challenge, Plain("1"), Some(ttlSeconds), now);
      view := Spec.PutChallenge(Spec.KvBackend, view, k, ttlSeconds, now);
    }

    method TakeChallenge(appId: string, publicKey: string, presented: string, now: int) returns (taken: bool)
      requires Valid() && KeyOk(ChallengeKey(appId, publicKey, presented)) && clock <= now
      modifies this`view, this`clock, kv`store
      ensures Valid() && clock == now
      ensures (view, taken) == Spec.TakeChallenge(old(view), ChallengeKey(appId, publicKey, presented), now)
    {
      ghost var k := ChallengeKey(appId, publicKey, presented);
      ghost var before := Aged(now);
      assert Seen(k, Live(before, Build(prefixes, k), now)) == Expected(view, k, now);
      var value := kv.Take(AppScoped(prefixes.challenge, appId, publicKey) + ":" + presented, now);
      taken := value.Some?;
      ghost var a := view;
      view := Spec.TakeChallenge(view, k, now).0;
      ItemsUpdate(before, kv.store, prefixes, a, view, k, now);
    }

    method PutSession(appId: string, tokenHash: string, value: SessionValue, ttlSeconds: int, now: int)
      requires Valid() && KeyOk(SessionKey(appId, tokenHash)) && clock <= now
      modifies this`view, this`clock, kv`store
      ensures Valid() && clock == now
      ensures view == Spec.PutSession(Spec.KvBackend, old(view), SessionKey(appId, tokenHash), value, ttlSeconds, now)
    {
      ghost var k := SessionKey(appId, tokenHash);
      ghost var before := Aged(now);
      WriteSession(before, prefixes, view, k, value, ttlSeconds, now);
      kv.Write(AppScoped(prefixes.session, appId, tokenHash), Plain(Spec.EncodeSession(value)), Some(ttlSeconds), now);
      view := Spec.PutSession(Spec.KvBackend, view, k, value, ttlSeconds, now);
    }

    method GetSession(appId: string, tokenHash: string, now: int) returns (value: Option<SessionValue>)
      requires Valid() && KeyOk(SessionKey(appId, tokenHash)) && clock <= now
      modifies this`clock, kv`store
      ensures Valid() && clock == now && view == old(view)
      ensures value == Spec.GetSession(view, SessionKey(appId, tokenHash), now)
    {
      ghost var k := SessionKey(appId, tokenHash);
      ghost var before := Aged(now);
      assert Seen(k, Live(before, Build(prefixes, k), now)) == Expected(view, k, now);
      var raw := kv.Read(AppScoped(prefixes.session, appId, tokenHash), now);
      value := if raw.None? then None else Some(Spec.DecodeSession(AsString(raw.value)));
      ItemsUpdate(before, kv.store, prefixes, view, view, k, now);
    }

    method DeleteSession(appId: string, tokenHash: string)
      requires Valid() && KeyOk(SessionKey(appId, tokenHash))
      modifies this`view, kv
      ensures Valid() && clock == old(clock)
      ensures view == Spec.DeleteSession(old(view), SessionKey(appId, tokenHash))
    {
      ghost var k := SessionKey(appId, tokenHash);
      ghost var s := kv.store;
      DeletedElsewhere(kv.hstore, prefixes, view, k);
      kv.Delete(AppScoped(prefixes.session, appId, tokenHash));
      assert (kv.store, Done) == Apply(s, Del(Build(prefixes, k)), clock);
      ghost var a := view;
      view := Spec.DeleteSession(view, k);
      ItemsUpdate(s, kv.store, prefixes, a, view, k, clock);
    }

    /** Increment, then a separate expiry call on the first hit and on the first hit past the cap. */
    method HitRateLimit(bucket: RateLimitBucket, windowSeconds: int, maxAttempts: int, read: int, stamp: int)
      returns (r: RateLimitResult)
      requires Valid() && BucketOk(bucket) && clock <= read <= stamp
      modifies this`view, this`clock, kv`store
      ensures Valid() && clock == stamp
      ensures (view, r) == Spec.HitRateLimit(Spec.KvBackend, old(view), bucket, windowSeconds, maxAttempts, read, stamp)
    {
      var key := prefixes.rateLimit + Scope(bucket) + ":" + bucket.identifier;
      ghost var c := Live(view.limits, bucket, read);
      var count := CountHit(bucket, key, read);
      if count == 1 || count == maxAttempts + 1 {
        StampWindow(bucket, key, windowSeconds, stamp);
      } else {
        ghost var _ := Aged(stamp);
      }
      HitInTwo(old(view).limits, bucket, c, windowSeconds, maxAttempts, read, stamp);
      r := RateLimitResult(count <= maxAttempts, if maxAttempts - count > 0 then maxAttempts - count else 0);
    }

    method CountHit(bucket: RateLimitBucket, key: string, read: int) returns (count: nat)
      requires Valid() && BucketOk(bucket) && clock <= read && key == Build(prefixes, LimitKey(bucket))
      modifies this`view, this`clock, kv`store
      ensures Valid() && clock == read
      ensures view == old(view).(limits := old(view).limits[bucket := Counted(Live(old(view).limits, bucket, read))])
      ensures count == view.limits[bucket].value
    {
      ghost var before := Aged(read);
      CountItem(before, prefixes, view, bucket, read);
      count := kv.Increment(key, read);
      view := view.(limits := view.limits[bucket := Counted(Live(view.limits, bucket, read))]);
    }

    method StampWindow(bucket: RateLimitBucket, key: string, windowSeconds: int, stamp: int)
      requires Valid() && BucketOk(bucket) && clock <= stamp && key == Build(prefixes, LimitKey(bucket))
      requires bucket in view.limits
      modifies this`view, this`clock, kv`store
      ensures Valid() && clock == stamp
      ensures view == old(view).(limits := old(view).limits[
                        bucket := Restamped(old(view).limits[bucket], windowSeconds, stamp)])
    {
      ghost var k := LimitKey(bucket);
      ghost var before := Aged(stamp);
      assert Seen(k, Live(before, key, stamp)) == Expected(view, k, stamp);
      kv.ExpireIn(key, windowSeconds, stamp);
      ghost var a := view;
      view := view.(limits := view.limits[bucket := Restamped(view.limits[bucket], windowSeconds, stamp)]);
      ItemsUpdate(before, kv.store, prefixes, a, view, k, stamp);
    }

    /** Reclaims dead entries without changing what the store stands for. */
    method SweepExpired(limit: Option<int>, now: int) returns (removed: nat)
      requires Valid() && clock <= now
      modifies this`clock, kv`store
      ensures Valid() && clock == now && view == old(view)
      ensures Swept(old(kv.store), kv.store, now) && removed == |old(kv.store)| - |kv.store|
      ensures limit.Some? ==> removed <= if limit.value < 0 then 0 else limit.value
    {
      ghost var before := Aged(now);
      removed := kv.SweepExpired(limit, now);
      forall k: Key | TimedKey(k) && KeyOk(k)
        ensures Seen(k, Live(kv.store, Build(prefixes, k), now)) == Expected(view, k, now)
      {
        assert Seen(k, Live(before, Build(prefixes, k), now)) == Expected(view, k, now);
      }
    }

    /** Moves the ghost clock; the relation survives the passing of time. */
    ghost method Aged(now: int) returns (s: Store)
      requires Valid() && clock <= now
      modifies this`clock
      ensures Valid() && clock == now && s == kv.store
    {
      ItemsAgreeLater(kv.store, prefixes, view, clock, now);
      clock := now;
      s := kv.store;
    }
  }

  /** The two calls of a hit leave the abstract hit. */
  lemma HitInTwo(limits: map<RateLimitBucket, Timed<nat>>, bucket: RateLimitBucket, c: Option<Timed<nat>>,
                 windowSeconds: int, maxAttempts: int, read: int, stamp: int)
    ensures var hit := Counted(c);
            var stamped := if hit.value == 1 || hit.value == maxAttempts + 1
                           then Restamped(hit, windowSeconds, stamp) else hit;
            && stamped == Spec.HitCounter(Spec.KvBackend, c, windowSeconds, maxAttempts, read, stamp)
            && limits[bucket := hit][bucket := stamped] == limits[bucket := stamped]
  {
  }

  ghost function Restamped(hit: Timed<nat>, windowSeconds: int, stamp: int): Timed<nat> {
    if Expired(hit, stamp) then hit else hit.(expiresAt := Some(After(windowSeconds, stamp)))
  }
}
