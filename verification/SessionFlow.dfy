/** Issuing, verifying and revoking sessions as the sequence of store calls each one makes. */
module SessionFlow {
  import opened Wrappers
  import opened Strings
  import opened Expiry
  import opened AuthTypes
  import opened Keys
  import Spec = AuthSpec
  import opened KvAuthStores

  /** What issueSession leaves in the store: the old session gone, the new one stored and pointed to. */
  function Issued(b: Spec.Backend, a: Spec.AuthState, user: UserData, hash: string,
                  fingerprint: Option<string>, ttlSeconds: int, now: int): Spec.AuthState {
    var app, pk := user.profile.appId, user.profile.publicKey;
    var a1 := if Truthy(user.authTokenHash)
              then Spec.DeleteSession(a, SessionKey(app, user.authTokenHash.value)) else a;
    var a2 := Spec.PutSession(b, a1, SessionKey(app, hash), Bound(pk, fingerprint), ttlSeconds, now);
    Spec.SetSessionPointer(b, a2, UserKey(app, pk), hash)
  }

  function Bound(publicKey: string, fingerprint: Option<string>): SessionValue {
    SessionValue(publicKey, if Truthy(fingerprint) then fingerprint else None)
  }

  /** The session exists, names this key and fits the fingerprint, and the record points to it. */
  function Verified(b: Spec.Backend, a: Spec.AuthState, appId: string, hash: string, publicKey: string,
                    presented: Option<string>, now: int): Option<UserData> {
    if publicKey == "" then None
    else
      match Spec.GetSession(a, SessionKey(appId, hash), now)
      case None => None
      case Some(session) =>
        if session.publicKey != publicKey then None
        else if Truthy(session.fingerprint) && presented != session.fingerprint then None
        else
          match Spec.GetUser(b, a, UserKey(appId, publicKey))
          case None => None
          case Some(user) => if user.authTokenHash == Some(hash) then Some(user) else None
  }

  method IssueSession(store: KvAuthStore, user: UserData, tokenHash: string, fingerprint: Option<string>,
                      ttlSeconds: int, now: int)
    returns (issued: UserData)
    requires store.Valid() && store.clock <= now
    requires Free(':', user.profile.appId)
    modifies store`view, store`clock, store.kv
    ensures store.Valid()
    ensures store.view == Issued(Spec.KvBackend, old(store.view), user, tokenHash, fingerprint, ttlSeconds, now)
    ensures issued == user.(authTokenHash := Some(tokenHash))
  {
    if Truthy(user.authTokenHash) {
      store.DeleteSession(user.profile.appId, user.authTokenHash.value);
    }
    var value := if Truthy(fingerprint) then SessionValue(user.profile.publicKey, fingerprint)
                 else SessionValue(user.profile.publicKey, None);
    store.PutSession(user.profile.appId, tokenHash, value, ttlSeconds, now);
    store.SetSessionPointer(user.profile.appId, user.profile.publicKey, tokenHash);
    issued := user.(authTokenHash := Some(tokenHash));
  }

  method VerifySession(store: KvAuthStore, appId: string, tokenHash: string, publicKey: string,
                       presented: Option<string>, now: int)
    returns (r: Result<Option<UserData>, AuthError>)
    requires store.Valid() && store.clock <= now && Free(':', appId)
    modifies store`clock, store.kv`store
    ensures store.Valid() && store.view == old(store.view)
    ensures r == Success(Verified(Spec.KvBackend, store.view, appId, tokenHash, publicKey, presented, now))
  {
    if publicKey == "" { return Success(None); }
    var session := store.GetSession(appId, tokenHash, now);
    if session.None? || session.value.publicKey != publicKey { return Success(None); }
    if Truthy(session.value.fingerprint) && presented != session.value.fingerprint { return Success(None); }
    var user := store.GetUser(appId, publicKey);
    if user.Failure? || user.value.None? { return user; }
    if user.value.value.authTokenHash != Some(tokenHash) { return Success(None); }
    r := user;
  }

  method RevokeSession(store: KvAuthStore, appId: string, tokenHash: string)
    requires store.Valid() && Free(':', appId)
    modifies store`view, store.kv
    ensures store.Valid() && store.view == Spec.DeleteSession(old(store.view), SessionKey(appId, tokenHash))
  {
    store.DeleteSession(appId, tokenHash);
  }

  /** The session issueSession stores, seen later. */
  lemma IssuedSession(b: Spec.Backend, a: Spec.AuthState, user: UserData, hash: string, fingerprint: Option<string>,
                      ttlSeconds: int, now: int, later: int)
    requires ttlSeconds >= 1 && Free('|', user.profile.publicKey)
    ensures var a' := Issued(b, a, user, hash, fingerprint, ttlSeconds, now);
            Spec.GetSession(a', SessionKey(user.profile.appId, hash), later)
            == if later < After(ttlSeconds, now) then Some(Bound(user.profile.publicKey, fingerprint)) else None
  {
    var a' := Issued(b, a, user, hash, fingerprint, ttlSeconds, now);
    var value := Bound(user.profile.publicKey, fingerprint);
    Spec.SessionRoundTrip(value);
    assert a'.sessions[SessionKey(user.profile.appId, hash)] == Timed(value, Some(After(ttlSeconds, now)));
  }

  lemma IssuedState(b: Spec.Backend, a: Spec.AuthState, user: UserData, hash: string, fingerprint: Option<string>,
                    ttlSeconds: int, now: int)
    requires Spec.RecordAt(a, Spec.Keyed(user)).profile.Some?
    ensures var r := Spec.RecordAt(Issued(b, a, user, hash, fingerprint, ttlSeconds, now), Spec.Keyed(user));
            r.pointer == Some(hash) && r.profile.Some?
  {
  }

  /**
   * On either backend: the issued token verifies for its owner exactly until its deadline and
   * exactly under the fingerprint it was bound to; every other token of that record is rejected.
   */
  lemma IssuedTokenVerifies(
      b: Spec.Backend, a: Spec.AuthState, user: UserData, hash: string, fingerprint: Option<string>,
      ttlSeconds: int, now: int, later: int, presented: Option<string>, other: string)
    requires Spec.RecordAt(a, Spec.Keyed(user)).profile.Some? && ttlSeconds >= 1
    requires hash != "" && user.profile.publicKey != "" && Free('|', user.profile.publicKey)
    ensures var a' := Issued(b, a, user, hash, fingerprint, ttlSeconds, now);
            var app, pk := user.profile.appId, user.profile.publicKey;
            && (Verified(b, a', app, hash, pk, presented, later).Some?
                <==> later < After(ttlSeconds, now) && (Truthy(fingerprint) ==> presented == fingerprint))
            && (other != hash ==> Verified(b, a', app, other, pk, presented, later).None?)
  {
    IssuedSession(b, a, user, hash, fingerprint, ttlSeconds, now, later);
    IssuedState(b, a, user, hash, fingerprint, ttlSeconds, now);
    var a' := Issued(b, a, user, hash, fingerprint, ttlSeconds, now);
    PointedVerifies(b, a', user.profile.appId, hash, user.profile.publicKey, presented, later);
    PointedVerifies(b, a', user.profile.appId, other, user.profile.publicKey, presented, later);
  }

  /** Verification spelled out on a record that exists and points somewhere. */
  lemma PointedVerifies(b: Spec.Backend, a: Spec.AuthState, app: string, hash: string, pk: string,
                        presented: Option<string>, now: int)
    requires Spec.RecordAt(a, UserKey(app, pk)).profile.Some? && Truthy(Spec.RecordAt(a, UserKey(app, pk)).pointer)
    requires pk != ""
    ensures Verified(b, a, app, hash, pk, presented, now).Some? <==>
              && Spec.RecordAt(a, UserKey(app, pk)).pointer == Some(hash)
              && Spec.GetSession(a, SessionKey(app, hash), now).Some?
              && var session := Spec.GetSession(a, SessionKey(app, hash), now).value;
                 session.publicKey == pk && (Truthy(session.fingerprint) ==> presented == session.fingerprint)
  {
  }

  /** Revoking a token ends it, whatever the record still points to, and no other session. */
  lemma RevokedTokenRejected(b: Spec.Backend, a: Spec.AuthState, app: string, hash: string, pk: string,
                             presented: Option<string>, now: int, other: string)
    ensures var a' := Spec.DeleteSession(a, SessionKey(app, hash));
            && Verified(b, a', app, hash, pk, presented, now).None?
            && (other != hash ==> Verified(b, a', app, other, pk, presented, now)
                                  == Verified(b, a, app, other, pk, presented, now))
  {
    var a' := Spec.DeleteSession(a, SessionKey(app, hash));
    assert Spec.RecordAt(a', UserKey(app, pk)) == Spec.RecordAt(a, UserKey(app, pk));
  }
}
