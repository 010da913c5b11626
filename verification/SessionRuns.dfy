/**
 * The session protocol over the store itself: the processes of SessionRace, each store call made on
 * the abstract store of either backend, under its clock and next to anything else the service
 * writes. Every such run is a run of SessionRace, so what holds there holds of the store.
 *
 * A store call is durable once it has answered: as on a key-value backend, and on an SQL driver
 * whose plain queries share no connection with an open transaction. On the one connection of the
 * SQLite driver that is so on quiet runs only; `SqliteClients` has both sides.
 */
module SessionRuns {
  import opened Wrappers
  import opened Strings
  import opened Expiry
  import opened AuthTypes
  import opened Keys
  import opened SessionRace
  import Spec = AuthSpec
  import Flow = SessionFlow

  /**
   * One record and how its sessions are issued: the fingerprint each token is bound to, the one
   * the j-th verification presents, and the digests in use before the run.
   */
  datatype Site = Site(
    backend: Spec.Backend, appId: string, publicKey: string, ttlSeconds: int,
    bound: Hash -> Option<string>, presented: nat -> Option<string>, known: set<Hash>)
  {
    function Owner(): Key {
      UserKey(appId, publicKey)
    }

    function At(h: Hash): Key {
      SessionKey(appId, h)
    }

    predicate Proper() {
      publicKey != "" && Free('|', publicKey) && ttlSeconds >= 1
    }
  }

  /** `putAt` remembers when each login stored its session. */
  datatype System = System(
    store: Spec.AuthState, clock: int, logins: seq<Login>, checks: seq<Check>, putAt: map<Hash, int>)

  datatype Event =
    | Act(action: Action)
    | Tick(ms: nat)
    | Others(store: Spec.AuthState)

  /** A stored session of this record's owner, dead or alive. */
  predicate Ours(site: Site, a: Spec.AuthState, h: Hash) {
    site.At(h) in a.sessions && a.sessions[site.At(h)].value.publicKey == site.publicKey
  }

  predicate LiveOurs(site: Site, a: Spec.AuthState, h: Hash, now: int) {
    Ours(site, a, h) && !Expired(a.sessions[site.At(h)], now)
  }

  /** Writes of the rest of the service: anything but this record's existence, pointer and sessions. */
  ghost predicate Unrelated(site: Site, a: Spec.AuthState, a': Spec.AuthState) {
    && (Spec.RecordAt(a, site.Owner()).profile.Some? <==> Spec.RecordAt(a', site.Owner()).profile.Some?)
    && Spec.RecordAt(a, site.Owner()).pointer == Spec.RecordAt(a', site.Owner()).pointer
    && (forall h: Hash :: Ours(site, a, h) <==> Ours(site, a', h))
    && (forall h: Hash :: Ours(site, a, h) ==> a.sessions[site.At(h)] == a'.sessions[site.At(h)])
  }

  /** What the record's token field reads as. */
  function PointerOf(site: Site, a: Spec.AuthState): Option<string> {
    match Spec.GetUser(site.backend, a, site.Owner())
    case Some(user) => user.authTokenHash
    case None => None
  }

  function MoveLogin(c: System, i: nat, pc: LoginPc): System
    requires i < |c.logins|
  {
    c.(logins := c.logins[i := c.logins[i].(pc := pc)])
  }

  function MoveTo(c: System, j: nat, pc: CheckPc): System
    requires j < |c.checks|
  {
    c.(checks := c.checks[j := c.checks[j].(pc := pc)])
  }

  /** The session read of a verification: it is there, names the owner and fits the fingerprint. */
  predicate SessionFits(site: Site, a: Spec.AuthState, h: Hash, presented: Option<string>, now: int) {
    match Spec.GetSession(a, site.At(h), now)
    case None => false
    case Some(session) =>
      session.publicKey == site.publicKey && !(Truthy(session.fingerprint) && presented != session.fingerprint)
  }

  /** One store call of one process. */
  function Perform(site: Site, c: System, a: Action): System {
    match a
    case Arrive(token) =>
      if token != "" && token !in site.known && forall i :: 0 <= i < |c.logins| ==> c.logins[i].token != token
      then c.(logins := c.logins + [Login(token, None, Arrived)]) else c
    case Snapshot(i) =>
      if i < |c.logins| && c.logins[i].pc == Arrived then
        c.(logins := c.logins[i := c.logins[i].(snapshot := PointerOf(site, c.store), pc := Snapshotted)])
      else c
    case DeletePrevious(i) =>
      if i < |c.logins| && c.logins[i].pc == Snapshotted then
        var previous := c.logins[i].snapshot;
        MoveLogin(c, i, Deleted).(store :=
          if Truthy(previous) then Spec.DeleteSession(c.store, site.At(previous.value)) else c.store)
      else c
    case PutSession(i) =>
      if i < |c.logins| && c.logins[i].pc == Deleted then
        var token := c.logins[i].token;
        MoveLogin(c, i, Stored).(
          store := Spec.PutSession(site.backend, c.store, site.At(token),
                                   Flow.Bound(site.publicKey, site.bound(token)), site.ttlSeconds, c.clock),
          putAt := c.putAt[token := c.clock])
      else c
    case SetPointer(i) =>
      if i < |c.logins| && c.logins[i].pc == Stored then
        MoveLogin(c, i, Done).(store := Spec.SetSessionPointer(site.backend, c.store, site.Owner(), c.logins[i].token))
      else c
    case Ask(hash, logout) => c.(checks := c.checks + [Check(hash, logout, Asked, false, false)])
    case ReadSession(j) =>
      if j < |c.checks| && c.checks[j].pc == Asked then
        var fits := SessionFits(site, c.store, c.checks[j].token, site.presented(j), c.clock);
        MoveTo(c, j, if fits then SawSession else Rejected)
      else c
    case ReadPointer(j) =>
      if j < |c.checks| && c.checks[j].pc == SawSession then
        MoveTo(c, j, if PointerOf(site, c.store) == Some(c.checks[j].token) then Accepted else Rejected)
      else c
    case Revoke(j) =>
      if j < |c.checks| && c.checks[j].pc == Accepted && c.checks[j].logout then
        MoveTo(c, j, Revoked).(store := Spec.DeleteSession(c.store, site.At(c.checks[j].token)))
      else c
    case _ => c
  }

  ghost function Happen(site: Site, c: System, e: Event): System {
    match e
    case Act(a) => Perform(site, c, a)
    case Tick(ms) => c.(clock := c.clock + ms)
    case Others(store) => if Unrelated(site, c.store, store) then c.(store := store) else c
  }

  ghost function RunOf(site: Site, c: System, events: seq<Event>): System {
    if events == [] then c else Happen(site, RunOf(site, c, events[..|events| - 1]), events[|events| - 1])
  }

  // The simulation.

  predicate SameCheck(c: Check, d: Check) {
    c == d.(active := c.active, ranOut := c.ranOut)
  }

  /** `s` is what SessionRace sees of `c`. */
  ghost predicate Shows(site: Site, c: System, s: State) {
    && s.logins == c.logins && s.initial == site.known
    && |s.checks| == |c.checks| && (forall j :: 0 <= j < |c.checks| ==> SameCheck(c.checks[j], s.checks[j]))
    && Spec.RecordAt(c.store, site.Owner()).profile.Some?
    && s.pointer == Spec.RecordAt(c.store, site.Owner()).pointer != Some("")
    && (forall i :: 0 <= i < |c.logins| ==> c.logins[i].token != "" && c.logins[i].snapshot != Some(""))
    && ShowsSessions(site, c.store, c.clock, c.putAt, s.sessions, s.expired)
    && (forall h: Hash :: h in s.revoked <==> LoggedOut(c, h))
  }

  /** `sessions` are the owner's live ones, and whatever is in `expired` has run out. */
  ghost predicate ShowsSessions(site: Site, a: Spec.AuthState, clock: int, putAt: map<Hash, int>,
                                sessions: set<Hash>, expired: set<Hash>) {
    && (forall h: Hash :: h in sessions <==> LiveOurs(site, a, h, clock))
    && (forall h: Hash :: Ours(site, a, h) ==> Kept(site, putAt, a.sessions[site.At(h)], h))
    && (forall h: Hash :: h in expired && h !in site.known ==>
          h in putAt && After(site.ttlSeconds, putAt[h]) <= clock)
  }

  /** A session this run put is bound as its login said and ends one lifetime after it was put. */
  predicate Kept(site: Site, putAt: map<Hash, int>, t: Timed<SessionValue>, h: Hash) {
    || h in site.known
    || (h in putAt
        && t == Timed(Flow.Bound(site.publicKey, site.bound(h)), Some(After(site.ttlSeconds, putAt[h]))))
  }

  /** The logins past their store call, and only they, have stored their token. */
  ghost predicate PutsLogged(c: System) {
    && (forall i, j :: 0 <= i < j < |c.logins| ==> c.logins[i].token != c.logins[j].token)
    && (forall i :: 0 <= i < |c.logins| ==> (c.logins[i].token in c.putAt <==> HasPut(c.logins[i])))
    && (forall h: Hash :: h in c.putAt ==> exists i :: 0 <= i < |c.logins| && c.logins[i].token == h)
  }

  /** When the session that was put under `h` runs out. */
  function Deadline(site: Site, c: System, h: Hash): int
    requires h in c.putAt
  {
    After(site.ttlSeconds, c.putAt[h])
  }

  ghost predicate LoggedOut(c: System, h: Hash) {
    exists j :: 0 <= j < |c.checks| && c.checks[j].pc == Revoked && c.checks[j].token == h
  }

  /** The step of SessionRace that an event amounts to: time takes some sessions, other writes take none. */
  ghost function Image(site: Site, c: System, s: State, e: Event): Action {
    match e
    case Tick(ms) => Expire(set h | h in s.sessions && !LiveOurs(site, c.store, h, c.clock + ms))
    case Act(Arrive(token)) => if token == "" then Expire({}) else Arrive(token)
    case Act(ReadSession(j)) =>
      if j < |c.checks| && c.checks[j].token in s.sessions
         && !SessionFits(site, c.store, c.checks[j].token, site.presented(j), c.clock)
      then Refuse(j) else ReadSession(j)
    case Act(a) => if a.Expire? || a.Refuse? then Expire({}) else a
    case Others(_) => Expire({})
  }

  lemma ObserveShows(site: Site, c: System, s: State)
    requires Shows(site, c, s)
    ensures Shows(site, c, Observe(s))
  {
  }

  lemma LogoutsKept(c: System, c': System)
    requires |c.checks| <= |c'.checks|
    requires forall j :: 0 <= j < |c.checks| && c.checks[j].pc == Revoked ==> c'.checks[j] == c.checks[j]
    ensures forall h: Hash :: LoggedOut(c, h) ==> LoggedOut(c', h)
  {
    forall h: Hash | LoggedOut(c, h) ensures LoggedOut(c', h) {
      var j :| 0 <= j < |c.checks| && c.checks[j].pc == Revoked && c.checks[j].token == h;
      assert c'.checks[j] == c.checks[j];
    }
  }

  lemma ArriveShows(site: Site, c: System, s: State, token: Hash)
    requires Shows(site, c, s) && token != "" && Enabled(s, Arrive(token))
    ensures Shows(site, Perform(site, c, Arrive(token)), Call(s, Arrive(token)))
  {
  }

  lemma SnapshotShows(site: Site, c: System, s: State, i: nat)
    requires Shows(site, c, s) && Enabled(s, Snapshot(i))
    ensures Shows(site, Perform(site, c, Snapshot(i)), Call(s, Snapshot(i)))
  {
  }

  lemma DeletedSession(site: Site, c: System, s: State, h: Hash)
    requires Shows(site, c, s)
    ensures ShowsSessions(site, Spec.DeleteSession(c.store, site.At(h)), c.clock, c.putAt,
                          s.sessions - {h}, s.expired)
  {
    var a, a' := c.store, Spec.DeleteSession(c.store, site.At(h));
    forall g: Hash ensures Ours(site, a', g) <==> g != h && Ours(site, a, g) {
    }
  }

  lemma DeleteShows(site: Site, c: System, s: State, i: nat)
    requires Shows(site, c, s) && Enabled(s, DeletePrevious(i))
    ensures Shows(site, Perform(site, c, DeletePrevious(i)), Call(s, DeletePrevious(i)))
  {
    var previous := c.logins[i].snapshot;
    if previous.Some? { DeletedSession(site, c, s, previous.value); }
  }

  lemma StoredSession(site: Site, c: System, s: State, h: Hash)
    requires site.Proper() && Shows(site, c, s) && h !in c.putAt
    ensures ShowsSessions(
              site,
              Spec.PutSession(site.backend, c.store, site.At(h), Flow.Bound(site.publicKey, site.bound(h)),
                              site.ttlSeconds, c.clock),
              c.clock, c.putAt[h := c.clock], s.sessions + {h}, s.expired)
  {
    var value := Flow.Bound(site.publicKey, site.bound(h));
    Spec.SessionRoundTrip(value);
    var a, a' := c.store, Spec.PutSession(site.backend, c.store, site.At(h), value, site.ttlSeconds, c.clock);
    assert a'.sessions[site.At(h)] == Timed(value, Some(After(site.ttlSeconds, c.clock)));
    forall g: Hash | g != h ensures Ours(site, a', g) == Ours(site, a, g) {
    }
  }

  lemma PutShows(site: Site, c: System, s: State, i: nat)
    requires site.Proper() && Shows(site, c, s) && PutsLogged(c) && Enabled(s, PutSession(i))
    ensures Shows(site, Perform(site, c, PutSession(i)), Call(s, PutSession(i)))
  {
    StoredSession(site, c, s, c.logins[i].token);
  }

  lemma PointShows(site: Site, c: System, s: State, i: nat)
    requires Shows(site, c, s) && Enabled(s, SetPointer(i))
    ensures Shows(site, Perform(site, c, SetPointer(i)), Call(s, SetPointer(i)))
  {
  }

  lemma AskShows(site: Site, c: System, s: State, a: Action)
    requires Shows(site, c, s) && a.Ask?
    ensures Shows(site, Perform(site, c, a), Call(s, a))
  {
    LogoutsKept(c, Perform(site, c, a));
  }

  /** A verification moves on without a write: what it answered is all that needs another look. */
  lemma CheckMoves(site: Site, c: System, s: State, j: nat, pc: CheckPc)
    requires Shows(site, c, s) && j < |c.checks| && c.checks[j].pc != Revoked && pc != Revoked
    ensures Shows(site, MoveTo(c, j, pc), MoveCheck(s, j, pc))
  {
    LogoutsKept(c, MoveTo(c, j, pc));
  }

  /** The session read answers what SessionRace says, or refuses on the fingerprint. */
  lemma FitsIsThere(site: Site, c: System, s: State, h: Hash, presented: Option<string>)
    requires Shows(site, c, s)
    ensures SessionFits(site, c.store, h, presented, c.clock) ==> h in s.sessions
  {
    assert h in s.sessions <==> LiveOurs(site, c.store, h, c.clock);
  }

  lemma ReadShows(site: Site, c: System, s: State, j: nat)
    requires Shows(site, c, s) && CheckAt(s, j, Asked)
    ensures Shows(site, Perform(site, c, ReadSession(j)), Call(s, Image(site, c, s, Act(ReadSession(j)))))
  {
    var fits := SessionFits(site, c.store, c.checks[j].token, site.presented(j), c.clock);
    FitsIsThere(site, c, s, c.checks[j].token, site.presented(j));
    CheckMoves(site, c, s, j, if fits then SawSession else Rejected);
  }

  lemma PointerReadShows(site: Site, c: System, s: State, j: nat)
    requires Shows(site, c, s) && CheckAt(s, j, SawSession)
    ensures Shows(site, Perform(site, c, ReadPointer(j)), Call(s, ReadPointer(j)))
  {
    assert PointerOf(site, c.store) == s.pointer;
    CheckMoves(site, c, s, j, if s.pointer == Some(c.checks[j].token) then Accepted else Rejected);
  }

  lemma LoggedOutNow(c: System, j: nat)
    requires CheckedAt(c, j)
    ensures var c' := MoveTo(c, j, Revoked);
            forall h: Hash :: LoggedOut(c', h) <==> LoggedOut(c, h) || h == c.checks[j].token
  {
    var c' := MoveTo(c, j, Revoked);
    LogoutsKept(c, c');
    assert c'.checks[j].pc == Revoked && c'.checks[j].token == c.checks[j].token;
    forall h: Hash | LoggedOut(c', h) ensures LoggedOut(c, h) || h == c.checks[j].token {
      var k :| 0 <= k < |c'.checks| && c'.checks[k].pc == Revoked && c'.checks[k].token == h;
      if k != j { assert c.checks[k] == c'.checks[k]; }
    }
  }

  predicate CheckedAt(c: System, j: nat) {
    j < |c.checks| && c.checks[j].pc == Accepted
  }

  lemma RevokeShows(site: Site, c: System, s: State, j: nat)
    requires Shows(site, c, s) && Enabled(s, Revoke(j))
    ensures Shows(site, Perform(site, c, Revoke(j)), Call(s, Revoke(j)))
  {
    LoggedOutNow(c, j);
    DeletedSession(site, c, s, c.checks[j].token);
    SameLogouts(MoveTo(c, j, Revoked), Perform(site, c, Revoke(j)));
  }

  lemma SameLogouts(c: System, c': System)
    requires c'.checks == c.checks
    ensures forall h: Hash :: LoggedOut(c', h) == LoggedOut(c, h)
  {
  }

  lemma TickShows(site: Site, c: System, s: State, ms: nat)
    requires Shows(site, c, s)
    ensures Shows(site, Happen(site, c, Tick(ms)), Call(s, Image(site, c, s, Tick(ms))))
  {
  }

  lemma OthersShows(site: Site, c: System, s: State, store: Spec.AuthState)
    requires Shows(site, c, s)
    ensures Shows(site, Happen(site, c, Others(store)), s)
  {
  }

  /** An event whose step is not enabled leaves the system alone. */
  lemma IdleEvent(site: Site, c: System, s: State, e: Event)
    requires Shows(site, c, s) && !Enabled(s, Image(site, c, s, e))
    ensures Happen(site, c, e) == c
  {
  }

  /** One store call of a login. */
  lemma LoginShows(site: Site, c: System, s: State, a: Action)
    requires site.Proper() && Shows(site, c, s) && PutsLogged(c) && Enabled(s, a)
    requires a.Snapshot? || a.DeletePrevious? || a.PutSession? || a.SetPointer?
    ensures Shows(site, Perform(site, c, a), Call(s, a))
  {
    match a
    case Snapshot(i) => SnapshotShows(site, c, s, i);
    case DeletePrevious(i) => DeleteShows(site, c, s, i);
    case PutSession(i) => PutShows(site, c, s, i);
    case SetPointer(i) => PointShows(site, c, s, i);
  }

  lemma ActShows(site: Site, c: System, s: State, a: Action)
    requires site.Proper() && Shows(site, c, s) && PutsLogged(c) && Enabled(s, Image(site, c, s, Act(a)))
    ensures Shows(site, Perform(site, c, a), Call(s, Image(site, c, s, Act(a))))
  {
    match a {
      case Arrive(token) => if token != "" { ArriveShows(site, c, s, token); } else { QuietShows(site, c, s); }
      case Ask(_, _) => AskShows(site, c, s, a);
      case ReadSession(j) => ReadShows(site, c, s, j);
      case ReadPointer(j) => PointerReadShows(site, c, s, j);
      case Revoke(j) => RevokeShows(site, c, s, j);
      case Refuse(_) => QuietShows(site, c, s);
      case Expire(_) => QuietShows(site, c, s);
      case _ => LoginShows(site, c, s, a);
    }
  }

  /** An expiry that takes nothing changes nothing. */
  lemma QuietShows(site: Site, c: System, s: State)
    requires Shows(site, c, s)
    ensures Shows(site, c, Call(s, Expire({})))
  {
    assert s.sessions - {} == s.sessions && s.expired + {} == s.expired;
  }

  lemma ArrivalLogged(c: System, c': System, token: Hash)
    requires PutsLogged(c) && c'.putAt == c.putAt && c'.logins == c.logins + [Login(token, None, Arrived)]
    requires forall i :: 0 <= i < |c.logins| ==> c.logins[i].token != token
    ensures PutsLogged(c')
  {
    forall h: Hash | h in c'.putAt ensures exists i :: 0 <= i < |c'.logins| && c'.logins[i].token == h {
      var i :| 0 <= i < |c.logins| && c.logins[i].token == h;
      assert c'.logins[i].token == h;
    }
  }

  /** A login moves on; it is past its store call afterwards iff its token has been stored. */
  lemma MoveLogged(c: System, c': System, i: nat)
    requires PutsLogged(c) && i < |c.logins| == |c'.logins|
    requires c'.logins[i].token == c.logins[i].token
    requires forall k :: 0 <= k < |c.logins| && k != i ==> c'.logins[k] == c.logins[k]
    requires forall h: Hash :: h != c.logins[i].token ==> (h in c'.putAt <==> h in c.putAt)
    requires c.logins[i].token in c'.putAt <==> HasPut(c'.logins[i])
    ensures PutsLogged(c')
  {
    forall h: Hash | h in c'.putAt ensures exists k :: 0 <= k < |c'.logins| && c'.logins[k].token == h {
      if h != c.logins[i].token {
        var k :| 0 <= k < |c.logins| && c.logins[k].token == h;
        assert c'.logins[k].token == h;
      }
    }
  }

  lemma LoginLogged(site: Site, c: System, a: Action)
    requires PutsLogged(c) && (a.Snapshot? || a.DeletePrevious? || a.PutSession? || a.SetPointer?)
    ensures PutsLogged(Perform(site, c, a))
  {
    if Perform(site, c, a) != c { MoveLogged(c, Perform(site, c, a), a.login); }
  }

  lemma PutsStayLogged(site: Site, c: System, e: Event)
    requires PutsLogged(c)
    ensures PutsLogged(Happen(site, c, e))
  {
    match e
    case Act(a) =>
      if a.Snapshot? || a.DeletePrevious? || a.PutSession? || a.SetPointer? {
        LoginLogged(site, c, a);
      } else if a.Arrive? && Perform(site, c, a) != c {
        ArrivalLogged(c, Perform(site, c, a), a.token);
      } else {
        SameLogins(site, c, a);
      }
    case _ =>
  }

  lemma SameLogins(site: Site, c: System, a: Action)
    requires !(a.Snapshot? || a.DeletePrevious? || a.PutSession? || a.SetPointer?)
    ensures a.Arrive? || (Perform(site, c, a).logins == c.logins && Perform(site, c, a).putAt == c.putAt)
  {
  }

  lemma HappenShows(site: Site, c: System, s: State, e: Event)
    requires site.Proper() && Shows(site, c, s) && PutsLogged(c)
    ensures Shows(site, Happen(site, c, e), Step(s, Image(site, c, s, e))) && PutsLogged(Happen(site, c, e))
  {
    PutsStayLogged(site, c, e);
    var image := Image(site, c, s, e);
    if !Enabled(s, image) {
      IdleEvent(site, c, s, e);
    } else {
      match e {
        case Act(a) => ActShows(site, c, s, a);
        case Tick(ms) => TickShows(site, c, s, ms);
        case Others(store) =>
          OthersShows(site, c, s, store);
          QuietShows(site, Happen(site, c, e), s);
      }
      ObserveShows(site, Happen(site, c, e), Call(s, image));
    }
  }

  // Whole runs.

  /** A record at rest: whatever sessions its owner has, and its pointer, are known digests. */
  ghost predicate AtRest(site: Site, c: System) {
    && c.logins == [] && c.checks == [] && c.putAt == map[]
    && Spec.RecordAt(c.store, site.Owner()).profile.Some?
    && Spec.RecordAt(c.store, site.Owner()).pointer != Some("")
    && AsSet(Spec.RecordAt(c.store, site.Owner()).pointer) <= site.known
    && (forall h: Hash :: Ours(site, c.store, h) ==> h in site.known)
  }

  function StartOf(site: Site, c: System): State {
    var live := set h | h in site.known && LiveOurs(site, c.store, h, c.clock);
    var pointer := Spec.RecordAt(c.store, site.Owner()).pointer;
    State([], [], pointer, live, site.known, AsSet(pointer) - live, {})
  }

  /** The run of SessionRace that a run on the store amounts to. */
  ghost function Images(site: Site, c: System, events: seq<Event>): seq<Action> {
    if events == [] then []
    else
      var most := events[..|events| - 1];
      Images(site, c, most)
      + [Image(site, RunOf(site, c, most), Play(StartOf(site, c), Images(site, c, most)), events[|events| - 1])]
  }

  ghost function Seen(site: Site, c: System, events: seq<Event>): State {
    Play(StartOf(site, c), Images(site, c, events))
  }

  lemma SeenStep(site: Site, c: System, events: seq<Event>)
    requires events != []
    ensures var most := events[..|events| - 1];
            var image := Image(site, RunOf(site, c, most), Seen(site, c, most), events[|events| - 1]);
            Seen(site, c, events) == Step(Seen(site, c, most), image)
  {
    var images := Images(site, c, events);
    assert images[..|images| - 1] == Images(site, c, events[..|events| - 1]);
  }

  /** Every run on the store is, call by call, a run of SessionRace. */
  lemma {:induction false} RunRefines(site: Site, c: System, events: seq<Event>)
    requires site.Proper() && AtRest(site, c)
    ensures Initial(StartOf(site, c))
    ensures Shows(site, RunOf(site, c, events), Seen(site, c, events)) && PutsLogged(RunOf(site, c, events))
  {
    if events != [] {
      var most := events[..|events| - 1];
      RunRefines(site, c, most);
      HappenShows(site, RunOf(site, c, most), Seen(site, c, most), events[|events| - 1]);
      SeenStep(site, c, events);
    }
  }

  /** What verification answers is what SessionRace says, up to the fingerprint. */
  lemma VerifiedIsVerifies(site: Site, c: System, s: State, h: Hash, presented: Option<string>)
    requires site.Proper() && Shows(site, c, s)
    ensures Flow.Verified(site.backend, c.store, site.appId, h, site.publicKey, presented, c.clock).Some?
       <==> Verifies(s, h) && SessionFits(site, c.store, h, presented, c.clock)
  {
  }

  /**
   * One session, in the store of either backend. However logins, verifications, logouts, the clock
   * and the rest of the service interleaved: once every login has completed, exactly one of their
   * tokens verifies, exactly until one lifetime after its own session was stored, under exactly the
   * fingerprint it was bound to, and unless it was logged out; and no other token does.
   */
  lemma OneSession(site: Site, c: System, events: seq<Event>) returns (winner: Hash)
    requires site.Proper() && AtRest(site, c)
    requires var end := RunOf(site, c, events);
             end.logins != [] && forall i :: 0 <= i < |end.logins| ==> end.logins[i].pc == Done
    ensures var end := RunOf(site, c, events);
            && (exists i :: 0 <= i < |end.logins| && end.logins[i].token == winner)
            && winner in end.putAt
            && forall h, presented ::
                 Flow.Verified(site.backend, end.store, site.appId, h, site.publicKey, presented, end.clock).Some?
                 <==> && h == winner && !LoggedOut(end, winner)
                      && end.clock < Deadline(site, end, winner)
                      && (Truthy(site.bound(winner)) ==> presented == site.bound(winner))
  {
    RunRefines(site, c, events);
    Reachable(StartOf(site, c), Images(site, c, events));
    PointerAfterLogin(StartOf(site, c), Images(site, c, events));
    winner := OnlyPointed(site, RunOf(site, c, events), Seen(site, c, events));
  }

  /** The same of any state in which every login has completed. */
  lemma OnlyPointed(site: Site, c: System, s: State) returns (winner: Hash)
    requires site.Proper() && Shows(site, c, s) && PutsLogged(c) && LoginInv(s) && KeyInv(s)
    requires c.logins != [] && forall i :: 0 <= i < |c.logins| ==> c.logins[i].pc == Done
    requires (exists i :: 0 <= i < |s.logins| && s.logins[i].pc == Done) ==>
               s.pointer.Some? && DoneToken(s, s.pointer.value)
    ensures (exists i :: 0 <= i < |c.logins| && c.logins[i].token == winner) && winner in c.putAt
    ensures forall h, presented ::
              Flow.Verified(site.backend, c.store, site.appId, h, site.publicKey, presented, c.clock).Some?
              <==> && h == winner && !LoggedOut(c, winner)
                   && c.clock < Deadline(site, c, winner)
                   && (Truthy(site.bound(winner)) ==> presented == site.bound(winner))
  {
    assert s.logins[0].pc == Done;
    winner := s.pointer.value;
    var i :| 0 <= i < |s.logins| && s.logins[i].pc == Done && s.logins[i].token == winner;
    assert winner !in site.known && HasPut(c.logins[i]);
    WinnerLives(site, c, s, winner);
    forall h, presented
      ensures Flow.Verified(site.backend, c.store, site.appId, h, site.publicKey, presented, c.clock).Some?
         <==> && h == winner && winner in s.sessions
              && (Truthy(site.bound(winner)) ==> presented == site.bound(winner))
    {
      VerifiedIsVerifies(site, c, s, h, presented);
      if h == winner { FitsBound(site, c, s, h, presented); }
    }
  }

  /** A session this run put fits exactly the fingerprint its login bound it to. */
  lemma FitsBound(site: Site, c: System, s: State, h: Hash, presented: Option<string>)
    requires Shows(site, c, s) && h !in site.known
    ensures SessionFits(site, c.store, h, presented, c.clock)
       <==> h in s.sessions && (Truthy(site.bound(h)) ==> presented == site.bound(h))
  {
    assert h in s.sessions <==> LiveOurs(site, c.store, h, c.clock);
  }

  /** The session a completed login is pointed to by is there until it runs out or is logged out. */
  lemma WinnerLives(site: Site, c: System, s: State, h: Hash)
    requires Shows(site, c, s) && LoginInv(s) && KeyInv(s)
    requires s.pointer == Some(h) && h !in site.known && h in c.putAt
    requires forall i :: 0 <= i < |s.logins| ==> s.logins[i].pc == Done
    ensures h in s.sessions <==> !LoggedOut(c, h) && c.clock < Deadline(site, c, h)
  {
    assert Accounted(s, h);
  }

  /**
   * In the store, a finished login's token that the record no longer holds never verifies again,
   * however long its session stays stored.
   */
  lemma {:induction false} NeverAgain(
      site: Site, c: System, events: seq<Event>, later: seq<Event>, i: nat, presented: Option<string>)
    requires site.Proper() && AtRest(site, c)
    requires var mid := RunOf(site, c, events);
             i < |mid.logins| && mid.logins[i].pc == Done && PointerOf(site, mid.store) != Some(mid.logins[i].token)
    ensures var end := RunOf(site, c, events + later);
            var h := RunOf(site, c, events).logins[i].token;
            Flow.Verified(site.backend, end.store, site.appId, h, site.publicKey, presented, end.clock).None?
  {
    RunRefines(site, c, events);
    var s := Seen(site, c, events);
    assert DoneToken(s, s.logins[i].token);
    LeftInStore(site, c, events, later, s.logins[i].token);
    RunRefines(site, c, events + later);
    VerifiedIsVerifies(site, RunOf(site, c, events + later), Seen(site, c, events + later),
                       s.logins[i].token, presented);
  }

  lemma {:induction false} LeftInStore(site: Site, c: System, events: seq<Event>, later: seq<Event>, h: Hash)
    requires site.Proper() && AtRest(site, c)
    requires Pointed(Seen(site, c, events), h) && Seen(site, c, events).pointer != Some(h)
    ensures Pointed(Seen(site, c, events + later), h) && Seen(site, c, events + later).pointer != Some(h)
    decreases later
  {
    if later == [] {
      assert events + later == events;
    } else {
      var most := later[..|later| - 1];
      LeftInStore(site, c, events, most, h);
      assert (events + later)[..|events + later| - 1] == events + most;
      RunRefines(site, c, events + most);
      Reachable(StartOf(site, c), Images(site, c, events + most));
      SeenStep(site, c, events + later);
      LeftStaysLeft(Seen(site, c, events + most),
                    Image(site, RunOf(site, c, events + most), Seen(site, c, events + most), later[|later| - 1]), h);
    }
  }
}
