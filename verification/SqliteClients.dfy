/**
 * The protocols on the SQLite connection: what a rolled-back registration takes with it, and what
 * each protocol keeps on quiet runs, where it is the same as on any other store.
 */
module SqliteClients {
  import opened Wrappers
  import opened Expiry
  import opened AuthTypes
  import opened Keys
  import opened AuthSpec
  import opened SqliteStore
  import Runs = BackendRuns
  import Race = ChallengeRace
  import Sessions = SessionRuns
  import SRace = SessionRace
  import Flow = SessionFlow
  import Rate = RateWindows

  // Single calls.

  /** A client that makes calls and remembers the answers. */
  function Calls(): Protocol<seq<Runs.Answer>, Runs.Call> {
    Protocol((log: seq<Runs.Answer>, db: AuthState, c: Runs.Call) =>
      (log + [Runs.Step(SqlBackend, db, c).1], Runs.Step(SqlBackend, db, c).0))
  }

  /**
   * A call answered while a losing registration is suspended, and a later one: the second is
   * answered as if the first had never been made.
   */
  lemma Forgotten(h: Host<seq<Runs.Answer>>, user: UserData, c: Runs.Call, later: Runs.Call)
    requires AtRest(h.conn) && Taken(h.conn.db, user) && !c.op.DoPutUser?
    ensures HostRun(Calls(), h, Overlap(|h.conn.txs|, user, c) + [Client(later)]).client
         == h.client + [Runs.Step(SqlBackend, RowUpserted(h.conn.db, user), c).1,
                        Runs.Step(SqlBackend, h.conn.db, later).1]
  {
    var run := Overlap(|h.conn.txs|, user, c);
    Undone(Calls(), h, user, c);
    HostRunJoin(Calls(), h, run, [Client(later)]);
    OneEvent(Calls(), HostRun(Calls(), h, run), Client(later));
  }

  /** What the client was told, behind what it was told before. */
  function Told(h: Host<seq<Runs.Answer>>, user: UserData, c: Runs.Call, later: Runs.Call): seq<Runs.Answer> {
    HostRun(Calls(), h, Overlap(|h.conn.txs|, user, c) + [Client(later)]).client
  }

  lemma ToldAs(h: Host<seq<Runs.Answer>>, user: UserData, c: Runs.Call, later: Runs.Call,
               first: Runs.Answer, second: Runs.Answer)
    requires AtRest(h.conn) && Taken(h.conn.db, user) && !c.op.DoPutUser?
    requires Runs.Step(SqlBackend, RowUpserted(h.conn.db, user), c).1 == first
    requires Runs.Step(SqlBackend, h.conn.db, later).1 == second
    ensures Told(h, user, c, later) == h.client + [first, second]
  {
    Forgotten(h, user, c, later);
  }

  /** One stored challenge, taken twice. */
  lemma ChallengeTakenTwice(h: Host<seq<Runs.Answer>>, user: UserData, k: Key, now: int, later: int)
    requires AtRest(h.conn) && Taken(h.conn.db, user)
    requires k in h.conn.db.challenges
    requires !Expired(h.conn.db.challenges[k], now) && !Expired(h.conn.db.challenges[k], later)
    ensures Told(h, user, Runs.Call(Runs.DoTakeChallenge(k), now), Runs.Call(Runs.DoTakeChallenge(k), later))
         == h.client + [Runs.Flag(true), Runs.Flag(true)]
  {
    ToldAs(h, user, Runs.Call(Runs.DoTakeChallenge(k), now),
           Runs.Call(Runs.DoTakeChallenge(k), later), Runs.Flag(true), Runs.Flag(true));
  }

  /** A challenge stored, acknowledged, and gone without anyone having signed it. */
  lemma ChallengeBurned(h: Host<seq<Runs.Answer>>, user: UserData, k: Key, ttl: int, now: int, later: int)
    requires AtRest(h.conn) && Taken(h.conn.db, user) && k !in h.conn.db.challenges
    ensures Told(h, user, Runs.Call(Runs.DoPutChallenge(k, ttl), now), Runs.Call(Runs.DoTakeChallenge(k), later))
         == h.client + [Runs.Done, Runs.Flag(false)]
  {
    ToldAs(h, user, Runs.Call(Runs.DoPutChallenge(k, ttl), now),
           Runs.Call(Runs.DoTakeChallenge(k), later), Runs.Done, Runs.Flag(false));
  }

  /** A session deleted, acknowledged, and back. */
  lemma LogoutUndone(h: Host<seq<Runs.Answer>>, user: UserData, k: Key, v: SessionValue, now: int, later: int)
    requires AtRest(h.conn) && Taken(h.conn.db, user) && GetSession(h.conn.db, k, later) == Some(v)
    ensures Told(h, user, Runs.Call(Runs.DoDeleteSession(k), now), Runs.Call(Runs.DoGetSession(k), later))
         == h.client + [Runs.Done, Runs.Session(Some(v))]
  {
    ToldAs(h, user, Runs.Call(Runs.DoDeleteSession(k), now),
           Runs.Call(Runs.DoGetSession(k), later), Runs.Done, Runs.Session(Some(v)));
  }

  /** A session stored, acknowledged, and gone. */
  lemma SessionLost(h: Host<seq<Runs.Answer>>, user: UserData, k: Key, v: SessionValue, ttl: int, now: int, later: int)
    requires AtRest(h.conn) && Taken(h.conn.db, user) && k !in h.conn.db.sessions
    ensures Told(h, user, Runs.Call(Runs.DoPutSession(k, v, ttl), now), Runs.Call(Runs.DoGetSession(k), later))
         == h.client + [Runs.Done, Runs.Session(None)]
  {
    ToldAs(h, user, Runs.Call(Runs.DoPutSession(k, v, ttl), now),
           Runs.Call(Runs.DoGetSession(k), later), Runs.Done, Runs.Session(None));
  }

  /** A wallet stored, acknowledged, and the record as it was. */
  lemma WalletLost(h: Host<seq<Runs.Answer>>, user: UserData, u: Key, w: EncryptedWallet, now: int, later: int)
    requires AtRest(h.conn) && Taken(h.conn.db, user)
    ensures Told(h, user, Runs.Call(Runs.DoPutWalletSlot(u, w), now), Runs.Call(Runs.DoGetUser(u), later))
         == h.client + [Runs.Done, Runs.User(GetUser(SqlBackend, h.conn.db, u))]
  {
    ToldAs(h, user, Runs.Call(Runs.DoPutWalletSlot(u, w), now),
           Runs.Call(Runs.DoGetUser(u), later), Runs.Done, Runs.User(GetUser(SqlBackend, h.conn.db, u)));
  }

  /** A session pointer moved, acknowledged, and the record as it was. */
  lemma PointerLost(h: Host<seq<Runs.Answer>>, user: UserData, u: Key, hash: string, now: int, later: int)
    requires AtRest(h.conn) && Taken(h.conn.db, user)
    ensures Told(h, user, Runs.Call(Runs.DoSetSessionPointer(u, hash), now), Runs.Call(Runs.DoGetUser(u), later))
         == h.client + [Runs.Done, Runs.User(GetUser(SqlBackend, h.conn.db, u))]
  {
    ToldAs(h, user, Runs.Call(Runs.DoSetSessionPointer(u, hash), now),
           Runs.Call(Runs.DoGetUser(u), later), Runs.Done, Runs.User(GetUser(SqlBackend, h.conn.db, u)));
  }

  /** A hit counted and answered, and the next one answered alike. */
  lemma HitForgotten(h: Host<seq<Runs.Answer>>, user: UserData, hit: Runs.Op, now: int)
    requires AtRest(h.conn) && Taken(h.conn.db, user) && hit.DoHitRateLimit?
    ensures var answer := Runs.Step(SqlBackend, h.conn.db, Runs.Call(hit, now)).1;
            Told(h, user, Runs.Call(hit, now), Runs.Call(hit, now)) == h.client + [answer, answer]
  {
    var answer := Runs.Step(SqlBackend, h.conn.db, Runs.Call(hit, now)).1;
    ToldAs(h, user, Runs.Call(hit, now), Runs.Call(hit, now), answer, answer);
  }

  // Sign-ins.

  /** The challenge protocol as a client: its actions, on the store as it finds it. */
  function SignIns(w: Race.World): Protocol<Race.State, Race.Action> {
    Protocol((s: Race.State, db: AuthState, a: Race.Action) =>
      var s' := Race.Step(w, s.(store := db), a); (s', s'.store))
  }

  /** To the challenge protocol a registration is another write of the handlers. */
  function RaceAction(store: AuthState, e: Atom<Race.Action>): Race.Action {
    match e
    case Do(a) => a
    case Write(user) =>
      var a := PutUser(SqlBackend, store, user).0;
      Race.OtherWrites(a.records, a.emails, a.sessions, a.limits)
  }

  function RaceRun(w: Race.World, s: Whole<Race.State>, run: seq<Atom<Race.Action>>): seq<Race.Action> {
    if run == [] then []
    else
      var front := run[..|run| - 1];
      RaceRun(w, s, front) + [RaceAction(AtomRun(SignIns(w), s, front).store, run[|run| - 1])]
  }

  function Joined(s: Whole<Race.State>): Race.State {
    s.client.(store := s.store)
  }

  lemma AtomIsRace(w: Race.World, s: Whole<Race.State>, e: Atom<Race.Action>)
    ensures Joined(AtomStep(SignIns(w), s, e)) == Race.Step(w, Joined(s), RaceAction(s.store, e))
  {
    if e.Write? {
      var a := PutUser(SqlBackend, s.store, e.user).0;
      assert a == s.store.(records := a.records, emails := a.emails, sessions := a.sessions, limits := a.limits);
    }
  }

  lemma {:induction false} AtomsAreRace(w: Race.World, s: Whole<Race.State>, run: seq<Atom<Race.Action>>)
    ensures Race.Play(w, Joined(s), RaceRun(w, s, run)) == Joined(AtomRun(SignIns(w), s, run))
  {
    if run != [] {
      var front, acts := run[..|run| - 1], RaceRun(w, s, run);
      AtomsAreRace(w, s, front);
      AtomIsRace(w, AtomRun(SignIns(w), s, front), run[|run| - 1]);
      assert acts[..|acts| - 1] == RaceRun(w, s, front);
    }
  }

  /** The run of the challenge protocol that a quiet run on the SQLite connection amounts to. */
  function RaceOf(w: Race.World, h: Host<Race.State>, run: seq<Event<Race.Action>>): seq<Race.Action> {
    RaceRun(w, Whole(Committed(h), h.client), Image(SignIns(w), h, run))
  }

  lemma QuietSignIns(w: Race.World, h: Host<Race.State>, run: seq<Event<Race.Action>>)
    requires HostInv(h) && Quiet(SignIns(w), h, run)
    ensures var end := HostRun(SignIns(w), h, run);
            Race.Play(w, h.client.(store := Committed(h)), RaceOf(w, h, run))
            == end.client.(store := Committed(end))
  {
    QuietIsAtomic(SignIns(w), h, run);
    AtomsAreRace(w, Whole(Committed(h), h.client), Image(SignIns(w), h, run));
  }

  /** Single use on SQLite, on quiet runs. */
  lemma QuietSingleUse(w: Race.World, h: Host<Race.State>, run: seq<Event<Race.Action>>, k: Key)
    requires HostInv(h) && Quiet(SignIns(w), h, run)
    requires Race.Initial(h.client.(store := Committed(h)))
    ensures var end := HostRun(SignIns(w), h, run).client;
            end.takes[k] <= end.puts[k] && Race.SignIns(end.procs) <= |end.takes| <= |end.puts|
  {
    QuietSignIns(w, h, run);
    Race.SingleUse(w, h.client.(store := Committed(h)), RaceOf(w, h, run), k);
  }

  /** And nobody burns a challenge they cannot sign. */
  lemma QuietCannotBeBurned(w: Race.World, h: Host<Race.State>, run: seq<Event<Race.Action>>, k: Key)
    requires HostInv(h) && Quiet(SignIns(w), h, run)
    requires var s := h.client.(store := Committed(h));
             k in s.store.challenges && Race.NotPending(s, k) && Race.Unproven(w, s, RaceOf(w, h, run), k)
    ensures var challenges := Committed(HostRun(SignIns(w), h, run)).challenges;
            k in challenges && challenges[k] == Committed(h).challenges[k]
  {
    var s := h.client.(store := Committed(h));
    QuietSignIns(w, h, run);
    Race.CannotBeBurned(w, s, RaceOf(w, h, run), k);
    Race.PlayOnIsPlay(w, s, RaceOf(w, h, run));
  }

  // Sessions.

  /** The session protocol as a client. */
  ghost function SessionClient(site: Sessions.Site): Protocol<Sessions.System, Sessions.Event> {
    Protocol((c: Sessions.System, db: AuthState, e: Sessions.Event) =>
      var c' := Sessions.Happen(site, c.(store := db), e); (c', c'.store))
  }

  function SessionEvent(store: AuthState, e: Atom<Sessions.Event>): Sessions.Event {
    match e
    case Do(act) => act
    case Write(user) => Sessions.Others(PutUser(SqlBackend, store, user).0)
  }

  ghost function SessionRun(site: Sessions.Site, s: Whole<Sessions.System>, run: seq<Atom<Sessions.Event>>)
    : seq<Sessions.Event>
  {
    if run == [] then []
    else
      var front := run[..|run| - 1];
      SessionRun(site, s, front) + [SessionEvent(AtomRun(SessionClient(site), s, front).store, run[|run| - 1])]
  }

  /** No registration is of the record itself: those overwrite its session field, on any store. */
  predicate Foreign(site: Sessions.Site, run: seq<Atom<Sessions.Event>>) {
    forall i :: 0 <= i < |run| && run[i].Write? ==> Keyed(run[i].user) != site.Owner()
  }

  lemma ForeignIsUnrelated(site: Sessions.Site, a: AuthState, user: UserData)
    requires Keyed(user) != site.Owner()
    ensures Sessions.Unrelated(site, a, PutUser(SqlBackend, a, user).0)
  {
    assert RecordAt(PutUser(SqlBackend, a, user).0, site.Owner()) == RecordAt(a, site.Owner());
  }

  lemma {:induction false} AtomsAreSessions(
      site: Sessions.Site, s: Whole<Sessions.System>, run: seq<Atom<Sessions.Event>>)
    requires Foreign(site, run)
    ensures var end := AtomRun(SessionClient(site), s, run);
            Sessions.RunOf(site, s.client.(store := s.store), SessionRun(site, s, run))
            == end.client.(store := end.store)
  {
    if run != [] {
      var front, e, acts := run[..|run| - 1], run[|run| - 1], SessionRun(site, s, run);
      assert Foreign(site, front);
      AtomsAreSessions(site, s, front);
      assert acts[..|acts| - 1] == SessionRun(site, s, front);
      if e.Write? { ForeignIsUnrelated(site, AtomRun(SessionClient(site), s, front).store, e.user); }
    }
  }

  /** The run of the session protocol that a quiet run on the SQLite connection amounts to. */
  ghost function SessionsOf(site: Sessions.Site, h: Host<Sessions.System>, run: seq<Event<Sessions.Event>>)
    : seq<Sessions.Event>
  {
    SessionRun(site, Whole(Committed(h), h.client), Image(SessionClient(site), h, run))
  }

  function Standing(h: Host<Sessions.System>): Sessions.System {
    h.client.(store := Committed(h))
  }

  predicate ForeignUsers(site: Sessions.Site, h: Host<Sessions.System>, run: seq<Event<Sessions.Event>>) {
    && (forall i :: 0 <= i < |h.users| ==> Keyed(h.users[i]) != site.Owner())
    && (forall i :: 0 <= i < |run| && run[i].Register? ==> Keyed(run[i].user) != site.Owner())
  }

  predicate ForeignHost(site: Sessions.Site, h: Host<Sessions.System>) {
    forall i :: 0 <= i < |h.users| ==> Keyed(h.users[i]) != site.Owner()
  }

  lemma ForeignStep(site: Sessions.Site, h: Host<Sessions.System>, e: Event<Sessions.Event>)
    requires ForeignHost(site, h) && (e.Register? ==> Keyed(e.user) != site.Owner())
    ensures Foreign(site, ImageStep(h, e)) && ForeignHost(site, HostStep(SessionClient(site), h, e))
  {
  }

  lemma {:induction false} ForeignImage(site: Sessions.Site, h: Host<Sessions.System>, run: seq<Event<Sessions.Event>>)
    requires ForeignUsers(site, h, run)
    ensures Foreign(site, Image(SessionClient(site), h, run)) && ForeignHost(site, HostRun(SessionClient(site), h, run))
  {
    if run != [] {
      var front, e := run[..|run| - 1], run[|run| - 1];
      assert ForeignUsers(site, h, front);
      ForeignImage(site, h, front);
      ForeignStep(site, HostRun(SessionClient(site), h, front), e);
    }
  }

  lemma QuietSessions(site: Sessions.Site, h: Host<Sessions.System>, run: seq<Event<Sessions.Event>>)
    requires HostInv(h) && Quiet(SessionClient(site), h, run) && ForeignUsers(site, h, run)
    ensures Sessions.RunOf(site, Standing(h), SessionsOf(site, h, run))
         == Standing(HostRun(SessionClient(site), h, run))
  {
    QuietIsAtomic(SessionClient(site), h, run);
    ForeignImage(site, h, run);
    AtomsAreSessions(site, Whole(Committed(h), h.client), Image(SessionClient(site), h, run));
  }

  /** One session on SQLite, on quiet runs. */
  lemma QuietOneSession(site: Sessions.Site, h: Host<Sessions.System>, run: seq<Event<Sessions.Event>>)
    returns (winner: SRace.Hash)
    requires HostInv(h) && Quiet(SessionClient(site), h, run) && ForeignUsers(site, h, run)
    requires site.Proper() && Sessions.AtRest(site, Standing(h))
    requires var end := Standing(HostRun(SessionClient(site), h, run));
             end.logins != [] && forall i :: 0 <= i < |end.logins| ==> end.logins[i].pc == SRace.Done
    ensures var end := Standing(HostRun(SessionClient(site), h, run));
            && winner in end.putAt
            && forall token, presented ::
                 Flow.Verified(site.backend, end.store, site.appId, token, site.publicKey, presented, end.clock).Some?
                 <==> && token == winner && !Sessions.LoggedOut(end, winner)
                      && end.clock < Sessions.Deadline(site, end, winner)
                      && (Truthy(site.bound(winner)) ==> presented == site.bound(winner))
  {
    QuietSessions(site, h, run);
    winner := Sessions.OneSession(site, Standing(h), SessionsOf(site, h, run));
  }

  /** The earlier part of a run is the earlier part of what it amounts to. */
  lemma {:induction false} ImageGrows<P, A>(
      proto: Protocol<P, A>, h: Host<P>, run: seq<Event<A>>, later: seq<Event<A>>)
    returns (rest: seq<Atom<A>>)
    requires Quiet(proto, h, run + later)
    ensures Image(proto, h, run + later) == Image(proto, h, run) + rest && Quiet(proto, h, run)
  {
    rest := [];
    if later == [] {
      assert run + later == run;
    } else {
      var whole, most := run + later, later[..|later| - 1];
      assert whole[..|whole| - 1] == run + most;
      rest := ImageGrows(proto, h, run, most);
      rest := rest + ImageStep(HostRun(proto, h, run + most), whole[|whole| - 1]);
    }
  }

  lemma SessionRunPlus(
      site: Sessions.Site, s: Whole<Sessions.System>, x: seq<Atom<Sessions.Event>>, e: Atom<Sessions.Event>)
    ensures SessionRun(site, s, x + [e])
         == SessionRun(site, s, x) + [SessionEvent(AtomRun(SessionClient(site), s, x).store, e)]
  {
    assert (x + [e])[..|x + [e]| - 1] == x;
  }

  lemma {:induction false} SessionRunGrows(
      site: Sessions.Site, s: Whole<Sessions.System>, x: seq<Atom<Sessions.Event>>, y: seq<Atom<Sessions.Event>>)
    returns (rest: seq<Sessions.Event>)
    ensures SessionRun(site, s, x + y) == SessionRun(site, s, x) + rest
  {
    if y == [] {
      assert x + y == x;
      rest := [];
    } else {
      var most, e := y[..|y| - 1], y[|y| - 1];
      assert x + y == (x + most) + [e];
      SessionRunPlus(site, s, x + most, e);
      rest := SessionRunGrows(site, s, x, most);
      rest := rest + [SessionEvent(AtomRun(SessionClient(site), s, x + most).store, e)];
    }
  }

  /** And a token the record has left stays rejected. */
  lemma QuietNeverAgain(
      site: Sessions.Site, h: Host<Sessions.System>, run: seq<Event<Sessions.Event>>, later: seq<Event<Sessions.Event>>,
      i: nat, presented: Option<string>)
    requires HostInv(h) && Quiet(SessionClient(site), h, run + later) && ForeignUsers(site, h, run + later)
    requires site.Proper() && Sessions.AtRest(site, Standing(h))
    requires var mid := Standing(HostRun(SessionClient(site), h, run));
             && i < |mid.logins| && mid.logins[i].pc == SRace.Done
             && Sessions.PointerOf(site, mid.store) != Some(mid.logins[i].token)
    ensures var token := HostRun(SessionClient(site), h, run).client.logins[i].token;
            var end := Standing(HostRun(SessionClient(site), h, run + later));
            Flow.Verified(site.backend, end.store, site.appId, token, site.publicKey, presented, end.clock).None?
  {
    var atoms := ImageGrows(SessionClient(site), h, run, later);
    var rest := SessionRunGrows(site, Whole(Committed(h), h.client), Image(SessionClient(site), h, run), atoms);
    assert forall k :: 0 <= k < |run| ==> (run + later)[k] == run[k];
    QuietSessions(site, h, run);
    QuietSessions(site, h, run + later);
    Sessions.NeverAgain(site, Standing(h), SessionsOf(site, h, run), rest, i, presented);
  }

  // Rate-limit hits.

  /** One hit and its verdict. */
  datatype Verdict = Verdict(at: int, allowed: bool)

  /** Hits on one bucket as a client that remembers the verdicts. */
  function Hits(l: Rate.Limit, bucket: RateLimitBucket): Protocol<seq<Verdict>, int> {
    Protocol((log: seq<Verdict>, db: AuthState, at: int) =>
      var (db', r) := HitRateLimit(SqlBackend, db, bucket, l.windowSeconds, l.maxAttempts, at, at);
      (log + [Verdict(at, r.allowed)], db'))
  }

  function HitsOf(log: seq<Verdict>): seq<Rate.Hit> {
    seq(|log|, i requires 0 <= i < |log| => Rate.Hit(log[i].at, log[i].at))
  }

  /** How many hits of the log were allowed with a clock reading in `[lo, hi)`. */
  function AllowedIn(log: seq<Verdict>, lo: int, hi: int): nat {
    if log == [] then 0
    else
      var last := log[|log| - 1];
      AllowedIn(log[..|log| - 1], lo, hi) + if last.allowed && lo <= last.at < hi then 1 else 0
  }

  function CounterOf(a: AuthState, bucket: RateLimitBucket): Rate.Counter {
    if bucket in a.limits then Some(a.limits[bucket]) else None
  }

  lemma {:induction false} RateAppend(l: Rate.Limit, c: Rate.Counter, hits: seq<Rate.Hit>, h: Rate.Hit,
                                      lo: int, hi: int)
    ensures var before := Rate.Run(l, c, hits);
            && Rate.Run(l, c, hits + [h]) == Some(Rate.Next(l, before, h))
            && Rate.Admitted(l, c, hits + [h], lo, hi)
               == Rate.Admitted(l, c, hits, lo, hi) + if lo <= h.read < hi && Rate.Allowed(l, before, h) then 1 else 0
    decreases hits
  {
    if hits == [] {
      assert ([h])[1..] == [];
    } else {
      assert (hits + [h])[1..] == hits[1..] + [h];
      RateAppend(l, Some(Rate.Next(l, c, hits[0])), hits[1..], h, lo, hi);
    }
  }

  /** The counter in the store is the run of the log, and the log's verdicts are its verdicts. */
  lemma {:induction false} AtomsAreHits(l: Rate.Limit, bucket: RateLimitBucket, store: AuthState, run: seq<Atom<int>>,
                                        lo: int, hi: int)
    requires l.backend == SqlBackend
    ensures var end := AtomRun(Hits(l, bucket), Whole(store, []), run);
            && CounterOf(end.store, bucket) == Rate.Run(l, CounterOf(store, bucket), HitsOf(end.client))
            && AllowedIn(end.client, lo, hi) == Rate.Admitted(l, CounterOf(store, bucket), HitsOf(end.client), lo, hi)
  {
    if run != [] {
      var front, e := run[..|run| - 1], run[|run| - 1];
      AtomsAreHits(l, bucket, store, front, lo, hi);
      var mid := AtomRun(Hits(l, bucket), Whole(store, []), front);
      if e.Do? {
        var h := Rate.Hit(e.act, e.act);
        RateAppend(l, CounterOf(store, bucket), HitsOf(mid.client), h, lo, hi);
        var log := AtomRun(Hits(l, bucket), Whole(store, []), run).client;
        assert log[..|log| - 1] == mid.client;
        assert HitsOf(log) == HitsOf(mid.client) + [h];
      }
    }
  }

  lemma AtomBurst(l: Rate.Limit, bucket: RateLimitBucket, store: AuthState, run: seq<Atom<int>>, lo: int, from: int)
    requires l.backend == SqlBackend && l.windowSeconds >= 1
    requires bucket in store.limits ==> store.limits[bucket].value >= 1
    requires Rate.Timely(HitsOf(AtomRun(Hits(l, bucket), Whole(store, []), run).client), from)
    ensures AllowedIn(AtomRun(Hits(l, bucket), Whole(store, []), run).client, lo, lo + l.Span()) <= 2 * l.maxAttempts
  {
    AtomsAreHits(l, bucket, store, run, lo, lo + l.Span());
    var log := AtomRun(Hits(l, bucket), Whole(store, []), run).client;
    Rate.BurstBound(l, CounterOf(store, bucket), HitsOf(log), lo, from);
  }

  /** The burst bound on SQLite, on quiet runs. */
  lemma QuietBurst(l: Rate.Limit, bucket: RateLimitBucket, h: Host<seq<Verdict>>, run: seq<Event<int>>, lo: int,
                   from: int)
    requires HostInv(h) && h.client == [] && Quiet(Hits(l, bucket), h, run)
    requires l.backend == SqlBackend && l.windowSeconds >= 1
    requires bucket in Committed(h).limits ==> Committed(h).limits[bucket].value >= 1
    requires Rate.Timely(HitsOf(HostRun(Hits(l, bucket), h, run).client), from)
    ensures AllowedIn(HostRun(Hits(l, bucket), h, run).client, lo, lo + l.Span()) <= 2 * l.maxAttempts
  {
    var proto := Hits(l, bucket);
    QuietIsAtomic(proto, h, run);
    var image := Image(proto, h, run);
    assert AtomRun(proto, Whole(Committed(h), []), image).client == HostRun(proto, h, run).client;
    AtomBurst(l, bucket, Committed(h), image, lo, from);
  }
}
