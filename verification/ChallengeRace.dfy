/**
 * The single-use challenge protocol: sign-in requests interleaved at every store call, over the
 * abstract store, with everything else the handlers write left to the environment.
 *
 * A store call is durable once it has answered: as on a key-value backend, and on an SQL driver
 * whose plain queries share no connection with an open transaction. On the one connection of the
 * SQLite driver that is so on quiet runs only; `SqliteClients` has both sides.
 */
module ChallengeRace {
  import opened Wrappers
  import opened Expiry
  import opened AuthTypes
  import opened Keys
  import opened AuthSpec
  import opened ByteStrings
  import opened Hex

  /** Signature checking as an ideal predicate: who signed which challenge. */
  datatype Signatures = Signatures(
    byWallet: (string, string, string) -> bool,
    byAuthKey: (string, string, string) -> bool)

  /** Exactly what the server mints: 64 hexadecimal digits. */
  predicate ChallengeShape(s: string) {
    |s| == 64 && AllHex(s)
  }

  /** What the server mints passes its own check. */
  lemma MintedFits(random: Bytes)
    requires |random| == 32
    ensures ChallengeShape(ToHex(random))
  {
    ToHexDigits(random);
  }

  /**
   * A sign-in. The wallet routes (login, connect, register) name the identity key; the email
   * route resolves it and checks the record's own auth key.
   */
  datatype Request =
    | ByWallet(appId: string, publicKey: string, signature: string, challenge: string)
    | ByEmail(appId: string, email: string, signature: string, challenge: string)

  datatype Stage =
    | Received
    | Resolved(publicKey: string)
    | Verified(key: Key)
    | Taken
    | SignedIn
    | Refused

  datatype Proc = Proc(request: Request, stage: Stage)

  datatype State = State(
    store: AuthState, clock: int, procs: seq<Proc>,
    /** Every challenge stored and every challenge taken, with multiplicity. */
    puts: multiset<Key>, takes: multiset<Key>)

  datatype Action =
    | Issue(key: Key, ttlSeconds: int)
    | Submit(request: Request)
    | Resolve(proc: nat)
    | Verify(proc: nat)
    | Take(proc: nat)
    | SignIn(proc: nat)
    | OtherWrites(records: map<Key, Record>, emails: map<Address, string>,
                  sessions: map<Key, Timed<SessionValue>>, limits: map<RateLimitBucket, Timed<nat>>)
    | Tick(ms: nat)

  datatype World = World(sigs: Signatures, backend: Backend)

  function To(s: State, i: nat, stage: Stage): State
    requires i < |s.procs|
  {
    s.(procs := s.procs[i := s.procs[i].(stage := stage)])
  }

  /** The challenge a request at its verification step proves possession for, if it does. */
  function Proven(w: World, s: State, i: nat): Option<Key>
    requires i < |s.procs|
  {
    match (s.procs[i].request, s.procs[i].stage)
    case (ByWallet(app, pk, sig, ch), Received) =>
      if w.sigs.byWallet(pk, sig, ch) then Some(ChallengeKey(app, pk, ch)) else None
    case (ByEmail(app, email, sig, ch), Resolved(pk)) =>
      (match RecordAt(s.store, UserKey(app, pk)).profile
       case Some(profile) =>
         if Truthy(profile.authPublicKey) && w.sigs.byAuthKey(profile.authPublicKey.value, sig, ch)
         then Some(ChallengeKey(app, pk, ch)) else None
       case None => None)
    case _ => None
  }

  /** A wallet request is verified as it comes, an email request once its key is known. */
  predicate MayVerify(p: Proc) {
    if p.request.ByWallet? then p.stage == Received else p.stage.Resolved?
  }

  function Step(w: World, s: State, a: Action): State {
    match a
    case Issue(key, ttl) =>
      if key.ChallengeKey? then
        s.(store := PutChallenge(w.backend, s.store, key, ttl, s.clock), puts := s.puts + multiset{key})
      else s
    case Submit(request) => s.(procs := s.procs + [Proc(request, Received)])
    case Resolve(i) =>
      if i < |s.procs| && s.procs[i].stage == Received && s.procs[i].request.ByEmail? then
        (match GetPublicKeyByEmail(s.store, s.procs[i].request.appId, s.procs[i].request.email)
         case Some(pk) => To(s, i, Resolved(pk))
         case None => To(s, i, Refused))
      else s
    case Verify(i) =>
      if i < |s.procs| && MayVerify(s.procs[i]) then
        (match Proven(w, s, i)
         // The shape is checked before the value can reach a key.
         case Some(key) => To(s, i, if ChallengeShape(key.challenge) then Verified(key) else Refused)
         case None => To(s, i, Refused))
      else s
    case Take(i) =>
      if i < |s.procs| && s.procs[i].stage.Verified? then
        var key := s.procs[i].stage.key;
        var (store, taken) := TakeChallenge(s.store, key, s.clock);
        if taken then To(s, i, Taken).(store := store, takes := s.takes + multiset{key})
        else To(s, i, Refused)
      else s
    case SignIn(i) =>
      if i < |s.procs| && s.procs[i].stage == Taken then To(s, i, SignedIn) else s
    case OtherWrites(records, emails, sessions, limits) =>
      s.(store := s.store.(records := records, emails := emails, sessions := sessions, limits := limits))
    case Tick(ms) => s.(clock := s.clock + ms)
  }

  function Play(w: World, s: State, run: seq<Action>): State {
    if run == [] then s else Step(w, Play(w, s, run[..|run| - 1]), run[|run| - 1])
  }

  predicate Initial(s: State) {
    s.store.challenges == map[] && s.procs == [] && s.puts == multiset{} && s.takes == multiset{}
  }

  // Conservation.

  function Stored(s: State, k: Key): nat {
    if k in s.store.challenges then 1 else 0
  }

  function HasTaken(p: Proc): nat {
    if p.stage == Taken || p.stage == SignedIn then 1 else 0
  }

  function Winners(ps: seq<Proc>): nat {
    if ps == [] then 0 else Winners(ps[..|ps| - 1]) + HasTaken(ps[|ps| - 1])
  }

  function SignIns(ps: seq<Proc>): nat {
    if ps == [] then 0 else SignIns(ps[..|ps| - 1]) + if ps[|ps| - 1].stage == SignedIn then 1 else 0
  }

  lemma {:induction false} SignInsWon(ps: seq<Proc>)
    ensures SignIns(ps) <= Winners(ps)
  {
    if ps != [] { SignInsWon(ps[..|ps| - 1]); }
  }

  lemma {:induction false} WinnersAfter(ps: seq<Proc>, i: nat, p: Proc)
    requires i < |ps|
    ensures Winners(ps[i := p]) + HasTaken(ps[i]) == Winners(ps) + HasTaken(p)
  {
    var front := ps[..|ps| - 1];
    if i < |ps| - 1 {
      assert ps[i := p][..|ps| - 1] == front[i := p];
      WinnersAfter(front, i, p);
    } else {
      assert ps[i := p][..|ps| - 1] == front;
    }
  }

  ghost predicate Conserved(s: State) {
    && (forall k: Key :: s.takes[k] + Stored(s, k) <= s.puts[k])
    && |s.takes| == Winners(s.procs)
  }

  /** A request that moves on without winning or losing a challenge. */
  lemma MoveConserves(s: State, i: nat, stage: Stage)
    requires Conserved(s) && i < |s.procs|
    requires HasTaken(s.procs[i]) == HasTaken(s.procs[i].(stage := stage))
    ensures Conserved(To(s, i, stage))
  {
    WinnersAfter(s.procs, i, s.procs[i].(stage := stage));
    forall k: Key ensures s.takes[k] + Stored(To(s, i, stage), k) <= s.puts[k] {
      assert s.takes[k] + Stored(s, k) <= s.puts[k];
    }
  }

  lemma TakeConserves(w: World, s: State, i: nat)
    requires Conserved(s) && i < |s.procs| && s.procs[i].stage.Verified?
    ensures Conserved(Step(w, s, Take(i)))
  {
    var key := s.procs[i].stage.key;
    if TakeChallenge(s.store, key, s.clock).1 {
      var s' := Step(w, s, Take(i));
      WinnersAfter(s.procs, i, s.procs[i].(stage := Taken));
      assert s'.store.challenges == s.store.challenges - {key};
      forall k: Key ensures s'.takes[k] + Stored(s', k) <= s'.puts[k] {
        assert s.takes[k] + Stored(s, k) <= s.puts[k];
      }
    } else {
      MoveConserves(s, i, Refused);
    }
  }

  lemma IssueConserves(w: World, s: State, key: Key, ttl: int)
    requires Conserved(s) && key.ChallengeKey?
    ensures Conserved(Step(w, s, Issue(key, ttl)))
  {
    var s' := Step(w, s, Issue(key, ttl));
    forall k: Key ensures s'.takes[k] + Stored(s', k) <= s'.puts[k] {
      assert s.takes[k] + Stored(s, k) <= s.puts[k];
    }
  }

  lemma StepConserves(w: World, s: State, a: Action)
    requires Conserved(s)
    ensures Conserved(Step(w, s, a))
  {
    var s' := Step(w, s, a);
    match a
    case Issue(key, ttl) => if key.ChallengeKey? { IssueConserves(w, s, key, ttl); }
    case Submit(request) => assert s'.procs[..|s'.procs| - 1] == s.procs; SameStore(s, s');
    case Resolve(i) => if s' != s { MoveConserves(s, i, s'.procs[i].stage); }
    case Verify(i) => if s' != s { MoveConserves(s, i, s'.procs[i].stage); }
    case Take(i) => if i < |s.procs| && s.procs[i].stage.Verified? { TakeConserves(w, s, i); }
    case SignIn(i) => if s' != s { MoveConserves(s, i, SignedIn); }
    case OtherWrites(_, _, _, _) => SameStore(s, s');
    case Tick(_) => SameStore(s, s');
  }

  lemma SameStore(s: State, s': State)
    requires Conserved(s) && s'.store.challenges == s.store.challenges && s'.puts == s.puts && s'.takes == s.takes
    requires Winners(s'.procs) == Winners(s.procs)
    ensures Conserved(s')
  {
    forall k: Key ensures s'.takes[k] + Stored(s', k) <= s'.puts[k] {
      assert s.takes[k] + Stored(s, k) <= s.puts[k];
    }
  }

  lemma {:induction false} RunConserves(w: World, s: State, run: seq<Action>)
    requires Initial(s)
    ensures Conserved(Play(w, s, run))
  {
    if run != [] {
      RunConserves(w, s, run[..|run| - 1]);
      StepConserves(w, Play(w, s, run[..|run| - 1]), run[|run| - 1]);
    }
  }

  lemma SubmultisetSize(a: multiset<Key>, b: multiset<Key>)
    requires a <= b
    ensures |a| <= |b|
  {
    assert b == a + (b - a);
  }

  /**
   * Single use. In every interleaving a challenge is taken at most as often as it was stored, a
   * challenge still in the store has a take to spare, and sign-ins never exceed challenges issued.
   */
  lemma SingleUse(w: World, s: State, run: seq<Action>, k: Key)
    requires Initial(s)
    ensures var t := Play(w, s, run);
            && t.takes[k] + Stored(t, k) <= t.puts[k]
            && SignIns(t.procs) <= |t.takes| <= |t.puts|
  {
    RunConserves(w, s, run);
    var t := Play(w, s, run);
    SignInsWon(t.procs);
    forall k: Key ensures t.takes[k] <= t.puts[k] {
      assert t.takes[k] + Stored(t, k) <= t.puts[k];
    }
    SubmultisetSize(t.takes, t.puts);
  }

  // Nobody else can burn it.

  /** No request of the run proves possession for `k`, and `k` is not stored afresh. */
  predicate Unproven(w: World, s: State, run: seq<Action>, k: Key)
    decreases run
  {
    run != [] ==>
      && (run[0].Verify? && run[0].proc < |s.procs| ==> Proven(w, s, run[0].proc) != Some(k))
      && (run[0].Issue? ==> run[0].key != k)
      && Unproven(w, Step(w, s, run[0]), run[1..], k)
  }

  predicate NotPending(s: State, k: Key) {
    forall i :: 0 <= i < |s.procs| ==> s.procs[i].stage != Verified(k)
  }

  /** The run as taken one action at a time from the front. */
  function PlayOn(w: World, s: State, run: seq<Action>): State
    decreases run
  {
    if run == [] then s else PlayOn(w, Step(w, s, run[0]), run[1..])
  }

  lemma {:induction false} PlayOnIsPlay(w: World, s: State, run: seq<Action>)
    ensures PlayOn(w, s, run) == Play(w, s, run)
    decreases run
  {
    if run != [] {
      var first, rest := run[0], run[1..];
      PlayOnIsPlay(w, Step(w, s, first), rest);
      PlayFirst(w, s, run);
    }
  }

  lemma {:induction false} PlayFirst(w: World, s: State, run: seq<Action>)
    requires run != []
    ensures Play(w, s, run) == Play(w, Step(w, s, run[0]), run[1..])
  {
    if |run| == 1 {
      assert run[..0] == [] && run[1..] == [];
      assert Play(w, s, run[..0]) == s;
    } else {
      var front := run[..|run| - 1];
      PlayFirst(w, s, front);
      assert front[1..] == run[1..][..|run[1..]| - 1];
      assert run[1..][|run[1..]| - 1] == run[|run| - 1];
    }
  }

  predicate StillStored(s: State, t: State, k: Key) {
    k in s.store.challenges && k in t.store.challenges && t.store.challenges[k] == s.store.challenges[k]
  }

  lemma StepKeepsChallenge(w: World, s: State, a: Action, k: Key)
    requires k in s.store.challenges && NotPending(s, k)
    requires a.Verify? && a.proc < |s.procs| ==> Proven(w, s, a.proc) != Some(k)
    requires a.Issue? ==> a.key != k
    ensures NotPending(Step(w, s, a), k) && StillStored(s, Step(w, s, a), k)
  {
    match a
    case Take(i) => TakeKeepsChallenge(w, s, i, k);
    case Verify(i) => VerifyKeepsChallenge(w, s, i, k);
    case _ =>
  }

  lemma TakeKeepsChallenge(w: World, s: State, i: nat, k: Key)
    requires k in s.store.challenges && NotPending(s, k)
    ensures NotPending(Step(w, s, Take(i)), k) && StillStored(s, Step(w, s, Take(i)), k)
  {
    if i < |s.procs| && s.procs[i].stage.Verified? {
      assert s.procs[i].stage != Verified(k);
    }
  }

  lemma VerifyKeepsChallenge(w: World, s: State, i: nat, k: Key)
    requires k in s.store.challenges && NotPending(s, k) && (i < |s.procs| ==> Proven(w, s, i) != Some(k))
    ensures NotPending(Step(w, s, Verify(i)), k) && StillStored(s, Step(w, s, Verify(i)), k)
  {
  }

  /**
   * A stored challenge cannot be burned by anyone who cannot sign it. However many challenges,
   * logins, connects and registrations others send, it stays exactly as stored, and a take
   * before its deadline succeeds.
   */
  lemma {:induction false} CannotBeBurned(w: World, s: State, run: seq<Action>, k: Key)
    requires k in s.store.challenges && NotPending(s, k) && Unproven(w, s, run, k)
    ensures var t := PlayOn(w, s, run);
            && NotPending(t, k)
            && k in t.store.challenges && t.store.challenges[k] == s.store.challenges[k]
            && (TakeChallenge(t.store, k, t.clock).1 <==> !Expired(s.store.challenges[k], t.clock))
    decreases run
  {
    if run != [] {
      StepKeepsChallenge(w, s, run[0], k);
      CannotBeBurned(w, Step(w, s, run[0]), run[1..], k);
    }
  }
}
