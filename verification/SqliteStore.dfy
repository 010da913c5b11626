/**
 * The SQL store on the SQLite driver. `putUser` is a transaction on the queue; every other call is
 * a plain query on the same connection, and runs inside whatever transaction is open there.
 */
module SqliteStore {
  import opened Wrappers
  import opened AuthTypes
  import opened Keys
  import opened AuthSpec
  import Q = SqliteQueue

  // putUser as a callback, query by query.

  /** What the callback remembers between queries: the holder it read from the email index. */
  datatype Local = Local(holder: Option<string>)

  type Reply = Q.Reply<AuthState, Local>
  type Query = (AuthState, Local) -> Reply
  type Callback = Q.Callback<AuthState, Local>
  type Conn = Q.State<AuthState, Local>
  type Action = Q.Action<AuthState, Local>

  function UpsertRow(user: UserData): Query {
    (a: AuthState, l: Local) => Q.Continue(RowUpserted(a, user), l)
  }

  function RowUpserted(a: AuthState, user: UserData): AuthState {
    a.(records := a.records[Keyed(user) :=
      Record(Some(user.profile), user.authTokenHash, RecordAt(a, Keyed(user)).slots)])
  }

  function UpsertWallet(user: UserData, w: EncryptedWallet): Query {
    (a: AuthState, l: Local) => Q.Continue(PutWalletSlot(a, Keyed(user), w), l)
  }

  function ReadHolder(user: UserData): Query
    requires Truthy(user.profile.email)
  {
    (a: AuthState, l: Local) =>
      Q.Continue(a, Local(if AddressOf(user) in a.emails then Some(a.emails[AddressOf(user)]) else None))
  }

  /** Insert if the index was free, throw if it was another's, and do nothing if it was ours. */
  function InsertClaim(user: UserData): Query
    requires Truthy(user.profile.email)
  {
    (a: AuthState, l: Local) =>
      match l.holder
      case None =>
        if AddressOf(user) in a.emails then Q.Throw
        else Q.Continue(a.(emails := a.emails[AddressOf(user) := user.profile.publicKey]), l)
      case Some(pk) => if pk == user.profile.publicKey then Q.Continue(a, l) else Q.Throw
  }

  function WalletQueries(user: UserData): seq<Query> {
    seq(|user.wallets|, i requires 0 <= i < |user.wallets| => UpsertWallet(user, user.wallets[i]))
  }

  function ClaimQueries(user: UserData): seq<Query> {
    if Truthy(user.profile.email) then [ReadHolder(user), InsertClaim(user)] else []
  }

  function PutUserTx(user: UserData): Callback {
    Q.Callback(Local(None), [UpsertRow(user)] + WalletQueries(user) + ClaimQueries(user))
  }

  /** The state after the row and the first `n` wallets. */
  function Written(a: AuthState, user: UserData, n: nat): AuthState
    requires n <= |user.wallets|
  {
    PutWalletSlots(RowUpserted(a, user), Keyed(user), user.wallets[..n])
  }

  lemma {:induction false} RowAndWallets(user: UserData, a: AuthState, n: nat)
    requires n <= |user.wallets|
    ensures Q.RunQueries(PutUserTx(user), n + 1, a) == Q.Continue(Written(a, user, n), Local(None))
  {
    var cb := PutUserTx(user);
    if n == 0 {
      assert Q.RunQueries(cb, 0, a) == Q.Continue(a, Local(None));
      assert cb.queries[0] == UpsertRow(user);
    } else {
      RowAndWallets(user, a, n - 1);
      assert cb.queries[n] == WalletQueries(user)[n - 1] == UpsertWallet(user, user.wallets[n - 1]);
      assert user.wallets[..n][..n - 1] == user.wallets[..n - 1];
    }
  }

  /** All wallets: the whole record of the abstract write. */
  lemma RecordWritten(user: UserData, a: AuthState)
    ensures Written(a, user, |user.wallets|)
         == a.(records := a.records[Keyed(user) := WrittenRecord(SqlBackend, RecordAt(a, Keyed(user)), user)])
  {
    assert user.wallets[..|user.wallets|] == user.wallets;
    PutWalletSlotsFile(RowUpserted(a, user), Keyed(user), user.wallets);
  }

  /** Run whole, the callback is the abstract write, or throws and leaves nothing. */
  lemma PutUserTxIsPutUser(user: UserData, a: AuthState)
    ensures var r := Q.RunAll(PutUserTx(user), a);
            var (written, wins) := PutUser(SqlBackend, a, user);
            if wins then r.Continue? && r.db == written else r == Q.Throw
  {
    var cb, n := PutUserTx(user), |user.wallets|;
    RowAndWallets(user, a, n);
    RecordWritten(user, a);
    if Truthy(user.profile.email) {
      assert cb.queries[n + 1] == ReadHolder(user) && cb.queries[n + 2] == InsertClaim(user);
      var w := Written(a, user, n);
      var held := if AddressOf(user) in w.emails then Some(w.emails[AddressOf(user)]) else None;
      assert Q.RunQueries(cb, n + 2, a) == ReadHolder(user)(w, Local(None)) == Q.Continue(w, Local(held));
      assert Q.RunAll(cb, a) == Q.RunQueries(cb, n + 3, a) == InsertClaim(user)(w, Local(held));
      if held == Some(user.profile.publicKey) {
        assert a.emails[AddressOf(user) := user.profile.publicKey] == a.emails;
      }
    } else {
      assert |cb.queries| == n + 1;
    }
  }

  // Everybody else: a protocol whose every action is one plain query.

  /** A client of the store: its own state, and what each of its actions does to it and to the store. */
  datatype Protocol<!P, !A> = Protocol(step: (P, AuthState, A) -> (P, AuthState))

  /** `users` are the registrations in arrival order. */
  datatype Host<!P> = Host(conn: Conn, users: seq<UserData>, client: P)

  /** The committed database: what a rollback of the open transaction would leave. */
  function Committed<P>(h: Host<P>): AuthState {
    Q.Base(h.conn)
  }

  datatype Event<!A> =
    | Register(user: UserData)
    | Drive(action: Action)
    | Client(act: A)

  function HostStep<P, A>(proto: Protocol<P, A>, h: Host<P>, e: Event<A>): Host<P> {
    match e
    case Register(user) =>
      h.(conn := Q.Step(h.conn, Q.Arrive(PutUserTx(user))), users := h.users + [user])
    case Drive(a) =>
      if !a.Arrive? && Q.Enabled(h.conn, a) then h.(conn := Q.Step(h.conn, a)) else h
    case Client(a) =>
      var (p, db) := proto.step(h.client, h.conn.db, a);
      h.(client := p, conn := h.conn.(db := db))
  }

  function HostRun<P, A>(proto: Protocol<P, A>, h: Host<P>, run: seq<Event<A>>): Host<P> {
    if run == [] then h else HostStep(proto, HostRun(proto, h, run[..|run| - 1]), run[|run| - 1])
  }

  /** Every client action of the run finds no transaction open. */
  predicate Quiet<P, A>(proto: Protocol<P, A>, h: Host<P>, run: seq<Event<A>>) {
    run != [] ==>
      var front, e := run[..|run| - 1], run[|run| - 1];
      Quiet(proto, h, front) && (e.Client? ==> HostRun(proto, h, front).conn.saved.None?)
  }

  // The store as everybody imagines it: whole registrations and whole actions, one after another.

  datatype Whole<!P> = Whole(store: AuthState, client: P)
  datatype Atom<!A> = Write(user: UserData) | Do(act: A)

  function AtomStep<P, A>(proto: Protocol<P, A>, s: Whole<P>, e: Atom<A>): Whole<P> {
    match e
    case Write(user) => s.(store := PutUser(SqlBackend, s.store, user).0)
    case Do(a) => var (p, db) := proto.step(s.client, s.store, a); Whole(db, p)
  }

  function AtomRun<P, A>(proto: Protocol<P, A>, s: Whole<P>, run: seq<Atom<A>>): Whole<P> {
    if run == [] then s else AtomStep(proto, AtomRun(proto, s, run[..|run| - 1]), run[|run| - 1])
  }

  /** What an event adds to that order: a client action itself, and a registration when it commits. */
  function ImageStep<P, A>(h: Host<P>, e: Event<A>): seq<Atom<A>> {
    match e
    case Client(a) => [Do(a)]
    case Drive(Commit(i, true)) => if Q.Enabled(h.conn, e.action) && i < |h.users| then [Write(h.users[i])] else []
    case _ => []
  }

  function Image<P, A>(proto: Protocol<P, A>, h: Host<P>, run: seq<Event<A>>): seq<Atom<A>> {
    if run == [] then []
    else Image(proto, h, run[..|run| - 1]) + ImageStep(HostRun(proto, h, run[..|run| - 1]), run[|run| - 1])
  }

  /** The registrations are what they are, and the unsettled part of the queue runs on the committed state. */
  ghost predicate HostInv<P>(h: Host<P>) {
    && |h.users| == |h.conn.txs|
    && (forall i :: 0 <= i < |h.users| ==> h.conn.txs[i].cb == PutUserTx(h.users[i]))
    && ConnInv(h.conn)
  }

  ghost predicate ConnInv(c: Conn) {
    Q.Inv(Q.Base(c), Q.Drop(c, Q.Head(c.txs)))
  }

  /** A connection nobody has used yet, on whatever the database holds. */
  lemma FreshHost<P>(db: AuthState, client: P)
    ensures var h := Host(Q.Start(db), [], client);
            HostInv(h) && AtRest(h.conn) && Committed(h) == db
  {
  }

  /** Settled callers can be forgotten: what the rest of the queue runs on is the committed state. */
  lemma Rebase(db0: AuthState, c: Conn)
    requires Q.Inv(db0, c)
    ensures ConnInv(c)
  {
    var h := Q.Head(c.txs);
    var rest := Q.Drop(c, h);
    Q.HeadIs(rest.txs, 0);
    assert rest.txs[..0] == [];
    assert rest.txs != [] ==> rest.txs[0] == c.txs[h];
  }

  /** One step of the queue keeps the invariant. */
  lemma DriveKeeps(c: Conn, a: Action)
    requires ConnInv(c) && Q.Enabled(c, a)
    ensures ConnInv(Q.Step(c, a))
  {
    var n := Q.Head(c.txs);
    var c' := Q.Step(c, a);
    Q.DropStep(c, a, n);
    Q.StepKeepsInv(Q.Base(c), Q.Drop(c, n), Q.Shift(a, n));
    Rebase(Q.Base(c), Q.Drop(c', n));
    HeadsAdd(c', n);
  }

  /** Only a COMMIT that succeeds moves the committed state: to what its callback makes of it, run whole. */
  lemma DriveCommits(c: Conn, a: Action)
    requires ConnInv(c) && Q.Enabled(c, a)
    ensures !(a.Commit? && a.ok) ==> Q.Base(Q.Step(c, a)) == Q.Base(c)
    ensures a.Commit? && a.ok ==>
              Q.RunAll(c.txs[a.tx].cb, Q.Base(c)) == Q.Continue(Q.Base(Q.Step(c, a)), c.txs[a.tx].status.local)
  {
    var n := Q.Head(c.txs);
    var rest := Q.Drop(c, n);
    Q.DropStep(c, a, n);
    if a.Commit? {
      Q.OpenIsHead(Q.Base(c), rest, a.tx - n);
      Q.HeadIs(rest.txs, 0);
    } else if a.Begin? {
      Q.OnlyHeadBegins(Q.Base(c), rest, a.tx - n);
    }
  }

  lemma HeadsAdd(c: Conn, n: nat)
    requires n <= |c.txs| && forall i :: 0 <= i < n ==> Q.Settled(c.txs[i])
    ensures Q.Head(c.txs) == n + Q.Head(c.txs[n..])
    ensures Q.Drop(Q.Drop(c, n), Q.Head(c.txs[n..])) == Q.Drop(c, Q.Head(c.txs))
  {
    var m := Q.Head(c.txs[n..]);
    forall i | 0 <= i < n + m ensures Q.Settled(c.txs[i]) {
      if i >= n { assert c.txs[i] == c.txs[n..][i - n]; }
    }
    assert n + m < |c.txs| ==> c.txs[n + m] == c.txs[n..][m];
    Q.HeadIs(c.txs, n + m);
    assert c.txs[n..][m..] == c.txs[n + m..];
  }

  lemma RegisterKeeps(c: Conn, user: UserData)
    requires ConnInv(c)
    ensures var c' := Q.Step(c, Q.Arrive(PutUserTx(user)));
            ConnInv(c') && Q.Base(c') == Q.Base(c)
  {
    DriveKeeps(c, Q.Arrive(PutUserTx(user)));
    DriveCommits(c, Q.Arrive(PutUserTx(user)));
  }

  /** A plain query between transactions works on the committed state itself. */
  lemma IdleWriteKeeps(c: Conn, db: AuthState)
    requires ConnInv(c) && c.saved.None?
    ensures ConnInv(c.(db := db)) && Q.Base(c.(db := db)) == db
  {
    var rest := Q.Drop(c, Q.Head(c.txs));
    Q.HeadIs(rest.txs, 0);
    assert rest.txs[..0] == [];
  }

  /** What an event does to the committed state and the client is what it adds to the atomic order. */
  ghost predicate Follows<P, A>(proto: Protocol<P, A>, h: Host<P>, e: Event<A>) {
    var h' := HostStep(proto, h, e);
    AtomRun(proto, Whole(Committed(h), h.client), ImageStep(h, e)) == Whole(Committed(h'), h'.client)
  }

  lemma ClientKeeps<P, A>(proto: Protocol<P, A>, h: Host<P>, a: A)
    requires HostInv(h) && h.conn.saved.None?
    ensures HostInv(HostStep(proto, h, Client(a))) && Follows(proto, h, Client(a))
  {
    IdleWriteKeeps(h.conn, HostStep(proto, h, Client(a)).conn.db);
    OneAtom(proto, Whole(Committed(h), h.client), Do(a));
  }

  lemma QueueKeeps<P, A>(proto: Protocol<P, A>, h: Host<P>, a: Action)
    requires HostInv(h) && Q.Enabled(h.conn, a) && !a.Arrive?
    ensures HostInv(HostStep(proto, h, Drive(a))) && Follows(proto, h, Drive(a))
  {
    DriveKeeps(h.conn, a);
    DriveCommits(h.conn, a);
    SameCallbacks(h.conn, a);
    if a.Commit? && a.ok {
      PutUserTxIsPutUser(h.users[a.tx], Committed(h));
      OneAtom(proto, Whole(Committed(h), h.client), Write(h.users[a.tx]));
    }
  }

  lemma EventKeeps<P, A>(proto: Protocol<P, A>, h: Host<P>, e: Event<A>)
    requires HostInv(h) && (e.Client? ==> h.conn.saved.None?)
    ensures HostInv(HostStep(proto, h, e)) && Follows(proto, h, e)
  {
    match e
    case Register(user) => RegisterKeeps(h.conn, user);
    case Client(a) => ClientKeeps(proto, h, a);
    case Drive(a) => if !a.Arrive? && Q.Enabled(h.conn, a) { QueueKeeps(proto, h, a); }
  }

  lemma OneAtom<P, A>(proto: Protocol<P, A>, s: Whole<P>, e: Atom<A>)
    ensures AtomRun(proto, s, [e]) == AtomStep(proto, s, e)
  {
    assert [e][..0] == [];
    assert AtomRun(proto, s, [e][..0]) == s;
  }

  lemma SameCallbacks(c: Conn, a: Action)
    requires Q.Enabled(c, a) && !a.Arrive?
    ensures var c' := Q.Step(c, a);
            |c'.txs| == |c.txs| && forall i :: 0 <= i < |c.txs| ==> c'.txs[i].cb == c.txs[i].cb
  {
  }

  lemma {:induction false} AtomRunJoin<P, A>(proto: Protocol<P, A>, s: Whole<P>, x: seq<Atom<A>>, y: seq<Atom<A>>)
    ensures AtomRun(proto, s, x + y) == AtomRun(proto, AtomRun(proto, s, x), y)
  {
    if y == [] {
      assert x + y == x;
    } else {
      assert (x + y)[..|x + y| - 1] == x + y[..|y| - 1];
      AtomRunJoin(proto, s, x, y[..|y| - 1]);
    }
  }

  /**
   * A quiet run is atomic. If no client action finds a transaction open, then whatever the clients
   * are, and however registrations interleave with them and with each other, every client is
   * where whole actions and whole registrations, one after the other, would have brought it, and so
   * is the committed database.
   */
  lemma {:induction false} QuietIsAtomic<P, A>(proto: Protocol<P, A>, h: Host<P>, run: seq<Event<A>>)
    requires HostInv(h) && Quiet(proto, h, run)
    ensures var end := HostRun(proto, h, run);
            && HostInv(end)
            && AtomRun(proto, Whole(Committed(h), h.client), Image(proto, h, run))
               == Whole(Committed(end), end.client)
  {
    if run != [] {
      var front, e := run[..|run| - 1], run[|run| - 1];
      QuietIsAtomic(proto, h, front);
      var mid := HostRun(proto, h, front);
      EventKeeps(proto, mid, e);
      AtomRunJoin(proto, Whole(Committed(h), h.client), Image(proto, h, front), ImageStep(mid, e));
    }
  }

  // The exact condition.

  /** What a client action does to the database. */
  function Effect<P, A>(proto: Protocol<P, A>, client: P, a: A): AuthState -> AuthState {
    (db: AuthState) => proto.step(client, db, a).1
  }

  /**
   * The action has its place in history in every continuation: the database is the registrations
   * that had not settled, run whole on top of what the action left.
   */
  ghost predicate Stands<P, A>(proto: Protocol<P, A>, h: Host<P>, a: A) {
    forall more: seq<Action> ::
      Q.Placed(Q.Drop(h.conn, Q.Head(h.conn.txs)), Effect(proto, h.client, a), more)
  }

  /** It leaves the database other than a rollback would. */
  ghost predicate Matters<P, A>(proto: Protocol<P, A>, h: Host<P>, a: A) {
    h.conn.saved != Some(Effect(proto, h.client, a)(h.conn.db))
  }

  /** One action, exactly: it stands in every continuation iff it finds no transaction open. */
  lemma StandsExactly<P, A>(proto: Protocol<P, A>, h: Host<P>, a: A)
    requires HostInv(h) && Matters(proto, h, a)
    ensures Stands(proto, h, a) <==> h.conn.saved.None?
  {
    var base, rest, w := Committed(h), Q.Drop(h.conn, Q.Head(h.conn.txs)), Effect(proto, h.client, a);
    Q.PlainWriteSafeExactly(base, rest, w);
    if h.conn.saved.None? {
      forall more: seq<Action> ensures Q.Placed(rest, w, more) { Q.PlainWriteKept(base, rest, w, more); }
    } else {
      var more: seq<Action> :| !Q.Placed(rest, w, more);
    }
  }

  ghost predicate AllStand<P, A>(proto: Protocol<P, A>, h: Host<P>, run: seq<Event<A>>) {
    run != [] ==>
      var front, e := run[..|run| - 1], run[|run| - 1];
      AllStand(proto, h, front) && (e.Client? ==> Stands(proto, HostRun(proto, h, front), e.act))
  }

  ghost predicate AllMatter<P, A>(proto: Protocol<P, A>, h: Host<P>, run: seq<Event<A>>) {
    run != [] ==>
      var front, e := run[..|run| - 1], run[|run| - 1];
      AllMatter(proto, h, front) && (e.Client? ==> Matters(proto, HostRun(proto, h, front), e.act))
  }

  /**
   * Whole runs, exactly. Every client action of a run has its place in history, in every
   * continuation from where it was made, if and only if the run is quiet.
   */
  lemma {:induction false} QuietExactly<P, A>(proto: Protocol<P, A>, h: Host<P>, run: seq<Event<A>>)
    requires HostInv(h) && AllMatter(proto, h, run)
    ensures AllStand(proto, h, run) <==> Quiet(proto, h, run)
  {
    if run != [] {
      var front, e := run[..|run| - 1], run[|run| - 1];
      QuietExactly(proto, h, front);
      if Quiet(proto, h, front) {
        QuietIsAtomic(proto, h, front);
        if e.Client? { StandsExactly(proto, HostRun(proto, h, front), e.act); }
      }
    }
  }

  // The failing input: two racing registrations of one email, and a call in between.

  lemma {:induction false} HostRunJoin<P, A>(proto: Protocol<P, A>, h: Host<P>, x: seq<Event<A>>, y: seq<Event<A>>)
    ensures HostRun(proto, h, x + y) == HostRun(proto, HostRun(proto, h, x), y)
  {
    if y == [] {
      assert x + y == x;
    } else {
      assert (x + y)[..|x + y| - 1] == x + y[..|y| - 1];
      HostRunJoin(proto, h, x, y[..|y| - 1]);
    }
  }

  lemma OneEvent<P, A>(proto: Protocol<P, A>, h: Host<P>, e: Event<A>)
    ensures HostRun(proto, h, [e]) == HostStep(proto, h, e)
  {
    assert [e][..0] == [];
    assert HostRun(proto, h, [e][..0]) == h;
  }

  /** `n` more queries of transaction `i`. */
  function Queries<A>(i: nat, n: nat): seq<Event<A>> {
    if n == 0 then [] else [Drive(Q.Query(i))] + Queries(i, n - 1)
  }

  /** The address is another's. */
  predicate Taken(a: AuthState, user: UserData) {
    && Truthy(user.profile.email) && AddressOf(user) in a.emails
    && a.emails[AddressOf(user)] != user.profile.publicKey
  }

  /** Past its first query, and about to find or having found the address taken. */
  ghost predicate Doomed(c: Conn, i: nat, user: UserData) {
    && Q.Open(c, i) && c.txs[i].cb == PutUserTx(user) && Taken(c.db, user)
    && 1 <= c.txs[i].status.next <= |user.wallets| + 2
    && (c.txs[i].status.next == |user.wallets| + 2 ==>
          c.txs[i].status.local.holder == Some(c.db.emails[AddressOf(user)]))
  }

  /** The queries behind the row: the wallets, the read and the claim. */
  lemma QueryAt(user: UserData, k: nat)
    requires Truthy(user.profile.email) && 1 <= k <= |user.wallets| + 2
    ensures |PutUserTx(user).queries| == |user.wallets| + 3
    ensures PutUserTx(user).queries[k]
         == if k <= |user.wallets| then UpsertWallet(user, user.wallets[k - 1])
            else if k == |user.wallets| + 1 then ReadHolder(user)
            else InsertClaim(user)
  {
    if k <= |user.wallets| { assert PutUserTx(user).queries[k] == WalletQueries(user)[k - 1]; }
  }

  /** A doomed registration goes on until its last query throws. */
  lemma DoomedStep(c: Conn, i: nat, user: UserData)
    requires Doomed(c, i, user)
    ensures Q.Enabled(c, Q.Query(i))
    ensures var c' := Q.Step(c, Q.Query(i));
            var k := c.txs[i].status.next;
            if k == |user.wallets| + 2 then c' == Q.RollBack(c, i)
            else Doomed(c', i, user) && c'.txs[i].status.next == k + 1 && Q.RollBack(c', i) == Q.RollBack(c, i)
  {
    QueryAt(user, c.txs[i].status.next);
    var c' := Q.Step(c, Q.Query(i));
    if Q.Open(c', i) { assert Q.Mark(c'.txs, i, Q.Failed) == Q.Mark(c.txs, i, Q.Failed); }
  }

  /** The connection after `n` more queries of transaction `i`. */
  function Queried(c: Conn, i: nat, n: nat): Conn
    decreases n
  {
    if n == 0 then c else Queried(if Q.Enabled(c, Q.Query(i)) then Q.Step(c, Q.Query(i)) else c, i, n - 1)
  }

  lemma {:induction false} QueriesRun<P, A>(proto: Protocol<P, A>, h: Host<P>, i: nat, n: nat)
    ensures HostRun(proto, h, Queries(i, n)) == h.(conn := Queried(h.conn, i, n))
    decreases n
  {
    if n > 0 {
      var e: Event<A> := Drive(Q.Query(i));
      HostRunJoin(proto, h, [e], Queries(i, n - 1));
      OneEvent(proto, h, e);
      QueriesRun(proto, HostStep(proto, h, e), i, n - 1);
    }
  }

  /** Query by query the doomed registration ends in a rollback, and the database is as at its BEGIN. */
  lemma {:induction false} DoomedRollsBack(c: Conn, i: nat, user: UserData)
    requires Doomed(c, i, user)
    ensures Queried(c, i, |user.wallets| + 3 - c.txs[i].status.next) == Q.RollBack(c, i)
    decreases |user.wallets| + 3 - c.txs[i].status.next
  {
    DoomedStep(c, i, user);
    if c.txs[i].status.next < |user.wallets| + 2 { DoomedRollsBack(Q.Step(c, Q.Query(i)), i, user); }
  }

  /** A registration arrives, begins, writes its row, and is suspended. */
  function Opening<A>(i: nat, user: UserData): seq<Event<A>> {
    [Register(user), Drive(Q.Begin(i, true)), Drive(Q.Query(i))]
  }

  /** It is suspended while a client acts, and then runs to its end. */
  function Overlap<A>(i: nat, user: UserData, a: A): seq<Event<A>> {
    Opening(i, user) + ([Client(a)] + Queries(i, |user.wallets| + 2))
  }

  predicate AtRest(c: Conn) {
    c.saved.None? && forall i :: 0 <= i < |c.txs| ==> Q.Settled(c.txs[i])
  }

  /** The connection with that registration suspended. */
  function SuspendedConn(c: Conn, user: UserData): Conn {
    Q.State(RowUpserted(c.db, user), Some(c.db), c.txs + [Q.Tx(PutUserTx(user), Q.Running(1, Local(None)))])
  }

  lemma Suspended<P, A>(proto: Protocol<P, A>, h: Host<P>, user: UserData)
    requires AtRest(h.conn)
    ensures HostRun(proto, h, Opening(|h.conn.txs|, user))
         == Host(SuspendedConn(h.conn, user), h.users + [user], h.client)
  {
    var i := |h.conn.txs|;
    var e1: Event<A>, e2: Event<A>, e3: Event<A> := Register(user), Drive(Q.Begin(i, true)), Drive(Q.Query(i));
    var h1 := HostStep(proto, h, e1);
    var h2 := HostStep(proto, h1, e2);
    assert [e1, e2, e3] == [e1] + ([e2] + [e3]);
    HostRunJoin(proto, h, [e1], [e2] + [e3]);
    HostRunJoin(proto, h1, [e2], [e3]);
    OneEvent(proto, h, e1);
    OneEvent(proto, h1, e2);
    OneEvent(proto, h2, e3);
    assert i > 0 ==> h1.conn.txs[i - 1] == h.conn.txs[i - 1];
    assert PutUserTx(user).queries[0] == UpsertRow(user);
    assert HostStep(proto, h2, e3).conn.txs == SuspendedConn(h.conn, user).txs;
  }

  lemma OverlapRuns<P, A>(proto: Protocol<P, A>, h: Host<P>, user: UserData, a: A)
    requires AtRest(h.conn)
    ensures var i := |h.conn.txs|;
            var (p, db) := proto.step(h.client, RowUpserted(h.conn.db, user), a);
            HostRun(proto, h, Overlap(i, user, a))
            == HostRun(proto, Host(SuspendedConn(h.conn, user).(db := db), h.users + [user], p),
                       Queries(i, |user.wallets| + 2))
  {
    var i := |h.conn.txs|;
    var head: seq<Event<A>>, tail: seq<Event<A>> := Opening(i, user), Queries(i, |user.wallets| + 2);
    HostRunJoin(proto, h, head, [Client(a)] + tail);
    Suspended(proto, h, user);
    HostRunJoin(proto, HostRun(proto, h, head), [Client(a)], tail);
    OneEvent(proto, HostRun(proto, h, head), Client(a));
  }

  /**
   * The failing input. Whatever a client does while a registration that will lose its email is
   * suspended, as long as it leaves the email index alone: the client has its answer, and the
   * database is as if it had done nothing.
   */
  lemma Undone<P, A>(proto: Protocol<P, A>, h: Host<P>, user: UserData, a: A)
    requires AtRest(h.conn) && Taken(h.conn.db, user)
    requires proto.step(h.client, RowUpserted(h.conn.db, user), a).1.emails == h.conn.db.emails
    ensures var end := HostRun(proto, h, Overlap(|h.conn.txs|, user, a));
            && AtRest(end.conn) && end.conn.db == h.conn.db
            && end.client == proto.step(h.client, RowUpserted(h.conn.db, user), a).0
  {
    var i := |h.conn.txs|;
    var (p, db) := proto.step(h.client, RowUpserted(h.conn.db, user), a);
    OverlapRuns(proto, h, user, a);
    var c := SuspendedConn(h.conn, user).(db := db);
    QueriesRun(proto, Host(c, h.users + [user], p), i, |user.wallets| + 2);
    DoomedRollsBack(c, i, user);
  }

  /** It takes no more than two registrations of one email: the second one's address is taken. */
  lemma RacingRegistrations(a: AuthState, first: UserData, second: UserData)
    requires Truthy(first.profile.email) && Truthy(second.profile.email) && AddressOf(first) == AddressOf(second)
    requires first.profile.publicKey != second.profile.publicKey && MayClaim(a, first)
    ensures Taken(PutUser(SqlBackend, a, first).0, second)
  {
  }
}
