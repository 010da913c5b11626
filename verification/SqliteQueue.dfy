/**
 * The SQLite driver's transaction queue: one shared connection, callbacks that suspend at every
 * query, and a promise chain that starts each transaction when the one before it has settled.
 */
module SqliteQueue {
  import opened Wrappers

  /** What one query of a callback does to the database and to the callback's own state. */
  datatype Reply<D, L> = Continue(db: D, local: L) | Throw

  /** A transaction callback: between two awaits it runs one query through its handle. */
  datatype Callback<!D, !L> = Callback(start: L, queries: seq<(D, L) -> Reply<D, L>>)

  datatype Status<L> =
    | Waiting
    | Running(next: nat, local: L)
    | Committed(result: L)
    | Failed

  datatype Tx<!D, !L> = Tx(cb: Callback<D, L>, status: Status<L>)

  /** `saved` is the database at the open BEGIN, if one is open on the connection. */
  datatype State<!D, !L> = State(db: D, saved: Option<D>, txs: seq<Tx<D, L>>)

  /**
   * One thing that can happen between two awaits. Whether BEGIN and COMMIT succeed is up to the
   * environment; whether a query throws is up to the callback.
   */
  datatype Action<!D, !L> =
    | Arrive(cb: Callback<D, L>)
    | Begin(tx: nat, ok: bool)
    | Query(tx: nat)
    | Commit(tx: nat, ok: bool)

  predicate Settled<D, L>(t: Tx<D, L>) {
    t.status.Committed? || t.status.Failed?
  }

  /** The chained promise fires: the caller is next and its predecessor has settled either way. */
  predicate MayBegin<D, L>(s: State<D, L>, i: nat) {
    i < |s.txs| && s.txs[i].status.Waiting? && (i > 0 ==> Settled(s.txs[i - 1]))
  }

  predicate Open<D, L>(s: State<D, L>, i: nat) {
    i < |s.txs| && s.txs[i].status.Running? && s.saved.Some?
  }

  predicate Enabled<D, L>(s: State<D, L>, a: Action<D, L>) {
    match a
    case Arrive(_) => true
    case Begin(i, _) => MayBegin(s, i)
    case Query(i) => Open(s, i) && s.txs[i].status.next < |s.txs[i].cb.queries|
    case Commit(i, _) => Open(s, i) && s.txs[i].status.next == |s.txs[i].cb.queries|
  }

  function Mark<D, L>(txs: seq<Tx<D, L>>, i: nat, status: Status<L>): seq<Tx<D, L>>
    requires i < |txs|
  {
    txs[i := txs[i].(status := status)]
  }

  function RollBack<D, L>(s: State<D, L>, i: nat): State<D, L>
    requires Open(s, i)
  {
    State(s.saved.value, None, Mark(s.txs, i, Failed))
  }

  function Step<D, L>(s: State<D, L>, a: Action<D, L>): State<D, L>
    requires Enabled(s, a)
  {
    match a
    case Arrive(cb) => s.(txs := s.txs + [Tx(cb, Waiting)])
    case Begin(i, ok) =>
      // A BEGIN inside an open transaction is an error on this connection, like any failing BEGIN.
      if !ok || s.saved.Some? then s.(txs := Mark(s.txs, i, Failed))
      else State(s.db, Some(s.db), Mark(s.txs, i, Running(0, s.txs[i].cb.start)))
    case Query(i) =>
      var t := s.txs[i];
      (match t.cb.queries[t.status.next](s.db, t.status.local)
       case Continue(db, local) => State(db, s.saved, Mark(s.txs, i, Running(t.status.next + 1, local)))
       case Throw => RollBack(s, i))
    case Commit(i, ok) =>
      if ok then State(s.db, None, Mark(s.txs, i, Committed(s.txs[i].status.local))) else RollBack(s, i)
  }

  /** A schedule: any interleaving of arrivals and steps. An action that is not enabled does not happen. */
  function Play<D, L>(s: State<D, L>, run: seq<Action<D, L>>): State<D, L> {
    if run == [] then s
    else
      var before := Play(s, run[..|run| - 1]);
      var a := run[|run| - 1];
      if Enabled(before, a) then Step(before, a) else before
  }

  function Start<D, L>(db: D): State<D, L> {
    State(db, None, [])
  }

  // The serial reference: whole callbacks, one after another.

  function RunQueries<D, L>(cb: Callback<D, L>, n: nat, db: D): Reply<D, L>
    requires n <= |cb.queries|
  {
    if n == 0 then Continue(db, cb.start)
    else
      match RunQueries(cb, n - 1, db)
      case Continue(d, l) => cb.queries[n - 1](d, l)
      case Throw => Throw
  }

  function RunAll<D, L>(cb: Callback<D, L>, db: D): Reply<D, L> {
    RunQueries(cb, |cb.queries|, db)
  }

  /** The committed callbacks in arrival order, each run whole; the others contribute nothing. */
  function Serial<D, L>(db0: D, txs: seq<Tx<D, L>>): D {
    if txs == [] then db0
    else
      var db := Serial(db0, txs[..|txs| - 1]);
      var last := txs[|txs| - 1];
      match RunAll(last.cb, db)
      case Continue(d, _) => if last.status.Committed? then d else db
      case Throw => db
  }

  /** Every committed caller received exactly what its callback returns in the serial run. */
  ghost predicate ResultsSerial<D, L>(db0: D, txs: seq<Tx<D, L>>) {
    forall i :: 0 <= i < |txs| && txs[i].status.Committed? ==>
      RunAll(txs[i].cb, Serial(db0, txs[..i])) == Continue(Serial(db0, txs[..i + 1]), txs[i].status.result)
  }

  /** The first caller that has not settled. */
  function Head<D, L>(txs: seq<Tx<D, L>>): (h: nat)
    ensures h <= |txs|
    ensures forall i :: 0 <= i < h ==> Settled(txs[i])
    ensures h < |txs| ==> !Settled(txs[h])
  {
    if txs == [] || !Settled(txs[0]) then 0 else 1 + Head(txs[1..])
  }

  ghost predicate Inv<D, L>(db0: D, s: State<D, L>) {
    var h := Head(s.txs);
    && (forall i :: h < i < |s.txs| ==> s.txs[i].status.Waiting?)
    && ResultsSerial(db0, s.txs)
    && (s.saved.Some? <==> h < |s.txs| && s.txs[h].status.Running?)
    && (s.saved.None? ==> s.db == Serial(db0, s.txs[..h]))
    && (s.saved.Some? ==>
         && s.saved.value == Serial(db0, s.txs[..h])
         && s.txs[h].status.next <= |s.txs[h].cb.queries|
         && RunQueries(s.txs[h].cb, s.txs[h].status.next, s.saved.value) == Continue(s.db, s.txs[h].status.local))
  }

  lemma {:induction false} SerialWaiting<D, L>(db0: D, txs: seq<Tx<D, L>>, h: nat)
    requires h <= |txs| && forall i :: h <= i < |txs| ==> !txs[i].status.Committed?
    ensures Serial(db0, txs) == Serial(db0, txs[..h])
  {
    if h < |txs| {
      SerialWaiting(db0, txs[..|txs| - 1], h);
      assert txs[..|txs| - 1][..h] == txs[..h];
    } else {
      assert txs[..h] == txs;
    }
  }

  lemma HeadIs<D, L>(txs: seq<Tx<D, L>>, h: nat)
    requires h <= |txs| && (forall i :: 0 <= i < h ==> Settled(txs[i])) && (h < |txs| ==> !Settled(txs[h]))
    ensures Head(txs) == h
  {
  }

  /** Settling the head keeps every earlier result and adds its own. */
  lemma SettleHead<D, L>(db0: D, txs: seq<Tx<D, L>>, h: nat, status: Status<L>)
    requires h < |txs| && ResultsSerial(db0, txs) && forall i :: h <= i < |txs| ==> !txs[i].status.Committed?
    requires status.Committed? ==>
               RunAll(txs[h].cb, Serial(db0, txs[..h])).Continue?
               && RunAll(txs[h].cb, Serial(db0, txs[..h])).local == status.result
    ensures var txs' := Mark(txs, h, status);
            && ResultsSerial(db0, txs')
            && txs'[..h] == txs[..h]
            && Serial(db0, txs'[..h + 1])
               == if status.Committed? then RunAll(txs[h].cb, Serial(db0, txs[..h])).db else Serial(db0, txs[..h])
  {
    var txs' := Mark(txs, h, status);
    assert txs'[..h] == txs[..h];
    assert txs'[..h + 1] == txs[..h] + [txs'[h]];
    assert txs'[..h + 1][..h] == txs[..h];
    forall i | 0 <= i < |txs'| && txs'[i].status.Committed?
      ensures RunAll(txs'[i].cb, Serial(db0, txs'[..i])) == Continue(Serial(db0, txs'[..i + 1]), txs'[i].status.result)
    {
      if i < h {
        assert txs'[..i] == txs[..i] && txs'[..i + 1] == txs[..i + 1];
      }
    }
  }

  lemma StepKeepsInv<D, L>(db0: D, s: State<D, L>, a: Action<D, L>)
    requires Inv(db0, s) && Enabled(s, a)
    ensures Inv(db0, Step(s, a))
  {
    match a
    case Arrive(cb) => ArriveKeepsInv(db0, s, cb);
    case Begin(i, ok) => BeginKeepsInv(db0, s, i, ok);
    case Query(i) => QueryKeepsInv(db0, s, i);
    case Commit(i, ok) => CommitKeepsInv(db0, s, i, ok);
  }

  lemma ArriveKeepsInv<D, L>(db0: D, s: State<D, L>, cb: Callback<D, L>)
    requires Inv(db0, s)
    ensures Inv(db0, Step(s, Arrive(cb)))
  {
    var h := Head(s.txs);
    var txs := s.txs + [Tx(cb, Waiting)];
    HeadIs(txs, h);
    assert txs[..h] == s.txs[..h];
    forall i | 0 <= i < |txs| && txs[i].status.Committed?
      ensures RunAll(txs[i].cb, Serial(db0, txs[..i])) == Continue(Serial(db0, txs[..i + 1]), txs[i].status.result)
    {
      assert txs[..i] == s.txs[..i] && txs[..i + 1] == s.txs[..i + 1];
    }
  }

  /** Only the head may begin, and only when the connection is idle. */
  lemma OnlyHeadBegins<D, L>(db0: D, s: State<D, L>, i: nat)
    requires Inv(db0, s) && MayBegin(s, i)
    ensures i == Head(s.txs) && s.saved.None?
  {
    var h := Head(s.txs);
    assert i > 0 ==> i - 1 <= h;
  }

  lemma BeginKeepsInv<D, L>(db0: D, s: State<D, L>, i: nat, ok: bool)
    requires Inv(db0, s) && MayBegin(s, i)
    ensures Inv(db0, Step(s, Begin(i, ok)))
  {
    OnlyHeadBegins(db0, s, i);
    if ok {
      var status := Running(0, s.txs[i].cb.start);
      SettleHead(db0, s.txs, i, status);
      HeadIs(Mark(s.txs, i, status), i);
    } else {
      FailedHead(db0, s, i, s.db);
    }
  }

  /** A failed head leaves the database where the serial run stands. */
  lemma FailedHead<D, L>(db0: D, s: State<D, L>, i: nat, db: D)
    requires Inv(db0, s) && i == Head(s.txs) && i < |s.txs| && db == Serial(db0, s.txs[..i])
    ensures Inv(db0, State(db, None, Mark(s.txs, i, Failed)))
  {
    var txs := Mark(s.txs, i, Failed);
    SettleHead(db0, s.txs, i, Failed);
    NextHead(txs, i);
  }

  lemma NextHead<D, L>(txs: seq<Tx<D, L>>, i: nat)
    requires i < |txs| && forall j :: 0 <= j <= i ==> Settled(txs[j])
    requires forall j :: i < j < |txs| ==> txs[j].status.Waiting?
    ensures Head(txs) == i + 1
  {
    HeadIs(txs, i + 1);
  }

  lemma OpenIsHead<D, L>(db0: D, s: State<D, L>, i: nat)
    requires Inv(db0, s) && Open(s, i)
    ensures i == Head(s.txs)
  {
  }

  lemma QueryKeepsInv<D, L>(db0: D, s: State<D, L>, i: nat)
    requires Inv(db0, s) && Enabled(s, Query(i))
    ensures Inv(db0, Step(s, Query(i)))
  {
    OpenIsHead(db0, s, i);
    var t := s.txs[i];
    match t.cb.queries[t.status.next](s.db, t.status.local)
    case Continue(db, local) => ContinueKeepsInv(db0, s, i, db, local);
    case Throw => FailedHead(db0, s, i, s.saved.value);
  }

  lemma ContinueKeepsInv<D, L>(db0: D, s: State<D, L>, i: nat, db: D, local: L)
    requires Inv(db0, s) && Enabled(s, Query(i)) && i == Head(s.txs)
    requires s.txs[i].cb.queries[s.txs[i].status.next](s.db, s.txs[i].status.local) == Continue(db, local)
    ensures Inv(db0, State(db, s.saved, Mark(s.txs, i, Running(s.txs[i].status.next + 1, local))))
  {
    var t := s.txs[i];
    var status := Running(t.status.next + 1, local);
    SettleHead(db0, s.txs, i, status);
    HeadIs(Mark(s.txs, i, status), i);
    assert RunQueries(t.cb, t.status.next + 1, s.saved.value) == Continue(db, local);
  }

  lemma CommitKeepsInv<D, L>(db0: D, s: State<D, L>, i: nat, ok: bool)
    requires Inv(db0, s) && Enabled(s, Commit(i, ok))
    ensures Inv(db0, Step(s, Commit(i, ok)))
  {
    OpenIsHead(db0, s, i);
    if ok {
      var status := Committed(s.txs[i].status.local);
      SettleHead(db0, s.txs, i, status);
      NextHead(Mark(s.txs, i, status), i);
    } else {
      FailedHead(db0, s, i, s.saved.value);
    }
  }

  lemma {:induction false} Reachable<D, L>(db0: D, run: seq<Action<D, L>>)
    ensures Inv(db0, Play(Start(db0), run))
  {
    if run != [] {
      Reachable(db0, run[..|run| - 1]);
      var before := Play(Start(db0), run[..|run| - 1]);
      if Enabled(before, run[|run| - 1]) { StepKeepsInv(db0, before, run[|run| - 1]); }
    }
  }

  /**
   * Serial equivalence. Under every interleaving, whenever no transaction is open the database is
   * what the committed callbacks produce run whole and one after another in arrival order, and
   * each committed caller was answered as in that serial run.
   */
  lemma SerialEquivalence<D, L>(db0: D, run: seq<Action<D, L>>)
    ensures var s := Play(Start(db0), run);
            && (s.saved.None? ==> s.db == Serial(db0, s.txs))
            && (s.saved.Some? ==> s.saved.value == Serial(db0, s.txs))
            && ResultsSerial(db0, s.txs)
  {
    Reachable(db0, run);
    var s := Play(Start(db0), run);
    SerialWaiting(db0, s.txs, Head(s.txs));
  }

  /** BEGINs never nest. */
  lemma NoNestedBegin<D, L>(db0: D, run: seq<Action<D, L>>, i: nat)
    ensures var s := Play(Start(db0), run); MayBegin(s, i) ==> s.saved.None?
  {
    Reachable(db0, run);
    var s := Play(Start(db0), run);
    if MayBegin(s, i) { OnlyHeadBegins(db0, s, i); }
  }

  /** How far the queue still has to go: queries left, BEGINs and COMMITs included. */
  function Work<D, L>(txs: seq<Tx<D, L>>): nat {
    if txs == [] then 0 else WorkOf(txs[0]) + Work(txs[1..])
  }

  function WorkOf<D, L>(t: Tx<D, L>): nat {
    match t.status
    case Waiting => |t.cb.queries| + 2
    case Running(next, _) => if next <= |t.cb.queries| then |t.cb.queries| - next + 1 else 1
    case _ => 0
  }

  lemma {:induction false} MarkedWork<D, L>(txs: seq<Tx<D, L>>, i: nat, status: Status<L>)
    requires i < |txs| && WorkOf(txs[i].(status := status)) < WorkOf(txs[i])
    ensures Work(Mark(txs, i, status)) < Work(txs)
  {
    if i > 0 {
      MarkedWork(txs[1..], i - 1, status);
      assert Mark(txs, i, status)[1..] == Mark(txs[1..], i - 1, status);
    } else {
      assert Mark(txs, i, status)[1..] == txs[1..];
    }
  }

  /** The step the head of the queue can take. */
  function HeadStep<D, L>(s: State<D, L>, ok: bool): Action<D, L>
    requires Head(s.txs) < |s.txs|
  {
    var h := Head(s.txs);
    match s.txs[h].status
    case Running(next, _) => if next < |s.txs[h].cb.queries| then Query(h) else Commit(h, ok)
    case _ => Begin(h, ok)
  }

  /**
   * Failures never block later callers: while anyone is unsettled the head can step, however BEGIN
   * and COMMIT turn out, and every step brings the queue strictly closer to empty.
   */
  lemma QueueDrains<D, L>(db0: D, run: seq<Action<D, L>>, ok: bool)
    ensures var s := Play(Start(db0), run);
            Head(s.txs) < |s.txs| ==>
              && Enabled(s, HeadStep(s, ok))
              && Work(Step(s, HeadStep(s, ok)).txs) < Work(s.txs)
  {
    Reachable(db0, run);
    var s := Play(Start(db0), run);
    var h := Head(s.txs);
    if h < |s.txs| {
      var s' := Step(s, HeadStep(s, ok));
      MarkedWork(s.txs, h, s'.txs[h].status);
      assert s'.txs == Mark(s.txs, h, s'.txs[h].status);
    }
  }

  // A write through the plain driver, beside the queue.

  function PlainWrite<D, L>(s: State<D, L>, w: D -> D): State<D, L> {
    s.(db := w(s.db))
  }

  /** The committed state of the database: what a rollback of the open transaction would leave. */
  function Base<D, L>(s: State<D, L>): D {
    if s.saved.Some? then s.saved.value else s.db
  }

  /**
   * After the run the write has its place in the serial order: the database is the committed
   * callbacks that had not settled when it was made, run whole on top of it.
   */
  ghost predicate Placed<D, L>(s: State<D, L>, w: D -> D, run: seq<Action<D, L>>) {
    var t := Play(PlainWrite(s, w), run);
    |t.txs| >= Head(s.txs) && Base(t) == Serial(w(s.db), t.txs[Head(s.txs)..])
  }

  /** The queue without its first `n` callers. */
  function Drop<D, L>(s: State<D, L>, n: nat): State<D, L>
    requires n <= |s.txs|
  {
    s.(txs := s.txs[n..])
  }

  function Shift<D, L>(a: Action<D, L>, n: nat): Action<D, L> {
    match a
    case Arrive(cb) => a
    case Begin(i, ok) => Begin(if i >= n then i - n else 0, ok)
    case Query(i) => Query(if i >= n then i - n else 0)
    case Commit(i, ok) => Commit(if i >= n then i - n else 0, ok)
  }

  predicate Concerns<D, L>(a: Action<D, L>, n: nat) {
    match a
    case Arrive(_) => true
    case Begin(i, _) => i >= n
    case Query(i) => i >= n
    case Commit(i, _) => i >= n
  }

  /** Settled callers are out of the way: the rest of the queue runs as if it were the whole. */
  lemma DropStep<D, L>(s: State<D, L>, a: Action<D, L>, n: nat)
    requires n <= |s.txs| && (forall i :: 0 <= i < n ==> Settled(s.txs[i])) && Enabled(s, a)
    ensures Concerns(a, n) && Enabled(Drop(s, n), Shift(a, n))
    ensures n <= |Step(s, a).txs| && Step(s, a).txs[..n] == s.txs[..n]
    ensures Drop(Step(s, a), n) == Step(Drop(s, n), Shift(a, n))
  {
    match a
    case Arrive(cb) => assert (s.txs + [Tx(cb, Waiting)])[n..] == s.txs[n..] + [Tx(cb, Waiting)];
    case Begin(i, _) => DropMark(s.txs, i, n);
    case Query(i) => DropMark(s.txs, i, n);
    case Commit(i, _) => DropMark(s.txs, i, n);
  }

  lemma DropMark<D, L>(txs: seq<Tx<D, L>>, i: nat, n: nat)
    requires n <= i < |txs|
    ensures forall status :: Mark(txs, i, status)[n..] == Mark(txs[n..], i - n, status)
    ensures forall status :: Mark(txs, i, status)[..n] == txs[..n]
  {
  }

  /** From an idle connection every run is serial on top of whatever the database holds. */
  lemma {:induction false} SerialFrom<D, L>(s: State<D, L>, n: nat, run: seq<Action<D, L>>)
    requires n <= |s.txs| && (forall i :: 0 <= i < n ==> Settled(s.txs[i])) && Inv(s.db, Drop(s, n))
    ensures var t := Play(s, run);
            n <= |t.txs| && t.txs[..n] == s.txs[..n] && Inv(s.db, Drop(t, n))
  {
    if run != [] {
      var front, a := run[..|run| - 1], run[|run| - 1];
      SerialFrom(s, n, front);
      var t := Play(s, front);
      if Enabled(t, a) {
        assert forall i :: 0 <= i < n ==> t.txs[i] == t.txs[..n][i] == s.txs[..n][i];
        DropStep(t, a, n);
        StepKeepsInv(s.db, Drop(t, n), Shift(a, n));
      }
    }
  }

  /** A plain write made while no transaction is open is never lost. */
  lemma PlainWriteKept<D, L>(db0: D, s: State<D, L>, w: D -> D, run: seq<Action<D, L>>)
    requires Inv(db0, s) && s.saved.None?
    ensures Placed(s, w, run)
  {
    var n := Head(s.txs);
    var s' := PlainWrite(s, w);
    var rest := Drop(s', n);
    HeadIs(rest.txs, 0);
    assert rest.txs[..0] == [];
    SerialFrom(s', n, run);
    var t := Play(s', run);
    SerialWaiting(s'.db, Drop(t, n).txs, Head(Drop(t, n).txs));
  }

  /** The schedule that fails the open transaction: its remaining queries, then a COMMIT that fails. */
  function FailHead<D, L>(i: nat, queries: nat): seq<Action<D, L>> {
    if queries == 0 then [Commit(i, false)] else [Query(i)] + FailHead(i, queries - 1)
  }

  lemma {:induction false} HeadFails<D, L>(s: State<D, L>, i: nat, queries: nat)
    requires Open(s, i) && s.txs[i].status.next + queries == |s.txs[i].cb.queries|
    ensures var t := Play(s, FailHead(i, queries));
            t.db == s.saved.value && t.saved.None? && t.txs == Mark(s.txs, i, Failed)
    decreases queries
  {
    var run: seq<Action<D, L>> := FailHead(i, queries);
    if queries == 0 {
      PlayFirst(s, run);
    } else {
      PlayFirst(s, run);
      assert run[1..] == FailHead(i, queries - 1);
      var t := Step(s, Query(i));
      if Open(t, i) {
        HeadFails(t, i, queries - 1);
        assert Mark(t.txs, i, Failed) == Mark(s.txs, i, Failed);
      } else {
        FailedStays(t, i, queries - 1);
      }
    }
  }

  /** A failed transaction takes no further step. */
  lemma {:induction false} FailedStays<D, L>(s: State<D, L>, i: nat, queries: nat)
    requires i < |s.txs| && s.txs[i].status.Failed?
    ensures Play(s, FailHead(i, queries)) == s
    decreases queries
  {
    var run: seq<Action<D, L>> := FailHead(i, queries);
    PlayFirst(s, run);
    if queries > 0 {
      assert run[1..] == FailHead(i, queries - 1);
      FailedStays(s, i, queries - 1);
    } else {
      assert run[1..] == [];
    }
  }

  /** A run is its first action and then the rest. */
  lemma {:induction false} PlayFirst<D, L>(s: State<D, L>, run: seq<Action<D, L>>)
    requires run != []
    ensures Play(s, run) == Play(if Enabled(s, run[0]) then Step(s, run[0]) else s, run[1..])
  {
    var next := if Enabled(s, run[0]) then Step(s, run[0]) else s;
    if |run| == 1 {
      assert run[..0] == [] && run[1..] == [];
      assert Play(s, run[..0]) == s;
    } else {
      var front := run[..|run| - 1];
      PlayFirst(s, front);
      assert front[1..] == run[1..][..|run[1..]| - 1];
      assert run[1..][|run[1..]| - 1] == run[|run| - 1];
    }
  }

  /**
   * A plain write made while a transaction is open can be erased: some schedule rolls that
   * transaction back, and the database is as if the write had never been made.
   */
  lemma PlainWriteErased<D, L>(db0: D, s: State<D, L>, w: D -> D) returns (run: seq<Action<D, L>>)
    requires Inv(db0, s) && s.saved.Some?
    ensures var t := Play(PlainWrite(s, w), run);
            && t.saved.None? && t.db == s.saved.value
            && t.txs == Mark(s.txs, Head(s.txs), Failed)
  {
    var h := Head(s.txs);
    run := FailHead(h, |s.txs[h].cb.queries| - s.txs[h].status.next);
    HeadFails(PlainWrite(s, w), h, |s.txs[h].cb.queries| - s.txs[h].status.next);
  }

  /**
   * The exact condition, known before the call. A plain write that leaves the database other than
   * a rollback would is safe, in every continuation, if and only if no transaction is open.
   */
  lemma PlainWriteSafeExactly<D, L>(db0: D, s: State<D, L>, w: D -> D)
    requires Inv(db0, s) && s.saved != Some(w(s.db))
    ensures (forall run: seq<Action<D, L>> :: Placed(s, w, run)) <==> s.saved.None?
  {
    if s.saved.None? {
      forall run: seq<Action<D, L>> ensures Placed(s, w, run) { PlainWriteKept(db0, s, w, run); }
    } else {
      var run := PlainWriteErased(db0, s, w);
      var h := Head(s.txs);
      var t := Play(PlainWrite(s, w), run);
      SerialWaiting(w(s.db), t.txs[h..], 0);
      assert t.txs[h..][..0] == [];
      assert !Placed(s, w, run);
    }
  }

  /**
   * What becomes of a plain write made while a transaction waits to commit: it joins that
   * transaction. It is in the database afterwards exactly if the transaction commits or the write
   * leaves what a rollback would.
   */
  lemma PlainWriteJoins<D, L>(db0: D, s: State<D, L>, i: nat, ok: bool, w: D -> D)
    requires Inv(db0, s) && Enabled(s, Commit(i, ok))
    ensures var t := Step(PlainWrite(s, w), Commit(i, ok));
            && t.db == (if ok then w(s.db) else Serial(db0, s.txs[..i]))
            && (t.db == w(s.db) <==> ok || w(s.db) == Serial(db0, s.txs[..i]))
  {
    OpenIsHead(db0, s, i);
  }

  /** So an acknowledged plain write can vanish: the suspended transaction's next query throws. */
  lemma PlainWriteLost<D, L>(db0: D, cb: Callback<D, L>, w: D -> D)
    requires cb.queries != [] && cb.queries[0](w(db0), cb.start) == Throw
    ensures var s := Play(Start(db0), [Arrive(cb), Begin(0, true)]);
            && Enabled(PlainWrite(s, w), Query(0))
            && PlainWrite(s, w).db == w(db0)
            && Step(PlainWrite(s, w), Query(0)).db == db0
  {
    var run: seq<Action<D, L>> := [Arrive(cb), Begin(0, true)];
    assert run[..1] == [Arrive(cb)] && run[..1][..0] == [];
    var s0: State<D, L> := Start(db0);
    assert Play(s0, run[..1][..0]) == s0;
    assert Play(s0, run[..1]) == Step(s0, Arrive(cb));
    assert Play(s0, run) == Step(Play(s0, run[..1]), Begin(0, true));
  }
}
