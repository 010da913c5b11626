/** The browser vault: one in-memory key, an idle deadline, and a lock signal across tabs. */
module Vault {
  import opened Wrappers
  import opened AuthTypes

  /** What a tab can do or have happen to it, at a clock reading. */
  datatype Op =
    | Configure(autoLockMs: int)
    | Arm(appKey: string)
    | Touch
    | GetKey
    | Lock
    | TimerFires
    | ClearSession

  datatype Event = Event(op: Op, at: int)

  datatype Tab = Tab(
    appKey: Option<string>, deadline: Option<int>, timer: Option<int>, autoLockMs: int)

  const FRESH := Tab(None, None, None, 15000)

  function Cleared(v: Tab): Tab {
    v.(appKey := None, deadline := None, timer := None)
  }

  function Extended(v: Tab, now: int): Tab {
    v.(deadline := Some(now + v.autoLockMs), timer := Some(now + if v.autoLockMs > 0 then v.autoLockMs else 0))
  }

  predicate Locked(v: Tab, now: int) {
    !Truthy(v.appKey) || (v.deadline.Some? && now > v.deadline.value)
  }

  function Apply(v: Tab, op: Op, now: int): Tab {
    match op
    case Configure(ms) => v.(autoLockMs := ms)
    case Arm(k) =>
      if k != "" then Extended(v.(appKey := Some(k)), now)
      else v.(appKey := Some(k), deadline := Some(now + v.autoLockMs), timer := None)
    case Touch => if Truthy(v.appKey) then Extended(v, now) else v
    case GetKey => if Truthy(v.appKey) && Locked(v, now) then Cleared(v) else v
    case Lock => Cleared(v)
    case TimerFires => if v.timer.Some? && v.timer.value <= now then Cleared(v) else v
    case ClearSession => Cleared(v)
  }

  /** The shared vault object, as its functions update it. */
  class VaultState {
    var memoryAppKey: Option<string>
    var lockDeadline: Option<int>
    var lockTimer: Option<int>
    var autoLockMs: int

    constructor ()
      ensures View() == FRESH
    {
      memoryAppKey, lockDeadline, lockTimer, autoLockMs := None, None, None, 15000;
    }

    ghost function View(): Tab
      reads this
    {
      Tab(memoryAppKey, lockDeadline, lockTimer, autoLockMs)
    }

    method ScheduleLock(now: int)
      modifies this`lockTimer
      ensures lockTimer == if Truthy(memoryAppKey) && lockDeadline.Some?
                           then Some(if lockDeadline.value > now then lockDeadline.value else now) else None
    {
      lockTimer := None;
      if !Truthy(memoryAppKey) || lockDeadline.None? { return; }
      var ms := if lockDeadline.value - now > 0 then lockDeadline.value - now else 0;
      lockTimer := Some(now + ms);
    }

    method ArmAppKey(appKey: string, now: int)
      modifies this
      ensures View() == Apply(old(View()), Arm(appKey), now)
    {
      memoryAppKey := Some(appKey);
      lockDeadline := Some(now + autoLockMs);
      ScheduleLock(now);
    }

    method TouchVault(now: int)
      modifies this
      ensures View() == Apply(old(View()), Touch, now)
    {
      if !Truthy(memoryAppKey) { return; }
      lockDeadline := Some(now + autoLockMs);
      ScheduleLock(now);
    }

    method ClearKeyState()
      modifies this
      ensures View() == Cleared(old(View()))
    {
      lockTimer := None;
      memoryAppKey := None;
      lockDeadline := None;
    }

    /** `signal` is what an explicit lock leaves in the shared lock sentinel; other locks write none. */
    method LockVault(propagate: bool, now: int) returns (signal: Option<int>)
      modifies this
      ensures View() == Apply(old(View()), Lock, now)
      ensures signal == if propagate then Some(now) else None
    {
      ClearKeyState();
      signal := if propagate then Some(now) else None;
    }

    method IsLocked(now: int) returns (locked: bool)
      modifies this
      ensures locked == Locked(old(View()), now) && View() == Apply(old(View()), GetKey, now)
    {
      if !Truthy(memoryAppKey) { return true; }
      if lockDeadline.Some? && now > lockDeadline.value {
        ClearKeyState();
        return true;
      }
      locked := false;
    }

    /** The render snapshot changes nothing and always agrees with the mutating check. */
    method LockSnapshot(now: int) returns (usable: bool)
      ensures usable == !Locked(View(), now)
    {
      if !Truthy(memoryAppKey) { return false; }
      if lockDeadline.Some? && now > lockDeadline.value { return false; }
      usable := true;
    }

    method GetAppKey(now: int) returns (appKey: Option<string>)
      modifies this
      ensures View() == Apply(old(View()), GetKey, now)
      ensures appKey == if Locked(old(View()), now) then None else old(memoryAppKey)
    {
      var locked := IsLocked(now);
      appKey := if locked then None else memoryAppKey;
    }
  }

  // Whole runs of one tab.

  /** The tab after the first `n` events. */
  function After(v: Tab, run: seq<Event>, n: nat): Tab
    requires n <= |run|
  {
    if n == 0 then v else Apply(After(v, run, n - 1), run[n - 1].op, run[n - 1].at)
  }

  function Play(v: Tab, run: seq<Event>): Tab {
    After(v, run, |run|)
  }

  /** No touch finds a key that has run out: a successful read just before it makes sure, as in the signer hook. */
  predicate Guarded(v: Tab, run: seq<Event>) {
    forall i :: 0 <= i < |run| && run[i].op == Touch ==> MayTouch(After(v, run, i), run[i].at)
  }

  predicate MayTouch(t: Tab, now: int) {
    Truthy(t.appKey) ==> !Locked(t, now)
  }

  /**
   * Why a key is still usable: it was armed, and ever since there was activity, each at most one
   * idle window after the last. `acts` are the run indices of the arming and the later touches.
   */
  ghost predicate Alive(v: Tab, run: seq<Event>, acts: seq<nat>, k: string) {
    && acts != []
    && (forall n :: 0 <= n < |acts| ==> acts[n] < |run|)
    && run[acts[0]].op == Arm(k)
    && (forall n :: 0 < n < |acts| ==> run[acts[n]].op == Touch && acts[n - 1] < acts[n])
    && (forall i :: acts[0] < i < |run| ==> Keeps(run[i].op) && (run[i].op == Touch ==> i in acts))
    && (forall n :: 0 < n < |acts| ==> run[acts[n]].at <= run[acts[n - 1]].at + Window(v, run, acts[n - 1]))
  }

  /** No lock, no logout, no other key. */
  predicate Keeps(op: Op) {
    op.Configure? || op.Touch? || op.GetKey? || op.TimerFires?
  }

  /** The idle window in force at event `i`. */
  function Window(v: Tab, run: seq<Event>, i: nat): int
    requires i <= |run|
  {
    After(v, run, i).autoLockMs
  }

  lemma AliveLonger(v: Tab, run: seq<Event>, e: Event, acts: seq<nat>, k: string)
    requires Alive(v, run, acts, k) && Keeps(e.op) && e.op != Touch
    ensures Alive(v, run + [e], acts, k)
    ensures forall i :: 0 <= i <= |run| ==> Window(v, run + [e], i) == Window(v, run, i)
  {
    SameWindows(v, run, e);
  }

  lemma AliveTouched(v: Tab, run: seq<Event>, e: Event, acts: seq<nat>, k: string)
    requires Alive(v, run, acts, k) && e.op == Touch
    requires e.at <= run[acts[|acts| - 1]].at + Window(v, run, acts[|acts| - 1])
    ensures Alive(v, run + [e], acts + [|run|], k)
  {
    SameWindows(v, run, e);
    var run', acts' := run + [e], acts + [|run|];
    forall n | 0 < n < |acts'|
      ensures run'[acts'[n]].op == Touch && acts'[n - 1] < acts'[n]
      ensures run'[acts'[n]].at <= run'[acts'[n - 1]].at + Window(v, run', acts'[n - 1])
    {
      assert acts'[n - 1] == acts[n - 1] && run'[acts'[n - 1]] == run[acts[n - 1]];
      if n < |acts| { assert acts'[n] == acts[n] && run'[acts[n]] == run[acts[n]]; }
    }
    forall i | acts'[0] < i < |run'| ensures Keeps(run'[i].op) && (run'[i].op == Touch ==> i in acts') {
      if i < |run| { assert run'[i] == run[i]; } else { assert acts'[|acts|] == i; }
    }
  }

  lemma AliveArmed(v: Tab, run: seq<Event>, at: int, k: string)
    ensures Alive(v, run + [Event(Arm(k), at)], [|run|], k)
  {
  }

  /** The deadline counts from the last activity. */
  ghost predicate Counted(v: Tab, run: seq<Event>, acts: seq<nat>) {
    var t := Play(v, run);
    Truthy(t.appKey) ==>
      && Alive(v, run, acts, t.appKey.value)
      && t.deadline == Some(run[acts[|acts| - 1]].at + Window(v, run, acts[|acts| - 1]))
  }

  lemma LastStep(v: Tab, run: seq<Event>, e: Event)
    ensures Play(v, run + [e]) == Apply(Play(v, run), e.op, e.at)
  {
    SameAfter(v, run, e, |run|);
  }

  lemma QuietStep(v: Tab, run: seq<Event>, e: Event, acts: seq<nat>)
    requires Counted(v, run, acts) && Keeps(e.op) && e.op != Touch
    ensures Counted(v, run + [e], acts)
  {
    LastStep(v, run, e);
    SameWindows(v, run, e);
    var t := Play(v, run);
    if Truthy(t.appKey) { AliveLonger(v, run, e, acts, t.appKey.value); }
  }

  lemma CountedFrom(v: Tab, run: seq<Event>, acts: seq<nat>, k: string, last: nat)
    requires Alive(v, run, acts, k) && acts[|acts| - 1] == last
    requires var t := Play(v, run);
             t.appKey == Some(k) && t.deadline == Some(run[last].at + Window(v, run, last))
    ensures Counted(v, run, acts)
  {
  }

  lemma LastWindow(v: Tab, run: seq<Event>, e: Event)
    ensures (run + [e])[|run|] == e && Window(v, run + [e], |run|) == Play(v, run).autoLockMs
  {
    SameAfter(v, run, e, |run|);
  }

  lemma TouchStep(v: Tab, run: seq<Event>, e: Event, acts: seq<nat>)
    requires Counted(v, run, acts) && e.op == Touch && MayTouch(Play(v, run), e.at)
    ensures Counted(v, run + [e], acts + [|run|])
  {
    var t := Play(v, run);
    LastStep(v, run, e);
    if Truthy(t.appKey) {
      AliveTouched(v, run, e, acts, t.appKey.value);
      LastWindow(v, run, e);
      CountedFrom(v, run + [e], acts + [|run|], t.appKey.value, |run|);
    }
  }

  lemma ArmStep(v: Tab, run: seq<Event>, at: int, k: string)
    ensures Counted(v, run + [Event(Arm(k), at)], [|run|])
  {
    LastStep(v, run, Event(Arm(k), at));
    LastWindow(v, run, Event(Arm(k), at));
    AliveArmed(v, run, at, k);
  }

  lemma CountedStep(v: Tab, run: seq<Event>, e: Event, acts: seq<nat>) returns (acts': seq<nat>)
    requires Counted(v, run, acts) && (e.op == Touch ==> MayTouch(Play(v, run), e.at))
    ensures Counted(v, run + [e], acts')
  {
    acts' := acts;
    if e.op.Arm? {
      acts' := [|run|];
      ArmStep(v, run, e.at, e.op.appKey);
    } else if e.op == Touch {
      acts' := acts + [|run|];
      TouchStep(v, run, e, acts);
    } else if Keeps(e.op) {
      QuietStep(v, run, e, acts);
    } else {
      LastStep(v, run, e);
    }
  }

  lemma {:induction false} SameAfter(v: Tab, run: seq<Event>, e: Event, n: nat)
    requires n <= |run|
    ensures After(v, run + [e], n) == After(v, run, n)
  {
    if n > 0 { SameAfter(v, run, e, n - 1); }
  }

  lemma SameWindows(v: Tab, run: seq<Event>, e: Event)
    ensures forall i :: 0 <= i <= |run| ==> Window(v, run + [e], i) == Window(v, run, i)
  {
    forall i | 0 <= i <= |run| ensures Window(v, run + [e], i) == Window(v, run, i) {
      SameAfter(v, run, e, i);
    }
  }

  lemma {:induction false} Activity(v: Tab, run: seq<Event>) returns (acts: seq<nat>)
    requires !Truthy(v.appKey) && Guarded(v, run)
    ensures Counted(v, run, acts)
  {
    acts := [];
    if run != [] {
      var front, e := run[..|run| - 1], run[|run| - 1];
      assert run == front + [e];
      forall i | 0 <= i <= |front| ensures After(v, run, i) == After(v, front, i) { SameAfter(v, front, e, i); }
      acts := Activity(v, front);
      acts := CountedStep(v, front, e, acts);
    }
  }

  /**
   * What the vault promises of a run: a key that can be read afterwards is the last one armed,
   * nothing locked it since, and no idle gap since then, the one up to the read included,
   * exceeded the window in force when the gap began.
   */
  ghost predicate Promised(v: Tab, run: seq<Event>) {
    var t := Play(v, run);
    forall now :: !Locked(t, now) ==>
      exists acts: seq<nat> ::
        && Alive(v, run, acts, t.appKey.value)
        && now <= run[acts[|acts| - 1]].at + Window(v, run, acts[|acts| - 1])
  }

  /** The promise holds of every run whose touches are guarded. */
  lemma KeyIsFreshlyArmed(v: Tab, run: seq<Event>)
    requires !Truthy(v.appKey) && Guarded(v, run)
    ensures Promised(v, run)
  {
    var acts := Activity(v, run);
    var t := Play(v, run);
    forall now | !Locked(t, now)
      ensures exists acts: seq<nat> ::
                && Alive(v, run, acts, t.appKey.value)
                && now <= run[acts[|acts| - 1]].at + Window(v, run, acts[|acts| - 1])
    {
      assert Alive(v, run, acts, t.appKey.value);
    }
  }

  lemma {:induction false} LastIsGreatest(acts: seq<nat>, x: nat)
    requires x in acts && forall n :: 0 < n < |acts| ==> acts[n - 1] < acts[n]
    ensures x <= acts[|acts| - 1]
  {
    var front := acts[..|acts| - 1];
    if x != acts[|acts| - 1] {
      assert acts == front + [acts[|acts| - 1]] && x in front;
      LastIsGreatest(front, x);
    }
  }

  /** Only one arming has no other behind it. */
  lemma SameArming(run: seq<Event>, i: nat, j: nat)
    requires i < |run| && run[i].op.Arm? && forall n :: i < n < |run| ==> Keeps(run[n].op)
    requires j < |run| && run[j].op.Arm? && forall n :: j < n < |run| ==> Keeps(run[n].op)
    ensures i == j
  {
  }

  /** The last activity before a touch is the same in every account of why the key is alive. */
  lemma SameLastActivity(v: Tab, run: seq<Event>, e: Event, acts: seq<nat>, acts': seq<nat>, k: string)
    requires Alive(v, run, acts, k) && Alive(v, run + [e], acts', k) && e.op == Touch
    ensures |acts'| >= 2 && acts'[|acts'| - 1] == |run| && acts'[|acts'| - 2] == acts[|acts| - 1]
  {
    var run' := run + [e];
    assert run'[acts'[0]].op == Arm(k) && run'[acts[0]].op == Arm(k);
    forall n | acts[0] < n < |run'| ensures Keeps(run'[n].op) {
      if n < |run| { assert run'[n] == run[n]; }
    }
    SameArming(run', acts'[0], acts[0]);
    assert run'[|run|].op == Touch && |run| in acts';
    LastIsGreatest(acts', |run|);
    var q, front := acts[|acts| - 1], acts'[..|acts'| - 1];
    assert acts' == front + [|run|];
    var p := front[|front| - 1];
    LastIsGreatest(front, acts'[0]);
    LastIsGreatest(acts, acts[0]);
    if p < q {
      assert 0 < |acts| - 1;
      assert run'[q].op == Touch && q in acts' && q in front;
      LastIsGreatest(front, q);
    } else if q < p {
      assert 0 < |front| - 1;
      assert run'[p].op == Touch && run[p].op == Touch && p in acts;
      LastIsGreatest(acts, p);
    }
  }

  /**
   * Touching a key that has run out breaks the promise: it is readable again for a whole idle
   * window, and no account of its activity justifies that.
   */
  lemma UnguardedTouchBreaks(v: Tab, run: seq<Event>, e: Event)
    requires !Truthy(v.appKey) && Guarded(v, run)
    requires e.op == Touch && !MayTouch(Play(v, run), e.at)
    ensures var t := Play(v, run + [e]);
            !Locked(t, e.at + t.autoLockMs) && forall acts: seq<nat> :: !Alive(v, run + [e], acts, t.appKey.value)
    ensures !Promised(v, run + [e])
  {
    var acts := Activity(v, run);
    var t := Play(v, run);
    LastStep(v, run, e);
    SameWindows(v, run, e);
    var k := t.appKey.value;
    assert (run + [e])[acts[|acts| - 1]] == run[acts[|acts| - 1]];
    forall acts': seq<nat> ensures !Alive(v, run + [e], acts', k) {
      if Alive(v, run + [e], acts', k) {
        SameLastActivity(v, run, e, acts, acts', k);
      }
    }
  }

  /** The promise held after every event of the run. */
  ghost predicate AlwaysPromised(v: Tab, run: seq<Event>) {
    Promised(v, run) && (run != [] ==> AlwaysPromised(v, run[..|run| - 1]))
  }

  lemma GuardedStep(v: Tab, run: seq<Event>, e: Event)
    ensures Guarded(v, run + [e]) <==> Guarded(v, run) && (e.op == Touch ==> MayTouch(Play(v, run), e.at))
  {
    forall i | 0 <= i <= |run| ensures After(v, run + [e], i) == After(v, run, i) { SameAfter(v, run, e, i); }
    if Guarded(v, run + [e]) {
      forall i | 0 <= i < |run| && run[i].op == Touch ensures MayTouch(After(v, run, i), run[i].at) {
        assert (run + [e])[i] == run[i];
      }
      assert (run + [e])[|run|] == e;
    }
  }

  /**
   * The exact condition, over whole runs: the vault keeps its promise after every event if and
   * only if no touch finds a key that has run out.
   */
  lemma {:induction false} PromiseKeptExactly(v: Tab, run: seq<Event>)
    requires !Truthy(v.appKey)
    ensures AlwaysPromised(v, run) <==> Guarded(v, run)
  {
    if run == [] {
      KeyIsFreshlyArmed(v, run);
    } else {
      var front, e := run[..|run| - 1], run[|run| - 1];
      assert run == front + [e];
      GuardedStep(v, front, e);
      PromiseKeptExactly(v, front);
      if Guarded(v, run) {
        KeyIsFreshlyArmed(v, run);
      } else if Guarded(v, front) {
        UnguardedTouchBreaks(v, front, e);
      }
    }
  }

  /** A touch that no read preceded revives a key that had already run out. */
  lemma UnguardedTouchRevives(k: string)
    requires k != ""
    ensures var run := [Event(Arm(k), 0), Event(Touch, 20000)];
            Locked(After(FRESH, run, 1), 20000) && !Locked(Play(FRESH, run), 20000) && !Guarded(FRESH, run)
  {
    var run := [Event(Arm(k), 0), Event(Touch, 20000)];
    assert After(FRESH, run, 1) == Apply(FRESH, Arm(k), 0);
    assert run[1].op == Touch;
  }

  // Several tabs of one origin.

  /**
   * `signal` is the shared lock sentinel, `token` says whether an auth token is stored, and
   * `pending` counts each tab's undelivered storage events of either.
   */
  datatype Browser = Browser(tabs: seq<Tab>, pending: seq<nat>, signal: Option<int>, token: bool)

  datatype Action =
    | In(tab: nat, op: Op, at: int)
    | SignIn(tab: nat, appKey: string, at: int)
    | ExplicitLock(tab: nat, at: int)
    | Deliver(tab: nat)

  predicate Shaped(b: Browser) {
    |b.tabs| == |b.pending|
  }

  /** A storage event goes to every other tab, and only if the stored value really changes. */
  function Notified(b: Browser, from: nat, changed: bool): seq<nat>
    requires Shaped(b)
  {
    seq(|b.pending|, j requires 0 <= j < |b.pending| =>
      if j != from && changed then b.pending[j] + 1 else b.pending[j])
  }

  /** An explicit lock or a logout whose storage write is a change, and so an event in every other tab. */
  predicate Signals(b: Browser, a: Action) {
    match a
    case ExplicitLock(i, at) => i < |b.tabs| && b.signal != Some(at)
    case In(i, op, _) => i < |b.tabs| && op.ClearSession? && b.token
    case _ => false
  }

  function Step(b: Browser, a: Action): (b': Browser)
    requires Shaped(b)
    ensures Shaped(b') && |b'.tabs| == |b.tabs|
  {
    match a
    case In(i, op, at) =>
      if i >= |b.tabs| then b
      else
        var b' := b.(tabs := b.tabs[i := Apply(b.tabs[i], op, at)]);
        // A logout also removes the stored token.
        if op.ClearSession? then b'.(token := false, pending := Notified(b, i, b.token)) else b'
    case SignIn(i, k, at) =>
      // Storing a token is an event too, but one the listener ignores.
      if i < |b.tabs| then b.(tabs := b.tabs[i := Apply(b.tabs[i], Arm(k), at)], token := true) else b
    case ExplicitLock(i, at) =>
      if i < |b.tabs| then
        b.(tabs := b.tabs[i := Apply(b.tabs[i], Lock, at)], pending := Notified(b, i, b.signal != Some(at)),
           signal := Some(at))
      else b
    case Deliver(i) =>
      if i < |b.tabs| && b.pending[i] > 0 then
        b.(tabs := b.tabs[i := Cleared(b.tabs[i])], pending := b.pending[i := b.pending[i] - 1])
      else b
  }

  function PlayAll(b: Browser, run: seq<Action>): (b': Browser)
    requires Shaped(b)
    ensures Shaped(b') && |b'.tabs| == |b.tabs|
  {
    if run == [] then b else Step(PlayAll(b, run[..|run| - 1]), run[|run| - 1])
  }

  /** Tab `j` armed no key in the run. */
  predicate Unarmed(run: seq<Action>, j: nat) {
    forall n :: 0 <= n < |run| ==> !Arms(run[n], j)
  }

  predicate Arms(a: Action, j: nat) {
    match a
    case In(i, op, _) => i == j && op.Arm?
    case SignIn(i, _, _) => i == j
    case _ => false
  }

  /** A tab with an event to receive, or already locked, is locked once it has received its events. */
  lemma {:induction false} DrainedIsLocked(b: Browser, run: seq<Action>, j: nat)
    requires Shaped(b) && j < |b.tabs| && Unarmed(run, j)
    requires b.pending[j] > 0 || b.tabs[j].appKey.None?
    ensures var t := PlayAll(b, run);
            t.pending[j] > 0 || t.tabs[j].appKey.None?
  {
    if run != [] {
      var front, a := run[..|run| - 1], run[|run| - 1];
      DrainedIsLocked(b, front, j);
      assert run[|run| - 1] == a && !Arms(a, j);
    }
  }

  /**
   * A lock reaches every tab. When an explicit lock changes the sentinel, or a logout removes the
   * token, each other tab that has since received its events and armed no new key is locked,
   * whatever else went on.
   */
  lemma {:induction false} LockReaches(b: Browser, lock: Action, run: seq<Action>, j: nat)
    requires Shaped(b) && j < |b.tabs| && Signals(b, lock)
    requires Unarmed(run, j)
    ensures var t := PlayAll(Step(b, lock), run);
            t.pending[j] == 0 || lock.tab == j ==> t.tabs[j].appKey.None?
  {
    DrainedIsLocked(Step(b, lock), run, j);
    if lock.tab == j { StaysLocked(Step(b, lock), run, j); }
  }

  lemma {:induction false} StaysLocked(b: Browser, run: seq<Action>, j: nat)
    requires Shaped(b) && j < |b.tabs| && Unarmed(run, j) && b.tabs[j].appKey.None?
    ensures PlayAll(b, run).tabs[j].appKey.None?
  {
    if run != [] {
      var front, a := run[..|run| - 1], run[|run| - 1];
      StaysLocked(b, front, j);
      assert run[|run| - 1] == a && !Arms(a, j);
    }
  }

  /** After every run from here in which the tab arms no key and receives all its events, it is locked. */
  ghost predicate Reached(b: Browser, j: nat)
    requires Shaped(b) && j < |b.tabs|
  {
    forall run :: Unarmed(run, j) && PlayAll(b, run).pending[j] == 0 ==> PlayAll(b, run).tabs[j].appKey.None?
  }

  /**
   * Which explicit locks reach another tab, exactly: those whose millisecond differs from the one
   * in the sentinel, and those that find the tab locked or with an event on its way anyway.
   */
  lemma LockReachesExactly(b: Browser, i: nat, at: int, j: nat)
    requires Shaped(b) && i < |b.tabs| && j < |b.tabs| && i != j
    ensures Reached(Step(b, ExplicitLock(i, at)), j)
       <==> b.signal != Some(at) || b.pending[j] > 0 || b.tabs[j].appKey.None?
  {
    var s := Step(b, ExplicitLock(i, at));
    if b.signal != Some(at) || b.pending[j] > 0 || b.tabs[j].appKey.None? {
      forall run | Unarmed(run, j) && PlayAll(s, run).pending[j] == 0
        ensures PlayAll(s, run).tabs[j].appKey.None?
      {
        DrainedIsLocked(s, run, j);
      }
    } else {
      var run: seq<Action> := [];
      assert Unarmed(run, j) && PlayAll(s, run) == s;
    }
  }

  /**
   * The input that fails: two tabs, and a second explicit lock in the millisecond of the first. The
   * tab that signed in between the two stays unlocked, with nothing on its way to it.
   */
  lemma SilentLockExample(k: string, at: int)
    requires k != ""
    ensures var b := Browser([FRESH, FRESH], [0, 0], None, false);
            var run := [ExplicitLock(0, at), Deliver(1), SignIn(1, k, at), ExplicitLock(0, at)];
            var t := PlayAll(b, run);
            t.pending[1] == 0 && !Locked(t.tabs[1], at) && t.tabs[1].appKey == Some(k)
  {
    var b := Browser([FRESH, FRESH], [0, 0], None, false);
    var run := [ExplicitLock(0, at), Deliver(1), SignIn(1, k, at), ExplicitLock(0, at)];
    assert run[..3][..2] == run[..2] && run[..2][..1] == run[..1] && run[..1][..0] == [];
    assert PlayAll(b, run[..1][..0]) == b;
    assert PlayAll(b, run[..1]) == Step(b, run[0]);
    assert PlayAll(b, run[..2]) == Step(PlayAll(b, run[..1]), run[1]);
    assert PlayAll(b, run[..3]) == Step(PlayAll(b, run[..2]), run[2]);
    assert PlayAll(b, run) == Step(PlayAll(b, run[..3]), run[3]);
  }

  function Total(pending: seq<nat>): nat {
    if pending == [] then 0 else Total(pending[..|pending| - 1]) + pending[|pending| - 1]
  }

  lemma {:induction false} TotalLess(pending: seq<nat>, i: nat)
    requires i < |pending| && pending[i] > 0
    ensures Total(pending[i := pending[i] - 1]) == Total(pending) - 1
  {
    var less := pending[i := pending[i] - 1];
    if i < |pending| - 1 {
      assert less[..|less| - 1] == pending[..|pending| - 1][i := pending[i] - 1];
      TotalLess(pending[..|pending| - 1], i);
    } else {
      assert less[..|less| - 1] == pending[..|pending| - 1];
    }
  }

  /** How many storage events the run handles. */
  function Handled(b: Browser, run: seq<Action>): nat
    requires Shaped(b)
  {
    if run == [] then 0
    else
      var before, a := PlayAll(b, run[..|run| - 1]), run[|run| - 1];
      Handled(b, run[..|run| - 1])
      + if a.Deliver? && a.tab < |before.tabs| && before.pending[a.tab] > 0 then 1 else 0
  }

  predicate NoLock(run: seq<Action>) {
    forall n :: 0 <= n < |run| ==> !run[n].ExplicitLock? && !(run[n].In? && run[n].op.ClearSession?)
  }

  /**
   * Signals die out. Handling one writes no storage and sends no other: without a further explicit
   * lock or logout every run handles as many as are used up and at most those pending, and the
   * sentinel stays as it was.
   */
  lemma {:induction false} SignalsDieOut(b: Browser, run: seq<Action>)
    requires Shaped(b) && NoLock(run)
    ensures Handled(b, run) + Total(PlayAll(b, run).pending) == Total(b.pending)
    ensures PlayAll(b, run).signal == b.signal
  {
    if run != [] {
      var front, a := run[..|run| - 1], run[|run| - 1];
      SignalsDieOut(b, front);
      var before := PlayAll(b, front);
      assert !a.ExplicitLock? && !(a.In? && a.op.ClearSession?);
      if a.Deliver? && a.tab < |before.tabs| && before.pending[a.tab] > 0 { TotalLess(before.pending, a.tab); }
    }
  }

  /**
   * The sentinel is a millisecond timestamp, and storage events fire only on a change: a second
   * explicit lock within the same millisecond is silent, and reaches no other tab at all.
   */
  lemma SameMillisecondLockIsSilent(b: Browser, i: nat, at: int, j: nat)
    requires Shaped(b) && i < |b.tabs| && j < |b.tabs| && i != j
    ensures (Step(b, ExplicitLock(i, at)).pending[j] == b.pending[j] + 1 <==> b.signal != Some(at))
    ensures Step(b, ExplicitLock(i, at)).tabs[j] == b.tabs[j]
  {
  }
}
