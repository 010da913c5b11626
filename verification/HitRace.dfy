/**
 * Concurrent hits on one key-value rate-limit counter. A hit is an increment and, on the first
 * hit of a window and the first past the cap, a separate expiry call: anything may happen between
 * the two, and a hit that crashes or whose call fails is one whose second call never comes.
 */
module HitRace {
  import opened Wrappers
  import opened Expiry
  import opened AuthSpec
  import opened RateWindows

  /** A hit that has counted: what the counter told it, when, and whether its expiry call is to come. */
  datatype Caller = Caller(count: nat, since: int, owes: bool)

  datatype State = State(counter: Counter, callers: seq<Caller>)

  datatype Action =
    | Increment(at: int)
    | Stamp(caller: nat, at: int)

  const START := State(None, [])

  predicate Owes(s: State, i: nat) {
    i < |s.callers| && s.callers[i].owes
  }

  function Step(l: Limit, s: State, a: Action): State {
    match a
    case Increment(at) =>
      var c := Later(s.counter, at);
      var hit := if c.None? then Timed(1, None) else Timed(c.value.value + 1, c.value.expiresAt);
      State(Some(hit), s.callers + [Caller(hit.value, at, hit.value == 1 || hit.value == l.maxAttempts + 1)])
    case Stamp(i, at) =>
      if !Owes(s, i) then s
      else
        var c := Later(s.counter, at);
        State(if c.None? then None else Some(c.value.(expiresAt := Some(After(l.windowSeconds, at)))),
              s.callers[i := s.callers[i].(owes := false)])
  }

  predicate Timely(run: seq<Action>, from: int) {
    run != [] ==> from <= run[0].at && Timely(run[1..], run[0].at)
  }

  function End(run: seq<Action>, from: int): int {
    if run == [] then from else End(run[1..], run[0].at)
  }

  function Run(l: Limit, s: State, run: seq<Action>): State
    decreases run
  {
    if run == [] then s else Run(l, Step(l, s, run[0]), run[1..])
  }

  /** How many hits the run admits with a clock reading in `[lo, hi)`. */
  function Admitted(l: Limit, s: State, run: seq<Action>, lo: int, hi: int): nat
    decreases run
  {
    if run == [] then 0
    else
      var next := Step(l, s, run[0]);
      var one := if run[0].Increment? && lo <= run[0].at < hi && next.counter.value.value <= l.maxAttempts
                 then 1 else 0;
      one + Admitted(l, next, run[1..], lo, hi)
  }

  /** The two calls of a hit with nothing between them are the store's hit, as one call. */
  lemma UninterruptedHit(l: Limit, s: State, read: int, stamp: int)
    requires l.backend == KvBackend && l.windowSeconds >= 1 && read <= stamp
    ensures var s' := Step(l, Step(l, s, Increment(read)), Stamp(|s.callers|, stamp));
            Later(s'.counter, stamp) == Later(Some(Next(l, s.counter, Hit(read, stamp))), stamp)
  {
  }

  // The burst bound, crashes and all.

  predicate Counted(s: State) {
    s.counter.Some? ==> s.counter.value.value >= 1
  }

  function RoomLeft(l: Limit, s: State): nat {
    if s.counter.None? then l.maxAttempts else Room(l, s.counter.value.value)
  }

  lemma {:induction false} NoneAdmittedAfter(l: Limit, s: State, run: seq<Action>, lo: int, hi: int, from: int)
    requires Timely(run, from) && hi <= from
    ensures Admitted(l, s, run, lo, hi) == 0
    decreases run
  {
    if run != [] { NoneAdmittedAfter(l, Step(l, s, run[0]), run[1..], lo, hi, run[0].at); }
  }

  /** A window no expiry call of the past can end within the interval admits what is left of it. */
  lemma {:induction false} WithinWindow(l: Limit, s: State, run: seq<Action>, lo: int, from: int)
    requires l.windowSeconds >= 1 && Timely(run, from) && lo <= from && Counted(s)
    requires s.counter.Some? && s.counter.value.expiresAt.Some? ==> lo + l.Span() <= s.counter.value.expiresAt.value
    ensures Admitted(l, s, run, lo, lo + l.Span()) <= RoomLeft(l, s)
    decreases run
  {
    if run != [] {
      var next := Step(l, s, run[0]);
      if run[0].at < lo + l.Span() {
        WithinWindow(l, next, run[1..], lo, run[0].at);
      } else {
        NoneAdmittedAfter(l, next, run[1..], lo, lo + l.Span(), run[0].at);
      }
    }
  }

  lemma {:induction false} AcrossTwo(l: Limit, s: State, run: seq<Action>, lo: int, from: int)
    requires l.windowSeconds >= 1 && Timely(run, from) && lo <= from && Counted(s)
    ensures Admitted(l, s, run, lo, lo + l.Span()) <= RoomLeft(l, s) + l.maxAttempts
    decreases run
  {
    if run != [] {
      var next := Step(l, s, run[0]);
      if lo + l.Span() <= run[0].at {
        NoneAdmittedAfter(l, next, run[1..], lo, lo + l.Span(), run[0].at);
      } else if Later(s.counter, run[0].at).None? && (run[0].Increment? || Owes(s, run[0].caller)) {
        WithinWindow(l, next, run[1..], lo, run[0].at);
      } else {
        AcrossTwo(l, next, run[1..], lo, run[0].at);
      }
    }
  }

  /**
   * The burst bound under every interleaving. From any counter and any callers, however their
   * calls interleave and whichever never come, no interval one window long admits more than twice
   * the limit.
   */
  lemma {:induction false} InterleavedBurst(l: Limit, s: State, run: seq<Action>, lo: int, from: int)
    requires l.windowSeconds >= 1 && Timely(run, from) && Counted(s)
    ensures Admitted(l, s, run, lo, lo + l.Span()) <= 2 * l.maxAttempts
    decreases run
  {
    if run != [] {
      var next := Step(l, s, run[0]);
      if run[0].at < lo {
        InterleavedBurst(l, next, run[1..], lo, run[0].at);
      } else {
        AcrossTwo(l, s, run, lo, run[0].at);
      }
    }
  }

  // How long a window lasts.

  /** The caller whose increment opened the window a run leaves: the last that found no live counter. */
  function Opener(l: Limit, s: State, opener: nat, run: seq<Action>): nat
    decreases run
  {
    if run == [] then opener else Opener(l, Step(l, s, run[0]), OpenerAfter(s, opener, run[0]), run[1..])
  }

  function OpenerAfter(s: State, opener: nat, a: Action): nat {
    if a.Increment? && Later(s.counter, a.at).None? then |s.callers| else opener
  }

  /** Every expiry call that is to come does come within `delay` of its increment. */
  ghost predicate Prompt(s: State, delay: nat, now: int) {
    forall i: nat :: Owes(s, i) ==> now <= s.callers[i].since + delay
  }

  ghost predicate PromptRun(l: Limit, s: State, delay: nat, run: seq<Action>)
    decreases run
  {
    run != [] ==> Prompt(s, delay, run[0].at) && PromptRun(l, Step(l, s, run[0]), delay, run[1..])
  }

  /**
   * The window that opener `o` opened. Its callers follow each other from `o`; without a deadline
   * its opener has yet to set one.
   */
  ghost predicate WindowInv(l: Limit, s: State, o: nat, delay: nat, clock: int) {
    && (forall i: nat :: i < |s.callers| ==> s.callers[i].since <= clock)
    && (s.counter.Some? ==>
          && o < |s.callers| == o + s.counter.value.value
          && WindowBounds(l, s.counter.value, s.callers[o], delay)
          && (forall i: nat :: Owes(s, i) ==> MayStamp(l, s, o, i, delay)))
  }

  predicate WindowBounds(l: Limit, c: Timed<nat>, opener: Caller, delay: nat) {
    match c.expiresAt
    case None => opener.owes
    case Some(d) => opener.since + l.Span() <= d < opener.since + Longest(l, c.value, delay)
  }

  /** A window up to its cap lasts a span and a delay; the hit that crosses the cap may add a span. */
  function Longest(l: Limit, count: nat, delay: nat): int {
    if count <= l.maxAttempts then l.Span() + delay + 1 else 2 * l.Span() + delay
  }

  /** Who may yet move the deadline: a caller no younger than the window, or the one that crossed its cap. */
  predicate MayStamp(l: Limit, s: State, o: nat, i: nat, delay: nat)
    requires s.counter.Some? && o < |s.callers| && i < |s.callers|
  {
    || s.callers[i].since <= s.callers[o].since
    || (i == o + l.maxAttempts && match s.counter.value.expiresAt
        case None => true
        case Some(d) => d <= s.callers[o].since + l.Span() + delay)
  }

  lemma StepKeepsWindow(l: Limit, s: State, o: nat, a: Action, delay: nat, clock: int)
    requires l.windowSeconds >= 1 && clock <= a.at
    requires WindowInv(l, s, o, delay, clock) && Prompt(s, delay, a.at)
    ensures WindowInv(l, Step(l, s, a), OpenerAfter(s, o, a), delay, a.at)
  {
    var s', o' := Step(l, s, a), OpenerAfter(s, o, a);
    if s'.counter.Some? {
      forall i: nat | Owes(s', i) ensures MayStamp(l, s', o', i, delay) {
        if a.Stamp? && Owes(s, a.caller) {
          assert MayStamp(l, s, o, i, delay) && MayStamp(l, s, o, a.caller, delay);
        } else if i < |s.callers| {
          assert Owes(s, i);
        }
      }
    }
  }

  lemma {:induction false} RunKeepsWindow(l: Limit, s: State, o: nat, run: seq<Action>, delay: nat, clock: int)
    requires l.windowSeconds >= 1 && Timely(run, clock)
    requires WindowInv(l, s, o, delay, clock) && PromptRun(l, s, delay, run)
    ensures WindowInv(l, Run(l, s, run), Opener(l, s, o, run), delay, End(run, clock))
    decreases run
  {
    if run != [] {
      StepKeepsWindow(l, s, o, run[0], delay, clock);
      RunKeepsWindow(l, Step(l, s, run[0]), OpenerAfter(s, o, run[0]), run[1..], delay, run[0].at);
    }
  }

  /**
   * How long a window lasts, under any interleaving: its deadline is at least one span after its
   * opening, at most a delay past that until the cap is crossed, and less than one more span once it is.
   */
  lemma InterleavedWindow(l: Limit, run: seq<Action>, delay: nat, from: int)
    requires l.windowSeconds >= 1 && Timely(run, from) && PromptRun(l, START, delay, run)
    ensures var s := Run(l, START, run);
            var o := Opener(l, START, 0, run);
            s.counter.Some? ==> o < |s.callers| && WindowBounds(l, s.counter.value, s.callers[o], delay)
  {
    RunKeepsWindow(l, START, 0, run, delay, from);
  }

  /**
   * No lockout under any interleaving. If every expiry call comes within `delay` of its increment,
   * a hit two spans and a delay after its window was opened starts a fresh window and
   * is admitted: however many hits were refused, and whoever stamped the counter when.
   */
  lemma InterleavedNoLockout(l: Limit, run: seq<Action>, delay: nat, at: int, from: int)
    requires l.windowSeconds >= 1 && l.maxAttempts >= 1
    requires Timely(run, from) && PromptRun(l, START, delay, run)
    ensures var s := Run(l, START, run);
            var o := Opener(l, START, 0, run);
            Prompt(s, delay, at) && (o < |s.callers| ==> s.callers[o].since + 2 * l.Span() + delay <= at) ==>
              Step(l, s, Increment(at)).counter.value.value == 1
  {
    RunKeepsWindow(l, START, 0, run, delay, from);
  }

  // What heals a counter.

  /** While the counter has no deadline, neither its opener nor the hit that crossed the cap has completed. */
  ghost predicate HealInv(l: Limit, s: State, o: nat) {
    s.counter.Some? ==>
      && o < |s.callers|
      && s.counter.value.value >= 1
      && (s.counter.value.expiresAt.None? ==>
            forall i: nat :: o <= i < |s.callers| && !s.callers[i].owes ==> 1 < s.callers[i].count != l.maxAttempts + 1)
  }

  /**
   * The self-heal under every interleaving, crashes included. If a window has no deadline then
   * neither its first hit nor its first hit past the cap has completed.
   */
  lemma {:induction false} UndatedMeansUnstamped(l: Limit, s: State, o: nat, run: seq<Action>)
    requires l.windowSeconds >= 1 && HealInv(l, s, o)
    ensures HealInv(l, Run(l, s, run), Opener(l, s, o, run))
    decreases run
  {
    if run != [] {
      UndatedMeansUnstamped(l, Step(l, s, run[0]), OpenerAfter(s, o, run[0]), run[1..]);
    }
  }

  /** Every expiry call that does come, comes within `delay` of its increment. Some may never come. */
  ghost predicate Punctual(l: Limit, s: State, delay: nat, run: seq<Action>)
    decreases run
  {
    run != [] ==>
      && (run[0].Stamp? && Owes(s, run[0].caller) ==> run[0].at <= s.callers[run[0].caller].since + delay)
      && Punctual(l, Step(l, s, run[0]), delay, run[1..])
  }

  /**
   * The window that opener `o` opened, whoever crashed: once its cap is crossed, only callers no
   * younger than the crossing hit can have moved the deadline.
   */
  ghost predicate CrossInv(l: Limit, s: State, o: nat, delay: nat, clock: int) {
    && (forall i: nat, j: nat :: i <= j < |s.callers| ==> s.callers[i].since <= s.callers[j].since <= clock)
    && (s.counter.Some? ==>
          && o < |s.callers| == o + s.counter.value.value
          && (forall i: nat :: Owes(s, i) ==> i <= o || i == o + l.maxAttempts)
          && (s.counter.value.expiresAt.Some? ==>
                && s.counter.value.expiresAt.value <= clock + l.Span()
                && (s.counter.value.value > l.maxAttempts ==>
                      s.counter.value.expiresAt.value <= s.callers[o + l.maxAttempts].since + delay + l.Span())))
  }

  lemma StepKeepsCross(l: Limit, s: State, o: nat, a: Action, delay: nat, clock: int)
    requires l.windowSeconds >= 1 && clock <= a.at && CrossInv(l, s, o, delay, clock)
    requires a.Stamp? && Owes(s, a.caller) ==> a.at <= s.callers[a.caller].since + delay
    ensures CrossInv(l, Step(l, s, a), OpenerAfter(s, o, a), delay, a.at)
  {
    var s', o' := Step(l, s, a), OpenerAfter(s, o, a);
    if s'.counter.Some? {
      forall i: nat | Owes(s', i) ensures i <= o' || i == o' + l.maxAttempts {
        if i < |s.callers| { assert Owes(s, i); }
      }
    }
  }

  lemma {:induction false} RunKeepsCross(l: Limit, s: State, o: nat, run: seq<Action>, delay: nat, clock: int)
    requires l.windowSeconds >= 1 && Timely(run, clock)
    requires CrossInv(l, s, o, delay, clock) && Punctual(l, s, delay, run)
    ensures CrossInv(l, Run(l, s, run), Opener(l, s, o, run), delay, End(run, clock))
    decreases run
  {
    if run != [] {
      StepKeepsCross(l, s, o, run[0], delay, clock);
      RunKeepsCross(l, Step(l, s, run[0]), OpenerAfter(s, o, run[0]), run[1..], delay, run[0].at);
    }
  }

  /**
   * What the self-heal is for. However many hits crashed before their expiry call, the one that
   * opened the window included: once the hit that crossed the cap has completed, a hit one span and
   * one delay after that crossing starts a fresh window.
   */
  lemma HealedNoLockout(l: Limit, run: seq<Action>, delay: nat, at: int, from: int)
    requires l.windowSeconds >= 1 && Timely(run, from) && Punctual(l, START, delay, run)
    ensures var s := Run(l, START, run);
            var cross := Opener(l, START, 0, run) + l.maxAttempts;
            s.counter.Some? && s.counter.value.value > l.maxAttempts ==>
              && cross < |s.callers|
              && (!s.callers[cross].owes && s.callers[cross].since + delay + l.Span() <= at ==>
                    Step(l, s, Increment(at)).counter.value.value == 1)
  {
    RunKeepsCross(l, START, 0, run, delay, from);
    RunKeepsCounts(l, START, 0, run);
    UndatedMeansUnstamped(l, START, 0, run);
  }

  /** The callers of the open window were told one, two, three and so on. */
  ghost predicate CountInv(s: State, o: nat) {
    s.counter.Some? ==>
      && |s.callers| == o + s.counter.value.value
      && forall i: nat :: o <= i < |s.callers| ==> s.callers[i].count == i - o + 1
  }

  lemma {:induction false} RunKeepsCounts(l: Limit, s: State, o: nat, run: seq<Action>)
    requires CountInv(s, o)
    ensures CountInv(Run(l, s, run), Opener(l, s, o, run))
    decreases run
  {
    if run != [] { RunKeepsCounts(l, Step(l, s, run[0]), OpenerAfter(s, o, run[0]), run[1..]); }
  }

  // What does not heal.

  /** `n` hits at one instant, each crashing before its expiry call. */
  function Crashes(n: nat, at: int): seq<Action> {
    if n == 0 then [] else [Increment(at)] + Crashes(n - 1, at)
  }

  lemma {:induction false} CrashesCount(l: Limit, s: State, n: nat, at: int)
    requires s.counter.Some? && s.counter.value.expiresAt.None?
    ensures Run(l, s, Crashes(n, at)).counter == Some(Timed(s.counter.value.value + n, None))
    ensures Timely(Crashes(n, at), at)
    decreases n
  {
    if n > 0 {
      assert Crashes(n, at)[1..] == Crashes(n - 1, at);
      CrashesCount(l, Step(l, s, Increment(at)), n - 1, at);
    }
  }

  /**
   * The counter that never heals can be reached. If every hit up to and including the one past the
   * cap crashes, the counter stands past the cap without a deadline, and refuses every completed
   * hit from then on.
   */
  lemma LockoutIsReachable(l: Limit, at: int, hits: seq<Hit>)
    requires l.backend == KvBackend && RateWindows.Timely(hits, at)
    ensures var c := Run(l, START, Crashes(l.maxAttempts + 1, at)).counter;
            && Timely(Crashes(l.maxAttempts + 1, at), at)
            && c == Some(Timed(l.maxAttempts + 1, None))
            && forall lo, hi :: RateWindows.Admitted(l, c, hits, lo, hi) == 0
  {
    var run := Crashes(l.maxAttempts + 1, at);
    assert run[1..] == Crashes(l.maxAttempts, at);
    CrashesCount(l, Step(l, START, Increment(at)), l.maxAttempts, at);
    LockedForever(l, Run(l, START, run).counter, hits, at);
  }
}
