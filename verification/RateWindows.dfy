/**
 * What one rate-limit counter does over whole runs of hits. A hit is durable once it has answered;
 * on the one connection of the SQLite driver that is so on quiet runs only (`SqliteClients`).
 */
module RateWindows {
  import opened Wrappers
  import opened Expiry
  import opened AuthSpec

  /** A completed hit: the clock at the increment, and at the expiry call that may follow it. */
  datatype Hit = Hit(read: int, stamp: int)

  datatype Limit = Limit(backend: Backend, windowSeconds: int, maxAttempts: nat)
  {
    function Span(): int {
      windowSeconds * 1000
    }
  }

  type Counter = Option<Timed<nat>>

  function Next(l: Limit, c: Counter, h: Hit): Timed<nat> {
    HitCounter(l.backend, Later(c, h.read), l.windowSeconds, l.maxAttempts, h.read, h.stamp)
  }

  predicate Allowed(l: Limit, c: Counter, h: Hit) {
    Next(l, c, h).value <= l.maxAttempts
  }

  /** Hits on one counter, one after the other, under a nondecreasing clock. */
  predicate Timely(hits: seq<Hit>, from: int) {
    hits != [] ==> from <= hits[0].read <= hits[0].stamp && Timely(hits[1..], hits[0].stamp)
  }

  function Run(l: Limit, c: Counter, hits: seq<Hit>): Counter
    decreases hits
  {
    if hits == [] then c else Run(l, Some(Next(l, c, hits[0])), hits[1..])
  }

  /** How many hits the run admits with a clock reading in `[lo, hi)`. */
  function Admitted(l: Limit, c: Counter, hits: seq<Hit>, lo: int, hi: int): nat
    decreases hits
  {
    if hits == [] then 0
    else
      var one := if lo <= hits[0].read < hi && Allowed(l, c, hits[0]) then 1 else 0;
      one + Admitted(l, Some(Next(l, c, hits[0])), hits[1..], lo, hi)
  }

  function Room(l: Limit, n: nat): nat {
    if n < l.maxAttempts then l.maxAttempts - n else 0
  }

  lemma {:induction false} NothingAfter(l: Limit, c: Counter, hits: seq<Hit>, lo: int, hi: int, from: int)
    requires Timely(hits, from) && hi <= from
    ensures Admitted(l, c, hits, lo, hi) == 0
    decreases hits
  {
    if hits != [] { NothingAfter(l, Some(Next(l, c, hits[0])), hits[1..], lo, hi, hits[0].stamp); }
  }

  /** A window that outlives the interval admits what is left of it. */
  lemma {:induction false} InsideWindow(l: Limit, c: Timed<nat>, hits: seq<Hit>, lo: int, from: int)
    requires l.windowSeconds >= 1 && Timely(hits, from) && lo <= from
    requires c.expiresAt.Some? ==> lo + l.Span() <= c.expiresAt.value
    requires c.value >= 1
    ensures Admitted(l, Some(c), hits, lo, lo + l.Span()) <= Room(l, c.value)
    decreases hits
  {
    if hits != [] {
      var h := hits[0];
      if h.read < lo + l.Span() {
        InsideWindow(l, Next(l, Some(c), h), hits[1..], lo, h.stamp);
      } else {
        NothingAfter(l, Some(Next(l, Some(c), h)), hits[1..], lo, lo + l.Span(), h.stamp);
      }
    }
  }

  /** An interval one window long meets the end of one window and the start of one more. */
  lemma {:induction false} AcrossWindows(l: Limit, c: Timed<nat>, hits: seq<Hit>, lo: int, from: int)
    requires l.windowSeconds >= 1 && Timely(hits, from) && lo <= from
    requires c.value >= 1
    ensures Admitted(l, Some(c), hits, lo, lo + l.Span()) <= Room(l, c.value) + l.maxAttempts
    decreases hits
  {
    if hits != [] {
      var h := hits[0];
      var next := Next(l, Some(c), h);
      if lo + l.Span() <= h.read {
        NothingAfter(l, Some(next), hits[1..], lo, lo + l.Span(), h.stamp);
      } else if Expired(c, h.read) {
        InsideWindow(l, next, hits[1..], lo, h.stamp);
      } else {
        AcrossWindows(l, next, hits[1..], lo, h.stamp);
      }
    }
  }

  /**
   * The burst bound. From any counter, over any run of durable hits, no interval one window long
   * admits more than twice the limit, on either backend.
   */
  lemma {:induction false} BurstBound(l: Limit, c: Counter, hits: seq<Hit>, lo: int, from: int)
    requires l.windowSeconds >= 1 && Timely(hits, from)
    requires c.Some? ==> c.value.value >= 1
    ensures Admitted(l, c, hits, lo, lo + l.Span()) <= 2 * l.maxAttempts
    decreases hits
  {
    if hits != [] {
      var h := hits[0];
      var next := Next(l, c, h);
      if h.read < lo {
        BurstBound(l, Some(next), hits[1..], lo, h.stamp);
      } else {
        AcrossWindows(l, next, hits[1..], lo, h.stamp);
      }
    }
  }

  /** When the window a run leaves open was born: the clock at its first hit. */
  function Birth(l: Limit, c: Counter, born: int, hits: seq<Hit>): int
    decreases hits
  {
    if hits == [] then born
    else
      var h := hits[0];
      var next := Next(l, c, h);
      var opening := if l.backend == SqlBackend then h.read else h.stamp;
      Birth(l, Some(next), if Later(c, h.read).None? then opening else born, hits[1..])
  }

  /** A window on SQL lasts exactly one span; on a key-value backend at least one and less than two. */
  predicate WindowOpen(l: Limit, c: Timed<nat>, born: int) {
    && c.value >= 1 && c.expiresAt.Some?
    && born + l.Span() <= c.expiresAt.value < born + 2 * l.Span()
    && (c.value <= l.maxAttempts || l.backend == SqlBackend ==> c.expiresAt.value == born + l.Span())
  }

  lemma {:induction false} WindowKept(l: Limit, c: Counter, born: int, hits: seq<Hit>, from: int)
    requires l.windowSeconds >= 1 && Timely(hits, from) && born <= from
    requires c.Some? ==> WindowOpen(l, c.value, born)
    ensures Run(l, c, hits).Some? ==> WindowOpen(l, Run(l, c, hits).value, Birth(l, c, born, hits))
    ensures born <= Birth(l, c, born, hits)
    decreases hits
  {
    if hits != [] {
      var h := hits[0];
      var next := Next(l, c, h);
      var opening := if l.backend == SqlBackend then h.read else h.stamp;
      var born' := if Later(c, h.read).None? then opening else born;
      assert WindowOpen(l, next, born');
      WindowKept(l, Some(next), born', hits[1..], h.stamp);
    }
  }

  /**
   * No lockout. However a run of completed hits went, a hit two spans after its window was born
   * starts a fresh window; on SQL one span is enough.
   */
  lemma NoLockout(l: Limit, hits: seq<Hit>, h: Hit, from: int)
    requires l.windowSeconds >= 1 && Timely(hits, from) && l.maxAttempts >= 1
    requires Birth(l, None, from, hits) + (if l.backend == SqlBackend then l.Span() else 2 * l.Span()) <= h.read
    ensures Next(l, Run(l, None, hits), h).value == 1 && Allowed(l, Run(l, None, hits), h)
  {
    WindowKept(l, None, from, hits, from);
  }

  // A key-value hit that crashes between its increment and its expiry call.

  /** A counter without an expiry: its first hit crashed. */
  predicate Undated(c: Counter) {
    c.Some? && c.value.expiresAt.None? && c.value.value >= 1
  }

  /**
   * What it takes to heal. From a counter left without an expiry at `n`, completed hits leave it
   * so exactly until the hit past the cap completes.
   */
  lemma {:induction false} HealsAtCap(l: Limit, c: Counter, hits: seq<Hit>, from: int)
    requires l.backend == KvBackend && Undated(c) && Timely(hits, from)
    requires c.value.value <= l.maxAttempts && |hits| <= l.maxAttempts + 1 - c.value.value
    ensures Run(l, c, hits).Some? && Run(l, c, hits).value.value == c.value.value + |hits|
    ensures Undated(Run(l, c, hits)) <==> |hits| < l.maxAttempts + 1 - c.value.value
    decreases hits
  {
    if hits != [] {
      var next := Next(l, c, hits[0]);
      if next.value <= l.maxAttempts {
        HealsAtCap(l, Some(next), hits[1..], hits[0].stamp);
      } else {
        assert hits[1..] == [];
      }
    }
  }

  /** If the hit past the cap crashes as well, the counter never heals: every later hit is refused. */
  lemma {:induction false} LockedForever(l: Limit, c: Counter, hits: seq<Hit>, from: int)
    requires l.backend == KvBackend && Undated(c) && c.value.value > l.maxAttempts && Timely(hits, from)
    ensures Undated(Run(l, c, hits)) && Run(l, c, hits).value.value > l.maxAttempts
    ensures forall lo, hi :: Admitted(l, c, hits, lo, hi) == 0
    decreases hits
  {
    if hits != [] {
      LockedForever(l, Some(Next(l, c, hits[0])), hits[1..], hits[0].stamp);
    }
  }

  /**
   * The exact condition. A counter left without an expiry refuses every completed run from here
   * on if and only if it already stands past the cap.
   */
  lemma LockedForeverExactly(l: Limit, c: Counter, from: int)
    requires l.backend == KvBackend && l.windowSeconds >= 1 && l.maxAttempts >= 1 && Undated(c)
    ensures c.value.value > l.maxAttempts
       <==> forall hits :: Timely(hits, from) ==> Admitted(l, c, hits, from, Horizon(l, from)) == 0
  {
    if c.value.value > l.maxAttempts {
      forall hits | Timely(hits, from) ensures Admitted(l, c, hits, from, Horizon(l, from)) == 0 {
        LockedForever(l, c, hits, from);
      }
    } else {
      var hits := Healing(l.maxAttempts + 1 - c.value.value, l, from);
      HealingAdmits(l.maxAttempts + 1 - c.value.value, l, c, from);
    }
  }

  function Horizon(l: Limit, from: int): int {
    from + l.Span() + 1
  }

  /** `k` hits now, and one more when the window they stamp has passed. */
  function Healing(k: nat, l: Limit, from: int): seq<Hit> {
    if k == 0 then [Hit(from + l.Span(), from + l.Span())] else [Hit(from, from)] + Healing(k - 1, l, from)
  }

  lemma {:induction false} HealingAdmits(k: nat, l: Limit, c: Counter, from: int)
    requires l.backend == KvBackend && l.windowSeconds >= 1 && l.maxAttempts >= 1
    requires c.Some? && 1 <= c.value.value <= l.maxAttempts + 1 && k == l.maxAttempts + 1 - c.value.value
    requires if k == 0 then c.value.expiresAt == Some(After(l.windowSeconds, from)) else c.value.expiresAt.None?
    ensures Timely(Healing(k, l, from), from)
    ensures Admitted(l, c, Healing(k, l, from), from, Horizon(l, from)) >= 1
    decreases k
  {
    var hits := Healing(k, l, from);
    if k == 0 {
      assert hits[1..] == [] && Allowed(l, c, hits[0]);
    } else {
      assert hits[1..] == Healing(k - 1, l, from);
      HealingAdmits(k - 1, l, Some(Next(l, c, hits[0])), from);
    }
  }
}
