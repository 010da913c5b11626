/** The in-memory key-value adapter: the reference implementation of the storage port. */
module MemoryAdapters {
  import opened Wrappers
  import opened Expiry
  import opened AuthTypes

  /** A stored string. JSON and decimal renderings keep the value they render. */
  datatype Text =
    | Plain(s: string)
    | Decimal(n: nat)
    | ProfileJson(profile: Profile)
    | WalletJson(wallet: EncryptedWallet)

  type Store = map<string, Timed<Text>>
  type Hashes = map<string, map<string, Text>>

  function ParseCount(t: Text): nat {
    match t
    case Decimal(n) => n
    case _ => 0
  }

  function Field(h: Hashes, key: string, field: string): Option<Text> {
    if key in h && field in h[key] then Some(h[key][field]) else None
  }

  function HashAt(h: Hashes, key: string): map<string, Text> {
    if key in h then h[key] else map[]
  }

  datatype Op =
    | Get(key: string)
    | Set(key: string, value: Text, exSeconds: Option<int>)
    | Del(key: string)
    | Incr(key: string)
    | Expire(key: string, seconds: int)
    | GetDel(key: string)

  datatype Answer = Value(text: Option<Text>) | Count(n: nat) | Done

  function Purge(s: Store, key: string, now: int): Store {
    if key in s && Expired(s[key], now) then s - {key} else s
  }

  function ValueOf(e: Option<Timed<Text>>): Option<Text> {
    match e
    case Some(t) => Some(t.value)
    case None => None
  }

  /** A lifetime is looked at for its truth value: none and zero both mean no expiry at all. */
  function Deadline(exSeconds: Option<int>, now: int): Option<int> {
    if exSeconds.Some? && exSeconds.value != 0 then Some(After(exSeconds.value, now)) else None
  }

  /** The string keyspace as a state machine; `now` is the clock reading of the call. */
  function Apply(s: Store, op: Op, now: int): (Store, Answer) {
    match op
    case Get(key) => (Purge(s, key, now), Value(ValueOf(Live(s, key, now))))
    case Set(key, value, ex) => (s[key := Timed(value, Deadline(ex, now))], Done)
    case Del(key) => (s - {key}, Done)
    case Incr(key) =>
      var e := Live(s, key, now);
      var n := (if e.Some? then ParseCount(e.value.value) else 0) + 1;
      (Purge(s, key, now)[key := Timed(Decimal(n), if e.Some? then e.value.expiresAt else None)], Count(n))
    case Expire(key, seconds) =>
      var e := Live(s, key, now);
      (if e.Some? then s[key := Timed(e.value.value, Some(After(seconds, now)))] else Purge(s, key, now), Done)
    case GetDel(key) => (s - {key}, Value(ValueOf(Live(s, key, now))))
  }

  class MemoryAdapter {
    var store: Store
    var hstore: Hashes

    constructor ()
      ensures store == map[] && hstore == map[]
    {
      store, hstore := map[], map[];
    }

    method Alive(key: string, now: int) returns (e: Option<Timed<Text>>)
      modifies this`store
      ensures e == Live(old(store), key, now)
      ensures store == Purge(old(store), key, now)
    {
      if key !in store { return None; }
      e := Some(store[key]);
      if e.value.expiresAt.Some? && e.value.expiresAt.value <= now {
        store := store - {key};
        return None;
      }
    }

    method Read(key: string, now: int) returns (value: Option<Text>)
      modifies this`store
      ensures (store, Value(value)) == Apply(old(store), Get(key), now)
    {
      var e := Alive(key, now);
      value := ValueOf(e);
    }

    method Write(key: string, value: Text, exSeconds: Option<int>, now: int)
      modifies this`store
      ensures (store, Done) == Apply(old(store), Set(key, value, exSeconds), now)
    {
      store := store[key := Timed(value, Deadline(exSeconds, now))];
    }

    method Delete(key: string)
      modifies this
      ensures forall now :: (store, Done) == Apply(old(store), Del(key), now)
      ensures hstore == old(hstore) - {key}
    {
      store := store - {key};
      hstore := hstore - {key};
    }

    method Increment(key: string, now: int) returns (next: nat)
      modifies this`store
      ensures (store, Count(next)) == Apply(old(store), Incr(key), now)
    {
      var current := Alive(key, now);
      next := (if current.Some? then ParseCount(current.value.value) else 0) + 1;
      store := store[key := Timed(Decimal(next), if current.Some? then current.value.expiresAt else None)];
    }

    method ExpireIn(key: string, seconds: int, now: int)
      modifies this`store
      ensures (store, Done) == Apply(old(store), Expire(key, seconds), now)
    {
      var e := Alive(key, now);
      if e.Some? {
        store := store[key := Timed(e.value.value, Some(After(seconds, now)))];
      }
    }

    method Take(key: string, now: int) returns (value: Option<Text>)
      modifies this`store
      ensures (store, Value(value)) == Apply(old(store), GetDel(key), now)
    {
      var e := Alive(key, now);
      value := ValueOf(e);
      assert store - {key} == old(store) - {key};
      store := store - {key};
    }

    method HGet(key: string, field: string) returns (value: Option<Text>)
      ensures value == Field(hstore, key, field)
    {
      if key !in hstore || field !in hstore[key] { return None; }
      value := Some(hstore[key][field]);
    }

    method HSet(key: string, field: string, value: Text)
      modifies this`hstore
      ensures hstore == old(hstore)[key := HashAt(old(hstore), key)[field := value]]
    {
      if key !in hstore { hstore := hstore[key := map[]]; }
      hstore := hstore[key := hstore[key][field := value]];
    }

    method HSetNx(key: string, field: string, value: Text) returns (created: bool)
      modifies this`hstore
      ensures created == Field(old(hstore), key, field).None?
      ensures hstore[key := map[]] == old(hstore)[key := map[]]
      ensures HashAt(hstore, key)
           == if created then HashAt(old(hstore), key)[field := value] else HashAt(old(hstore), key)
    {
      if key !in hstore { hstore := hstore[key := map[]]; }
      if field in hstore[key] { return false; }
      hstore := hstore[key := hstore[key][field := value]];
      created := true;
    }

    method HDel(key: string, field: string)
      modifies this`hstore
      ensures hstore[key := map[]] == old(hstore)[key := map[]]
      ensures HashAt(hstore, key) == HashAt(old(hstore), key) - {field}
      ensures key in hstore ==> hstore[key] != map[] || hstore == old(hstore)
    {
      if key in hstore {
        var h := hstore[key] - {field};
        hstore := hstore[key := h];
        if |h| == 0 { hstore := hstore - {key}; }
      }
    }

    method HGetAll(key: string) returns (h: map<string, Text>)
      ensures h == HashAt(hstore, key)
    {
      h := if key in hstore then hstore[key] else map[];
    }

    /**
     * Reclaims dead entries, in whatever order the map is walked. Only dead entries go, the count
     * is exact, the batch is bounded, and a batch that stopped short left no dead entry behind.
     */
    method SweepExpired(limit: Option<int>, now: int) returns (removed: nat)
      modifies this`store
      ensures Swept(old(store), store, now)
      ensures removed == |old(store)| - |store|
      ensures limit.Some? ==> removed <= if limit.value < 0 then 0 else limit.value
      ensures limit.None? || removed < limit.value ==> forall k :: k in store ==> !Expired(store[k], now)
    {
      removed := 0;
      var pending := store.Keys;
      while pending != {}
        invariant pending <= store.Keys
        invariant Swept(old(store), store, now)
        invariant removed == |old(store)| - |store|
        invariant limit.Some? ==> removed <= if limit.value < 0 then 0 else limit.value
        invariant forall k :: k in store && k !in pending ==> !Expired(store[k], now)
      {
        if limit.Some? && removed >= limit.value { return; }
        var key :| key in pending;
        pending := pending - {key};
        if store[key].expiresAt.Some? && store[key].expiresAt.value <= now {
          var kept := store - {key};
          assert kept.Keys == store.Keys - {key};
          assert |kept| == |kept.Keys| && |store| == |store.Keys|;
          store := kept;
          removed := removed + 1;
        }
      }
    }
  }

  // Sweeping is space reclamation only.

  /** Two stores no reader can tell apart from `now` on. */
  ghost predicate Indistinguishable(s: Store, s': Store, now: int) {
    forall key :: Live(s, key, now) == Live(s', key, now)
  }

  lemma SweptIndistinguishable(s: Store, s': Store, now: int)
    requires Swept(s, s', now)
    ensures Indistinguishable(s, s', now)
  {
  }

  lemma IndistinguishableLater(s: Store, s': Store, now: int, later: int)
    requires Indistinguishable(s, s', now) && now <= later
    ensures Indistinguishable(s, s', later)
  {
    forall key ensures Live(s, key, later) == Live(s', key, later) {
      LiveLater(s, key, now, later);
      LiveLater(s', key, now, later);
    }
  }

  lemma ApplyIndistinguishable(s: Store, s': Store, op: Op, now: int)
    requires Indistinguishable(s, s', now)
    ensures Apply(s, op, now).1 == Apply(s', op, now).1
    ensures Indistinguishable(Apply(s, op, now).0, Apply(s', op, now).0, now)
  {
    assert Live(s, op.key, now) == Live(s', op.key, now);
    var r, r' := Apply(s, op, now).0, Apply(s', op, now).0;
    forall key ensures Live(r, key, now) == Live(r', key, now) {
      assert Live(s, key, now) == Live(s', key, now);
    }
  }

  /** A run: calls at their clock readings, with sweeps anywhere between, each leaving the store it will. */
  datatype Event = Call(op: Op, at: int) | Sweep(left: Store, at: int)

  /** A sweep leaves what `SweepExpired` may leave; nothing else counts as one. */
  ghost function AfterSweep(s: Store, left: Store, now: int): Store {
    if Swept(s, left, now) then left else s
  }

  ghost function Answers(s: Store, run: seq<Event>): seq<Answer>
    decreases run
  {
    if run == [] then []
    else match run[0]
      case Call(op, at) => [Apply(s, op, at).1] + Answers(Apply(s, op, at).0, run[1..])
      case Sweep(left, at) => Answers(AfterSweep(s, left, at), run[1..])
  }

  function CallsOnly(run: seq<Event>): seq<Event> {
    if run == [] then []
    else if run[0].Call? then [run[0]] + CallsOnly(run[1..])
    else CallsOnly(run[1..])
  }

  predicate Timely(run: seq<Event>, from: int) {
    run != [] ==> from <= run[0].at && Timely(run[1..], run[0].at)
  }

  lemma {:induction false} SweepsUnseen(s: Store, s': Store, run: seq<Event>, from: int)
    requires Indistinguishable(s, s', from) && Timely(run, from)
    ensures Answers(s, run) == Answers(s', CallsOnly(run))
    decreases run
  {
    if run != [] {
      var at := run[0].at;
      IndistinguishableLater(s, s', from, at);
      match run[0]
      case Call(op, _) =>
        ApplyIndistinguishable(s, s', op, at);
        SweepsUnseen(Apply(s, op, at).0, Apply(s', op, at).0, run[1..], at);
        assert CallsOnly(run)[0] == run[0] && CallsOnly(run)[1..] == CallsOnly(run[1..]);
      case Sweep(left, _) =>
        var d := AfterSweep(s, left, at);
        if Swept(s, left, at) { SweptIndistinguishable(s, left, at); }
        forall key ensures Live(d, key, at) == Live(s', key, at) {
          assert Live(s, key, at) == Live(s', key, at);
        }
        SweepsUnseen(d, s', run[1..], at);
    }
  }

  /**
   * However sweeps are scheduled, and whatever dead entries each of them takes, every call of
   * every run answers as if none had happened.
   */
  lemma SweepingIsInvisible(s: Store, run: seq<Event>, from: int)
    requires Timely(run, from)
    ensures Answers(s, run) == Answers(s, CallsOnly(run))
  {
    SweepsUnseen(s, s, run, from);
  }
}
