/** The SQL schema, the rate-limit upsert in both evaluation orders, and what the tables stand for. */
module SqlTables {
  import opened Wrappers
  import opened Strings
  import opened Expiry
  import opened AuthTypes
  import opened Keys
  import Spec = AuthSpec
  import opened MemoryAdapters
  import opened KvStore

  datatype UserRow = UserRow(data: Text, authTokenHash: Option<string>)
  datatype WalletId = WalletId(user: Key, slot: Slot)
  /** The primary key of a rate-limit row: a global bucket has an empty `app_id`. */
  datatype LimitId = LimitId(endpoint: string, appId: string, identifier: string)

  /** Every row that can expire carries its deadline; `Dated` says so. */
  datatype Tables = Tables(
    users: map<Key, UserRow>,
    userWallets: map<WalletId, Text>,
    emailIndex: map<Spec.Address, string>,
    sessions: map<Key, Timed<SessionValue>>,
    challenges: map<Key, Timed<()>>,
    rateLimits: map<LimitId, Timed<nat>>)

  const NO_TABLES := Tables(map[], map[], map[], map[], map[], map[])

  predicate Dated<K, V>(m: map<K, Timed<V>>) {
    forall k :: k in m ==> m[k].expiresAt.Some?
  }

  function IdOf(b: RateLimitBucket): LimitId {
    LimitId(b.endpoint, b.appId.GetOr(""), b.identifier)
  }

  /** All the schema asks of a bucket: an app's id is not the empty one that stands for none. */
  predicate Scoped(b: RateLimitBucket) {
    b.appId != Some("")
  }

  /** Two rows are one iff the buckets are, or differ in an empty id against none. */
  lemma IdOfInjective(b1: RateLimitBucket, b2: RateLimitBucket)
    ensures IdOf(b1) == IdOf(b2)
       <==> || b1 == b2
            || (b1.endpoint == b2.endpoint && b1.identifier == b2.identifier
                && {b1.appId, b2.appId} == {None, Some("")})
  {
    assert b1.appId.Some? ==> b1.appId.value == IdOf(b1).appId;
    assert b2.appId.Some? ==> b2.appId.value == IdOf(b2).appId;
  }

  /**
   * Where the backends part on buckets: a global identifier that spells out a scoped bucket shares
   * its key-value counter, and has an SQL row of its own.
   */
  lemma MixedBucketsPart(p: KeyPrefixes, b1: RateLimitBucket, b2: RateLimitBucket)
    requires Scoped(b1) && Scoped(b2) && Free(':', b1.endpoint) && Free(':', b2.endpoint)
    requires b1.appId.Some? ==> Free(':', b1.appId.value)
    requires b2.appId.Some? ==> Free(':', b2.appId.value)
    ensures Build(p, LimitKey(b1)) == Build(p, LimitKey(b2)) && IdOf(b1) != IdOf(b2)
       <==> Impersonates(b1, b2) || Impersonates(b2, b1)
  {
    BucketsCollideExactly(b1, b2);
    BuildSplits(p, LimitKey(b1));
    BuildSplits(p, LimitKey(b2));
    IdOfInjective(b1, b2);
    var k1, k2 := Build(p, LimitKey(b1)), Build(p, LimitKey(b2));
    assert Body(LimitKey(b1)) == k1[|PrefixOf(p, LimitKey(b1))|..];
    assert Body(LimitKey(b2)) == k2[|PrefixOf(p, LimitKey(b2))|..];
  }

  // The rate-limit upsert.

  datatype Column = CountColumn | ExpiresColumn
  datatype LimitRow = LimitRow(count: int, expiresAt: int)

  /** `column = CASE WHEN expires_at <= now THEN ifDead ELSE column + ifLive END`. */
  datatype SetClause = SetClause(column: Column, now: int, ifDead: int, ifLive: int)

  function Cell(row: LimitRow, c: Column): int {
    match c case CountColumn => row.count case ExpiresColumn => row.expiresAt
  }

  function WithCell(row: LimitRow, c: Column, v: int): LimitRow {
    match c case CountColumn => row.(count := v) case ExpiresColumn => row.(expiresAt := v)
  }

  function Eval(s: SetClause, row: LimitRow): int {
    if row.expiresAt <= s.now then s.ifDead else Cell(row, s.column) + s.ifLive
  }

  /** Standard SQL: every right-hand side reads the old row. */
  function UpdateAtOnce(row: LimitRow, clauses: seq<SetClause>): LimitRow {
    if clauses == [] then row
    else WithCell(UpdateAtOnce(row, clauses[..|clauses| - 1]), clauses[|clauses| - 1].column,
                  Eval(clauses[|clauses| - 1], row))
  }

  /** MySQL: clauses run left to right, each reading what the earlier ones assigned. */
  function UpdateInOrder(row: LimitRow, clauses: seq<SetClause>): LimitRow
    decreases clauses
  {
    if clauses == [] then row
    else UpdateInOrder(WithCell(row, clauses[0].column, Eval(clauses[0], row)), clauses[1..])
  }

  function HitClauses(now: int, renewed: int): seq<SetClause> {
    [SetClause(CountColumn, now, 1, 1), SetClause(ExpiresColumn, now, renewed, 0)]
  }

  /** Count first, expiry second: both evaluation orders leave the same row. */
  lemma HitClausesOrderFree(row: LimitRow, now: int, renewed: int)
    ensures UpdateAtOnce(row, HitClauses(now, renewed)) == UpdateInOrder(row, HitClauses(now, renewed))
         == if row.expiresAt <= now then LimitRow(1, renewed) else LimitRow(row.count + 1, row.expiresAt)
  {
    var cs := HitClauses(now, renewed);
    var mid := WithCell(row, CountColumn, Eval(cs[0], row));
    assert cs[..1][..0] == [] && cs[1..][1..] == [];
    assert UpdateAtOnce(row, cs[..0]) == row && UpdateAtOnce(row, cs[..1]) == mid;
    assert UpdateInOrder(row, cs) == UpdateInOrder(mid, cs[1..]);
    assert UpdateInOrder(mid, cs[1..]) == UpdateInOrder(WithCell(mid, ExpiresColumn, Eval(cs[1], mid)), []);
  }

  /**
   * With the clauses the other way round a left-to-right engine resumes a dead count instead of
   * starting a fresh window, and does so on exactly the rows whose dead count was not zero.
   */
  lemma ReversedClausesResume(row: LimitRow, now: int, renewed: int)
    requires now < renewed
    ensures var cs := HitClauses(now, renewed);
            UpdateInOrder(row, [cs[1], cs[0]]) != UpdateAtOnce(row, cs) <==> row.expiresAt <= now && row.count != 0
  {
    HitClausesOrderFree(row, now, renewed);
    var cs := HitClauses(now, renewed);
    var rev := [cs[1], cs[0]];
    var mid := WithCell(row, ExpiresColumn, Eval(cs[1], row));
    assert rev[1..] == [cs[0]] && rev[1..][1..] == [];
    assert UpdateInOrder(row, rev) == UpdateInOrder(mid, rev[1..]);
    assert UpdateInOrder(mid, rev[1..]) == UpdateInOrder(WithCell(mid, CountColumn, Eval(cs[0], mid)), []);
  }

  // What the tables stand for.

  function WalletCell(t: Tables, u: Key, s: Slot): Option<Text> {
    if WalletId(u, s) in t.userWallets then Some(t.userWallets[WalletId(u, s)]) else None
  }

  ghost predicate RecordAgrees(t: Tables, r: Spec.Record, u: Key) {
    && (u in t.users <==> r.profile.Some?)
    && (u in t.users ==> t.users[u] == UserRow(ProfileJson(r.profile.value), r.pointer))
    && (u !in t.users ==> r.pointer.None?)
    && forall s: Slot :: WalletCell(t, u, s) == WalletAt(r.slots, s)
  }

  ghost predicate TablesAgree(t: Tables, a: Spec.AuthState, now: int) {
    && Dated(t.sessions) && Dated(t.challenges) && Dated(t.rateLimits)
    && (forall u: Key :: RecordAgrees(t, Spec.RecordAt(a, u), u))
    && t.emailIndex == a.emails
    && (forall k: Key :: Live(t.sessions, k, now) == Live(a.sessions, k, now))
    && (forall k: Key :: Live(t.challenges, k, now) == Live(a.challenges, k, now))
    && (forall b :: Scoped(b) ==> Live(t.rateLimits, IdOf(b), now) == Live(a.limits, b, now))
  }

  lemma TablesAgreeLater(t: Tables, a: Spec.AuthState, now: int, later: int)
    requires TablesAgree(t, a, now) && now <= later
    ensures TablesAgree(t, a, later)
  {
    forall k: Key ensures Live(t.sessions, k, later) == Live(a.sessions, k, later)
                  ensures Live(t.challenges, k, later) == Live(a.challenges, k, later) {
      LiveLater(t.sessions, k, now, later);
      LiveLater(a.sessions, k, now, later);
      LiveLater(t.challenges, k, now, later);
      LiveLater(a.challenges, k, now, later);
    }
    forall b | Scoped(b) ensures Live(t.rateLimits, IdOf(b), later) == Live(a.limits, b, later) {
      LiveLater(t.rateLimits, IdOf(b), now, later);
      LiveLater(a.limits, b, now, later);
    }
  }

  /** A change outside the user tables needs only the changed tables to be looked at again. */
  lemma RowsUpdate(t: Tables, t': Tables, a: Spec.AuthState, a': Spec.AuthState, now: int)
    requires TablesAgree(t, a, now)
    requires t'.users == t.users && t'.userWallets == t.userWallets && a'.records == a.records
    requires Dated(t'.sessions) && Dated(t'.challenges) && Dated(t'.rateLimits)
    requires t'.emailIndex == a'.emails
    requires forall k: Key :: Live(t.sessions, k, now) == Live(a.sessions, k, now) ==>
               Live(t'.sessions, k, now) == Live(a'.sessions, k, now)
    requires forall k: Key :: Live(t.challenges, k, now) == Live(a.challenges, k, now) ==>
               Live(t'.challenges, k, now) == Live(a'.challenges, k, now)
    requires forall b :: Scoped(b) && Live(t.rateLimits, IdOf(b), now) == Live(a.limits, b, now) ==>
               Live(t'.rateLimits, IdOf(b), now) == Live(a'.limits, b, now)
    ensures TablesAgree(t', a', now)
  {
    forall u: Key ensures RecordAgrees(t', Spec.RecordAt(a', u), u) {
      assert RecordAgrees(t, Spec.RecordAt(a, u), u);
      forall s: Slot ensures WalletCell(t', u, s) == WalletAt(Spec.RecordAt(a', u).slots, s) {
        assert WalletCell(t', u, s) == WalletCell(t, u, s);
      }
    }
  }

  /** Dropping dead rows from the three expiring tables is invisible. */
  lemma SweptTablesAgree(t: Tables, t': Tables, a: Spec.AuthState, now: int)
    requires TablesAgree(t, a, now)
    requires t' == t.(sessions := t'.sessions, challenges := t'.challenges, rateLimits := t'.rateLimits)
    requires Swept(t.sessions, t'.sessions, now) && Swept(t.challenges, t'.challenges, now)
    requires Swept(t.rateLimits, t'.rateLimits, now)
    ensures TablesAgree(t', a, now)
  {
    forall k: Key ensures Live(t'.sessions, k, now) == Live(a.sessions, k, now)
                  ensures Live(t'.challenges, k, now) == Live(a.challenges, k, now) {
      assert Live(t.sessions, k, now) == Live(a.sessions, k, now);
      assert Live(t.challenges, k, now) == Live(a.challenges, k, now);
    }
    forall b | Scoped(b) ensures Live(t'.rateLimits, IdOf(b), now) == Live(a.limits, b, now) {
      assert Live(t.rateLimits, IdOf(b), now) == Live(a.limits, b, now);
    }
    RowsUpdate(t, t', a, a, now);
  }

  /** Replacing one user's rows leaves every other record alone. */
  lemma UserUpdate(t: Tables, t': Tables, a: Spec.AuthState, u: Key, r: Spec.Record, now: int)
    requires TablesAgree(t, a, now)
    requires t' == t.(users := t'.users, userWallets := t'.userWallets)
    requires forall v :: v != u ==> (v in t'.users <==> v in t.users) && (v in t.users ==> t'.users[v] == t.users[v])
    requires forall v, s :: v != u ==> WalletCell(t', v, s) == WalletCell(t, v, s)
    requires RecordAgrees(t', r, u)
    ensures TablesAgree(t', a.(records := a.records[u := r]), now)
  {
    var a' := a.(records := a.records[u := r]);
    forall v: Key ensures RecordAgrees(t', Spec.RecordAt(a', v), v) {
      if v != u {
        assert RecordAgrees(t, Spec.RecordAt(a, v), v);
        forall s: Slot ensures WalletCell(t', v, s) == WalletAt(Spec.RecordAt(a, v).slots, s) {
          assert WalletCell(t', v, s) == WalletCell(t, v, s);
        }
      }
    }
  }

  lemma LimitUpdate(t: Tables, a: Spec.AuthState, b0: RateLimitBucket, row: Timed<nat>, now: int)
    requires TablesAgree(t, a, now) && Scoped(b0) && row.expiresAt.Some?
    ensures TablesAgree(t.(rateLimits := t.rateLimits[IdOf(b0) := row]), a.(limits := a.limits[b0 := row]), now)
  {
    var t', a' := t.(rateLimits := t.rateLimits[IdOf(b0) := row]), a.(limits := a.limits[b0 := row]);
    forall b | Scoped(b) ensures Live(t'.rateLimits, IdOf(b), now) == Live(a'.limits, b, now) {
      if IdOf(b) == IdOf(b0) { IdOfInjective(b, b0); }
      assert Live(t.rateLimits, IdOf(b), now) == Live(a.limits, b, now);
    }
    RowsUpdate(t, t', a, a', now);
  }

  /**
   * Losing the insert to a rival's committed registration is what the abstract write answers after
   * that registration: the two transactions are serial, unless the rival is the same key.
   */
  lemma LostInsertIsSerial(a: Spec.AuthState, user: UserData, rival: UserData)
    requires Truthy(user.profile.email) && Spec.AddressOf(user) !in a.emails
    requires Truthy(rival.profile.email) && Spec.AddressOf(rival) == Spec.AddressOf(user)
    ensures var after := Spec.PutUser(Spec.SqlBackend, a, rival).0;
            (after, false) == Spec.PutUser(Spec.SqlBackend, after, user)
            <==> rival.profile.publicKey != user.profile.publicKey
  {
  }
}
