/**
 * Logins, verifications, logouts and expiries on one record, interleaved at every store call.
 * A crash, or a store call that fails, is a process that is never scheduled again.
 */
module SessionRace {
  import opened Wrappers

  /** A token digest. Tokens are random, so digests of distinct logins are distinct. */
  type Hash = string

  /** How far a login has come through issueSession's four store calls. */
  datatype LoginPc = Arrived | Snapshotted | Deleted | Stored | Done
  datatype Login = Login(token: Hash, snapshot: Option<Hash>, pc: LoginPc)

  /** A verification reads the session, then the session the record points to; a logout then deletes. */
  datatype CheckPc = Asked | SawSession | Accepted | Rejected | Revoked
  datatype Check = Check(
    token: Hash, logout: bool, pc: CheckPc,
    /** Whether, at some instant between the two reads, the session was live and pointed to. */
    active: bool,
    /** Whether, between the two reads, the session ran out. */
    ranOut: bool)

  datatype State = State(
    logins: seq<Login>, checks: seq<Check>,
    pointer: Option<Hash>, sessions: set<Hash>,
    /** Digests that were there before the run, and those lost to time and to logout. */
    initial: set<Hash>, expired: set<Hash>, revoked: set<Hash>)

  datatype Action =
    | Arrive(token: Hash)
    | Snapshot(login: nat)
    | DeletePrevious(login: nat)
    | PutSession(login: nat)
    | SetPointer(login: nat)
    | Ask(hash: Hash, logout: bool)
    | ReadSession(check: nat)
    | Refuse(check: nat)
    | ReadPointer(check: nat)
    | Revoke(check: nat)
    | Expire(gone: set<Hash>)

  predicate At(s: State, i: nat, pc: LoginPc) {
    i < |s.logins| && s.logins[i].pc == pc
  }

  predicate CheckAt(s: State, j: nat, pc: CheckPc) {
    j < |s.checks| && s.checks[j].pc == pc
  }

  predicate Enabled(s: State, a: Action) {
    match a
    case Arrive(token) => token !in s.initial && forall i :: 0 <= i < |s.logins| ==> s.logins[i].token != token
    case Snapshot(i) => At(s, i, Arrived)
    case DeletePrevious(i) => At(s, i, Snapshotted)
    case PutSession(i) => At(s, i, Deleted)
    case SetPointer(i) => At(s, i, Stored)
    case Ask(_, _) => true
    case ReadSession(j) => CheckAt(s, j, Asked)
    case Refuse(j) => CheckAt(s, j, Asked)
    case ReadPointer(j) => CheckAt(s, j, SawSession)
    case Revoke(j) => CheckAt(s, j, Accepted) && s.checks[j].logout
    case Expire(gone) => gone <= s.sessions
  }

  function Move(s: State, i: nat, pc: LoginPc): State
    requires i < |s.logins|
  {
    s.(logins := s.logins[i := s.logins[i].(pc := pc)])
  }

  function MoveCheck(s: State, j: nat, pc: CheckPc): State
    requires j < |s.checks|
  {
    s.(checks := s.checks[j := s.checks[j].(pc := pc)])
  }

  function AsSet(h: Option<Hash>): set<Hash> {
    match h case None => {} case Some(x) => {x}
  }

  /** What the store calls do. */
  function Call(s: State, a: Action): State
    requires Enabled(s, a)
  {
    match a
    case Arrive(token) => s.(logins := s.logins + [Login(token, None, Arrived)])
    case Snapshot(i) => s.(logins := s.logins[i := s.logins[i].(snapshot := s.pointer, pc := Snapshotted)])
    case DeletePrevious(i) => Move(s, i, Deleted).(sessions := s.sessions - AsSet(s.logins[i].snapshot))
    case PutSession(i) => Move(s, i, Stored).(sessions := s.sessions + {s.logins[i].token})
    case SetPointer(i) => Move(s, i, Done).(pointer := Some(s.logins[i].token))
    case Ask(hash, logout) => s.(checks := s.checks + [Check(hash, logout, Asked, false, false)])
    case ReadSession(j) => MoveCheck(s, j, if s.checks[j].token in s.sessions then SawSession else Rejected)
    // The session is there but its fingerprint does not fit.
    case Refuse(j) => MoveCheck(s, j, Rejected)
    case ReadPointer(j) => MoveCheck(s, j, if s.pointer == Some(s.checks[j].token) then Accepted else Rejected)
    case Revoke(j) =>
      var token := s.checks[j].token;
      MoveCheck(s, j, Revoked).(sessions := s.sessions - {token}, revoked := s.revoked + {token})
    case Expire(gone) => s.(sessions := s.sessions - gone, expired := s.expired + gone)
  }

  predicate Verifies(s: State, h: Hash) {
    h in s.sessions && s.pointer == Some(h)
  }

  /** Records, for every verification between its two reads, what becomes of its token. */
  function Observe(s: State): State {
    s.(checks := seq(|s.checks|, j requires 0 <= j < |s.checks| =>
      if s.checks[j].pc != SawSession then s.checks[j]
      else s.checks[j].(active := s.checks[j].active || Verifies(s, s.checks[j].token),
                        ranOut := s.checks[j].ranOut || s.checks[j].token in s.expired)))
  }

  function Step(s: State, a: Action): State {
    if Enabled(s, a) then Observe(Call(s, a)) else s
  }

  function Play(s: State, run: seq<Action>): State {
    if run == [] then s else Step(Play(s, run[..|run| - 1]), run[|run| - 1])
  }

  /** A record at rest: whatever it points to is live, or has run out. */
  predicate Initial(s: State) {
    && s.logins == [] && s.checks == [] && s.revoked == {}
    && s.sessions + s.expired + AsSet(s.pointer) <= s.initial
    && AsSet(s.pointer) <= s.sessions + s.expired
    && s.sessions !! s.expired
  }

  ghost predicate DoneToken(s: State, h: Hash) {
    exists i :: 0 <= i < |s.logins| && s.logins[i].pc == Done && s.logins[i].token == h
  }

  /** Digests that have been pointed to. */
  ghost predicate Pointed(s: State, h: Hash) {
    h in s.initial || DoneToken(s, h)
  }

  /** Between deleting its snapshot and pointing the record at its own token. */
  predicate Holding(l: Login) {
    l.pc == Deleted || l.pc == Stored
  }

  /** An unfinished login that has already deleted `h`. */
  ghost predicate HeldDeleted(s: State, h: Hash) {
    exists i :: 0 <= i < |s.logins| && Holding(s.logins[i]) && s.logins[i].snapshot == Some(h)
  }

  /**
   * Before its first read a verification knows nothing. Between its reads it has seen its token
   * active, or run out, or the token's login has still to point at it, or the record has left it.
   */
  ghost predicate CheckInv(s: State, c: Check) {
    && (c.pc == Asked ==> !c.active && !c.ranOut)
    && (c.pc == SawSession ==> c.active || c.ranOut || s.pointer != Some(c.token))
    && (c.pc == SawSession && !c.active && !c.ranOut && !Pointed(s, c.token) ==> c.token in s.sessions)
    && (c.pc == SawSession && c.token in s.expired ==> c.ranOut)
    && (c.pc == Accepted || c.pc == Revoked ==> c.active || c.ranOut)
  }

  /** Once pointed to, always on the record as such: finished logins stay as they are. */
  lemma PointedKept(s: State, s': State)
    requires |s.logins| <= |s'.logins| && s'.initial == s.initial
    requires forall k :: 0 <= k < |s.logins| && s.logins[k].pc == Done ==> s'.logins[k] == s.logins[k]
    ensures forall h: Hash :: Pointed(s, h) ==> Pointed(s', h)
  {
    forall h: Hash | Pointed(s, h) ensures Pointed(s', h) {
      if DoneToken(s, h) {
        var k :| 0 <= k < |s.logins| && s.logins[k].pc == Done && s.logins[k].token == h;
        assert s'.logins[k] == s.logins[k];
      }
    }
  }

  /** The record side of the invariant. */
  ghost predicate LoginInv(s: State) {
    && (forall i, j :: 0 <= i < j < |s.logins| ==> s.logins[i].token != s.logins[j].token)
    && (forall i :: 0 <= i < |s.logins| ==> s.logins[i].token !in s.initial)
    && (s.pointer.Some? ==> Pointed(s, s.pointer.value))
    && (forall i :: 0 <= i < |s.logins| && s.logins[i].snapshot.Some? ==> Pointed(s, s.logins[i].snapshot.value))
    && (forall j :: 0 <= j < |s.checks| && s.checks[j].pc == Accepted ==> Pointed(s, s.checks[j].token))
    && (forall i :: 0 <= i < |s.logins| && s.logins[i].pc == Stored ==> s.logins[i].token in s.sessions + s.expired)
    && (s.pointer.Some? ==> Accounted(s, s.pointer.value))
  }

  ghost predicate Accounted(s: State, h: Hash) {
    h in s.sessions + s.expired + s.revoked || HeldDeleted(s, h)
  }

  /** A digest that has been pointed to belongs to no login still on its way. */
  lemma PointedIsNobodysNext(s: State, h: Hash, i: nat)
    requires LoginInv(s) && Pointed(s, h) && i < |s.logins| && s.logins[i].pc != Done
    ensures s.logins[i].token != h
  {
    if DoneToken(s, h) {
      var j :| 0 <= j < |s.logins| && s.logins[j].pc == Done && s.logins[j].token == h;
    }
  }

  lemma ObserveKeeps(s: State)
    requires LoginInv(s)
    ensures LoginInv(Observe(s))
  {
    PointedKept(s, Observe(s));
    if s.pointer.Some? { HeldStays(s, Observe(s), |s.logins|); }
  }

  lemma LoginStep(s: State, a: Action)
    requires LoginInv(s) && Enabled(s, a)
    ensures LoginInv(Step(s, a))
  {
    match a {
      case Arrive(token) => ArriveKeeps(s, token);
      case Snapshot(i) => SnapshotKeeps(s, i);
      case DeletePrevious(i) => DeleteKeeps(s, i);
      case PutSession(i) => PutKeeps(s, i);
      case SetPointer(i) => PointKeeps(s, i);
      case Revoke(j) => RevokeKeeps(s, j);
      case _ => ReadKeeps(s, a);
    }
    ObserveKeeps(Call(s, a));
  }

  lemma ArriveKeeps(s: State, token: Hash)
    requires LoginInv(s) && Enabled(s, Arrive(token))
    ensures LoginInv(Call(s, Arrive(token)))
  {
    var s' := Call(s, Arrive(token));
    HeldStays(s, s', |s.logins|);
    PointedKept(s, s');
  }

  lemma SnapshotKeeps(s: State, i: nat)
    requires LoginInv(s) && At(s, i, Arrived)
    ensures LoginInv(Call(s, Snapshot(i)))
  {
    PointedKept(s, Call(s, Snapshot(i)));
    HeldStays(s, Call(s, Snapshot(i)), i);
  }

  lemma DeleteKeeps(s: State, i: nat)
    requires LoginInv(s) && At(s, i, Snapshotted)
    ensures LoginInv(Call(s, DeletePrevious(i)))
  {
    var s' := Call(s, DeletePrevious(i));
    var gone := s.logins[i].snapshot;
    PointedKept(s, s');
    HeldStays(s, s', i);
    forall k | 0 <= k < |s.logins| && s.logins[k].pc == Stored && gone.Some? ensures s.logins[k].token != gone.value {
      PointedIsNobodysNext(s, gone.value, k);
    }
    if s.pointer.Some? {
      assert s'.logins[i].snapshot == gone && s'.logins[i].pc == Deleted;
      assert Accounted(s, s.pointer.value);
      assert Accounted(s', s.pointer.value);
    }
  }

  lemma PutKeeps(s: State, i: nat)
    requires LoginInv(s) && At(s, i, Deleted)
    ensures LoginInv(Call(s, PutSession(i)))
  {
    PointedKept(s, Call(s, PutSession(i)));
    HeldStays(s, Call(s, PutSession(i)), i);
  }

  lemma PointKeeps(s: State, i: nat)
    requires LoginInv(s) && At(s, i, Stored)
    ensures LoginInv(Call(s, SetPointer(i)))
  {
    var s' := Call(s, SetPointer(i));
    PointedKept(s, s');
    assert s'.logins[i].pc == Done && s'.logins[i].token == s'.pointer.value;
    assert DoneToken(s', s'.pointer.value);
  }

  lemma RevokeKeeps(s: State, j: nat)
    requires LoginInv(s) && CheckAt(s, j, Accepted)
    requires s.checks[j].logout
    ensures LoginInv(Call(s, Revoke(j)))
  {
    var s' := Call(s, Revoke(j));
    PointedKept(s, s');
    HeldStays(s, s', |s.logins|);
    forall k | 0 <= k < |s.logins| && s.logins[k].pc == Stored ensures s.logins[k].token != s.checks[j].token {
      PointedIsNobodysNext(s, s.checks[j].token, k);
    }
  }

  lemma ReadKeeps(s: State, a: Action)
    requires LoginInv(s) && Enabled(s, a) && (a.Ask? || a.ReadSession? || a.Refuse? || a.ReadPointer? || a.Expire?)
    ensures LoginInv(Call(s, a))
  {
    PointedKept(s, Call(s, a));
    HeldStays(s, Call(s, a), |s.logins|);
  }

  /** Unless the login that holds it moves on, a deleted snapshot stays held. */
  lemma HeldStays(s: State, s': State, i: nat)
    requires |s.logins| <= |s'.logins|
    requires forall k :: 0 <= k < |s.logins| && k != i ==> s'.logins[k] == s.logins[k]
    requires i < |s.logins| ==>
               s.logins[i].pc == Arrived || s.logins[i].pc == Snapshotted
               || (s.logins[i].pc == Deleted && s'.logins[i] == s.logins[i].(pc := Stored))
    ensures forall h: Hash :: HeldDeleted(s, h) ==> HeldDeleted(s', h)
  {
    forall h: Hash | HeldDeleted(s, h) ensures HeldDeleted(s', h) {
      var k :| 0 <= k < |s.logins| && Holding(s.logins[k]) && s.logins[k].snapshot == Some(h);
      assert s'.logins[k].snapshot == Some(h);
    }
  }

  /** Past its store call. */
  predicate HasPut(l: Login) {
    l.pc == Stored || l.pc == Done
  }

  /** Digests that have been stored: those there before, and those of logins past their store call. */
  ghost predicate Put(s: State, h: Hash) {
    h in s.initial || exists i :: 0 <= i < |s.logins| && HasPut(s.logins[i]) && s.logins[i].token == h
  }

  /** The session side: what ran out or was logged out is gone for good. */
  ghost predicate KeyInv(s: State) {
    && s.sessions !! s.expired + s.revoked
    && (forall h: Hash :: h in s.sessions + s.expired + s.revoked ==> Put(s, h))
    && (forall h: Hash :: h in s.revoked ==> Pointed(s, h))
  }

  lemma PutKept(s: State, s': State)
    requires |s.logins| <= |s'.logins| && s'.initial == s.initial
    requires forall k :: 0 <= k < |s.logins| && HasPut(s.logins[k]) ==>
               HasPut(s'.logins[k]) && s'.logins[k].token == s.logins[k].token
    ensures forall h: Hash :: Put(s, h) ==> Put(s', h)
  {
    forall h: Hash | Put(s, h) ensures Put(s', h) {
      if h !in s.initial {
        var k :| 0 <= k < |s.logins| && HasPut(s.logins[k]) && s.logins[k].token == h;
        assert HasPut(s'.logins[k]);
      }
    }
  }

  /** A token still to be stored was never stored before. */
  lemma PutOnce(s: State, i: nat)
    requires LoginInv(s) && KeyInv(s) && i < |s.logins| && !HasPut(s.logins[i])
    ensures s.logins[i].token !in s.sessions + s.expired + s.revoked
  {
    assert !Put(s, s.logins[i].token);
  }

  lemma KeyStep(s: State, a: Action)
    requires LoginInv(s) && KeyInv(s) && Enabled(s, a)
    ensures KeyInv(Step(s, a))
  {
    var s' := Step(s, a);
    PutKept(s, s');
    PointedKept(s, s');
    if a.PutSession? {
      PutOnce(s, a.login);
      assert HasPut(s'.logins[a.login]) && s'.logins[a.login].token == s.logins[a.login].token;
    }
  }

  ghost predicate ChecksInv(s: State) {
    forall j :: 0 <= j < |s.checks| ==> CheckInv(s, s.checks[j])
  }

  lemma CheckStep(s: State, a: Action)
    requires LoginInv(s) && KeyInv(s) && ChecksInv(s) && Enabled(s, a)
    ensures ChecksInv(Step(s, a))
  {
    var s' := Step(s, a);
    PointedKept(s, s');
    forall j | 0 <= j < |s'.checks| ensures CheckInv(s', s'.checks[j]) {
      if j < |s.checks| {
        assert CheckInv(s, s.checks[j]);
        var h := s.checks[j].token;
        if a.SetPointer? && Pointed(s, h) { PointedIsNobodysNext(s, h, a.login); }
        if a.SetPointer? && s.logins[a.login].token == h { assert s'.logins[a.login].pc == Done; }
      }
    }
  }

  /** What every reachable state keeps. */
  lemma {:induction false} Reachable(s: State, run: seq<Action>)
    requires Initial(s)
    ensures LoginInv(Play(s, run)) && KeyInv(Play(s, run)) && ChecksInv(Play(s, run))
    ensures Play(s, run).initial == s.initial
  {
    if run != [] {
      var before := Play(s, run[..|run| - 1]);
      Reachable(s, run[..|run| - 1]);
      if Enabled(before, run[|run| - 1]) {
        LoginStep(before, run[|run| - 1]);
        KeyStep(before, run[|run| - 1]);
        CheckStep(before, run[|run| - 1]);
      }
    } else {
      assert s.pointer.Some? ==> s.pointer.value in AsSet(s.pointer);
    }
  }

  /**
   * The pointed-to session is live, unless it ran out, was logged out, or was already deleted by
   * an unfinished login that still holds it as its snapshot.
   */
  lemma PointerIsAccounted(s: State, run: seq<Action>)
    requires Initial(s)
    ensures var t := Play(s, run);
            t.pointer.Some? ==>
              t.pointer.value in t.sessions + t.expired + t.revoked || HeldDeleted(t, t.pointer.value)
  {
    Reachable(s, run);
  }

  lemma {:induction false} PointerAfterLogin(s: State, run: seq<Action>)
    requires Initial(s)
    ensures var t := Play(s, run);
            (exists i :: 0 <= i < |t.logins| && t.logins[i].pc == Done) ==>
              t.pointer.Some? && DoneToken(t, t.pointer.value)
  {
    if run != [] {
      var before, a := Play(s, run[..|run| - 1]), run[|run| - 1];
      var t := Step(before, a);
      PointerAfterLogin(s, run[..|run| - 1]);
      if Enabled(before, a) {
        if a.SetPointer? {
          assert t.logins[a.login].pc == Done;
        } else if exists i :: 0 <= i < |t.logins| && t.logins[i].pc == Done {
          var i :| 0 <= i < |t.logins| && t.logins[i].pc == Done;
          assert before.logins[i].pc == Done;
          var k :| && 0 <= k < |before.logins| && before.logins[k].pc == Done
                   && before.logins[k].token == before.pointer.value;
          assert t.logins[k] == before.logins[k];
        }
      }
    }
  }

  /**
   * One session. Once every login of the run has completed, exactly one of the tokens they issued
   * verifies, if and only if that one neither ran out nor was logged out, and no other token does,
   * whatever became of the other sessions.
   */
  lemma ExactlyOneVerifies(s: State, run: seq<Action>) returns (winner: nat)
    requires Initial(s)
    requires var t := Play(s, run);
             t.logins != [] && forall i :: 0 <= i < |t.logins| ==> t.logins[i].pc == Done
    ensures var t := Play(s, run);
            && winner < |t.logins|
            && forall h ::
                 Verifies(t, h) <==> h == t.logins[winner].token && h !in t.expired + t.revoked
  {
    Reachable(s, run);
    PointerAfterLogin(s, run);
    var t := Play(s, run);
    assert t.logins[0].pc == Done;
    winner :| 0 <= winner < |t.logins| && t.logins[winner].token == t.pointer.value;
    assert Accounted(t, t.pointer.value);
  }

  lemma LeftStaysLeft(s: State, a: Action, h: Hash)
    requires LoginInv(s) && Pointed(s, h) && s.pointer != Some(h)
    ensures Pointed(Step(s, a), h) && Step(s, a).pointer != Some(h)
  {
    PointedKept(s, Step(s, a));
    if Enabled(s, a) && a.SetPointer? { PointedIsNobodysNext(s, h, a.login); }
  }

  /** A token the record has left is rejected for ever after, whatever became of its session key. */
  lemma {:induction false} SupersededForever(s: State, run: seq<Action>, later: seq<Action>, h: Hash)
    requires Initial(s)
    requires Pointed(Play(s, run), h) && Play(s, run).pointer != Some(h)
    ensures !Verifies(Play(s, run + later), h)
    ensures Pointed(Play(s, run + later), h) && Play(s, run + later).pointer != Some(h)
    decreases later
  {
    if later == [] {
      assert run + later == run;
    } else {
      var most, a := later[..|later| - 1], later[|later| - 1];
      assert (run + later)[..|run + later| - 1] == run + most;
      SupersededForever(s, run, most, h);
      Reachable(s, run + most);
      LeftStaysLeft(Play(s, run + most), a, h);
    }
  }

  /**
   * Verification is sound although its two reads are not one: for every accepted token there was
   * an instant between them at which it was both live and pointed to, unless it ran out between
   * them. A token that had run out before the first read is never accepted.
   */
  lemma AcceptedWasActive(s: State, run: seq<Action>, j: nat)
    requires Initial(s)
    ensures var t := Play(s, run);
            && (CheckAt(t, j, Accepted) || CheckAt(t, j, Revoked) ==> t.checks[j].active || t.checks[j].ranOut)
            && (CheckAt(t, j, Asked) ==> !t.checks[j].active && !t.checks[j].ranOut)
            && (CheckAt(t, j, Asked) && t.checks[j].token in t.expired ==>
                  CheckAt(Step(t, ReadSession(j)), j, Rejected))
  {
    Reachable(s, run);
    var t := Play(s, run);
    if j < |t.checks| { assert CheckInv(t, t.checks[j]); }
  }
}
