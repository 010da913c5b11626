/**
 * Registrations, wallet imports and wallet connects, interleaved at every key-value call: who owns
 * an email, and what becomes of every wallet write. A failing call stops its request.
 */
module RecordRace {
  import opened Wrappers
  import opened AuthTypes
  import opened Keys
  import opened AuthSpec

  datatype Job =
    | Register(user: UserData)
    | Import(key: Key, wallets: seq<EncryptedWallet>)
    /** Connect: the record it would create, `wallets` being the client's bundle. */
    | Connect(user: UserData)

  datatype Stage =
    | Begun
    | ReadWallets
    | PutProfile
    | PutPointer
    | PutWallets(next: nat)
    | ClaimEmail
    | CheckHolder
    | Finished(ok: bool)
    | Failed

  /** `hadWallet`: the record had a wallet when this request began reading it. */
  datatype Proc = Proc(job: Job, stage: Stage, hadWallet: bool)

  datatype Write = Write(writer: nat, key: Key, wallet: EncryptedWallet)

  /** `log` lists every slot write in the order the store performed them. */
  datatype State = State(store: AuthState, procs: seq<Proc>, log: seq<Write>)

  datatype Action =
    | Start(job: Job)
    | Advance(proc: nat)
    | Fail(proc: nat)
    | PointSession(key: Key, tokenHash: string)

  function Target(j: Job): Key {
    match j
    case Import(key, _) => key
    case Register(user) => Keyed(user)
    case Connect(user) => Keyed(user)
  }

  function Bundle(j: Job): seq<EncryptedWallet> {
    match j
    case Import(_, wallets) => wallets
    case Register(user) => user.wallets
    case Connect(user) => user.wallets
  }

  predicate Claims(j: Job) {
    !j.Import? && Truthy(j.user.profile.email)
  }

  function To(s: State, i: nat, stage: Stage): State
    requires i < |s.procs|
  {
    s.(procs := s.procs[i := s.procs[i].(stage := stage)])
  }

  function WithProfile(a: AuthState, user: UserData): AuthState {
    a.(records := a.records[Keyed(user) := RecordAt(a, Keyed(user)).(profile := Some(user.profile))])
  }

  predicate HasWallet(a: AuthState, u: Key) {
    RecordAt(a, u).profile.Some? && RecordAt(a, u).slots != map[]
  }

  /** One store call of one request. */
  function Next(s: State, i: nat): State
    requires i < |s.procs|
  {
    var p := s.procs[i];
    var a := s.store;
    var u := Target(p.job);
    match p.stage
    case Begun =>
      (match p.job
       case Register(_) => To(s, i, PutProfile)
       case Import(_, _) => To(s, i, PutWallets(0))
       case Connect(_) =>
         var seen := s.(procs := s.procs[i := p.(hadWallet := HasWallet(a, u))]);
         match RecordAt(a, u).profile
         case None => To(seen, i, PutProfile)
         case Some(profile) =>
           if profile.authMethod != WalletAuth then To(seen, i, Finished(false)) else To(seen, i, ReadWallets))
    case ReadWallets =>
      if RecordAt(a, u).slots == map[] && Bundle(p.job) != [] then To(s, i, PutWallets(0)) else To(s, i, Finished(true))
    case PutProfile =>
      if p.job.Import? then s else To(s, i, PutPointer).(store := WithProfile(a, p.job.user))
    case PutPointer =>
      if p.job.Import? then s
      else if Truthy(p.job.user.authTokenHash) then
        To(s, i, PutWallets(0)).(store := SetSessionPointer(KvBackend, a, u, p.job.user.authTokenHash.value))
      else To(s, i, PutWallets(0))
    case PutWallets(n) =>
      if n < |Bundle(p.job)| then
        var w := Bundle(p.job)[n];
        To(s, i, PutWallets(n + 1)).(store := PutWalletSlot(a, u, w), log := s.log + [Write(i, u, w)])
      else if p.job.Register? && Claims(p.job) then To(s, i, ClaimEmail)
      else To(s, i, Finished(true))
    case ClaimEmail =>
      if !Claims(p.job) then s
      else
        var at := AddressOf(p.job.user);
        if at in a.emails then To(s, i, CheckHolder)
        else To(s, i, Finished(true)).(store := a.(emails := a.emails[at := p.job.user.profile.publicKey]))
    case CheckHolder =>
      if !Claims(p.job) then s
      else
        var at := AddressOf(p.job.user);
        To(s, i, Finished(at in a.emails && a.emails[at] == p.job.user.profile.publicKey))
    case Finished(_) => s
    case Failed => s
  }

  function Step(s: State, a: Action): State {
    match a
    case Start(job) => s.(procs := s.procs + [Proc(job, Begun, false)])
    case Advance(i) => if i < |s.procs| then Next(s, i) else s
    case Fail(i) => if i < |s.procs| && !s.procs[i].stage.Finished? then To(s, i, Failed) else s
    case PointSession(u, hash) => s.(store := SetSessionPointer(KvBackend, s.store, u, hash))
  }

  function Play(s: State, run: seq<Action>): State {
    if run == [] then s else Step(Play(s, run[..|run| - 1]), run[|run| - 1])
  }

  predicate Initial(s: State) {
    && s.procs == [] && s.log == []
    && forall at :: at in s.store.emails ==> RecordAt(s.store, UserKey(at.appId, s.store.emails[at])).profile.Some?
  }

  // What single steps do and do not touch.

  /** Profiles and wallets are never taken away; claims are never reassigned. */
  ghost predicate Grows(a: AuthState, a': AuthState) {
    && (forall u :: RecordAt(a, u).profile.Some? ==> RecordAt(a', u).profile.Some?)
    && (forall u :: RecordAt(a, u).slots != map[] ==> RecordAt(a', u).slots != map[])
    && (forall at :: at in a.emails ==> at in a'.emails && a'.emails[at] == a.emails[at])
  }

  /** A step by request `i` (or, past the end, by nobody): the rest of the table stands. */
  ghost predicate OnlyProc(s: State, s': State, i: nat) {
    && |s.procs| <= |s'.procs|
    && (forall k :: 0 <= k < |s.procs| ==> s'.procs[k].job == s.procs[k].job)
    && (forall k :: 0 <= k < |s.procs| && k != i ==> s'.procs[k] == s.procs[k])
    && (forall k :: |s.procs| <= k < |s'.procs| ==> s'.procs[k].stage == Begun && !s'.procs[k].hadWallet)
  }

  /** Slots change by exactly one logged write, of a request in its wallet-writing stage. */
  ghost predicate OnlyLogged(s: State, s': State, i: nat) {
    || (s'.log == s.log && forall u :: RecordAt(s'.store, u).slots == RecordAt(s.store, u).slots)
    || (&& i < |s.procs| == |s'.procs| && s.procs[i].stage.PutWallets? && s'.procs[i].stage.PutWallets?
        && s'.procs[i].hadWallet == s.procs[i].hadWallet
        && exists w: EncryptedWallet :: Logged(s, s', i, w))
  }

  ghost predicate Logged(s: State, s': State, i: nat, w: EncryptedWallet)
    requires i < |s.procs|
  {
    && s'.log == s.log + [Write(i, Target(s.procs[i].job), w)]
    && s'.store == PutWalletSlot(s.store, Target(s.procs[i].job), w)
  }

  function Actor(s: State, a: Action): nat {
    match a
    case Advance(i) => i
    case Fail(i) => i
    case _ => |s.procs|
  }

  ghost predicate Shaped(s: State, s': State, i: nat) {
    OnlyProc(s, s', i) && OnlyLogged(s, s', i) && Grows(s.store, s'.store)
  }

  lemma SlotShape(s: State, i: nat)
    requires i < |s.procs| && s.procs[i].stage.PutWallets? && s.procs[i].stage.next < |Bundle(s.procs[i].job)|
    ensures Shaped(s, Next(s, i), i)
  {
    var p := s.procs[i];
    var u, w := Target(p.job), Bundle(p.job)[p.stage.next];
    assert Logged(s, Next(s, i), i, w);
    assert w.At() in RecordAt(Next(s, i).store, u).slots;
  }

  lemma ReadShape(s: State, i: nat)
    requires i < |s.procs|
    requires var stage := s.procs[i].stage;
             stage == Begun || stage == ReadWallets || stage.Finished? || stage == Failed
    ensures Shaped(s, Next(s, i), i)
  {
    assert Next(s, i).store == s.store && Next(s, i).log == s.log;
  }

  /** One record changed outside its slots, and no profile taken away: nothing is lost. */
  lemma HeadWrite(a: AuthState, u: Key, r: Record)
    requires r.slots == RecordAt(a, u).slots && (RecordAt(a, u).profile.Some? ==> r.profile.Some?)
    ensures var a' := a.(records := a.records[u := r]);
            Grows(a, a') && forall v :: RecordAt(a', v).slots == RecordAt(a, v).slots
  {
    var a' := a.(records := a.records[u := r]);
    forall v ensures RecordAt(a', v) == if v == u then r else RecordAt(a, v) {
    }
  }

  lemma ProfileShape(s: State, i: nat)
    requires i < |s.procs| && s.procs[i].stage == PutProfile
    ensures Shaped(s, Next(s, i), i)
  {
    var job := s.procs[i].job;
    if !job.Import? {
      HeadWrite(s.store, Keyed(job.user), RecordAt(s.store, Keyed(job.user)).(profile := Some(job.user.profile)));
    }
  }

  lemma PointerShape(s: State, i: nat)
    requires i < |s.procs| && s.procs[i].stage == PutPointer
    ensures Shaped(s, Next(s, i), i)
  {
    var job := s.procs[i].job;
    if !job.Import? && Truthy(job.user.authTokenHash) {
      HeadWrite(s.store, Keyed(job.user), RecordAt(s.store, Keyed(job.user)).(pointer := job.user.authTokenHash));
    }
  }

  lemma ClaimShape(s: State, i: nat)
    requires i < |s.procs|
    requires var stage := s.procs[i].stage;
             || stage == ClaimEmail || stage == CheckHolder
             || (stage.PutWallets? && stage.next >= |Bundle(s.procs[i].job)|)
    ensures Shaped(s, Next(s, i), i)
  {
    assert Next(s, i).store.records == s.store.records && Next(s, i).log == s.log;
  }

  lemma StepShape(s: State, a: Action)
    ensures Shaped(s, Step(s, a), Actor(s, a))
  {
    match a
    case Advance(i) =>
      if i < |s.procs| {
        match s.procs[i].stage
        case PutWallets(n) => if n < |Bundle(s.procs[i].job)| { SlotShape(s, i); } else { ClaimShape(s, i); }
        case PutProfile => ProfileShape(s, i);
        case PutPointer => PointerShape(s, i);
        case ClaimEmail => ClaimShape(s, i);
        case CheckHolder => ClaimShape(s, i);
        case _ => ReadShape(s, i);
      }
    case _ => OtherShape(s, a);
  }

  lemma OtherShape(s: State, a: Action)
    requires !a.Advance?
    ensures Shaped(s, Step(s, a), Actor(s, a))
  {
    assert Step(s, a).log == s.log && Step(s, a).store.emails == s.store.emails;
  }

  lemma {:induction false} RunGrows(s: State, run: seq<Action>, later: seq<Action>)
    ensures Grows(Play(s, run).store, Play(s, run + later).store)
  {
    if later == [] {
      assert run + later == run;
    } else {
      var most := later[..|later| - 1];
      assert (run + later)[..|run + later| - 1] == run + most;
      RunGrows(s, run, most);
      StepShape(Play(s, run + most), later[|later| - 1]);
    }
  }

  // Email claims.

  /** Between the profile write and the end, a claiming request's record exists. */
  predicate BehindProfile(p: Proc) {
    p.job.Register? && (p.stage == PutPointer || p.stage.PutWallets? || p.stage == ClaimEmail || p.stage == CheckHolder)
  }

  ghost predicate ClaimInv(s: State) {
    && (forall at :: at in s.store.emails ==> RecordAt(s.store, UserKey(at.appId, s.store.emails[at])).profile.Some?)
    && (forall i :: 0 <= i < |s.procs| ==> ProcClaimInv(s.store, s.procs[i]))
  }

  ghost predicate ProcClaimInv(a: AuthState, p: Proc) {
    && (BehindProfile(p) ==> RecordAt(a, Target(p.job)).profile.Some?)
    && (p.stage == ClaimEmail || p.stage == CheckHolder ==> p.job.Register? && Claims(p.job))
    && (p.stage == CheckHolder ==> AddressOf(p.job.user) in a.emails)
    && (p.stage.Finished? && p.job.Register? && Claims(p.job) ==>
         && AddressOf(p.job.user) in a.emails
         && (p.stage.ok <==> a.emails[AddressOf(p.job.user)] == p.job.user.profile.publicKey))
    && (p.stage.Finished? && p.job.Register? && !Claims(p.job) ==> p.stage.ok)
    && (p.stage == ReadWallets ==> p.job.Connect?)
  }

  lemma StepKeepsClaims(s: State, a: Action)
    requires ClaimInv(s)
    ensures ClaimInv(Step(s, a))
  {
    var s' := Step(s, a);
    StepShape(s, a);
    if a.Advance? && a.proc < |s.procs| {
      AdvanceClaims(s, a.proc);
      NewClaims(s, a.proc);
    }
    OthersKeepClaims(s, s', Actor(s, a));
    if a.Fail? && a.proc < |s.procs| { assert ProcClaimInv(s.store, s.procs[a.proc]); }
  }

  lemma OthersKeepClaims(s: State, s': State, i: nat)
    requires ClaimInv(s) && OnlyProc(s, s', i) && Grows(s.store, s'.store)
    ensures forall k :: 0 <= k < |s'.procs| && (k != i || i >= |s.procs|) ==> ProcClaimInv(s'.store, s'.procs[k])
  {
    forall k | 0 <= k < |s'.procs| && (k != i || i >= |s.procs|) ensures ProcClaimInv(s'.store, s'.procs[k]) {
      if k < |s.procs| { assert ProcClaimInv(s.store, s.procs[k]); }
    }
  }

  /** A fresh claim is made by a request whose own record exists. */
  lemma NewClaims(s: State, i: nat)
    requires ClaimInv(s) && i < |s.procs|
    ensures var a' := Next(s, i).store;
            forall at :: at in a'.emails ==> RecordAt(a', UserKey(at.appId, a'.emails[at])).profile.Some?
  {
    assert ProcClaimInv(s.store, s.procs[i]);
    StepShape(s, Advance(i));
  }

  lemma AdvanceClaims(s: State, i: nat)
    requires i < |s.procs| && ClaimInv(s)
    ensures ProcClaimInv(Next(s, i).store, Next(s, i).procs[i])
  {
    assert ProcClaimInv(s.store, s.procs[i]);
  }

  lemma {:induction false} Claimed(s: State, run: seq<Action>)
    requires Initial(s)
    ensures ClaimInv(Play(s, run))
  {
    if run != [] {
      Claimed(s, run[..|run| - 1]);
      StepKeepsClaims(Play(s, run[..|run| - 1]), run[|run| - 1]);
    }
  }

  /**
   * Email claims never dangle and never move. In every interleaving each claim points to an
   * existing record, and once an address maps to a key it maps to it at every later point.
   */
  lemma ClaimsArePermanent(s: State, run: seq<Action>, later: seq<Action>, at: Address)
    requires Initial(s) && at in Play(s, run).store.emails
    ensures var pk := Play(s, run).store.emails[at];
            var t := Play(s, run + later).store;
            at in t.emails && t.emails[at] == pk && RecordAt(t, UserKey(at.appId, pk)).profile.Some?
  {
    RunGrows(s, run, later);
    Claimed(s, run);
  }

  /**
   * One winner. A finished registration succeeded exactly if the address now maps to its key, so
   * of any two finished registrations under one normalized email with different keys at most one
   * succeeded, however their calls interleaved.
   */
  lemma OneWinner(s: State, run: seq<Action>, i: nat, j: nat)
    requires Initial(s)
    requires var t := Play(s, run);
             && i < |t.procs| && t.procs[i].job.Register? && Claims(t.procs[i].job) && t.procs[i].stage.Finished?
             && j < |t.procs| && t.procs[j].job.Register? && Claims(t.procs[j].job) && t.procs[j].stage.Finished?
             && AddressOf(t.procs[i].job.user) == AddressOf(t.procs[j].job.user)
             && t.procs[i].job.user.profile.publicKey != t.procs[j].job.user.profile.publicKey
    ensures var t := Play(s, run);
            !(t.procs[i].stage.ok && t.procs[j].stage.ok)
    ensures var t := Play(s, run);
            var profile := t.procs[i].job.user.profile;
            t.procs[i].stage.ok
            <==> GetPublicKeyByEmail(t.store, profile.appId, profile.email.value) == Some(profile.publicKey)
  {
    Claimed(s, run);
    var t := Play(s, run);
    assert ProcClaimInv(t.store, t.procs[i]) && ProcClaimInv(t.store, t.procs[j]);
  }

  // A registration nobody interrupts.

  function Times<S>(f: S -> S, n: nat, s: S): S {
    if n == 0 then s else f(Times(f, n - 1, s))
  }

  lemma {:induction false} TimesSum<S>(f: S -> S, m: nat, n: nat, s: S)
    ensures Times(f, m + n, s) == Times(f, n, Times(f, m, s))
    decreases n
  {
    if n > 0 { TimesSum(f, m, n - 1, s); }
  }

  function CallOf(i: nat): State -> State {
    (s: State) => Step(s, Advance(i))
  }

  /** `n` store calls of one request, with nothing in between. */
  function AdvanceBy(s: State, i: nat, n: nat): State {
    Times(CallOf(i), n, s)
  }

  lemma SameJob(s: State, i: nat)
    requires i < |s.procs|
    ensures |Next(s, i).procs| == |s.procs| && Next(s, i).procs[i].job == s.procs[i].job
    ensures CallOf(i)(s) == Next(s, i)
  {
  }

  lemma ThreeSteps(s: State, i: nat)
    requires i < |s.procs|
    ensures var s1 := Next(s, i);
            |s1.procs| == |s.procs| == |Next(s1, i).procs| && AdvanceBy(s, i, 3) == Next(Next(s1, i), i)
  {
    var f := CallOf(i);
    SameJob(s, i);
    SameJob(Next(s, i), i);
    SameJob(Next(Next(s, i), i), i);
    assert Times(f, 1, s) == f(Times(f, 0, s));
    assert Times(f, 2, s) == f(Times(f, 1, s));
  }

  lemma HeadWritten(s: State, i: nat)
    requires i < |s.procs| && s.procs[i].stage == Begun && s.procs[i].job.Register?
    ensures var user := s.procs[i].job.user;
            var t := AdvanceBy(s, i, 3);
            && i < |t.procs| && t.procs[i].job == s.procs[i].job && t.procs[i].stage == PutWallets(0)
            && t.store == s.store.(records := s.store.records[Keyed(user) :=
                 HeadRecord(RecordAt(s.store, Keyed(user)), user)])
  {
    ThreeSteps(s, i);
  }

  lemma OneWallet(s: State, i: nat, n: nat)
    requires i < |s.procs| && s.procs[i].job.Register?
    requires s.procs[i].stage == PutWallets(n) && n < |s.procs[i].job.user.wallets|
    ensures var user := s.procs[i].job.user;
            && Next(s, i).procs[i].stage == PutWallets(n + 1)
            && Next(s, i).store == PutWalletSlot(s.store, Keyed(user), user.wallets[n])
  {
  }

  /** Then one call per wallet. */
  lemma {:induction false} WalletsWritten(s: State, i: nat, n: nat)
    requires i < |s.procs| && s.procs[i].stage == PutWallets(0) && s.procs[i].job.Register?
    requires n <= |s.procs[i].job.user.wallets|
    ensures var user := s.procs[i].job.user;
            var t := AdvanceBy(s, i, n);
            && i < |t.procs| && t.procs[i].job == s.procs[i].job && t.procs[i].stage == PutWallets(n)
            && t.store == PutWalletSlots(s.store, Keyed(user), user.wallets[..n])
  {
    if n > 0 {
      var ws := s.procs[i].job.user.wallets;
      WalletsWritten(s, i, n - 1);
      SameJob(AdvanceBy(s, i, n - 1), i);
      OneWallet(AdvanceBy(s, i, n - 1), i, n - 1);
      assert ws[..n][..n - 1] == ws[..n - 1];
    }
  }

  /** And the claim, if there is one to make. */
  lemma ClaimWritten(s: State, i: nat)
    requires i < |s.procs| && s.procs[i].job.Register?
    requires s.procs[i].stage == PutWallets(|s.procs[i].job.user.wallets|)
    ensures var user := s.procs[i].job.user;
            var t := AdvanceBy(s, i, 3);
            && i < |t.procs| && t.procs[i].stage == Finished(MayClaim(s.store, user))
            && t.store == if Claims(s.procs[i].job) && MayClaim(s.store, user)
                          then s.store.(emails := s.store.emails[AddressOf(user) := user.profile.publicKey])
                          else s.store
  {
    ThreeSteps(s, i);
    var user := s.procs[i].job.user;
    if Claims(s.procs[i].job) && AddressOf(user) in s.store.emails && MayClaim(s.store, user) {
      assert s.store.emails[AddressOf(user) := user.profile.publicKey] == s.store.emails;
    }
  }

  /** All calls but the claim are done: the record is written. */
  ghost predicate Recorded(a: AuthState, t: State, i: nat, user: UserData) {
    && i < |t.procs| && t.procs[i].job == Register(user) && t.procs[i].stage == PutWallets(|user.wallets|)
    && t.store == a.(records := a.records[Keyed(user) := WrittenRecord(KvBackend, RecordAt(a, Keyed(user)), user)])
  }

  lemma RecordWritten(s: State, i: nat, user: UserData)
    requires i < |s.procs| && s.procs[i].stage == Begun && s.procs[i].job == Register(user)
    ensures Recorded(s.store, AdvanceBy(AdvanceBy(s, i, 3), i, |user.wallets|), i, user)
  {
    HeadWritten(s, i);
    WalletsWritten(AdvanceBy(s, i, 3), i, |user.wallets|);
    assert user.wallets[..|user.wallets|] == user.wallets;
    HeadThenWallets(s.store, user);
  }

  /** The store and the verdict of the whole-record write. */
  ghost predicate Registered(a: AuthState, t: State, i: nat, user: UserData) {
    && t.store == PutUser(KvBackend, a, user).0
    && i < |t.procs| && t.procs[i].stage == Finished(PutUser(KvBackend, a, user).1)
  }

  lemma ClaimRegisters(a: AuthState, t: State, i: nat, user: UserData)
    requires Recorded(a, t, i, user)
    ensures Registered(a, AdvanceBy(t, i, 3), i, user)
  {
    SameClaims(a, t.store, user);
    ClaimWritten(t, i);
  }

  lemma SameClaims(a: AuthState, a': AuthState, user: UserData)
    requires a'.emails == a.emails
    ensures MayClaim(a', user) == MayClaim(a, user)
  {
  }

  /**
   * What the interleaved steps add up to: a registration that nothing interrupts is the whole-record
   * write of the key-value backend, verdict and all.
   */
  lemma UninterruptedRegister(s: State, i: nat, user: UserData)
    requires i < |s.procs| && s.procs[i].stage == Begun && s.procs[i].job == Register(user)
    ensures Registered(s.store, AdvanceBy(s, i, 3 + |user.wallets| + 3), i, user)
  {
    var filed := AdvanceBy(AdvanceBy(s, i, 3), i, |user.wallets|);
    RecordWritten(s, i, user);
    ClaimRegisters(s.store, filed, i, user);
    TimesSum(CallOf(i), 3, |user.wallets|, s);
    TimesSum(CallOf(i), 3 + |user.wallets|, 3, s);
  }

  // Wallet writes.

  function WritesTo(log: seq<Write>, u: Key): seq<EncryptedWallet> {
    if log == [] then []
    else
      var last := log[|log| - 1];
      WritesTo(log[..|log| - 1], u) + if last.key == u then [last.wallet] else []
  }

  lemma StepLogs(s: State, s': State, i: nat, u: Key, slots: Slots)
    requires OnlyLogged(s, s', i) && RecordAt(s.store, u).slots == FileAll(slots, WritesTo(s.log, u))
    ensures RecordAt(s'.store, u).slots == FileAll(slots, WritesTo(s'.log, u))
  {
    if s'.log != s.log {
      var w :| Logged(s, s', i, w);
      assert s'.log[..|s'.log| - 1] == s.log;
      if Target(s.procs[i].job) == u {
        var ws := WritesTo(s'.log, u);
        assert ws == WritesTo(s.log, u) + [w];
        assert ws[..|ws| - 1] == WritesTo(s.log, u);
      } else {
        assert WritesTo(s'.log, u) == WritesTo(s.log, u);
      }
    }
  }

  /**
   * No lost wallet write. In every interleaving of imports, connects, registrations and session
   * writes, a record's wallets are exactly its slot writes filed in the order they were performed:
   * each slot holds the last value written to it, whatever happened to the other fields.
   */
  lemma {:induction false} NoLostWalletWrite(s: State, run: seq<Action>, u: Key)
    requires Initial(s)
    ensures var t := Play(s, run);
            RecordAt(t.store, u).slots == FileAll(RecordAt(s.store, u).slots, WritesTo(t.log, u))
  {
    if run != [] {
      NoLostWalletWrite(s, run[..|run| - 1], u);
      var before, a := Play(s, run[..|run| - 1]), run[|run| - 1];
      StepShape(before, a);
      StepLogs(before, Step(before, a), Actor(before, a), u, RecordAt(s.store, u).slots);
    }
  }

  /** A slot holds the last wallet filed for it. */
  lemma {:induction false} LastWriteStands(slots: Slots, ws: seq<EncryptedWallet>, i: nat)
    requires i < |ws| && forall j :: i < j < |ws| ==> ws[j].At() != ws[i].At()
    ensures ws[i].At() in FileAll(slots, ws) && FileAll(slots, ws)[ws[i].At()] == ws[i]
    decreases ws
  {
    if i < |ws| - 1 { LastWriteStands(slots, ws[..|ws| - 1], i); }
  }

  /** Four slots, no more. */
  lemma FourSlots(slots: Slots)
    ensures |slots| <= |WALLET_SLOTS|
  {
    var all := {WALLET_SLOTS[0], WALLET_SLOTS[1], WALLET_SLOTS[2], WALLET_SLOTS[3]};
    forall s | s in slots ensures s in all { assert s == WALLET_SLOTS[Rank(s)]; }
    SubsetSize(slots.Keys, all);
  }

  lemma {:induction false} SubsetSize<T>(a: set<T>, b: set<T>)
    requires a <= b
    ensures |a| <= |b|
  {
    if a != {} {
      var x :| x in a;
      SubsetSize(a - {x}, b - {x});
    }
  }

  predicate ProcConnectInv(a: AuthState, p: Proc) {
    && (p.hadWallet ==>
         && p.job.Connect? && HasWallet(a, Target(p.job))
         && (p.stage == ReadWallets || p.stage.Finished? || p.stage == Failed))
    && (p.stage == Begun ==> !p.hadWallet)
  }

  ghost predicate ConnectInv(s: State) {
    && (forall i :: 0 <= i < |s.procs| ==> ProcConnectInv(s.store, s.procs[i]))
    && (forall k :: 0 <= k < |s.log| ==> WriterInv(s, s.log[k].writer))
  }

  predicate WriterInv(s: State, i: nat) {
    i < |s.procs| && !s.procs[i].hadWallet && s.procs[i].stage != Begun
  }

  lemma AdvanceConnect(s: State, i: nat)
    requires i < |s.procs| && ProcConnectInv(s.store, s.procs[i])
    ensures ProcConnectInv(Next(s, i).store, Next(s, i).procs[i])
    ensures WriterInv(s, i) ==> WriterInv(Next(s, i), i)
  {
    StepShape(s, Advance(i));
  }

  lemma StepKeepsConnect(s: State, a: Action)
    requires ConnectInv(s)
    ensures ConnectInv(Step(s, a))
  {
    var s' := Step(s, a);
    var i := Actor(s, a);
    StepShape(s, a);
    if i < |s.procs| {
      assert ProcConnectInv(s.store, s.procs[i]);
      if a.Advance? { AdvanceConnect(s, i); }
      assert ProcConnectInv(s'.store, s'.procs[i]);
      assert WriterInv(s, i) ==> WriterInv(s', i);
    }
    ConnectFrame(s, s', i);
  }

  lemma ConnectFrame(s: State, s': State, i: nat)
    requires ConnectInv(s) && OnlyProc(s, s', i) && OnlyLogged(s, s', i) && Grows(s.store, s'.store)
    requires i < |s.procs| ==> ProcConnectInv(s'.store, s'.procs[i]) && (WriterInv(s, i) ==> WriterInv(s', i))
    ensures ConnectInv(s')
  {
    forall k | 0 <= k < |s'.procs| ensures ProcConnectInv(s'.store, s'.procs[k]) {
      if k < |s.procs| { assert ProcConnectInv(s.store, s.procs[k]); }
    }
    forall k | 0 <= k < |s'.log| ensures WriterInv(s', s'.log[k].writer) {
      if k < |s.log| {
        assert s'.log[k] == s.log[k] && WriterInv(s, s.log[k].writer);
      }
    }
  }

  lemma {:induction false} Connected(s: State, run: seq<Action>)
    requires Initial(s)
    ensures ConnectInv(Play(s, run))
  {
    if run != [] {
      Connected(s, run[..|run| - 1]);
      StepKeepsConnect(Play(s, run[..|run| - 1]), run[|run| - 1]);
    }
  }

  /**
   * A connect whose read began when the record already had a wallet writes no slot, in any
   * interleaving and whichever of its store calls fails.
   */
  lemma ConnectNeverOverwrites(s: State, run: seq<Action>, i: nat, k: nat)
    requires Initial(s)
    requires i < |Play(s, run).procs| && Play(s, run).procs[i].hadWallet && k < |Play(s, run).log|
    ensures Play(s, run).log[k].writer != i
  {
    Connected(s, run);
  }
}
