# Verified model of the login SDK

A Dafny 4.11 model of the SDK's authentication state and of the protocols that run over it.
`dafny verify dfyconfig.toml` checks all of it.

The centre is the auth store. `AuthSpec` is one abstract store with typed maps: user records, the
email index, challenges, sessions and rate-limit counters. `KvAuthStores` is the key-value store,
a class over the in-memory adapter that packs everything into flat string keys and hashes with
lazy expiry; `SqlAuthStores` is the SQL engine over tables, in both dialect paths. Each class
carries a ghost abstract view, and every method is proved to change the view as the abstract
operation does and to return the abstract answer. Where the two backends differ (a lost email
claim, a missing pointer, a missing row, a zero lifetime, the hit that crosses the cap) the abstract
operation takes the backend as an argument, the difference is stated exactly, and `BackendRuns`
proves that a run keeps the backends alike if and only if it makes no such call.

Over that store:

- `RateWindows` and `HitRace`: what a counter does over whole runs of hits, one after the other and
  interleaved between their two store calls, crashes included.
- `SessionRace`, `ChallengeRace`, `RecordRace`: logins, verifications, logouts, sign-ins,
  registrations, imports and connects, interleaved at every store call. A run is any sequence of
  actions; a crash or a store call that fails is a process that is never scheduled again.
- `SessionRuns`: the session race made of the abstract store's own calls, on either backend, beside
  the clock and any other write; every such run is a run of `SessionRace`.
- `SessionFlow`, `WalletPayload`: session issue and verification, and the wallet payload gate, as
  sequential code.
- `SqliteQueue`: the promise-chain transaction queue on one connection. `SqliteStore` puts the SQL
  store on it, with `putUser` as a transaction and every other call as a plain query, and
  `SqliteClients` the protocols.

And beside it: `Base58` with generated passkeys, `Framing` (base64url, section 5 of RFC 4648),
`Offchain`, `Hex`, `LoginMessage` and `LedgerSigner` (what a wallet signs and how it is pinned), `Http`
(client address and bounded body), and `Vault` (the in-memory key, over runs and across tabs).

Some statements in the repository's comments hold only under a condition, which the model states
and proves exactly:

- The key-value rate limiter heals a crashed counter at the first hit past the cap. If that hit
  crashes as well the counter never expires (`RateWindows.LockedForeverExactly`, `HitRace.LockoutIsReachable`).
- Bucket keys are injective only because each endpoint is always scoped or always global
  (`Keys.BucketsCollideExactly`).
- Serialized transactions protect callers of `transaction()`. A plain query issued while one is
  suspended runs inside it and is lost if it rolls back (`SqliteQueue.PlainWriteSafeExactly`,
  `SqliteQueue.PlainWriteLost`).
- On the SQLite driver the same happens to the store's own calls. While a `putUser` that will lose
  its email is suspended, every other call on the connection is answered and then undone
  (`SqliteStore.Undone`, `SqliteClients`): a challenge can be taken twice. Calls keep their place in
  history exactly on quiet runs (`SqliteStore.QuietExactly`), where the store is atomic
  (`SqliteStore.QuietIsAtomic`). The results of `ChallengeRace`, `SessionRuns` and `RateWindows` are
  about store calls that are durable once answered: on key-value backends, on SQL drivers whose plain
  queries share no connection with an open transaction, and on quiet SQLite runs.
- An explicit lock reaches other tabs through a millisecond timestamp; a second lock within the same
  millisecond raises no event (`Vault.LockReachesExactly`, `Vault.SilentLockExample`).
- Touching the vault extends a key that has already run out unless a read comes first, as the signer
  hook does (`Vault.PromiseKeptExactly`, `Vault.UnguardedTouchRevives`).

## Model

| member | source | states |
|---|---|---|
| `AuthTypes.NormalizeStable` | src/storage/store.ts:87-89 | an email has one normal form: normalizing twice, or changing case or surrounding blanks first, changes nothing |
| `AuthTypes.SortOrders` | src/core/types.ts:46-52 | sorting one-per-slot wallets loses and invents none and yields strict slot order |
| `AuthTypes.SortIgnoresInputOrder` | src/core/types.ts:39-52 | any two listings of the same wallets sort to the same array, so a backend's row or field order never shows |
| `AuthTypes.SortedListing` | src/core/types.ts:46-52 | sorting any listing of a record's slots gives the record's wallets in slot order |
| `Keys.DefaultPrefixesAreFree` | src/core/config.ts:219-225 | no default prefix begins another one |
| `Keys.BuildInjective` | src/storage/store.ts:254-263 | with prefix-free prefixes and colon-free scopes all five key builders are injective and their images disjoint |
| `Keys.BucketsCollideExactly` | src/storage/store.ts:258-263 | two bucket keys are equal iff the buckets are, or a global identifier spells out an app-scoped bucket of the same endpoint |
| `Keys.BucketCollisionExample` | src/storage/store.ts:258-263 | a concrete pair of different buckets with one key, without the scoping discipline |
| `Keys.WalletFieldsDistinct` | src/storage/store.ts:276-280 | wallet fields alias neither each other nor the profile and pointer fields |
| `MemoryAdapters.MemoryAdapter.Alive` | src/storage/memory.ts:17-25 | an expired entry reads as absent and is dropped by the read |
| `MemoryAdapters.MemoryAdapter.Read` | src/storage/memory.ts:27-29 | the live value or none |
| `MemoryAdapters.MemoryAdapter.Write` | src/storage/memory.ts:31-36 | the entry is replaced; a zero lifetime means no deadline |
| `MemoryAdapters.MemoryAdapter.Delete` | src/storage/memory.ts:38-45 | the key goes from both keyspaces |
| `MemoryAdapters.MemoryAdapter.Increment` | src/storage/memory.ts:47-52 | a live counter grows and keeps its deadline, a dead one restarts at 1 without one |
| `MemoryAdapters.MemoryAdapter.ExpireIn` | src/storage/memory.ts:54-57 | only a live key gets a new deadline |
| `MemoryAdapters.MemoryAdapter.Take` | src/storage/memory.ts:59-63 | returns the live value and removes the key |
| `MemoryAdapters.MemoryAdapter.HGet` | src/storage/memory.ts:65-67 | one field of a hash, if both exist |
| `MemoryAdapters.MemoryAdapter.HSet` | src/storage/memory.ts:69-76 | one field changes, every other field and hash stays |
| `MemoryAdapters.MemoryAdapter.HSetNx` | src/storage/memory.ts:78-88 | claims a field iff it was free and reports which; an occupied field keeps its value |
| `MemoryAdapters.MemoryAdapter.HDel` | src/storage/memory.ts:90-96 | removes one field, and a hash left empty |
| `MemoryAdapters.MemoryAdapter.SweepExpired` | src/storage/memory.ts:113-124 | removes only dead entries, exactly as many as it reports, within the batch bound, and all of them if it stopped short of it |
| `MemoryAdapters.ApplyIndistinguishable` | src/storage/memory.ts:103-112 | stores that differ in dead entries only answer every call alike and stay so |
| `MemoryAdapters.SweepingIsInvisible` | src/storage/memory.ts:103-124 | every call of every run answers as if no sweep had happened, however sweeps are scheduled and whichever dead entries each takes within what `SweepExpired` promises |
| `AuthSpec.SessionRoundTrip` | src/storage/store.ts:420-427 | the string encoding of a session value round-trips iff the key has no separator and the fingerprint is absent or non-empty |
| `AuthSpec.RegisterRoundTrip` | src/storage/store.ts:124-134 | on both backends a new record reads back as written with wallets in slot order, and its email resolves to it |
| `AuthSpec.FieldWritesCommute` | src/storage/store.ts:125-152 | writes to different slots, and a slot write and a pointer write, give the same record in either order |
| `AuthSpec.PutUserAgrees` | src/storage/sql/engine.ts:127-188 | both backends give the same verdict on a whole-record write, and the same state iff it wins with (or without need of) a pointer, or changes nothing |
| `AuthSpec.HitRateLimitAgrees` | src/storage/sql/engine.ts:337-382 | both backends decide every hit alike; the resulting windows differ iff the hit crosses the cap and its deadline is not one window away already |
| `KvStore.ItemsUpdate` | src/storage/store.ts:348-375 | an update of one flat key changes what the keyspace stands for at that typed key only |
| `KvStore.ItemsAgreeLater` | src/storage/memory.ts:17-25 | the correspondence with the abstract store survives the passing of time: both sides expire together |
| `KvStore.WriteSession` | src/storage/store.ts:362-366 | setting the encoded value under the session key is the abstract session write |
| `KvStore.WriteChallenge` | src/storage/store.ts:352-354 | setting the challenge key is the abstract challenge write |
| `KvStore.CountItem` | src/storage/store.ts:382-383 | incrementing the bucket key answers and leaves the abstract counter, one hit on |
| `KvStore.DeletedElsewhere` | src/storage/memory.ts:38-45 | deleting a session key from both keyspaces touches no record and no email |
| `KvStore.WriteProfile` | src/storage/store.ts:306 | the profile field write is the abstract profile write |
| `KvStore.WritePointer` | src/storage/store.ts:333-335 | the token field write is the abstract pointer write |
| `KvStore.WriteSlot` | src/storage/store.ts:325-331 | a wallet field write is the abstract slot write and disturbs no other field |
| `KvStore.WriteEmail` | src/storage/store.ts:316-317 | the claimed hash field is the abstract email claim |
| `KvStore.WalletFieldHolds` | src/storage/store.ts:293-296 | the only wallet fields of a record's hash are those of its filled slots |
| `KvStore.ListingOfRecord` | src/storage/store.ts:292-297 | collecting the wallet fields in any order and sorting gives the record's wallets in slot order |
| `KvAuthStores.ParseRecord` | src/storage/store.ts:282-301 | absence is reported iff there is no profile; an unparsable field fails the read; a record's hash reads back as the record, whatever the field order |
| `KvAuthStores.KvAuthStore.constructor` | src/storage/store.ts:241-248 | wraps an adapter whose keyspace stands for the given abstract state |
| `KvAuthStores.KvAuthStore.GetUser` | src/storage/store.ts:282-301 | refines the abstract read |
| `KvAuthStores.KvAuthStore.PutUser` | src/storage/store.ts:303-323 | refines the abstract whole-record write, the record staying behind when the email claim is lost |
| `KvAuthStores.KvAuthStore.ClaimEmail` | src/storage/store.ts:311-322 | succeeds iff the address is free or already ours, and never reassigns it |
| `KvAuthStores.KvAuthStore.PutWalletSlot` | src/storage/store.ts:325-331 | refines the abstract slot write |
| `KvAuthStores.KvAuthStore.SetSessionPointer` | src/storage/store.ts:333-335 | refines the abstract pointer write |
| `KvAuthStores.KvAuthStore.GetPublicKeyByEmail` | src/storage/store.ts:337-339 | refines the abstract lookup |
| `KvAuthStores.KvAuthStore.PutChallenge` | src/storage/store.ts:352-354 | refines the abstract challenge store: other challenges stay |
| `KvAuthStores.KvAuthStore.TakeChallenge` | src/storage/store.ts:356-360 | refines the abstract take: true iff live, and gone afterwards |
| `KvAuthStores.KvAuthStore.PutSession` | src/storage/store.ts:362-366 | refines the abstract session store |
| `KvAuthStores.KvAuthStore.GetSession` | src/storage/store.ts:368-371 | refines the abstract session read: none once expired |
| `KvAuthStores.KvAuthStore.DeleteSession` | src/storage/store.ts:373-375 | refines the abstract session delete |
| `KvAuthStores.KvAuthStore.HitRateLimit` | src/storage/store.ts:377-410 | refines the abstract hit with its two separate clock readings |
| `KvAuthStores.KvAuthStore.SweepExpired` | src/storage/store.ts:246 | removes dead keys only and leaves what the store stands for unchanged |
| `SqlTables.HitClausesOrderFree` | src/storage/sql/engine.ts:350-353 | the two SET clauses give the same row under simultaneous and left-to-right evaluation: a fresh window if dead, one more hit if not |
| `SqlTables.ReversedClausesResume` | src/storage/sql/engine.ts:324-336 | with the clauses swapped a left-to-right engine resumes a dead count, on exactly the dead rows with a nonzero count |
| `SqlTables.IdOfInjective` | src/storage/sql/engine.ts:346-348 | two bucket rows are one iff the buckets are, or one has the empty app id and the other none |
| `SqlTables.MixedBucketsPart` | src/storage/sql/engine.ts:346-348 | buckets that share a key-value counter but have SQL rows of their own are exactly those where a global identifier spells out a scoped bucket |
| `SqlTables.LostInsertIsSerial` | src/storage/sql/engine.ts:170-180 | losing the insert race is the abstract answer after the rival registration, unless the rival is the same key |
| `SqlTables.SweptTablesAgree` | src/storage/sql/engine.ts:384-408 | dropping dead rows is invisible |
| `SqlTables.UserUpdate` | src/storage/sql/engine.ts:190-210 | replacing one user's rows leaves every other record alone |
| `SqlTables.LimitUpdate` | src/storage/sql/engine.ts:354-357 | writing one counter row is the abstract write of that bucket only |
| `SqlAuthStores.DeleteExpiredLimited` | src/storage/sql/dialects/sqlite.ts:41-44 | removes only dead rows, at most a batch, and all of them if it stopped short of one |
| `SqlAuthStores.SqlAuthStore.GetUser` | src/storage/sql/engine.ts:88-114 | refines the abstract read, wallets in slot order whatever the row order |
| `SqlAuthStores.SqlAuthStore.PutUser` | src/storage/sql/engine.ts:127-188 | refines the abstract whole-record write; a lost email claim leaves every table as it was, and a lost insert race leaves only the rival registration |
| `SqlAuthStores.SqlAuthStore.PutWalletSlot` | src/storage/sql/engine.ts:191-200 | refines the abstract slot write |
| `SqlAuthStores.SqlAuthStore.SetSessionPointer` | src/storage/sql/engine.ts:203-210 | refines the abstract pointer write: no row, no effect |
| `SqlAuthStores.SqlAuthStore.GetPublicKeyByEmail` | src/storage/sql/engine.ts:212-220 | refines the abstract lookup |
| `SqlAuthStores.SqlAuthStore.PutChallenge` | src/storage/sql/engine.ts:224-233 | refines the abstract challenge store |
| `SqlAuthStores.SqlAuthStore.TakeChallenge` | src/storage/sql/engine.ts:241-276 | both dialect paths, one DELETE with RETURNING or select and delete in a transaction, refine the one abstract take |
| `SqlAuthStores.SqlAuthStore.PutSession` | src/storage/sql/engine.ts:280-295 | refines the abstract session store |
| `SqlAuthStores.SqlAuthStore.GetSession` | src/storage/sql/engine.ts:300-312 | refines the abstract session read: none once expired |
| `SqlAuthStores.SqlAuthStore.DeleteSession` | src/storage/sql/engine.ts:314-320 | refines the abstract session delete |
| `SqlAuthStores.SqlAuthStore.HitRateLimit` | src/storage/sql/engine.ts:337-382 | refines the abstract hit on both evaluation orders, for any mix of scoped and global buckets; a dead row counts as none |
| `SqlAuthStores.SqlAuthStore.SweepExpired` | src/storage/sql/engine.ts:394-408 | removes dead rows of the three expiring tables only, counts them exactly, and leaves what the tables stand for unchanged |
| `BackendRuns.AlikeStep` | src/storage/store.ts:91-219 | from states that agree both backends answer every call alike, and leave states that agree iff the call is portable |
| `BackendRuns.BackendsIndistinguishable` | src/storage/store.ts:91-219 | a run of any length keeps the backends alike iff its calls are portable, and is then answered alike, call by call |
| `BackendRuns.FreshBackendsAgree` | src/storage/store.ts:91-219 | both in particular from two empty stores |
| `BackendRuns.CapCrossingTells` | src/storage/store.ts:389-405 | one hit across the cap makes the backends answer a later hit differently |
| `BackendProbes.NonPortableTells` | src/storage/store.ts:91-219 | after any call that is not portable some later calls are answered differently, unless it wrote an empty pointer to a missing record |
| `BackendProbes.ClaimsStay` | src/storage/store.ts:67-76 | on either backend a claim points to an existing record and to the same key for ever after, whatever calls are made |
| `RateWindows.BurstBound` | src/storage/store.ts:196-203 | over any run of durable hits no interval one window long admits more than twice the limit, on either backend |
| `RateWindows.WindowKept` | src/storage/store.ts:384-405 | a key-value window lasts at least one span and less than two, an SQL window exactly one |
| `RateWindows.NoLockout` | src/storage/store.ts:193-201 | however a run went, a hit two spans (one on SQL) after its window was born starts a fresh one |
| `RateWindows.HealsAtCap` | src/storage/store.ts:389-405 | a counter left without an expiry stays so exactly until the first completed hit past the cap |
| `RateWindows.LockedForever` | src/storage/store.ts:389-405 | if that hit crashes too, every later completed hit is refused |
| `RateWindows.LockedForeverExactly` | src/storage/store.ts:389-405 | such a counter refuses every later run iff it already stands past the cap |
| `HitRace.UninterruptedHit` | src/storage/store.ts:377-410 | an increment and its own expiry call with nothing between them are the one-call hit of the abstract store |
| `HitRace.InterleavedBurst` | src/storage/store.ts:383-405 | however the two calls of concurrent hits interleave, and whichever never come, no interval one window long admits more than twice the limit |
| `HitRace.StepKeepsWindow` | src/storage/store.ts:383-405 | every store call of every interleaving keeps who may still move the deadline and how far |
| `HitRace.InterleavedWindow` | src/storage/store.ts:383-405 | if expiry calls come within a delay, a window lasts one span to one span and the delay, and less than one span more once its cap is crossed |
| `HitRace.InterleavedNoLockout` | src/storage/store.ts:193-201 | a hit two spans and that delay after the window was opened starts a fresh one, under every interleaving |
| `HitRace.UndatedMeansUnstamped` | src/storage/store.ts:389-405 | crashes included: while a window has no deadline, neither its first hit nor its first hit past the cap has completed |
| `HitRace.HealedNoLockout` | src/storage/store.ts:389-405 | however many hits crashed, once the hit past the cap has completed, a hit one span and the delay after it starts a fresh window |
| `HitRace.LockoutIsReachable` | src/storage/store.ts:389-405 | if every hit up to the one past the cap crashes, the counter stands past it without a deadline and refuses every completed hit from then on |
| `SessionFlow.IssueSession` | src/server/session.ts:40-71 | deletes the previous session, stores the new one and points the record at it, nothing else |
| `SessionFlow.VerifySession` | src/server/session.ts:79-118 | accepts iff the session is live, names the key, fits the fingerprint and is the one the record points to |
| `SessionFlow.RevokeSession` | src/server/session.ts:121-123 | deletes exactly that session |
| `SessionFlow.IssuedTokenVerifies` | src/server/session.ts:40-118 | on both backends an issued token verifies exactly until its deadline and under its fingerprint, and every other token of the record is rejected |
| `SessionFlow.RevokedTokenRejected` | src/server/session.ts:120-123 | a revoked token is rejected whatever the record points to; other tokens verify as before |
| `SessionRace.LoginStep` | src/server/session.ts:40-71 | every step of every interleaving keeps the record's invariant |
| `SessionRace.KeyStep` | src/server/session.ts:43-62 | every step keeps a session that ran out or was logged out from coming back |
| `SessionRace.CheckStep` | src/server/session.ts:79-118 | every step keeps what a verification between its two reads knows |
| `SessionRace.PointerIsAccounted` | src/server/session.ts:46-69 | the pointed-to session is live unless it ran out, was logged out, or was deleted by an unfinished login that holds it |
| `SessionRace.PointerAfterLogin` | src/server/session.ts:64-69 | once any login has completed the record holds a completed login's token |
| `SessionRace.ExactlyOneVerifies` | src/server/session.ts:100-116 | once all logins have completed one issued token verifies, iff it neither ran out nor was logged out, and no other does, whatever became of the other sessions |
| `SessionRace.SupersededForever` | src/server/session.ts:100-116 | a token the record has left is rejected at every later point |
| `SessionRace.AcceptedWasActive` | src/server/session.ts:79-118 | for every accepted token there was an instant between the two reads at which it was live and pointed to, unless it ran out between them |
| `SessionRuns.HappenShows` | src/server/session.ts:40-123 | each durable store call of a login, verification or logout, on the store of either backend, is the race step it stands for; time and other writes are too |
| `SessionRuns.RunRefines` | src/server/session.ts:40-123 | every run of durable store calls is, call by call, a run of the session race |
| `SessionRuns.VerifiedIsVerifies` | src/server/session.ts:79-118 | a token verifies in the store iff the race says so and the presented fingerprint fits |
| `SessionRuns.OneSession` | src/server/session.ts:93-116 | in the store, its calls durable: once all logins have completed exactly one token verifies, exactly until one lifetime after its own session was stored, under exactly its fingerprint, and unless logged out |
| `SessionRuns.NeverAgain` | src/server/session.ts:100-116 | in the store, its calls durable: a finished login's token the record no longer holds never verifies again, however long its session stays stored |
| `ChallengeRace.MintedFits` | src/server/challenge.ts:10-45 | what the server mints passes its own shape check |
| `ChallengeRace.StepConserves` | src/server/challenge.ts:10-45 | every step, its store call durable, keeps takes plus stored within puts, and takes equal to winning requests |
| `ChallengeRace.SingleUse` | src/server/routes.ts:671-683 | in every interleaving of durable store calls a challenge is taken at most as often as it was stored, and sign-ins never exceed challenges stored |
| `ChallengeRace.StepKeepsChallenge` | src/server/routes.ts:744-757 | a step, its store call durable, without a valid signature over a stored challenge leaves it as stored |
| `ChallengeRace.CannotBeBurned` | src/server/routes.ts:744-757 | whatever others send, while store calls are durable, an unsigned challenge stays stored and a take succeeds exactly before its deadline |
| `RecordRace.UninterruptedRegister` | src/storage/store.ts:303-323 | the interleaved steps of a registration, with nothing between them, are the whole-record write of the abstract store, verdict and all |
| `RecordRace.StepKeepsClaims` | src/storage/store.ts:303-323 | every key-value call keeps every claim backed by a record and every finished registration truthful |
| `RecordRace.ClaimsArePermanent` | src/storage/store.ts:311-322 | over the key-value calls a claim points to an existing record and to the same key for ever after |
| `RecordRace.OneWinner` | src/storage/store.ts:67-76 | of two finished registrations under one normalized email at most one succeeded, and it did iff the address resolves to it |
| `RecordRace.NoLostWalletWrite` | src/storage/store.ts:125-145 | over the key-value calls a record's wallets are exactly its slot writes in the order performed, whatever else interleaved |
| `RecordRace.LastWriteStands` | src/storage/store.ts:139-142 | over the key-value calls each slot holds the last wallet written to it |
| `RecordRace.FourSlots` | src/core/types.ts:31-37 | no record exceeds four slots |
| `RecordRace.ConnectNeverOverwrites` | src/server/routes.ts:860-893 | over the key-value calls, a connect that began reading when the record had a wallet writes no slot, whichever of its calls fails |
| `WalletPayload.ReadWallets` | src/server/routes.ts:415-449 | accepts exactly the well-formed payloads and rebuilds each entry from its four fields, bounded in UTF-16 units, one per slot |
| `SqliteQueue.StepKeepsInv` | src/storage/sql/drivers.ts:202-239 | every step keeps one open transaction at most, at the head of the queue, on top of the serial state |
| `SqliteQueue.SerialEquivalence` | src/storage/sql/drivers.ts:202-239 | under every interleaving the database is the committed callbacks run whole in arrival order, and each was answered accordingly |
| `SqliteQueue.NoNestedBegin` | src/storage/sql/drivers.ts:186-216 | whenever a BEGIN may run no transaction is open |
| `SqliteQueue.QueueDrains` | src/storage/sql/drivers.ts:231-238 | while anyone waits the head can step, however BEGIN and COMMIT turn out, and each step brings the queue closer to empty |
| `SqliteQueue.PlainWriteKept` | src/storage/sql/drivers.ts:174-200 | a plain write made while no transaction is open keeps its place in the serial order in every continuation |
| `SqliteQueue.PlainWriteErased` | src/storage/sql/drivers.ts:202-229 | one made while a transaction is open is erased by some schedule, as if never made |
| `SqliteQueue.PlainWriteSafeExactly` | src/storage/sql/drivers.ts:174-229 | a plain write that leaves other than a rollback would is safe in every continuation iff no transaction is open when it is made |
| `SqliteQueue.PlainWriteJoins` | src/storage/sql/drivers.ts:174-200 | a plain write made before COMMIT is in the database afterwards iff the transaction commits or the write leaves what a rollback would |
| `SqliteQueue.PlainWriteLost` | src/storage/sql/drivers.ts:174-229 | such an acknowledged write vanishes when the transaction's next query throws |
| `SqliteStore.PutUserTxIsPutUser` | src/storage/sql/engine.ts:127-188 | query by query on the connection, the callback of putUser run whole is the abstract whole-record write, or throws and leaves nothing |
| `SqliteStore.DriveCommits` | src/storage/sql/drivers.ts:202-239 | only a COMMIT that succeeds moves the committed database: to its callback run whole |
| `SqliteStore.QuietIsAtomic` | src/storage/sql/drivers.ts:167-200 | whatever the clients are, a run whose plain calls find no transaction open is whole calls and whole registrations, one after the other |
| `SqliteStore.StandsExactly` | src/storage/sql/drivers.ts:174-229 | a plain call keeps its place in history in every continuation iff it finds no transaction open |
| `SqliteStore.QuietExactly` | src/storage/sql/drivers.ts:174-229 | over whole runs: every plain call keeps its place in every continuation iff the run is quiet |
| `SqliteStore.RacingRegistrations` | src/storage/sql/engine.ts:164-185 | of two registrations of one email by different keys the second finds it taken once the first has committed |
| `SqliteStore.Undone` | src/storage/sql/engine.ts:133-187 | a plain call made while a registration that loses its email is suspended is answered, and the database is as if it had not been made |
| `SqliteClients.ChallengeTakenTwice` | src/storage/sql/engine.ts:241-259 | so one stored challenge can be taken twice |
| `SqliteClients.ChallengeBurned` | src/storage/sql/engine.ts:224-233 | a stored challenge can be gone unsigned |
| `SqliteClients.LogoutUndone` | src/storage/sql/engine.ts:314-320 | a deleted session can be back |
| `SqliteClients.SessionLost` | src/storage/sql/engine.ts:280-295 | a stored session can be gone |
| `SqliteClients.WalletLost` | src/storage/sql/engine.ts:191-200 | an acknowledged wallet write can be gone |
| `SqliteClients.PointerLost` | src/storage/sql/engine.ts:203-210 | a moved session pointer can be back |
| `SqliteClients.HitForgotten` | src/storage/sql/engine.ts:337-366 | two hits in a row can be answered as the same one |
| `SqliteClients.QuietSingleUse` | src/server/routes.ts:671-683 | on quiet SQLite runs a challenge is taken at most as often as it was stored, and sign-ins never exceed challenges stored |
| `SqliteClients.QuietCannotBeBurned` | src/server/routes.ts:744-757 | on quiet SQLite runs an unsigned challenge stays as stored |
| `SqliteClients.QuietOneSession` | src/server/session.ts:93-116 | on quiet SQLite runs beside registrations of others, exactly one token verifies once all logins have completed, until its own lifetime ends |
| `SqliteClients.QuietNeverAgain` | src/server/session.ts:100-116 | on such runs a token the record has left never verifies again |
| `SqliteClients.QuietBurst` | src/storage/sql/engine.ts:337-366 | on quiet SQLite runs no interval one window long admits more than twice the limit |
| `Base58.MulAddValue` | src/ui/passkey.ts:52-65 | one round of the carry loops multiplies the number by 256 and adds the byte |
| `Base58.MulAddCanonical` | src/ui/passkey.ts:61-64 | each byte adds one or two digits and never a leading zero |
| `Base58.ValueInjective` | src/ui/passkey.ts:18-21 | canonical numerals are equal when their values are |
| `Base58.RoundTrip` | src/ui/passkey.ts:37-41 | the reference decoder recovers every byte string including leading zeros; the digits never start with the zero digit; the text is at least as long as the input |
| `Base58.EncodeInjective` | src/ui/passkey.ts:18-21 | different byte strings have different encodings |
| `Base58.DecodeThenEncode` | src/ui/passkey.ts:18-21 | every text the reference decoder reads is the encoding of what it reads, so encoding is a bijection with the readable texts |
| `Base58.CarryByte` | src/ui/passkey.ts:55-64 | the in-place loops compute that round; carries stay at most 255 and intermediates at most 14847 |
| `Base58.EncodeBase58` | src/ui/passkey.ts:42-73 | the nested loops compute the encoding |
| `Base58.NormalizeBytes` | src/ui/passkey.ts:79-83 | any requested size becomes at least 16 |
| `Base58.GenerateStrongPasskey` | src/ui/passkey.ts:92-97 | every generated passkey decodes to its random bytes and passes the length check |
| `Framing.PackRoundTrip` | src/core/crypto.ts:88-100 | regrouping bytes to sextets and back is exact |
| `Framing.EncodeIsUnpadded` | src/core/crypto.ts:88-92 | the URL encoding is the unpadded one, loses nothing in the alphabet change and never holds the separator |
| `Framing.B64UrlRoundTrip` | src/core/crypto.ts:88-100 | decoding recovers every byte string, padding restored from the length |
| `Framing.FrameRoundTrip` | src/core/crypto.ts:110-123 | every framed pair splits into exactly two parts that decode to the same bytes |
| `Http.EntriesJoin` | src/server/http.ts:46-49 | entries prepended stay in front: splitting, trimming and filtering distribute over the comma |
| `Http.PrependingIsIgnoredExactly` | src/server/http.ts:37-57 | what a caller prepends changes nothing iff the suffix has more than the trusted hops' entries |
| `Http.ShortChainYieldsNone` | src/server/http.ts:50-61 | a shorter chain yields no address even when x-real-ip is present |
| `Http.FeedJoin` | src/server/http.ts:126-130 | where a body is cut into chunks does not show in the decoded text |
| `Http.ReadBounded` | src/server/http.ts:105-136 | returns the text of the whole body iff it fits and the stream ends well, and on an oversized body stops at the first chunk that crosses the bound |
| `Offchain.FillLegacy` | src/core/offchainMessage.ts:115-124 | the moving-offset buffer holds exactly the legacy layout |
| `Offchain.FillV0` | src/core/offchainMessage.ts:151-165 | the moving-offset buffer holds exactly the v0 layout |
| `Offchain.EncodeOffchainMessageLegacy` | src/core/offchainMessage.ts:110-125 | the legacy envelope or the first applicable error |
| `Offchain.EncodeOffchainMessage` | src/core/offchainMessage.ts:135-166 | the v0 envelope or the first applicable error |
| `Offchain.IsPrintableAscii` | src/core/offchainMessage.ts:63-69 | true iff every byte is printable or a newline |
| `Offchain.EnvelopesParseBack` | src/core/offchainMessage.ts:7-29 | each envelope parses back to message and signer iff the length fits 16 bits |
| `Offchain.LayoutsInjective` | src/core/offchainMessage.ts:110-166 | within a layout the bytes determine message and signer |
| `Offchain.LayoutsDisjoint` | src/core/offchainMessage.ts:110-166 | a legacy layout of printable text is never a v0 layout, at any length and under any domain; of other text only under a domain that begins with its format byte |
| `Offchain.EncodersDisjoint` | src/core/offchainMessage.ts:110-166 | the two encoders never produce the same bytes, whatever messages, options and signer, unless a UTF-8 message meets an application domain that begins with a one |
| `Offchain.EncodersMeetExactly` | src/core/offchainMessage.ts:110-166 | a v0 envelope equals some legacy envelope iff its domain begins with a one and the length of the rest, and that rest is UTF-8 |
| `Offchain.EncodersMeet` | src/core/offchainMessage.ts:110-166 | such envelopes exist |
| `Offchain.RawDisjoint` | src/core/offchainMessage.ts:34-40 | printable text is neither envelope |
| `Offchain.PreimageDeterminesMessage` | src/core/offchainMessage.ts:197-212 | the raw message and both candidates of different messages never coincide |
| `LoginMessage.MessageInjective` | src/core/index.ts:56-72 | the sign-in message determines host, origin, address and challenge |
| `LoginMessage.SignatureNamesOneLogin` | src/server/signature.ts:32-36 | one signed byte string is a preimage of one login only |
| `LoginMessage.VerifySolanaSignature` | src/server/signature.ts:37-63 | accepts iff the builder takes the fields, signature and key can be read, and the signature verifies over one of the login's preimages; false on any other input |
| `Hex.HexToBytes` | src/server/signature.ts:6-18 | reads exactly an even number of hex digits behind an optional prefix |
| `Hex.HexRoundTrip` | src/server/signature.ts:6-18 | hex text of any byte string reads back to it, with or without the prefix |
| `LedgerSigner.SignCascade` | src/ledger/solanaSigner.ts:115-131 | the loop over the candidates is the cascade: it moves on only past header rejections, and its outcome is the pinned one under the layout it reports |
| `LedgerSigner.PinHolds` | src/ledger/solanaSigner.ts:104-114 | after a registration that returned s and reported a layout, a pinned call under any later firmware returns s iff that firmware takes the layout, and fails iff not |
| `LedgerSigner.LayoutDecidesKey` | src/ledger/solanaSigner.ts:96-102 | two registrations of one message under any firmwares produce the same signature iff they report the same layout |
| `Vault.VaultState.ArmAppKey` | src/client/session.ts:223-228 | installs the key, restarts the window and the timer |
| `Vault.VaultState.TouchVault` | src/client/session.ts:231-235 | extends the window of an installed key, whether or not it has run out |
| `Vault.VaultState.ScheduleLock` | src/client/session.ts:187-192 | the timer fires at the deadline, or at once if that has passed |
| `Vault.VaultState.LockVault` | src/client/session.ts:245-256 | drops key, deadline and timer; only an explicit lock writes the sentinel, with its clock reading |
| `Vault.VaultState.IsLocked` | src/client/session.ts:264-271 | reports and silently drops a key that has run out |
| `Vault.VaultState.LockSnapshot` | src/client/session.ts:280-284 | agrees with the mutating check and changes nothing |
| `Vault.VaultState.GetAppKey` | src/client/session.ts:313-316 | the key iff it is usable |
| `Vault.KeyIsFreshlyArmed` | src/client/session.ts:4-9 | in every run with guarded touches a readable key is the last one armed, unlocked since, with no idle gap longer than its window |
| `Vault.UnguardedTouchBreaks` | src/client/session.ts:230-235 | after any guarded run, a touch that finds a key run out makes it readable with no account of activity that justifies it |
| `Vault.PromiseKeptExactly` | src/client/session.ts:4-9 | over whole runs the vault keeps its promise after every event iff no touch finds a key that has run out |
| `Vault.UnguardedTouchRevives` | src/client/session.ts:230-235 | a concrete run in which such a touch revives the key |
| `Vault.LockReaches` | src/client/session.ts:167-177 | an explicit lock that changes the sentinel, or a logout that removes the token, locks every tab that received it and armed no new key |
| `Vault.SignalsDieOut` | src/client/session.ts:167-177 | over any run without a further lock or logout, events handled plus events pending stay what was pending, and the sentinel is unchanged |
| `Vault.LockReachesExactly` | src/client/session.ts:245-256 | over runs: an explicit lock reaches another tab iff its millisecond differs from the sentinel, or the tab is locked or has an event on its way anyway |
| `Vault.SameMillisecondLockIsSilent` | src/client/session.ts:245-256 | in one step: an explicit lock notifies another tab iff its timestamp differs from the stored one |
| `Vault.SilentLockExample` | src/client/session.ts:245-256 | a concrete run in which a second lock of the same millisecond leaves a tab unlocked with nothing on its way |

## Left out

- Cryptography and randomness: signatures are ideal predicates or deterministic functions, token digests are distinct, random bytes are parameters.
- JSON text and decimal text: a stored string keeps the value it renders, so rendering and parsing are exact and a value of another kind fails to parse; `incr` is only applied to values `incr` wrote.
- SQL text, placeholders, DDL, preflight, boot warnings and driver I/O: each statement is modelled by its effect on the tables; a statement that fails is not modelled, and the upsert always returns a count.
- SqlAuthStores.SqlAuthStore.PutUser: transactions are modelled as atomic but for the insert race on the email index, where a rival claim is a parameter.
- RecordRace.NoLostWalletWrite: is about the key-value calls; on SQLite an acknowledged slot write can be lost (`SqliteClients.WalletLost`), and is not on quiet runs (`SqliteStore.QuietIsAtomic`).
- SqliteStore.PutUserTxIsPutUser: is the only transaction of the store on SQLite; a call that reads twice, as getUser does, is one call of the client.
- BackendRuns.AlikeStep: a hit reads one clock on both backends; `AuthSpec.HitRateLimit` and `HitRace` keep the two readings of the key-value hit apart.
- RateWindows.WindowKept: is about hits that complete one after the other; `HitRace.InterleavedWindow` is about hits that interleave, whose expiry call may come late.
- Rate limiting, status codes and response bodies of the handlers, the creation ceiling and its gate; the interleavings model their store calls and signature checks.
- Concurrent first-time creation of one identity by two connects: both may take the creation branch, so the connect result is about records that already hold a wallet.
- Lock notifications to subscribers, storage items other than the lock sentinel and the auth token, and the page lifecycle events, each of which is a plain lock.
- React hooks, UI components, WebAuthn, key derivation, EVM wallets, the Redis and Upstash adapters, the PostgreSQL and MySQL drivers.
- Memory addresses and aliasing of JavaScript strings and Maps: strings are sequences of characters, without lone surrogates, and Map iteration order is arbitrary.
- AuthTypes.NormalizeStable: lower-casing is modelled for ASCII letters only, because the source relies on the full Unicode tables of its runtime.
- RecordRace.OneWinner: is about the key-value write sequence; the handler's earlier duplicate checks only make fewer requests reach it and are not modelled.
- SqliteQueue.SerialEquivalence: is about callers of `transaction()` whose callbacks use only their handle; `PlainWriteSafeExactly` says when a plain query is safe.
- Http.ReadBounded: the buffered fallback for bodies without a stream reader is not modelled.
- LoginMessage.VerifySolanaSignature: base58 decoding of the key and the signature check are parameters.
- LoginMessage.MessageInjective: takes the host and origin of an already parsed URL; parsing is not modelled.
- Offchain.EncodeOffchainMessage: takes the verdict of the UTF-8 decoder as an option.
