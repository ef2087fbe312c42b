# Locket in Dafny

A Dafny 4.11 model of Locket, the distributed lock service with its Go client libraries, and proofs
about it. `dafny verify dfyconfig.toml` checks the whole project.

Three parts of the system are modelled.

**The lease protocol.** A lock is a row of the `locks` table with an owner, a version (`modified_id`,
minted when the row is inserted, and `modified_index`, raised by every successful Lock) and a ttl.
Request handlers commit and then register the version with the lock pick; the lock pick keeps one
entry per (key, id) and one timer goroutine, a *checker*, per registration; a checker whose timer
fires fetches the row, releases it if the version is still the registered one, and cleans up its
entry; the burglar rescans the table; clients renew their locks from a retry loop.
`Protocol.dfy` puts all of this into one step system with a clock. Every event is one atomic action,
so the Fetch and the Release of a checker are two events and anything may happen in between. A run is
a sequence of states and events; the theorems of `Lease.dfy`, `Expiration.dfy` and `Heartbeat.dfy`
are about all runs, as are those of `Coverage.dfy` (no row is forgotten), `Orphans.dfy` (when a checker
loses its entry), `Exclusion.dfy` and `Rivalry.dfy` (mutual exclusion among any number of clients, and
its exact conditions); `Races.dfy` holds
concrete runs that show where a stronger promise fails.
The same operations are also written as classes that update their state in place (`LockTable.SQLDB`,
the classes of `LockPick.dfy`, `LockRunner.Runner`), proved against the functions the step system
uses.

**The wire codec.** `Varint.dfy`, `Wire.dfy` and `Codec.dfy` give the meaning of the generated
Protocol Buffers code: varints, fields, the skipper for unknown fields, and three decoders, each the
same loop around its own switch. `RoundTrip.dfy` and `Grammar.dfy` prove the theorems; `Messages.dfy`
has the message objects with `Size`, `MarshalTo` into a buffer at a moving index, and `Unmarshal`
assigning fields in place.

**The Consul clients.** A session with its renewing goroutine and lock monitor (`Session.dfy`), the
lock runner around it (`ConsulLock.dfy`), both together (`ConsulClient.dfy`), and the disappearance
watcher (`Watcher.dfy`).

Conventions: a Go string is a sequence of bytes; time counts nanoseconds; a nil resource, a missing
key and every error return are values (`Option`, `Result`). What the outside world decides is a
parameter or part of an event: the GUID provider's answer, the order in which the database returns
rows and which of them fail to scan, Consul's answers, the choice that a `select` makes.

What is assumed: transactions are atomic, the GUID provider never answers the empty string or a GUID
that was used before (`Versions.Fresh`), and all Lock traffic comes through the handler.

## Promises that do not hold as stated

- The lease documentation asks the client to lock again before the ttl elapses. That protects the
  lease exactly when no checker stands between a matching Fetch and its Release
  (`Lease.TimelyRenewalIsSafeIff`); `Races.RenewalCanBeTooLate` is a run that gets into the
  unprotected situation by renewing late.
- A lease lasts at least its ttl exactly for ttls up to 9223372036 seconds; beyond that the int64
  product overflows (`Registry.TimerDurationExact`, `Lease.DeadlineIsTtl`).
- A live checker need not have an entry, since the deferred cleanup compares indices and not
  channels (`Races.LiveCheckerWithoutEntry`). Exactly: a checker that owns its entry can lose it to
  another, and stay behind live and uncancelled, if and only if another unfinished checker of the same
  key, id and index exists (`Orphans.OrphanedIffTwin`). For the highest index of a (key, id) there is
  never another, and the entry exists exactly when the checker does (`Registry.TopEntryIffChecker`).
- Without the burglar a row can be left with no check. For a committed version that takes a restart
  or a failing query of a check of that very version, after its commit (`Coverage.NoRowIsForgotten`).
  A restart always does it (`Coverage.RestartForgets`), and so does every such failure with the cleanup
  that follows, unless the handler is yet to register the version (`Coverage.FailureForgets`).
- The Consul runner does not return every loss of its lock. The return of a loss is certain to stay
  possible for as long as the runner runs if and only if the session has an error, sent or certain to
  come, that was not read before the lock was held (`ConsulClient.LossIsNeverGivenUpIffSure`). It is
  possible at all if and only if the session may still have such an error
  (`ConsulClient.LossIsReturnedIffUnread`). `ConsulClient.LossCanBeDropped` is a run in which the error
  is read first, ready is closed after it, and the loss is never returned; in the run of
  `ConsulClient.LossCanBeGivenUp` the return is possible until the monitor sees the end of the session.
- Two clients can both take themselves to hold a lock. If all their calls get through, that can happen
  if and only if one of them, with a rival, lets its delays and retry interval reach its ttl in sum
  (`Rivalry.ExclusionIffSound`). Calls may also fail, or their answers be lost. Then no ttl is long
  enough: any two rivals, the first with a retry interval at all, have a run in which both take
  themselves to hold the lock (`Rivalry.LostAnswersBreakExclusion`), because a call can be granted while
  the expiry of the lease is in flight. With calls granted only when none is, exclusion holds if and
  only if every runner that has a rival keeps its delays and retry interval, the response delay counted
  twice, below its ttl (`Rivalry.ExclusionIffRobust`).
- The stored row loses the type code exactly when the code is not a declared one
  (`LockTable.LockThenFetch`); validated requests are never affected.
- The API documentation marks both type fields as optional and the key as required. The code rejects
  a request that names no type (`Models.ValidateExact`) and accepts an empty key wherever it accepts
  another free key (`Versions.EmptyKeyIsAccepted`). The model follows the code.

## Model

| member | source | states |
|---|---|---|
| `Models.GetResourceKeeps` | models/helpers.go:3-35 | canonicalising keeps key, owner and value of every resource, fills in the type string by a declared code and the code by the type string where none is given, and leaves the rest as it is |
| `Models.GetResourceIdempotent` | models/helpers.go:3-35 | canonicalising a resource twice is canonicalising it once, for every type string and type code |
| `Models.ValidateExact` | handlers/handler.go:141-179 | a request passes validation if and only if at least one type field names a known type and the two do not contradict each other; every rejection is the invalid-type error |
| `Models.ValidatedBecomesCanonical` | models/helpers.go:3-35 | a validated resource becomes canonical, and its type string alone then determines its type code |
| `Models.TypeCodeRecoverable` | models/helpers.go:3-35 | the type code can be recovered from the stored type string if and only if the code is a declared one |
| `Models.TypeNames` | models/models.go:11-12 | the two type strings are the texts lock and presence |
| `LockTable.SQLDB.Lock` | db/lock_db.go:20-97 | the transaction as a function of the old table: collision, new version or GUID failure, with the table unchanged on every error |
| `LockTable.SQLDB.Release` | db/lock_db.go:99-125 | deletes the row of the key if and only if the requester owns it; otherwise reports not found or collision and changes nothing |
| `LockTable.SQLDB.Fetch` | db/lock_db.go:127-152 | answers the row's resource with its version and ttl; an ownerless or missing row is not found |
| `LockTable.SQLDB.FetchAll` | db/lock_db.go:154-209 | answers every owned lock of the type that can be scanned, each once and nothing else, for any order of the rows |
| `LockTable.SQLDB.Count` | db/lock_db.go:211-224 | the number of rows with an owner, and of the type if one is given |
| `LockTable.CountMatchesFetchAll` | db/lock_db.go:154-224 | a full answer of FetchAll has exactly as many locks as Count reports |
| `LockTable.LockStoresRequest` | db/lock_db.go:20-97 | Fetch after a successful Lock, on a new or a renewed row, answers key, owner, value and ttl of the request, the type it names or its code stands for, the next index and the row's id or a new one; no other row changes |
| `LockTable.LockThenFetch` | db/lock_db.go:51-83 | Fetch after Lock answers exactly the committed lock if and only if the request's type code is a declared one; every other key is fetched as before |
| `LockTable.LockRefusedIff` | db/lock_db.go:27-49 | the transaction is refused as a collision if and only if another owner has the row, for want of a GUID if and only if one is needed, and for nothing else |
| `LockTable.ReleaseAndFetchExact` | db/lock_db.go:99-152 | Release deletes the row of its key and no other if and only if the requester owns it; each error of Release and Fetch if and only if its cause is there |
| `Registry.TimerDurationExact` | expiration/lock_pick.go:77 | the timer runs at least the ttl if and only if the ttl is at most 9223372036 seconds, and then exactly the ttl |
| `Registry.TimerDurationWraps` | expiration/lock_pick.go:77 | for every ttl the timer's length is the product in a signed 64-bit word |
| `Registry.TimerDurationOverflow` | expiration/lock_pick.go:77 | one second more and the timer is due before it is started |
| `Registry.RegisterKeepsInv` | expiration/lock_pick.go:59-73 | registering any version keeps the registry invariant: no channel closed twice, every entry open and owned by an unfinished checker of its version, the highest index always owned |
| `Registry.RegisterCloses` | expiration/lock_pick.go:62-72 | from any registry, a registration closes a channel exactly when it replaces a lower index, that of the replaced entry, and panics exactly when it is closed already; with the invariant it never is |
| `Registry.CleanupKeepsInv` | expiration/lock_pick.go:85-92 | so does the deferred cleanup, although it compares indices only |
| `Registry.TopEntryIffChecker` | expiration/lock_pick.go:59-92 | for the highest index of a (key, id): an entry exists exactly when an unfinished checker does, and there is at most one |
| `Registry.ScanCovers` | expiration/burglar.go:36-43 | registering all locks of a scan leaves each covered, from any registry whatever, and uncovers none |
| `Registry.ScanStartsOnlyScanned` | expiration/burglar.go:54-63 | a scan starts checkers for scanned locks and for no others |
| `Registry.ScanIdempotent` | expiration/burglar.go:54-63 | scanning the same locks again changes nothing in the registry |
| `Versions.NilResourceRejected` | handlers/handler.go:42-65 | a nil resource is rejected by the type check, before any dereference |
| `Versions.LockAcceptedIff` | handlers/handler.go:42-79 | a Lock call commits if and only if type, ttl and owner are valid, no other owner has the row, and a GUID is there if one is needed; the key may be anything |
| `Versions.LockRefusedWith` | handlers/handler.go:42-79 | which error a refused request gets, each if and only if its cause is there and none that comes before it: type, ttl, owner, collision |
| `Versions.EmptyKeyIsAccepted` | handlers/handler.go:42-69 | the empty key is accepted exactly where any other free key is, and a concrete request with it is |
| `Versions.LockMakesNewVersion` | db/lock_db.go:24-94 | a successful Lock starts a fresh id at index 1 or keeps id and owner and raises the index by one; the version was never committed before and nothing else changes |
| `Versions.LockKeepsInv` | handlers/handler.go:42-84 | every Lock call, accepted or not, keeps the invariant of table and commit history |
| `Versions.ReleaseKeepsInv` | db/lock_db.go:99-125 | every Release, client's or checker's, keeps it |
| `Versions.HistoryIsContiguous` | db/lock_db.go:40-56 | every version was preceded by all lower indices of its id, with the same key and owner, in order of time |
| `Versions.CurrentVersionIsRow` | expiration/lock_pick.go:99 | a snapshot whose id and index match the row's is the row in all its fields, ttl included |
| `Versions.CountsAddUp` | db/lock_db.go:211-224 | the counts of locks and presences add up to the count of all, in every reachable table |
| `Protocol.StepKeepsInv` | expiration/lock_pick.go:50-120 | every event of every actor keeps the protocol invariant: versions, registry, and no checker ahead of its lease |
| `Protocol.RunKeepsInv` | expiration/lock_pick.go:50-120 | the invariant holds in every state of every run |
| `Lease.VersionsComeFromCommits` | db/lock_db.go:24-94 | every version that appears during a run was committed by a Lock call of that run |
| `Lease.CommitsAreUnique` | db/lock_db.go:24-94 | two commits of a run never share (key, id, index); commits that share an id have one key, one owner and rising indices |
| `Lease.SuccessiveCommitsAddOne` | db/lock_db.go:40 | successive commits on one id raise the index by exactly one |
| `Lease.OwnerChangesThroughAbsence` | db/lock_db.go:35-38 | a key passes from one owner to another only through a state with no row for it, in every run |
| `Lease.ReleaseTakesOwn` | db/lock_db.go:99-125 | after a client's Release the row of its key is gone if and only if the requester held it or there was none; every other row, the history, the registry and the clock stay |
| `Lease.ExpiryDeletesOnlyOwn` | db/lock_db.go:102-122 | whatever happened since its Fetch, a checker's Release deletes a row if and only if the registered owner holds the registered key, and touches no other |
| `Lease.MatchedCameFromFetch` | expiration/lock_pick.go:94-99 | a checker about to release had its own Fetch answer the registered version |
| `Lease.ExpiryIsPrecise` | expiration/lock_pick.go:94-111 | every expiry follows such a Fetch; with no commit on the key in between, it deletes exactly the registered version and not before its lease was over |
| `Lease.DeadlineIsTtl` | expiration/lock_pick.go:77 | the lease of a version lasts at least its ttl if and only if the ttl does not overflow, and then exactly its ttl |
| `Lease.OverflowedLeaseIsOver` | expiration/lock_pick.go:77 | a lease is over the moment it is committed if and only if its timer's length is not positive |
| `Lease.TimelyRenewalIsSafe` | expiration/lock_pick.go:76-118 | in every interleaving of handlers, checkers, delayed registrations, scans and restarts, an owner with no expiry in flight that always renews before its lease is over never loses the row to an expiry |
| `Lease.TimelyRenewalIsSafeIff` | expiration/lock_pick.go:94-111 | for the holder of a running lease, timely renewal protects it in every continuation if and only if no checker stands between a matching Fetch and its Release |
| `Races.RenewalCanBeTooLate` | expiration/lock_pick.go:94-111 | a run from the start in which a renewed, running lease is about to be released by a checker |
| `Races.LiveCheckerWithoutEntry` | expiration/lock_pick.go:85-92 | a run from the start that leaves an unfinished checker without an entry; its index is one below the highest of its key |
| `Expiration.RegistryOverRuns` | expiration/lock_pick.go:59-92 | in every state of every run: no channel was closed twice, every entry is live, and the highest index of a key has an entry exactly when it has its one unfinished checker |
| `Expiration.EntryIndexRises` | expiration/lock_pick.go:62-72 | while a key keeps an entry, the entry's index only rises |
| `Expiration.EntryFate` | expiration/lock_pick.go:62-92 | an entry goes only by a higher index that closes its channel, by a cleanup of its own index (its own checker's, unless a higher index was registered), or by a restart |
| `Expiration.CurrentIsNotClosed` | expiration/lock_pick.go:68-83 | the checker of the row's current version is never cancelled |
| `Expiration.AbandonedRowIsRemoved` | expiration/lock_pick.go:84-117 | in every run without Lock calls on the key, restarts and database errors in the check, the row is gone once the check of its current version is over, and no entry holds its channel |
| `Expiration.AbandonedRowCanExpire` | expiration/lock_pick.go:84-117 | from any waiting check of the current version, time and the checker's own four actions can always follow, and leave neither row nor entry |
| `Expiration.PassRecovers` | expiration/burglar.go:36-63 | after one undisturbed pass, from any reachable state (also right after a restart), every row has an entry of exactly its version |
| `Expiration.PassIsPossible` | expiration/burglar.go:54-63 | a pass over any answer read from the table can be made whenever no scan is under way |
| `Expiration.SecondPassIsSilent` | expiration/burglar.go:54-63 | a second pass over the same table, with the rows in any order and some possibly missing, starts no checker and closes no channel |
| `Expiration.FailedCheckIsRegisteredAgain` | expiration/burglar.go:54-63 | from any state in which a check is over although the row still is its version, whatever happened in between, the next pass starts a new checker for that version |
| `Expiration.FailedCheckLeavesRow` | expiration/lock_pick.go:94-116 | how such a state arises: a database error ends the check and changes no row |
| `Coverage.UnsettledCheckFailed` | expiration/lock_pick.go:80-118 | in every run, a check that is over while the row still is its version had a database error: cancellation and a row that moved on are the only other ends |
| `Coverage.NoRowIsForgotten` | expiration/lock_pick.go:50-118 | in every run, a row whose version was committed by some event is about to be registered by its handler or has an entry of exactly its index, unless a restart or a failing query of a check of this very version came after that commit |
| `Coverage.RowCameFromCommit` | db/lock_db.go:24-94 | every row of a run from the start was committed, as it is, by one of its Lock calls |
| `Coverage.RememberedIffChecked` | expiration/lock_pick.go:62-92 | a row is remembered in this sense if and only if its handler is about to register it or an unfinished checker of this very version exists |
| `Coverage.RestartForgets` | expiration/lock_pick.go:41-48 | a restart keeps database and clock and nothing in memory, and so forgets every row |
| `Coverage.FailureForgets` | expiration/lock_pick.go:94-116 | a failing Fetch or Release in a check of the row's version forgets the row with the cleanup, unless the handler is yet to register it |
| `Races.FailedCheckForgetsRow` | expiration/lock_pick.go:94-97 | one failing Fetch leaves a row with no entry, no registration under way and no scan |
| `Orphans.OrphanedIffTwin` | expiration/lock_pick.go:85-92 | a checker that owns its entry becomes in some continuation a live, uncancelled checker without one if and only if another unfinished checker of its key, id and index exists |
| `LockPick.LockPick.constructor` | expiration/lock_pick.go:41-48 | the registry starts empty |
| `LockPick.LockPick.RegisterTTL` | expiration/lock_pick.go:50-74 | the object's maps and channels change exactly as a registration step does: ignored, installed, or replacing and closing |
| `LockPick.LockPick.CheckExpiration` | expiration/lock_pick.go:79-118 | a check that is not interfered with: cancelled, it only ends; otherwise it cleans up its entry, and deletes the row exactly when both queries succeed and the row still is the registered version |
| `LockPick.CheckIsRun` | expiration/lock_pick.go:79-118 | what the method does to table and registry is, for each outcome, the run of the checker's own events in the step system |
| `LockPick.Burglar.Pass` | expiration/burglar.go:54-63 | a pass registers the answer in order and leaves every owned row that can be scanned covered |
| `LockPick.Burglar.Run` | expiration/burglar.go:30-68 | scan at the start and at every tick until the signal, failed fetches skipped: every lock answered at the start, or at a tick before the first signal, is covered afterwards; every checker started is one for such a lock; the registry is as after registering them in order |
| `LockPick.LocketHandler.Lock` | handlers/handler.go:42-84 | commit, then register; a rejected or failed call registers nothing and changes nothing |
| `LockPick.LockIsCommitThenRegister` | handlers/handler.go:69-81 | what the handler does is the run commit, registration of the step system, or no change |
| `LockPick.LocketHandler.Release` | handlers/handler.go:86-97 | the release transaction and its errors; a request without a resource panics and changes nothing |
| `LockPick.ReleaseIsRun` | handlers/handler.go:86-97 | what the handler does to the table is the run of the one release event, which changes nothing else |
| `LockPick.LocketHandler.FetchAll` | handlers/handler.go:114-139 | for an accepted request a row is answered, once, if and only if it is owned, can be scanned and is of the type the request names, or its code stands for if it names none; an error if and only if validation fails |
| `LockRunner.ReadyClosesOnce` | lock/lock.go:69-116 | over every sequence of results: acquired if and only if the last call succeeded, ready closed once at the first success and never again |
| `LockRunner.Runner.Run` | lock/lock.go:63-123 | the loop exits as lost if and only if it is a lock runner and a call fails directly after a success; ready was closed before; a presence runner goes on; Release is called once on a signal and never otherwise |
| `Heartbeat.RunnerFollowsResults` | lock/lock.go:63-123 | in every joint run the runner's variables are what the results read so far make them, and it has stopped for a loss if and only if it is a lock runner and a failure followed directly on a success |
| `Heartbeat.InterruptReleases` | lock/lock.go:84-94 | told to stop, the runner exits and its owner does not hold the key afterwards; nothing else changes |
| `Heartbeat.HeartbeatHoldsLock` | lock/lock.go:80-119 | client and protocol together: if response delay, retry interval and request delay stay below the ttl, the runner holds the lock from the grant until it is told to stop, with no refused call and no reported loss, under every interleaving in which its calls get through, no expiry of its lease is in flight at the grant, and nobody else releases its lock or renews it for a shorter time |
| `Heartbeat.HeartbeatBoundIsTight` | lock/lock.go:80-119 | when they add up to the ttl or more, there is a run under the same circumstances in which the lock expires |
| `Heartbeat.HeartbeatBoundIsExact` | lock/lock.go:80-119 | the runner is safe under every schedule if and only if the bound holds |
| `Exclusion.MutualExclusion` | lock/lock.go:63-123 | any number of runners with owner names of their own, from the start, in every run in which their calls get through: one that keeps within its bound holds the lock whenever it takes itself to; no two such runners ever take themselves to hold the same lock |
| `Exclusion.MutualExclusionDespiteFailures` | lock/lock.go:96-116 | the same when calls fail and answers are lost at any time, for runners that stay below the ttl with the response delay counted twice, if calls are granted only while no expiry of the lease is in flight |
| `Exclusion.UncleanGrantLoses` | lock/lock.go:96-116 | that guard is needed: from every call granted with an expiry of the lease in flight, two steps lead to a runner that takes itself to hold a lock it does not hold |
| `Rivalry.ExclusionFails` | lock/lock.go:80-119 | a runner with a rival that does not keep within its bound: a run from the start, with all calls getting through, ends with both taking themselves to hold the lock |
| `Rivalry.ExclusionIffSound` | lock/lock.go:63-123 | mutual exclusion holds in every run with all calls getting through if and only if every runner that has a rival keeps within its bound |
| `Rivalry.FailureBreaksExclusion` | lock/lock.go:96-116 | a runner with a rival that does not stay below its ttl with the response delay counted twice: a run with at most one failing call, and every grant clean, ends with both taking themselves to hold the lock |
| `Rivalry.ExclusionIffRobust` | lock/lock.go:63-123 | with failing calls and clean grants, mutual exclusion holds in every run if and only if every runner that has a rival stays below its ttl with the response delay counted twice |
| `Rivalry.LostAnswersBreakExclusion` | lock/lock.go:70-116 | without clean grants no ttl is long enough: for all accepted rivals, the first with a positive retry interval, a run within all delay bounds ends with both taking themselves to hold the lock |
| `Varint.EncodeDecode` | models/locket.pb.go:1335-1348 | every 64-bit value takes at most ten bytes and is read back from them, whatever follows |
| `Varint.EncodeForm` | models/locket.pb.go:1100-1108 | groups of seven bits with the low ones first, the top bit set in every byte but the last, and no more bytes than needed (Protocol Buffers Encoding guide, Base 128 Varints) |
| `Varint.DecodeExact` | models/locket.pb.go:1335-1348 | an input starts with a varint if and only if one of its first ten bytes is below 128; ten bytes without one are an overflow, fewer an unexpected end |
| `Varint.DecodeIsLocal` | models/locket.pb.go:1335-1348 | what is read depends only on the bytes that are read |
| `Varint.SignedRoundTrip` | models/locket.pb.go:866-870 | every int64, and every int32 through its sign-extended 64-bit form, comes back, negative ones included |
| `Varint.CutIsMod` | models/locket.pb.go:1488 | what a word keeps of a value accumulated in it is the value modulo 2^32 or 2^64 |
| `Varint.EncodeVarint` | models/locket.pb.go:1100-1108 | writes exactly the varint at the offset and nothing else, and returns the offset behind it |
| `Varint.Sov` | models/locket.pb.go:1214-1223 | the number of bytes that are written for the value |
| `Varint.ReadVarint` | models/locket.pb.go:1335-1348 | the loop reads the varint, truncated to the width it accumulates in, or fails as specified, on any bytes |
| `Wire.SkipExact` | models/locket.pb.go:2140-2238 | every well-formed field, with groups nested to any depth and in any encoding of its varints, is skipped in exactly its length, whatever follows |
| `Wire.SkipSound` | models/locket.pb.go:2140-2238 | conversely, what the skipper gets past is a well-formed field |
| `Wire.NoSuchWireType` | models/locket.pb.go:2233-2235 | the wire types 6 and 7 are refused |
| `Wire.SkipLocket` | models/locket.pb.go:2140-2238 | the recursive method computes the specified length or error and terminates on any input |
| `Codec.PayloadRead` | models/locket.pb.go:1362-1386 | a payload behind its length is read back, in any encoding of the length |
| `Codec.PayloadRefused` | models/locket.pb.go:1377-1384 | a negative length, or one beyond the input, is refused with its own error |
| `Codec.TagRefused` | models/locket.pb.go:1351-1356 | an end-group tag and a tag without a field number are refused by every decoder, each with its own error |
| `RoundTrip.AlienIsSkipped` | models/locket.pb.go:1493-1506 | a well-formed field of unknown number leaves the message alone and decoding goes on behind it |
| `RoundTrip.UnmarshalMerges` | models/locket.pb.go:1329-1513 | decoding a written resource merges it over what is there, and goes on behind it |
| `RoundTrip.ResourceRoundTrip` | models/locket.pb.go:837-872 | the fields that Marshal writes for any resource, with any well-formed unknown fields before, between and after, decode to the resource |
| `RoundTrip.ResourceDecodesBack` | models/locket.pb.go:827-872 | Unmarshal of Marshal into a fresh resource gives it back |
| `RoundTrip.ConcatenatedResourcesMerge` | models/locket.pb.go:1329-1513 | two encodings in a row decode to the second's non-default fields over the first's |
| `RoundTrip.LockRequestRoundTrip` | models/locket.pb.go:884-905 | the same for lock requests: any ttl, no, empty or full resource, unknown fields inside and outside |
| `RoundTrip.LockRequestDecodesBack` | models/locket.pb.go:874-905 | Unmarshal of Marshal into a fresh request gives it back |
| `RoundTrip.ConcatenatedLockRequestsMerge` | models/locket.pb.go:1514-1615 | concatenated requests merge, nested resources field by field |
| `RoundTrip.FetchAllRoundTrip` | models/locket.pb.go:1062-1080 | the same for responses with any list of resources |
| `RoundTrip.FetchAllDecodesBack` | models/locket.pb.go:1052-1080 | Unmarshal of Marshal into a fresh response gives it back |
| `RoundTrip.ConcatenatedResponsesAppend` | models/locket.pb.go:2059-2139 | concatenated responses append their lists |
| `RoundTrip.ResourceFields` | models/locket.pb.go:1357-1492 | the field numbers on the wire: key 1, owner 2, value 3, type 4, type code 5 |
| `RoundTrip.LockRequestFields` | models/locket.pb.go:1542-1594 | resource 1, decoded over the one that is there, and ttl 2 |
| `RoundTrip.FetchAllFields` | models/locket.pb.go:2059-2139 | resources 1, one more for each |
| `Grammar.DecodesExactly` | models/locket.pb.go:1329-1513 | the resource decoder turns one message into another on some bytes if and only if the bytes are a sequence of well-formed fields, known ones with their own wire types, whose application in order gives the result |
| `Grammar.LockRequestDecodesExactly` | models/locket.pb.go:1514-1615 | the same for lock requests, with field 1 any bytes that the resource decoder accepts, decoded over the resource that is there |
| `Grammar.FetchAllDecodesExactly` | models/locket.pb.go:2059-2139 | the same for responses, with one more resource for every field 1 |
| `Grammar.WrongTypeRefused` | models/locket.pb.go:1358-1361 | a known field with another wire type is refused by each of the three decoders, whatever the rest of the input |
| `Messages.ResourceMsg.Size` | models/locket.pb.go:1109-1132 | the exact length of the encoding |
| `Messages.ResourceMsg.MarshalTo` | models/locket.pb.go:837-872 | writes the encoding behind the offset, every byte of it and nothing else, and returns its length |
| `Messages.ResourceMsg.Marshal` | models/locket.pb.go:827-836 | a buffer of Size bytes is filled to the last byte with the encoding |
| `Messages.ResourceMsg.Unmarshal` | models/locket.pb.go:1329-1513 | the loop with its field assignments in place computes the decoder's message, or its error, on any bytes |
| `Messages.LockRequestMsg.Size` | models/locket.pb.go:1134-1145 | the exact length of the encoding |
| `Messages.LockRequestMsg.MarshalTo` | models/locket.pb.go:884-905 | writes the encoding, nested resource included, and nothing behind it |
| `Messages.LockRequestMsg.Marshal` | models/locket.pb.go:874-882 | a buffer of Size bytes is filled to the last byte |
| `Messages.LockRequestMsg.Unmarshal` | models/locket.pb.go:1514-1615 | computes the decoder's message or error; the nested object is decoded over in place and created only if missing |
| `Messages.FetchAllResponseMsg.Size` | models/locket.pb.go:1202-1212 | the exact length of the encoding |
| `Messages.FetchAllResponseMsg.MarshalTo` | models/locket.pb.go:1062-1080 | writes the encodings of all resources in order, and nothing behind them |
| `Messages.FetchAllResponseMsg.Marshal` | models/locket.pb.go:1052-1060 | a buffer of Size bytes is filled to the last byte |
| `Messages.FetchAllResponseMsg.Unmarshal` | models/locket.pb.go:2059-2139 | computes the decoder's message or error, appending new objects |
| `Session.StepKeepsInv` | session.go:74-133 | every critical section and send keeps the session invariant, in particular that losses seen are losses reported plus losses the renewer still owes |
| `Session.SessionOverRuns` | session.go:74-199 | over every interleaving: doneCh is closed if and only if the session is destroyed and never twice, a created session is destroyed once, a loss is reported at most once, and exactly once when the renewer is through; at most two sends in all |
| `Session.IdIsWriteOnce` | session.go:94-115 | once set, the session id never changes |
| `Session.DestroyEnds` | session.go:74-91 | destroying closes the done channel and destroys a created session at Consul, once; again, it does nothing |
| `Session.OwedReportIsSent` | session.go:117-130 | a loss not reported yet is reported by the renewer's own remaining steps, whatever the renewal returns |
| `Session.RenewerReports` | session.go:117-130 | the renewer ends with one send: the recorded loss, or else nil, the invalid-session error or the error itself, told apart by the text; the session is destroyed |
| `Session.MonitorReports` | session.go:181-194 | on a live session the monitor destroys it, sends nothing and leaves the report to the renewer; on a destroyed one it sends the report itself |
| `Session.LossIsPossible` | session.go:152-199 | the life of a session with a loss, from creation to its one report |
| `Session.SessionObject.Destroy` | session.go:74-91 | the method is the destroy step: close once, destroy the id at Consul once |
| `Session.SessionObject.CreateSession` | session.go:94-133 | the method is the creation step, and succeeds if and only if the session is then usable |
| `Session.SessionObject.OnLostLock` | session.go:181-194 | the monitor's lost branch, destroyed or not |
| `Session.SessionObject.OnRenewReturned` | session.go:117-130 | the renewer's critical section and send |
| `ConsulLock.OneActivity` | lock.go:87-139 | over every run of loop and goroutines: exactly one of acquisition, unread result, retry timer, held lock; the result channel always has room; ready is closed at most once, and before any reported loss |
| `ConsulLock.HeldIsFinal` | lock.go:92-139 | once the lock is held, no acquisition, result or retry ever follows |
| `ConsulLock.Conservation` | lock.go:80-139 | in every run each goroutine started delivers once, each result is read once, and each result read is the lock taken or a retry timer armed until the next goroutine is started |
| `ConsulLock.TakenIffAcquired` | lock.go:109-124 | the lock is held or its result unread if and only if some goroutine got it |
| `ConsulLock.ExitExact` | lock.go:94-108 | the loop ends on a signal, on an error of the session with the lock held, and on nothing else; an error without the lock changes nothing |
| `ConsulLock.BranchesOpen` | lock.go:92-139 | which branches of the select are open while the loop runs: signal and error always, the result when there is one, the metrics timer while the lock is held, the retry timer while it is armed |
| `ConsulLock.Lock.Select` | lock.go:92-139 | one turn of the select loop changes the runner's variables as the step does |
| `ConsulLock.Lock.Run` | lock.go:71-141 | the loop over any admissible events ends in the specified state, with one activity |
| `ConsulClient.ExitDestroysSession` | lock.go:75-78 | in every run a runner that has exited has destroyed its session, at Consul too if it was created there, once |
| `ConsulClient.RetryStartsOver` | lock.go:128-138 | a retry makes a new session, alive, with no error sent or read, on which the goroutine asks for the lock |
| `ConsulClient.AcquireNeedsLiveSession` | session.go:152-158 | the goroutine asks for the lock exactly if its session is alive and was or can be created; otherwise the acquisition fails at once |
| `ConsulClient.LossIsReturnedIffUnread` | lock.go:101-124 | runner and session together: a runner that holds its lock returns the loss of it in some continuation if and only if the session has an error, sent or possibly to come, that was not read before the lock was held |
| `ConsulClient.LossIsNeverGivenUpIffSure` | lock.go:101-124 | the loss can be returned in every continuation that is still running if and only if the session has an error, sent or certain to come, that was not read before the lock was held |
| `ConsulClient.UnreadSessionReturnsLoss` | lock.go:101-105 | if no error was read before the lock was held, nothing but the exit of the runner takes the return of the loss away |
| `ConsulClient.LossCanBeDropped` | session.go:181-194 | a run from the start in which the lock is lost, ready is closed afterwards, and no continuation returns the loss |
| `ConsulClient.LossCanBeGivenUp` | session.go:181-196 | a run from the start to a held lock on a dead session: the loss can be returned, and no more once the monitor has seen the end of the session |
| `Watcher.NewKeySet` | disappearance_watcher.go:123-131 | exactly the keys that some session holds |
| `Watcher.Difference` | disappearance_watcher.go:133-142 | exactly the keys of the first set missing from the second, each once |
| `Watcher.TrackedAfter` | disappearance_watcher.go:76-116 | after a list the tracked keys are exactly those that a session holds in it, after a nil answer with a put none, after a failed list or put those of before |
| `Watcher.MissingIsReported` | disappearance_watcher.go:107-116 | a key tracked before a turn and held by no session in its list is named in the report of that turn, and every tracked key if the prefix is gone |
| `Watcher.StopsExact` | disappearance_watcher.go:80-96 | the watcher stops in the pause after a failed list, after a list, or at a report, and at a report only if a tracked key is missing |
| `Watcher.Watch` | disappearance_watcher.go:69-117 | over any answers, up to the turn in which the watcher stops: each turn reports exactly the keys tracked before and not after it, each once; a key is reported once for each time it entered the tracked set, except while it is still tracked; the wait index is the last one listed, or zero after a failed list |

## Left out

- The gRPC server, client dialling, TLS, configuration, main, schema migration: wiring without logic of its own.
- SQL helpers: each transaction is one atomic step that commits or leaves the table unchanged; row locks, retries, NULL and collation are not modelled, and strings compare exactly. The two not-found errors (of the SQL helpers and of the models) are one.
- More than one server process: the protocol has one registry, which a restart empties; two processes sharing a table would have two.
- A `modified_index` that reaches 2^63: indices are unbounded integers.
- Unrecoverable database errors that make the handler ask the process to exit, and the Fetch handler, which passes on what the transaction answers.
- Grammar.DecodesExactly: offsets are unbounded integers, so additions such as the index plus an announced length do not overflow as Go's int would for announced lengths near 2^63; the claim is about runs of the decoder without such an overflow.
- Grammar.LockRequestDecodesExactly: the same holds here.
- Grammar.FetchAllDecodesExactly: the same holds here.
- Wire.SkipSound: the same holds here for lengths announced inside a group.
- Messages.ResourceMsg.Unmarshal: on an error the message is left partly assigned; which fields were assigned is not stated.
- Messages.LockRequestMsg.Unmarshal: likewise on an error.
- Messages.FetchAllResponseMsg.Unmarshal: likewise on an error.
- RoundTrip.ResourceDecodesBack: encodings are shorter than 2^63 bytes, as slices are; the same bound stands in the other codec lemmas.
- Wire.SkipLocket: the input is not empty, as at all call sites; on an empty slice the source panics.
- Codecs of the other messages (ReleaseRequest, FetchRequest, FetchResponse, FetchAllRequest and the empty ones): the same generated code with fewer fields.
- The bit operators of the varint loops are written as sums and products; the bits combined never overlap, which is an invariant of the read loop.
- LockRunner.Runner.Run: results of calls are inputs; the deadline that the source sets on a retry call bounds the request delay in `Heartbeat.dfy` and has no other effect there.
- Heartbeat.HeartbeatHoldsLock: the release on a signal is one step with the exit.
- LockPick.LockPick.CheckExpiration: the method runs undisturbed; what others do between its queries is the subject of the step system.
- Exclusion.MutualExclusionDespiteFailures: the guard on grants is a condition on runs; the service does not enforce it (`Exclusion.UncleanGrantLoses`).
- ConsulClient.LossIsReturnedIffUnread: errors are read in the order of sending, and a send that has to wait for room in the channel counts as sent; that the waiting monitor holds the session's mutex is not modelled.
- Session.SessionOverRuns: one AcquireLock per session with a non-empty key, as the lock runner uses it; sends are counted, whether they block is not stated; SetPresence, the search for old sessions of the same name and the effects at Consul are not modelled.
- presence.go, registration_runner.go, jointlock, logging, metrics, String/GoString/Equal methods and fakes: no hard property.
