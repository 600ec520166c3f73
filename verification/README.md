# Vincula: verified model of the audit ledger pipeline and its neighbours

Vincula nodes account proxy traffic per connection; a controller collects the closed accounting rows of
many nodes. This project models that pipeline as a state machine and proves what it is for, together with
five self-contained mechanisms around it: the X25519 ladder, the restore transaction, the workspace
compare-and-swap protocol, the two-level fleet lock, and the VLESS share link.

`dafny verify dfyconfig.toml` checks everything.

## How it is organised

| file | what it holds |
|---|---|
| `Prelude`, `Ordering`, `Lexicographic`, `Congruence`, `UriText` | shared vocabulary: options and results, ORDER BY / LIMIT and keyset paging, column orders, congruences and bytes, URI splitting |
| `Accounting`, `AccountingInvariants`, `Metering`, `NodeRuns`, `PollEffects`, `AccountDaemon` | the node: tables and writes, the invariant, a reference meter, whole runs, what a poll does to one connection, and the daemon's code refining them |
| `AuditExport`, `ExportStream` | the node side of the cursor protocol |
| `Wire`, `ExportValidator`, `CacheTables`, `AuditImport`, `FleetSync`, `FleetQuery` | the controller: JSON coercions, the gate in front of imports, the cache and its derived index, import transactions, syncs, queries |
| `AuditArchive` | archives of the cache and their conflict-checked merge |
| `Pipeline` | both parties together: no silent loss over every interleaving |
| `Curve25519` | section 5 of RFC 7748 |
| `FleetLock` | threads and processes around one lock file |
| `StateDigest`, `WorkspaceHistory`, `WorkspaceImport` | the portable workspace |
| `RestoreTransaction`, `CredentialRotation` | restoring a node backup: the file transaction, and the credentials it rotates |
| `VlessUri`, `UriFormats` | printer and parser of the share link, and its patterns |
| `Counterexamples` | inputs at which promises that hold only under a condition fail |

Code that changes things step by step is modelled by classes and methods with loops (`AccountDaemon`,
`FleetCache`, `Machine`, `Workspace`, `Node`, the ladder, the validator, the archive merge); each is proved
against functions on table values, and the properties are proved about those functions and about the runs
they make up. SQL statements are modelled by their meaning, a transaction by saving and restoring the
tables, an exception by a parameter that names the statement which raises.

The central argument: the ledger of a node is the sequence of all rows ever closed, entry i carrying number
i + 1 (`NodeRuns`). Retention may remove a row only by raising the pruned maximum past its number; an export
from a positive cursor succeeds only at or above that maximum; so between `floor` (the pruned maximum at the
last successful export from cursor 0) and the cursor nothing can have been skipped (`Pipeline.NoSilentLoss`).

## Where the code and its documentation differ

- `sync_full_one_node` promises no cursor advance on error; when the node reports an instance that was not
  recorded yet and appending its history lines fails after the commit, the result is an error and the cursor
  has moved (`FleetSync.FullSyncErrorMovesCursorIff`); no later sync appends the lines, since the instance is
  recorded by then (`Pipeline.FlushIsNotRetried`).
- `apply_restore` promises that a failure restores the earlier state. A safety directory that still holds
  files of an earlier restore brings those back where the target had none; a reissue CSV that stood at the
  requested path is removed; and a write that raises after its rename leaves a new file behind. The exact
  condition is `RestoreTransaction.Clean`.
- VERSION is called the commit marker. Going forward it is; a rollback that starts after VERSION was written
  removes or replaces planned files before it removes VERSION (`RestoreTransaction.GuardKeptIff` has the exact
  condition, `UsersGoUnderVersion` an input).
- A controller's memory of a fleet is meant to detect rollbacks. The operation lock is per workspace
  directory while the memory is per controller and fleet, so two copies mutated at the same time can lower it
  (`WorkspaceHistory.TwoCopiesAtOnce`); the commit re-checks revision and write id but not the stored view or
  the digest (`MemoryIsMonotoneIff`, `EditDuringMutationIsSealed`).
- Export paging has no documented starting condition; it can run into CURSOR_EXPIRED on an unchanging
  database, since retention follows event ids and a surviving row may carry a number below the pruned maximum
  (`AuditExport.PagingWorksIffSafe`).
- `_commit_staged_workspace` promises to roll back on failure, but ignores errors of the rollback itself
  (`WorkspaceImport.Workspace.CommitStaged`).
- The link parser's patterns end in `$`, so one percent-encoded line feed after the UUID, key or short id is
  accepted, and white space around host and server name survives; such a link may not print and parse back
  (`VlessUri.ParseThenPrintIff`).
- A failed lock acquisition is meant to leave both levels free; an interrupt between publishing the handle and
  setting the depth leaves the file lock held until the process ends (`FleetLock.RestingProcess`).

An input at which each of these promises fails is in `Counterexamples`, or beside the condition.

## Model

| member | source | states |
|---|---|---|
| `AccountDaemons.AccountDaemon.AssignExportSeq` | `lib/vincula-accountd.py:1035-1061` | first close takes the next number, an open or already numbered row is left alone |
| `AccountDaemons.AccountDaemon.UpsertConnection` | `lib/vincula-accountd.py:914-1032` | the whole database after UPDATE-first / INSERT; a closed generation is never updated and the write is reported as not landed |
| `AccountDaemons.AccountDaemon.WriteOpen` | `lib/vincula-accountd.py:1269-1317` | row and baseline of an open generation are written together, moving to a fresh generation when the wanted one is closed |
| `AccountDaemons.AccountDaemon.CloseOpenGeneration` | `lib/vincula-accountd.py:1320-1339` | closing writes the row, numbers it and drops its baseline |
| `AccountDaemons.AccountDaemon.AccountReading` | `lib/vincula-accountd.py:1152-1250` | one valid reading: unknown id, counter drop, or growth |
| `AccountDaemons.AccountDaemon.ApplyPollDelta` | `lib/vincula-accountd.py:1152-1266` | both loops and the prune refine the specification of one poll for some visiting order of the vanished ids, which is a listing of exactly those ids |
| `AccountDaemons.AccountDaemon.PrunePollBaselines` | `lib/vincula-accountd.py:751-763` | a baseline stays exactly when its generation is open, with the same contents; no other table changes; afterwards no baseline is stale, and if none was, nothing changed |
| `AccountDaemons.AccountDaemon.CloseStale` | `lib/vincula-accountd.py:1064-1105` | the sweep closes exactly the open rows outside the live ids, all open rows when nothing is live, at the given time and with the bytes and tags they had, leaves every other row as it is, and returns their number |
| `AccountDaemons.AccountDaemon.DeleteExpiredBatch` | `lib/vincula-accountd.py:1435-1465` | one retention batch: the rows deleted, the pruned maximum, and the count reported |
| `AccountDaemons.AccountDaemon.CommitAccounting` | `lib/vincula-accountd.py:1342-1361` | both outcomes of COMMIT for tables, committed database and cache: the new cache only after success, a rollback and a reload after failure; either way the cache agrees with what is durable |
| `AccountDaemons.AccountDaemon.PollTick` | `lib/vincula-accountd.py:1940-1986` | a tick with a snapshot is one committed poll step of the node, or a failed one when COMMIT raises |
| `AccountDaemons.AccountDaemon.AbandonTick` | `lib/vincula-accountd.py:1925-1933` | an exception before COMMIT leaves no trace but a failed tick |
| `AccountDaemons.AccountDaemon.Tick` | `lib/vincula-accountd.py:1972-1986` | every tick, whatever fails in it, is a run of at most two steps of the node; which steps, by case |
| `AccountDaemons.SweepIdle` | `lib/vincula-accountd.py:1947-1949` | the stale sweep after apply_poll_delta has nothing to close on a reachable node |
| `AccountingInvariants.ApplyPollSound` | `lib/vincula-accountd.py:1152-1266` | a poll keeps the whole database invariant, never changes a closed row, gives every new number to a row, and its result does not depend on the cache |
| `AccountingInvariants.ReloadAgrees` | `lib/vincula-accountd.py:787-845` | reload_known_open_from_db gives a cache that agrees with the database on keys, generations and counters |
| `AccountingInvariants.VanishedNeedsNoCache` | `lib/vincula-accountd.py:1252-1263` | the set of vanished ids is the same for every cache that agrees with the database |
| `AccountingInvariants.SweepFindsNothing` | `lib/vincula-accountd.py:1064-1105` | after a poll no open row lies outside the snapshot, the empty snapshot included |
| `AccountingInvariants.SanityQueriesCountZero` | `lib/vincula-accountd.py:1668-1698` | the three baseline queries of the plane check return nothing on a sound database, and an open generation is the only and highest one of its connection |
| `AccountingInvariants.BatchIsOldest` | `lib/vincula-accountd.py:1443-1451` | a batch takes the smallest expired event ids, not the smallest sequence numbers |
| `AccountingInvariants.DeleteBatchSound` | `lib/vincula-accountd.py:1435-1465` | a batch keeps the invariant, deletes only closed rows, and the pruned maximum covers every deleted number |
| `AccountingInvariants.BatchInColumns` | `lib/vincula-accountd.py:1446-1465` | deleted are at most the limit of closed rows last seen before the cutoff; every other row stays as it is; the pruned maximum becomes the greatest of itself and the deleted numbers |
| `AccountingInvariants.BatchTakesOldest` | `lib/vincula-accountd.py:1446-1451` | an expired closed row stays only when the batch is full, and then of older event ids only |
| `AccountingInvariants.BatchesDrain` | `lib/vincula-accountd.py:1490-1517` | enough batches of any size remove every expired closed row |
| `PollEffects.ReportedConnection` | `lib/vincula-accountd.py:1152-1250` | whatever else the snapshot holds, the last usable report of a connection decides its rows, column by column: a first report or a counter drop opens the next generation with nothing accounted, a drop closing the old one with its bytes; otherwise the open row grows by exactly what the reported counters grew, user columns are overwritten and destination columns only by known values; an unusable report changes nothing |
| `PollEffects.UnreportedConnection` | `lib/vincula-accountd.py:1252-1266` | a tracked connection missing from the snapshot is closed at the time of the poll with the bytes and tags it had, under a new number; any other unreported connection is untouched |
| `PollEffects.GrowthIsReported` | `lib/vincula-accountd.py:1166-1250` | reported as a and later as b, with failed ticks, restarts and retention batches in between: the open row grew by exactly b - a |
| `Metering.CountersAreReported` | `lib/vincula-accountd.py:681-694` | a missing counter reads as 0, an int64 number as itself, anything else as no reading |
| `Metering.PollAgrees` | `lib/vincula-accountd.py:1152-1266` | a poll bills in the database exactly what a reference meter without tables bills from the numbers reported in the same snapshot |
| `Metering.DeleteBatchAgrees` | `lib/vincula-accountd.py:1435-1465` | retention changes no bill |
| `NodeRuns.StepOk` | `lib/vincula-accountd.py:1917-1986` | every node step (poll, failed tick, restart, retention batch) keeps database, cache, ledger and meter in agreement, and only extends the ledger |
| `NodeRuns.LedgerOverRuns` | `lib/vincula-accountd.py:334-339` | over every run: numbers sit exactly on closed rows, once, within 1..audit_export_seq; every number no row carries is at most the pruned maximum, itself at most the allocated one |
| `NodeRuns.ClosedRowsNeverChange` | `lib/vincula-accountd.py:957-1061` | from any point of any run: a closed row stays as it is until its number is pruned |
| `NodeRuns.BytesOverRuns` | `lib/vincula-accountd.py:1166-1250` | over every run and for every generation ever closed, pruned or not, and every open one: bytes equal last minus first reported counter of one stretch of readings of that connection, entry i of the ledger that of stretch i, always within signed 64 bits |
| `NodeRuns.TotalBytesOverRuns` | `lib/vincula-accountd.py:1166-1250` | over every run: all bytes ever accounted, closed and open, add up to what all stretches of readings gained |
| `NodeRuns.PlaneChecksPass` | `lib/vincula-accountd.py:1668-1698` | over every run: at most one open generation per connection, the maximal one, and all three sanity queries count zero |
| `NodeRuns.FaultsLeaveNoTrace` | `lib/vincula-accountd.py:1342-1361` | crash independence: dropping every failed tick and restart from a run gives the same database, ledger and bills, and both caches agree with a reload |
| `AuditExport.FineMeansNotPruned` | `lib/vincula-audit.py:315-348` | an export succeeds exactly from cursor 0 or from a cursor between the pruned and the allocated maximum |
| `AuditExport.ExportOutcome` | `lib/vincula-audit.py:286-348` | every outcome of an export under its own condition: refused arguments, CURSOR_EXPIRED, CURSOR_AHEAD, or rows up to the limit |
| `AuditExport.ExportIsExact` | `lib/vincula-audit.py:312-367` | an export holds exactly the closed rows above the cursor, as stored, strictly increasing, and next_cursor is the last of them |
| `AuditExport.PagesAreWhole` | `lib/vincula-audit.py:286-367` | from a safe start pages of any size end and equal the unlimited export |
| `AuditExport.UnsafeStartBreaks` | `lib/vincula-audit.py:315-326` | from any other start a page size of one runs into CURSOR_EXPIRED or CURSOR_AHEAD |
| `AuditExport.PagingWorksIffSafe` | `lib/vincula-audit.py:286-367` | paging works for every page size if and only if the start is at or above the pruned maximum, or is 0 with no surviving number below it |
| `ExportStream.StampExportRows` | `lib/vincula-audit.py:513-550` | the in-place loop succeeds exactly when no row carries another identity, and then every row is the stamped row |
| `ExportStream.StampInColumns` | `lib/vincula-audit.py:513-550` | stamping fills in a blank identity, keeps one that agrees, refuses one that says something else, and changes no other column |
| `ExportStream.AnswerTells` | `lib/vincula-audit.py:557-607` | exit code 1 means refused arguments or a stamp mismatch, 3 an expired or too large cursor, 0 success; the meta says which, and rows come out on success only |
| `ExportStream.AnswerDelivers` | `lib/vincula-audit.py:557-607` | exit code 0 means a successful export, its meta, and every row delivered in order, stamped or as stored |
| `ExportValidator.HeaderProblem` | `lib/vincula-fleet.py:1625-1687` | the header checks pass exactly when the header fits what was asked for |
| `ExportValidator.RowProblem` | `lib/vincula-fleet.py:1689-1722` | the row loop with its list and set of seen numbers passes exactly when every row fits its place |
| `ExportValidator.ValidateExportBatch` | `lib/vincula-fleet.py:1625-1740` | a batch is accepted if and only if it is acceptable; the result is the declared next cursor |
| `ExportValidator.AcceptedIsIncreasing` | `lib/vincula-fleet.py:1689-1740` | any accepted batch, whoever sent it, is strictly increasing and lies in (after, next_cursor] |
| `ExportValidator.HonestExportAccepted` | `lib/vincula-fleet.py:1625-1740` | every successful export of a database satisfying the invariant, with rows labelled or stampable, is accepted with the same next cursor |
| `CacheTables.RebuildIndexes` | `lib/vincula-fleet.py:1345-1387` | after the rebuild a node's daily rows are exactly the groups of its events with their sums, counts and greatest instance id and user tag |
| `CacheTables.DayInColumns` | `lib/vincula-fleet.py:1355-1387` | an indexed daily row is, column by column, the sum of the bytes of its events, their number, and the greatest instance id and user tag, NULL only when all are |
| `CacheTables.GroupInColumns` | `lib/vincula-fleet.py:1355-1387` | the events of a daily row are those of the node and user whose start begins with the date and whose host, else address, else "(unknown)" is the destination |
| `CacheTables.RebuildKeepsIndex` | `lib/vincula-fleet.py:1345-1387` | changing one node's events and rebuilding that node keeps daily_usage the group-by of audit_events for all nodes |
| `CacheTables.NodeTotalsAgree` | `lib/vincula-fleet.py:1345-1387` | bytes, connections and the two MAX columns of a node aggregate to the same values in both tables |
| `AuditImport.UpsertStores` | `lib/vincula-fleet.py:172-196` | the last row with an event id decides what is stored under it |
| `AuditImport.RequiredColumns` | `lib/vincula-fleet.py:1293-1342` | a row that lacks event id, sequence number, connection, user or either time is refused |
| `AuditImport.AcceptedColumns` | `lib/vincula-fleet.py:1293-1342` | a row with integers, or nothing where that is allowed, and non-blank text in the required columns is accepted |
| `AuditImport.RowInColumns` | `lib/vincula-fleet.py:1293-1342` | what is stored of an accepted row, column by column; missing counters and generation become 0 and a missing port stays missing |
| `AuditImport.ImportedCursor` | `lib/vincula-fleet.py:1511-1542` | after an import the cursor carries the declared number, or the greatest cached one where none is declared, and the greatest cached event id |
| `AuditImport.InsertedIsGrowth` | `lib/vincula-fleet.py:1543-1550` | the reported `inserted` is the growth of the table when no event id repeats |
| `AuditImport.ImportKeepsIndex` | `lib/vincula-fleet.py:1492-1542` | an import keeps the daily index in agreement and touches no other node's events, daily rows or cursor |
| `AuditImport.ReseedKeepsIndex` | `lib/vincula-fleet.py:1833-1865` | a reseed leaves the node without events or daily rows and with cursor 0, everything else untouched and indexed |
| `FleetSync.FleetCache.ImportAuditBatch` | `lib/vincula-fleet.py:1420-1563` | succeeds exactly for an importable batch and no failing statement; the whole new state; a failure the import owns changes nothing; counts add up |
| `FleetSync.FleetCache.MarkCursorStatus` | `lib/vincula-fleet.py:1802-1830` | only status, time, instance and kind of one cursor may change; the sequence number is returned as it was |
| `FleetSync.MarkMovesNothing` | `lib/vincula-fleet.py:1802-1830` | marking a status moves no sequence number, last event id, event or daily row of any node |
| `FleetSync.FleetCache.ReseedNodeLocal` | `lib/vincula-fleet.py:1833-1865` | all of the reseed or none of it |
| `FleetSync.FleetCache.SyncOneNode` | `lib/vincula-fleet.py:5509-5723` | OK exactly when every check passes and the import commits; a landed sync stores status OK, time, instance, the declared number and the greatest event id, and reports the growth of the table when no event repeats; on every other exit no event, daily row, sequence number or last event id moved, and every failure after the identity call stores CURSOR_EXPIRED or ERROR, the time and the reported instance (or keeps the former one) in this node's cursor row and no other; the instance history holds the reported instance from the moment it is recorded, whatever follows; an exception ends it exactly when recording or a statement of an otherwise good import raises; CURSOR_EXPIRED exactly when the node said so |
| `FleetSync.FleetCache.SyncFullOneNode` | `lib/vincula-fleet.py:5736-5971` | events, cursor, node snapshot, user snapshot and recorded instances are the new ones exactly when the transaction commits, otherwise all untouched; the stored cursor row and the reported counts; CURSOR_EXPIRED exactly when the node said so; OK exactly when it commits and the instance was known, is no UUID or is missing, or the history lines could be appended |
| `FleetSync.FleetCache.RecordInstance` | `lib/vincula-fleet.py:1082-1210` | a UUID the node never reported becomes a recorded instance; raises exactly on a node id as instance id, a new instance of a node id that is no UUID, or a failing write; nothing else is recorded |
| `FleetSync.ExpiredIsUnderstood` | `lib/vincula-fleet.py:5631-5643` | the controller reads CURSOR_EXPIRED out of an export exactly when the node found the cursor expired |
| `FleetSync.SnapshotReplaces` | `lib/vincula-fleet.py:5882-5905` | after a snapshot the node's user rows are the listed ones with their columns, and no other node's row changed |
| `FleetSync.SnapshotIsTheList` | `lib/vincula-fleet.py:5882-5905` | a user snapshot is taken exactly when no user is listed twice; it holds exactly the listed users, blank ids skipped, and other nodes' users stay |
| `FleetSync.LandedCursor` | `lib/vincula-fleet.py:5659-5723` | whoever answered, a landed sync moves the cursor to the last accepted row, never backwards |
| `FleetSync.FullSyncErrorMovesCursorIff` | `lib/vincula-fleet.py:5932-5958` | a full sync that reports an error has moved the cursor if and only if the transaction committed rows, the node reported a UUID instance that was not recorded yet, and appending its history lines failed |
| `Pipeline.FlushIsNotRetried` | `lib/vincula-fleet.py:1148-1160` | after a committed full sync its instance is never new again, over every further run of both parties, so history lines whose append failed are not appended by a later sync |
| `Pipeline.LandingKeepsAll` | `lib/vincula-fleet.py:1420-1563` | a landed sync of the tracked node keeps every row the cursor passed and imports every row it passes now |
| `Pipeline.CatchesUp` | `lib/vincula-audit.py:311-367` | after a landed sync every row closed when the export was read, above the pruned maximum of then and the floor, is in the cache |
| `Pipeline.HonestRowImportable` | `lib/vincula-fleet.py:1293-1342` | of the node's own rows the importer refuses exactly those with a blank connection or user id |
| `Pipeline.MoveKeeps` | `lib/vincula-fleet.py:5509-5971` | every move of either party (polls, failed ticks, restarts, retention, syncs and full syncs of any node, failed syncs, reseeds, archive restores) keeps the no-loss invariant |
| `Pipeline.NoSilentLoss` | `lib/vincula-audit.py:311-367` | over every interleaving from empty databases, the node going on between an export and its import: the cache holds every generation ever closed with floor < export_seq <= cursor, equal to the row as it was closed up to trimming and a stamped instance id; the daily index agrees; the cursor never exceeds the allocated maximum |
| `Pipeline.OnlyExpiryRefuses` | `lib/vincula-audit.py:315-341` | on one uninterrupted database CURSOR_AHEAD never occurs and CURSOR_EXPIRED means exactly that retention passed a positive cursor |
| `FleetQuery.SameOrder` | `lib/vincula-fleet.py:6478-6491` | the three-branch cursor condition is the order of ORDER BY started_at, event_id, node_id |
| `FleetQuery.OverlapIsSharedInstant` | `lib/vincula-audit.py:79-86` | an event is in the window exactly when some instant lies both in [from, to) and between its start and its end (its close, or its last sighting while open) |
| `FleetQuery.QueryIsExact` | `lib/vincula-fleet.py:6424-6511` | the unlimited answer is exactly the matching events, each once, strictly sorted by the three keys |
| `FleetQuery.PagesAreWhole` | `lib/vincula-fleet.py:6474-6503` | pages of any size from any cursor, chained by the last row, equal the unlimited answer: nothing repeated, nothing skipped |
| `AuditArchive.CreateArchive` | `lib/vincula-audit-archive.py:227-295` | succeeds exactly for a new file and events without a repeated key; the archive holds those rows |
| `AuditArchive.RestoreArchiveIntoCache` | `lib/vincula-audit-archive.py:364-448` | refuses an unreadable archive or another fleet; without a failing statement it succeeds exactly when all shared keys carry equal payloads; otherwise the cache is unchanged; inserted + deduped is the archive size and inserted is the growth |
| `AuditArchive.ConsistentStep` | `lib/vincula-audit-archive.py:408-421` | comparing each row with what was merged so far is comparing it with the original cache and with every earlier archive row |
| `AuditArchive.RestoreKeepsIndex` | `lib/vincula-audit-archive.py:405-441` | a restore keeps the daily index in agreement, keeps every cached row, and moves no cursor |
| `AuditArchive.RestoreTwice` | `lib/vincula-audit-archive.py:364-448` | restoring the same archive again changes nothing |
| `AuditArchive.OrderDoesNotDecide` | `lib/vincula-audit-archive.py:405-421` | two archives that restore in one order restore in the other |
| `AuditArchive.OrderDoesNotMatter` | `lib/vincula-audit-archive.py:405-421` | ... with the same events |
| `AuditArchive.CreateThenRestore` | `lib/vincula-fleet.py:6532-6585` | an archive of a window restored into an empty cache gives exactly the events of that window |
| `AuditArchive.RestoreIntoItself` | `lib/vincula-audit-archive.py:105-110` | an archive restored into the cache it was taken from inserts nothing |
| `Curve25519.LadderStep` | `lib/legacy_seed.py:106-119` | the loop body is the Montgomery doubling of one point and the differential addition of both, all values in [0, P) |
| `Curve25519.AddCommutes` | `lib/legacy_seed.py:102-104` | differential addition does not notice that the pair was swapped |
| `Curve25519.RunLadder` | `lib/legacy_seed.py:95-122` | the deferred-swap loop computes the lower rung of the textbook ladder for every scalar, reduced |
| `Curve25519.LadderStandsFor` | `lib/legacy_seed.py:100-122` | after bits 254 down to t the rungs stand for m and m + 1 with m = n >> t, for every relation that doubling and differential addition respect |
| `Curve25519.KeyStandsFor` | `lib/legacy_seed.py:86-122` | for every private key the ladder ends at the clamped scalar times the base point |
| `Curve25519.ClampedScalar` | `lib/legacy_seed.py:90-93` | clamping sets bit 254, clears bit 255 and the three low bits, and changes nothing else |
| `Curve25519.ClampedRange` | `lib/legacy_seed.py:90-93` | the scalar lies in [2^254, 2^255) and is a multiple of 8 |
| `Curve25519.ScalarMultBase` | `lib/legacy_seed.py:86-124` | refused exactly for keys that are not 32 bytes; the result always fits 32 little-endian bytes and reads back as the quotient x / z of the ladder's end: the one residue that times z is x wherever z to the P - 1 is 1, and 0 where z is 0 |
| `Curve25519.AffineXDivides` | `lib/legacy_seed.py:123-124` | x times the power is the quotient x / z, without assuming that P is prime |
| `Curve25519.PowModIsExp` | `lib/legacy_seed.py:123` | modular exponentiation is the remainder of the unreduced power |
| `Congruence.BytesRoundTrip` | `lib/legacy_seed.py:124` | little-endian bytes of a fitting number read back as that number |
| `FleetLock.NextOk` | `lib/vincula-fleet.py:705-780` | every statement of acquire and release, every refusal, raise, timeout and process end keeps the two-level lock invariant |
| `FleetLock.MutualExclusion` | `lib/vincula-fleet.py:705-780` | over every interleaving at most one thread of all processes is inside the lock |
| `FleetLock.FirstAcquire` | `lib/vincula-fleet.py:705-746` | with nobody in the way an acquire goes through: the thread lock once, the file lock, the published handle, nothing else |
| `FleetLock.AcquireThenRelease` | `lib/vincula-fleet.py:705-780` | the release takes back exactly what the acquire did |
| `FleetLock.NestedAcquireAndRelease` | `lib/vincula-fleet.py:705-780` | a thread that is inside acquires at once without touching the file lock, and its release takes that back |
| `FleetLock.OpenFailure` | `lib/vincula-fleet.py:720-746` | an acquire that cannot open the lock file leaves both levels as they were |
| `FleetLock.FlockFailure` | `lib/vincula-fleet.py:720-746` | an acquire that does not get the flock leaves both levels as they were |
| `FleetLock.RestingProcess` | `lib/vincula-fleet.py:687-780` | with no call in progress a thread's depth is its RLock count; the handle is set exactly while some thread is inside or an acquire was interrupted in its window; with nobody inside the thread lock is free, and the file lock is if and only if there was no such interrupt since the process started |
| `FleetLock.InterruptLeaves` | `lib/vincula-fleet.py:737-746` | one such run: an interrupted acquire fails and leaves the file lock held with nobody inside |
| `FleetLock.ReleaseNeverRaises` | `lib/vincula-fleet.py:739-780` | the thread lock is only released by its owner, so the swallowed RuntimeError never happens |
| `StateDigest.FeedDigest` | `lib/workspace.py:652-684` | the loop over the portable names feeds exactly the concatenation of the present files |
| `StateDigest.PreimageIsInjective` | `lib/workspace.py:652-684` | NUL-free files, any subset of the four present, with the same hash input are the same files |
| `StateDigest.NulMakesItAmbiguous` | `lib/workspace.py:682-683` | with a NUL inside a file two different states have the same hash input |
| `WorkspaceHistory.HashInputIsTheState` | `lib/workspace.py:646-684` | equal hash inputs mean equal states, for any rendering of the manifest that is NUL-free and loses nothing |
| `WorkspaceHistory.RememberKeepsIff` | `lib/workspace.py:794-803` | one more remembered view keeps the memory monotone exactly when it is newer than, or the same as, the last |
| `WorkspaceHistory.MemoryIsMonotoneIff` | `lib/workspace.py:863-936` | over every run with fresh write ids, any number of controllers, open mutations and copied, rolled back, forked or edited workspaces: remembered revisions never decrease and never carry two write ids at one revision, if and only if no commit and no genesis found the stored view of its fleet past what it replaces |
| `WorkspaceHistory.BeginIsAdmitted` | `lib/workspace.py:863-883` | the conflict check lets a mutation begin only on a manifest that is not older than, nor a rival of, the stored view, in any world |
| `WorkspaceHistory.OrderlyIsNeverBehind` | `lib/workspace.py:886-936` | a controller that runs one mutation at a time on workspaces whose fleet id nobody swaps meanwhile meets that condition |
| `WorkspaceHistory.FinishKeepsMemoryIff` | `lib/workspace.py:918-935` | in any world a commit keeps its controller's memory monotone if and only if the stored view is not past the revision it replaces |
| `WorkspaceHistory.TwoCopiesAtOnce` | `lib/workspace.py:886-936` | two copies mutated by one controller, one inside the other, make its memory go back |
| `WorkspaceHistory.FinishReplaces` | `lib/workspace.py:918-935` | a commit is revision + 1, names exactly the revision and write id it replaced, keeps every other file and is sealed; a failed compare changes no workspace |
| `WorkspaceHistory.GenesisInColumns` | `lib/workspace.py:694-719` | a genesis is revision 1 without a parent, sealed and remembered; where there is a workspace already nothing happens |
| `WorkspaceHistory.OutsideEditIsNoticed` | `lib/workspace.py:863-883` | an edit outside a mutation that leaves the stored digest in place makes every later mutation of that workspace refuse, whoever tries |
| `WorkspaceHistory.EditDuringMutationIsSealed` | `lib/workspace.py:914-935` | an edit during a mutation that leaves revision and write id alone is sealed into the commit |
| `WorkspaceHistory.Machine.WorkspaceMutation` | `lib/workspace.py:886-936` | no workspace, INCONSISTENT, ROLLBACK and DIVERGED each exactly under its own condition, in the source's order, so any other manifest is admitted; the compare fails exactly when revision or write id changed meanwhile; a commit is the next revision, names its parent, and is what the controller then remembers; all of it the protocol's begin, write and finish (or abandon), and the counter comes back |
| `WorkspaceImport.Workspace.CommitStaged` | `lib/workspace.py:1770-1836` | all staged members go in, file by file, or a raising write leaves the workspace unchanged exactly when every member was returned |
| `WorkspaceImport.ReturnedInFields` | `lib/workspace.py:1805-1836` | which of the four files a failed import returns: all but those whose undo failed and the one whose own write raised after its rename |
| `WorkspaceImport.AtomicImport` | `lib/workspace.py:1770-1836` | with writes that happen or do not and an undo that works, a failed import changes nothing |
| `RestoreTransaction.Node.SafetyCopyExisting` | `lib/vincula-backup.py:1545-1573` | the safety tree holds every covered file that exists, over what the directory held before |
| `RestoreTransaction.Node.CommitVersion` | `lib/vincula-backup.py:1504-1518` | VERSION first, then the marker goes; every state in between |
| `RestoreTransaction.Node.RollbackRestore` | `lib/vincula-backup.py:1576-1668` | the step-by-step rollback leaves in each slot what its specification says; the states it shows are exactly those of its ten steps, and all of them keep "VERSION implies all files" if and only if the stated condition holds |
| `RestoreTransaction.Node.ApplyRestore` | `lib/vincula-backup.py:1699-1918` | refuses an installed target; raises exactly when the fault is on the way; succeeds with every planned file at its own path, VERSION instead of .runtime-only unless deferred, and everything else as it was; files appear in the planned order; after a raise the target is as before if and only if every slot is clean; VERSION implies all planned files in every state up to the rollback, and during it if and only if the stated condition holds |
| `RestoreTransaction.RollbackRestoresIffClean` | `lib/vincula-backup.py:1576-1668` | rollback is all or nothing exactly when the safety directory held no file of an earlier use, no CSV stood at the planned path, and no raising write had put a new file in place |
| `RestoreTransaction.FreshSafetyIsClean` | `lib/vincula-backup.py:1792-1804` | a fresh safety directory, no CSV in the way and atomic writes make every failure clean |
| `RestoreTransaction.RollbackTwice` | `lib/vincula-backup.py:1576-1668` | rolling back twice is rolling back once |
| `RestoreTransaction.RestoredIsThePlan` | `lib/vincula-backup.py:1845-1908` | a restore that did not raise leaves exactly the plan: every planned file, VERSION unless deferred, no marker, nothing else |
| `RestoreTransaction.RestoredCarriesOut` | `lib/vincula-backup.py:1841-1908` | the same path by path: each file holds its own planned content |
| `RestoreTransaction.GuardedInFields` | `lib/vincula-backup.py:1841-1908` | what a present VERSION promises, path by path |
| `RestoreTransaction.GuardKeptIff` | `lib/vincula-backup.py:1607-1658` | all states of a rollback keep the promise if and only if every planned file put back while VERSION stands is put back to its planned content; a VERSION of an earlier use in the safety directory comes back for good and then every planned file must stay in place |
| `RestoreTransaction.GuardKeptBeforehand` | `lib/vincula-backup.py:1607-1620` | the same condition in terms of what target and safety directory held before the restore |
| `RestoreTransaction.UsersGoUnderVersion` | `lib/vincula-backup.py:1607-1620` | one failing input: state.json was already the planned one, users.json was not; the second write of the rollback breaks the promise |
| `CredentialRotation.RotateUser` | `lib/vincula-backup.py:1208-1250` | safe mode keeps every credential of a user without uuid, revokes the active ones, appends one fresh credential for each of them, in order, and writes one link for each |
| `CredentialRotation.RotateCredentials` | `lib/vincula-backup.py:1202-1276` | all users at once, draws numbered without gap or overlap; refused exactly when a uuid of the backup would be staged again |
| `CredentialRotation.RotationReplaces` | `lib/vincula-backup.py:1208-1276` | afterwards the active credentials are exactly the fresh ones, as many as before, and no credential from the backup has a uuid |
| `CredentialRotation.RotationInColumns` | `lib/vincula-backup.py:1208-1250` | column by column: a backup credential loses its uuid and, if active, is revoked now; its replacement belongs to the target, is active since now, and carries the given ids or else the drawn ones |
| `CredentialRotation.LinksAreLive` | `lib/vincula-backup.py:1219-1246` | every link of the reissue list names the credential it replaces and parses back to the uuid of the live credential that replaced it and to the target's settings |
| `UriText.JoinParses` | `lib/legacy_seed.py:261-272` | a written query string parses to what each of its pairs reads as |
| `UriFormats.PrintedText` | `lib/vincula-backup.py:1009-1030` | the printed link, written out |
| `VlessUri.ParseQueryNoDup` | `lib/legacy_seed.py:261-272` | refuses exactly a repeated critical key; otherwise the first value of each lower-cased key |
| `VlessUri.AuthorityReads` | `lib/vincula-backup.py:1009-1030` | user, host (IPv6 in brackets or not) and port read back from the printed authority |
| `VlessUri.RoundTrip` | `lib/vincula-backup.py:1015-1030` | parsing a printed link gives the same fields back, up to the case of UUID, host and short id, for every server and server name the parser accepts that carries no line break or tab |
| `VlessUri.AcceptedFields` | `lib/legacy_seed.py:275-356` | what every accepted link says about its fields |
| `UriFormats.DnsPattern` | `lib/legacy_seed.py:36-39` | the host pattern is two or more labels of 1 to 63 letters, digits and hyphens, no hyphen at either end, 253 characters in all |
| `UriFormats.KeyPattern` | `lib/legacy_seed.py:32` | a key is 43 or 44 URL-safe base64 characters and up to two equals signs |
| `UriFormats.UuidPattern` | `lib/legacy_seed.py:25-28` | a UUID is 8, 4, 4, 4 and 12 hexadecimal digits of either case between hyphens |
| `UriFormats.QueryAccepted` | `lib/legacy_seed.py:317-356` | a query is accepted exactly for the one profile: no encryption, Vision flow, Reality over TCP, a DNS name, a key, an optional short id, a fingerprint that stands for chrome; and what each field then is |
| `Wire.StripTakes` | `lib/vincula-fleet.py:1268-1272` | stripping removes white space from both ends and nothing else |
| `Wire.IntRoundTrip` | `lib/vincula-fleet.py:1275-1290` | a printed integer reads back, negative ones included |
| `VlessUri.ParseThenPrintIff` | `lib/legacy_seed.py:275-356` | every accepted link prints and parses back to its own fields, the fingerprint becoming chrome, if and only if no line feed, carriage return or tab came in through percent-decoding |
| `VlessUri.EscapedLineFeed` | `lib/legacy_seed.py:275-356` | one accepted link that does not come back: a key followed by an escaped line feed |
| `Counterexamples.RetentionLeavesAHole` | `lib/vincula-audit.py:315-326` | a run from the empty node after which paging from the start fails: a connection closes, the clock steps back, a second one closes, and one retention batch of the daemon's size removes only the second |
| `Counterexamples.FullSyncErrorMovesCursor` | `lib/vincula-fleet.py:5937-5958` | a full sync of a node with a new instance id that imports one row, fails to append the history lines, reports an error and has moved the cursor |
| `Counterexamples.StaleSafetyDirectory` | `lib/vincula-backup.py:1545-1573` | a restore that fails at its first write and leaves a file of the safety directory's earlier use behind |
| `Counterexamples.TornImport` | `lib/workspace.py:1795-1826` | a workspace import whose first write raises after its rename and leaves the file |

## Left out

Assumptions of the model:

- One export is one snapshot. The code reads two meta values and the rows in separate SELECTs
  (`lib/vincula-audit.py:312-353`).
- One lineage: the node database is never replaced by an older copy. The cursor protocol notices a replacement
  only while the cursor exceeds the allocated maximum.
- The tracked node answers from its database, as it is or was earlier in the run, when its export exits 0;
  failures, other nodes and everything about identities, labels and faults are arbitrary. The operation lock
  keeps other syncs and reseeds out between an export and its import.
- Times are integers on the node and opaque non-blank text on the wire; clocks, random ids and visiting
  orders of sets are inputs.
- SHA-256 is collision-free; modular exponentiation is a function; the primality of 2^255 - 19 and the
  elliptic-curve group law are not used.
- A raised failure runs its except clause to the end: asynchronous interrupts between two statements, process
  kills and the recovery from the restore journal are not modelled. In the lock, one interrupt and the end of a process are.

Not modelled:

- FleetLock.NextOk: of the interrupts that are not raised by a statement itself only the one between setting the
  lock handle and setting the depth is a step; one between taking the thread lock and entering the try block, or
  inside a release, is not.
- AuditArchive.RestoreArchiveIntoCache: the rebuild callback is always given, as the only caller does; without
  it the daily index is not maintained.
- AuditArchive.CreateArchive: the attribution tables of an archive are not modelled.
- FleetQuery.QueryIsExact: the optional destination, address, port and network filters are one arbitrary
  predicate on the remote columns.
- FleetSync.FleetCache.SyncFullOneNode: the columns of the snapshot tables besides their keys are one text; of
  the instance history only its keys are modelled, not times, endpoints and the retirement of the row that was
  active before, and the text of the history file is not modelled.
- Curve25519.ScalarMultBase: that pow(z, P - 2, P) is the inverse needs primality, so the affine x is stated
  with the power itself.
- VlessUri.RoundTrip: which texts are IPv4 and IPv6 addresses is a parameter; IPv6 zones are excluded; percent
  escapes above 7F are read byte by byte; case folding and white space are ASCII; the additional check of
  bracketed hosts in newer standard libraries is not modelled.
- ExportValidator.ValidateExportBatch: JSON floats, lists and objects are opaque values with given text,
  truthiness and integer value; integer text with underscores and Unicode digits is not modelled.
- `cas_mutate_workspace` has no caller and is not modelled.
- Schema migrations, rows without a baseline, the daily rollup on the node and daily-usage retention.
- CredentialRotation.RotateCredentials: the rest of `build_restore_plan` (identity, TOML edits, the choice of the
  owner link, secrets mode) is not modelled; the staged files are an input of the restore transaction.
- Service states and their rollback, journal and marker files of a restore.
- SSH, file modes, encryption, the web UI, argument parsing, rendering of tables, telemetry and provisioning:
  plumbing around the modelled code.
