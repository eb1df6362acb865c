# Verified models of an Apple device management server

This project models the parts of a Go device management library whose correctness rests on state, interleaving or
arithmetic, and proves what they promise. Each operation is a value-level transition; where the code updates state in
place or loops, a class or method follows the code and is proved equal to that transition. The theorems are about every
run: any number of workers, crashes at any point, and any order of calls.

| component | modules |
|---|---|
| Assignment workflows: leases, one POST per workflow, evidence chunks | `Assignment`, `AssignmentRuns`, `AssignmentSafety`, `AssignmentBacking`, `AssignmentAccounts`, `AssignmentOverlap`, `AssignmentStore`, `AssignmentLogs`, `AssignmentReads`, `AssignmentTornRead` |
| Identity replacement handshake | `Replacement`, `ReplacementRuns`, `ReplacementExactly` |
| Request limiter | `RateLimit`, `RateLimiter`, `RateLimitTokens`, `RateLimitRuns` |
| Package catalogue, uploads and deletions over two stores | `Catalogue`, `CatalogueForest`, `CatalogueRuns`, `CatalogueContent`, `CatalogueSafety`, `CatalogueManager` |
| Source evidence, correlation and serial links | `Correlation`, `Evidence`, `EvidenceRuns`, `EvidenceStore` |
| Leased job queue and its migration | `Jobs`, `JobRuns`, `JobSafety`, `JobQueue` |
| Import cycles (Tarjan) | `Graph`, `Cycles` |
| Schema history merge | `SchemaHistory`, `SchemaMerging`, `SchemaPaths`, `SchemaTree`, `SchemaAgain`, `SchemaReleases`, `SchemaFold` |
| Schema support tables and shared structs | `SupportTables`, `SupportTypes`, `SupportSignatures`, `SupportUses` |
| Schedules | `Calendar`, `Schedules`, `ScheduleDays`, `ScheduleMonths`, `ScheduleZones`, `Cron`, `ScheduleNext` |
| Shared by several | `Basics`, `Names` |

What the source takes from outside is a parameter or an unconstrained step: clocks, generated identifiers (only assumed
new), network answers, blob store behaviour, hashes (modelled as their input, hence injective) and JSON encodings.
Transactions are atomic: a callback that fails leaves no trace, and one that reports success has been applied.

## Model

| member | source | states |
|---|---|---|
| `AssignmentSafety.AtMostOnePost` | server/axmassignment/worker.go:18-202 | In every interleaving of any number of replicas, with lease expiries, crashes and clocks that say anything, a workflow sends at most one assignment POST. |
| `AssignmentSafety.RunKeeps` | server/axmassignment/worker.go:18-115 | The invariant behind it: a POST is backed by a stored submission marker of exactly one owner, kept by every claim, commit, request, local step and crash. |
| `AssignmentOverlap.LaterPostWaits` | server/axmassignment/store.go:197-226 | If two POSTs name the same account and serial, the earlier workflow was stored as complete when the later one was sent, in every run and whatever the clocks of the replicas say. |
| `AssignmentOverlap.RunOrdered` | server/axmassignment/worker.go:27-50 | Every run, with any clocks, keeps overlapping workflows of an account in turn, also through fenced and uncertain ones, and nobody commits over a fence. |
| `AssignmentAccounts.ReplacedForGood` | server/axmassignment/worker.go:64-85 | In every run, once the account, key or binding of a workflow is not the one it was requested under, it never is again: no later commit is accepted for it, whatever is saved, verified, deleted, created again or configured. |
| `AssignmentAccounts.RunKnown` | server/axmassignment/store.go:96-139 | Every run keeps each binding told apart by its generation, and its account the same or moved on to a later revision or another creation. |
| `AssignmentBacking.CompleteIsEarned` | server/axmassignment/worker.go:253-290 | A stored workflow is complete only after its POST, with a terminal status, a complete log, and every target reported successful observed at the service asked for. |
| `AssignmentStore.LogRoundTrip` | server/axmassignment/store.go:241-266 | A log of any length reads back exactly, whatever chunks an earlier, longer log left behind. |
| `AssignmentStore.EvidenceIsLastLog` | server/axmassignment/store.go:241-266 | In every run a read that no commit interrupts gives the log of the workflow's last log commit, or not found if there was none. |
| `AssignmentLogs.CompleteLogIsFinal` | server/axmassignment/worker.go:64-101 | Once the stored workflow says its log is complete, its chunk count and chunks are the same in every later state, whatever workers, clocks and leases do. |
| `AssignmentReads.OneLogExactly` | server/axmassignment/store.go:241-266 | Of a read whose gets are separate steps of the run: all its chunks come from the log whose count it got exactly when no log long enough to overwrite a chunk is committed between the count and that chunk. |
| `AssignmentReads.UndisturbedReadsLog` | server/axmassignment/store.go:241-266 | Such a read returns that log, byte for byte. |
| `AssignmentReads.CompleteReadsLog` | server/axmassignment/store.go:232-266 | A read that found the log complete returns the last committed log in every run, with nothing assumed about what runs beside it. |
| `AssignmentReads.ReadsLogExactly` | server/axmassignment/store.go:241-266 | In every run a read that got no short chunk before its last returns a given log, byte for byte, exactly when the log has the counted number of chunks and each is the same as in the last log that wrote it before it was got. |
| `AssignmentReads.AgreesExactly` | server/axmassignment/store.go:241-266 | Chunks that are full but for the last join to a log exactly when they are the log's chunks. |
| `AssignmentTornRead.TornRead` | server/axmassignment/worker.go:217-247 | For every two-chunk log and one-chunk log there is a run in which a read returns the second log followed by the end of the first, which is no committed log unless they agree that far. |
| `AssignmentStore.Controller.Claim` | server/axmassignment/worker.go:18-61 | Claiming refuses a held lease, fences a replaced account, key or binding, and otherwise stores exactly the claimed workflow and a new lease. |
| `AssignmentStore.Controller.Commit` | server/axmassignment/worker.go:64-115 | Committing succeeds only for the current lease holder and writes the workflow, the renewed or released lease and the evidence. |
| `AssignmentStore.Controller.WriteEvidence` | server/axmassignment/worker.go:90-101 | The chunk loop stores the chunks of the log and their count. |
| `AssignmentStore.Controller.Evidence` | server/axmassignment/store.go:241-266 | Undisturbed, the reading loop joins exactly the counted chunks, or reports not found for another account, no log or a missing chunk. |
| `AssignmentStore.Controller.Request` | server/axmassignment/store.go:157-229 | A request is validated, repeated requests are idempotent, and overlapping outstanding work is refused. |
| `AssignmentStore.Controller.Scan` | server/axmassignment/store.go:197-226 | The scan finds a blocking workflow exactly when one exists. |
| `AssignmentStore.RecordOutcomes` | server/axmassignment/worker.go:235-241 | Each target gets the outcome of the last log row with its serial. |
| `AssignmentStore.CheckSettled` | server/axmassignment/worker.go:278-288 | The loop decides whether every target reported successful has converged. |
| `Replacement.AdvanceReplacement` | devicemanagement/storage/replacement.go:98-225 | The in-place transition computes the transition on values, including expiry before refusal. |
| `ReplacementRuns.CommitNeedsHandshake` | devicemanagement/storage/replacement.go:98-225 | A commit of an attempt that began without progress implies, since the begin: a matching claim under SCEP, then issue, then authenticate, then a device token, all for the same candidate, and delivery to the old identity before an acknowledged result. |
| `ReplacementRuns.AlwaysJustified` | devicemanagement/storage/replacement.go:98-225 | After any number of calls every claim such an attempt's record makes has its event since the begin. |
| `ReplacementRuns.FinalUntilBegin` | devicemanagement/storage/replacement.go:114-135 | A finished attempt never changes until a new one begins. |
| `ReplacementRuns.OneCommitPerBegin` | devicemanagement/storage/replacement.go:114-225 | Two commits always have a begin between them. |
| `ReplacementRuns.CandidateFixed` | devicemanagement/storage/replacement.go:135-225 | Once issued, the candidate of an attempt never changes. |
| `ReplacementExactly.HandshakeExactly` | devicemanagement/storage/replacement.go:114-225 | Begin does not check progress fields: every commit of an attempt rests on a handshake, in every run, exactly when the begin record has none of them set, or when it can never be committed at all. |
| `ReplacementExactly.PresetCommits` | devicemanagement/storage/replacement.go:114-225 | For every other startable record there is a run that commits it without one of the calls of the handshake, the one the record claims. |
| `ReplacementExactly.BarredNeverCommits` | devicemanagement/storage/replacement.go:139-165 | Under SCEP an attempt without secret, key, candidate and authentication is never committed. |
| `RateLimiter.Limiter.Check` | devicemanagement/ratelimit/ratelimit.go:65-163 | The code's loops compute the decision on values and keep the record count within the limit. |
| `RateLimiter.CheckBuckets` | devicemanagement/ratelimit/ratelimit.go:30-92 | Accepts exactly one to 32 valid buckets with different keys. |
| `RateLimiter.Reclaim` | devicemanagement/ratelimit/ratelimit.go:131-148 | Drops exactly the expired records the call does not name. |
| `RateLimiter.CapacityKept` | devicemanagement/ratelimit/ratelimit.go:128-151 | Under a fixed limit no check stores more records than the limit. |
| `RateLimitTokens.PassesWithToken` | devicemanagement/ratelimit/ratelimit.go:97-119 | When timestamp and tokens agree, a bucket passes exactly when its token bucket, refilled once per interval up to the burst, has a token. |
| `RateLimitTokens.ChargeTakes` | devicemanagement/ratelimit/ratelimit.go:119-126 | Charging the timestamp and taking a token keep the agreement. |
| `RateLimitRuns.DecidesAsTokenBuckets` | devicemanagement/ratelimit/ratelimit.go:93-157 | In every run of checks, prunes and reclaims a check is denied exactly when some token bucket it names is empty; capacity is the only other reason not to admit it. |
| `RateLimitRuns.WindowBound` | devicemanagement/ratelimit/ratelimit.go:93-157 | Any window of events admits a key at most its burst plus one per whole interval, in the store's microseconds. |
| `RateLimitRuns.PruningUnseen` | devicemanagement/ratelimit/ratelimit.go:128-148 | Two runs of the same checks that delete different expired records admit the same checks, capacity errors aside. |
| `RateLimitRuns.RetryAfterExact` | devicemanagement/ratelimit/ratelimit.go:93-157 | In every run a denied check made again is denied exactly while its microsecond is before that of the denial plus the promised wait, as long as none of its keys was charged in between, whatever else was checked, reclaimed or pruned. |
| `RateLimitRuns.AllOrNone` | devicemanagement/ratelimit/ratelimit.go:115-157 | A check that is not admitted changes nothing, and it is denied exactly when some bucket does not pass. |
| `RateLimitRuns.ChargesAll` | devicemanagement/ratelimit/ratelimit.go:119-157 | An admitted check charges every bucket it names, and other records stay or were expired. |
| `Catalogue.ParentAccepted` | devicemanagement/applications/catalogue.go:230-251 | In a forest a parent is accepted exactly when it is empty, or live with at most 1000 packages up to its root, none of them the package itself. |
| `CatalogueForest.KeepsForest` | devicemanagement/applications/catalogue.go:45-223 | Every transaction keeps parents acyclic, existing and not being deleted. |
| `CatalogueForest.KeepsRecorded` | devicemanagement/applications/history.go:32-39 | Every transaction keeps each live package's history at exactly 1 up to its sequence. |
| `CatalogueSafety.AlwaysForest` | devicemanagement/applications/catalogue.go:230-275 | In every interleaving packages form a forest, tombstones have no children, and histories are complete. |
| `CatalogueSafety.RowsAreServed` | devicemanagement/applications/upload.go:81-140 | In every interleaving of uploads, deletions and edits a content row has its package, and its verified bytes unless the package is being deleted. |
| `CatalogueSafety.ContentIsServed` | devicemanagement/applications/upload.go:64-140 | The content a live record names is stored whole and matches the digest its metadata pins, although the pin was checked before the upload. |
| `CatalogueSafety.ScanEnds` | devicemanagement/applications/catalogue.go:182-207 | A deletion finds rows in at most as many listings as there were rows when it began, whatever runs beside it. |
| `CatalogueSafety.NothingLeft` | devicemanagement/applications/catalogue.go:192-223 | Once a package is gone its only blobs belong to uploads that have not cleaned up. |
| `CatalogueSafety.HistoryStays` | devicemanagement/applications/history.go:32-39 | A history entry stays unchanged in every later state, also after deletion. |
| `CatalogueSafety.RunKeeps` | devicemanagement/applications/catalogue.go:45-223 | The invariant of the two-store protocol, kept by every step. |
| `CatalogueManager.ValidateParent` | devicemanagement/applications/catalogue.go:230-251 | The walk with its visited set computes the parent check. |
| `CatalogueManager.CheckNoChildren` | devicemanagement/applications/catalogue.go:254-275 | The paged scan refuses exactly when some record names the package as parent. |
| `CatalogueManager.Manager.Upload` | devicemanagement/applications/upload.go:19-140 | Alone, an upload commits exactly when the stored bytes read back and the record is unchanged; otherwise metadata is untouched and the blob is cleaned up. |
| `CatalogueManager.Manager.Delete` | devicemanagement/applications/catalogue.go:151-223 | Alone, a deletion ends with record, rows and blobs gone, or leaves a tombstone with the same revision; other packages are untouched. |
| `Correlation.Correlate` | devicemanagement/correlation/correlation.go:74-134 | Rejects malformed input, and otherwise sorts every report, in order, into matched or rejected with its reason. |
| `Correlation.FindConflicts` | devicemanagement/correlation/correlation.go:94-112 | Remembering one serial per source finds exactly the sources with two different serials. |
| `Correlation.Partition` | devicemanagement/correlation/correlation.go:113-132 | No report is lost or counted twice, and each rejection carries the reason that applies. |
| `Correlation.MatchAgrees` | devicemanagement/correlation/correlation.go:113-132 | A match and every telling report of its source name the organization device. |
| `Correlation.CanonicalTwice` | devicemanagement/correlation/correlation.go:167 | The matching key of a matching key is itself. |
| `Evidence.MatchesWhenSupported` | devicemanagement/inventory/records.go:206-228 | Whether a link can be made does not depend on the order in which the store returns the originals. |
| `EvidenceRuns.SnapshotIsLatest` | devicemanagement/inventory/records.go:49-125 | In every run a record's snapshot is, lifecycle flags apart, an original of maximal observation time. |
| `EvidenceRuns.ConflictExactly` | devicemanagement/inventory/records.go:91-102 | A replay finds no record exactly when every original of its source was observed before Go's zero time. |
| `EvidenceRuns.ReplayAccepted` | devicemanagement/inventory/records.go:91-102 | With observation times from year 1 on the missing-record conflict is unreachable. |
| `EvidenceRuns.EarlyReplayConflicts` | devicemanagement/inventory/records.go:111-113 | An original of year 0 sent twice does reach it. |
| `EvidenceRuns.ReplayChangesNothing` | devicemanagement/inventory/records.go:91-102 | An acknowledged original is kept forever, and sending it again at any later time changes nothing. |
| `EvidenceRuns.LinksAreCurrent` | devicemanagement/inventory/records.go:194-234 | In every run a stored link is exactly what correlating the present evidence would store again. |
| `EvidenceRuns.RunKeeps` | devicemanagement/inventory/records.go:105-234 | Every stored link is justified: both sources complete, present and connected, and every telling native report agrees with the Apple serial. |
| `EvidenceStore.Repository.Observe` | devicemanagement/inventory/records.go:49-125 | The code's branches compute the observation on values. |
| `EvidenceStore.Repository.ChangeSource` | devicemanagement/inventory/records.go:174-191 | Sets both flags and drops the links of an absent or disconnected source. |
| `EvidenceStore.Repository.Link` | devicemanagement/inventory/records.go:194-234 | Stores the shared serial, or refuses with the error that applies. |
| `EvidenceStore.DropLinks` | devicemanagement/inventory/records.go:296-307 | Drops exactly the links that name the source. |
| `JobSafety.ClaimFences` | devicemanagement/inventory/jobs.go:130-217 | Once a new owner claims the lease, no earlier owner's commit ever succeeds. |
| `JobSafety.FencedForever` | devicemanagement/inventory/jobs.go:181-231 | An issued owner without the lease never commits again. |
| `JobSafety.CommitKeepsIdentity` | devicemanagement/inventory/jobs.go:181-217 | A commit never writes back a stale account, revision or generation. |
| `JobSafety.FinishedStays` | devicemanagement/inventory/jobs.go:97-307 | A finished job never changes again, except that pruning may remove it. |
| `JobSafety.PrunedStaysGone` | devicemanagement/inventory/retention.go:11-35 | A job that was removed never comes back. |
| `JobSafety.AtMostOneOpen` | devicemanagement/inventory/jobs.go:42-72 | In every run at most one queued, running or paused job exists per account revision. |
| `JobSafety.MigrateFences` | devicemanagement/inventory/migration.go:130-142 | After a migration no worker that claimed before it can commit. |
| `JobSafety.RetiredForever` | devicemanagement/inventory/memory.go:113-127 | After a migration no later state holds a key of a retired namespace. |
| `JobSafety.MigrateRestarts` | devicemanagement/inventory/migration.go:143-173 | In every run the first migration restarts each unfinished job from the beginning and leaves finished ones alone, and no later state holds a restarted job under a generation from before the migration. |
| `JobSafety.MigratesOnce` | devicemanagement/inventory/migration.go:40-50 | A migration anywhere later in the run leaves the store as it is. |
| `JobQueue.Repository.Enqueue` | devicemanagement/inventory/jobs.go:42-72 | Reuses the outstanding job of the account revision or queues a new one. |
| `JobQueue.Repository.Pick` | devicemanagement/inventory/jobs.go:140-152 | The walk picks the oldest runnable job, the smaller key among equals, or none only if none is runnable. |
| `JobQueue.Repository.Claim` | devicemanagement/inventory/jobs.go:130-178 | Takes the lease for the oldest runnable job, or cancels it when its account moved on, or reports why not. |
| `JobQueue.Repository.CommitJob` | devicemanagement/inventory/jobs.go:181-217 | Writes the worker's copy and renews the lease, or fails with the first check that does. |
| `JobQueue.Repository.Migrate` | devicemanagement/inventory/migration.go:40-181 | The steps of the migration together are the migration on values. |
| `JobQueue.Purge` | devicemanagement/inventory/backend.go:55-72 | Walking a prefix in pages while deleting removes every key under it and no other. |
| `JobQueue.Scan` | devicemanagement/inventory/memory.go:74-110 | A page holds the next keys in order, all of them if it is short. |
| `Cycles.Cycles` | internal/layout/layout.go:233-287 | The report lists exactly the strongly connected components of two or more units, each once, sorted within and between groups. |
| `Cycles.ReportUnique` | internal/layout/layout.go:229-287 | Any two such reports of one graph are equal. |
| `Cycles.Search.Strong` | internal/layout/layout.go:241-277 | Visiting a unit keeps the index, low link and stack invariants and finishes everything it can. |
| `Cycles.RootComponent` | internal/layout/layout.go:259-275 | When a low link equals its index, the stack above it is exactly one component. |
| `Names.Sort` | internal/layout/layout.go:268-287 | Sorting by distinct keys gives the same elements in strictly increasing order. |
| `SchemaHistory.MergeKeys` | internal/schemagen/history.go:96-158 | The recursive merge with its shrinking lookup table computes the merge on values, also with repeated names. |
| `SchemaPaths.PathsKeptExactly` | internal/schemagen/history.go:96-158 | A merge gives each path the newer entry, else the older one, and has no other path, exactly when no array has one item in one release and several in the other. |
| `SchemaReleases.AlignedMerge` | internal/schemagen/history.go:96-158 | A release is aligned with the merge of two aligned ones exactly when it is aligned with both. |
| `SchemaReleases.FoldIsNewest` | internal/schemagen/history.go:96-158 | Folding the keys of one schema newest first gives each path the entry of the newest release that has it, and no other path, exactly when the releases are pairwise aligned. |
| `SchemaReleases.LostForGood` | internal/schemagen/history.go:139-145 | Two releases that are not aligned cost a path that no later merge brings back. |
| `SchemaFold.FoldHistory` | internal/schemagen/generate.go:64-76 | The generator's loop returns the fold of all releases, or fails at a release that cannot be merged into the fold of those before it. |
| `SchemaFold.TreeFoldIsNewest` | internal/schemagen/generate.go:64-76 | On whole trees, with schemas followed through their moves: at every path, and for payload and response keys, each key path has the entry of the newest release whose schema there documents it, and there is no other, exactly when those schemas are pairwise aligned. |
| `SchemaFold.SchemasKept` | internal/schemagen/generate.go:64-76 | The fold has a path exactly when some release has a schema that ends up there: none is lost and none invented. |
| `SchemaFold.OneMember` | internal/schemagen/history.go:28-52 | Two schemas of one release never end up at the same path. |
| `SchemaFold.NewestHeader` | internal/schemagen/generate.go:64-76 | All a schema says besides its keys is what the newest release that has it says. |
| `SchemaAgain.HistoryAgain` | internal/schemagen/history.go:21-92 | Merging the same older release into the merge succeeds, finds the same moves and changes nothing. |
| `SchemaPaths.MisalignedLoses` | internal/schemagen/history.go:139-145 | An array that changes between one item and several loses the path of that item. |
| `SchemaMerging.MergeSelf` | internal/schemagen/history.go:96-158 | Merging a release with itself gives that release. |
| `SchemaMerging.MergeAgain` | internal/schemagen/history.go:96-158 | Merging the same older release again changes nothing, marks included. |
| `SchemaTree.MergeHistory` | internal/schemagen/history.go:21-61 | Every older schema is merged into its newest form, other current schemas are kept, nothing else appears, and the result is ordered by path. |
| `SchemaTree.HistoryMoves` | internal/schemagen/history.go:65-92 | Finds exactly the pairs of paths whose identity is unmatched and unique on both sides. |
| `SchemaTree.LatestDiffer` | internal/schemagen/history.go:28-52 | No two older schemas are merged into the same current one. |
| `SupportUses.CheckFindsOwnSupport` | internal/schemagen/emit_validate.go:114-322 | The support path that validation composes along any use has an entry among those written, and the entry is the fold of the blocks from the payload down to that use's own key, also when the struct was built for another use. |
| `SupportUses.EveryUseHasSource` | internal/schemagen/emit_support.go:22-90 | Writing the table never misses a source key. |
| `SupportUses.CheckedIsUsed` | internal/schemagen/emit_validate.go:114-322 | Validation asks only for uses the table is written for. |
| `SupportUses.FitsSameShape` | internal/schemagen/types.go:711-736 | A struct that fits some keys fits all keys of the same shape. |
| `SupportSignatures.SignatureTells` | internal/schemagen/types.go:713-736 | Keys with the same signature text have the same shape, if their names and types do not contain its separators. |
| `SupportSignatures.SignatureCollides` | internal/schemagen/types.go:713-736 | Otherwise one name can imitate two keys. |
| `SupportUses.ReuseMisfits` | internal/schemagen/types.go:641-666 | Such a dictionary is given a struct that does not fit it. |
| `SupportUses.FillFits` | internal/schemagen/types.go:306-338 | The builder's fields fit the keys it is given, whatever structs it reuses. |
| `SupportUses.NestedFits` | internal/schemagen/types.go:641-666 | A struct reused by shared type and equal signature fits the dictionary it is reused for, and so does every struct kept afterwards. |
| `SupportTables.Walk` | internal/schemagen/availability.go:18-47 | The walk over the source keys adds exactly one entry per key use, the fold of its blocks. |
| `SupportTables.ConvertOS` | internal/schemagen/emit_support.go:95-126 | A block replaces what it states and inherits the rest, for every system. |
| `ScheduleNext.NextOccurrence` | devicemanagement/inventory/schedules.go:189-260 | What the next occurrence is, for every unit and for cron: refused input, the first occurrence in minutes or hours if it fits 64 bits, the first or the least calendar occurrence under the conditions below, nothing past year 9999. |
| `Schedules.IntervalExactly` | devicemanagement/inventory/schedules.go:211-222 | In minutes and hours the result is the first occurrence after the instant exactly when its distance from the anchor fits 64 bits of nanoseconds. |
| `Schedules.IntervalOverflows` | devicemanagement/inventory/schedules.go:216-221 | Beyond that a schedule of every minute answers with an instant before its anchor. |
| `ScheduleDays.DaysExactly` | devicemanagement/inventory/schedules.go:226-258 | In days and weeks, in any zone with offsets short of a day and with any rounding of the floating-point day count, the search never gives up within 292 years of the anchor, and what it finds is the first occurrence exactly when the one before its start is not after the instant. |
| `ScheduleDays.DaysFound` | devicemanagement/inventory/schedules.go:226-259 | If the zone's offsets stay at most a day apart, the search gives up exactly when its fourth try is not after the instant, and what it finds is the least occurrence exactly when the one before its start is not after the instant. |
| `ScheduleDays.StartsNoLater` | devicemanagement/inventory/schedules.go:226-248 | That one never is if no offset is a day or more behind the anchor's. |
| `ScheduleDays.DaysGivesUp` | devicemanagement/inventory/schedules.go:226-259 | Three periods and two days past the 64-bit bound it gives up in every zone. |
| `ScheduleMonths.MonthsExactly` | devicemanagement/inventory/schedules.go:233-259 | In months the search never gives up, in any zone, and returns the first occurrence exactly when the one before its start is not after the instant. |
| `ScheduleMonths.MonthsLeast` | devicemanagement/inventory/schedules.go:233-259 | If the clock shows the anchor's time on the first and last days of the months, that is also exactly when it is the least occurrence. |
| `ScheduleMonths.MonthsFound` | devicemanagement/inventory/schedules.go:233-259 | So it is on every day but the first of a month as the zone reads it. |
| `ScheduleMonths.AskedExactly` | devicemanagement/inventory/schedules.go:234-243 | An occurrence is put on the anchor's day and time, or the last day of a shorter month, exactly when the clock does not skip that time on the first of the month, nor on its last day if that is the one wanted. |
| `ScheduleZones.DaysMiss` | devicemanagement/inventory/schedules.go:226-259 | In a zone that goes back a day or more, a daily search misses the first occurrence from each whole day on for as long as the gap exceeds a day, and where the elapsed days are rounded up. |
| `ScheduleZones.MonthsMiss` | devicemanagement/inventory/schedules.go:233-259 | In any leap year, in a zone that goes from three to two hours ahead one second past the end of February, the search misses the occurrence of its last evening. |
| `ScheduleZones.MonthsSkewed` | devicemanagement/inventory/schedules.go:234-243 | In any leap year, in a zone that skips the first hour of March, the occurrence wanted on 31 March half past midnight is put on the evening of 27 March. |
| `Calendar.CivilReads` | devicemanagement/inventory/schedules.go:234-243 | A date inside its month reads back as given. |
| `Calendar.FoundUnlessSkipped` | devicemanagement/inventory/schedules.go:235-241 | Around one change of offset a wall time that the clock shows is found. |
| `Schedules.FirstOfFour` | devicemanagement/inventory/schedules.go:249-258 | The loop returns the first of four candidates after the instant. |
| `Cron.CronSet` | devicemanagement/inventory/schedules.go:66-109 | A field is valid exactly when each item is, and holds exactly the values some item covers, all in range. |
| `Cron.NextRun` | devicemanagement/inventory/schedules.go:26-63 | A malformed expression is refused; otherwise the result is the least minute after the instant at which the five fields match the zone's clock, or nothing only if there is none within five calendar years. |
| `Cron.Parse` | devicemanagement/inventory/schedules.go:34-47 | Five words, each a valid field of its range, and the values each field holds. |

## Left out

- Recursive schema references, Go names, emitted text and version parsing of the schema generator; the type builder and the walk that writes the table are modelled on values, with paths as key sequences and request and response apart.
- `Reaches`, record and history paging, `Open`, exports and manifests' contents would only add easy members.
- Network clients, signature checks, key handling and HTTP handlers: their outcomes are unconstrained parameters.
- Evidence conversion inside the migration: its result is a parameter that only avoids the old namespaces.
- `Tick` and `SaveSchedule`: they call the modelled decision and store its result.
- Corrupt stored documents and limiter records are not modelled; the limiter's own argument checks on its limit are not either.
- JSON, digests and identifiers: digests are injective and generated identifiers are new.
- Correlation.CanonicalTwice: upper-cases ASCII letters only.
- AssignmentStore.EvidenceIsLastLog: reads in one step; AssignmentReads has the read as the code makes it, get by get.
- AssignmentStore.Controller.Evidence: reads in one step, likewise.
- AssignmentStore.Controller.Commit: leaves out the device observations written in the same transaction.
- JobQueue.Repository.CommitJob: leaves out what the caller writes in the same transaction.
- JobQueue.Repository.Migrate: takes the converted evidence as a parameter.
- AssignmentReads.ReadsLogExactly: says nothing of a read that got a short chunk before its last; its bytes can be those of a log by coincidence only.
- EvidenceRuns.SnapshotIsLatest: is about runs of the record operations; the migration also stores incomplete records without originals, and those runs are not modelled.
- EvidenceRuns.ConflictExactly: likewise without the migration.
- EvidenceRuns.RunKeeps: likewise without the migration.
- JobQueue.Scan: pages one map where the code overlays staged writes on the stored ones.
- SupportSignatures.SignatureTells: is one way, for names and types without the separators; with them signatures may or may not differ, as SignatureCollides shows.
- SupportUses.CheckFindsOwnSupport: is about keys whose names and types have none of the signature's separators, because reuse compares texts; so are FillFits, NestedFits and EveryUseHasSource.
- A commit that is applied but reported as failed is not modelled; with one, an upload's cleanup would delete a published blob.
- AssignmentAccounts.ReplacedForGood: assumes that generations are new and that an account created again has another creation time than the ones before it, since nothing else in the two fingerprints need differ.
- AssignmentOverlap.RunOrdered: assumes the same of generations and creation times.
- AssignmentOverlap.LaterPostWaits: likewise.
- ReplacementRuns.CommitNeedsHandshake: is about begin records without progress of their own; HandshakeExactly shows that no others have it, but those that never commit.
- RateLimitRuns.WindowBound: measures the window in the store's microseconds, because the code truncates instants to them.
- ScheduleDays.DaysGivesUp: leaves the three periods after the 64-bit bound to DaysFound, because the outcome there depends on the zone's offsets.
- ScheduleMonths.AskedExactly: is about zones whose offsets stay less than a day apart.
- AssignmentStore.Controller.Scan: visits workflows in any order where the code reads them in pages by key.
- SchemaTree.MergeHistory: works on values where the code deletes matched schemas from a map.
- CatalogueManager.Manager.Upload: leaves out the size limit, the checks on the source and the package, and the digest the caller may pin; each refuses before anything is stored.
- CatalogueManager.Manager.Delete: lists rows in any order where the store orders them by key.
