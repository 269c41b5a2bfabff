# reroll-sync: verified model

This project models the hard core of reroll-sync in Dafny and proves what its design promises. The
tables are maps, a write operation is the function it applies inside its savepoint, threads are
interleaved atomic steps, time is real (in the limiter and the backoff) or ISO text (in the tables).

| file | what it models |
|---|---|
| `SegmentFormat`, `SegmentPacking`, `SegmentWriter`, `SegmentReader`, `SegmentVerify` | archive segments: little-endian trailer, block packing, the writer and reader objects, the footer and LRU block caches, verification |
| `CrashRecovery`, `SealedSegments` | the archive protocol as a state machine with crash points, startup recovery, segment ids, verification and readability over whole runs |
| `Schema`, `WriteOps`, `Reconcile`, `Pipeline`, `StalePlans`, `OpRows`, `FsckViews`, `FsckChecks` | the tables, every write operation, the rules `fsck` looks for that they keep, and exactly when they keep the others |
| `Convergence` | project reconciliation: plan, apply, fixpoint |
| `ChangeFeed`, `SingleWriter` | the writer thread, its batches and exits, and the `change_seq` feed |
| `Ordering`, `Dispatch`, `Reprocess`, `ReprocessState` | keyset pages, the claim sweep, reprocess campaigns and their preview |
| `IsoTime`, `Retry` | timestamps as text, backoff, quarantine |
| `RateLimiter` | token buckets and the two-level limiter |
| `HandoffQueue`, `InFlight`, `ChunkedScan` | the byte-budgeted queue, conservation of in-flight items, chunked scans |

External functions are values with stated laws: compression, msgpack and CRC-32 are the fields of
`Codec` under `Sound` (decoding inverts encoding), and sha256 is a free constructor, hence injective.

## Assumptions

- Commits and savepoints are atomic; clock readings, random draws, completion order, page ties and
  connection failures are parameters over which every statement is quantified.
- Outcome writes validate the claimed state, not the stored one, so the strict rules assume that
  claimed states are current (`UpToDate`), and that a campaign's chunk holds no tombstone. Crash safety
  and the plain rules assume neither, and `FsckChecks` says exactly what happens without them.
- Rows are never deleted from `wheels`, so the rows a plan was made from still exist when it is applied.
- `ArchiveStore.add` buffers and indexes in turn. Only `SealedSegments.SealedStayReadable` assumes that no
  insert failed in between.
- Reconciliation assumes that no page file is named like another project's row (`OwnNames`).
- Imported blobs that wait for their wheels are readable when the run starts; the importer is not part
  of the repository.
- Row ids are positive; page sizes, chunk sizes and claim limits are at least 1 (a zero claim limit
  indexes an empty page in the source).
- Limiter rates and requests are not negative. Progress statements read one clock value per critical
  section and assume the clock has not gone backwards; the rate bound assumes neither.
- A queue consumer releases what it popped, with the size it was put with.
- Bulk claim assumes that reads fail only in the two ways the loop catches, which `InFlight.ServingWorld`
  proves of every state the archive protocol can reach.

## Where the code and its documentation differ

- Recovery rewrites wheels without taking a `change_seq`; `ChangeFeed.RecoveryIsSilent` shows the feed
  missing such a change and `RecoveryFeedsIff` says exactly when it does not.
- A reprocess campaign for NEED_CONVERT may update a wheel twice and report more than the preview;
  `StateCampaign.NeedConvertCountsTwice` gives the input and `ReprocessState` the exact condition.
- A penalised child may be told to wait zero seconds; `RateLimiter.PenalizedWaitsZero` gives the input
  and `ZeroWaitIff` says exactly when.
- A body repeated in a later segment keeps its older `blobs` row, so that segment does not verify
  clean; `SegmentVerification.RepeatedBodyNotClean` gives the input and `SealedVerifiesClean` says that
  this is the only way. Over whole runs only missing rows can be wrong (`SealedSegments.SealedStayTidy`),
  and the missing row is in an older sealed segment unless an insert failed
  (`RenameKeepsIff`, `UnindexedBodyLost`).
- Eleven `fsck` checks can be broken by write operations, and `FsckChecks` has an input for each and the
  exact condition for every operation. A tombstone or a revival keeps the repodata row, the conda name and
  the work row (1b, 19, 11); a campaign checks neither tombstone nor blob and keeps the name and, without a
  version, the skips rows (7b, 2, 19, 10); unquarantine and a late sidecar keep the blob (3); a
  corrupt-blob skip has no version (9b); recovery drops rows tombstones point to (13); quarantine comes at
  attempts = max + 1 (12a, 12b). What operations do keep is that quarantine means attempts past the
  maximum (`RunKeepsQuarantineRule`); even max + 1 is not a bound (`SecondRetryBreaksBound`).
- A plan may be applied to rows that changed since they were read; it can then leave a READY wheel without
  repodata. `StalePlans.StalePlanHollows` gives the input and `StalePlanKeepsRulesIff` says exactly when.

## Model

| member | source | states |
|---|---|---|
| `SegmentFormat.TrailerRoundTrip` | src/reroll_sync/archive/format.py:106-120 | decoding an encoded 32-byte little-endian trailer gives back offset, length and checksum |
| `SegmentFormat.TrailerAccepted` | src/reroll_sync/archive/format.py:111-120 | the other direction: whatever the decoder accepts agrees with an encoder output in every field the format reads |
| `SegmentFormat.TrailerLooks` | src/reroll_sync/archive/format.py:106-108 | a trailer byte by byte: magic, two 8-byte fields and a 4-byte one, low byte first, four spare bytes |
| `SegmentFormat.FooterOfIff` | src/reroll_sync/archive/reader.py:92-120 | a short, unmarked, out-of-bounds or off-checksum file is corrupt, as is a footer that does not decompress or unpack; only a document of another shape escapes |
| `Prelude.SliceIs` | src/reroll_sync/archive/reader.py:49-63 | reading a range gives the requested bytes, as far as there are any |
| `SegmentFormat.ReadAt` | src/reroll_sync/archive/reader.py:49-63 | the uncached reference read: a successful read hashes to the digest asked for |
| `SegmentPacking.BodiesAreDedup` | src/reroll_sync/archive/writer.py:91-112 | any sequence of adds packs each distinct body once, in first-add order |
| `SegmentPacking.DedupDistinct` | src/reroll_sync/archive/writer.py:91-112 | the reference de-duplication has no repeats and loses no body |
| `SegmentPacking.BlocksWithinTarget` | src/reroll_sync/archive/writer.py:97-112 | every block is at most the target size or holds exactly one record, for empty and oversized records too |
| `SegmentPacking.BlocksAreGreedy` | src/reroll_sync/archive/writer.py:97-112 | a block is closed only because the next body would have overflowed it |
| `SegmentPacking.BlocksTile` | src/reroll_sync/archive/writer.py:174-187 | blocks tile the file from 0 to the footer without gap or overlap |
| `SegmentPacking.FooterOfImage` | src/reroll_sync/archive/format.py:65-120 | the trailer, checksum and footer of a sealed image decode to exactly its blocks and records |
| `SegmentPacking.BlockOfImage` | src/reroll_sync/archive/reader.py:92-142 | block b of a sealed image decompresses to the concatenation of its bodies |
| `SegmentPacking.ReadBack` | src/reroll_sync/archive/reader.py:49-63 | reading a location in a sealed image gives back the body stored there |
| `SegmentPacking.RecordsMatch` | src/reroll_sync/archive/writer.py:91-112 | the k-th footer record describes the k-th distinct body: digest, block, offset, length |
| `SegmentWriting.DigestKnown` | src/reroll_sync/archive/writer.py:91-96 | a digest is in the location map exactly when its body is already packed |
| `SegmentWriting.LocationKnown` | src/reroll_sync/archive/writer.py:91-112 | the location kept for a packed body is where that body sits |
| `SegmentWriting.AnyRunReadsBack` | src/reroll_sync/archive/writer.py:91-187 | segment round trip: for any sequence of adds followed by a seal, the location of every added body reads that body back |
| `SegmentWriting.SegmentWriter.Add` | src/reroll_sync/archive/writer.py:91-112 | the fields after an add are those of the packed history plus this body, and the returned location is the one in the map |
| `SegmentWriting.SegmentWriter.FlushBlock` | src/reroll_sync/archive/writer.py:174-187 | the open block becomes the next frame of the file and nothing else changes |
| `SegmentWriting.SegmentWriter.ShouldSeal` | src/reroll_sync/archive/writer.py:127-130 | true exactly when the flushed size or the age has reached its threshold |
| `SegmentWriting.SegmentWriter.Seal` | src/reroll_sync/archive/writer.py:132-165 | the file becomes the sealed image of the packed bodies |
| `SegmentWriting.SegmentWriter.ReadsBack` | src/reroll_sync/archive/writer.py:91-165 | once sealed, every location this writer handed out reads its body back |
| `SegmentReading.HitKeepsRecent` | src/reroll_sync/archive/reader.py:125-142 | a cache hit keeps the cache equal to the most recently used blocks |
| `SegmentReading.MissKeepsRecent` | src/reroll_sync/archive/reader.py:125-142 | a miss inserts the block and evicts exactly the least recently used one |
| `SegmentReading.SegmentReader.FooterFor` | src/reroll_sync/archive/reader.py:92-120 | the cached footer is the one in the file, errors included |
| `SegmentReading.SegmentReader.BlockBytes` | src/reroll_sync/archive/reader.py:125-142 | same answer as without caches; the cache stays the most recent blocks and within its size |
| `SegmentReading.SegmentReader.Read` | src/reroll_sync/archive/reader.py:49-63 | block cache refinement: every read equals the uncached read, errors included |
| `SegmentReading.SegmentReader.ValidGrows` | src/reroll_sync/archive/reader.py:92-142 | sealing further segments leaves both caches valid |
| `SegmentReading.SegmentReader.IterRecords` | src/reroll_sync/archive/reader.py:65-82 | the grouping loop returns the same records and errors as walking the footer block by block |
| `SegmentReading.IterYieldsDedup` | src/reroll_sync/archive/reader.py:65-82 | iterating a sealed segment yields each distinct body once, in first-add order |
| `SegmentVerification.VerifySegment` | src/reroll_sync/archive/verify.py:45-81 | no problem is reported if and only if the segment is clean, and none but missing rows if and only if it is tidy; the uncaught failures are exactly the other read errors |
| `SegmentVerification.CleanImpliesReadable` | src/reroll_sync/archive/verify.py:45-81 | soundness: after a clean report every `blobs` row of the segment reads back with the right hash |
| `SegmentWriting.IndexedIsMerge` | src/reroll_sync/archive/store.py:86-106 | indexing each add by INSERT OR IGNORE leaves the earlier rows and, for every other digest, the location the writer recorded |
| `SegmentVerification.SealedVerifiesClean` | src/reroll_sync/archive/verify.py:45-81 | completeness: a segment filled by any adds, each indexed by INSERT OR IGNORE, verifies clean once sealed if and only if none of its bodies was in the table before |
| `SegmentVerification.RepeatedBodyNotClean` | src/reroll_sync/archive/store.py:86-106 | a body an earlier segment holds: its insert is ignored and the later segment does not verify clean |
| `CrashRecovery.StepKeepsInv` | src/reroll_sync/archive/store.py:86-140 | every step (crash, recovery, allocation, file creation, buffering, indexing, rename, mark, claim, selection by a campaign, any write operation, a plan built from older rows) keeps the archive invariant |
| `CrashRecovery.RunKeepsInv` | src/reroll_sync/fetch.py:450-488 | the invariant holds after every run, stopped anywhere |
| `CrashRecovery.CrashSafe` | src/reroll_sync/fetch.py:450-509 | from no wheels and any readable imports, in every reachable serving state each live linked wheel resolves to a sealed file holding exactly its bytes or to the segment being filled; with no segment open, to a sealed file |
| `CrashRecovery.StartOne` | src/reroll_sync/daemon/service.py:234-247 | the protocol can be walked from nothing to the first open segment |
| `CrashRecovery.SealOne` | src/reroll_sync/archive/store.py:86-131 | and on through buffering, indexing and sealing a body |
| `CrashRecovery.CrashBeforeSeal` | src/reroll_sync/fetch.py:490-509 | or, after a crash before the seal, through a recovery that drops its row |
| `CrashRecovery.StalePlanFits` | src/reroll_sync/ingest.py:583-644 | a plan built from the rows read may be applied at any later moment of the process, however the tables changed in between: the protocol step stays enabled |
| `InFlight.ServingWorld` | src/reroll_sync/fetch.py:549-607 | after any run of the archive protocol a bulk claim of the serving process skips no wheel as corrupt, reads exactly the linked bytes, and retries a live wheel only while its bytes are in the segment being filled |
| `CrashRecovery.RecoveredSafe` | src/reroll_sync/fetch.py:490-509 | from every reachable state a crash followed by recovery makes every live link readable |
| `CrashRecovery.RecoverCompose` | src/reroll_sync/fetch.py:680-704 | recovering digests in two goes is recovering them at once |
| `CrashRecovery.RecoverChunkIs` | src/reroll_sync/fetch.py:680-704 | a recovery chunk resets exactly the live wheels whose blob is among its digests, drops exactly those rows, and leaves every other wheel with its repodata, and all skips, work and imports |
| `CrashRecovery.RecoveredRows` | src/reroll_sync/daemon/service.py:234-247 | a whole startup recovery resets every live wheel whose row names a partial file of a segment not marked sealed, and leaves every other one alone |
| `CrashRecovery.RecoveredKeepsSealed` | src/reroll_sync/daemon/service.py:234-247 | in every reachable state those left alone are exactly the ones whose row names a sealed file |
| `CrashRecovery.RecoveryRestartable` | src/reroll_sync/daemon/service.py:234-247 | recovery interrupted anywhere and restarted ends in the same state, and a second recovery changes nothing |
| `CrashRecovery.IdsNeverReused` | src/reroll_sync/archive/store.py:192-199 | an allocated segment id is refused by every later allocation, across crashes |
| `CrashRecovery.NextSegmentId` | src/reroll_sync/archive/store.py:192-199 | the max loop returns an id above every row and every file |
| `CrashRecovery.RecoverSegment` | src/reroll_sync/fetch.py:490-509 | the chunk loop resets exactly the live wheels whose row is in the segment, once each, drops exactly the rows of the segment, and returns the number of wheels |
| `SealedSegments.StepTidy` | src/reroll_sync/archive/store.py:86-140 | every protocol step keeps every sealed segment tidy and the rows of the open one the writer's own |
| `SealedSegments.SealedStayTidy` | src/reroll_sync/archive/verify.py:45-81 | after any run, crashes and recoveries included, the only problem a sealed segment can have is a record without a row of that segment |
| `SealedSegments.RenameKeepsIff` | src/reroll_sync/archive/store.py:86-131 | at the seal, every record has a row in that segment or an older sealed one if and only if every body was indexed before |
| `SealedSegments.SealedStayReadable` | src/reroll_sync/archive/store.py:86-131 | over every run that seals only indexed bodies, crashes and recoveries included, each record of each sealed file has a row there or in an older sealed segment, and reading through it gives the body |
| `SealedSegments.UnindexedBodyLost` | src/reroll_sync/archive/store.py:86-106 | a body buffered whose insert failed is sealed without a row anywhere, in a tidy segment |
| `WriteOps.RequeueRowsEffect` | src/reroll_sync/dispatcher.py:867-895 | the per-id UPDATE loop changes exactly the listed rows, each with its own new number |
| `WriteOps.RefetchRowsEffect` | src/reroll_sync/daemon/unquarantine.py:121-145 | only listed rows that are QUARANTINED go back to NEED_METADATA |
| `Pipeline.FetchOkKeeps` | src/reroll_sync/dispatcher.py:496-516 | an archived fetch outcome keeps the table rules |
| `Pipeline.ConvertOkKeeps` | src/reroll_sync/dispatcher.py:496-516 | a converted outcome keeps the table rules |
| `Pipeline.SkipKeeps` | src/reroll_sync/dispatcher.py:518-565 | a skip outcome keeps the table rules, permanent skips carrying no version |
| `Pipeline.RetryKeeps` | src/reroll_sync/dispatcher.py:567-623 | a retry or quarantine keeps the table rules |
| `Pipeline.ReprocessKeepsRules` | src/reroll_sync/dispatcher.py:867-895 | a reprocess chunk keeps the rules |
| `Pipeline.UnquarantineKeeps` | src/reroll_sync/daemon/unquarantine.py:121-145 | an unquarantine chunk keeps the rules |
| `Pipeline.RecoverKeeps` | src/reroll_sync/fetch.py:680-704 | a recovery chunk keeps the rules |
| `Pipeline.SyncKeeps` | src/reroll_sync/ingest.py:787-871 | a plan built from the current rows keeps the rules |
| `StalePlans.StalePlanKeepsRulesIff` | src/reroll_sync/ingest.py:694-871 | a plan built from any rows read earlier keeps the rules of the tables it is applied to if and only if no page wheel was read in NEED_METADATA with a blob the page disowns and is READY by now |
| `StalePlans.StalePlanHollows` | src/reroll_sync/ingest.py:734-784 | an unquarantined wheel converted between read and write is left READY without repodata |
| `Pipeline.GoneKeeps` | src/reroll_sync/ingest.py:874-897 | tombstoning a whole project keeps the rules |
| `Pipeline.RulesIff` | src/reroll_sync/fsck.py:263-327 | the plain rules are the queries of checks 1a, 5, 6, 7a and 9a finding nothing, with the child tables referring to stored wheels |
| `Pipeline.OpKeepsRules` | src/reroll_sync/fsck.py:263-335 | every write operation keeps the plain rules together, and the strict ones when claimed states are current |
| `Pipeline.RunKeepsRules` | src/reroll_sync/fsck.py:713-790 | the rules hold after every run of operations |
| `FsckViews.OpView` | src/reroll_sync/dispatcher.py:496-623 | what every operation does to state, blob, conda name, sidecar hash, tombstone mark and repodata row of every stored wheel, without its row loops |
| `FsckViews.OpSkips` | src/reroll_sync/ingest.py:787-871 | which skips rows of stored wheels every operation leaves |
| `FsckViews.OpWork` | src/reroll_sync/dispatcher.py:496-623 | which work rows every operation leaves |
| `OpRows.OpRow` | src/reroll_sync/ingest.py:694-871 | every column of every stored wheel after every operation, said without the helper functions of the operations; no row is deleted |
| `OpRows.OpNewRow` | src/reroll_sync/ingest.py:660-690 | every column of a wheel that sync inserts, and that only sync inserts |
| `OpRows.OpVersion` | src/reroll_sync/dispatcher.py:496-516 | the repodata version of every stored wheel after every operation |
| `OpRows.OpImports` | src/reroll_sync/ingest.py:787-897 | an import is unlinked exactly when its wheel is inserted; the index row carries the last serial until the project is gone |
| `OpRows.RaisesIff` | src/reroll_sync/dispatcher.py:505-516 | an outcome raises exactly when its claimed state does not allow it or the row it needs is missing |
| `OpRows.OpTakes` | src/reroll_sync/dispatcher.py:496-623 | how many sequence numbers an operation takes, raised or not |
| `OpRows.ReprocessReply` | src/reroll_sync/dispatcher.py:867-895 | a chunk reports the listed wheels that exist and takes one number for each listed id |
| `OpRows.GoneReply` | src/reroll_sync/ingest.py:874-897 | a vanished project reports the number of its live wheels |
| `Reconcile.RemoteIs` | src/reroll_sync/ingest.py:253-253 | the wheels of a page are its last entries of each name that ends in .whl |
| `FsckViews.FreshAfter` | src/reroll_sync/ingest.py:787-850 | a wheel that was not there came from sync, for a page file no stored row is named after |
| `FsckChecks.Keeps1bIff` | src/reroll_sync/fsck.py:272-277 | 1b survives an operation if and only if no wheel it demotes has a repodata row; sync and gone demote the vanished and the revived |
| `FsckChecks.Keeps19Iff` | src/reroll_sync/fsck.py:697-702 | 19 survives if and only if no wheel demoted or reprocessed has a conda name |
| `FsckChecks.Keeps2Iff` | src/reroll_sync/fsck.py:280-286 | 2 survives if and only if every wheel queued for conversion has a resolved blob |
| `FsckChecks.Keeps3Iff` | src/reroll_sync/fsck.py:289-294 | 3 survives if and only if no wheel with a blob is sent back for metadata |
| `FsckChecks.Keeps7bIff` | src/reroll_sync/fsck.py:330-335 | 7b survives if and only if no outcome and no campaign writes to a tombstone |
| `FsckChecks.Keeps13Iff` | src/reroll_sync/fsck.py:478-483 | 13 survives if and only if no outcome or import links a digest without a row and recovery drops no row a tombstone points to |
| `FsckChecks.Keeps4` | src/reroll_sync/fsck.py:297-302 | 4 survives every operation, for pages as the parser produces them |
| `FsckChecks.Keeps10Iff` | src/reroll_sync/fsck.py:390-395 | 10 survives if and only if no wheel leaves SKIPPED while a skips row of it stays; for a campaign, every skips row of a listed wheel is below its version |
| `FsckChecks.Keeps11Iff` | src/reroll_sync/fsck.py:403-409 | 11 survives if and only if no wheel with a work row is finished or tombstoned but by the outcome of that row, and no finished wheel is retried |
| `FsckChecks.Keeps9bIff` | src/reroll_sync/fsck.py:382-387 | 9b survives if and only if a written skip is permanent or names a version |
| `FsckChecks.Keeps12aIff` | src/reroll_sync/fsck.py:412-439 | 12a survives if and only if the operation is not a retry past the last attempt |
| `FsckChecks.Keeps12bIff` | src/reroll_sync/fsck.py:442-470 | 12b survives if and only if the operation is not the retry with one attempt to go on a row that is not quarantined |
| `FsckChecks.RunKeepsQuarantineRule` | src/reroll_sync/dispatcher.py:567-623 | over every run, stale claims and double retries included, a work row is quarantined if and only if its attempts are past the maximum |
| `FsckChecks.KeepsAttemptsIff` | src/reroll_sync/dispatcher.py:580-623 | the bound max + 1 on attempts survives an operation if and only if no quarantined wheel is retried |
| `FsckChecks.RunKeepsAttempts` | src/reroll_sync/dispatcher.py:580-623 | the bound over every run whose retries are of unquarantined wheels |
| `FsckChecks.GoneBreaks1b` | src/reroll_sync/ingest.py:874-897 | a READY wheel whose project disappears keeps its repodata row |
| `FsckChecks.GoneBreaks19` | src/reroll_sync/ingest.py:874-897 | and its conda name |
| `FsckChecks.ReprocessBreaks2` | src/reroll_sync/dispatcher.py:867-895 | a reprocessed wheel without a blob is queued for conversion |
| `FsckChecks.ReprocessBreaks19` | src/reroll_sync/dispatcher.py:867-895 | and keeps its conda name |
| `FsckChecks.UnquarantineBreaks3` | src/reroll_sync/daemon/unquarantine.py:121-145 | a wheel quarantined while converting goes back for metadata with its blob |
| `FsckChecks.CorruptSkipBreaks9b` | src/reroll_sync/fetch.py:612-620 | a wheel whose blob is corrupt is skipped neither permanently nor with a version |
| `FsckChecks.ReprocessBreaks7b` | src/reroll_sync/dispatcher.py:364-376 | a wheel tombstoned after a campaign selected it is queued again, still marked deleted |
| `FsckChecks.SkippedOnlyBreaks10` | src/reroll_sync/dispatcher.py:867-895 | a campaign for skipped wheels keeps their skips rows |
| `FsckChecks.GoneBreaks11` | src/reroll_sync/ingest.py:874-897 | a tombstoned wheel keeps its work row |
| `FsckChecks.RecoverBreaks13` | src/reroll_sync/fetch.py:680-704 | recovery drops the row that a tombstone points to |
| `FsckChecks.RetryBreaks12b` | src/reroll_sync/dispatcher.py:585-623 | with a maximum of one, the first failure reaches it unquarantined |
| `FsckChecks.RetryBreaks12a` | src/reroll_sync/dispatcher.py:585-623 | and the second passes it |
| `FsckChecks.SecondRetryBreaksBound` | src/reroll_sync/daemon/stages/convert.py:66-78 | a wheel handed to convert twice that fails both times: the second retry finds it quarantined and writes max + 2 |
| `ChangeFeed.OpStamps` | src/reroll_sync/dispatcher.py:505-514 | every row an operation changes, recovery excepted, takes its own fresh number |
| `ChangeFeed.RunStamps` | src/reroll_sync/writer.py:268-286 | the same for a whole batch, with failed operations in it |
| `ChangeFeed.FeedComplete` | src/reroll_sync/writer.py:100-112 | between any two committed states every changed row carries a number above all numbers visible in the earlier one, and no two rows share one, across lost batches and restarts |
| `ChangeFeed.RecoveryIsSilent` | src/reroll_sync/fetch.py:693-697 | recovery changes a wheel without a new number, so the feed misses it |
| `ChangeFeed.RecoveryFeedsIff` | src/reroll_sync/fetch.py:680-704 | a recovery leaves the feed complete if and only if it resets no live wheel |
| `Convergence.DiffIffUnsettled` | src/reroll_sync/ingest.py:694-784 | a common wheel has no diff if and only if its mirrored columns and its state agree with the page |
| `Convergence.PatchSettles` | src/reroll_sync/ingest.py:694-784 | applying a diff settles the row |
| `Convergence.JobPlanIsSyncPlan` | src/reroll_sync/ingest.py:253-297 | the plan analysed is the one the planner makes |
| `Convergence.PlanMirrorsPage` | src/reroll_sync/ingest.py:787-871 | applying the plan makes the live rows of the project exactly the wheels of the page, column by column, and touches no other project |
| `Convergence.ReplanEmptyIff` | src/reroll_sync/ingest.py:668-691 | re-planning the same page is empty if and only if no linked import differs from its published hash |
| `Convergence.SecondReplanEmpty` | src/reroll_sync/ingest.py:253-297 | after two applications re-planning is always empty |
| `Convergence.SyncMirrorsPage` | src/reroll_sync/ingest.py:787-871 | one sync makes the live rows the page's wheels and touches no other project, if no page file belongs to another project |
| `Convergence.ResyncEmptyIff` | src/reroll_sync/ingest.py:253-297 | planning the same page again is empty if and only if the imports of its new files agree with it |
| `Convergence.TwoSyncsSettle` | src/reroll_sync/ingest.py:253-297 | after two syncs of the same page, planning it again is always empty |
| `SingleWriter.Writer.constructor` | src/reroll_sync/writer.py:100-112 | starts with the loaded counter and an empty account |
| `SingleWriter.Writer.Submit` | src/reroll_sync/writer.py:127-132 | refused once stopped, blocked when a positive size limit is reached, appended in order otherwise |
| `SingleWriter.Writer.StopIntake` | src/reroll_sync/writer.py:119-124 | only the first stop chooses between drain and discard |
| `SingleWriter.Writer.Poll` | src/reroll_sync/writer.py:194-203 | at most one operation moves from the queue to the batch, in order; the first of a batch sets its deadline |
| `SingleWriter.Writer.ApplyOp` | src/reroll_sync/writer.py:274-286 | a raise restores the savepoint but not the counter |
| `SingleWriter.Writer.CommitBatch` | src/reroll_sync/writer.py:268-272 | on success the whole batch is committed and its outcomes are the operations' own; on failure nothing is |
| `SingleWriter.Writer.ResolveFlushed` | src/reroll_sync/writer.py:234-235 | a committed batch is answered, each operation once |
| `SingleWriter.Writer.FailFatally` | src/reroll_sync/writer.py:248-266 | a failed commit answers the batch with the error and the queue as dropped, and ends the thread |
| `SingleWriter.Writer.DiscardPending` | src/reroll_sync/writer.py:294-305 | everything left is answered as dropped, once each |
| `SingleWriter.Writer.FlushIfDue` | src/reroll_sync/writer.py:204-235 | a batch that is full, past its deadline, or last of a drain is committed whole and answered in the same step, any other is left alone; a failed commit ends the thread without a trace |
| `SingleWriter.Writer.MaybeExit` | src/reroll_sync/writer.py:237-242 | ends exactly when stopping and either discarding or nothing is open; what is discarded is answered as dropped |
| `SingleWriter.Writer.Turn` | src/reroll_sync/writer.py:193-243 | one turn keeps the books balanced; what it leaves open is neither full nor past the deadline set when it was begun; a turn after a drain request shortens the queue or ends |
| `SingleWriter.Writer.Finish` | src/reroll_sync/writer.py:187-246 | after a stop request the thread ends with every submitted operation answered; a drain whose commits succeed has applied them all |
| `SingleWriter.Writer.CommittedIs` | src/reroll_sync/writer.py:268-286 | in every state the committed database is the first operations submitted, in order, and a reply was given only for those |
| `SingleWriter.TraceIsFinal` | src/reroll_sync/writer.py:268-286 | the step-by-step trace ends where folding the operations ends |
| `SingleWriter.OnlySurvivorsCount` | src/reroll_sync/writer.py:274-286 | the committed database is what the operations that did not raise produce on their own |
| `SingleWriter.FinalIsRunAll` | src/reroll_sync/writer.py:268-272 | with the pipeline's operations this is the run the rules and the feed are about |
| `SingleWriter.BatchingIrrelevant` | src/reroll_sync/writer.py:215-224 | how operations are cut into batches does not change the result |
| `Dispatch.Dispatcher.Claim` | src/reroll_sync/dispatcher.py:312-341 | returns the page past the cursor as items with the columns of their rows, resets the cursor on a short page, and puts exactly the returned ids in flight |
| `Dispatch.Dispatcher.Release` | src/reroll_sync/dispatcher.py:343-345 | takes one id out of one stage's set |
| `Dispatch.ClaimSound` | src/reroll_sync/dispatcher.py:710-744 | a claim returns only claimable rows nobody holds: lower lanes first, then by project, then by id |
| `Dispatch.EligibleIff` | src/reroll_sync/dispatcher.py:710-744 | eligible is exactly: in the state of the stage, not in flight, not quarantined, and with no due time ahead of the clock |
| `Dispatch.ClaimSplits` | src/reroll_sync/dispatcher.py:690-707 | a full page leaves exactly the rest of the sweep past its last row; a short page was all of it |
| `Dispatch.SweepIsSortedScan` | src/reroll_sync/dispatcher.py:312-341 | from a reset cursor the claims up to the first short page are the eligible rows sorted by lane, project, id, each once, for any page sizes and releases |
| `Dispatch.NoDoubleClaim` | src/reroll_sync/dispatcher.py:312-345 | a claimed id is not returned again until released, whatever the tables do |
| `Dispatch.ClaimedIsInFlight` | src/reroll_sync/dispatcher.py:336-341 | what a claim returns is in flight from then on |
| `Reprocess.ReprocessVersion` | src/reroll_sync/dispatcher.py:427-457 | the two-phase campaign without cursor puts back exactly the live wheels with older repodata or an older retryable skip, once each, deletes exactly those skips, touches nothing else; total and cleared skips are the previewed counts |
| `Reprocess.ReprocessProject` | src/reroll_sync/dispatcher.py:395-409 | the id-paged campaign puts back exactly the wheels of the project that are not DELETED, leaves every other row and its side rows alone, and returns their number, which is the previewed count |
| `Reprocess.SkipsCleared` | src/reroll_sync/dispatcher.py:837-844 | the skips rows deleted are exactly those previewed |
| `Reprocess.ChunkDone` | src/reroll_sync/dispatcher.py:867-895 | a chunk requeues exactly its ids and removes exactly their side rows |
| `StateCampaign.ReprocessState` | src/reroll_sync/dispatcher.py:411-425 | exactly the wheels of the state are put back, DELETED matching none; the total is the previewed count if and only if no row comes twice, which can only happen in NEED_CONVERT |
| `StateCampaign.ReprocessSkipped` | src/reroll_sync/dispatcher.py:378-393 | the skipped-only campaign puts back exactly the SKIPPED wheels, each counted once, and keeps their skips rows |
| `StateCampaign.FirstPage` | src/reroll_sync/dispatcher.py:753-772 | the first page decides: if no row below lane 1 lands past it, none ever will |
| `StateCampaign.NeedConvertCountsTwice` | src/reroll_sync/dispatcher.py:867-895 | one fresh lane-0 NEED_CONVERT wheel and a page of one: two pages return it, two chunks update it, each counting one, where the preview says one; the third page is empty |
| `IsoTime.IsoOrder` | src/reroll_sync/dispatcher.py:898-899 | text order of ISO timestamps is time order, with the fraction left out when zero |
| `IsoTime.IsoLooks` | src/reroll_sync/dispatcher.py:898-899 | the text of a moment without a fraction, in full |
| `IsoTime.FractionLooks` | src/reroll_sync/dispatcher.py:898-899 | and of a fraction: six digits, then the offset |
| `IsoTime.OrdinalOrder` | src/reroll_sync/dispatcher.py:898-899 | calendar day numbers order dates as year, month, day do |
| `IsoTime.MomentExists` | src/reroll_sync/dispatcher.py:898-899 | every microsecond of the years 1 to 9999 is some date and time of day |
| `IsoTime.MomentUnique` | src/reroll_sync/dispatcher.py:898-899 | and only one |
| `Retry.TextOrder` | src/reroll_sync/dispatcher.py:898-899 | comparing the stored texts of two clock readings compares the readings, to the microsecond |
| `Retry.DueStamps` | src/reroll_sync/dispatcher.py:611-612 | the due time lies between half and three halves of the scheduled delay after the failure, half-even rounding included |
| `Retry.BackoffBounds` | src/reroll_sync/dispatcher.py:167-181 | the delay is between half and three halves of the documented schedule (30 s doubled up to 6 h, written out) and reaches both ends |
| `Retry.NominalDoubles` | src/reroll_sync/dispatcher.py:167-181 | the delay before jitter starts at 30 s and doubles up to 6 h |
| `Retry.NominalIsScheduled` | src/reroll_sync/dispatcher.py:167-181 | it is the documented schedule, delay by delay |
| `Retry.JitterSpreads` | src/reroll_sync/dispatcher.py:174-181 | due times of failures of the same moment differ in proportion to the draws; the middle draw waits the scheduled delay |
| `Retry.StampIs` | src/reroll_sync/dispatcher.py:898-899 | a clock reading is counted from 1970 in microseconds, rounded to the nearest, ties to even |
| `Retry.RetriesCount` | src/reroll_sync/dispatcher.py:567-623 | k retries, k at most the maximum, change one work row: attempts k and the due time |
| `Retry.BacksOff` | src/reroll_sync/dispatcher.py:726-731 | after k failures the wheel is unchanged, attempts are k, and a claim may return it exactly from its stored due time on, which is at least half the scheduled delay after the failure |
| `Retry.RetryQuarantines` | src/reroll_sync/dispatcher.py:587-608 | retry max + 1 quarantines the wheel and writes the quarantined work row |
| `Retry.StaysQuarantined` | src/reroll_sync/dispatcher.py:726-731 | over any run of operations that does not free it, no claim of the stage returns a quarantined wheel |
| `Retry.FreedIsClaimable` | src/reroll_sync/daemon/unquarantine.py:121-145 | unquarantine makes it claimable for fetch, reprocess for convert |
| `RateLimiter.RefillBounds` | src/reroll_sync/ratelimit.py:121-126 | a refill adds at most rate times elapsed, never exceeds the burst, and a clock going backwards adds nothing |
| `RateLimiter.TokenBucket.TryAcquire` | src/reroll_sync/ratelimit.py:128-136 | one locked attempt of a bucket |
| `RateLimiter.TokenBucket.TimeUntilAvailable` | src/reroll_sync/ratelimit.py:138-148 | the wait of one bucket, with the refill it performs |
| `RateLimiter.AttemptKeeps` | src/reroll_sync/ratelimit.py:248-258 | an attempt touches one child and the global bucket; a refused one leaves the child exactly its refilled tokens |
| `RateLimiter.AttemptIff` | src/reroll_sync/ratelimit.py:248-258 | an attempt is granted if and only if unpenalised, the global bucket holds the request, and the reserve does or every sibling has gone unasked for as long as one of its tokens takes to refill |
| `RateLimiter.HierarchicalLimiter.TimeUntilSiblingsIdle` | src/reroll_sync/ratelimit.py:263-280 | the loop over the siblings returns the least wait after which each of them has gone unasked for as long as one of its tokens takes to refill |
| `RateLimiter.IdleWaitIs` | src/reroll_sync/ratelimit.py:263-280 | waiting that long, and no shorter, makes every sibling idle |
| `RateLimiter.HierarchicalLimiter.TryTakeLocked` | src/reroll_sync/ratelimit.py:248-258 | reserve with roll-back, or borrowing, on the real buckets |
| `RateLimiter.HierarchicalLimiter.TimeUntilLocked` | src/reroll_sync/ratelimit.py:282-301 | the computed wait on the real buckets |
| `RateLimiter.HierarchicalLimiter.Acquire` | src/reroll_sync/ratelimit.py:205-228 | the acquire loop, turn by turn |
| `RateLimiter.AcquireGrantsOnce` | src/reroll_sync/ratelimit.py:205-228 | one call grants its tokens once if it returns true and none otherwise, however often it was refused |
| `RateLimiter.GlobalRateBound` | src/reroll_sync/ratelimit.py:121-136 | over any interleaving by any children the tokens granted in a window are at most global burst plus rate times the window |
| `RateLimiter.ConfiguredRateBound` | src/reroll_sync/ratelimit.py:182-203 | the same for a limiter as it is configured: at most max(1, R/60) plus R/60 per second |
| `RateLimiter.StartsFull` | src/reroll_sync/ratelimit.py:182-203 | every bucket starts full with one second of its own rate, and with one token if that is less |
| `RateLimiter.UnpenalizedWaitIsPositive` | src/reroll_sync/ratelimit.py:282-301 | a refused unpenalised child is told never, or a strictly positive wait |
| `RateLimiter.ZeroWaitIff` | src/reroll_sync/ratelimit.py:298-301 | a zero wait is computed if and only if the child is penalised, every sibling is idle by the same measure and the global bucket could serve it |
| `RateLimiter.PenalizedWaitsZero` | src/reroll_sync/ratelimit.py:298-301 | a penalised lone child in front of a full global bucket is told to wait zero seconds |
| `RateLimiter.TwoWaitsSuffice` | src/reroll_sync/ratelimit.py:205-228 | if nobody else acts, a request within the global burst is granted after at most two computed waits |
| `HandoffQueue.ByteBudgetedQueue.Put` | src/reroll_sync/fetch.py:347-360 | wait, refuse or enqueue, exactly as the budget and the close flag say |
| `HandoffQueue.ByteBudgetedQueue.Get` | src/reroll_sync/fetch.py:362-372 | pops the oldest item and keeps its bytes charged |
| `HandoffQueue.ByteBudgetedQueue.Release` | src/reroll_sync/fetch.py:374-380 | frees the bytes and wakes one sleeper |
| `HandoffQueue.ByteBudgetedQueue.Close` | src/reroll_sync/fetch.py:382-389 | wakes every sleeper and drops no item |
| `HandoffQueue.StepKeeps` | src/reroll_sync/fetch.py:347-389 | every critical section keeps the invariant |
| `HandoffQueue.EveryInterleaving` | src/reroll_sync/fetch.py:347-389 | charged bytes are queued plus held; above budget only with exactly one non-empty item outstanding; FIFO; a sleeping producer waits for something queued or held |
| `HandoffQueue.CloseLosesNothing` | src/reroll_sync/fetch.py:382-389 | after a close nothing is accepted and everything queued is still handed out in order |
| `InFlight.ClaimBatch` | src/reroll_sync/fetch.py:549-607 | bulk claim: every claimed item meets exactly one fate, only ready items stay in flight, each returned once with bytes hashing to its blob, in block order |
| `InFlight.BlockOrderIs` | src/reroll_sync/fetch.py:576-593 | a batch is read segment by segment and block by block, so each block is decompressed once |
| `InFlight.GroupByDigest` | src/reroll_sync/fetch.py:563-573 | items without a blob are released, the others grouped by digest, each once |
| `InFlight.GroupByBlock` | src/reroll_sync/fetch.py:575-587 | items without a location are retried, the others grouped by segment and block, each once |
| `InFlight.ReadBlocks` | src/reroll_sync/fetch.py:589-607 | blocks in order: read back, retried when the segment is missing, skipped when corrupt |
| `InFlight.DispatchBatch` | src/reroll_sync/daemon/stages/fetch.py:102-170 | fetch batch: handed off, answered, abandoned or released, exactly one of them, and only handed-off items stay in flight |
| `InFlight.Collect` | src/reroll_sync/daemon/stages/fetch.py:140-159 | the completion loop, left early on shutdown |
| `InFlight.AbandonPending` | src/reroll_sync/daemon/stages/fetch.py:172-192 | every pending item is released |
| `ChunkedScan.Scan` | src/reroll_sync/fsck.py:175-220 | yields every row once in cursor order in max(1, ceil(n / chunk)) reads |
| `ChunkedScan.CountDuplicates` | src/reroll_sync/fsck.py:583-668 | the windows together count exactly the rows one global GROUP BY would |
| `ChunkedScan.ViolatingIff` | src/reroll_sync/fsck.py:575-580 | a row is counted if and only if another row has its number with a different timestamp |
| `ChunkedScan.WindowSelects` | src/reroll_sync/fsck.py:627-634 | BETWEEN the ends of a window selects exactly the window's numbers |
| `Ordering.SortedIsTable` | src/reroll_sync/dispatcher.py:738-744 | the reference scan is ascending and holds every row once |
| `Ordering.ScanSplits` | src/reroll_sync/dispatcher.py:690-707 | a full page followed by the scan past its last row is the whole scan |

## Left out

- HTTP client, rate-limit headers, index polling, the bridge lookup and project backoff: network and foreign I/O.
- zstd, msgpack, CRC-32 and sha256 internals: functions with the laws named above.
- SQLite itself: query plans, checkpoints, vacuum, the guarded connection; the `errors` table and log lines.
- `convert.py`, CLI, control socket, metrics, health, configuration.
- Circuit breaker, disk guard, stage loops and shutdown joins; liveness of a `submit` blocked on a full queue.
- The paged reads of `ingest.py` and the unquarantine campaign loop: the same paging as the reprocess campaigns, with easier claims.
- `fsck` checks 16 and 20 (informational) and 18 (the writer's counter against the stored maximum).
- The example ids `fsck` lists next to a count, and the acquired and denied counters of the limiter.
- `TokenBucket.drain` and the blocking `acquire` of a lone bucket: the limiter calls neither.
- Floating-point rounding of the clock and of token arithmetic: reals are exact.
- Ordered dictionaries are maps with an order, or are walked in any order where the order does not show in the result; tombstones of a gone project are written in id order.
- Values that `struct.pack` refuses are a precondition of sealing.
- Retry.BacksOff: time is read in the microseconds of the stored text; floating-point addition of the delay is exact here.
- RateLimiter.HierarchicalLimiter.Acquire: a call is followed for any finite number of turns; the condition wait only separates the clock values of one turn from the next.
- InFlight.ClaimBatch: reads go through the uncached reference read, which `SegmentReading.SegmentReader.Read` refines.
- Pipeline.OpKeepsRules: a plan is applied to the rows it was built from; for older rows see `StalePlans.StalePlanKeepsRulesIff`, which covers the plain rules.
- Convergence.SyncMirrorsPage: the plan is applied to the rows it was built from.
- FsckChecks.Keeps1bIff and the other conditions there: a sync is a plan applied to the rows it was built from.
