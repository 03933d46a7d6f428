# Verified model of the transfer engine

parsync copies files from a local or remote source into a destination tree. This
project models the parts of it that decide whether the right bytes arrive, and
proves what they promise. Nothing here runs the program; Dafny 4.11 checks the
whole project with `dafny verify dfyconfig.toml`.

## What is modelled

**Delta pipeline** (`Checksum`, `Overflow`, `Hex`, `DeltaProtocol`, `Blocks`, `Signature`,
`Matcher`, `Patch`, `DeltaPipeline`). The basis is cut into signed blocks, a
window slides over the source with a rolling checksum and an index by weak hash,
and the resulting ops are replayed against the basis. The fast matcher is proved
to emit exactly the ops of a plain one that recomputes the weak hash at every
offset and scans the blocks in order; the plan always replays, with as many bytes
as the source has, and to the source itself unless a window and a block share a
strong hash without being equal. The strong hash is a parameter of every
operation, so nothing is assumed about it.

**Transfer of one file** (`State`, `History`, `Source`, `Assembly`, `ChunkPlan`,
`Groups`, `Tearing`, `ChunkFetch`, `Workspace`, `ChunkTransfer`, `Resume`, `Routes`,
`FastPaths`, `DeltaTransfer`, `Arrivals`, `Transfer`, `ResumedRuns`). The state store is
a class over its three tables and the part files. The source is a file with a fixed
history of versions that moves forward at any moment, also between two reads of one
chunk; every reading goes from front to back, so it never meets an older version behind
a newer one. Reads may come back short or fail, writes may be short or fail half way,
the chunks of a group arrive in any order, one group after the other, a delta is planned
locally, by the helper, by the script or by a foreign program, and every other step of a
transfer may fail too, before any store operation and around each disk operation. Over
all of that:

- the chunk path publishes a file each of whose chunks is either the recorded one
  of the old part file or was read from the source during the transfer;
- from a source that does not change the result is the source *if and only if*
  the recorded chunks it kept were right in the part file the chunk path found, and
  an attempt that stops before the rename leaves right rows right, over any number
  of runs with changing options, as long as strict runs find the listed time;
- strict durability (fresh modification times taken for granted) publishes only
  bytes of the listed version over RDMA and over the chunk path, whatever is written
  in between; a delta does when its planner reports the time it finds, and a clone
  does not: the paths for which it holds are characterised exactly, and a caller can
  tell beforehand whether the others are ruled out;
- without recorded chunks for the planned size, time and chunk size, whatever RDMA,
  clone and delta do first, a transfer that succeeds from a source that does not
  change delivers the source, or (only by the delta path) a file of the same length
  and digest;
- fewer failed or short reads than the number of tries never make a transfer fail.

**A whole run** (`Planning`, `Jobs`, `Sync`): planning, transferring, removing the state.
A run whose sources stay smooth succeeds, and one job that fails does not stop the others.
A successful run, resumed or not, leaves every listed file brought over, up to date, or
(resumed) finished by a run before and left as it is. A second run queues exactly the
transferred files whose time is before the epoch, when `update` is off, and the skipped
ones that were not up to date. A run that does not succeed keeps its state: everything
about files it did not queue is as planned, no file passes for finished that was not
brought over, and a resumed run queues exactly what is left, with the chunks recorded so
far.

**RDMA protocol** (`Packet`, `Rdma`): framing, the receiver as a function of the
bytes of each connection (whatever pieces they arrive in), the sender, and their
composition behind stray connections.

**Connection pool** (`ConnectionPool`): threads interleaving at the mutex, with
notifications and spurious wakeups.

**Smaller loops**: the one-star pattern matcher (`Glob`), the incremental parser
of `find` output (`FindParser`), the directory walk and the way back from a listed
path (`Walk`), the check of destination paths (`DestinationPath`).

## What does not hold

These are consequences of the code as it is; each is proved, with the exact
condition where there is one.

- `mark_finished` keeps the chunk rows while the part file they describe becomes
  the destination. A file that is published and then transferred again through
  the chunk path (its destination lost, or its time not set because the step
  after the rename failed) becomes zeros: `ResumedRuns.TransferAgain`,
  `Resume.RowsOutliveThePartFile`.
- A delta plan that is refused while it is applied removes or rewrites the part file
  and keeps the chunk rows; the chunk path of the same transfer then succeeds and
  brings the source exactly when the recorded chunks are right in what was left:
  `ResumedRuns.RefusedPlanThenChunks`, `ResumedRuns.FailedDeltaPublishesPart`.
- An RDMA copy that ends in an error keeps the row of a file planned as one chunk
  while its part file has been replaced; the next run publishes that part file when
  it plans one chunk too: `ResumedRuns.FailedRdmaThenChunks`.
- Strict durability that finds the source changed removes the part file before it
  resets the rows. Stopped in between it leaves rows over a missing part file, and a
  later run publishes zeros: `ResumedRuns.TruthfulRun`, `ResumedRuns.TransferOver`.
- Without strict durability a transfer can publish a file that no version of the
  source ever was. Across one change that keeps the size it is sure to publish one of
  the two versions exactly when they differ in one byte at most
  (`Tearing.LaxIsAVersionIff`). Over any history it is sure to publish the listed one
  unless some version differs from it within its size and a version that is not older
  is long enough for the reading to go on: up to the end of the chunk when its group is
  the last one, up to the end of the file otherwise (`Tearing.LaxIsListedIff`,
  `Arrivals.ChunksAreListedIff`).
- Strict durability holds for a path exactly as `Arrivals.ListedIffPathTells` says. Not
  for the clone, which looks at neither size nor time (`Arrivals.CloneIsListedIff`);
  not for a delta planned by the script, which echoes the time it was asked with
  (`Arrivals.ScriptPlansListedIff`); and not for a delta planned by the helper when the
  listed time is zero, which the helper also reports for times before the epoch. Such a
  path is closed when the options exclude it; a delta also when the size modulo the
  block size exceeds the literal limit. `Transfer.TransferStrictly` is the guarantee when
  these paths are ruled out.
- Under `resume` a row that an interrupted run has marked finished makes the planner skip
  a file of the listed size and time whatever the destination has become since; a
  successful run leaves a listed file stale exactly then: `Planning.SkippedIff`,
  `Sync.LeftStaleIff`.
- The pattern matcher tests literal equality before `*`; it is right for every
  pattern exactly when the text has no `*`: `Glob.CorrectIffNoStar`.
- The native matcher and the script fallback read a block digest alike exactly when
  it has 32 characters and no leading `+`, or when the native one rejects it; any
  other digest makes them plan differently for some source:
  `Matcher.SameDigestIff`, `Matcher.DialectsAgreeIff`.
- The rolling checksum's `u32` arithmetic overflows for windows over 16,842,774
  bytes: `Overflow.NoOverflowIff`. With wrapping arithmetic it stays right.
- Times before the epoch read back as zero, so such files are queued again:
  `Sync.BroughtIsQueuedAgainIff`.
- The destination check stops at the first component that does not exist; alone it
  accepts a path that climbs over the root behind it
  (`DestinationPath.AloneItLetsOut`). With the relative check before it, it does not:
  `DestinationPath.StaysBelowIffDownward`.
- The documentation calls the tool resumable (README.md:3). The code records chunks
  only after every group of an attempt has succeeded (src/sync.rs:754-822), so an
  attempt interrupted while reading records none of them and a resumed run reads
  the file again; the model follows the code (a failed `ChunkTransfer.Fetch` leaves
  the tables as they were).

## Model

| member | source | states |
|---|---|---|
| Checksum.RollingChecksum.constructor | src/delta/checksum.rs:11-23 | the fold with u32 wrap-around gives the checksum of the buffer |
| Checksum.RollingChecksum.Roll | src/delta/checksum.rs:25-30 | after any roll the state is that of a new checksum on the window moved by one byte, for every window length |
| Checksum.RollingChecksum.Sum | src/delta/checksum.rs:32-34 | the sum is the weak hash of the current window |
| Checksum.SumsRoll | src/delta/checksum.rs:25-30 | how the two exact sums change when a window moves by one byte |
| Checksum.SumsAppend | src/delta/checksum.rs:14-17 | how the two exact sums change when a byte is appended |
| Overflow.NoOverflowIff | src/delta/checksum.rs:11-30 | no u32 operation of `new` on any buffer of n bytes, nor of `roll` on a window of n bytes, overflows exactly when n is at most 16,842,774 |
| Overflow.FitsIffUnwrapped | src/delta/checksum.rs:14-17 | a step of `new` stays in u32 exactly when wrapping changes none of its results |
| Signature.BuildSignature | src/delta/signature.rs:35-66 | entry k signs block k, and no byte of the basis is left unsigned |
| Signature.ChooseBlockSize | src/delta/signature.rs:22-33 | the configured size when it is at least 1024; otherwise 32 KiB up to 2048 blocks, 64 KiB up to 16384 blocks, 128 KiB beyond |
| Hex.ParseIffFormat | src/delta/matcher.rs:43-45 | a plain 32-character digest parses to a value exactly when it is, in lower case, the text of that value |
| Hex.FormatInjective | src/sync.rs:1334-1336 | comparing digest texts compares digests |
| Matcher.IndexByWeak | src/delta/matcher.rs:17-20 | every bucket holds the blocks of its weak hash, in block order |
| Matcher.FindCandidate | src/delta/matcher.rs:41-49 | the first candidate with the length and strong hash of the window |
| Matcher.Lookup | src/delta/matcher.rs:39-50 | bucket and strong hash find the block a linear scan finds |
| Matcher.Slide | src/delta/matcher.rs:74-79 | the checksum, while there is one, stands for the window one byte further |
| Matcher.EmitCopy | src/delta/matcher.rs:52-63 | pending literal and copy continue the plain plan behind the window |
| Matcher.Advance | src/delta/matcher.rs:34-80 | one turn of the loop moves forward and stays on the plain plan |
| Matcher.MatchWindows | src/delta/matcher.rs:22-80 | the rolling, indexed pass emits the ops of the plain matcher |
| Matcher.BuildDeltaOps | src/delta/matcher.rs:11-100 | the plan is the plain matcher's; literal and copied bytes add up to the source; digest, size and time are the source's |
| Matcher.FirstMatchIsEarliest | src/delta/matcher.rs:42-49 | the chosen block is the earliest that matches, and none is chosen only when none matches |
| Matcher.PlanTotals | src/delta/matcher.rs:63-88 | copied and literal bytes of every plan add up to the source |
| Matcher.BuildScriptOps | src/remote.rs:479-517 | the script plans what the plain matcher plans in its reading of digests, and echoes the time it was asked with |
| Matcher.ScriptWindows | src/remote.rs:489-507 | its loop, which computes the weak hash anew at every offset, emits the ops of the plain matcher |
| Matcher.DialectsAgree | src/remote.rs:484-507 | the script plans what the native matcher plans when every block digest is read alike |
| Matcher.SameDigestIff | src/remote.rs:494-496 | the two accept the same strong hashes for a digest text exactly when it is 32 characters without a leading plus, or rejected by the native one |
| Matcher.DialectsPart | src/remote.rs:494-496 | every other digest text makes them plan differently for some source and strong hash |
| Matcher.DialectsAgreeIff | src/remote.rs:484-507 | for a block with a given digest text, they plan the same for every source exactly when it is read alike |
| Patch.ApplyDeltaOps | src/delta/patch.rs:10-59 | the output, its length and digest are those of the replayed ops; an error of an op is that of the first op that has none, and leaves what the ops before it wrote |
| Patch.OpsRefusedIff | src/delta/patch.rs:25-55 | a copy is refused exactly when its range is not inside the basis and delivers that range; a literal exactly when its text does not decode |
| Patch.ReplayConcat | src/delta/patch.rs:25-55 | replaying a list is replaying its parts in order |
| DeltaPipeline.WireIsPlain | src/sync.rs:1249-1258 | the sent digests parse back to the strong hashes, and the native matcher and the script read them alike |
| DeltaPipeline.WireAccepts | src/delta/matcher.rs:43-45 | a sent block accepts a window exactly when length, weak and strong hash agree |
| DeltaPipeline.RoundTrip | src/delta/patch.rs:25-58 | every plan made from a basis's signature replays without error to the source's length, and to the source when no window collides with a block |
| DeltaPipeline.ScriptRoundTrip | src/remote.rs:484-507 | the same, both halves, for plans of the script fallback |
| DeltaPipeline.LiteralsAtLeast | src/delta/matcher.rs:34-88 | no plan, native or script, costs fewer literal bytes than the size modulo the block size |
| DeltaPipeline.GreedyFindsAll | src/delta/matcher.rs:34-88 | a source of full basis blocks in any order and a short tail costs only the tail |
| DeltaPipeline.UnchangedFileIsCheap | src/delta/matcher.rs:34-88 | an unchanged file costs its size modulo the block size |
| Blocks.BlocksCover | src/delta/signature.rs:43-59 | blocks in order, glued, are the file |
| Blocks.WritesCommute | src/sync.rs:754-808 | writes of two different chunks give one result in either order |
| ChunkPlan.RangeIsBlock | src/sync.rs:756-758 | the offset and length computed for a chunk are those of the block of its number, inside the file and inside u64 |
| ChunkPlan.ChunksPartition | src/sync.rs:1747-1752 | every byte lies in exactly one planned chunk; an empty file has one |
| ChunkPlan.MissingChunks | src/sync.rs:736-738 | the missing chunks are those not completed, each once, ascending |
| ChunkFetch.WriteAllAt | src/sync.rs:2071-2087 | short writes are continued; what an error leaves is a prefix of the chunk in its place |
| ChunkFetch.FetchChunk | src/sync.rs:755-807 | only the chunk's own block changes; success means it was read from the source; fewer read failures than tries do not fail it |
| ChunkFetch.FetchGroup | src/sync.rs:755-807 | in any order and with any failures, arrived chunks hold what was read, untouched chunks what they held |
| ChunkFetch.FetchMissing | src/sync.rs:754-808 | every missing chunk is fetched exactly once, group by group, each group after the one before it; or a failure is reported and nothing else is written |
| Assembly.AssembledIffIntact | src/sync.rs:683-871 | from a still source the assembled file is the source exactly when the kept chunks were |
| Tearing.FetchedIsSeen | src/sync.rs:754-808 | keeping nothing, every byte was read from the source during the transfer |
| Assembly.StrictIsListedVersion | src/sync.rs:831-833 | with fresh times, a source that still shows the listed size and time gave only bytes of the listed version |
| Tearing.TornIsFetched | src/sync.rs:754-808 | a file of the listed version with one byte of a later one, and the rest of its chunk or of the file of a still later one, can be fetched |
| Tearing.LaxIsAVersionIff | src/sync.rs:831-857 | across one change that keeps the size, what is fetched is always one of the two versions exactly when they differ in at most one byte, whatever the chunks and groups |
| Tearing.LaxIsListedIff | src/sync.rs:754-857 | what is fetched is always the listed version exactly when no version that differs from it can be read on from: to the end of the chunk in the last group, to the end of the file before |
| Assembly.AllKeptIsBase | src/sync.rs:736-738 | rows naming every chunk: nothing is read and the part file is published as it is |
| State.Upserted | src/state.rs:250-289 | row and chunks are kept exactly when size, time and chunk size are the same; a changed plan is not finished and has no digest; no other key changes |
| State.Marked | src/state.rs:300-315 | recording needs the file row; it adds the chunks and changes no other key |
| State.Reset | src/state.rs:322-333 | no chunk stays recorded and the file is not finished; no other key changes |
| State.Finished | src/state.rs:335-351 | the chunk rows stay |
| State.FinishingKeepsChunks | src/state.rs:344-351 | after finishing, planning the same file again finds the same chunks recorded |
| State.PruneForgetsUnlisted | src/state.rs:353-379 | pruning twice is pruning once; a session survives exactly when its file is listed or never had a row |
| State.StateStore.ClearAll | src/state.rs:189-194 | all rows go, part files stay |
| State.StateStore.UpsertFile | src/state.rs:250-289 | the new tables |
| State.StateStore.MarkChunksCompleted | src/state.rs:300-315 | all of the batch or nothing |
| State.StateStore.ResetProgress | src/state.rs:322-333 | the new tables |
| State.StateStore.MarkFinished | src/state.rs:335-351 | the new tables; nothing without a row |
| State.StateStore.PruneToKeys | src/state.rs:353-379 | exactly the rows of listed files and the part files of listed files stay |
| State.StateStore.PrunePartials | src/state.rs:368-376 | exactly the part files of listed files stay |
| State.StateStore.UpsertDeltaSession | src/state.rs:381-410 | the session is replaced with its op index at zero |
| State.StateStore.MarkDeltaProgress | src/state.rs:435-442 | only the session's op index changes |
| State.StateStore.MarkDeltaFinished | src/state.rs:444-451 | only the session's flag changes |
| State.StateStore.ClearDeltaSession | src/state.rs:453-460 | only this session goes |
| Source.RemoteFile.ReadRange | src/remote.rs:649-668 | every byte is one the source had at its position while it was read, and none comes from an older version than the byte before it; a still source is read to the length asked for or its end |
| Source.RemoteFile.Stat | src/remote.rs:670-678 | size and time of the version current at the end |
| Source.RemoteFile.FastCopy | src/remote.rs:1737-1768 | a clone is the whole of one version |
| Source.RemoteFile.GenerateDeltaPlan | src/remote.rs:680-703 | the plan is the matcher's or the script's for a content read in that time; its time is that of a version not older than it, or the requested one when the script planned |
| Source.RemoteFile.ReadAll | src/remote.rs:690-691 | the whole file, front to back, up to an end of it; a still source as it is |
| History.WholeIsListedIff | src/remote.rs:480-511 | reading the whole file and finding the listed size brings the listed content for sure exactly when no differing version is followed by one that reaches the size and one that ends there |
| Source.RemoteFile.RdmaCopy | src/remote.rs:946-1050 | a reported copy was read from the source and has the reported length |
| History.SameTimeMeansStill | src/sync.rs:831-833 | with fresh times, showing an old time again means not having changed |
| Workspace.Site.Publish | src/sync.rs:859-885 | before the rename nothing has changed; after it the destination is the part file, which is gone |
| Workspace.Site.RecordFinished | src/sync.rs:891-901 | the row is finished, with the digest of what was published when asked for |
| ChunkTransfer.PlannedChunkSize | src/sync.rs:685-689 | never zero; a file under the threshold is one chunk, a larger one has chunks of the smaller of a read and the configured size |
| ChunkTransfer.ReadWidth | src/sync.rs:723-728 | one chunk at a time below 32 MiB, otherwise as many as configured |
| ChunkTransfer.Prepare | src/sync.rs:684-720 | the listed size was seen, the file is planned and its part file has the listed size, keeping its bytes; another size stops it |
| ChunkTransfer.FillPart | src/sync.rs:722-808 | completed chunks are untouched, the others read; with no failure the file is assembled, and with nothing completed it was read in groups |
| ChunkTransfer.Fetch | src/sync.rs:722-822 | success: the part file is assembled and every chunk recorded; failure: tables as before and recorded chunks untouched |
| ChunkTransfer.Gather | src/sync.rs:684-822 | planned, opened and fetched; or stopped with the destination untouched and truthful rows |
| ChunkTransfer.Confirm | src/sync.rs:828-857 | with strict durability, either the listed size and time are seen again or everything about the file is forgotten; stopped in between, only its part file is gone |
| ChunkTransfer.Attempt | src/sync.rs:683-918 | one round: published from kept and read chunks and noted finished; stopped with the destination as it was, truthful rows and nothing recorded lost, or half forgotten after a change; or forgotten |
| ChunkTransfer.TransferChunks | src/sync.rs:683-921 | the same over two rounds at most, the second exactly after a change; without failures beyond the tries it succeeds; an error leaves nothing newly finished |
| Resume.PublishedIffIntact | src/sync.rs:728-871 | a resumed transfer publishes the source exactly when the chunks it kept were the source's |
| Resume.TruthfulRowsPublishSource | src/sync.rs:728-871 | truthful rows and a still source give the source |
| Resume.StoppedStaysTruthful | src/sync.rs:683-864 | stopping before the rename keeps rows truthful |
| Resume.StrictPublishesListed | src/sync.rs:831-871 | strict durability publishes the listed version exactly when the kept chunks were its chunks |
| Resume.AllRecordedPublishesPart | src/sync.rs:728-738 | rows naming every chunk publish the part file as it is |
| Resume.RowsOutliveThePartFile | src/state.rs:344-351 | with the part file gone they publish zeros, the source only when it is all zeros |
| ResumedRuns.ResumeUntilPublished | src/sync.rs:291-304 | over any number of stopped runs in which neither RDMA nor delta applies to the file, the destination stays; if strict runs find the listed time, truthful rows stay truthful and the run that publishes publishes the source |
| ResumedRuns.ResumeOnce | src/sync.rs:291-304 | the same for one run, with what it can leave when the time is another; without failures beyond the tries it publishes |
| ResumedRuns.TruthfulRun | src/sync.rs:683-918 | from truthful rows and a still source the chunk path publishes the source, or stops with truthful rows, or (strict, another time) with rows over a missing part file |
| ResumedRuns.TransferOver | src/sync.rs:728-738 | a transfer that finds every chunk recorded and no part file publishes zeros, unless strict durability finds the source changed |
| ResumedRuns.TransferAgain | src/sync.rs:728-738 | a second transfer of a published file over the chunk path makes it zeros, with the same exception |
| ResumedRuns.FailedDeltaPublishesPart | src/sync.rs:657-738 | a transfer whose delta failed, with every chunk recorded, publishes the part file that failure left: zeros after a wrong digest, the ops before the bad one after a bad plan |
| ResumedRuns.RefusedPlanThenChunks | src/sync.rs:1320-1347 | a refused plan and then the chunk path, nothing else failing: it succeeds, with the source exactly when the recorded chunks are right in what the plan left |
| ResumedRuns.FailedRdmaThenChunks | src/sync.rs:956-982 | an RDMA copy that ends in an error and then the chunk path: the left part file when the only chunk was recorded, the source otherwise |
| FastPaths.TryRdma | src/sync.rs:924-1129 | when it applies, when it must not fall back, and what it leaves: the file read now; nothing recorded and no part file; or, after an error of the copy or of the clean-up, the row of one chunk over another part file or none |
| FastPaths.SettleRdma | src/sync.rs:986-1029 | a copy that failed, is unavailable or has another byte count publishes nothing; the last two forget the file; an outcome to be cached disables RDMA for the run |
| FastPaths.FinishRdma | src/sync.rs:1031-1103 | a complete copy is published, or forgotten when strict durability finds the source changed |
| FastPaths.TryFastCopy | src/sync.rs:1131-1226 | only with nothing known about the file and neither resume nor delta; publishes one whole version with the listed time |
| DeltaTransfer.AcceptPlan | src/sync.rs:1281-1395 | for any plan: published means within the literal limit, of the listed size and time, replayed from its first op, with the announced digest, the session finished and a row of this file noted; a refusal names the first check that fails and leaves the part file it says; chunk rows stay; without failures the verdict is exact |
| DeltaTransfer.ApplyPlan | src/sync.rs:1320-1347 | the part file is the replayed one with the announced digest; or what was written before the bad op; or removed when only the digest is wrong |
| DeltaTransfer.PlanDelta | src/sync.rs:1242-1279 | the signature covers the destination, the session starts anew, the plan is for a content read front to back in that time; an empty destination has none |
| DeltaTransfer.TransferDelta | src/sync.rs:1228-1409 | a replaced destination was not empty and was rebuilt from a plan that passed every check; a failure keeps the chunk rows and says what became of the part file |
| DeltaTransfer.AcceptedRebuilds | src/sync.rs:1281-1347 | an accepted plan makes a file of the length and digest of the content planned for, and that content unless a block collides |
| DeltaTransfer.AcceptedFits | src/sync.rs:1281-1286 | no plan is accepted when the size modulo the block size exceeds the literal limit |
| DeltaTransfer.SameContentIsAccepted | src/sync.rs:1281-1347 | otherwise a destination that already holds what was read accepts the plan for it |
| DeltaTransfer.SavedIsCopied | src/sync.rs:1396-1408 | the bytes reported as saved are those copied from the old file: all that are not literals |
| Transfer.TryDelta | src/sync.rs:657-663 | the delta path is taken exactly when enabled, the file large enough and the destination there |
| Transfer.TryFastPaths | src/sync.rs:642-655 | RDMA, then the clone; the clone only when not ruled out and RDMA was not tried; a resumed run without RDMA leaves everything as it was |
| Transfer.TransferSlow | src/sync.rs:657-921 | the chunk path after any failure of the delta path, even one after its rename, over the rows and the part file that failure left |
| Transfer.TransferOne | src/sync.rs:616-921 | where the published bytes come from, whatever path, from any recorded state; what the chunk path started from; what is reported; success notes the row finished unless a clone or a delta had none, an error leaves nothing newly finished; other files untouched; an error before the rename leaves the destination; success without failures beyond the tries |
| Arrivals.ArrivedIsSource | src/sync.rs:642-921 | with nothing kept and a still source the destination is the source, or shares its length and digest by a delta not planned by a foreign program |
| Transfer.DeliveredFromStillSource | src/sync.rs:616-921 | from any state: by its chunks the source exactly when the chunks it kept were right where the chunk path started, otherwise the source or a collision |
| Arrivals.ArrivedIsListed | src/sync.rs:831-857 | with fresh times, a path that can tell brings the listed version |
| Arrivals.LaterArrives | src/sync.rs:642-921 | for every job, an open path that cannot tell can bring a later version under the listed time: by a delta to a destination that already holds it |
| Arrivals.ListedIffPathTells | src/sync.rs:642-921 | which paths always bring the listed version, over all destinations and histories: RDMA and chunks with strict durability, deltas whose planner reports the time it finds, and paths closed by the options or the literal limit; not the clone, not the script |
| Arrivals.CloneIsListedIff | src/sync.rs:1131-1181 | for every history, the clone, where it is not ruled out, is sure to bring the listed content exactly when no version up to its moment has another one |
| Arrivals.ChunksAreListedIff | src/sync.rs:754-857 | for every history, the chunks without strict durability are sure to be those of the listed version exactly when no other version tears it |
| Arrivals.ScriptPlansListedIff | src/remote.rs:505-517 | for every history, a script-planned delta that can be accepted is sure to be for the listed content, over all destinations, exactly when the versions do not mislead a reading of the whole file |
| Transfer.TransferStrictly | src/sync.rs:616-921 | strict durability for one transfer, under conditions its caller can check: the listed version arrives, or a collision by delta |
| Planning.SkippedIff | src/sync.rs:571-614 | a file is skipped exactly when it is up to date, or a run before finished it |
| Planning.StoppedIsQueuedAgain | src/sync.rs:593-610 | a queued file that nothing replaced or finished since is queued again: an interrupted plan does not pass for a finished one |
| Planning.NotedIsSkipped | src/sync.rs:593-610 | a file noted finished is skipped by a resumed run |
| Planning.PlanTransfers | src/sync.rs:317-407 | queued are exactly the listed files that should be transferred, each once |
| Planning.OpenState | src/sync.rs:291-304 | unlisted files are forgotten; without resume all rows are |
| Jobs.TransferJob | src/sync.rs:454-464 | a success with usable rows (none recorded for this plan, or right ones and straight to the chunks) brings the file over; an error leaves nothing newly finished; a stop before the rename leaves the old file, and keeps truthful rows and all recorded chunks of a file that goes straight to its chunks |
| Jobs.TransferAll | src/sync.rs:442-496 | what every job left, whichever others failed; every smooth job succeeds; nothing about other files changes |
| Sync.RunSync | src/sync.rs:257-540 | a dry run changes no file; a successful run, resumed or not, removes the state and leaves every listed file settled when the rows it planned with are usable; an unsuccessful one keeps the state: other files as planned, and of each queued one what its job left |
| Sync.BroughtIsQueuedAgainIff | src/sync.rs:1754-1766 | a file brought over is queued again exactly when its time is before the epoch and update is off |
| Sync.SecondRunQueues | src/sync.rs:571-614 | what a second run queues, for every listed file |
| Sync.LeftStaleIff | src/sync.rs:593-610 | a successful run leaves a listed file as it is and not up to date exactly when a run before had finished it and it has changed since |
| Sync.AnyChangeIsMissed | src/sync.rs:593-610 | under resume without verification a finished file is skipped whatever it has become |
| Sync.SyncTwice | src/sync.rs:317-407 | a first run over smooth sources succeeds, and after a successful one a second one queues nothing but such files |
| Sync.ResumeBroken | src/sync.rs:291-407 | a resumed run after one that did not succeed: jobs stopped before the rename are queued again with truthful rows and their recorded chunks, those that succeeded are not, nor is what was skipped before |
| Packet.EncodePacket | src/rdma.rs:263-277 | the bytes of a packet; an error exactly for payloads of 4 GiB and more |
| Packet.FourBytes | src/rdma.rs:263-277 | numbers are written with the most significant byte first |
| Packet.PacketRoundTrip | src/rdma.rs:286-311 | decoding an encoded packet gives it back |
| Packet.DecodeOnlyEncodings | src/rdma.rs:286-311 | what decodes is an encoding, up to the reserved byte |
| Packet.HexEncode | src/rdma.rs:231-239 | two digits per byte |
| Packet.HexDecode16 | src/rdma.rs:241-261 | a text decodes to a token exactly when it is, in lower case, that token's text |
| Packet.HexInjective | src/rdma.rs:231-239 | different tokens have different texts |
| Rdma.Stream.RecvExact | src/rdma.rs:852-885 | exactly the next bytes, whatever pieces they arrive in, or the connection ended early |
| Rdma.RecvPacket | src/rdma.rs:536-563 | the packet at the front of the stream, or the error of that front |
| Rdma.HandlePacket | src/rdma.rs:564-607 | the file is the accepted bytes in a file of the expected size; the step is that of the receiver function |
| Rdma.ServeStream | src/rdma.rs:528-608 | one connection to its end |
| Rdma.ReceiveToPath | src/rdma.rs:503-623 | the result is a function of the bytes of the connections alone; success means the file is what was accepted and has the expected size |
| Rdma.ReceiverIsSafe | src/rdma.rs:523-617 | for any bytes on any connections the file is the concatenation of right-token payloads, each placed at the offset it was sent with, never longer than expected; the counts are those of the packets |
| Rdma.FoundAtOffset | src/rdma.rs:571-590 | every accepted payload is in the file at its own offset |
| Rdma.MisplacedEndsIt | src/rdma.rs:571-603 | the first right-token packet with another offset ends the receive with an error, the file being what was sent in place before it |
| Rdma.PacketsFit | src/rdma.rs:545-552 | no packet longer than the chunk size is taken |
| Rdma.StreamIsSafe | src/rdma.rs:531-608 | the same for one connection, and which packet ends it with which outcome |
| Rdma.SendFile | src/rdma.rs:958-1015 | the file in order, cut anyhow, as DATA packets and one DONE; only for a file of the announced size |
| Rdma.StraysAreDropped | src/rdma.rs:564-569 | connections of other tokens change nothing |
| Rdma.SentIsReceived | src/rdma.rs:523-623 | what the sender sends is received whole, with its byte and chunk counts, behind any stray connections |
| Rdma.RdmaCopy | src/remote.rs:946-1050 | without an interruption the copy succeeds exactly when the helper reports the right byte count, and then the part file is the source |
| ConnectionPool.Pool.TryCheckout | src/remote.rs:1486-1518 | one pass of the checkout loop |
| ConnectionPool.Pool.ConnectFailed | src/remote.rs:1499-1506 | a failed connect gives its slot back |
| ConnectionPool.Pool.Return | src/remote.rs:1522-1530 | a returned connection is idle again |
| ConnectionPool.NextInv | src/remote.rs:1481-1530 | every step of every thread keeps the balance and loses no wakeup |
| ConnectionPool.RunInv | src/remote.rs:1481-1605 | so does every run: idle, held and connecting add up to the created connections, within the limit, and free capacity is matched by notified threads while somebody waits |
| ConnectionPool.NoDeadlock | src/remote.rs:1515-1518 | while a thread waits, another one uses a connection or has been notified |
| ConnectionPool.CheckoutReuses | src/remote.rs:1486-1518 | a connection is opened only while none is idle and the limit allows it, a thread waits only while none is idle at the limit, and otherwise an idle one is taken |
| ConnectionPool.LastReturnedIsReused | src/remote.rs:1487-1527 | the connection returned last is taken next |
| Glob.GlobMatchLoop | src/remote.rs:2213-2242 | sound for all texts, complete for texts without a star, within (p+1)(t+1) steps |
| Glob.CorrectIffNoStar | src/remote.rs:2213-2242 | right for every pattern exactly when the text has no star |
| Glob.StarInTextFails | src/remote.rs:2221-2224 | a pattern that fails, for every text with a star |
| Glob.MatchesHostPatterns | src/remote.rs:2196-2211 | some positive pattern and no negated one matches |
| FindParser.StreamFindEntries | src/remote.rs:1269-1298 | the entries are those of the whole stream split at NUL |
| FindParser.Drain | src/remote.rs:1280-1291 | complete records move from the buffer to the entries, the rest stays |
| FindParser.CuttingIsIrrelevant | src/remote.rs:1273-1292 | however the stream is cut into reads |
| FindParser.RecordIff | src/remote.rs:1903-1934 | a record of any shape is an entry exactly when its type letter is that of a file, a directory or a link, it has a path, and it is not hidden in star mode |
| FindParser.UnsignedIff | src/remote.rs:1966-1972 | a number is read exactly from digits behind an optional plus sign, below the limit |
| FindParser.BadNumbersDefault | src/remote.rs:1936-1953 | unreadable numbers count as size zero, mode 0644 and no owner |
| FindParser.MissingFieldsDefault | src/remote.rs:1936-1958 | and so do missing fields |
| FindParser.RecordRoundTrip | src/remote.rs:1903-1963 | the record written for an entry parses to the entry; nothing is read from one of another type, or hidden in star mode |
| FindParser.ListingRoundTrip | src/remote.rs:1269-1298 | everything `find` writes about anything it finds, cut anyhow into reads, parses to the files, directories and links among it, in order |
| Walk.WalkDir | src/remote.rs:572-629 | the walk lists exactly the nodes that following names other than "." and ".." leads to, each path once, in path order; one level when not recursive |
| Walk.FindIsFollow | src/remote.rs:595-598 | what the walk takes is what following the path leads to, but for "." and ".." |
| Walk.LeadsSomewhereIsPlain | src/remote.rs:595-598 | in a tree without entries of these names nothing is left out |
| Walk.ReadDirectory | src/remote.rs:588-617 | what is listed, what the stack owes and what is unread always add up; the stack gets smaller |
| Walk.SortByPath | src/remote.rs:624 | the same entries in the order of their paths |
| Walk.PathLeIff | src/remote.rs:624 | that order: the first name that differs decides, and a directory precedes what is below it |
| Walk.NameLeIff | src/remote.rs:624 | among names the first byte that differs decides |
| Walk.BelowIsFound | src/remote.rs:587-622 | an entry is listed below a directory exactly when it is found there |
| Walk.BelowDistinct | src/remote.rs:587-622 | no path is listed twice |
| Walk.ListedPathsResolve | src/remote.rs:554-566 | every listed path leads back to its node, in both root modes |
| DestinationPath.ValidateRelativePath | src/sync.rs:1917-1930 | accepts exactly the paths that only go down |
| DestinationPath.ValidateDestinationPath | src/sync.rs:1932-1985 | for any path: accepted exactly when the components up to the first missing one only go down through directories and what exists at the end fits; the result is the path below the root |
| DestinationPath.DownwardIffClear | src/sync.rs:1932-1985 | a path that only goes down is accepted exactly when every existing ancestor is a directory and what exists at its end is no link unless the entry is one, and a directory when the entry is one |
| DestinationPath.StaysBelowIffDownward | src/sync.rs:317-322 | an accepted path leads to the place its names say, below the root and past no link, exactly when it only goes down |
| DestinationPath.AloneItLetsOut | src/sync.rs:1974-1984 | the second check alone accepts a path that climbs over the root behind a missing name |

## Left out

- SSH and SFTP sessions, authentication, exec channels, rsocket calls and their
  timeouts: only the bytes and failures they deliver are modelled; a timeout or a
  cancellation is a failure.
- MD5, xxh3 and base64: the strong hash is a parameter, a literal op carries what
  decoding its text yields (nothing for text that does not decode), part names are
  distinct for distinct keys.
- Hash collisions: never excluded; results that need their absence say so.
- Signature.BuildSignature: takes every read of the basis to succeed and to fill the
  buffer except at the end of the file; a read error stops the delta path before it
  has changed anything, as the failures of `DeltaTransfer.PlanDelta` do; a short read
  would misnumber the later blocks, which only the final digest notices.
- Power loss, fsync, the SQLite log: every store method is one atomic step. A crash is
  a failure between two steps. Removing a part file always succeeds.
- State.StateStore.UpsertFile: runs its statements as one step; stopped between them, the
  row of a new plan would stand over the chunks of the old one.
- State.StateStore.ResetProgress: runs its two statements as one step; stopped between
  them, only the finished flag and the digest would be left.
- Source.RemoteFile.ReadRange: reads the file that the path names at that moment. The SSH
  client keeps its handle open per path (src/remote.rs:1164-1178), so after a replacement
  by rename it reads on from the old file, while size and time are those of the new one.
- Source.RemoteFile.RdmaCopy: does not go through the packets of `Rdma`; it is
  the reading and the outcomes of that path over a source that may change, which
  `Rdma.RdmaCopy` treats for one that does not. An absent part file and an empty one
  are not distinguished after an error.
- Rdma.RdmaCopy: setting up the listener, starting the helper, its exit status and the
  parsing of its report are left out, but not the byte count it reports; any of them
  failing is an outcome of `Source.RemoteFile.RdmaCopy`.
- Jobs.TransferAll: transfers one file after the other; the store methods are
  atomic and every transfer leaves other keys alone, so the parallel run differs
  only in the order of the steps.
- ChunkFetch.FetchGroup: fetches the chunks one at a time in any order; the writes
  of two chunks commute (`Blocks.WritesCommute`).
- Sync.RunSync: directories, symbolic links, metadata, ACLs and extended
  attributes are not part of this model; neither is the listing itself. Opening and
  removing the state do not fail.
- ResumedRuns.ResumeUntilPublished: is about runs in which neither RDMA nor delta applies
  to the file, which a caller can check; when one of them is tried and fails, the result
  is what `Transfer.DeliveredFromStillSource` and the theorems on refused plans and
  failed copies say.
- Arrivals.ListedIffPathTells: takes times before the epoch as the helper reports them,
  zero; nothing is promised of plans by a foreign program beyond `DeltaTransfer.AcceptPlan`.
- That chunk rows need a file row, and go with it, rests on foreign keys being enforced,
  which the bundled SQLite is built with; the source does not set it itself.
- DestinationPath.ValidateDestinationPath: looking at a component fails only because it is
  missing; the tree does not change between the check and the use.
- The destination lock, because removing a stale lock is a read followed by a
  removal and does not exclude anybody under races.
- Floating-point seconds of `find` records: turning the text into seconds is a
  parameter.
- Walk.WalkDir: takes directories as already sorted by name, which the final sort
  makes unobservable; a tree that changes during the walk is not modelled.
- The `find` listing and the walk are not compared: in star mode they treat hidden
  entries differently.
- Progress, logging, timings, configuration and command line; Windows branches.
- The byte and op counters are unbounded where the source uses 64 bits, except in
  the range arithmetic of copy ops, the packet offsets and the receiver's count.
