# Verification

A Dafny model of the parts of this repository whose correctness is hardest to see, with proofs. The modules
share no state, save that the job modules build on one another.

| module | models |
|---|---|
| EventJournal, EventStream, EventServer | the bounded event journal, one subscription with backpressure, and every interleaving of a server with its clients |
| ApiServer | the same server as objects with mutable fields, each method proved equal to a step of EventServer |
| FormalJobWriter | admission and the owner record of a formal job, for any number of processes and crashes |
| BuildLock | the build lock: an OS mutex that dies with its holder and a record that does not |
| TestPlan, TestRows, TestScheduler | expansion of test domains, deduplication, and the job loop |
| ConfigMerge, ConfigLoad | merging, inheriting and setting configuration |
| ProjectPath, JobLayers, JobConfig, JobBinding, JobPreflight | project paths, the configuration of a job, binding it to its result paths, and building and checking a job list |
| GpuDryRun | the greedy assignment of a dry run |
| RuntimeClosure, ZipDirectory, SemVer, ChangedFiles, TestSelection, TimestampMap, StateReducer | algorithms with exact specifications |

Loops and objects of the source are methods and classes proved against functions on values; the laws are
lemmas about those functions. The two lock protocols are state machines whose steps any number of
processes take in any order, with a crash as one more step. `dafny verify dfyconfig.toml` checks everything.

Several plausible claims are false of the code. Each has a lemma with a concrete input and one with the
exact condition:

- Binding a job does not always make it pass its own check: a path that trims differently the second time
  (`./ a`) fails (JobBinding.SpacedResultFailsItsCheck, JobBinding.BoundPassesIffSettled).
- Binding twice is not always binding once (JobBinding.RebindingCanChange, JobBinding.RebindIffNothingDrifts).
- An output directory written with a slash at its end joins the names of outputs below it
  (JobBinding.EndSlashJoinsNames, JobBinding.OutputsKeptIffNoEndSlash).
- Merging is not always associative (ConfigMerge.MiddleScalarBreaksAssociativity,
  ConfigMerge.AssociativeIffGroups).
- Version comparison is not always antisymmetric, nor always the precedence of Semantic Versioning
  (SemVer.LeadingZeroClashes, SemVer.BlurredMajorsCompareEqual, SemVer.CompareIsAntisymmetricIff,
  SemVer.CompareIsPrecedenceIff).
- A dry run can give a GPU out twice, if a worker lists it twice (GpuDryRun.GpuListedTwiceIsAssignedTwice,
  GpuDryRun.AssignedOnceIff).
- A failed run of a formal job cannot always be retried as a test run (FormalJobWriter.FailedTestRunExample,
  FormalJobWriter.FailureAbandonsIffUnproven, FormalJobWriter.RetryAfterTestStage).
- Arrival order of state events can matter (StateReducer.FirstArrivalIsHeld, StateReducer.OrderDoesNotMatterIff).

## Model

| member | source | states |
|---|---|---|
| EventJournal.TrimIsLongestFit | src/api/LocalApiServer.legacy.ts:533-537 | what the trimming loop keeps is a suffix within both limits, and every longer suffix breaks one, so an oversized event empties the journal |
| EventJournal.AppendRetains | src/api/LocalApiServer.legacy.ts:517-540 | publishing keeps the journal a contiguous tail of the whole history ending at the newest number, with an exact byte count |
| EventStream.SendFrameCarries | src/api/LocalApiServer.legacy.ts:600-620 | offering the next event keeps the wire and the queue together exactly the events since the subscription began, bounded in bytes and count, whatever the socket does |
| EventStream.FlushSound | src/api/LocalApiServer.legacy.ts:621-629 | draining moves held-back frames to the socket in order, none lost or repeated, and leaves frames behind only under backpressure |
| EventStream.DrainCarries | src/api/LocalApiServer.legacy.ts:621-631 | a drain callback as a whole keeps what the subscription carries |
| EventStream.ReplayCarries | src/api/LocalApiServer.legacy.ts:651-658 | replaying the journal brings a subscription from its start number up to the newest event |
| EventStream.HistoryGapIsExact | src/api/LocalApiServer.legacy.ts:643-646 | a gap is reported exactly when some event after `since` is no longer in the journal |
| EventStream.SubscribeCarries | src/api/LocalApiServer.legacy.ts:542-660 | a new subscription carries exactly the events after `since`; on a history gap its wire is a gap frame and nothing else, and it is closed |
| EventStream.HistoryGrows | src/api/LocalApiServer.legacy.ts:538-540 | what a subscription carries stays true as later events are published |
| EventServer.StepKeeps | src/api/LocalApiServer.legacy.ts:517-660 | every publish, subscribe, connect, drain, flush, timeout, abort, receive and shutdown keeps the server invariant, including that exactly the open subscriptions are registered |
| EventServer.RunKeeps | src/api/LocalApiServer.legacy.ts:517-660 | the invariant holds after every interleaving |
| EventServer.NoSilentLoss | src/api/LocalApiServer.legacy.ts:517-660 | in every run a client that starts at 0 and reconnects with its last number has received 1, 2, 3, ... as published, no hole, no repeat, until its first gap frame |
| EventServer.CaughtUpMeansComplete | src/api/LocalApiServer.legacy.ts:605-658 | in every run a client that has read its whole wire on an open, unqueued stream below the event cap has received everything published |
| EventServer.EverySubscriptionIsBounded | src/api/LocalApiServer.legacy.ts:560-658 | in every run: queue non-empty only under backpressure, exact queue bytes, buffered plus queued plus gap bytes within the budget and the HTTP framing of at most as many writes as the event cap allows and one more, event cap, consecutive numbers on the wire with at most a gap frame last, and registration exactly while open |
| ApiServer.LocalApiServer.Record | src/api/LocalApiServer.legacy.ts:518-537 | the journal fields after a publish are the journal of the specification, which is the longest fitting tail |
| ApiServer.LocalApiServer.Broadcast | src/api/LocalApiServer.legacy.ts:538 | each registered listener is offered the event once, the closed ones leave both registries, and no other subscription changes |
| ApiServer.LocalApiServer.Publish | src/api/LocalApiServer.legacy.ts:517-540 | the object state after a publish is the state the proved step relation leads to |
| ApiServer.LocalApiServer.StreamEvents | src/api/LocalApiServer.legacy.ts:542-660 | the object state after a subscription request is the step relation's, over the client limit or under it |
| ApiServer.LocalApiServer.Drained | src/api/LocalApiServer.legacy.ts:621-631 | a drain callback changes this one subscription as specified, and the registries with it |
| ApiServer.LocalApiServer.Ended | src/api/LocalApiServer.legacy.ts:632-635 | a timeout, abort or error closes this one subscription as specified, and unregisters it |
| ApiServer.LocalApiServer.Dispose | src/api/LocalApiServer.legacy.ts:840-841 | shutdown closes every open subscription and leaves both registries empty of them |
| ApiServer.SseStream.Close | src/api/LocalApiServer.legacy.ts:570-583 | closing is idempotent and unregisters the subscription once |
| ApiServer.SseStream.SendGap | src/api/LocalApiServer.legacy.ts:584-599 | the queue is dropped, the gap frame is the last thing written, and the subscription leaves both registries |
| ApiServer.SseStream.SendFrame | src/api/LocalApiServer.legacy.ts:605-619 | the callback state after a frame is that of the specification in every branch: capped, over budget, queued, written, thrown |
| ApiServer.SseStream.OnDrain | src/api/LocalApiServer.legacy.ts:621-631 | the drain loop ends in the specified state for every answer of the socket |
| ApiServer.SseStream.ReplayHistory | src/api/LocalApiServer.legacy.ts:651-654 | the replay loop over the retained events ends in the specified state, also when it is cut short |
| FormalJobWriter.AdmissionOfOccupiedOutput | src/clusterSchedulerRuntime.legacy.ts:2312-2390 | occupied output is admitted only as a verified completed rerun or as a test run on verified training, and exactly then |
| FormalJobWriter.StepKeeps | src/clusterSchedulerRuntime.legacy.ts:2422-2477 | every step of every process, and a crash anywhere, keeps the protocol invariant |
| FormalJobWriter.RunKeeps | src/clusterSchedulerRuntime.legacy.ts:2422-2477 | the invariant holds after every run of any number of processes |
| FormalJobWriter.AtMostOneWriter | src/clusterSchedulerRuntime.legacy.ts:2426-2477 | in every run at most one process is between lock and unlock, and no writer meets the child of a dead one |
| FormalJobWriter.CrashAbandons | src/clusterSchedulerRuntime.legacy.ts:2444-2477 | a process that dies after it began its record abandons the output, with the lock free |
| FormalJobWriter.FailureAbandonsIffUnproven | src/clusterSchedulerRuntime.legacy.ts:2453-2462 | a failing body of any mode abandons the output exactly when the record it finds has no training proof, or one with an empty checkpoint or training digest table, or when the record it leaves is too large to be read |
| FormalJobWriter.FailedTestRunAbandons | src/clusterSchedulerRuntime.legacy.ts:2446-2462 | a failing test run always does, as its record never has one |
| FormalJobWriter.RetryAfterFailure | src/clusterSchedulerRuntime.legacy.ts:2373-2385 | after a failure that kept its training proof, whatever became of the files, exactly a test run of the same job is admitted, and exactly when the recorded checkpoint and training digests still match |
| FormalJobWriter.RetryAfterTestStage | src/clusterSchedulerRuntime.legacy.ts:2373-2385 | on the files instead of on digests: a run that fails after its training was recorded can be retried by a test run of the same job exactly when the output holds a checkpoint file and a training configuration and the record can be read |
| FormalJobWriter.FailedTestRunExample | src/clusterSchedulerRuntime.legacy.ts:2422-2477 | a concrete test run that is admitted, fails, and is refused when it comes again |
| FormalJobWriter.AbandonedForever | src/clusterSchedulerRuntime.legacy.ts:2312-2477 | abandoned output is never admitted again and its record never changes, in every later run |
| FormalJobWriter.CompletedForever | src/clusterSchedulerRuntime.legacy.ts:2368-2372 | a completed record and all files stay as they are in every later run, for every identity and mode |
| FormalJobWriter.CompletedIsSettled | src/clusterSchedulerRuntime.legacy.ts:2463-2471 | every completed record a run reaches has no writer and no live child behind it |
| FormalJobWriter.RerunOfCompletedJob | src/clusterSchedulerRuntime.legacy.ts:2361-2390 | after completion exactly the same identity gets past the preflight, as already completed, and everything else is refused |
| FormalJobWriter.TestAfterTraining | src/clusterSchedulerRuntime.legacy.ts:2373-2380 | after finished training a test run of the same job is admitted exactly when checkpoint and training digests are there and still match |
| FormalJobWriter.UnopposedJobFinishes | src/clusterSchedulerRuntime.legacy.ts:2422-2477 | alone on an empty output an accepted job of any mode can write what its body writes and end finished, with the lock free |
| BuildLock.StepKeeps | scripts/build-process-lock.js:40-86 | every step of every batch, and a crash anywhere, keeps the lock invariant |
| BuildLock.RunKeeps | scripts/build-process-lock.js:40-86 | the invariant holds after every run of any number of batches |
| BuildLock.TreesNeverCoexist | scripts/build-process-lock.js:54-85 | in every run the live child trees of two batches of one working copy never coexist |
| BuildLock.UnsafeExitUnsettles | scripts/build-process-lock.js:64-85 | a crash or a throw that leaves no whole `released` record, and an unconfirmed release, leave the working copy unsettled |
| BuildLock.OtherExitDoesNotUnsettle | scripts/build-process-lock.js:64-85 | no other exit does: even one whose write of the `released` record was reported as failed, if it came whole to disk |
| BuildLock.UnsettledForever | scripts/build-process-lock.js:56-62 | from then on every acquire fails and the record stays, in every later run, although the mutex is free |
| BuildLock.ConfirmedReleaseAdmits | scripts/test-workflow.js:898-907 | a batch whose every tree is confirmed gone can release, and the record then admits the next batch |
| TestPlan.ExpandsIffNothingOffends | scripts/test-workflow.js:133-157 | expansion ends on every manifest, and succeeds exactly when no walk of references from the domain returns to a domain or ends in one with an unsafe step |
| TestPlan.FailureIsReal | scripts/test-workflow.js:134-138 | the chain a failure names is a real walk of references that offends |
| TestPlan.DoneCovers | scripts/test-workflow.js:133-157 | a successful expansion has looked along every walk, and none repeats a domain |
| TestPlan.JobsAreTheWalks | scripts/test-workflow.js:133-157 | a job comes out exactly when its source is a walk of references to a domain that tests its file with its arguments |
| TestPlan.JobOccurs | scripts/test-workflow.js:140-151 | how often a job comes out: the product of the repeats of every reference along its walk, times how often the last domain names the file with those arguments |
| TestPlan.NamedTwiceOccursTwice | scripts/test-workflow.js:146-151 | a step that names a file twice yields two slots |
| TestPlan.ExpandDomain | scripts/test-workflow.js:133-157 | the accumulator ends with the specified gates and jobs appended in order, or the failure is the specified one |
| TestPlan.Accumulator.AddJobs | scripts/test-workflow.js:148-151 | one job per file is appended, in order, and nothing else changes |
| TestRows.Deduplicate | scripts/test-workflow.js:251-260 | rows have distinct keys, in order of first appearance, each keeps the source of every slot of its key, the sources add up to the slots requested, and the duplicates removed are the difference |
| TestRows.KeyIsExact | scripts/test-workflow.js:255 | keys of NUL-free parts are equal exactly for the same identity and arguments, save that no arguments and one empty argument share a key |
| TestRows.JoinSplits | scripts/test-workflow.js:255 | the joined argument list determines the arguments |
| TestScheduler.RunJobsScheduled | scripts/test-workflow.js:538-570 | for every environment: width limit, exclusive jobs alone, no two running rows of one file, no start after cancel, no idling while a job fits, first fit in plan order, each row started at most once and all of them without a cancel, nothing left running, and the true peak returned |
| TestScheduler.StartWhatFits | scripts/test-workflow.js:544-558 | one pass starts jobs only where nothing blocks them and ends with every pending job blocked |
| TestScheduler.AwaitOne | scripts/test-workflow.js:566-567 | waiting removes at least one settled job and keeps everything proved of the run |
| TestScheduler.StartSafe | scripts/test-workflow.js:545-552 | an unblocked job may join whatever runs without breaking width, exclusivity or file identity |
| TestScheduler.SameIdentitySameGroup | scripts/test-workflow.js:176-190 | two non-exclusive rows of one file have the same group, which is what keeps them apart |
| RuntimeClosure.CollectLocalRuntimeClosure | scripts/runtime-closure.js:12-36 | it ends on every finite disk, cyclic or not; a closure has exactly the reachable files, each with a shortest chain, none broken; a failure names a reachable broken file |
| RuntimeClosure.PathsAreVisited | scripts/runtime-closure.js:15-34 | with the queue empty every path from a start ends in a visited file with no longer a chain |
| RuntimeClosure.Visit | scripts/runtime-closure.js:19-34 | visiting a file keeps the queue sorted by chain length, all chains real paths, and every edge out of a visited file accounted for |
| RuntimeClosure.ChainMeansReachable | scripts/runtime-closure.js:13-34 | each chain is witness of a require path from an entry or a spawn candidate |
| ConfigMerge.DeepMerge | src/clusterSchedulerRuntime.legacy.ts:427-434 | the loop over the patch yields the recursive merge |
| ConfigMerge.MergeByPath | src/clusterSchedulerRuntime.legacy.ts:427-434 | what a merge holds at any key path, from what base and patch hold there: mappings merge, else the patch wins, else the base shows through unless a patch value blocks the way |
| ConfigMerge.EmptyIsLeftIdentity | src/clusterSchedulerRuntime.legacy.ts:427-434 | merging onto an empty mapping changes nothing |
| ConfigMerge.EmptyIsRightIdentity | src/clusterSchedulerRuntime.legacy.ts:427-434 | merging an empty mapping in changes nothing |
| ConfigMerge.MergeIsIdempotent | src/clusterSchedulerRuntime.legacy.ts:427-434 | merging a mapping with itself gives it back |
| ConfigMerge.AbsorbedIffCovered | src/clusterSchedulerRuntime.legacy.ts:427-434 | a base vanishes under a patch exactly when the patch has all its keys, recursively |
| ConfigMerge.MergeCoversBase | src/clusterSchedulerRuntime.legacy.ts:427-434 | a merge has every key of its base, recursively |
| ConfigMerge.AssociativeIffGroups | src/clusterSchedulerRuntime.legacy.ts:427-434 | three layers may be grouped either way exactly when no middle value that is no mapping sits between two mappings, unless the top covers the bottom there |
| ConfigMerge.AgreeingLayersAssociate | src/clusterSchedulerRuntime.legacy.ts:427-434 | merging is associative whenever a mapping meets only mappings at every shared key path |
| ConfigMerge.MiddleScalarBreaksAssociativity | src/clusterSchedulerRuntime.legacy.ts:430-433 | three concrete layers whose two groupings give the top and the bottom layer |
| ConfigMerge.SetFailsIffBlocked | src/clusterSchedulerRuntime.legacy.ts:437-442 | setting a dotted path fails exactly when something that is no mapping is in the way |
| ConfigMerge.SetThenAt | src/clusterSchedulerRuntime.legacy.ts:437-442 | the value set is the value read back |
| ConfigMerge.SetKeepsTheRest | src/clusterSchedulerRuntime.legacy.ts:437-442 | nothing changes at any path that parts from the one set |
| ConfigMerge.SetIsMerge | src/clusterSchedulerRuntime.legacy.ts:437-442 | setting a plain value is merging a patch that holds that one value |
| ConfigLoad.LoadIsOutcome | src/clusterSchedulerRuntime.legacy.ts:462-481 | loading gives what the chain of parents says: the first broken file, the cycle with its whole path, or the fold of the merge from the root file down |
| ConfigLoad.FullChainExists | src/clusterSchedulerRuntime.legacy.ts:462-481 | every file of every finite disk has such a chain, so loading always ends in one of those |
| ConfigLoad.NearestLayerWins | src/clusterSchedulerRuntime.legacy.ts:480 | the nearest file that holds a plain value at a path decides it, when no nearer one mentions or blocks the path |
| ConfigLoad.NothingFromNowhere | src/clusterSchedulerRuntime.legacy.ts:480 | nothing is loaded at a path that no file of the chain mentions |
| ConfigLoad.ParentKeySurvives | src/clusterSchedulerRuntime.legacy.ts:471-481 | `defaults_from` survives a load exactly when the root file has the key, with a false value |
| ProjectPath.SafeIsReduced | src/clusterSchedulerRuntime.legacy.ts:863-884 | an accepted path is a non-empty join of plain segments: no empty, `.` or `..` segment and no backslash |
| ProjectPath.SafeTwice | src/clusterSchedulerRuntime.legacy.ts:863-884 | an accepted path is accepted again unchanged exactly when it has no whitespace at its ends and no drive letter |
| ProjectPath.SafeIsNotAlwaysStable | src/clusterSchedulerRuntime.legacy.ts:865-871 | a concrete path that is reduced further the second time |
| ProjectPath.SplitJoin | src/clusterSchedulerRuntime.legacy.ts:868-871 | joining segments and splitting them again is the identity |
| JobConfig.RewriteTwice | src/clusterSchedulerRuntime.legacy.ts:1425-1444 | rewriting a rewritten value with the bound paths changes nothing exactly when no text in it drifts |
| JobConfig.RewriteOnce | src/clusterSchedulerRuntime.legacy.ts:1437-1444 | a text below the formal directory keeps its slashed form, one below a formal alias comes to lie below the result file, and any other stays |
| JobConfig.TextTwice | src/clusterSchedulerRuntime.legacy.ts:1438-1443 | for one text: the second rewrite changes it exactly when it has a backslash, lies under the result file and under no path known before |
| JobConfig.StampedIs | src/clusterSchedulerRuntime.legacy.ts:1347-1355 | stamping fails exactly when one of the three sections is there and no mapping, and else changes only the stamped values |
| JobConfig.BoundConfigTwice | src/clusterSchedulerRuntime.legacy.ts:1345-1355 | binding a bound configuration again changes nothing exactly when no text outside the stamp drifts |
| JobBinding.BoundPassesIffSettled | src/clusterSchedulerRuntime.legacy.ts:1329-1365 | a bound job passes its contract and path checks exactly when both its bound paths are free of end whitespace and drive letters |
| JobBinding.FilledLeads | src/clusterSchedulerRuntime.legacy.ts:1346-1349 | every stamped path leads to the bound file, also from another working directory |
| JobBinding.CommandPathLeads | src/clusterSchedulerRuntime.legacy.ts:1906-1911 | a path handed to a command leads where the path itself leads |
| JobBinding.RebindIffNothingDrifts | src/clusterSchedulerRuntime.legacy.ts:1329-1365 | binding a bound job again gives it back exactly when its directory is settled, its file is settled or declared in the templates, and no text of its configuration drifts, all conditions on the job before the bind |
| JobBinding.BindKeepsIdentity | src/clusterSchedulerRuntime.legacy.ts:1364-1365 | binding keeps index, case and seed |
| JobBinding.SpacedResultFailsItsCheck | src/clusterSchedulerRuntime.legacy.ts:1336-1342 | a concrete job that is bound and then fails its check |
| JobBinding.BindWrites | src/clusterSchedulerRuntime.legacy.ts:1343-1361 | after a bind every directory template names the output directory, every result template and every alias the result file, the contract is the one in the configuration, and no other template changes |
| JobBinding.PlainResultPasses | src/clusterSchedulerRuntime.legacy.ts:1336-1418 | a concrete job that is bound and then passes |
| JobBinding.OutputsKeptIffNoEndSlash | src/clusterSchedulerRuntime.legacy.ts:1362-1365 | of the outputs of a bound job the result file is renamed, and any other is kept exactly unless it lies below an output directory that was written with a slash at its end |
| JobBinding.EndSlashJoinsNames | src/clusterSchedulerRuntime.legacy.ts:1362-1365 | a concrete job that is bound with its output `out/x` turned into `outx` |
| JobBinding.BackslashDrifts | src/clusterSchedulerRuntime.legacy.ts:1438-1443 | a concrete text that the first rewrite leaves and the second changes |
| JobBinding.RebindingCanChange | src/clusterSchedulerRuntime.legacy.ts:1329-1365 | a concrete job that is bound, and comes out different when the bound job is bound again |
| JobPreflight.ResultPathPreflight | src/clusterSchedulerRuntime.legacy.ts:1368-1418 | it stops exactly when some job stops it; each row passes exactly when it is good in itself and its file and directory are new; the whole passes exactly when all are good and no two share a path |
| JobPreflight.AllAcceptedIffDistinct | src/clusterSchedulerRuntime.legacy.ts:1402-1409 | row-by-row acceptance of all is the same as pairwise distinct paths of rows that are good in themselves |
| JobPreflight.BoundListPassesIff | src/clusterSchedulerRuntime.legacy.ts:1326-1418 | a list of bound jobs passes exactly when every job declares settled paths, its command agrees and paths are pairwise distinct |
| JobPreflight.BuildJobs | src/clusterSchedulerRuntime.legacy.ts:1197-1326 | cases times seeds jobs in case-major order, the i-th with index i and its seed, each the binding of its draft with its layered configuration; refused exactly when a draft, a setting or a bind fails; no seeds means 42 |
| JobLayers.BuildConfig | src/clusterSchedulerRuntime.legacy.ts:1292-1304 | the override loop and the layering yield the specified configuration, or fail where it does |
| JobLayers.DraftHoldsSetting | src/clusterSchedulerRuntime.legacy.ts:1297-1304 | the seed, the experiment name, the output directory and every override, with templates filled in, are found at their paths unless a later setting meets them |
| JobLayers.DraftHoldsLayers | src/clusterSchedulerRuntime.legacy.ts:1292-1304 | at every path no setting meets, the draft holds what the merged layers hold there, with templates filled in |
| JobLayers.ApplyFailsIffBlocked | src/clusterSchedulerRuntime.legacy.ts:1299-1301 | applying settings fails exactly at one whose path is blocked by what those before it left |
| JobLayers.RenderedAt | src/clusterSchedulerRuntime.legacy.ts:452-459 | filling in templates changes texts and no shape: it commutes with looking up a path |
| GpuDryRun.ProbeIdleGpus | src/clusterSchedulerRuntime.legacy.ts:3302-3443 | the idle list is the first free GPUs up to the room left, the error the first that applies, every refusal justified, and an empty list of a worker with GPUs explained |
| GpuDryRun.DryRun | src/clusterSchedulerRuntime.legacy.ts:2784-2808 | assignments, queue and probes are those of serving the workers in turn, each probe seeing everything assigned before it |
| GpuDryRun.ServedInOrder | src/clusterSchedulerRuntime.legacy.ts:2785-2799 | the assigned experiments are a prefix of the job order, one slot each |
| GpuDryRun.AssignedOnceIff | src/clusterSchedulerRuntime.legacy.ts:3402-3436 | no GPU is given out twice exactly when no worker gives one out twice in one turn: what earlier turns gave is never offered again |
| GpuDryRun.AssignedOnce | src/clusterSchedulerRuntime.legacy.ts:3402-3436 | no GPU of a worker is given out twice, even when the worker is listed twice, provided no snapshot lists an idle GPU twice |
| GpuDryRun.GpuListedTwiceIsAssignedTwice | src/clusterSchedulerRuntime.legacy.ts:3402-3436 | without that proviso it fails: a worker whose lists name its GPU twice has it given to two experiments |
| GpuDryRun.AssignedWereIdle | src/clusterSchedulerRuntime.legacy.ts:3338-3434 | every GPU given out is called idle, and nowhere busy, by a snapshot of its worker that is fresh and without error |
| GpuDryRun.LimitKept | src/clusterSchedulerRuntime.legacy.ts:3405-3436 | a configured limit that every listing of a worker is under is never exceeded, negative and fractional ones counting as 1 |
| GpuDryRun.LeftOversMeanAllGiven | src/clusterSchedulerRuntime.legacy.ts:2789-2808 | with experiments left over, every GPU offered in its turn has been given out, in order |
| GpuDryRun.LeftOversMeanFull | src/clusterSchedulerRuntime.legacy.ts:3418-3436 | with experiments left over, each worker was given as many GPUs as it had room for, or every GPU its snapshot calls idle is given out or has a name that clashes with a slot given out |
| GpuDryRun.KeysDiffer | src/clusterSchedulerRuntime.legacy.ts:2797 | slots of different experiments have different keys, whatever characters the names hold |
| GpuDryRun.ActiveCounts | src/clusterSchedulerRuntime.legacy.ts:3418 | the number of active slots of a worker is the number assigned to it |
| ZipDirectory.ZipEntries | scripts/verify-vsix-manifest.js:34-50 | the result is the directory at the last end signature within reach, or an error exactly when there is none |
| ZipDirectory.EndIsFoundIff | scripts/verify-vsix-manifest.js:36 | for every comment length the search finds the end record that was written exactly when nothing later looks like one |
| ZipDirectory.ArchiveReadsBack | scripts/verify-vsix-manifest.js:34-61 | round trip: an archive of any files, names, extra fields and comments is read back row for row, and the bytes of every stored file with it |
| ZipDirectory.RowsReadBack | scripts/verify-vsix-manifest.js:41-48 | the rows from any entry on are read back where the directory was written |
| ZipDirectory.StoredDataReadsBack | scripts/verify-vsix-manifest.js:53-61 | entry data is the stored bytes for method 0, whatever the local header's own name and extra field |
| ZipDirectory.EntryReadsBack | scripts/verify-vsix-manifest.js:42-47 | one directory header is read back field by field, and the next offset is its end |
| SemVer.ParsedIsPrinted | scripts/install-latest-policy.js:13-17 | an accepted text is its version written out with a build part, and nothing else is accepted |
| SemVer.PrintedIsParsed | scripts/install-latest-policy.js:13-17 | every version written out, with any build part, is accepted and read back |
| SemVer.CompareVersions | scripts/install-latest-policy.js:12-31 | an error exactly when a text is no version, else the comparison of the parsed versions |
| SemVer.CompareIsReflexive | scripts/install-latest-policy.js:19-30 | a version equals itself |
| SemVer.CompareIsTransitive | scripts/install-latest-policy.js:19-30 | at most is transitive, for all versions |
| SemVer.CompareIsAntisymmetricIff | scripts/install-latest-policy.js:19-30 | swapping the arguments flips the sign exactly when the first differing identifiers are not two numbers of the same value |
| SemVer.LeadingZeroClashes | scripts/install-latest-policy.js:25-26 | `01` and `1` are each called the greater |
| SemVer.CompareIsPrecedenceIff | scripts/install-latest-policy.js:12-31 | unless two different core numbers that decide convert to the same double, the comparison is the precedence of section 11 of Semantic Versioning 2.0.0, either way round, exactly when the versions do not clash |
| SemVer.BlurredMajorsCompareEqual | scripts/install-latest-policy.js:20-22 | two majors that convert to the same double make equal versions, which section 11 orders |
| SemVer.CompareIsPrecedence | scripts/install-latest-policy.js:12-31 | without leading zeros, and with numbers up to 2^53, nothing clashes or converts alike, and the comparison is that precedence |
| ChangedFiles.ChangedFiles | scripts/test-selection.js:77-102 | nothing when git cannot answer, else the paths of both listings |
| ChangedFiles.ListingsReadBack | scripts/test-selection.js:77-102 | for every list of status and diff entries as git prints them, the set is exactly the relevant paths they name, old and new |
| ChangedFiles.StatusReadsBack | scripts/test-selection.js:83-93 | a status listing gives both paths of a move or copy, and no fragment |
| ChangedFiles.DiffReadsBack | scripts/test-selection.js:96-100 | a diff listing gives both paths of a rename or copy, and no fragment |
| ChangedFiles.FieldsOfTerminated | scripts/test-selection.js:83 | a NUL-terminated listing splits into its fields |
| TestSelection.BuildSelection | scripts/test-selection.js:123-190 | groups, candidates, groups on demand and the two job lists are those specified; the restored entries are exactly the protected candidates with their reasons, the others restored exactly the unprotected ones asked for |
| TestSelection.CutOldest | scripts/test-selection.js:143-153 | the dating loop yields the oldest groups of known age, at most the cap |
| TestSelection.JobsInterleave | scripts/test-selection.js:175-176 | executed and on-demand jobs interleave, each in plan order, to the whole plan: nothing lost, nothing twice |
| TestSelection.GroupsAreDisjoint | scripts/test-selection.js:137-142 | no file is in two groups and no key is used twice |
| TestSelection.GroupDecidedAsOne | scripts/test-selection.js:174-176 | the files of a group are all on demand or all executed |
| TestSelection.OnDemandWithinCap | scripts/test-selection.js:150-153 | at most three fifths of the groups are on demand |
| TestSelection.CandidatesAreOldest | scripts/test-selection.js:152-153 | a candidate is no newer than any group of known age outside the cut |
| TestSelection.OldestInLine | scripts/test-selection.js:152 | groups of the same age are in the order of their names |
| TestSelection.LatestKnowsAll | scripts/test-selection.js:147 | a group has an age exactly when every member has one, and it is at least theirs |
| TestSelection.OnDemandIffSafe | scripts/test-selection.js:157-176 | a job is on demand exactly when its group is a candidate with known ages, no critical, changed, dependent or unattested file, a known scope, and not asked for |
| TestSelection.WithoutDomainIsExecuted | scripts/test-selection.js:139 | a job whose file has no domain is always executed |
| TimestampMap.RecencyMap.Touch | src/core/BoundedTimestampMap.ts:7-34 | the map after a touch is the specified list, its keys stay distinct, and the number returned is the number of entries lost |
| TimestampMap.TouchedIs | src/core/BoundedTimestampMap.ts:18-26 | the key is last with the new time, survivors keep their order, unprotected ones are younger than the age limit, protected ones are untouched |
| TimestampMap.TouchedIsBounded | src/core/BoundedTimestampMap.ts:27-32 | the size is within the limit or only the key and protected entries are left, and no more is evicted than that takes |
| TimestampMap.TouchedEvictsOldest | src/core/BoundedTimestampMap.ts:27-32 | among young unprotected entries the least recently touched are evicted first |
| TimestampMap.RecencyMap.DropOld | src/core/BoundedTimestampMap.ts:18-23 | the deleting loop leaves exactly the entries that are protected, young or the key, in order |
| TimestampMap.RecencyMap.DropExcess | src/core/BoundedTimestampMap.ts:27-32 | the evicting loop leaves the specified entries and the renewed key last |
| StateReducer.HeldOnlyAdvances | src/agent/AgentStateReducer.ts:17-38 | through any arrivals of one session the held number only rises and a terminal status, once held, is held to the end |
| StateReducer.HighestIsHeld | src/agent/AgentStateReducer.ts:17-38 | once the highest event has arrived it is held, in any order and with any duplicates, if it is terminal or nothing is |
| StateReducer.FirstArrivalIsHeld | src/agent/AgentStateReducer.ts:17-38 | two concrete events whose order decides which state is held |
| StateReducer.OrderDoesNotMatterIff | src/agent/AgentStateReducer.ts:17-38 | all arrival orders end in the same state exactly when the highest event is terminal or none is |

## Left out

- Which bytes HTTP adds to a write: one bound per write (`FRAMING`), any number, covers chunk sizes, line ends and the headers before the first.
- Frame text, the cleaning of event types and frame lengths: an event carries its byte count as an input.
- Fractional `since` values and limits: both are whole numbers here.
- What a client does after a gap frame: its run ends there, as it must take a snapshot.
- The timer of a subscription: a timeout is a step that may happen at any time while the timer is set.
- The branch of the writer for lifecycle protocol 2 and the native manifest writer, which take no lock.
- Resume targets, checkpoint sources and the identity fields of a formal job request: one external verdict each, and the identity is an opaque value.
- Path safety, symbolic links and the digest format in hash verification: digests are an opaque function of the bytes.
- Child commands writing the owner record of a formal job other than the training proof.
- The helper process behind the OS mutex, and batch ids and pids in the lock record: the mutex is a map from slots to holders.
- The dialogs around a retained `batch.lock`, which only makes every acquire fail here.
- FormalJobWriter and BuildLock are step relations on values, not objects: what they model is the interleaving of processes.
- Shell parsing of script steps, glob matching and case-group expansion: a step comes recognised, with its files.
- How `classify` attests a file: a job comes with its exclusivity, and the group follows from it as in the source.
- A job promise that rejects: every started job settles.
- Killing running jobs after a cancel, gates and receipts.
- Key order of configuration mappings, and YAML and JSON parsing: a file is unreadable, no mapping, or a mapping.
- Updating configuration in place: `set_dotted` is a function from value to value, as every caller works on a fresh copy.
- BuildJobs: does not model how names, paths, aliases, outputs and template values of a draft are found in a plan, nor when no configuration source is an error; numbering, seed, label, configuration layers and binding it does.
- What filling in a template does to a text: any function from texts to texts.
- The flags of a test command in the result path check: one verdict per job, an input.
- Lower case of letters other than A to Z and the Kelvin sign, the only ones whose lower case is an ASCII letter: no other decides whether a key is a listed word.
- Windows path rules: paths are POSIX and case matters.
- Extracting ids and numbers from a GPU row, and trimming of ids: a row comes with its id, readings and process count.
- The order of workers in a dry run: an input, so the theorems hold for every order.
- Finding requires in a source text, resolving them, and sorting the closure: a file comes with its resolved requires.
- DEFLATE and UTF-8 names: only stored entries give data, and a name is its bytes.
- ZIP64 and archives above 4 GiB, which the reader does not support either.
- Trimming of version texts before they are parsed, and how numbers round: conversion to a double is any monotone function.
- Birth times from git history, the closure index and the selection hash: times and dependencies are inputs.
- Splitting of source chains and include options: names and tokens come trimmed.
- NaN limits, ages and timestamps of the timestamp map.
- Date parsing in the state reducer: any partial function from texts to times.
- scripts/check-static.js, scripts/tsc-cached.js, src/cluster/StateMerge.ts, src/config/Migrations.ts and the user interface: shallow branches or text heuristics that would only add easy members.
