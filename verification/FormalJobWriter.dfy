/**
 Admission and writing of one formal job's declared output, by any number of processes that may die
 at any point: an unlocked preflight, a non-blocking lock on a persistent inode, the preflight again
 under the lock, and an owner record that says how far the writer got.
 */
module FormalJobWriter {

  type Path = string
  type Digest = string
  type Content = string
  type Pid = nat

  datatype Mode = TrainOnly | TestOnly | TrainThenTest

  /** What must match for a rerun. Continuing another command's training ignores `commandId`. */
  datatype Identity = Identity(commandId: string, job: string)

  datatype State = Running | Failed | TrainingCompleted | Completed

  /** `formal_job_owner.json`; a missing hash table reads as an empty one. */
  datatype Owner = Owner(identity: Identity, mode: Mode, state: State, trainingCompleted: bool,
                         checkpointSha: map<Path, Digest>, trainingConfigSha: map<Path, Digest>, sha: map<Path, Digest>)

  /** The record on disk. A write truncates first, so a crash can leave it unreadable. */
  datatype OwnerFile = Absent | Unreadable | Record(owner: Owner)

  /** Everything in the output directory but the record and the lock, and the result CSV. */
  datatype Disk = Disk(owner: OwnerFile, files: map<Path, Content>, directories: set<Path>)

  /** The job's two declared paths, the hash, and which records serialize to more than 64 KiB. */
  datatype Site = Site(outputDir: Path, result: Path, sha: Content -> Digest, oversized: Owner -> bool)

  datatype Request = Request(identity: Identity, mode: Mode, hasCheckpointSource: bool)

  /** Verdicts on what lies outside the job: the request itself, and its external checkpoint source. */
  datatype External = External(requestAccepted: bool, sourceVerified: bool)

  datatype Refusal =
    | BadRequest
    | OwnerInvalid
    | CompletionChanged
    | CheckpointChanged
    | TrainingConfigChanged
    | Conflict
    | SourceUnproven

  datatype Admission = Refused(why: Refusal) | AlreadyCompleted | CheckpointVerified | Fresh

  predicate EndsWith(path: Path, suffix: string) {
    |suffix| <= |path| && path[|path| - |suffix|..] == suffix
  }

  predicate InOutput(site: Site, path: Path) {
    site.outputDir + "/" <= path
  }

  predicate IsCheckpoint(path: Path) {
    EndsWith(path, ".pt") || EndsWith(path, ".pth") || EndsWith(path, ".ckpt") || EndsWith(path, ".safetensors")
  }

  predicate IsTrainingConfig(site: Site, path: Path) {
    path == site.outputDir + "/config.yaml" || path == site.outputDir + "/config_snapshot.yaml"
  }

  predicate VerifyHashes(site: Site, files: map<Path, Content>, hashes: map<Path, Digest>) {
    && hashes != map[]
    && forall path :: path in hashes ==>
         && (InOutput(site, path) || path == site.result)
         && path in files && site.sha(files[path]) == hashes[path]
  }

  /** The digests of every finished file: all of the output directory and the result CSV. */
  function HashAll(site: Site, files: map<Path, Content>): map<Path, Digest> {
    map path | path in files && (InOutput(site, path) || path == site.result) :: site.sha(files[path])
  }

  function Checkpoints(hashes: map<Path, Digest>): map<Path, Digest> {
    map path | path in hashes && IsCheckpoint(path) :: hashes[path]
  }

  /** Anything at all in the output directory besides the lock, or a result CSV. */
  predicate Occupied(site: Site, disk: Disk) {
    disk.owner != Absent || disk.directories != {} ||
      exists path :: path in disk.files && (InOutput(site, path) || path == site.result)
  }

  predicate TrainingIsDone(owner: Owner) {
    owner.state == TrainingCompleted || (owner.state == Failed && owner.trainingCompleted)
  }

  function Preflight(site: Site, disk: Disk, request: Request, external: External): Admission {
    if !external.requestAccepted then Refused(BadRequest)
    else if disk.owner == Unreadable || (disk.owner.Record? && site.oversized(disk.owner.owner)) then
      Refused(OwnerInvalid)
    else if disk.owner.Record? && disk.owner.owner.identity == request.identity
            && (disk.owner.owner.state == Completed ||
                (disk.owner.owner.state == TrainingCompleted && request.mode == TrainOnly)) then
      if VerifyHashes(site, disk.files, disk.owner.owner.sha) then AlreadyCompleted else Refused(CompletionChanged)
    else if disk.owner.Record? && disk.owner.owner.identity.job == request.identity.job
            && TrainingIsDone(disk.owner.owner) && request.mode == TestOnly then
      if !VerifyHashes(site, disk.files, disk.owner.owner.checkpointSha) then Refused(CheckpointChanged)
      else if !VerifyHashes(site, disk.files, TrainingEvidence(disk.owner.owner)) then Refused(TrainingConfigChanged)
      else CheckpointVerified
    else if Occupied(site, disk) then Refused(Conflict)
    else if request.mode == TestOnly || request.hasCheckpointSource then
      if external.sourceVerified then CheckpointVerified else Refused(SourceUnproven)
    else Fresh
  }

  function TrainingEvidence(owner: Owner): map<Path, Digest> {
    if owner.sha != map[] then owner.sha else owner.trainingConfigSha
  }

  function StartedOwner(request: Request): Owner {
    Owner(request.identity, request.mode, Running, false, map[], map[], map[])
  }

  function TrainedOwner(site: Site, files: map<Path, Content>, owner: Owner): Owner {
    owner.(trainingCompleted := true,
           checkpointSha := Checkpoints(map path | path in files && InOutput(site, path) :: site.sha(files[path])),
           trainingConfigSha := map path | path in files && IsTrainingConfig(site, path) :: site.sha(files[path]))
  }

  /** A failing body keeps only the training proof of the record it finds. */
  function FailedOwner(request: Request, found: Owner): Owner {
    StartedOwner(request).(state := Failed, trainingCompleted := found.trainingCompleted,
                           checkpointSha := found.checkpointSha, trainingConfigSha := found.trainingConfigSha)
  }

  function FinishedOwner(site: Site, files: map<Path, Content>, request: Request): Owner {
    var hashes := HashAll(site, files);
    StartedOwner(request).(state := if request.mode == TrainOnly then TrainingCompleted else Completed,
                           sha := hashes, checkpointSha := Checkpoints(hashes))
  }

  // ---- the protocol ----

  /** Where a process stands. `Writing` has truncated the record and not yet written it. */
  datatype Phase =
    | Idle
    | Queued
    | Locked
    | Admitted
    | Writing(record: Owner, leaving: bool)
    | Body
    | Skipping
    | Leaving
    | Done
    | Dead(orphan: bool)

  datatype Process = Process(request: Request, phase: Phase)

  datatype World = World(disk: Disk, lock: set<Pid>, processes: map<Pid, Process>)

  datatype Step =
    | Preflights(pid: Pid, external: External)
    | TakesLock(pid: Pid)
    | PreflightsAgain(pid: Pid, external: External)
    | StartsRecord(pid: Pid)
    | EndsRecord(pid: Pid)
    | Works(pid: Pid, files: map<Path, Content>, directories: set<Path>)
    | FinishesTraining(pid: Pid)
    | Fails(pid: Pid)
    | Finishes(pid: Pid, raises: bool)
    | Unlocks(pid: Pid)
    | Crashes(pid: Pid)

  predicate Enabled(w: World, step: Step) {
    step.pid in w.processes &&
    var phase := w.processes[step.pid].phase;
    match step
    case Preflights(_, _) => phase == Idle
    case TakesLock(_) => phase == Queued
    case PreflightsAgain(_, _) => phase == Locked
    case StartsRecord(_) => phase == Admitted
    case EndsRecord(_) => phase.Writing?
    case Works(_, _, _) => phase == Body || phase == Dead(true)
    case FinishesTraining(_) => phase == Body && w.processes[step.pid].request.mode != TestOnly
    case Fails(_) => phase == Body || phase == Skipping
    case Finishes(_, _) => phase == Body || phase == Skipping
    case Unlocks(_) => phase == Leaving
    case Crashes(_) => !phase.Done? && !phase.Dead?
  }

  function To(w: World, pid: Pid, phase: Phase): World
    requires pid in w.processes
  {
    w.(processes := w.processes[pid := w.processes[pid].(phase := phase)])
  }

  /** Truncate the record, to be rewritten by the process's next step. */
  function Truncate(w: World, pid: Pid, record: Owner, leaving: bool): World
    requires pid in w.processes
  {
    To(w.(disk := w.disk.(owner := Unreadable)), pid, Writing(record, leaving))
  }

  function Next(site: Site, w: World, step: Step): World
    requires Enabled(w, step)
  {
    var pid := step.pid;
    var request := w.processes[pid].request;
    var phase := w.processes[pid].phase;
    match step
    case Preflights(_, external) =>
      To(w, pid, if Preflight(site, w.disk, request, external).Refused? then Done else Queued)
    case TakesLock(_) =>
      if w.lock == {} then To(w.(lock := {pid}), pid, Locked) else To(w, pid, Done)
    case PreflightsAgain(_, external) =>
      (match Preflight(site, w.disk, request, external)
       case Refused(_) => To(w, pid, Leaving)
       case AlreadyCompleted => To(w, pid, Skipping)
       case _ => To(w, pid, Admitted))
    case StartsRecord(_) => Truncate(w, pid, StartedOwner(request), false)
    case EndsRecord(_) =>
      To(w.(disk := w.disk.(owner := Record(phase.record))), pid, if phase.leaving then Leaving else Body)
    case Works(_, files, directories) => w.(disk := w.disk.(files := files, directories := directories))
    case FinishesTraining(_) =>
      if w.disk.owner.Record? then Truncate(w, pid, TrainedOwner(site, w.disk.files, w.disk.owner.owner), false)
      else To(w, pid, Leaving)
    case Fails(_) =>
      if phase == Body && w.disk.owner.Record? then Truncate(w, pid, FailedOwner(request, w.disk.owner.owner), true)
      else To(w, pid, Leaving)
    case Finishes(_, raises) =>
      if phase == Body && !raises then Truncate(w, pid, FinishedOwner(site, w.disk.files, request), true)
      else To(w, pid, Leaving)
    case Unlocks(_) => To(w.(lock := w.lock - {pid}), pid, Done)
    case Crashes(_) => To(w.(lock := w.lock - {pid}), pid, Dead(phase == Body))
  }

  ghost predicate Possible(site: Site, w: World, steps: seq<Step>)
    decreases |steps|
  {
    steps == [] || (Enabled(w, steps[0]) && Possible(site, Next(site, w, steps[0]), steps[1..]))
  }

  ghost function Run(site: Site, w: World, steps: seq<Step>): World
    requires Possible(site, w, steps)
    decreases |steps|
  {
    if steps == [] then w else Run(site, Next(site, w, steps[0]), steps[1..])
  }

  /** Any disk that no writer is touching, the lock free, and any number of processes about to start. */
  ghost predicate Initial(site: Site, w: World) {
    && w.lock == {}
    && (forall pid :: pid in w.processes ==> w.processes[pid].phase == Idle)
    && (w.disk.owner.Record? ==> Truthful(site, w.disk, w.disk.owner.owner))
  }

  // ---- invariants ----

  /** Between taking the lock and releasing it. */
  predicate Critical(phase: Phase) {
    phase.Locked? || phase.Admitted? || phase.Writing? || phase.Body? || phase.Skipping? || phase.Leaving?
  }

  /** Admitted to write: from the second preflight until the last record write. */
  predicate Committed(phase: Phase) {
    phase.Admitted? || phase.Writing? || phase.Body?
  }

  /** A record that claims a finished stage carries the digests of the files as they are. */
  ghost predicate Truthful(site: Site, disk: Disk, owner: Owner) {
    owner.state == Completed || owner.state == TrainingCompleted ==>
      owner.sha == HashAll(site, disk.files) && owner.checkpointSha == Checkpoints(owner.sha)
  }

  /** The training proof of a record, with a digest in each of its tables. */
  predicate IsProven(owner: Owner) {
    owner.trainingCompleted && owner.checkpointSha != map[] && TrainingEvidence(owner) != map[]
  }

  /** A torn record, a writer that never came back, or a failure before training was finished. */
  predicate Unfinished(owner: OwnerFile) {
    || owner == Unreadable
    || (owner.Record? && owner.owner.state == Running)
    || (owner.Record? && owner.owner.state == Failed && !owner.owner.trainingCompleted)
  }

  /** An unfinished record, one too large to be read, or a failure whose proof has an empty table. */
  predicate Blocked(site: Site, owner: OwnerFile) {
    || Unfinished(owner)
    || (owner.Record? && site.oversized(owner.owner))
    || (owner.Record? && owner.owner.state == Failed && !IsProven(owner.owner))
  }

  /** What the disk looks like to a process in each phase. A test run's record never gains a training proof. */
  ghost predicate PhaseFits(site: Site, disk: Disk, process: Process) {
    match process.phase
    case Admitted => disk.owner.Record? ==> disk.owner.owner.state != Completed && !Blocked(site, disk.owner)
    case Writing(record, leaving) =>
      && disk.owner == Unreadable
      && (leaving <==> record.state != Running)
      && (process.request.mode == TestOnly && record.state in {Running, Failed} ==> !record.trainingCompleted)
      && Truthful(site, disk, record)
    case Body =>
      && disk.owner.Record? && disk.owner.owner.state == Running
      && (process.request.mode == TestOnly ==> !disk.owner.owner.trainingCompleted)
    case Dead(true) => Unfinished(disk.owner)
    case _ => true
  }

  /** At most one process holds the lock, and exactly the holder is in its critical section. */
  ghost predicate Exclusive(w: World) {
    && (forall pid :: pid in w.processes ==> (pid in w.lock <==> Critical(w.processes[pid].phase)))
    && (forall p, q :: p in w.lock && q in w.lock ==> p == q)
  }

  /** A child left running by a dead writer never meets another writer. */
  ghost predicate OrphansAlone(processes: map<Pid, Process>) {
    forall p, q :: p in processes && q in processes && processes[p].phase == Dead(true) ==>
      !Committed(processes[q].phase)
  }

  ghost predicate Valid(site: Site, w: World) {
    && Exclusive(w)
    && OrphansAlone(w.processes)
    && (w.disk.owner.Record? ==> Truthful(site, w.disk, w.disk.owner.owner))
    && (forall pid :: pid in w.processes ==> PhaseFits(site, w.disk, w.processes[pid]))
  }

  /** Occupied output admits nobody but a verified rerun or a test run on verified training. */
  lemma AdmissionOfOccupiedOutput(site: Site, disk: Disk, request: Request, external: External)
    requires Occupied(site, disk)
    ensures !Preflight(site, disk, request, external).Refused? <==>
            && external.requestAccepted && disk.owner.Record? && !site.oversized(disk.owner.owner)
            && var owner := disk.owner.owner;
               || (owner.identity == request.identity
                   && (owner.state == Completed || (owner.state == TrainingCompleted && request.mode == TrainOnly))
                   && VerifyHashes(site, disk.files, owner.sha))
               || (owner.identity.job == request.identity.job && TrainingIsDone(owner) && request.mode == TestOnly
                   && VerifyHashes(site, disk.files, owner.checkpointSha)
                   && VerifyHashes(site, disk.files, TrainingEvidence(owner)))
  {}

  lemma StepKeepsExclusive(site: Site, w: World, step: Step)
    requires Valid(site, w) && Enabled(w, step)
    ensures Exclusive(Next(site, w, step))
  {
    hide Preflight, PhaseFits, Truthful;
  }

  lemma StepKeepsOrphansAlone(site: Site, w: World, step: Step)
    requires Valid(site, w) && Enabled(w, step)
    ensures OrphansAlone(Next(site, w, step).processes)
  {
    hide Truthful;
  }

  lemma StepKeepsPhases(site: Site, w: World, step: Step, pid: Pid)
    requires Valid(site, w) && Enabled(w, step) && pid in w.processes
    ensures PhaseFits(site, Next(site, w, step).disk, Next(site, w, step).processes[pid])
  {
    assert PhaseFits(site, w.disk, w.processes[pid]);
    assert PhaseFits(site, w.disk, w.processes[step.pid]);
  }

  lemma StepKeeps(site: Site, w: World, step: Step)
    requires Valid(site, w) && Enabled(w, step)
    ensures Valid(site, Next(site, w, step))
  {
    StepKeepsExclusive(site, w, step);
    StepKeepsOrphansAlone(site, w, step);
    forall pid | pid in w.processes
      ensures PhaseFits(site, Next(site, w, step).disk, Next(site, w, step).processes[pid])
    {
      StepKeepsPhases(site, w, step, pid);
    }
  }

  lemma {:induction false} RunKeeps(site: Site, w: World, steps: seq<Step>)
    requires Valid(site, w) && Possible(site, w, steps)
    ensures Valid(site, Run(site, w, steps))
    decreases |steps|
  {
    if steps != [] {
      hide Valid;
      StepKeeps(site, w, steps[0]);
      RunKeeps(site, Next(site, w, steps[0]), steps[1..]);
    }
  }

  lemma InitialIsValid(site: Site, w: World)
    requires Initial(site, w)
    ensures Valid(site, w)
  {}

  // ---- what holds in every run ----

  /**
   Mutual exclusion, with crashes anywhere: no two processes are between lock and unlock, and a
   child a dead writer left behind never overlaps with another writer.
   */
  lemma AtMostOneWriter(site: Site, w: World, steps: seq<Step>, p: Pid, q: Pid)
    requires Initial(site, w) && Possible(site, w, steps)
    requires p != q && p in Run(site, w, steps).processes && q in Run(site, w, steps).processes
    ensures var phase := Run(site, w, steps).processes[p].phase;
            var other := Run(site, w, steps).processes[q].phase;
            && !(Critical(phase) && Critical(other))
            && !(phase == Dead(true) && Committed(other))
  {
    InitialIsValid(site, w);
    RunKeeps(site, w, steps);
  }

  /** A record nobody can get past, and nobody already past the preflight. */
  ghost predicate Abandoned(site: Site, w: World) {
    Blocked(site, w.disk.owner) && forall pid :: pid in w.processes ==> !Committed(w.processes[pid].phase)
  }

  lemma BlockedRefuses(site: Site, disk: Disk, request: Request, external: External)
    requires Blocked(site, disk.owner)
    ensures Preflight(site, disk, request, external).Refused?
  {}

  /** A writer that dies after it began its record abandons the output. */
  lemma CrashAbandons(site: Site, w: World, pid: Pid)
    requires Valid(site, w) && Enabled(w, Crashes(pid))
    requires w.processes[pid].phase.Body? || w.processes[pid].phase.Writing?
    ensures Abandoned(site, Next(site, w, Crashes(pid))) && Next(site, w, Crashes(pid)).lock == {}
  {
    assert PhaseFits(site, w.disk, w.processes[pid]);
  }

  /**
   A failing body of any mode abandons the output exactly when the record it finds has no training proof, or
   one without a checkpoint or without a training configuration, or when the record it leaves is too large to
   be read again.
   */
  lemma FailureAbandonsIffUnproven(site: Site, w: World, pid: Pid)
    requires Valid(site, w) && Enabled(w, Fails(pid)) && w.processes[pid].phase.Body?
    ensures w.disk.owner.Record?
    ensures var failing, found := Next(site, w, Fails(pid)), w.disk.owner.owner;
            Enabled(failing, EndsRecord(pid)) &&
            (Abandoned(site, Next(site, failing, EndsRecord(pid))) <==>
              || !found.trainingCompleted || found.checkpointSha == map[] || found.trainingConfigSha == map[]
              || site.oversized(FailedOwner(w.processes[pid].request, found)))
  {
    assert PhaseFits(site, w.disk, w.processes[pid]);
  }

  /** A failing test run never has one. */
  lemma FailedTestRunAbandons(site: Site, w: World, pid: Pid)
    requires Valid(site, w) && Enabled(w, Fails(pid))
    requires w.processes[pid].phase.Body? && w.processes[pid].request.mode == TestOnly
    ensures var failing := Next(site, w, Fails(pid));
            Enabled(failing, EndsRecord(pid)) && Abandoned(site, Next(site, failing, EndsRecord(pid)))
  {
    assert PhaseFits(site, w.disk, w.processes[pid]);
    FailureAbandonsIffUnproven(site, w, pid);
  }

  /** The disk a failing body leaves once its record is written. */
  ghost function DiskAfterFailure(site: Site, w: World, pid: Pid): Disk
    requires Enabled(w, Fails(pid)) && Enabled(Next(site, w, Fails(pid)), EndsRecord(pid))
  {
    Next(site, Next(site, w, Fails(pid)), EndsRecord(pid)).disk
  }

  /**
   Who gets past the record of a run that failed after its training was proven, whatever has become of the
   files meanwhile: exactly a test run of the same job, by any command, whose files still match the recorded
   checkpoint and training digests.
   */
  lemma RetryAfterFailure(site: Site, w: World, pid: Pid, files: map<Path, Content>, directories: set<Path>,
                          retry: Request, external: External)
    requires Enabled(w, Fails(pid)) && w.processes[pid].phase.Body?
    requires w.disk.owner.Record? && w.disk.owner.owner.trainingCompleted
    ensures Enabled(Next(site, w, Fails(pid)), EndsRecord(pid))
    ensures var left := DiskAfterFailure(site, w, pid);
            var proof := w.disk.owner.owner;
            var admission := Preflight(site, left.(files := files, directories := directories), retry, external);
            && left.owner.Record?
            && (admission.Refused? || admission.CheckpointVerified?)
            && (admission.CheckpointVerified? <==>
                  && retry.mode == TestOnly && external.requestAccepted && !site.oversized(left.owner.owner)
                  && retry.identity.job == w.processes[pid].request.identity.job
                  && VerifyHashes(site, files, proof.checkpointSha)
                  && VerifyHashes(site, files, proof.trainingConfigSha))
  {
    hide VerifyHashes;
    FailedRecord(site, w, pid);
    var left := DiskAfterFailure(site, w, pid).(files := files, directories := directories);
    assert Occupied(site, left);
  }

  /** Some file of the output is a checkpoint. */
  ghost predicate HasCheckpoint(site: Site, files: map<Path, Content>) {
    exists path :: path in files && InOutput(site, path) && IsCheckpoint(path)
  }

  ghost predicate HasTrainingConfig(site: Site, files: map<Path, Content>) {
    exists path :: path in files && IsTrainingConfig(site, path)
  }

  /** Training is recorded as finished and the body then fails, each with its record. */
  function TestStageFails(pid: Pid): (steps: seq<Step>) {
    [FinishesTraining(pid), EndsRecord(pid), Fails(pid), EndsRecord(pid)]
  }

  /**
   A run that fails in its test stage can be retried by a test run of the same job, by any command, exactly
   when its training left a checkpoint and a training configuration in the output, and the record can be read.
   */
  lemma RetryAfterTestStage(site: Site, w: World, pid: Pid, retry: Request, external: External)
    requires Possible(site, w, TestStageFails(pid)) && w.disk.owner.Record?
    requires retry.mode == TestOnly && external.requestAccepted
    requires retry.identity.job == w.processes[pid].request.identity.job
    ensures var left := Run(site, w, TestStageFails(pid)).disk;
            && left.owner.Record? && left.files == w.disk.files
            && (Preflight(site, left, retry, external).CheckpointVerified? <==>
                  && !site.oversized(left.owner.owner)
                  && HasCheckpoint(site, w.disk.files) && HasTrainingConfig(site, w.disk.files))
  {
    var files, found := w.disk.files, w.disk.owner.owner;
    var proof := TrainedOwner(site, files, found);
    RecordAfterTestStage(site, w, pid);
    ProofHolds(site, files, found);
    hide VerifyHashes, TrainedOwner, Next, Enabled, HasCheckpoint, HasTrainingConfig, Run, Possible, TestStageFails;
    assert Occupied(site, Run(site, w, TestStageFails(pid)).disk);
  }

  lemma RecordAfterTestStage(site: Site, w: World, pid: Pid)
    requires Possible(site, w, TestStageFails(pid)) && w.disk.owner.Record?
    ensures var proof := TrainedOwner(site, w.disk.files, w.disk.owner.owner);
            var left := Run(site, w, TestStageFails(pid)).disk;
            && left.owner == Record(FailedOwner(w.processes[pid].request, proof))
            && left.files == w.disk.files && proof.trainingCompleted
  {
    TrainedIsProof(site, w.disk.files, w.disk.owner.owner);
    hide FailedOwner, TrainedOwner, Preflight;
    var steps := TestStageFails(pid);
    var trained := Next(site, w, steps[0]);
    var proven := Next(site, trained, steps[1]);
    var failing := Next(site, proven, steps[2]);
    assert Possible(site, trained, steps[1..]) && Run(site, w, steps) == Run(site, trained, steps[1..]);
    assert steps[1..][0] == steps[1] && steps[1..][1..] == steps[2..] && steps[2..][1..] == steps[3..];
    assert Run(site, trained, steps[1..]) == Run(site, proven, steps[2..]);
    assert Run(site, proven, steps[2..]) == Run(site, failing, steps[3..]);
    assert steps[3..] == [EndsRecord(pid)] && steps[3..][1..] == [];
    assert Run(site, failing, steps[3..]) == Next(site, failing, EndsRecord(pid));
  }

  lemma TrainedIsProof(site: Site, files: map<Path, Content>, found: Owner)
    ensures TrainedOwner(site, files, found).trainingCompleted
  {
  }

  /** The digests just recorded match the files, and there are any exactly when there are such files. */
  lemma ProofHolds(site: Site, files: map<Path, Content>, found: Owner)
    ensures var proof := TrainedOwner(site, files, found);
            && (VerifyHashes(site, files, proof.checkpointSha) <==> HasCheckpoint(site, files))
            && (VerifyHashes(site, files, proof.trainingConfigSha) <==> HasTrainingConfig(site, files))
  {
    var proof := TrainedOwner(site, files, found);
    if path :| path in files && InOutput(site, path) && IsCheckpoint(path) { assert path in proof.checkpointSha; }
    if path :| path in files && IsTrainingConfig(site, path) { assert path in proof.trainingConfigSha; }
    ConfigIsInOutput(site);
  }

  lemma ConfigIsInOutput(site: Site)
    ensures forall path :: IsTrainingConfig(site, path) ==> InOutput(site, path)
  {
    assert site.outputDir + "/config.yaml" == (site.outputDir + "/") + "config.yaml";
    assert site.outputDir + "/config_snapshot.yaml" == (site.outputDir + "/") + "config_snapshot.yaml";
  }

  lemma FailedRecord(site: Site, w: World, pid: Pid)
    requires Enabled(w, Fails(pid)) && w.processes[pid].phase.Body? && w.disk.owner.Record?
    ensures Enabled(Next(site, w, Fails(pid)), EndsRecord(pid))
    ensures DiskAfterFailure(site, w, pid).owner == Record(FailedOwner(w.processes[pid].request, w.disk.owner.owner))
  {
    hide FailedOwner;
  }

  /** Abandoned output stays abandoned: no later process is admitted and the record never changes. */
  lemma {:induction false} AbandonedForever(site: Site, w: World, steps: seq<Step>)
    requires Abandoned(site, w) && Possible(site, w, steps)
    ensures Abandoned(site, Run(site, w, steps)) && Run(site, w, steps).disk.owner == w.disk.owner
    decreases |steps|
  {
    if steps != [] {
      var next := Next(site, w, steps[0]);
      assert Abandoned(site, next) && next.disk.owner == w.disk.owner by {
        forall request, external ensures Preflight(site, w.disk, request, external).Refused? {
          BlockedRefuses(site, w.disk, request, external);
        }
        hide Preflight, Blocked;
      }
      AbandonedForever(site, next, steps[1..]);
    }
  }

  /** A completed record with no writer and no orphan around. */
  ghost predicate Settled(w: World) {
    && w.disk.owner.Record? && w.disk.owner.owner.state == Completed
    && forall pid :: pid in w.processes ==> !Committed(w.processes[pid].phase) && w.processes[pid].phase != Dead(true)
  }

  /** `completed` is absorbing: whatever runs later, with whatever identity, changes neither record nor files. */
  lemma {:induction false} CompletedForever(site: Site, w: World, steps: seq<Step>)
    requires Settled(w) && Possible(site, w, steps)
    ensures Settled(Run(site, w, steps)) && Run(site, w, steps).disk == w.disk
    decreases |steps|
  {
    if steps != [] {
      var next := Next(site, w, steps[0]);
      assert Settled(next) && next.disk == w.disk by { hide VerifyHashes; }
      CompletedForever(site, next, steps[1..]);
    }
  }

  /** There is a record, in this state. */
  predicate Says(disk: Disk, state: State) {
    disk.owner.Record? && disk.owner.owner.state == state
  }

  /** Every completed record reached in a run is settled, so nothing after it changes the disk. */
  lemma CompletedIsSettled(site: Site, w: World, steps: seq<Step>)
    requires Initial(site, w) && Possible(site, w, steps)
    requires Says(Run(site, w, steps).disk, Completed)
    ensures Settled(Run(site, w, steps))
  {
    InitialIsValid(site, w);
    RunKeeps(site, w, steps);
    var end := Run(site, w, steps);
    forall pid | pid in end.processes
      ensures !Committed(end.processes[pid].phase) && end.processes[pid].phase != Dead(true)
    {
      assert PhaseFits(site, end.disk, end.processes[pid]);
    }
  }

  /**
   Who gets past a completed record reached in a run: exactly the request with the same identity,
   provided the run left at least one file and its record stays within the size limit; it is told the
   job is complete and so writes nothing.
   */
  lemma RerunOfCompletedJob(site: Site, w: World, steps: seq<Step>, request: Request, external: External)
    requires Initial(site, w) && Possible(site, w, steps)
    requires Says(Run(site, w, steps).disk, Completed)
    ensures var disk := Run(site, w, steps).disk;
            var admission := Preflight(site, disk, request, external);
            && (admission.Refused? || admission.AlreadyCompleted?)
            && (admission.AlreadyCompleted? <==>
                  && external.requestAccepted && request.identity == disk.owner.owner.identity
                  && !site.oversized(disk.owner.owner) && HashAll(site, disk.files) != map[])
  {
    InitialIsValid(site, w);
    RunKeeps(site, w, steps);
  }

  /**
   A test run of the same job after finished training, by any command, is admitted exactly if the
   training left a checkpoint and its record stays within the size limit.
   */
  lemma TestAfterTraining(site: Site, w: World, steps: seq<Step>, request: Request, external: External)
    requires Initial(site, w) && Possible(site, w, steps)
    requires Says(Run(site, w, steps).disk, TrainingCompleted)
    requires request.identity.job == Run(site, w, steps).disk.owner.owner.identity.job
    requires request.mode == TestOnly && external.requestAccepted
    ensures var disk := Run(site, w, steps).disk;
            Preflight(site, disk, request, external) == CheckpointVerified <==>
            !site.oversized(disk.owner.owner) && Checkpoints(HashAll(site, disk.files)) != map[]
  {
    InitialIsValid(site, w);
    RunKeeps(site, w, steps);
    var disk := Run(site, w, steps).disk;
    var hashes := HashAll(site, disk.files);
    if Checkpoints(hashes) != map[] {
      var path :| path in Checkpoints(hashes);
      assert path in hashes;
    }
  }

  // ---- a run that succeeds ----

  /** One process and nobody else. */
  function Alone(disk: Disk, locked: bool, pid: Pid, request: Request, phase: Phase): World {
    World(disk, if locked then {pid} else {}, map[pid := Process(request, phase)])
  }

  ghost predicate Reaches(site: Site, w: World, steps: seq<Step>, end: World) {
    Possible(site, w, steps) && Run(site, w, steps) == end
  }

  lemma FirstStep(site: Site, w: World, step: Step, next: World, rest: seq<Step>, end: World)
    requires Enabled(w, step) && Next(site, w, step) == next && Reaches(site, next, rest, end)
    ensures Reaches(site, w, [step] + rest, end)
  {
    assert ([step] + rest)[1..] == rest;
    hide Next, Enabled;
  }

  /** Admission, the lock, and admission again. */
  lemma IsAdmittedAlone(site: Site, disk: Disk, pid: Pid, request: Request, external: External,
                        rest: seq<Step>, end: World)
    requires !Preflight(site, disk, request, external).Refused? &&
             !Preflight(site, disk, request, external).AlreadyCompleted?
    requires Reaches(site, Alone(disk, true, pid, request, Admitted), rest, end)
    ensures Reaches(site, Alone(disk, false, pid, request, Idle),
                    [Preflights(pid, external)] + ([TakesLock(pid)] + ([PreflightsAgain(pid, external)] + rest)), end)
  {
    hide Preflight, Reaches, Truncate, StartedOwner, FinishedOwner, FailedOwner, TrainedOwner;
    var r2 := [PreflightsAgain(pid, external)] + rest;
    FirstStep(site, Alone(disk, true, pid, request, Locked), PreflightsAgain(pid, external),
              Alone(disk, true, pid, request, Admitted), rest, end);
    FirstStep(site, Alone(disk, false, pid, request, Queued), TakesLock(pid),
              Alone(disk, true, pid, request, Locked), r2, end);
    FirstStep(site, Alone(disk, false, pid, request, Idle), Preflights(pid, external),
              Alone(disk, false, pid, request, Queued), [TakesLock(pid)] + r2, end);
  }

  /** The record that says a writer is at work. */
  lemma StartsAlone(site: Site, disk: Disk, pid: Pid, request: Request, rest: seq<Step>, end: World)
    requires Reaches(site, Alone(disk.(owner := Record(StartedOwner(request))), true, pid, request, Body), rest, end)
    ensures Reaches(site, Alone(disk, true, pid, request, Admitted),
                    [StartsRecord(pid)] + ([EndsRecord(pid)] + rest), end)
  {
    hide Preflight, StartedOwner, FinishedOwner, FailedOwner, TrainedOwner, Reaches;
    var torn, writing := disk.(owner := Unreadable), Writing(StartedOwner(request), false);
    FirstStep(site, Alone(torn, true, pid, request, writing), EndsRecord(pid),
              Alone(disk.(owner := Record(StartedOwner(request))), true, pid, request, Body), rest, end);
    FirstStep(site, Alone(disk, true, pid, request, Admitted), StartsRecord(pid),
              Alone(torn, true, pid, request, writing), [EndsRecord(pid)] + rest, end);
  }

  /** A body that writes and ends well. */
  lemma WorksAlone(site: Site, disk: Disk, pid: Pid, request: Request, files: map<Path, Content>,
                   directories: set<Path>,
                   rest: seq<Step>, end: World)
    requires Reaches(site,
                     Alone(Disk(Unreadable, files, directories), true, pid, request,
                           Writing(FinishedOwner(site, files, request), true)), rest, end)
    ensures Reaches(site, Alone(disk, true, pid, request, Body),
                    [Works(pid, files, directories)] + ([Finishes(pid, false)] + rest), end)
  {
    hide Preflight, StartedOwner, FinishedOwner, FailedOwner, TrainedOwner, Reaches;
    var worked, writing :=
      disk.(files := files, directories := directories), Writing(FinishedOwner(site, files, request), true);
    FirstStep(site, Alone(worked, true, pid, request, Body), Finishes(pid, false),
              Alone(Disk(Unreadable, files, directories), true, pid, request, writing), rest, end);
    FirstStep(site, Alone(disk, true, pid, request, Body), Works(pid, files, directories),
              Alone(worked, true, pid, request, Body), [Finishes(pid, false)] + rest, end);
  }

  /** The last record, and the lock released. */
  lemma EndsAlone(site: Site, files: map<Path, Content>, directories: set<Path>, pid: Pid, request: Request,
                  record: Owner)
    ensures Reaches(site, Alone(Disk(Unreadable, files, directories), true, pid, request, Writing(record, true)),
                    [EndsRecord(pid)] + ([Unlocks(pid)] + []),
                    Alone(Disk(Record(record), files, directories), false, pid, request, Done))
  {
    hide Preflight, StartedOwner, FinishedOwner, FailedOwner, TrainedOwner;
    var finished := Disk(Record(record), files, directories);
    var end := Alone(finished, false, pid, request, Done);
    assert Reaches(site, end, [], end);
    hide Reaches;
    FirstStep(site, Alone(finished, true, pid, request, Leaving), Unlocks(pid), end, [], end);
    FirstStep(site, Alone(Disk(Unreadable, files, directories), true, pid, request, Writing(record, true)),
              EndsRecord(pid),
              Alone(finished, true, pid, request, Leaving), [Unlocks(pid)] + [], end);
  }

  lemma EmptyOutputAdmits(site: Site, request: Request)
    ensures var admission := Preflight(site, Disk(Absent, map[], {}), request, External(true, true));
            !admission.Refused? && !admission.AlreadyCompleted?
  {
  }

  lemma AloneIsInitial(site: Site, pid: Pid, request: Request)
    ensures Initial(site, Alone(Disk(Absent, map[], {}), false, pid, request, Idle))
  {
  }

  /**
   Alone on an empty output, an accepted job of any mode can write whatever its body writes and end finished,
   the lock free.
   */
  lemma UnopposedJobFinishes(site: Site, pid: Pid, request: Request, files: map<Path, Content>, directories: set<Path>)
    ensures Initial(site, Alone(Disk(Absent, map[], {}), false, pid, request, Idle))
    ensures exists steps :: Reaches(site, Alone(Disk(Absent, map[], {}), false, pid, request, Idle), steps,
              Alone(Disk(Record(FinishedOwner(site, files, request)), files, directories), false, pid, request, Done))
  {
    hide *;
    AloneIsInitial(site, pid, request);
    EmptyOutputAdmits(site, request);
    var disk, record := Disk(Absent, map[], {}), FinishedOwner(site, files, request);
    var end := Alone(Disk(Record(record), files, directories), false, pid, request, Done);
    var r3 := [EndsRecord(pid)] + ([Unlocks(pid)] + []);
    var r2 := [Works(pid, files, directories)] + ([Finishes(pid, false)] + r3);
    EndsAlone(site, files, directories, pid, request, record);
    WorksAlone(site, disk.(owner := Record(StartedOwner(request))), pid, request, files, directories, r3, end);
    StartsAlone(site, disk, pid, request, r2, end);
    IsAdmittedAlone(site, disk, pid, request, External(true, true),
                    [StartsRecord(pid)] + ([EndsRecord(pid)] + r2), end);
  }

  // ---- a run that cannot be retried ----

  /** A test run on an external checkpoint. */
  function TestRequest(): Request {
    Request(Identity("command", "job"), TestOnly, true)
  }

  /** A body that fails, its last record, and the lock released. */
  lemma FailsAlone(site: Site, pid: Pid, request: Request, started: Owner)
    ensures Reaches(site, Alone(Disk(Record(started), map[], {}), true, pid, request, Body),
                    [Fails(pid)] + ([EndsRecord(pid)] + ([Unlocks(pid)] + [])),
                    Alone(Disk(Record(FailedOwner(request, started)), map[], {}), false, pid, request, Done))
  {
    hide Preflight, StartedOwner, FinishedOwner, FailedOwner, TrainedOwner, Reaches;
    var record := FailedOwner(request, started);
    EndsAlone(site, map[], {}, pid, request, record);
    FirstStep(site, Alone(Disk(Record(started), map[], {}), true, pid, request, Body), Fails(pid),
              Alone(Disk(Unreadable, map[], {}), true, pid, request, Writing(record, true)),
              [EndsRecord(pid)] + ([Unlocks(pid)] + []),
              Alone(Disk(Record(record), map[], {}), false, pid, request, Done));
  }

  lemma FailedTestRunRefuses(site: Site, again: External)
    ensures var failed := Disk(Record(FailedOwner(TestRequest(), StartedOwner(TestRequest()))), map[], {});
            Preflight(site, failed, TestRequest(), again).Refused?
  {
    hide Preflight;
    BlockedRefuses(site, Disk(Record(FailedOwner(TestRequest(), StartedOwner(TestRequest()))), map[], {}),
                   TestRequest(), again);
  }

  /**
   Such a run, alone on an empty output, can be admitted and fail, and the very same request is refused from
   then on.
   */
  lemma FailedTestRunExample(site: Site, again: External)
    ensures var failed := Disk(Record(FailedOwner(TestRequest(), StartedOwner(TestRequest()))), map[], {});
            && (exists steps :: Reaches(site, Alone(Disk(Absent, map[], {}), false, 0, TestRequest(), Idle), steps,
                                        Alone(failed, false, 0, TestRequest(), Done)))
            && Preflight(site, failed, TestRequest(), again).Refused?
  {
    hide *;
    var request := TestRequest();
    var disk, started := Disk(Absent, map[], {}), StartedOwner(request);
    var failed := Disk(Record(FailedOwner(request, started)), map[], {});
    FailedTestRunRefuses(site, again);
    EmptyOutputAdmits(site, request);
    var end := Alone(failed, false, 0, request, Done);
    var rest := [Fails(0)] + ([EndsRecord(0)] + ([Unlocks(0)] + []));
    FailsAlone(site, 0, request, started);
    StartsAlone(site, disk, 0, request, rest, end);
    IsAdmittedAlone(site, disk, 0, request, External(true, true), [StartsRecord(0)] + ([EndsRecord(0)] + rest), end);
  }
}
