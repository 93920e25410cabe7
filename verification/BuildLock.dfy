/**
 The build lock: an OS mutex that vanishes with its holder, and a durable owner record that does not.
 Batches on any number of working copies may crash at any point, a record write may be torn, and the
 child processes of a dead batch may live on.
 */
module BuildLock {

  type Root = string
  type Slot = nat
  type Pid = nat

  datatype Status = Active | Released

  /** `process-owner.json`: a write truncates first, and an incomplete write does not parse. */
  datatype File = Missing | Torn | Record(root: Root, nonce: Pid, status: Status)

  datatype Settlement = Running | Unconfirmed | Confirmed

  /** A child process tree: whether it lives, and what the batch recorded about its end. */
  datatype Child = Child(alive: bool, settlement: Settlement)

  datatype Phase = Idle | HoldsMutex | Cleared | Publishing | Working | Releasing | Refused | Ended | Dead

  datatype Batch = Batch(root: Root, phase: Phase, children: seq<Child>)

  /** `slots` maps a working copy to its mutex; different working copies may share one. */
  datatype World = World(files: map<Root, File>, mutexes: map<Slot, Pid>, batches: map<Pid, Batch>,
                         legacyLocks: set<Root>, slots: Root -> Slot)

  datatype Step =
    | TakesMutex(pid: Pid)
    | Inspects(pid: Pid)
    | Truncates(pid: Pid)
    | Publishes(pid: Pid)
    | Spawns(pid: Pid)
    | ChildDies(pid: Pid, child: nat)
    | Settles(pid: Pid, child: nat, confirmed: bool)
    | Releases(pid: Pid)
    | PublishesRelease(pid: Pid)
    | Throws(pid: Pid, whole: bool)
    | Crashes(pid: Pid, whole: bool)

  function FileAt(w: World, root: Root): File {
    if root in w.files then w.files[root] else Missing
  }

  /** A record lets the next batch in if there is none, or it says `released` for this working copy. */
  predicate Admits(file: File, root: Root) {
    file == Missing || (file.Record? && file.status == Released && file.root == root)
  }

  predicate HasMutex(phase: Phase) {
    phase.HoldsMutex? || phase.Cleared? || phase.Publishing? || phase.Working? || phase.Releasing?
  }

  /** Whether `releaseOwnedLock` may call the batch settled: nothing running, every tree confirmed gone. */
  predicate AllConfirmed(children: seq<Child>) {
    forall i :: 0 <= i < |children| ==> children[i].settlement == Confirmed
  }

  predicate Enabled(w: World, step: Step) {
    step.pid in w.batches &&
    var b := w.batches[step.pid];
    match step
    case TakesMutex(_) => b.phase == Idle
    case Inspects(_) => b.phase == HoldsMutex
    case Truncates(_) => b.phase == Cleared
    case Publishes(_) => b.phase == Publishing
    case Spawns(_) => b.phase == Working
    case ChildDies(_, child) => child < |b.children|
    case Settles(_, child, confirmed) =>
      b.phase == Working && child < |b.children| && (confirmed ==> !b.children[child].alive)
    case Releases(_) => b.phase == Working
    case PublishesRelease(_) => b.phase == Releasing
    case Throws(_, _) => HasMutex(b.phase)
    case Crashes(_, _) => HasMutex(b.phase) || b.phase == Idle
  }

  function To(w: World, pid: Pid, phase: Phase): World
    requires pid in w.batches
  {
    w.(batches := w.batches[pid := w.batches[pid].(phase := phase)])
  }

  /** Leave the critical part: the mutex is free again. */
  function Leave(w: World, pid: Pid, phase: Phase): World
    requires pid in w.batches
  {
    To(w.(mutexes := map slot | slot in w.mutexes && w.mutexes[slot] != pid :: w.mutexes[slot]), pid, phase)
  }

  function Write(w: World, root: Root, file: File): World {
    w.(files := w.files[root := file])
  }

  /** A write that fails or is cut off may have brought the whole record to disk before. */
  function WriteOut(w: World, pid: Pid, whole: bool): World
    requires pid in w.batches
  {
    var b := w.batches[pid];
    if whole && b.phase == Publishing then Write(w, b.root, Record(b.root, pid, Active))
    else if whole && b.phase == Releasing then Write(w, b.root, Record(b.root, pid, Released))
    else w
  }

  function SetChild(w: World, pid: Pid, child: nat, c: Child): World
    requires pid in w.batches && child < |w.batches[pid].children|
  {
    w.(batches := w.batches[pid := w.batches[pid].(children := w.batches[pid].children[child := c])])
  }

  function Next(w: World, step: Step): World
    requires Enabled(w, step)
  {
    var pid := step.pid;
    var b := w.batches[pid];
    var file := FileAt(w, b.root);
    match step
    case TakesMutex(_) =>
      if b.root in w.legacyLocks || w.slots(b.root) in w.mutexes then To(w, pid, Refused)
      else To(w.(mutexes := w.mutexes[w.slots(b.root) := pid]), pid, HoldsMutex)
    case Inspects(_) => if Admits(file, b.root) then To(w, pid, Cleared) else Leave(w, pid, Refused)
    case Truncates(_) => To(Write(w, b.root, Torn), pid, Publishing)
    case Publishes(_) => To(Write(w, b.root, Record(b.root, pid, Active)), pid, Working)
    case Spawns(_) => w.(batches := w.batches[pid := b.(children := b.children + [Child(true, Running)])])
    case ChildDies(_, child) => SetChild(w, pid, child, b.children[child].(alive := false))
    case Settles(_, child, confirmed) =>
      SetChild(w, pid, child, b.children[child].(settlement := if confirmed then Confirmed else Unconfirmed))
    case Releases(_) =>
      if AllConfirmed(b.children) && file.Record? && file.nonce == pid
      then To(Write(w, b.root, Torn), pid, Releasing) else Leave(w, pid, Ended)
    case PublishesRelease(_) => Leave(Write(w, b.root, Record(b.root, pid, Released)), pid, Ended)
    case Throws(_, whole) => Leave(WriteOut(w, pid, whole), pid, Refused)
    case Crashes(_, whole) => Leave(WriteOut(w, pid, whole), pid, Dead)
  }

  ghost predicate Possible(w: World, steps: seq<Step>)
    decreases |steps|
  {
    steps == [] || (Enabled(w, steps[0]) && Possible(Next(w, steps[0]), steps[1..]))
  }

  ghost function Run(w: World, steps: seq<Step>): World
    requires Possible(w, steps)
    decreases |steps|
  {
    if steps == [] then w else Run(Next(w, steps[0]), steps[1..])
  }

  /** Records left by whatever ran before, all mutexes free, and any number of batches about to start. */
  ghost predicate Initial(w: World) {
    w.mutexes == map[] &&
      forall pid :: pid in w.batches ==> w.batches[pid].phase == Idle && w.batches[pid].children == []
  }

  predicate Alive(b: Batch) {
    exists i :: 0 <= i < |b.children| && b.children[i].alive
  }

  // ---- invariants ----

  ghost predicate Exclusive(w: World) {
    forall pid :: pid in w.batches && HasMutex(w.batches[pid].phase) ==>
      w.slots(w.batches[pid].root) in w.mutexes && w.mutexes[w.slots(w.batches[pid].root)] == pid
  }

  ghost predicate MutexesHeld(w: World) {
    forall slot :: slot in w.mutexes ==>
      && w.mutexes[slot] in w.batches
      && HasMutex(w.batches[w.mutexes[slot]].phase)
      && w.slots(w.batches[w.mutexes[slot]].root) == slot
  }

  /** Past the inspection: this batch owns the record of its working copy. */
  predicate Entered(phase: Phase) {
    phase.Publishing? || phase.Working? || phase.Releasing?
  }

  ghost predicate BatchFits(b: Batch, pid: Pid, file: File) {
    && (b.phase == Cleared ==> Admits(file, b.root))
    && (b.phase == Publishing || b.phase == Releasing ==> file == Torn)
    && (b.phase == Working ==> file == Record(b.root, pid, Active))
    && (b.phase == Releasing ==> !Alive(b))
    && (forall i :: 0 <= i < |b.children| && b.children[i].settlement == Confirmed ==> !b.children[i].alive)
    && (Alive(b) ==> !Admits(file, b.root))
  }

  /** Children of one batch live only while no other batch of the working copy is past the inspection. */
  ghost predicate Apart(w: World) {
    forall p, q :: p in w.batches && q in w.batches && p != q &&
                   w.batches[p].root == w.batches[q].root && Alive(w.batches[p]) ==>
      !Entered(w.batches[q].phase) && !w.batches[q].phase.Cleared? && !Alive(w.batches[q])
  }

  ghost predicate Valid(w: World) {
    && Exclusive(w) && MutexesHeld(w) && Apart(w)
    && forall pid :: pid in w.batches ==> BatchFits(w.batches[pid], pid, FileAt(w, w.batches[pid].root))
  }

  lemma StepKeepsExclusive(w: World, step: Step, pid: Pid)
    requires Exclusive(w) && MutexesHeld(w) && Enabled(w, step)
    requires pid in w.batches && HasMutex(Next(w, step).batches[pid].phase)
    ensures var next := Next(w, step);
            var slot := next.slots(next.batches[pid].root);
            slot in next.mutexes && next.mutexes[slot] == pid
  {
    hide AllConfirmed, Admits, FileAt;
    if HasMutex(w.batches[pid].phase) {
      assert w.slots(w.batches[pid].root) in w.mutexes;
    }
  }

  lemma StepKeepsMutexesHeld(w: World, step: Step)
    requires MutexesHeld(w) && Enabled(w, step)
    ensures MutexesHeld(Next(w, step))
  {
    hide AllConfirmed, Admits, Next, Enabled, HasMutex;
    StepIsOfBatch(w, step);
    RootsStay(w, step);
    OthersStay(w, step);
    var next := Next(w, step);
    forall slot | slot in next.mutexes
      ensures next.mutexes[slot] in next.batches && HasMutex(next.batches[next.mutexes[slot]].phase)
      ensures next.slots(next.batches[next.mutexes[slot]].root) == slot
    {
      if next.mutexes[slot] == step.pid { OwnMutexAfter(w, step, slot); } else { OtherMutexAfter(w, step, slot); }
    }
  }

  /** A step takes and frees no mutex for another batch. */
  lemma OtherMutexAfter(w: World, step: Step, slot: Slot)
    requires Enabled(w, step) && slot in Next(w, step).mutexes && Next(w, step).mutexes[slot] != step.pid
    ensures slot in w.mutexes && w.mutexes[slot] == Next(w, step).mutexes[slot]
  {
    hide AllConfirmed, Admits, FileAt;
  }

  /** A mutex a batch holds after its step is that of its working copy, and it is in its critical part. */
  lemma OwnMutexAfter(w: World, step: Step, slot: Slot)
    requires MutexesHeld(w) && Enabled(w, step) && slot in Next(w, step).mutexes &&
             Next(w, step).mutexes[slot] == step.pid
    ensures HasMutex(Next(w, step).batches[step.pid].phase) && slot == w.slots(w.batches[step.pid].root)
  {
    hide AllConfirmed, Admits, FileAt;
  }

  lemma OthersStay(w: World, step: Step)
    requires Enabled(w, step)
    ensures forall pid :: pid in w.batches && pid != step.pid ==> Next(w, step).batches[pid] == w.batches[pid]
  {
    hide AllConfirmed, Admits, FileAt;
  }

  /** Only spawning makes a batch's children live. */
  lemma AliveAfter(w: World, step: Step, pid: Pid)
    requires Enabled(w, step) && pid in w.batches && Alive(Next(w, step).batches[pid])
    ensures Alive(w.batches[pid]) || step == Spawns(pid)
  {
    hide AllConfirmed, Admits;
    var children := Next(w, step).batches[pid].children;
    var i :| 0 <= i < |children| && children[i].alive;
    if step != Spawns(pid) { assert i < |w.batches[pid].children| && w.batches[pid].children[i].alive; }
  }

  /** Who another batch's step lets past the inspection: only the batch that inspected an admitting record. */
  lemma PhaseAfter(w: World, step: Step, pid: Pid)
    requires Enabled(w, step) && pid in w.batches
    ensures var phase := Next(w, step).batches[pid].phase;
            (Entered(phase) || phase.Cleared?) && !(Entered(w.batches[pid].phase) || w.batches[pid].phase.Cleared?) ==>
              step == Inspects(pid) && Admits(FileAt(w, w.batches[pid].root), w.batches[pid].root)
  {
    hide AllConfirmed;
  }

  lemma StepKeepsApart(w: World, step: Step)
    requires Valid(w) && Enabled(w, step)
    ensures Apart(Next(w, step))
  {
    hide AllConfirmed;
    var next := Next(w, step);
    forall p, q | p in next.batches && q in next.batches && p != q && next.batches[p].root == next.batches[q].root &&
      Alive(next.batches[p])
      ensures !Entered(next.batches[q].phase) && !next.batches[q].phase.Cleared? && !Alive(next.batches[q])
    {
      RootsStay(w, step);
      AliveAfter(w, step, p);
      PhaseAfter(w, step, q);
      if Alive(next.batches[q]) { AliveAfter(w, step, q); }
      hide Next, Alive;
    }
  }

  lemma RootsStay(w: World, step: Step)
    requires Enabled(w, step)
    ensures Next(w, step).batches.Keys == w.batches.Keys && Next(w, step).slots == w.slots
    ensures forall pid :: pid in w.batches ==> Next(w, step).batches[pid].root == w.batches[pid].root
  {
    hide AllConfirmed, Admits, FileAt;
  }

  lemma StepKeepsOwnBatch(w: World, step: Step)
    requires Valid(w) && Enabled(w, step)
    ensures BatchFits(Next(w, step).batches[step.pid], step.pid, FileAt(Next(w, step), w.batches[step.pid].root))
  {
    assert BatchFits(w.batches[step.pid], step.pid, FileAt(w, w.batches[step.pid].root));
    hide *;
    if step.TakesMutex? || step.Inspects? || step.Truncates? || step.Publishes? {
      AcquiringFits(w, step);
    } else if step.Spawns? || step.ChildDies? || step.Settles? {
      ChildrenFit(w, step);
    } else {
      LeavingFits(w, step);
    }
  }

  lemma AcquiringFits(w: World, step: Step)
    requires Enabled(w, step) && BatchFits(w.batches[step.pid], step.pid, FileAt(w, w.batches[step.pid].root))
    requires step.TakesMutex? || step.Inspects? || step.Truncates? || step.Publishes?
    ensures BatchFits(Next(w, step).batches[step.pid], step.pid, FileAt(Next(w, step), w.batches[step.pid].root))
  {
    hide AllConfirmed;
  }

  lemma ChildrenFit(w: World, step: Step)
    requires Enabled(w, step) && BatchFits(w.batches[step.pid], step.pid, FileAt(w, w.batches[step.pid].root))
    requires step.Spawns? || step.ChildDies? || step.Settles?
    ensures BatchFits(Next(w, step).batches[step.pid], step.pid, FileAt(Next(w, step), w.batches[step.pid].root))
  {
    hide AllConfirmed;
  }

  lemma LeavingFits(w: World, step: Step)
    requires Enabled(w, step) && BatchFits(w.batches[step.pid], step.pid, FileAt(w, w.batches[step.pid].root))
    requires step.Releases? || step.PublishesRelease? || step.Throws? || step.Crashes?
    ensures BatchFits(Next(w, step).batches[step.pid], step.pid, FileAt(Next(w, step), w.batches[step.pid].root))
  {
  }

  /** A step rewrites only its own working copy's record, and only past the inspection. */
  lemma WhoWrites(w: World, step: Step, root: Root)
    requires Enabled(w, step) && FileAt(Next(w, step), root) != FileAt(w, root)
    ensures root == w.batches[step.pid].root
    ensures Entered(w.batches[step.pid].phase) || w.batches[step.pid].phase.Cleared?
  {
    hide AllConfirmed, Admits;
  }

  lemma StepKeepsOtherBatch(w: World, step: Step, pid: Pid)
    requires Valid(w) && Enabled(w, step) && pid in w.batches && pid != step.pid
    ensures BatchFits(w.batches[pid], pid, FileAt(Next(w, step), w.batches[pid].root))
  {
    assert BatchFits(w.batches[pid], pid, FileAt(w, w.batches[pid].root));
    if FileAt(Next(w, step), w.batches[pid].root) != FileAt(w, w.batches[pid].root) {
      WhoWrites(w, step, w.batches[pid].root);
      hide Next, BatchFits;
      assert !HasMutex(w.batches[pid].phase);
      assert !Alive(w.batches[pid]);
      assert w.batches[pid].phase != Cleared;
    }
  }

  lemma StepKeeps(w: World, step: Step)
    requires Valid(w) && Enabled(w, step)
    ensures Valid(Next(w, step))
  {
    var next := Next(w, step);
    RootsStay(w, step);
    OthersStay(w, step);
    StepKeepsMutexesHeld(w, step);
    StepKeepsApart(w, step);
    StepKeepsOwnBatch(w, step);
    hide Next, BatchFits, Apart, MutexesHeld;
    forall pid | pid in next.batches
      ensures BatchFits(next.batches[pid], pid, FileAt(next, next.batches[pid].root))
      ensures HasMutex(next.batches[pid].phase) ==>
        next.slots(next.batches[pid].root) in next.mutexes && next.mutexes[next.slots(next.batches[pid].root)] == pid
    {
      if HasMutex(next.batches[pid].phase) { StepKeepsExclusive(w, step, pid); }
      if pid != step.pid { StepKeepsOtherBatch(w, step, pid); }
    }
  }

  lemma {:induction false} RunKeeps(w: World, steps: seq<Step>)
    requires Valid(w) && Possible(w, steps)
    ensures Valid(Run(w, steps))
    decreases |steps|
  {
    if steps != [] {
      hide Valid;
      StepKeeps(w, steps[0]);
      RunKeeps(Next(w, steps[0]), steps[1..]);
    }
  }

  // ---- what holds in every run ----

  /** Process trees of two batches of one working copy never coexist, whatever crashed when. */
  lemma TreesNeverCoexist(w: World, steps: seq<Step>, p: Pid, q: Pid)
    requires Initial(w) && Possible(w, steps) && p != q
    requires var batches := Run(w, steps).batches; p in batches && q in batches && batches[p].root == batches[q].root
    ensures var batches := Run(w, steps).batches; !(Alive(batches[p]) && Alive(batches[q]))
  {
    RunKeeps(w, steps);
  }

  /** The record of a working copy keeps everyone out, and nobody is in or on the way in. */
  ghost predicate Unsettled(w: World, root: Root) {
    && !Admits(FileAt(w, root), root)
    && forall pid :: pid in w.batches && w.batches[pid].root == root ==>
         !Entered(w.batches[pid].phase) && !w.batches[pid].phase.Cleared?
  }

  /** A batch that leaves without a completed `released` record leaves the working copy unsettled. */
  ghost predicate LeavesUnsettled(w: World, step: Step)
    requires Enabled(w, step)
  {
    var b := w.batches[step.pid];
    || ((step.Crashes? || step.Throws?) && Entered(b.phase) && !(b.phase == Releasing && step.whole))
    || (step.Releases? && !AllConfirmed(b.children))
  }

  lemma UnsafeExitUnsettles(w: World, step: Step)
    requires Valid(w) && Enabled(w, step) && LeavesUnsettled(w, step)
    ensures Unsettled(Next(w, step), w.batches[step.pid].root)
  {
    hide Valid, BatchFits, Admits, AllConfirmed, FileAt, Next, Enabled, LeavesUnsettled, HasMutex, Entered;
    StepIsOfBatch(w, step);
    BatchIsValid(w, step.pid);
    UnsafeExitLeavesRecord(w, step);
    OthersStay(w, step);
    RootsStay(w, step);
    var next, root := Next(w, step), w.batches[step.pid].root;
    forall pid | pid in next.batches && next.batches[pid].root == root
      ensures !Entered(next.batches[pid].phase) && !next.batches[pid].phase.Cleared?
    {
      OneHolder(w, step.pid, pid);
      InsideHasMutex(next.batches[pid].phase);
    }
  }

  /** Any other exit leaves the record it has written whole, which admits, or has yet to write it. */
  lemma OtherExitDoesNotUnsettle(w: World, step: Step)
    requires Valid(w) && Enabled(w, step) && Entered(w.batches[step.pid].phase) && !LeavesUnsettled(w, step)
    requires step.Crashes? || step.Throws? || step.Releases? || step.PublishesRelease?
    ensures !Unsettled(Next(w, step), w.batches[step.pid].root)
  {
    BatchIsValid(w, step.pid);
    RootsStay(w, step);
    hide Valid, Alive;
    assert Entered(Next(w, step).batches[step.pid].phase) ||
           Admits(FileAt(Next(w, step), w.batches[step.pid].root), w.batches[step.pid].root);
  }

  lemma StepIsOfBatch(w: World, step: Step)
    requires Enabled(w, step)
    ensures step.pid in w.batches
  {
  }

  lemma BatchIsValid(w: World, pid: Pid)
    requires Valid(w) && pid in w.batches
    ensures BatchFits(w.batches[pid], pid, FileAt(w, w.batches[pid].root))
  {
    hide BatchFits, Exclusive, MutexesHeld, Apart, FileAt;
  }

  /** Of the batches of one working copy only one holds the mutex. */
  lemma OneHolder(w: World, p: Pid, q: Pid)
    requires Valid(w) && p in w.batches && q in w.batches && w.batches[p].root == w.batches[q].root
    ensures HasMutex(w.batches[p].phase) && HasMutex(w.batches[q].phase) ==> p == q
  {
    hide BatchFits, MutexesHeld, Apart, HasMutex;
  }

  lemma InsideHasMutex(phase: Phase)
    ensures Entered(phase) || phase.Cleared? ==> HasMutex(phase)
  {
  }

  /** What such a step leaves: a record that admits nobody, and the batch out of its critical part. */
  lemma UnsafeExitLeavesRecord(w: World, step: Step)
    requires Enabled(w, step) && BatchFits(w.batches[step.pid], step.pid, FileAt(w, w.batches[step.pid].root))
    requires LeavesUnsettled(w, step)
    ensures !Admits(FileAt(Next(w, step), w.batches[step.pid].root), w.batches[step.pid].root)
    ensures !HasMutex(Next(w, step).batches[step.pid].phase) && HasMutex(w.batches[step.pid].phase)
  {
    hide Alive;
  }

  /** From then on, although the mutex is free, every acquire fails and the record stays as it is. */
  lemma {:induction false} UnsettledForever(w: World, steps: seq<Step>, root: Root)
    requires Unsettled(w, root) && Possible(w, steps)
    ensures Unsettled(Run(w, steps), root) && FileAt(Run(w, steps), root) == FileAt(w, root)
    decreases |steps|
  {
    if steps != [] {
      var next := Next(w, steps[0]);
      UnsettledStep(w, steps[0], root);
      hide Unsettled, Next;
      UnsettledForever(next, steps[1..], root);
    }
  }

  lemma UnsettledStep(w: World, step: Step, root: Root)
    requires Unsettled(w, root) && Enabled(w, step)
    ensures Unsettled(Next(w, step), root) && FileAt(Next(w, step), root) == FileAt(w, root)
  {
    hide AllConfirmed;
    RootsStay(w, step);
    if FileAt(Next(w, step), root) != FileAt(w, root) { WhoWrites(w, step, root); }
    hide Next, Admits;
    forall pid | pid in w.batches && w.batches[pid].root == root
      ensures !Entered(Next(w, step).batches[pid].phase) && !Next(w, step).batches[pid].phase.Cleared?
    {
      PhaseAfter(w, step, pid);
    }
  }

  /** A batch whose every tree is confirmed gone can always release, and that lets the next batch in. */
  lemma ConfirmedReleaseAdmits(w: World, pid: Pid)
    requires Valid(w) && pid in w.batches && w.batches[pid].phase == Working && AllConfirmed(w.batches[pid].children)
    ensures var releasing := Next(w, Releases(pid));
            Enabled(releasing, PublishesRelease(pid)) &&
            var released := Next(releasing, PublishesRelease(pid));
            && Admits(FileAt(released, w.batches[pid].root), w.batches[pid].root)
            && w.slots(w.batches[pid].root) !in released.mutexes
  {
    assert BatchFits(w.batches[pid], pid, FileAt(w, w.batches[pid].root));
  }
}
