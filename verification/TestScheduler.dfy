/**
 The test job scheduler: jobs start in order as far as the width limit, exclusivity and shared groups
 allow, the loop waits for any of them to settle, and nothing starts once the batch is cancelled.
 */
module TestScheduler {

  datatype Job = Job(identity: string, argv: seq<string>, exclusive: bool, group: string)

  /** The group `classify` assigns: one per file identity, kept apart from the exclusive ones. */
  function GroupOf(identity: string, exclusive: bool): string {
    (if exclusive then "exclusive:" else "file:") + identity
  }

  ghost predicate Classified(jobs: seq<Job>) {
    forall j :: 0 <= j < |jobs| ==> jobs[j].group == GroupOf(jobs[j].identity, jobs[j].exclusive)
  }

  /** What happened, in order. Jobs are named by their position in the plan. */
  datatype Event = Started(job: nat) | Waited | Settled(jobs: set<nat>) | Cancelled

  /** Why a job may not start beside the running ones. */
  predicate Blocked(jobs: seq<Job>, job: nat, running: seq<nat>, maxParallel: nat)
    requires job < |jobs|
  {
    || |running| >= maxParallel
    || (jobs[job].exclusive && running != [])
    || (!jobs[job].exclusive && exists r :: r in running && r < |jobs| && jobs[r].exclusive)
    || (!jobs[job].exclusive && jobs[job].group != "" &&
        exists r :: r in running && r < |jobs| && jobs[r].group == jobs[job].group)
  }

  /** The jobs running after the first events, in start order. */
  function RunningAfter(events: seq<Event>): seq<nat> {
    if events == [] then []
    else
      Happen(RunningAfter(events[..|events| - 1]), events[|events| - 1])
  }

  function Happen(running: seq<nat>, event: Event): seq<nat> {
    match event
    case Started(job) => running + [job]
    case Settled(done) => Keep(running, done)
    case _ => running
  }

  function Keep(running: seq<nat>, done: set<nat>): seq<nat> {
    if running == [] then [] else (if running[0] in done then [] else [running[0]]) + Keep(running[1..], done)
  }

  function StartsIn(events: seq<Event>): seq<nat> {
    if events == [] then []
    else StartsIn(events[..|events| - 1]) +
         (if events[|events| - 1].Started? then [events[|events| - 1].job] else [])
  }

  predicate Different(jobs: seq<Job>, r: nat, q: nat) {
    r != q && r < |jobs| && q < |jobs| && jobs[r].identity != jobs[q].identity
  }

  /** At any moment: within the width limit, an exclusive job alone, never two rows of one file. */
  ghost predicate Safe(jobs: seq<Job>, running: seq<nat>, maxParallel: nat) {
    && |running| <= maxParallel
    && (forall r :: r in running ==> r < |jobs|)
    && (forall r :: r in running && jobs[r].exclusive ==> running == [r])
    && Pairwise(jobs, running)
  }

  ghost predicate Pairwise(jobs: seq<Job>, running: seq<nat>) {
    forall i, k :: 0 <= i < k < |running| ==> Different(jobs, running[i], running[k])
  }

  ghost predicate AlwaysSafe(jobs: seq<Job>, events: seq<Event>, maxParallel: nat) {
    forall k :: 0 <= k <= |events| ==> Safe(jobs, RunningAfter(events[..k]), maxParallel)
  }

  ghost predicate NothingStartsAfterCancel(events: seq<Event>) {
    forall i, k :: 0 <= i < k < |events| && events[i].Cancelled? ==> !events[k].Started?
  }

  /** The scheduler never idles: when it waits uncancelled, every job not yet started is blocked. */
  ghost predicate NeverIdles(jobs: seq<Job>, events: seq<Event>, maxParallel: nat) {
    forall k, job :: 0 <= k < |events| && events[k].Waited? && Cancelled !in events[..k]
                     && 0 <= job < |jobs| && job !in StartsIn(events[..k]) ==>
      Blocked(jobs, job, RunningAfter(events[..k]), maxParallel)
  }

  /** First fit: when a job starts, every job before it in the plan has started or is blocked. */
  ghost predicate FirstFit(jobs: seq<Job>, events: seq<Event>, maxParallel: nat) {
    forall k, job :: 0 <= k < |events| && events[k].Started? && 0 <= job < events[k].job && job < |jobs|
                     && job !in StartsIn(events[..k]) ==>
      Blocked(jobs, job, RunningAfter(events[..k]), maxParallel)
  }

  /** Everything claimed of a run. */
  ghost predicate Proper(jobs: seq<Job>, events: seq<Event>, maxParallel: nat) {
    && AlwaysSafe(jobs, events, maxParallel)
    && NothingStartsAfterCancel(events)
    && NeverIdles(jobs, events, maxParallel)
    && FirstFit(jobs, events, maxParallel)
  }

  /** Whatever was proved of every moment so far needs proof only for the newest one. */
  lemma AppendEvent(jobs: seq<Job>, events: seq<Event>, event: Event, maxParallel: nat)
    requires Proper(jobs, events, maxParallel)
    requires Safe(jobs, RunningAfter(events + [event]), maxParallel)
    requires event.Started? ==> Cancelled !in events
    requires event.Waited? && Cancelled !in events ==>
      forall job :: 0 <= job < |jobs| && job !in StartsIn(events) ==>
        Blocked(jobs, job, RunningAfter(events), maxParallel)
    requires event.Started? ==> forall job :: 0 <= job < event.job && job < |jobs| && job !in StartsIn(events) ==>
      Blocked(jobs, job, RunningAfter(events), maxParallel)
    ensures Proper(jobs, events + [event], maxParallel)
  {
    hide RunningAfter, Safe, Blocked, StartsIn;
    var all := events + [event];
    assert forall k :: 0 <= k <= |events| ==> all[..k] == events[..k];
    assert all[..|all|] == all;
    assert events[..|events|] == events;
    assert Safe(jobs, RunningAfter(events[..|events|]), maxParallel);
  }

  lemma LastEvent(events: seq<Event>, event: Event)
    ensures RunningAfter(events + [event]) == Happen(RunningAfter(events), event)
    ensures StartsIn(events + [event]) == StartsIn(events) + (if event.Started? then [event.job] else [])
  {
    assert (events + [event])[..|events|] == events;
  }

  lemma {:induction false} KeepSpec(running: seq<nat>, done: set<nat>)
    ensures |Keep(running, done)| <= |running|
    ensures forall r :: r in Keep(running, done) <==> r in running && r !in done
    ensures (exists r :: r in running && r in done) ==> |Keep(running, done)| < |running|
  {
    if running != [] { KeepSpec(running[1..], done); }
  }

  lemma {:induction false} KeepPairwise(jobs: seq<Job>, running: seq<nat>, done: set<nat>)
    requires Pairwise(jobs, running)
    ensures Pairwise(jobs, Keep(running, done))
    decreases |running|
  {
    if running != [] {
      assert Pairwise(jobs, running[1..]) by {
        forall i, k | 0 <= i < k < |running[1..]| ensures Different(jobs, running[1..][i], running[1..][k]) {
          assert Different(jobs, running[i + 1], running[k + 1]);
        }
      }
      KeepPairwise(jobs, running[1..], done);
      var rest := Keep(running[1..], done);
      KeepSpec(running[1..], done);
      forall k | 0 <= k < |rest| ensures Different(jobs, running[0], rest[k]) {
        assert rest[k] in running[1..];
        var j :| 0 <= j < |running[1..]| && running[1..][j] == rest[k];
        assert Different(jobs, running[0], running[j + 1]);
      }
    }
  }

  /** Settling keeps the moment safe: what is left ran side by side already. */
  lemma KeepSafe(jobs: seq<Job>, running: seq<nat>, done: set<nat>, maxParallel: nat)
    requires Safe(jobs, running, maxParallel)
    ensures Safe(jobs, Keep(running, done), maxParallel)
  {
    KeepSpec(running, done);
    KeepPairwise(jobs, running, done);
    forall r | r in Keep(running, done) && jobs[r].exclusive ensures Keep(running, done) == [r] {
      assert running == [r];
      assert Keep([r], done) == (if r in done then [] else [r]) + Keep([], done);
    }
  }

  /** An unblocked job may join: it fits, and if it has company the company is of other files. */
  lemma StartSafe(jobs: seq<Job>, running: seq<nat>, job: nat, maxParallel: nat)
    requires Classified(jobs) && Safe(jobs, running, maxParallel) && job < |jobs| && job !in running
    requires !Blocked(jobs, job, running, maxParallel)
    ensures Safe(jobs, running + [job], maxParallel)
  {
    forall i | 0 <= i < |running| ensures Different(jobs, running[i], job) {
      assert running[i] in running;
      if jobs[running[i]].identity == jobs[job].identity { SameIdentitySameGroup(jobs, running[i], job); }
    }
  }

  lemma SameIdentitySameGroup(jobs: seq<Job>, r: nat, q: nat)
    requires Classified(jobs) && r < |jobs| && q < |jobs|
    requires jobs[r].identity == jobs[q].identity && jobs[r].exclusive == jobs[q].exclusive
    ensures jobs[r].group == jobs[q].group && jobs[r].group != ""
  {
    assert GroupOf(jobs[r].identity, jobs[r].exclusive)[0] in "ef";
  }

  /** The loop state: what runs, what is still to start, and everything proved of the past. */
  ghost predicate Scheduling(jobs: seq<Job>, pending: seq<nat>, running: seq<nat>, events: seq<Event>,
                             maxParallel: nat) {
    && Classified(jobs) && 1 <= maxParallel
    && running == RunningAfter(events)
    && Proper(jobs, events, maxParallel)
    && Safe(jobs, running, maxParallel)
    && Split(jobs, pending, StartsIn(events))
    && (forall r :: r in running ==> r in StartsIn(events))
  }

  /** The plan falls into the jobs started, once each, and the jobs pending, once each. */
  ghost predicate Split(jobs: seq<Job>, pending: seq<nat>, starts: seq<nat>) {
    && Ascending(pending) && Distinct(starts)
    && (forall j :: 0 <= j < |jobs| ==> (j in pending <==> j !in starts))
    && (forall j :: j in pending || j in starts ==> j < |jobs|)
  }

  ghost predicate Ascending(list: seq<nat>) {
    forall i, k :: 0 <= i < k < |list| ==> list[i] < list[k]
  }

  ghost predicate Distinct(list: seq<nat>) {
    forall i, k :: 0 <= i < k < |list| ==> list[i] != list[k]
  }

  lemma SplitMoves(jobs: seq<Job>, pending: seq<nat>, starts: seq<nat>, i: nat)
    requires Split(jobs, pending, starts) && i < |pending|
    ensures Split(jobs, pending[..i] + pending[i + 1..], starts + [pending[i]])
    ensures pending[i] < |jobs| && pending[i] !in starts
  {
    var left := pending[..i] + pending[i + 1..];
    var job := pending[i];
    assert job in pending;
    forall j ensures j in left <==> j in pending && j != job {
      if j in left {
        var k :| 0 <= k < |left| && left[k] == j;
        assert left[k] == if k < i then pending[k] else pending[k + 1];
      }
      if j in pending && j != job {
        var k :| 0 <= k < |pending| && pending[k] == j;
        assert left[if k < i then k else k - 1] == j;
      }
    }
    assert Ascending(left);
  }

  /** Pending jobs stay in plan order, so the unstarted jobs before one are the pending ones before it. */
  lemma EarlierIsBefore(jobs: seq<Job>, pending: seq<nat>, starts: seq<nat>, i: nat)
    requires Split(jobs, pending, starts) && i < |pending|
    ensures forall job: nat :: job < pending[i] && job < |jobs| && job !in starts ==>
            exists k :: 0 <= k < i && pending[k] == job
  {
    forall job: nat | job < pending[i] && job < |jobs| && job !in starts
      ensures exists k :: 0 <= k < i && pending[k] == job
    {
      assert job in pending;
      var k :| 0 <= k < |pending| && pending[k] == job;
      assert k < i;
    }
  }

  lemma PendingIsPlanned(jobs: seq<Job>, pending: seq<nat>, running: seq<nat>, events: seq<Event>, maxParallel: nat)
    requires Scheduling(jobs, pending, running, events, maxParallel)
    ensures forall job :: job in pending || job in running ==> job < |jobs|
  {}

  lemma RunningIs(jobs: seq<Job>, pending: seq<nat>, running: seq<nat>, events: seq<Event>, maxParallel: nat)
    requires Scheduling(jobs, pending, running, events, maxParallel)
    ensures running == RunningAfter(events)
  {}

  /** Starting an unblocked pending job. */
  lemma StartKeeps(jobs: seq<Job>, pending: seq<nat>, running: seq<nat>, events: seq<Event>, maxParallel: nat, i: nat)
    requires Scheduling(jobs, pending, running, events, maxParallel) && Cancelled !in events && i < |pending|
    requires forall k :: 0 <= k < i ==> pending[k] < |jobs| && Blocked(jobs, pending[k], running, maxParallel)
    requires pending[i] < |jobs| && !Blocked(jobs, pending[i], running, maxParallel)
    ensures Scheduling(jobs, pending[..i] + pending[i + 1..], running + [pending[i]], events + [Started(pending[i])],
                       maxParallel)
  {
    hide Proper, Safe, Blocked, Classified;
    var job := pending[i];
    EarlierIsBefore(jobs, pending, StartsIn(events), i);
    SplitMoves(jobs, pending, StartsIn(events), i);
    LastEvent(events, Started(job));
    StartSafe(jobs, running, job, maxParallel);
    AppendEvent(jobs, events, Started(job), maxParallel);
  }

  /** One pass over the pending jobs, starting each one that nothing running blocks. */
  method StartWhatFits(jobs: seq<Job>, pending0: seq<nat>, running0: seq<nat>, events0: seq<Event>, maxParallel: nat,
                       observed0: nat)
    returns (pending: seq<nat>, running: seq<nat>, events: seq<Event>, observed: nat)
    requires Scheduling(jobs, pending0, running0, events0, maxParallel) && Cancelled !in events0 &&
             IsPeak(events0, observed0)
    ensures Scheduling(jobs, pending, running, events, maxParallel) && Cancelled !in events && IsPeak(events, observed)
    ensures forall job :: job in pending ==> job < |jobs| && Blocked(jobs, job, running, maxParallel)
    ensures |pending| + |running| == |pending0| + |running0|
  {
    hide Scheduling, IsPeak, RunningAfter;
    pending, running, events, observed := pending0, running0, events0, observed0;
    var i := 0;
    PendingIsPlanned(jobs, pending, running, events, maxParallel);
    while i < |pending|
      invariant i <= |pending| && forall job :: job in pending || job in running ==> job < |jobs|
      invariant Scheduling(jobs, pending, running, events, maxParallel) && Cancelled !in events &&
                IsPeak(events, observed)
      invariant forall k :: 0 <= k < i ==> pending[k] < |jobs| && Blocked(jobs, pending[k], running, maxParallel)
      invariant |pending| + |running| == |pending0| + |running0|
      decreases |pending| - i
    {
      if |running| >= maxParallel { break; }
      var job := pending[i];
      assert job in pending;
      var exclusiveRunning := exists r :: r in running && r < |jobs| && jobs[r].exclusive;
      if jobs[job].exclusive && |running| > 0 { i := i + 1; continue; }
      if !jobs[job].exclusive {
        if exclusiveRunning { i := i + 1; continue; }
        if jobs[job].group != "" && exists r :: r in running && r < |jobs| && jobs[r].group == jobs[job].group {
          i := i + 1;
          continue;
        }
      }
      StartKeeps(jobs, pending, running, events, maxParallel, i);
      PeakAfter(events, Started(job), observed);
      pending := pending[..i] + pending[i + 1..];
      running := running + [job];
      events := events + [Started(job)];
      RunningIs(jobs, pending, running, events, maxParallel);
      observed := if |running| > observed then |running| else observed;
      PendingIsPlanned(jobs, pending, running, events, maxParallel);
    }
  }

  lemma WaitKeeps(jobs: seq<Job>, pending: seq<nat>, running: seq<nat>, events: seq<Event>, maxParallel: nat)
    requires Scheduling(jobs, pending, running, events, maxParallel)
    requires Cancelled !in events ==>
      forall job :: job in pending ==> job < |jobs| && Blocked(jobs, job, running, maxParallel)
    ensures Scheduling(jobs, pending, running, events + [Waited], maxParallel)
  {
    hide Proper, Safe, Blocked, Classified;
    LastEvent(events, Waited);
    AppendEvent(jobs, events, Waited, maxParallel);
  }

  lemma CancelKeeps(jobs: seq<Job>, pending: seq<nat>, running: seq<nat>, events: seq<Event>, maxParallel: nat)
    requires Scheduling(jobs, pending, running, events, maxParallel)
    ensures Scheduling(jobs, pending, running, events + [Cancelled], maxParallel)
  {
    hide Proper, Safe, Blocked, Classified;
    LastEvent(events, Cancelled);
    AppendEvent(jobs, events, Cancelled, maxParallel);
  }

  lemma SettleKeeps(jobs: seq<Job>, pending: seq<nat>, running: seq<nat>, events: seq<Event>, maxParallel: nat,
                    done: set<nat>)
    requires Scheduling(jobs, pending, running, events, maxParallel)
    ensures Scheduling(jobs, pending, Keep(running, done), events + [Settled(done)], maxParallel)
  {
    hide Proper, Safe, Blocked, Classified;
    LastEvent(events, Settled(done));
    KeepSafe(jobs, running, done, maxParallel);
    KeepSpec(running, done);
    AppendEvent(jobs, events, Settled(done), maxParallel);
  }

  function Positions(n: nat): seq<nat> {
    if n == 0 then [] else Positions(n - 1) + [n - 1]
  }

  lemma {:induction false} PositionsSpec(n: nat)
    ensures |Positions(n)| == n && forall i :: 0 <= i < n ==> Positions(n)[i] == i
  {
    if n > 0 { PositionsSpec(n - 1); }
  }

  lemma StartState(jobs: seq<Job>, maxParallel: nat)
    requires Classified(jobs) && 1 <= maxParallel
    ensures Scheduling(jobs, Positions(|jobs|), [], [], maxParallel)
  {
    PositionsSpec(|jobs|);
    var pending := Positions(|jobs|);
    forall j | 0 <= j < |jobs| ensures j in pending {
      assert pending[j] == j;
    }
  }

  /** The most jobs ever running at once. */
  ghost predicate IsPeak(events: seq<Event>, peak: nat) {
    && (forall k :: 0 <= k <= |events| ==> |RunningAfter(events[..k])| <= peak)
    && (exists k :: 0 <= k <= |events| && |RunningAfter(events[..k])| == peak)
  }

  lemma PeakAfter(events: seq<Event>, event: Event, peak: nat)
    requires IsPeak(events, peak)
    ensures var now := |RunningAfter(events + [event])|;
            IsPeak(events + [event], if now > peak then now else peak)
  {
    var all := events + [event];
    assert forall k :: 0 <= k <= |events| ==> all[..k] == events[..k];
    assert all[..|all|] == all;
  }

  /**
   Wait until at least one running job settles, and drop the settled ones. Which jobs settle, and
   whether the batch is cancelled meanwhile, is the environment's choice.
   */
  method AwaitOne(jobs: seq<Job>, pending: seq<nat>, running0: seq<nat>, events0: seq<Event>, maxParallel: nat,
                  cancelled0: bool, ghost peak: nat)
    returns (running: seq<nat>, events: seq<Event>, cancelled: bool)
    requires Scheduling(jobs, pending, running0, events0, maxParallel) && IsPeak(events0, peak) && running0 != []
    requires cancelled0 <==> Cancelled in events0
    requires !cancelled0 ==> forall job :: job in pending ==> job < |jobs| && Blocked(jobs, job, running0, maxParallel)
    ensures Scheduling(jobs, pending, running, events, maxParallel) && IsPeak(events, peak)
    ensures cancelled <==> Cancelled in events
    ensures |running| < |running0|
  {
    hide Scheduling, IsPeak, Blocked, Keep;
    WaitKeeps(jobs, pending, running0, events0, maxParallel);
    PeakOfOther(jobs, pending, running0, events0, maxParallel, Waited, peak);
    events, cancelled := events0 + [Waited], cancelled0;
    var cancelNow: bool := *;
    if cancelNow && !cancelled {
      CancelKeeps(jobs, pending, running0, events, maxParallel);
      PeakOfOther(jobs, pending, running0, events, maxParallel, Cancelled, peak);
      events, cancelled := events + [Cancelled], true;
    }
    var alive := set r | r in running0;
    assert running0[0] in alive;
    var done: set<nat> :| done != {} && done <= alive;
    SettleKeeps(jobs, pending, running0, events, maxParallel, done);
    PeakOfOther(jobs, pending, running0, events, maxParallel, Settled(done), peak);
    KeepSpec(running0, done);
    assert exists r :: r in running0 && r in done by {
      var r :| r in done;
      assert r in alive;
    }
    running, events := Keep(running0, done), events + [Settled(done)];
  }

  /**
   The scheduler loop, for every environment: start what fits, wait, and again, until nothing runs
   and nothing is left or the batch was cancelled.
   */
  method RunJobsScheduled(jobs: seq<Job>, maxParallel: nat) returns (events: seq<Event>, maxObserved: nat)
    requires Classified(jobs) && 1 <= maxParallel
    ensures Proper(jobs, events, maxParallel)
    ensures RunningAfter(events) == [] && IsPeak(events, maxObserved)
    ensures Distinct(StartsIn(events)) && forall j :: j in StartsIn(events) ==> j < |jobs|
    ensures Cancelled !in events ==> forall j :: 0 <= j < |jobs| ==> j in StartsIn(events)
  {
    StartState(jobs, maxParallel);
    var pending := Positions(|jobs|);
    var running: seq<nat> := [];
    var cancelled := false;
    events, maxObserved := [], 0;
    assert IsPeak(events, maxObserved) by { assert |RunningAfter(events[..0])| == 0; }
    hide Scheduling, Blocked, Proper, Safe, Distinct, RunningAfter, StartsIn, IsPeak;
    var cancelledBefore: bool := *;
    if cancelledBefore {
      CancelKeeps(jobs, pending, running, events, maxParallel);
      PeakOfOther(jobs, pending, running, events, maxParallel, Cancelled, maxObserved);
      events, cancelled := events + [Cancelled], true;
    }
    while true
      invariant Scheduling(jobs, pending, running, events, maxParallel) && IsPeak(events, maxObserved)
      invariant cancelled <==> Cancelled in events
      decreases |pending| + |running|
    {
      if !cancelled {
        pending, running, events, maxObserved :=
          StartWhatFits(jobs, pending, running, events, maxParallel, maxObserved);
      }
      if running == [] {
        // With nothing running the first pending job is never blocked, so the pass has emptied `pending`.
        assert cancelled || pending == [] by { PendingEmptied(jobs, pending, maxParallel, cancelled); }
        FinishedRun(jobs, pending, events, maxParallel);
        break;
      }
      running, events, cancelled := AwaitOne(jobs, pending, running, events, maxParallel, cancelled, maxObserved);
    }
  }

  lemma PendingEmptied(jobs: seq<Job>, pending: seq<nat>, maxParallel: nat, cancelled: bool)
    requires 1 <= maxParallel
    requires !cancelled ==> forall job :: job in pending ==> job < |jobs| && Blocked(jobs, job, [], maxParallel)
    ensures cancelled || pending == []
  {
    assert pending != [] ==> pending[0] in pending;
  }

  lemma FinishedRun(jobs: seq<Job>, pending: seq<nat>, events: seq<Event>, maxParallel: nat)
    requires Scheduling(jobs, pending, [], events, maxParallel)
    ensures Proper(jobs, events, maxParallel)
    ensures RunningAfter(events) == [] && Distinct(StartsIn(events))
    ensures forall j :: j in StartsIn(events) ==> j < |jobs|
    ensures pending == [] ==> forall j :: 0 <= j < |jobs| ==> j in StartsIn(events)
  {}

  /** Nothing but a start can raise the peak. */
  lemma PeakOfOther(jobs: seq<Job>, pending: seq<nat>, running: seq<nat>, events: seq<Event>, maxParallel: nat,
                    event: Event, peak: nat)
    requires Scheduling(jobs, pending, running, events, maxParallel) && IsPeak(events, peak) && !event.Started?
    ensures IsPeak(events + [event], peak)
  {
    LastEvent(events, event);
    if event.Settled? { KeepSpec(running, event.jobs); }
    assert events[..|events|] == events;
    PeakAfter(events, event, peak);
  }
}
