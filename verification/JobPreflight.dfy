/**
 The jobs of a plan, one for every case and seed, and the check of their result paths before a run.
 */
module JobPreflight {

  import opened ProjectPath
  import opened JobBinding
  import opened JobLayers
  import opened ConfigMerge

  // ---- the check of a whole list ----

  /** The row is good in itself: its own check, and the verdict on the flags of its test command. */
  ghost predicate Reached(env: Env, jobs: seq<Job>, agrees: Job -> bool, i: nat)
    requires i < |jobs|
  {
    RowCheck(env, jobs[i]).Passes? && agrees(jobs[i])
  }

  /**
   The row passes: good in itself, its file new among the rows that got so far, its directory new among those
   that passed.
   */
  ghost predicate Accepted(env: Env, jobs: seq<Job>, agrees: Job -> bool, i: nat)
    requires i < |jobs|
    decreases i
  {
    && Reached(env, jobs, agrees, i)
    && (forall j :: 0 <= j < i && Reached(env, jobs, agrees, j) ==>
          env.disk.resolve(jobs[j].resultCsv) != env.disk.resolve(jobs[i].resultCsv))
    && (forall j :: 0 <= j < i && Accepted(env, jobs, agrees, j) ==>
          env.disk.resolve(jobs[j].outputDir) != env.disk.resolve(jobs[i].outputDir))
  }

  ghost predicate Distinct(env: Env, jobs: seq<Job>) {
    forall j, i :: 0 <= j < i < |jobs| ==>
      && env.disk.resolve(jobs[j].resultCsv) != env.disk.resolve(jobs[i].resultCsv)
      && env.disk.resolve(jobs[j].outputDir) != env.disk.resolve(jobs[i].outputDir)
  }

  ghost predicate AllAccepted(env: Env, jobs: seq<Job>, agrees: Job -> bool, n: nat)
    requires n <= |jobs|
  {
    forall i: nat :: i < n ==> Accepted(env, jobs, agrees, i)
  }

  ghost predicate AllReached(env: Env, jobs: seq<Job>, agrees: Job -> bool) {
    forall i: nat :: i < |jobs| ==> Reached(env, jobs, agrees, i)
  }

  /** All rows pass exactly when each is good in itself and no two share a result file or an output directory. */
  lemma AllAcceptedIffDistinct(env: Env, jobs: seq<Job>, agrees: Job -> bool)
    ensures AllAccepted(env, jobs, agrees, |jobs|) <==> AllReached(env, jobs, agrees) && Distinct(env, jobs)
  {
    hide RowCheck;
    if AllAccepted(env, jobs, agrees, |jobs|) {
      forall j, i | 0 <= j < i < |jobs|
        ensures env.disk.resolve(jobs[j].resultCsv) != env.disk.resolve(jobs[i].resultCsv)
             && env.disk.resolve(jobs[j].outputDir) != env.disk.resolve(jobs[i].outputDir)
      {
        assert Accepted(env, jobs, agrees, j) && Accepted(env, jobs, agrees, i);
      }
      forall i: nat | i < |jobs| ensures Reached(env, jobs, agrees, i) {
        assert Accepted(env, jobs, agrees, i);
      }
    } else {
      var i: nat :| i < |jobs| && !Accepted(env, jobs, agrees, i);
      assert Distinct(env, jobs) ==> !Reached(env, jobs, agrees, i);
    }
  }

  datatype Row = Row(index: nat, ok: bool)

  datatype Report = Stopped(at: nat) | Rows(rows: seq<Row>, ok: bool)

  /** The result files of the rows that got so far, and the directories of those that passed. */
  ghost function Files(env: Env, jobs: seq<Job>, agrees: Job -> bool, n: nat): set<string>
    requires n <= |jobs|
  {
    set j: nat | j < n && Reached(env, jobs, agrees, j) :: env.disk.resolve(jobs[j].resultCsv)
  }

  ghost function Dirs(env: Env, jobs: seq<Job>, agrees: Job -> bool, n: nat): set<string>
    requires n <= |jobs|
  {
    set j: nat | j < n && Accepted(env, jobs, agrees, j) :: env.disk.resolve(jobs[j].outputDir)
  }

  /** One row decided. */
  lemma NextRow(env: Env, jobs: seq<Job>, agrees: Job -> bool, n: nat)
    requires n < |jobs|
    ensures var file, dir := env.disk.resolve(jobs[n].resultCsv), env.disk.resolve(jobs[n].outputDir);
            && (Accepted(env, jobs, agrees, n) <==>
                Reached(env, jobs, agrees, n) && file !in Files(env, jobs, agrees, n) &&
                  dir !in Dirs(env, jobs, agrees, n))
            && Files(env, jobs, agrees, n + 1) ==
              Files(env, jobs, agrees, n) + (if Reached(env, jobs, agrees, n) then {file} else {})
            && Dirs(env, jobs, agrees, n + 1) ==
              Dirs(env, jobs, agrees, n) + (if Accepted(env, jobs, agrees, n) then {dir} else {})
            && (AllAccepted(env, jobs, agrees, n + 1) <==>
                AllAccepted(env, jobs, agrees, n) && Accepted(env, jobs, agrees, n))
  {
    hide RowCheck, Reached;
  }

  /** Check a list of jobs, row by row. */
  method ResultPathPreflight(env: Env, jobs: seq<Job>, agrees: Job -> bool) returns (r: Report)
    ensures r.Stopped? <==> exists i :: 0 <= i < |jobs| && RowCheck(env, jobs[i]).Stops?
    ensures r.Rows? ==>
      && |r.rows| == |jobs|
      && forall i :: 0 <= i < |jobs| ==> r.rows[i] == Row(jobs[i].index, Accepted(env, jobs, agrees, i))
    ensures r.Rows? ==>
      (r.ok <==> AllReached(env, jobs, agrees) && Distinct(env, jobs))
  {
    hide RowCheck, Accepted, Files, Dirs, AllAccepted;
    var rows: seq<Row>, missing: nat := [], 0;
    var files, dirs: set<string> := {}, {};
    NoRows(env, jobs, agrees);
    for k := 0 to |jobs|
      invariant |rows| == k && forall i :: 0 <= i < k ==> !RowCheck(env, jobs[i]).Stops?
      invariant forall i :: 0 <= i < k ==> rows[i] == Row(jobs[i].index, Accepted(env, jobs, agrees, i))
      invariant missing == 0 <==> AllAccepted(env, jobs, agrees, k)
      invariant files == Files(env, jobs, agrees, k) && dirs == Dirs(env, jobs, agrees, k)
    {
      NextRow(env, jobs, agrees, k);
      var job := jobs[k];
      var verdict := RowCheck(env, job);
      if verdict.Stops? { return Stopped(k); }
      var ok := false;
      if verdict.Passes? && agrees(job) {
        var file, dir := env.disk.resolve(job.resultCsv), env.disk.resolve(job.outputDir);
        if file !in files {
          files := files + {file};
          if dir !in dirs {
            dirs, ok := dirs + {dir}, true;
          }
        }
      }
      if !ok { missing := missing + 1; }
      rows := rows + [Row(job.index, ok)];
    }
    AllAcceptedIffDistinct(env, jobs, agrees);
    r := Rows(rows, missing == 0);
  }

  lemma NoRows(env: Env, jobs: seq<Job>, agrees: Job -> bool)
    ensures Files(env, jobs, agrees, 0) == {} && Dirs(env, jobs, agrees, 0) == {} && AllAccepted(env, jobs, agrees, 0)
  {
  }

  /** Both paths the job declares stay as they are when trimmed and checked again. */
  ghost predicate DeclaresSettled(env: Env, job: Job) {
    && Declared(env, job).Safe? && Settled(Declared(env, job).path)
    && OutputOf(env, job, "").Safe? && Settled(OutputOf(env, job, "").path)
  }

  /**
   A list of bound jobs passes exactly when every job declares settled paths, its test command agrees, and no
   two share a path.
   */
  lemma BoundListPassesIff(env: Env, drafts: seq<Job>, jobs: seq<Job>, agrees: Job -> bool)
    requires Real(env.disk) && |drafts| == |jobs|
    requires forall i: nat :: i < |jobs| ==> Bind(env, drafts[i], "") == Bound(jobs[i])
    ensures AllReached(env, jobs, agrees) && Distinct(env, jobs)
            <==>
              && Distinct(env, jobs)
              && forall i: nat :: i < |jobs| ==> DeclaresSettled(env, drafts[i]) && agrees(jobs[i])
  {
    hide Bind, RowCheck, Declared, OutputOf, Settled, Distinct, Real;
    forall i: nat | i < |jobs| ensures RowCheck(env, jobs[i]).Passes? <==> DeclaresSettled(env, drafts[i]) {
      BoundPassesIffSettled(env, drafts[i], "");
    }
    if AllReached(env, jobs, agrees) {
      forall i: nat | i < |jobs| ensures DeclaresSettled(env, drafts[i]) && agrees(jobs[i]) {
        assert Reached(env, jobs, agrees, i);
      }
    }
  }

  // ---- building the jobs of a plan ----

  /**
   What the plan says about a job but its place, its label, its seed and its configuration, and the layers of
   that.
   */
  datatype Draft = Drafted(job: Job, layers: Layers) | NoDraft

  /** A job with its configuration, or no job when a setting is blocked. */
  datatype Laid = Laid(job: Job) | NotLaid

  function LayOut(env: Env, d: Draft, seed: int): Laid {
    if d.NoDraft? then NotLaid
    else
      var config := DraftConfig(d.layers, seed, d.job.outputDir, Elsewhere(env, d.job));
      if config.Some? && config.value.Dict? then Laid(d.job.(config := config.value)) else NotLaid
  }

  method LayOutJob(env: Env, d: Draft, seed: int) returns (laid: Laid)
    ensures laid == LayOut(env, d, seed)
  {
    hide DraftConfig;
    if d.NoDraft? { return NotLaid; }
    var config := BuildConfig(d.layers, seed, d.job.outputDir, Elsewhere(env, d.job));
    laid := if config.Some? && config.value.Dict? then Laid(d.job.(config := config.value)) else NotLaid;
  }

  /** The absolute output directory, for a job that works somewhere else. */
  function Elsewhere(env: Env, job: Job): Option<string> {
    if job.workingDirectory == "." then None else Some(env.disk.resolve(job.outputDir))
  }

  /** What the plan says about one case and seed, with its place in the list, its label and its seed filled in. */
  function DraftAt<C(!new)>(env: Env, cases: seq<C>, seeds: seq<int>, caseLabel: (C, nat) -> string,
                            draft: (C, int, nat) -> Draft, i: nat): Laid
    requires seeds != [] && i < |cases| * |seeds|
  {
    CellInRange(i, |cases|, |seeds|);
    var c, seed := cases[i / |seeds|], seeds[i % |seeds|];
    var laid := LayOut(env, draft(c, seed, i), seed);
    if laid.NotLaid? then NotLaid
    else Laid(laid.job.(index := i, seed := seed, caseName := caseLabel(c, i - i % |seeds|)))
  }

  lemma TimesKeepsOrder(a: nat, b: nat, width: nat)
    ensures a <= b ==> a * width <= b * width
  {
  }

  lemma CellInRange(i: nat, rows: nat, width: nat)
    requires width > 0 && i < rows * width
    ensures i / width < rows && i % width < width
  {
    TimesKeepsOrder(rows, i / width, width);
  }

  lemma CellOf(row: nat, column: nat, rows: nat, width: nat)
    requires column < width && row < rows
    ensures (row * width + column) / width == row && (row * width + column) % width == column
    ensures row * width + column < (row + 1) * width <= rows * width
  {
    var i := row * width + column;
    var q := i / width;
    assert i == q * width + i % width;
    TimesKeepsOrder(q + 1, row, width);
    TimesKeepsOrder(row + 1, q, width);
    TimesKeepsOrder(row + 1, rows, width);
    assert (q + 1) * width == q * width + width && (row + 1) * width == row * width + width;
  }

  /** No seeds means the one seed 42. */
  function Seeds(seeds: seq<int>): (r: seq<int>)
    ensures r != []
  {
    if seeds == [] then [42] else seeds
  }

  datatype Built = Built(jobs: seq<Job>) | NotBuilt

  /** One job for every case and seed, the seeds of a case together, numbered as they come, each bound. */
  method BuildJobs<C(!new)>(env: Env, cases: seq<C>, planSeeds: seq<int>, caseLabel: (C, nat) -> string,
                            draft: (C, int, nat) -> Draft)
    returns (r: Built)
    ensures var seeds := Seeds(planSeeds);
      && (r.Built? <==> forall i: nat :: i < |cases| * |seeds| ==>
            DraftAt(env, cases, seeds, caseLabel, draft, i).Laid? &&
              Bind(env, DraftAt(env, cases, seeds, caseLabel, draft, i).job, "").Bound?)
      && (r.Built? ==> |r.jobs| == |cases| * |seeds| && forall i: nat :: i < |r.jobs| ==>
            Bind(env, DraftAt(env, cases, seeds, caseLabel, draft, i).job, "") == Bound(r.jobs[i]) &&
              r.jobs[i].index == i
            && r.jobs[i].seed == seeds[i % |seeds|])
  {
    hide Bind, LayOut;
    var seeds, drafts: seq<Job>, index: nat := Seeds(planSeeds), [], 0;
    for c := 0 to |cases|
      invariant index == |drafts| == c * |seeds| <= |cases| * |seeds|
      invariant forall i: nat :: i < |drafts| ==> DraftAt(env, cases, seeds, caseLabel, draft, i) == Laid(drafts[i])
    {
      var caseName := caseLabel(cases[c], index);
      ghost var first := index;
      for s := 0 to |seeds|
        invariant first == c * |seeds| && index == |drafts| == c * |seeds| + s <= |cases| * |seeds|
        invariant forall i: nat :: i < |drafts| ==> DraftAt(env, cases, seeds, caseLabel, draft, i) == Laid(drafts[i])
      {
        CellOf(c, s, |cases|, |seeds|);
        var laid := LayOutJob(env, draft(cases[c], seeds[s], index), seeds[s]);
        if laid.NotLaid? {
          assert DraftAt(env, cases, seeds, caseLabel, draft, index).NotLaid?;
          return NotBuilt;
        }
        drafts := drafts + [laid.job.(index := index, seed := seeds[s], caseName := caseName)];
        index := index + 1;
      }
    }
    var jobs: seq<Job> := [];
    for i := 0 to |drafts|
      invariant |jobs| == i
      invariant forall k: nat :: k < i ==>
        Bind(env, drafts[k], "") == Bound(jobs[k]) && jobs[k].index == k && jobs[k].seed == seeds[k % |seeds|]
    {
      var bound := Bind(env, drafts[i], "");
      if bound.Refused? {
        assert DraftAt(env, cases, seeds, caseLabel, draft, i) == Laid(drafts[i]);
        return NotBuilt;
      }
      BindKeepsIdentity(env, drafts[i], "");
      jobs := jobs + [bound.job];
    }
    r := Built(jobs);
  }
}
