/**
 The test planner: script bodies of named domains expand recursively into gates and test jobs with a
 cycle check, and jobs of the same file and arguments collapse into one row that keeps every source.
 */
module TestPlan {

  /** One step of a script body, split at ` && ` and recognised. `files` are the named or matched files. */
  datatype Step =
    | RunScript(name: string)
    | NodeTest(argv: seq<string>, files: seq<string>)
    | Hoist
    | Gate(command: string)
    | Unsafe

  type Domains = map<string, seq<Step>>

  datatype Job = Job(file: string, argv: seq<string>, source: seq<string>)

  datatype GateRow = GateRow(command: string, source: seq<string>)

  datatype Failure = Cycle(chain: seq<string>) | UnknownShell(chain: seq<string>)

  datatype Expansion = Failed(why: Failure) | Done(gates: seq<GateRow>, jobs: seq<Job>, hoist: bool)

  function JobsOf(files: seq<string>, argv: seq<string>, chain: seq<string>): seq<Job> {
    if files == [] then [] else [Job(files[0], argv, chain)] + JobsOf(files[1..], argv, chain)
  }

  function Names(chain: seq<string>): set<string> {
    set i | 0 <= i < |chain| :: chain[i]
  }

  function Left(domains: Domains, chain: seq<string>): nat {
    |domains.Keys - Names(chain)|
  }

  lemma LeftShrinks(domains: Domains, chain: seq<string>, name: string)
    requires name in domains && name !in chain
    ensures Left(domains, chain + [name]) < Left(domains, chain)
  {
    assert Names(chain + [name]) == Names(chain) + {name} by {
      assert (chain + [name])[|chain|] == name;
      forall x | x in Names(chain) ensures x in Names(chain + [name]) {
        var i :| 0 <= i < |chain| && chain[i] == x;
        assert (chain + [name])[i] == x;
      }
    }
    assert name in domains.Keys - Names(chain);
    assert domains.Keys - Names(chain + [name]) == domains.Keys - Names(chain) - {name};
  }

  /** Join two expansions in order; the first failure wins. */
  function Then(first: Expansion, second: Expansion): Expansion {
    if first.Failed? then first
    else if second.Failed? then second
    else Done(first.gates + second.gates, first.jobs + second.jobs, first.hoist || second.hoist)
  }

  /** Expand domain `name`, the last of `chain`; the first name of the chain is the entry. */
  function Expand(domains: Domains, name: string, chain: seq<string>): Expansion
    requires |chain| >= 2 && chain[|chain| - 1] == name && name in domains
    decreases Left(domains, chain[1..|chain| - 1]), 0
  {
    if name in chain[1..|chain| - 1] then Failed(Cycle(chain))
    else
      assert chain[1..] == chain[1..|chain| - 1] + [name];
      LeftShrinks(domains, chain[1..|chain| - 1], name);
      ExpandSteps(domains, domains[name], chain)
  }

  function ExpandStep(domains: Domains, step: Step, chain: seq<string>): Expansion
    requires |chain| >= 2
    decreases Left(domains, chain[1..]), 1, 0
  {
    match step
    case Unsafe => Failed(UnknownShell(chain))
    case RunScript(ref) =>
      if ref in domains then
        assert (chain + [ref])[1..|chain + [ref]| - 1] == chain[1..];
        Expand(domains, ref, chain + [ref])
      else Done([GateRow("npm run " + ref, chain)], [], false)
    case NodeTest(argv, files) => Done([], JobsOf(files, argv, chain), false)
    case Hoist => Done([], [], true)
    case Gate(command) => Done([GateRow(command, chain)], [], false)
  }

  function ExpandSteps(domains: Domains, steps: seq<Step>, chain: seq<string>): Expansion
    requires |chain| >= 2
    decreases Left(domains, chain[1..]), 1, |steps|
  {
    if steps == [] then Done([], [], false)
    else
      var first := ExpandStep(domains, steps[0], chain);
      if first.Failed? then first else Then(first, ExpandSteps(domains, steps[1..], chain))
  }

  // ---- which manifests expand ----

  predicate Edge(domains: Domains, a: string, b: string) {
    a in domains && b in domains && RunScript(b) in domains[a]
  }

  /** A path of domain references. */
  predicate IsWalk(domains: Domains, walk: seq<string>) {
    && walk != []
    && (forall i :: 0 <= i < |walk| ==> walk[i] in domains)
    && (forall i :: 0 <= i < |walk| - 1 ==> Edge(domains, walk[i], walk[i + 1]))
  }

  predicate Distinct(walk: seq<string>) {
    forall i, k :: 0 <= i < k < |walk| ==> walk[i] != walk[k]
  }

  /** A walk the planner must reject: it comes back to a domain, or ends in one with an unsafe step. */
  predicate Offends(domains: Domains, walk: seq<string>) {
    IsWalk(domains, walk) && (!Distinct(walk) || Unsafe in domains[walk[|walk| - 1]])
  }

  /** Every failure names its evidence: the chain it reports is a real offending walk below the given chain. */
  ghost predicate Evidence(domains: Domains, chain: seq<string>, why: Failure) {
    && chain <= why.chain && why.chain != []
    && Offends(domains, why.chain[1..])
  }

  lemma {:induction false} FailureIsReal(domains: Domains, name: string, chain: seq<string>)
    requires |chain| >= 2 && chain[|chain| - 1] == name && IsWalk(domains, chain[1..])
    requires Expand(domains, name, chain).Failed?
    ensures Evidence(domains, chain, Expand(domains, name, chain).why)
    decreases Left(domains, chain[1..|chain| - 1]), 0
  {
    var walk := chain[1..];
    assert walk[|walk| - 1] == name;
    if name in chain[1..|chain| - 1] {
      var i :| 0 <= i < |chain[1..|chain| - 1]| && chain[1..|chain| - 1][i] == name;
      assert walk[i] == name && i < |walk| - 1;
    } else {
      assert chain[1..] == chain[1..|chain| - 1] + [name];
      LeftShrinks(domains, chain[1..|chain| - 1], name);
      StepsFailureIsReal(domains, domains[name], chain);
    }
  }

  lemma {:induction false} StepsFailureIsReal(domains: Domains, steps: seq<Step>, chain: seq<string>)
    requires |chain| >= 2 && IsWalk(domains, chain[1..]) && chain[|chain| - 1] in domains
    requires PartOf(steps, domains[chain[|chain| - 1]])
    requires ExpandSteps(domains, steps, chain).Failed?
    ensures Evidence(domains, chain, ExpandSteps(domains, steps, chain).why)
    decreases Left(domains, chain[1..]), 1, |steps|
  {
    hide IsWalk, Offends;
    PartOfRest(steps, domains[chain[|chain| - 1]]);
    var walk := chain[1..];
    if steps[0].RunScript? && steps[0].name in domains {
      var longer := chain + [steps[0].name];
      assert longer[1..|longer| - 1] == chain[1..];
      WalkExtends(domains, walk, steps[0].name);
      assert longer[1..] == walk + [steps[0].name];
      if Expand(domains, steps[0].name, longer).Failed? {
        FailureIsReal(domains, steps[0].name, longer);
      } else {
        StepsFailureIsReal(domains, steps[1..], chain);
      }
    } else if steps[0].Unsafe? {
      UnsafeOffends(domains, walk);
    } else {
      StepsFailureIsReal(domains, steps[1..], chain);
    }
  }

  predicate PartOf(steps: seq<Step>, body: seq<Step>) {
    forall i :: 0 <= i < |steps| ==> steps[i] in body
  }

  lemma PartOfRest(steps: seq<Step>, body: seq<Step>)
    requires PartOf(steps, body) && steps != []
    ensures steps[0] in body && PartOf(steps[1..], body)
  {}

  lemma UnsafeOffends(domains: Domains, walk: seq<string>)
    requires IsWalk(domains, walk) && Unsafe in domains[walk[|walk| - 1]]
    ensures Offends(domains, walk)
  {}

  lemma WalkExtends(domains: Domains, walk: seq<string>, name: string)
    requires IsWalk(domains, walk) && name in domains && RunScript(name) in domains[walk[|walk| - 1]]
    ensures IsWalk(domains, walk + [name])
  {
    var longer := walk + [name];
    forall i | 0 <= i < |longer| - 1 ensures Edge(domains, longer[i], longer[i + 1]) {
      if i < |walk| - 1 { assert Edge(domains, walk[i], walk[i + 1]); }
    }
  }

  /** In a body that expands, no step is unsafe and every referenced domain expands too. */
  lemma {:induction false} StepsOfDone(domains: Domains, steps: seq<Step>, chain: seq<string>, step: Step)
    requires |chain| >= 2 && !ExpandSteps(domains, steps, chain).Failed? && step in steps
    ensures !step.Unsafe?
    ensures step.RunScript? && step.name in domains ==>
      (chain + [step.name])[1..|chain|] == chain[1..] && !Expand(domains, step.name, chain + [step.name]).Failed?
    decreases |steps|
  {
    if steps[0] != step { StepsOfDone(domains, steps[1..], chain, step); }
  }

  /** A successful expansion has looked along every walk. */
  lemma {:induction false} DoneCovers(domains: Domains, name: string, chain: seq<string>, walk: seq<string>)
    requires |chain| >= 2 && chain[|chain| - 1] == name && name in domains
    requires !Expand(domains, name, chain).Failed?
    requires IsWalk(domains, walk) && walk[0] == name && Distinct(chain[1..|chain| - 1])
    ensures Distinct(chain[1..|chain| - 1] + walk)
    ensures Unsafe !in domains[walk[|walk| - 1]]
    decreases |walk|
  {
    var before := chain[1..|chain| - 1];
    assert before + [name] == chain[1..];
    if |walk| == 1 {
      if Unsafe in domains[name] { StepsOfDone(domains, domains[name], chain, Unsafe); }
      assert walk == [name];
      assert Distinct(before + [name]);
    } else {
      assert Edge(domains, walk[0], walk[1]);
      StepsOfDone(domains, domains[name], chain, RunScript(walk[1]));
      var longer := chain + [walk[1]];
      assert longer[1..|longer| - 1] == before + [name];
      assert Distinct(before + [name]);
      assert IsWalk(domains, walk[1..]) by {
        forall i | 0 <= i < |walk[1..]| - 1 ensures Edge(domains, walk[1..][i], walk[1..][i + 1]) {
          assert Edge(domains, walk[i + 1], walk[i + 2]);
        }
      }
      DoneCovers(domains, walk[1], longer, walk[1..]);
      assert before + walk == (before + [name]) + walk[1..];
    }
  }

  /**
   The planner's verdict, on every manifest: a domain expands exactly when no walk of references from
   it returns to a domain and none ends in one with an unrecognised shell step.
   */
  lemma ExpandsIffNothingOffends(domains: Domains, entry: string, name: string)
    requires name in domains
    ensures !Expand(domains, name, [entry, name]).Failed? <==>
            forall walk :: IsWalk(domains, walk) && walk[0] == name ==> !Offends(domains, walk)
  {
    var chain := [entry, name];
    assert chain[1..] == [name] && chain[1..1] == [];
    if Expand(domains, name, chain).Failed? {
      FailureIsReal(domains, name, chain);
      var walk := Expand(domains, name, chain).why.chain[1..];
      assert Offends(domains, walk) && walk[0] == name;
    } else {
      forall walk | IsWalk(domains, walk) && walk[0] == name ensures !Offends(domains, walk) {
        DoneCovers(domains, name, chain, walk);
        assert [] + walk == walk;
      }
    }
  }

  // ---- which jobs come out ----

  /** The file is named or matched, with these arguments, by a test step. */
  ghost predicate Tests(steps: seq<Step>, file: string, argv: seq<string>) {
    exists files :: NodeTest(argv, files) in steps && file in files
  }

  /** The job's source runs on from `chain` along a walk to a domain that tests the job's file. */
  ghost predicate ComesFrom(domains: Domains, chain: seq<string>, job: Job)
    requires |chain| >= 2
  {
    && chain <= job.source
    && IsWalk(domains, job.source[|chain| - 1..])
    && Tests(domains[job.source[|job.source| - 1]], job.file, job.argv)
  }

  ghost predicate ComesFromSteps(domains: Domains, steps: seq<Step>, chain: seq<string>, job: Job)
    requires |chain| >= 2
  {
    || (job.source == chain && Tests(steps, job.file, job.argv))
    || exists ref :: RunScript(ref) in steps && ref in domains && ComesFrom(domains, chain + [ref], job)
  }

  lemma {:induction false} JobsOfSpec(files: seq<string>, argv: seq<string>, chain: seq<string>, job: Job)
    ensures job in JobsOf(files, argv, chain) <==> job.file in files && job.argv == argv && job.source == chain
  {
    if files != [] { JobsOfSpec(files[1..], argv, chain, job); }
  }

  /** What the first step and the remaining steps contribute. */
  lemma SplitFirstStep(domains: Domains, steps: seq<Step>, chain: seq<string>, job: Job)
    requires |chain| >= 2 && steps != []
    ensures ComesFromSteps(domains, steps, chain, job) <==>
            ComesFromSteps(domains, [steps[0]], chain, job) || ComesFromSteps(domains, steps[1..], chain, job)
  {
    assert steps == [steps[0]] + steps[1..];
    hide ComesFrom;
  }

  lemma OneStep(domains: Domains, step: Step, chain: seq<string>, job: Job)
    requires |chain| >= 2
    ensures ComesFromSteps(domains, [step], chain, job) <==>
            || (step.NodeTest? && job.file in step.files && job.argv == step.argv && job.source == chain)
            || (step.RunScript? && step.name in domains && ComesFrom(domains, chain + [step.name], job))
  {
    hide ComesFrom;
    if step.NodeTest? && job.file in step.files && job.argv == step.argv && job.source == chain {
      assert NodeTest(job.argv, step.files) in [step];
    }
    if step.RunScript? && step.name in domains && ComesFrom(domains, chain + [step.name], job) {
      assert RunScript(step.name) in [step];
    }
  }

  /** A job comes from a domain if it comes from the steps of its body. */
  lemma BodyOfDomain(domains: Domains, name: string, chain: seq<string>, job: Job)
    requires |chain| >= 2 && chain[|chain| - 1] == name && name in domains
    ensures ComesFromSteps(domains, domains[name], chain, job) <==> ComesFrom(domains, chain, job)
  {
    hide Tests;
    if ComesFrom(domains, chain, job) {
      var walk := job.source[|chain| - 1..];
      assert walk[0] == name;
      if |walk| == 1 {
        assert job.source == chain;
      } else {
        assert Edge(domains, walk[0], walk[1]);
        assert job.source[|chain|..] == walk[1..];
        assert chain + [walk[1]] <= job.source;
        WalkRest(domains, walk);
      }
    }
    if job.source == chain && Tests(domains[name], job.file, job.argv) {
      assert job.source[|chain| - 1..] == [name];
    }
    forall ref | RunScript(ref) in domains[name] && ref in domains && ComesFrom(domains, chain + [ref], job)
      ensures ComesFrom(domains, chain, job)
    {
      var walk := job.source[|chain|..];
      assert (chain + [ref])[|chain|] == ref && walk[0] == ref;
      assert job.source[|chain| - 1..] == [name] + walk;
      WalkPrepends(domains, name, walk);
    }
  }

  lemma WalkRest(domains: Domains, walk: seq<string>)
    requires IsWalk(domains, walk) && |walk| > 1
    ensures IsWalk(domains, walk[1..])
  {
    forall i | 0 <= i < |walk[1..]| - 1 ensures Edge(domains, walk[1..][i], walk[1..][i + 1]) {
      assert Edge(domains, walk[i + 1], walk[i + 2]);
    }
  }

  lemma WalkPrepends(domains: Domains, name: string, walk: seq<string>)
    requires IsWalk(domains, walk) && Edge(domains, name, walk[0])
    ensures IsWalk(domains, [name] + walk)
  {
    var longer := [name] + walk;
    forall i | 0 <= i < |longer| - 1 ensures Edge(domains, longer[i], longer[i + 1]) {
      if i > 0 { assert Edge(domains, walk[i - 1], walk[i]); }
    }
  }

  /** Which jobs a successful expansion has: those whose source is a walk to a domain that tests their file. */
  lemma {:induction false} JobsAreTheWalks(domains: Domains, name: string, chain: seq<string>, job: Job)
    requires |chain| >= 2 && chain[|chain| - 1] == name && name in domains
    requires !Expand(domains, name, chain).Failed?
    ensures job in Expand(domains, name, chain).jobs <==> ComesFrom(domains, chain, job)
    decreases Left(domains, chain[1..|chain| - 1]), 0
  {
    assert chain[1..] == chain[1..|chain| - 1] + [name];
    LeftShrinks(domains, chain[1..|chain| - 1], name);
    StepJobsAreTheWalks(domains, domains[name], chain, job);
    BodyOfDomain(domains, name, chain, job);
  }

  lemma {:induction false} StepJobsAreTheWalks(domains: Domains, steps: seq<Step>, chain: seq<string>, job: Job)
    requires |chain| >= 2 && !ExpandSteps(domains, steps, chain).Failed?
    ensures job in ExpandSteps(domains, steps, chain).jobs <==> ComesFromSteps(domains, steps, chain, job)
    decreases Left(domains, chain[1..]), 1, |steps|
  {
    if steps != [] {
      SplitFirstStep(domains, steps, chain, job);
      OneStep(domains, steps[0], chain, job);
      StepJobsAreTheWalks(domains, steps[1..], chain, job);
      hide ComesFromSteps, ComesFrom;
      match steps[0]
      case RunScript(ref) =>
        if ref in domains {
          assert (chain + [ref])[1..|chain + [ref]| - 1] == chain[1..];
          JobsAreTheWalks(domains, ref, chain + [ref], job);
        }
      case NodeTest(argv, files) => JobsOfSpec(files, argv, chain, job);
      case _ =>
    }
  }

  // ---- how often a job comes out ----

  /** How often the steps name the file with these arguments. */
  function Named(steps: seq<Step>, file: string, argv: seq<string>): nat {
    if steps == [] then 0
    else
      (if steps[0].NodeTest? && steps[0].argv == argv then multiset(steps[0].files)[file] else 0) +
        Named(steps[1..], file, argv)
  }

  /** How often the steps refer to the domain. */
  function Refs(steps: seq<Step>, name: string): nat {
    if steps == [] then 0 else (if steps[0] == RunScript(name) then 1 else 0) + Refs(steps[1..], name)
  }

  /** Along a walk: the repeats of every reference, times how often the last domain names the file. */
  function Times(domains: Domains, walk: seq<string>, file: string, argv: seq<string>): nat
    requires walk != []
  {
    if walk[0] !in domains then 0
    else if |walk| == 1 then Named(domains[walk[0]], file, argv)
    else Refs(domains[walk[0]], walk[1]) * Times(domains, walk[1..], file, argv)
  }

  lemma {:induction false} JobsOfCount(files: seq<string>, argv: seq<string>, chain: seq<string>, job: Job)
    ensures multiset(JobsOf(files, argv, chain))[job] ==
            if job.argv == argv && job.source == chain then multiset(files)[job.file] else 0
  {
    if files != [] {
      JobsOfCount(files[1..], argv, chain, job);
      assert files == [files[0]] + files[1..];
      assert multiset(files) == multiset([files[0]]) + multiset(files[1..]);
      var first := Job(files[0], argv, chain);
      assert multiset(JobsOf(files, argv, chain)) == multiset([first]) + multiset(JobsOf(files[1..], argv, chain));
    }
  }

  /** What the steps of a body contribute to a job whose source is the body's chain, or runs on from it. */
  function StepTimes(domains: Domains, steps: seq<Step>, chain: seq<string>, job: Job): nat {
    if job.source == chain then Named(steps, job.file, job.argv)
    else if chain < job.source then
      Refs(steps, job.source[|chain|]) * Times(domains, job.source[|chain|..], job.file, job.argv)
    else 0
  }

  /** A job occurs once for every way its source can be walked and every mention of its file at the end. */
  lemma {:induction false} JobOccurs(domains: Domains, name: string, chain: seq<string>, job: Job)
    requires |chain| >= 2 && chain[|chain| - 1] == name && name in domains
    requires !Expand(domains, name, chain).Failed?
    ensures multiset(Expand(domains, name, chain).jobs)[job] ==
      if chain <= job.source then Times(domains, job.source[|chain| - 1..], job.file, job.argv) else 0
    decreases Left(domains, chain[1..|chain| - 1]), 0
  {
    assert chain[1..] == chain[1..|chain| - 1] + [name];
    LeftShrinks(domains, chain[1..|chain| - 1], name);
    StepsOccur(domains, domains[name], chain, job);
    if chain <= job.source {
      var walk := job.source[|chain| - 1..];
      assert walk[0] == name;
      if |walk| == 1 {
        assert job.source == chain;
      } else {
        assert walk[1..] == job.source[|chain|..];
      }
    }
  }

  lemma {:induction false} StepsOccur(domains: Domains, steps: seq<Step>, chain: seq<string>, job: Job)
    requires |chain| >= 2 && !ExpandSteps(domains, steps, chain).Failed?
    ensures multiset(ExpandSteps(domains, steps, chain).jobs)[job] == StepTimes(domains, steps, chain, job)
    decreases Left(domains, chain[1..]), 1, |steps|
  {
    if steps != [] {
      var first, rest := ExpandStep(domains, steps[0], chain), ExpandSteps(domains, steps[1..], chain);
      StepsOccur(domains, steps[1..], chain, job);
      assert multiset(first.jobs + rest.jobs) == multiset(first.jobs) + multiset(rest.jobs);
      FirstTimes(domains, steps, chain, job);
      match steps[0]
      case RunScript(ref) =>
        if ref in domains {
          assert (chain + [ref])[1..|chain + [ref]| - 1] == chain[1..];
          JobOccurs(domains, ref, chain + [ref], job);
        }
        ReferenceTimes(domains, ref, chain, job);
      case NodeTest(argv, files) => JobsOfCount(files, argv, chain, job);
      case _ =>
    }
  }

  /** What the first step adds. */
  lemma FirstTimes(domains: Domains, steps: seq<Step>, chain: seq<string>, job: Job)
    requires steps != []
    ensures StepTimes(domains, steps, chain, job) ==
            StepTimes(domains, [steps[0]], chain, job) + StepTimes(domains, steps[1..], chain, job)
  {
    hide Times;
    assert [steps[0]][1..] == [];
    assert Named(steps, job.file, job.argv) ==
      Named([steps[0]], job.file, job.argv) + Named(steps[1..], job.file, job.argv);
    if chain < job.source && job.source != chain {
      assert Refs(steps, job.source[|chain|]) ==
        Refs([steps[0]], job.source[|chain|]) + Refs(steps[1..], job.source[|chain|]);
      var times := Times(domains, job.source[|chain|..], job.file, job.argv);
      var a, b := Refs([steps[0]], job.source[|chain|]), Refs(steps[1..], job.source[|chain|]);
      assert (a + b) * times == a * times + b * times;
    }
  }

  /** One reference adds what the domain it names adds. */
  lemma ReferenceTimes(domains: Domains, ref: string, chain: seq<string>, job: Job)
    ensures StepTimes(domains, [RunScript(ref)], chain, job) ==
      if ref in domains && chain + [ref] <= job.source then
        Times(domains, job.source[|chain + [ref]| - 1..], job.file, job.argv)
      else 0
  {
    hide Times;
    var longer := chain + [ref];
    assert [RunScript(ref)][1..] == [];
    assert Named([RunScript(ref)], job.file, job.argv) == 0;
    if longer <= job.source {
      assert longer[|chain|] == ref && longer[..|chain|] == chain && job.source[..|chain|] == chain;
      assert Refs([RunScript(ref)], job.source[|chain|]) == 1;
    } else if chain < job.source && job.source != chain {
      PrefixGoesOn(chain, ref, job.source);
      assert Refs([RunScript(ref)], job.source[|chain|]) == 0;
    }
    if ref !in domains { NoDomainNoTimes(domains, ref, job, |chain|); }
  }

  lemma PrefixGoesOn(chain: seq<string>, ref: string, source: seq<string>)
    requires chain < source
    ensures chain + [ref] <= source <==> source[|chain|] == ref
  {
    assert source == source[..|chain|] + [source[|chain|]] + source[|chain| + 1..];
  }

  /** A step that names a file twice asks for it twice. */
  lemma NamedTwiceOccursTwice()
    ensures Expand(map["d" := [NodeTest([], ["a", "a"])]], "d", ["e", "d"])
         == Done([], [Job("a", [], ["e", "d"]), Job("a", [], ["e", "d"])], false)
  {
    var steps, chain := [NodeTest([], ["a", "a"])], ["e", "d"];
    assert steps[1..] == [] && ["a", "a"][1..] == ["a"] && ["a"][1..] == [];
    assert chain[1..|chain| - 1] == [];
    assert JobsOf(["a", "a"], [], chain) == [Job("a", [], chain), Job("a", [], chain)];
  }

  lemma NoDomainNoTimes(domains: Domains, ref: string, job: Job, at: nat)
    requires ref !in domains
    ensures at < |job.source| && job.source[at] == ref ==> Times(domains, job.source[at..], job.file, job.argv) == 0
  {
  }

  // ---- the planner itself ----

  class Accumulator {
    var gates: seq<GateRow>
    var jobs: seq<Job>
    var hoist: bool

    constructor ()
      ensures gates == [] && jobs == [] && !hoist
    {
      gates, jobs, hoist := [], [], false;
    }

    ghost function Contents(): Expansion
      reads this
    {
      Done(gates, jobs, hoist)
    }

    method AddJobs(files: seq<string>, argv: seq<string>, chain: seq<string>)
      modifies this
      ensures Contents() == Then(old(Contents()), Done([], JobsOf(files, argv, chain), false))
    {
      var k := 0;
      while k < |files|
        invariant k <= |files| && gates == old(gates) && hoist == old(hoist)
        invariant jobs + JobsOf(files[k..], argv, chain) == old(jobs) + JobsOf(files, argv, chain)
      {
        jobs := jobs + [Job(files[k], argv, chain)];
        assert files[k..][1..] == files[k + 1..];
        k := k + 1;
      }
    }
  }

  lemma ThenAssociates(a: Expansion, b: Expansion, c: Expansion)
    ensures Then(Then(a, b), c) == Then(a, Then(b, c))
  {
    if a.Done? && b.Done? && c.Done? {
      assert (a.gates + b.gates) + c.gates == a.gates + (b.gates + c.gates);
      assert (a.jobs + b.jobs) + c.jobs == a.jobs + (b.jobs + c.jobs);
    }
  }

  /** Expand a domain into the accumulator; a failure aborts the plan and names its chain. */
  method ExpandDomain(domains: Domains, name: string, chain: seq<string>, acc: Accumulator)
    returns (failed: bool, why: Failure)
    requires |chain| >= 2 && chain[|chain| - 1] == name && name in domains
    modifies acc
    ensures failed <==> Expand(domains, name, chain).Failed?
    ensures failed ==> why == Expand(domains, name, chain).why
    ensures !failed ==> acc.Contents() == Then(old(acc.Contents()), Expand(domains, name, chain))
    decreases Left(domains, chain[1..|chain| - 1]), 0
  {
    failed, why := false, Cycle(chain);
    if name in chain[1..|chain| - 1] { failed := true; return; }
    assert chain[1..] == chain[1..|chain| - 1] + [name];
    LeftShrinks(domains, chain[1..|chain| - 1], name);
    var body := domains[name];
    var i := 0;
    while i < |body|
      invariant i <= |body| && !failed
      invariant Then(acc.Contents(), ExpandSteps(domains, body[i..], chain)) ==
                Then(old(acc.Contents()), ExpandSteps(domains, body, chain))
      decreases |body| - i
    {
      ghost var before, rest := acc.Contents(), ExpandSteps(domains, body[i + 1..], chain);
      assert body[i..][0] == body[i] && body[i..][1..] == body[i + 1..];
      failed, why := RunStep(domains, body[i], chain, acc);
      if failed { return; }
      ThenAssociates(before, ExpandStep(domains, body[i], chain), rest);
      i := i + 1;
    }
    assert body[|body|..] == [];
  }

  method RunStep(domains: Domains, step: Step, chain: seq<string>, acc: Accumulator)
      returns (failed: bool, why: Failure)
    requires |chain| >= 2
    modifies acc
    ensures failed <==> ExpandStep(domains, step, chain).Failed?
    ensures failed ==> why == ExpandStep(domains, step, chain).why
    ensures !failed ==> acc.Contents() == Then(old(acc.Contents()), ExpandStep(domains, step, chain))
    decreases Left(domains, chain[1..]), 1
  {
    failed, why := false, UnknownShell(chain);
    match step
    case Unsafe => failed := true;
    case RunScript(ref) =>
      if ref in domains {
        assert (chain + [ref])[1..|chain + [ref]| - 1] == chain[1..];
        failed, why := ExpandDomain(domains, ref, chain + [ref], acc);
      } else {
        acc.gates := acc.gates + [GateRow("npm run " + ref, chain)];
      }
    case NodeTest(argv, files) => acc.AddJobs(files, argv, chain);
    case Hoist => acc.hoist := true;
    case Gate(command) => acc.gates := acc.gates + [GateRow(command, chain)];
  }
}
