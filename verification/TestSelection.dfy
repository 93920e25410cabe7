/**
 Choosing the old tests that run only on demand: files are grouped by domain, the oldest groups are
 candidates, and a candidate stays on demand unless something protects it or the user asks for it.
 */
module TestSelection {

  datatype Option<T> = None | Some(value: T)

  /** A planned job: its file, and the names along each chain of domains it came through. */
  datatype Job = Job(id: string, file: string, sources: seq<seq<string>>)

  /** The files of one group; a file without a domain is a group of its own. */
  datatype Group = Group(key: string, files: seq<string>, owned: bool)

  datatype Info = Info(file: string, domain: string)

  // ---- grouping ----

  /** The last name of a chain that is a domain, or "". */
  function LastDomain(names: seq<string>, domains: set<string>): string {
    if names == [] then ""
    else if names[|names| - 1] in domains then names[|names| - 1]
    else LastDomain(names[..|names| - 1], domains)
  }

  /** The domain of a job, or "" when no source names one. */
  function GroupKeyOfJob(sources: seq<seq<string>>, domains: set<string>): string {
    if sources == [] then ""
    else if LastDomain(sources[0], domains) != "" then LastDomain(sources[0], domains)
    else GroupKeyOfJob(sources[1..], domains)
  }

  function Position(files: seq<Info>, file: string): (i: nat)
    ensures i <= |files| && (i < |files| ==> files[i].file == file)
    ensures forall k :: 0 <= k < i ==> files[k].file != file
  {
    if files == [] || files[0].file == file then 0 else Position(files[1..], file) + 1
  }

  /** The files of the jobs in the order they come up, each with the domain of its first job. */
  function FilesOf(jobs: seq<Job>, domains: set<string>): seq<Info> {
    if jobs == [] then []
    else
      var before, job := FilesOf(jobs[..|jobs| - 1], domains), jobs[|jobs| - 1];
      if Position(before, job.file) < |before| then before
      else before + [Info(job.file, GroupKeyOfJob(job.sources, domains))]
  }

  function Place(groups: seq<Group>, key: string): (i: nat)
    ensures i <= |groups| && (i < |groups| ==> groups[i].key == key)
    ensures forall k :: 0 <= k < i ==> groups[k].key != key
  {
    if groups == [] || groups[0].key == key then 0 else Place(groups[1..], key) + 1
  }

  /** Put a group under its key: in place of the one that has it, or at the end. */
  function Put(groups: seq<Group>, group: Group): seq<Group> {
    var i := Place(groups, group.key);
    if i < |groups| then groups[i := group] else groups + [group]
  }

  /** A file without a domain is a protected group of its own; one with a domain joins the group of that name. */
  function Add(groups: seq<Group>, info: Info): seq<Group> {
    if info.domain == "" then Put(groups, Group("protected:" + info.file, [info.file], false))
    else
      var i := Place(groups, info.domain);
      if i < |groups| then groups[i := groups[i].(files := groups[i].files + [info.file])]
      else groups + [Group(info.domain, [info.file], true)]
  }

  function GroupsOf(files: seq<Info>): seq<Group> {
    if files == [] then [] else Add(GroupsOf(files[..|files| - 1]), files[|files| - 1])
  }

  method CollectFiles(jobs: seq<Job>, domains: set<string>) returns (files: seq<Info>)
    ensures files == FilesOf(jobs, domains)
  {
    files := [];
    for i := 0 to |jobs|
      invariant files == FilesOf(jobs[..i], domains)
    {
      assert jobs[..i + 1][..i] == jobs[..i];
      if Position(files, jobs[i].file) == |files| {
        files := files + [Info(jobs[i].file, GroupKeyOfJob(jobs[i].sources, domains))];
      }
    }
    assert jobs[..|jobs|] == jobs;
  }

  method CollectGroups(files: seq<Info>) returns (groups: seq<Group>)
    ensures groups == GroupsOf(files)
  {
    groups := [];
    for i := 0 to |files|
      invariant groups == GroupsOf(files[..i])
    {
      assert files[..i + 1][..i] == files[..i];
      var info := files[i];
      if info.domain == "" {
        groups := Put(groups, Group("protected:" + info.file, [info.file], false));
        continue;
      }
      var at := Place(groups, info.domain);
      if at == |groups| {
        groups := groups + [Group(info.domain, [info.file], true)];
      } else {
        groups := groups[at := groups[at].(files := groups[at].files + [info.file])];
      }
    }
    assert files[..|files|] == files;
  }

  // ---- group times ----

  function Max(a: int, b: int): int {
    if a > b then a else b
  }

  /** The latest time any of the files entered history, or none when one of them is unknown. */
  function Latest(files: seq<string>, times: map<string, int>): Option<int> {
    if files == [] then Some(0)
    else
      var before, file := Latest(files[..|files| - 1], times), files[|files| - 1];
      if before.None? || file !in times then None else Some(Max(before.value, times[file]))
  }

  function Born(group: Group, times: map<string, int>): Option<int> {
    if group.owned then Latest(group.files, times) else None
  }

  method BirthTime(group: Group, times: map<string, int>) returns (born: Option<int>)
    ensures born == Born(group, times)
  {
    if !group.owned { return None; }
    born := Some(0);
    for i := 0 to |group.files|
      invariant born == Latest(group.files[..i], times)
    {
      var file := group.files[i];
      assert group.files[..i + 1][..i] == group.files[..i];
      if file !in times {
        born := None;
      } else if born.Some? {
        born := Some(Max(born.value, times[file]));
      }
    }
    assert group.files[..|group.files|] == group.files;
  }

  // ---- the oldest groups ----

  /** Everything a selection is made from besides the jobs. */
  datatype Evidence = Evidence(
    domains: set<string>,
    times: map<string, int>,
    changed: Option<set<string>>,
    closure: map<string, set<string>>,
    critical: string -> bool,
    atMost: (string, string) -> bool,
    include_: set<string>
  )

  datatype Dated = Dated(group: Group, born: int)

  predicate Ahead(a: Dated, b: Dated, atMost: (string, string) -> bool) {
    a.born < b.born || (a.born == b.born && atMost(a.group.key, b.group.key))
  }

  /** Behind everything that goes ahead of it. */
  function Insert(d: Dated, sorted: seq<Dated>, atMost: (string, string) -> bool): seq<Dated> {
    if sorted == [] || !Ahead(sorted[0], d, atMost) then [d] + sorted
    else [sorted[0]] + Insert(d, sorted[1..], atMost)
  }

  /** The groups of known age by time and then by name, the oldest first. */
  function Oldest(groups: seq<Group>, e: Evidence): seq<Dated> {
    if groups == [] then []
    else
      var before, last := Oldest(groups[..|groups| - 1], e), groups[|groups| - 1];
      if Born(last, e.times).None? then before else Insert(Dated(last, Born(last, e.times).value), before, e.atMost)
  }

  /** At most three fifths of all groups. */
  function CapOf(n: nat): nat {
    3 * n / 5
  }

  function Candidates(groups: seq<Group>, e: Evidence): (r: seq<Dated>)
    ensures r <= Oldest(groups, e) && |r| <= CapOf(|groups|)
    ensures |r| < CapOf(|groups|) ==> r == Oldest(groups, e)
  {
    var oldest := Oldest(groups, e);
    if |oldest| <= CapOf(|groups|) then oldest else oldest[..CapOf(|groups|)]
  }

  // ---- protection ----

  const RUNNER_OWN_FILES: set<string> := {
    "scripts/test-workflow.js", "scripts/test-selection.js", "scripts/test-workflow.json", "package.json",
    "tsconfig.json"}

  predicate ScopeUnknown(e: Evidence) {
    e.changed.None? || e.changed.value * RUNNER_OWN_FILES != {}
  }

  predicate IsCritical(group: Group, e: Evidence) {
    e.critical(group.key) || exists i :: 0 <= i < |group.files| && e.critical(group.files[i])
  }

  /** A changed file is one of the group's. */
  predicate IsChanged(group: Group, e: Evidence) {
    e.changed.Some? && exists i :: 0 <= i < |group.files| && group.files[i] in e.changed.value
  }

  /** A changed file is one that a file of the group is known to depend on. */
  predicate DependsOnChange(group: Group, e: Evidence) {
    e.changed.Some? &&
    exists i :: 0 <= i < |group.files| && group.files[i] in e.closure &&
                e.closure[group.files[i]] * e.changed.value != {}
  }

  predicate IsUnattested(group: Group, e: Evidence) {
    exists i :: 0 <= i < |group.files| && group.files[i] !in e.closure
  }

  datatype Reason = ScopeNotKnown | CriticalClass | ChangedThisRound | ChangedDependency | UnattestedMembers

  /** Why a candidate is run after all, if it is. */
  function Protection(group: Group, e: Evidence): Option<Reason> {
    if ScopeUnknown(e) then Some(ScopeNotKnown)
    else if IsCritical(group, e) then Some(CriticalClass)
    else if IsChanged(group, e) then Some(ChangedThisRound)
    else if DependsOnChange(group, e) then Some(ChangedDependency)
    else if IsUnattested(group, e) then Some(UnattestedMembers)
    else None
  }

  predicate Contains(s: string, part: string) {
    |part| <= |s| && (s[..|part|] == part || (s != "" && Contains(s[1..], part)))
  }

  /** The user asks for everything, for the group, or for files by a part of their name. */
  predicate AskedFor(group: Group, e: Evidence) {
    || "all" in e.include_ || group.key in e.include_
    || exists i, part :: 0 <= i < |group.files| && part in e.include_ && part != "all" && Contains(group.files[i], part)
  }

  predicate StaysOnDemand(group: Group, e: Evidence) {
    Protection(group, e).None? && !AskedFor(group, e)
  }

  function Staying(candidates: seq<Dated>, e: Evidence): seq<Group> {
    if candidates == [] then []
    else
      var last := candidates[|candidates| - 1].group;
      Staying(candidates[..|candidates| - 1], e) + if StaysOnDemand(last, e) then [last] else []
  }

  function FilesIn(groups: seq<Group>): set<string> {
    set i, k | 0 <= i < |groups| && 0 <= k < |groups[i].files| :: groups[i].files[k]
  }

  function Jobs(jobs: seq<Job>, files: set<string>, inside: bool): seq<Job> {
    if jobs == [] then []
    else
      var last := jobs[|jobs| - 1];
      Jobs(jobs[..|jobs| - 1], files, inside) + if (last.file in files) == inside then [last] else []
  }

  datatype Selection = Selection(
    groups: seq<Group>,
    candidates: seq<Dated>,
    protectedRestored: seq<(string, Reason)>,
    restoredByUser: seq<string>,
    onDemand: seq<Group>,
    executedJobs: seq<Job>,
    onDemandJobs: seq<Job>
  )

  method BuildSelection(jobs: seq<Job>, e: Evidence) returns (s: Selection)
    ensures s.groups == GroupsOf(FilesOf(jobs, e.domains))
    ensures s.candidates == Candidates(s.groups, e)
    ensures s.onDemand == Staying(s.candidates, e)
    ensures s.executedJobs == Jobs(jobs, FilesIn(s.onDemand), false) &&
            s.onDemandJobs == Jobs(jobs, FilesIn(s.onDemand), true)
    ensures forall entry :: entry in s.protectedRestored <==> WasProtected(s.candidates, e, entry)
    ensures forall key :: key in s.restoredByUser <==> WasAskedFor(s.candidates, e, key)
    ensures |s.protectedRestored| + |s.restoredByUser| + |s.onDemand| == |s.candidates|
  {
    hide Candidates, Staying, GroupsOf, FilesOf, WasProtected, WasAskedFor;
    var files := CollectFiles(jobs, e.domains);
    var groups := CollectGroups(files);
    var candidates := CutOldest(groups, e);
    var restored, asked, onDemand := DecideCandidates(candidates, e);
    var onDemandFiles := FilesIn(onDemand);
    var executed, waiting := SplitJobs(jobs, onDemandFiles);
    s := Selection(groups, candidates, restored, asked, onDemand, executed, waiting);
  }

  /** Date every group, line up those of known age and cut off the oldest. */
  method CutOldest(groups: seq<Group>, e: Evidence) returns (candidates: seq<Dated>)
    ensures candidates == Candidates(groups, e)
  {
    hide Born, Insert;
    var oldest: seq<Dated> := [];
    for i := 0 to |groups|
      invariant oldest == Oldest(groups[..i], e)
    {
      assert groups[..i + 1][..i] == groups[..i];
      var born := BirthTime(groups[i], e.times);
      if born.Some? { oldest := Insert(Dated(groups[i], born.value), oldest, e.atMost); }
    }
    assert groups[..|groups|] == groups;
    var cap := CapOf(|groups|);
    candidates := if |oldest| <= cap then oldest else oldest[..cap];
  }

  /** The entry names a candidate and the reason it is protected. */
  ghost predicate WasProtected(candidates: seq<Dated>, e: Evidence, entry: (string, Reason)) {
    exists i :: 0 <= i < |candidates| && candidates[i].group.key == entry.0 &&
      Protection(candidates[i].group, e) == Some(entry.1)
  }

  /** The key is that of an unprotected candidate the user asks for. */
  ghost predicate WasAskedFor(candidates: seq<Dated>, e: Evidence, key: string) {
    exists i :: 0 <= i < |candidates| && candidates[i].group.key == key
             && Protection(candidates[i].group, e).None? && AskedFor(candidates[i].group, e)
  }

  method DecideCandidates(candidates: seq<Dated>, e: Evidence)
    returns (restored: seq<(string, Reason)>, asked: seq<string>, onDemand: seq<Group>)
    ensures onDemand == Staying(candidates, e)
    ensures forall entry :: entry in restored <==> WasProtected(candidates, e, entry)
    ensures forall key :: key in asked <==> WasAskedFor(candidates, e, key)
    ensures |restored| + |asked| + |onDemand| == |candidates|
  {
    hide Protection, AskedFor, WasProtected, WasAskedFor, Staying;
    restored, asked, onDemand := [], [], [];
    NobodyDecided(e);
    for i := 0 to |candidates|
      invariant onDemand == Staying(candidates[..i], e)
      invariant forall entry :: entry in restored <==> WasProtected(candidates[..i], e, entry)
      invariant forall key :: key in asked <==> WasAskedFor(candidates[..i], e, key)
      invariant |restored| + |asked| + |onDemand| == i
    {
      var group := candidates[i].group;
      var reason := Protection(group, e);
      OneMoreDecided(candidates, e, i);
      if reason.Some? {
        restored := restored + [(group.key, reason.value)];
      } else if AskedFor(group, e) {
        asked := asked + [group.key];
      } else {
        onDemand := onDemand + [group];
      }
    }
    assert candidates[..|candidates|] == candidates;
  }

  lemma NobodyDecided(e: Evidence)
    ensures Staying([], e) == [] && forall entry :: !WasProtected([], e, entry)
    ensures forall key :: !WasAskedFor([], e, key)
  {
  }

  lemma OneMoreDecided(candidates: seq<Dated>, e: Evidence, n: nat)
    requires n < |candidates|
    ensures var group, before, after := candidates[n].group, candidates[..n], candidates[..n + 1];
            && Staying(after, e) == Staying(before, e) + (if StaysOnDemand(group, e) then [group] else [])
            && (forall entry :: WasProtected(after, e, entry) <==>
                  WasProtected(before, e, entry) || (entry.0 == group.key && Protection(group, e) == Some(entry.1)))
            && (forall key :: WasAskedFor(after, e, key) <==>
                  WasAskedFor(before, e, key) || (key == group.key && Protection(group, e).None? && AskedFor(group, e)))
  {
    hide Protection, AskedFor;
    var before, after := candidates[..n], candidates[..n + 1];
    assert after[..n] == before;
    assert forall i :: 0 <= i < n ==> after[i] == before[i];
  }

  method SplitJobs(jobs: seq<Job>, files: set<string>) returns (executed: seq<Job>, waiting: seq<Job>)
    ensures executed == Jobs(jobs, files, false) && waiting == Jobs(jobs, files, true)
  {
    executed, waiting := [], [];
    for i := 0 to |jobs|
      invariant executed == Jobs(jobs[..i], files, false) && waiting == Jobs(jobs[..i], files, true)
    {
      assert jobs[..i + 1][..i] == jobs[..i];
      if jobs[i].file in files { waiting := waiting + [jobs[i]]; } else { executed := executed + [jobs[i]]; }
    }
    assert jobs[..|jobs|] == jobs;
  }

  // ---- nothing lost, nothing twice ----

  /** The two lists, shuffled together in their own orders, make the whole. */
  ghost predicate Interleaves(a: seq<Job>, b: seq<Job>, whole: seq<Job>)
    decreases |whole|
  {
    if whole == [] then a == [] && b == []
    else
      var last, front := whole[|whole| - 1], whole[..|whole| - 1];
      || (a != [] && a[|a| - 1] == last && Interleaves(a[..|a| - 1], b, front))
      || (b != [] && b[|b| - 1] == last && Interleaves(a, b[..|b| - 1], front))
  }

  /** Every job is executed or on demand, once, in the order of the plan, as its file decides. */
  lemma {:induction false} JobsInterleave(jobs: seq<Job>, files: set<string>)
    ensures Interleaves(Jobs(jobs, files, false), Jobs(jobs, files, true), jobs)
  {
    if jobs != [] {
      var last, front := jobs[|jobs| - 1], jobs[..|jobs| - 1];
      JobsInterleave(front, files);
      var a, b := Jobs(front, files, false), Jobs(front, files, true);
      assert (a + [last])[..|a|] == a && (b + [last])[..|b|] == b;
      assert a + [] == a && b + [] == b;
    }
  }

  lemma {:induction false} JobsByFile(jobs: seq<Job>, files: set<string>, inside: bool)
    ensures forall job :: job in Jobs(jobs, files, inside) <==> job in jobs && (job.file in files) == inside
  {
    if jobs != [] {
      var last, front := jobs[|jobs| - 1], jobs[..|jobs| - 1];
      JobsByFile(front, files, inside);
      assert forall job :: job in jobs <==> job in front || job == last;
    }
  }

  // ---- groups ----

  /** No file is in two groups, or twice in one, and no key is used twice. */
  ghost predicate Disjoint(groups: seq<Group>) {
    && (forall i, k :: 0 <= i < k < |groups| ==> groups[i].key != groups[k].key)
    && (forall i, k :: 0 <= i < k < |groups| ==> Apart(groups[i], groups[k]))
    && (forall i :: 0 <= i < |groups| ==> Distinct(groups[i].files))
  }

  ghost predicate Distinct(files: seq<string>) {
    forall i, k :: 0 <= i < k < |files| ==> files[i] != files[k]
  }

  ghost predicate Apart(a: Group, b: Group) {
    forall file :: !(file in a.files && file in b.files)
  }

  lemma {:induction false} FilesAreDistinct(jobs: seq<Job>, domains: set<string>)
    ensures var files := FilesOf(jobs, domains);
            && (forall i, k :: 0 <= i < k < |files| ==> files[i].file != files[k].file)
            && (forall job :: job in jobs ==> Listed(files, job.file))
  {
    if jobs != [] {
      var front := jobs[..|jobs| - 1];
      FilesAreDistinct(front, domains);
      var before, after, last := FilesOf(front, domains), FilesOf(jobs, domains), jobs[|jobs| - 1];
      assert before <= after;
      assert Position(before, last.file) == |before| ==> after[|before|].file == last.file;
      forall job | job in jobs ensures Listed(after, job.file) {
        if job in front {
          var i :| 0 <= i < |before| && before[i].file == job.file;
          assert after[i].file == job.file;
        } else {
          assert job == last;
          assert after[Position(before, last.file)].file == last.file;
        }
      }
    }
  }

  ghost predicate Listed(files: seq<Info>, file: string) {
    exists i :: 0 <= i < |files| && files[i].file == file
  }

  /** A group that is not owned is named after its first file. */
  ghost predicate NamedAfterFirst(group: Group) {
    !group.owned ==> group.files != [] && group.key == "protected:" + group.files[0]
  }

  /** Groups are made of the files given, and a file without a domain is in a group that is not owned. */
  ghost predicate MadeOf(groups: seq<Group>, files: seq<Info>) {
    && (forall i :: 0 <= i < |groups| ==> NamedAfterFirst(groups[i]))
    && (forall i, file :: 0 <= i < |groups| && file in groups[i].files ==> Listed(files, file))
    && (forall i :: 0 <= i < |files| && files[i].domain == "" ==> Unowned(groups, files[i].file))
  }

  ghost predicate Unowned(groups: seq<Group>, file: string) {
    exists i :: 0 <= i < |groups| && file in groups[i].files && !groups[i].owned
  }

  lemma AddMadeOf(groups: seq<Group>, files: seq<Info>, info: Info)
    requires MadeOf(groups, files) && !Listed(files, info.file)
    ensures MadeOf(Add(groups, info), files + [info])
  {
    var after, all := Add(groups, info), files + [info];
    assert Listed(all, info.file) by { assert all[|files|].file == info.file; }
    forall file | Listed(files, file) ensures Listed(all, file) {
      var i :| 0 <= i < |files| && files[i].file == file;
      assert all[i].file == file;
    }
    AddShape(groups, info);
    forall file | Unowned(groups, file) ensures Unowned(after, file) {
      var i :| 0 <= i < |groups| && file in groups[i].files && !groups[i].owned;
      ReplacedIsOwned(groups, files, info, i);
      assert file in after[i].files && !after[i].owned;
    }
    hide Add, Listed;
    if info.domain == "" {
      var at := Place(groups, "protected:" + info.file);
      assert info.file in after[at].files && !after[at].owned;
    }
  }

  /** A group that a file without a domain takes the place of was owned. */
  lemma ReplacedIsOwned(groups: seq<Group>, files: seq<Info>, info: Info, i: nat)
    requires MadeOf(groups, files) && !Listed(files, info.file) && i < |groups|
    ensures groups[i].key == "protected:" + info.file ==> groups[i].owned
  {
    if groups[i].files != [] {
      SameName("protected:", groups[i].files[0], info.file);
      assert groups[i].files[0] in groups[i].files;
    }
  }

  lemma SameName(prefix: string, a: string, b: string)
    ensures prefix + a == prefix + b ==> a == b
  {
    assert (prefix + a)[|prefix|..] == a && (prefix + b)[|prefix|..] == b;
  }

  /** What adding a file does to the groups: one is extended, replaced or appended, the others stay. */
  lemma AddShape(groups: seq<Group>, info: Info)
    ensures var after := Add(groups, info);
            var at := Place(groups, if info.domain == "" then "protected:" + info.file else info.domain);
            && |after| == (if at < |groups| then |groups| else |groups| + 1)
            && (forall i :: 0 <= i < |groups| && i != at ==> after[i] == groups[i])
            && after[at].key == (if info.domain == "" then "protected:" + info.file else info.domain)
            && info.file in after[at].files
            && (info.domain == "" ==> after[at].files == [info.file] && !after[at].owned)
            && (info.domain != "" && at < |groups| ==>
                  after[at].files == groups[at].files + [info.file] && after[at].owned == groups[at].owned)
            && (info.domain != "" && at == |groups| ==> after[at].files == [info.file])
  {
  }

  lemma AddDisjoint(groups: seq<Group>, files: seq<Info>, info: Info)
    requires Disjoint(groups) && MadeOf(groups, files) && !Listed(files, info.file)
    ensures Disjoint(Add(groups, info))
  {
    AddShape(groups, info);
    var after := Add(groups, info);
    var at := Place(groups, if info.domain == "" then "protected:" + info.file else info.domain);
    hide Add;
    forall i, k | 0 <= i < k < |after| ensures after[i].key != after[k].key && Apart(after[i], after[k]) {
      NewFileApart(groups, files, info, i, k);
    }
    forall i | 0 <= i < |after| ensures Distinct(after[i].files) {
      if i < |groups| { assert info.file !in groups[i].files && Distinct(groups[i].files); }
    }
  }

  lemma NewFileApart(groups: seq<Group>, files: seq<Info>, info: Info, i: nat, k: nat)
    requires Disjoint(groups) && MadeOf(groups, files) && !Listed(files, info.file) && i < k < |Add(groups, info)|
    ensures Add(groups, info)[i].key != Add(groups, info)[k].key && Apart(Add(groups, info)[i], Add(groups, info)[k])
  {
    AddShape(groups, info);
    var at := Place(groups, if info.domain == "" then "protected:" + info.file else info.domain);
    var after := Add(groups, info);
    hide Add;
    if i < |groups| { assert info.file !in groups[i].files; }
    if k < |groups| {
      assert info.file !in groups[k].files;
      assert Apart(groups[i], groups[k]);
    }
  }

  /** The groups of distinct files. */
  lemma {:induction false} GroupsAreDisjoint(files: seq<Info>)
    requires forall i, k :: 0 <= i < k < |files| ==> files[i].file != files[k].file
    ensures Disjoint(GroupsOf(files)) && MadeOf(GroupsOf(files), files)
  {
    if files != [] {
      var front, last := files[..|files| - 1], files[|files| - 1];
      GroupsAreDisjoint(front);
      assert !Listed(front, last.file);
      assert files == front + [last];
      AddMadeOf(GroupsOf(front), front, last);
      AddDisjoint(GroupsOf(front), front, last);
    }
  }

  // ---- the cut ----

  lemma {:induction false} InsertKeepsAll(d: Dated, sorted: seq<Dated>, atMost: (string, string) -> bool)
    ensures forall x :: x in Insert(d, sorted, atMost) <==> x == d || x in sorted
    ensures |Insert(d, sorted, atMost)| == |sorted| + 1
  {
    if sorted != [] {
      InsertKeepsAll(d, sorted[1..], atMost);
      assert forall x :: x in sorted <==> x == sorted[0] || x in sorted[1..];
    }
  }

  ghost predicate ByAge(sorted: seq<Dated>) {
    forall i, k :: 0 <= i < k < |sorted| ==> sorted[i].born <= sorted[k].born
  }

  lemma {:induction false} InsertByAge(d: Dated, sorted: seq<Dated>, atMost: (string, string) -> bool)
    requires ByAge(sorted)
    ensures ByAge(Insert(d, sorted, atMost))
  {
    if sorted != [] && Ahead(sorted[0], d, atMost) {
      InsertByAge(d, sorted[1..], atMost);
      InsertKeepsAll(d, sorted[1..], atMost);
      hide Ahead;
      assert forall x :: x in sorted[1..] ==> sorted[0].born <= x.born;
    }
  }

  /** The groups of known age, all of them, each with its age, the oldest first. */
  lemma {:induction false} OldestIs(groups: seq<Group>, e: Evidence)
    ensures ByAge(Oldest(groups, e))
    ensures forall d :: d in Oldest(groups, e) <==> d.group in groups && Born(d.group, e.times) == Some(d.born)
  {
    if groups != [] {
      var front, last := groups[..|groups| - 1], groups[|groups| - 1];
      OldestIs(front, e);
      hide Born, Insert;
      assert forall g :: g in groups <==> g in front || g == last;
      if Born(last, e.times).Some? {
        var d := Dated(last, Born(last, e.times).value);
        InsertByAge(d, Oldest(front, e), e.atMost);
        InsertKeepsAll(d, Oldest(front, e), e.atMost);
      }
    }
  }

  /** A candidate is no newer than any group of known age that is not a candidate. */
  lemma CandidatesAreOldest(groups: seq<Group>, e: Evidence, i: nat, other: Dated)
    requires i < |Candidates(groups, e)| && other.group in groups && Born(other.group, e.times) == Some(other.born)
    requires other !in Candidates(groups, e)
    ensures Candidates(groups, e)[i].born <= other.born
  {
    OldestIs(groups, e);
    var oldest := Oldest(groups, e);
    hide Oldest, Born;
    var k :| 0 <= k < |oldest| && oldest[k] == other;
    assert Candidates(groups, e)[i] == oldest[i];
  }

  ghost predicate IsCandidate(candidates: seq<Dated>, group: Group) {
    exists i :: 0 <= i < |candidates| && candidates[i].group == group
  }

  lemma {:induction false} StayingIs(candidates: seq<Dated>, e: Evidence)
    ensures |Staying(candidates, e)| <= |candidates|
    ensures forall g :: g in Staying(candidates, e) <==> StaysOnDemand(g, e) && IsCandidate(candidates, g)
  {
    hide StaysOnDemand;
    if candidates != [] {
      var front, last := candidates[..|candidates| - 1], candidates[|candidates| - 1];
      StayingIs(front, e);
      assert forall i :: 0 <= i < |front| ==> front[i] == candidates[i];
      forall g | IsCandidate(front, g) ensures IsCandidate(candidates, g) {
        var i :| 0 <= i < |front| && front[i].group == g;
        assert candidates[i].group == g;
      }
    }
  }

  /** At most three fifths of the groups stay on demand. */
  lemma OnDemandWithinCap(groups: seq<Group>, e: Evidence)
    ensures 5 * |Staying(Candidates(groups, e), e)| <= 3 * |groups|
  {
    StayingIs(Candidates(groups, e), e);
  }

  /** Comparing names is a total order that allows ties. */
  ghost predicate Orders(atMost: (string, string) -> bool) {
    && (forall a, b :: atMost(a, b) || atMost(b, a))
    && (forall a, b, c :: atMost(a, b) && atMost(b, c) ==> atMost(a, c))
  }

  ghost predicate InLine(sorted: seq<Dated>, atMost: (string, string) -> bool) {
    forall i, k :: 0 <= i < k < |sorted| ==> Ahead(sorted[i], sorted[k], atMost)
  }

  lemma {:induction false} InsertInLine(d: Dated, sorted: seq<Dated>, atMost: (string, string) -> bool)
    requires Orders(atMost) && InLine(sorted, atMost)
    ensures InLine(Insert(d, sorted, atMost), atMost)
  {
    if sorted != [] && Ahead(sorted[0], d, atMost) {
      InsertInLine(d, sorted[1..], atMost);
      InsertKeepsAll(d, sorted[1..], atMost);
      assert forall x :: x in sorted[1..] ==> Ahead(sorted[0], x, atMost);
    }
  }

  /** Groups of the same age are in the order of their names. */
  lemma {:induction false} OldestInLine(groups: seq<Group>, e: Evidence)
    requires Orders(e.atMost)
    ensures InLine(Oldest(groups, e), e.atMost)
  {
    if groups != [] {
      var front, last := groups[..|groups| - 1], groups[|groups| - 1];
      OldestInLine(front, e);
      hide Born, Insert, Ahead, Orders;
      if Born(last, e.times).Some? {
        InsertInLine(Dated(last, Born(last, e.times).value), Oldest(front, e), e.atMost);
      }
    }
  }

  // ---- what a selection promises ----

  function AllGroups(jobs: seq<Job>, e: Evidence): seq<Group> {
    GroupsOf(FilesOf(jobs, e.domains))
  }

  function Chosen(jobs: seq<Job>, e: Evidence): seq<Group> {
    Staying(Candidates(AllGroups(jobs, e), e), e)
  }

  lemma ChosenIs(jobs: seq<Job>, e: Evidence)
    ensures Disjoint(AllGroups(jobs, e)) && MadeOf(AllGroups(jobs, e), FilesOf(jobs, e.domains))
    ensures forall g :: g in Chosen(jobs, e) <==>
            StaysOnDemand(g, e) && IsCandidate(Candidates(AllGroups(jobs, e), e), g)
    ensures forall g :: g in Chosen(jobs, e) ==> g in AllGroups(jobs, e) && Born(g, e.times).Some?
  {
    FilesAreDistinct(jobs, e.domains);
    GroupsAreDisjoint(FilesOf(jobs, e.domains));
    StayingIs(Candidates(AllGroups(jobs, e), e), e);
    OldestIs(AllGroups(jobs, e), e);
    hide Disjoint, MadeOf, StaysOnDemand, GroupsOf, FilesOf, Born, Staying;
    var candidates, oldest := Candidates(AllGroups(jobs, e), e), Oldest(AllGroups(jobs, e), e);
    hide Oldest, Candidates;
    forall g | IsCandidate(candidates, g) ensures g in AllGroups(jobs, e) && Born(g, e.times).Some? {
      var i :| 0 <= i < |candidates| && candidates[i].group == g;
      assert candidates[i] == oldest[i];
    }
  }

  /** The files of a group are all on demand or all executed, with the group. */
  lemma GroupDecidedAsOne(jobs: seq<Job>, e: Evidence, group: Group, file: string)
    requires group in AllGroups(jobs, e) && file in group.files
    ensures file in FilesIn(Chosen(jobs, e)) <==> group in Chosen(jobs, e)
  {
    ChosenIs(jobs, e);
    var groups, chosen := AllGroups(jobs, e), Chosen(jobs, e);
    hide AllGroups, Chosen, MadeOf, StaysOnDemand, Born, Candidates;
    var i :| 0 <= i < |groups| && groups[i] == group;
    if file in FilesIn(chosen) {
      var k, l :| 0 <= k < |chosen| && 0 <= l < |chosen[k].files| && chosen[k].files[l] == file;
      assert chosen[k] in chosen;
      var m :| 0 <= m < |groups| && groups[m] == chosen[k];
      assert m < i ==> Apart(groups[m], groups[i]);
      assert i < m ==> Apart(groups[i], groups[m]);
    }
  }

  lemma {:induction false} LatestKnowsAll(files: seq<string>, times: map<string, int>)
    ensures Latest(files, times).Some? <==> forall i :: 0 <= i < |files| ==> files[i] in times
    ensures Latest(files, times).Some? ==> forall i :: 0 <= i < |files| ==>
            times[files[i]] <= Latest(files, times).value
  {
    if files != [] { LatestKnowsAll(files[..|files| - 1], times); }
  }

  /**
   Nothing speaks against leaving the group out: it has a domain and an age, and every file is known not to be
   touched.
   */
  ghost predicate IsSafe(group: Group, e: Evidence) {
    && group.owned && (forall i :: 0 <= i < |group.files| ==> group.files[i] in e.times)
    && e.changed.Some? && e.changed.value * RUNNER_OWN_FILES == {}
    && !e.critical(group.key) && !AskedFor(group, e)
    && forall i :: 0 <= i < |group.files| ==> FileIsSafe(group.files[i], e)
  }

  ghost predicate FileIsSafe(file: string, e: Evidence)
    requires e.changed.Some?
  {
    && !e.critical(file) && file !in e.changed.value
    && file in e.closure && e.closure[file] * e.changed.value == {}
  }

  lemma StaysIffSafe(group: Group, e: Evidence)
    requires Born(group, e.times).Some?
    ensures StaysOnDemand(group, e) <==> IsSafe(group, e)
  {
    LatestKnowsAll(group.files, e.times);
    hide AskedFor, Latest;
    if e.changed.Some? {
      assert (forall i :: 0 <= i < |group.files| ==> FileIsSafe(group.files[i], e)) <==>
             !(exists i :: 0 <= i < |group.files| && !FileIsSafe(group.files[i], e));
    }
  }

  /** A job is on demand exactly when its file is in a group that is a candidate and safe to leave out. */
  lemma OnDemandIffSafe(jobs: seq<Job>, e: Evidence, job: Job)
    requires job in jobs
    ensures job in Jobs(jobs, FilesIn(Chosen(jobs, e)), true) <==>
      exists g :: g in AllGroups(jobs, e) && job.file in g.files && IsCandidate(Candidates(AllGroups(jobs, e), e), g) &&
        IsSafe(g, e)
  {
    JobsByFile(jobs, FilesIn(Chosen(jobs, e)), true);
    ChosenIs(jobs, e);
    var groups, chosen := AllGroups(jobs, e), Chosen(jobs, e);
    hide AllGroups, Chosen, MadeOf, Disjoint, StaysOnDemand, Born, Candidates, IsSafe, Jobs, IsCandidate;
    if job.file in FilesIn(chosen) {
      var k, l :| 0 <= k < |chosen| && 0 <= l < |chosen[k].files| && chosen[k].files[l] == job.file;
      assert chosen[k] in chosen && job.file in chosen[k].files;
      StaysIffSafe(chosen[k], e);
    }
    forall g | g in groups && job.file in g.files && IsCandidate(Candidates(groups, e), g) && IsSafe(g, e)
      ensures job.file in FilesIn(chosen)
    {
      SafeIsDated(g, e);
      StaysIffSafe(g, e);
      GroupDecidedAsOne(jobs, e, g, job.file);
    }
  }

  lemma SafeIsDated(group: Group, e: Evidence)
    requires IsSafe(group, e)
    ensures Born(group, e.times).Some?
  {
    LatestKnowsAll(group.files, e.times);
  }

  /** A job whose file has no domain is executed. */
  lemma WithoutDomainIsExecuted(jobs: seq<Job>, e: Evidence, job: Job, i: nat)
    requires job in jobs && i < |FilesOf(jobs, e.domains)|
    requires FilesOf(jobs, e.domains)[i] == Info(job.file, "")
    ensures job in Jobs(jobs, FilesIn(Chosen(jobs, e)), false)
  {
    JobsByFile(jobs, FilesIn(Chosen(jobs, e)), false);
    ChosenIs(jobs, e);
    hide AllGroups, Chosen, Disjoint, StaysOnDemand, Candidates, Jobs, IsCandidate, FilesIn;
    var groups := AllGroups(jobs, e);
    assert Unowned(groups, job.file);
    var k :| 0 <= k < |groups| && job.file in groups[k].files && !groups[k].owned;
    assert Born(groups[k], e.times).None?;
    GroupDecidedAsOne(jobs, e, groups[k], job.file);
  }
}
