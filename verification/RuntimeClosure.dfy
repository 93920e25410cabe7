/**
 The runtime closure: starting from entry files and spawn candidates, follow local require edges breadth
 first and keep for every file the chain that first reached it.
 */
module RuntimeClosure {

  type File = string

  /** A require of a source file, resolved to a project file or to nothing. */
  datatype Dependency = Dependency(specifier: string, target: File, resolved: bool)

  /** What the disk has at a relative path. */
  datatype Node = Regular(readable: bool, dependencies: seq<Dependency>) | NotRegular

  type Disk = map<File, Node>

  datatype Item = Item(file: File, chain: seq<string>)

  datatype Error =
    | EntryNotAFile(file: File)
    | EntryUnreadable(chain: seq<string>)
    | DependencyMissing(chain: seq<string>, specifier: string)

  datatype Result = Closure(visited: map<File, seq<string>>) | Failure(file: File, error: Error)

  const SPAWN := "spawn"

  /** Backslashes become slashes. */
  function Normal(file: File): File {
    if file == [] then [] else [if file[0] == '\\' then '/' else file[0]] + Normal(file[1..])
  }

  function BaseName(file: File): File {
    if '/' in file then BaseName(file[1..]) else file
  }

  predicate HasExtension(file: File, extension: string) {
    var base := BaseName(file);
    |extension| < |base| && base[|base| - |extension|..] == extension
  }

  /** Only these files are read for further requires. */
  predicate IsSource(file: File) {
    HasExtension(file, ".js") || HasExtension(file, ".cjs")
  }

  function NodeAt(disk: Disk, file: File): Node {
    if file in disk then disk[file] else NotRegular
  }

  /** The requires followed from a file. */
  function Requires(disk: Disk, file: File): seq<Dependency> {
    var node := NodeAt(disk, file);
    if IsSource(file) && node.Regular? && node.readable then node.dependencies else []
  }

  ghost predicate Edge(disk: Disk, a: File, b: File) {
    exists d :: d in Requires(disk, a) && d.resolved && Normal(d.target) == b
  }

  /** A path of require edges. */
  ghost predicate IsPath(disk: Disk, path: seq<File>) {
    path != [] && forall i :: 0 <= i < |path| - 1 ==> Edge(disk, path[i], path[i + 1])
  }

  ghost predicate Starts(file: File, starts: seq<File>) {
    exists s :: s in starts && Normal(s) == file
  }

  /** The length a chain along this path has: spawn chains carry one extra mark. */
  ghost predicate Costs(path: seq<File>, cost: nat, entries: seq<File>, spawns: seq<File>) {
    && path != []
    && ((Starts(path[0], entries) && cost == |path|) || (Starts(path[0], spawns) && cost == |path| + 1))
  }

  ghost predicate Reachable(disk: Disk, file: File, entries: seq<File>, spawns: seq<File>) {
    exists path, cost :: IsPath(disk, path) && Costs(path, cost, entries, spawns) && path[|path| - 1] == file
  }

  /** The i-th file along a chain whose first `marks` + 1 strings are the spawn mark, if any, and the start as given. */
  function Hop(chain: seq<string>, marks: nat, i: nat): File
    requires marks + i < |chain|
  {
    if i == 0 then Normal(chain[marks]) else chain[marks + i]
  }

  ghost predicate Follows(disk: Disk, chain: seq<string>, marks: nat, file: File) {
    && marks < |chain|
    && (forall i :: 0 <= i < |chain| - marks - 1 ==> Edge(disk, Hop(chain, marks, i), Hop(chain, marks, i + 1)))
    && Hop(chain, marks, |chain| - marks - 1) == file
  }

  /** The chain names a start as it was given, after the spawn mark if it is one, and then a path to `file`. */
  ghost predicate IsChain(disk: Disk, chain: seq<string>, file: File, entries: seq<File>, spawns: seq<File>) {
    || (Follows(disk, chain, 0, file) && chain[0] in entries)
    || (Follows(disk, chain, 1, file) && chain[0] == SPAWN && chain[1] in spawns)
  }

  /** A file the closure must refuse: missing, unreadable, or with a require that resolves to nothing. */
  ghost predicate Broken(disk: Disk, file: File) {
    var node := NodeAt(disk, file);
    || !node.Regular?
    || (IsSource(file) && !node.readable)
    || exists d :: d in Requires(disk, file) && !d.resolved
  }

  /** Reached within `bound`: already visited so, or queued so. */
  ghost predicate Covered(file: File, bound: nat, visited: map<File, seq<string>>, queue: seq<Item>) {
    || (file in visited && |visited[file]| <= bound)
    || (exists i :: 0 <= i < |queue| && Normal(queue[i].file) == file && |queue[i].chain| <= bound)
  }

  /** Queue lengths go up, by at most one overall. */
  ghost predicate Ascending(queue: seq<Item>) {
    forall i, k :: 0 <= i < k < |queue| ==> |queue[i].chain| <= |queue[k].chain| <= |queue[0].chain| + 1
  }

  /** Queue lengths go up, by at most one overall, and nothing visited is longer. */
  ghost predicate Sorted(visited: map<File, seq<string>>, queue: seq<Item>) {
    && Ascending(queue)
    && (queue != [] ==> forall file :: file in visited ==> |visited[file]| <= |queue[0].chain|)
  }

  ghost predicate ChainsHold(disk: Disk, visited: map<File, seq<string>>, queue: seq<Item>, entries: seq<File>,
                             spawns: seq<File>) {
    && (forall file :: file in visited ==> IsChain(disk, visited[file], file, entries, spawns))
    && (forall i :: 0 <= i < |queue| ==> IsChain(disk, queue[i].chain, Normal(queue[i].file), entries, spawns))
  }

  /** Every start and every edge out of a visited file is accounted for, and nothing visited is broken. */
  ghost predicate Accounted(disk: Disk, visited: map<File, seq<string>>, queue: seq<Item>, entries: seq<File>,
                            spawns: seq<File>) {
    && (forall s :: s in entries ==> Covered(Normal(s), 1, visited, queue))
    && (forall s :: s in spawns ==> Covered(Normal(s), 2, visited, queue))
    && (forall a, b :: a in visited && Edge(disk, a, b) ==> Covered(b, |visited[a]| + 1, visited, queue))
    && (forall a :: a in visited ==> a in disk && !Broken(disk, a))
  }

  /** What every turn of the loop keeps. */
  ghost predicate Progress(disk: Disk, visited: map<File, seq<string>>, queue: seq<Item>, entries: seq<File>,
                           spawns: seq<File>) {
    Sorted(visited, queue) && ChainsHold(disk, visited, queue, entries, spawns) &&
      Accounted(disk, visited, queue, entries, spawns)
  }

  function Marked(files: seq<File>, mark: seq<string>): seq<Item> {
    if files == [] then [] else [Item(files[0], mark + [files[0]])] + Marked(files[1..], mark)
  }

  function Children(dependencies: seq<Dependency>, chain: seq<string>): seq<Item> {
    if dependencies == [] then []
    else
      var child := Normal(dependencies[0].target);
      [Item(child, chain + [child])] + Children(dependencies[1..], chain)
  }

  lemma {:induction false} MarkedSpec(files: seq<File>, mark: seq<string>)
    ensures |Marked(files, mark)| == |files|
    ensures forall i :: 0 <= i < |files| ==> Marked(files, mark)[i] == Item(files[i], mark + [files[i]])
  {
    if files != [] { MarkedSpec(files[1..], mark); }
  }

  lemma {:induction false} ChildrenSpec(dependencies: seq<Dependency>, chain: seq<string>)
    ensures |Children(dependencies, chain)| == |dependencies|
    ensures forall i :: 0 <= i < |dependencies| ==>
      var child := Normal(dependencies[i].target); Children(dependencies, chain)[i] == Item(child, chain + [child])
  {
    if dependencies != [] { ChildrenSpec(dependencies[1..], chain); }
  }

  lemma {:induction false} NormalTwice(file: File)
    ensures Normal(Normal(file)) == Normal(file)
  {
    if file != [] {
      NormalTwice(file[1..]);
      assert Normal(file)[1..] == Normal(file[1..]);
    }
  }

  // ---- the loop invariant ----

  lemma StartChain(disk: Disk, start: File, spawned: bool, entries: seq<File>, spawns: seq<File>)
    requires start in (if spawned then spawns else entries)
    ensures IsChain(disk, if spawned then [SPAWN, start] else [start], Normal(start), entries, spawns)
  {
  }

  lemma InitialChains(disk: Disk, entries: seq<File>, spawns: seq<File>)
    ensures ChainsHold(disk, map[], Marked(entries, []) + Marked(spawns, [SPAWN]), entries, spawns)
  {
    hide IsChain;
    MarkedSpec(entries, []);
    MarkedSpec(spawns, [SPAWN]);
    var queue := Marked(entries, []) + Marked(spawns, [SPAWN]);
    forall i | 0 <= i < |queue|
      ensures IsChain(disk, queue[i].chain, Normal(queue[i].file), entries, spawns)
    {
      if i < |entries| {
        assert queue[i].chain == [entries[i]];
        StartChain(disk, entries[i], false, entries, spawns);
      } else {
        assert queue[i].chain == [SPAWN, spawns[i - |entries|]];
        StartChain(disk, spawns[i - |entries|], true, entries, spawns);
      }
    }
  }

  lemma InitialProgress(disk: Disk, entries: seq<File>, spawns: seq<File>)
    ensures Progress(disk, map[], Marked(entries, []) + Marked(spawns, [SPAWN]), entries, spawns)
  {
    InitialChains(disk, entries, spawns);
    MarkedSpec(entries, []);
    MarkedSpec(spawns, [SPAWN]);
    hide IsChain, Marked, Normal, Edge, Broken, ChainsHold, Ascending;
    var queue := Marked(entries, []) + Marked(spawns, [SPAWN]);
    InitialOrder(entries, spawns);
    forall s | s in entries ensures Covered(Normal(s), 1, map[], queue) {
      var i :| 0 <= i < |entries| && entries[i] == s;
      assert queue[i].file == s;
    }
    forall s | s in spawns ensures Covered(Normal(s), 2, map[], queue) {
      var i :| 0 <= i < |spawns| && spawns[i] == s;
      assert queue[|entries| + i].file == s;
    }
  }

  lemma InitialOrder(entries: seq<File>, spawns: seq<File>)
    ensures Ascending(Marked(entries, []) + Marked(spawns, [SPAWN]))
  {
    MarkedSpec(entries, []);
    MarkedSpec(spawns, [SPAWN]);
    hide Marked;
    var queue := Marked(entries, []) + Marked(spawns, [SPAWN]);
    assert forall i :: 0 <= i < |queue| ==> |queue[i].chain| == if i < |entries| then 1 else 2;
  }

  /** Taking an item off the queue once its file is visited loses no account. */
  lemma PopCovered(file: File, bound: nat, visited: map<File, seq<string>>, queue: seq<Item>)
    requires queue != [] && Sorted(visited, queue) && Normal(queue[0].file) in visited
    requires Covered(file, bound, visited, queue)
    ensures Covered(file, bound, visited, queue[1..])
  {
    if !(file in visited && |visited[file]| <= bound) {
      var i :| 0 <= i < |queue| && Normal(queue[i].file) == file && |queue[i].chain| <= bound;
      assert queue[1..][i - 1] == queue[i];
    }
  }

  lemma PopVisited(disk: Disk, visited: map<File, seq<string>>, queue: seq<Item>, entries: seq<File>, spawns: seq<File>)
    requires queue != [] && Progress(disk, visited, queue, entries, spawns) && Normal(queue[0].file) in visited
    ensures Progress(disk, visited, queue[1..], entries, spawns)
  {
    hide IsChain, Edge, Broken, Covered;
    forall file, bound | Covered(file, bound, visited, queue) ensures Covered(file, bound, visited, queue[1..]) {
      PopCovered(file, bound, visited, queue);
    }
    assert Sorted(visited, queue[1..]) by {
      assert |queue| > 1 ==> queue[1..][0] == queue[1];
    }
  }

  /** Visiting a file: whatever was waiting for it is now covered, as the queue is sorted. */
  lemma VisitCovered(file: File, bound: nat, visited: map<File, seq<string>>, queue: seq<Item>, children: seq<Item>)
    requires queue != [] && Sorted(visited, queue) && Normal(queue[0].file) !in visited
    requires Covered(file, bound, visited, queue)
    ensures Covered(file, bound, visited[Normal(queue[0].file) := queue[0].chain], queue[1..] + children)
  {
    var next := visited[Normal(queue[0].file) := queue[0].chain];
    if file in visited && |visited[file]| <= bound {
      assert next[file] == visited[file];
    } else {
      var i :| 0 <= i < |queue| && Normal(queue[i].file) == file && |queue[i].chain| <= bound;
      if i > 0 { assert (queue[1..] + children)[i - 1] == queue[i]; }
    }
  }

  lemma VisitSorted(visited: map<File, seq<string>>, queue: seq<Item>, dependencies: seq<Dependency>)
    requires queue != [] && Sorted(visited, queue)
    ensures Sorted(visited[Normal(queue[0].file) := queue[0].chain],
                   queue[1..] + Children(dependencies, queue[0].chain))
  {
    ChildrenSpec(dependencies, queue[0].chain);
    hide Children, Normal;
    LengthsSort(visited, Normal(queue[0].file), queue, Children(dependencies, queue[0].chain));
  }

  lemma LengthsSort(visited: map<File, seq<string>>, file: File, queue: seq<Item>, children: seq<Item>)
    requires queue != [] && Sorted(visited, queue)
    requires forall i :: 0 <= i < |children| ==> |children[i].chain| == |queue[0].chain| + 1
    ensures Sorted(visited[file := queue[0].chain], queue[1..] + children)
  {
    var next := queue[1..] + children;
    if next != [] { PairSorts(visited, queue, children, 0, |next|); }
    AllPairsSort(visited, queue, children);
    hide Ascending;
  }

  lemma AllPairsSort(visited: map<File, seq<string>>, queue: seq<Item>, children: seq<Item>)
    requires queue != [] && Sorted(visited, queue)
    requires forall i :: 0 <= i < |children| ==> |children[i].chain| == |queue[0].chain| + 1
    ensures Ascending(queue[1..] + children)
  {
    hide Sorted;
    var next := queue[1..] + children;
    forall i, k | 0 <= i < k < |next| ensures |next[i].chain| <= |next[k].chain| <= |next[0].chain| + 1 {
      PairSorts(visited, queue, children, 0, k);
      PairSorts(visited, queue, children, i, k);
    }
  }

  lemma PairSorts(visited: map<File, seq<string>>, queue: seq<Item>, children: seq<Item>, i: nat, k: nat)
    requires queue != [] && Sorted(visited, queue) && i < k <= |queue| - 1 + |children|
    requires forall i :: 0 <= i < |children| ==> |children[i].chain| == |queue[0].chain| + 1
    ensures var next := queue[1..] + children; var length := |queue[0].chain|;
            length <= |next[i].chain| <= length + 1 && (k < |next| ==> |next[i].chain| <= |next[k].chain| <= length + 1)
  {
    var next := queue[1..] + children;
    assert next[i] == if i < |queue| - 1 then queue[i + 1] else children[i - |queue| + 1];
    if k < |next| { assert next[k] == if k < |queue| - 1 then queue[k + 1] else children[k - |queue| + 1]; }
  }

  lemma ChainExtends(disk: Disk, chain: seq<string>, file: File, child: File, entries: seq<File>, spawns: seq<File>)
    requires IsChain(disk, chain, file, entries, spawns) && Edge(disk, file, child)
    ensures IsChain(disk, chain + [child], child, entries, spawns)
  {
    hide Edge, Normal;
    var marks := if Follows(disk, chain, 0, file) && chain[0] in entries then 0 else 1;
    FollowsOn(disk, chain, marks, file, child);
  }

  lemma FollowsOn(disk: Disk, chain: seq<string>, marks: nat, file: File, child: File)
    requires Follows(disk, chain, marks, file) && Edge(disk, file, child)
    ensures Follows(disk, chain + [child], marks, child)
  {
    hide Edge, Normal;
    var longer := chain + [child];
    assert forall i :: 0 <= i < |chain| - marks ==> Hop(longer, marks, i) == Hop(chain, marks, i);
  }

  lemma ChildChains(disk: Disk, file: File, chain: seq<string>, i: nat, entries: seq<File>, spawns: seq<File>)
    requires IsChain(disk, chain, file, entries, spawns) && !Broken(disk, file) && i < |Requires(disk, file)|
    ensures var child := Normal(Requires(disk, file)[i].target);
            Normal(child) == child && Edge(disk, file, child) && IsChain(disk, chain + [child], child, entries, spawns)
  {
    var d := Requires(disk, file)[i];
    var child := Normal(d.target);
    hide IsChain, Normal, Requires;
    NormalTwice(d.target);
    assert d in Requires(disk, file);
    assert Edge(disk, file, child);
    ChainExtends(disk, chain, file, child, entries, spawns);
  }

  lemma VisitChains(disk: Disk, visited: map<File, seq<string>>, queue: seq<Item>, entries: seq<File>,
                    spawns: seq<File>)
    requires queue != [] && ChainsHold(disk, visited, queue, entries, spawns)
    requires !Broken(disk, Normal(queue[0].file))
    ensures var relative := Normal(queue[0].file);
            ChainsHold(disk, visited[relative := queue[0].chain],
                       queue[1..] + Children(Requires(disk, relative), queue[0].chain), entries, spawns)
  {
    var relative := Normal(queue[0].file);
    var dependencies := Requires(disk, relative);
    var children := Children(dependencies, queue[0].chain);
    ChildrenSpec(dependencies, queue[0].chain);
    hide IsChain, Children, Normal, Broken, Requires;
    forall i | 0 <= i < |children|
      ensures IsChain(disk, children[i].chain, Normal(children[i].file), entries, spawns)
    {
      ChildChains(disk, relative, queue[0].chain, i, entries, spawns);
    }
  }

  lemma EdgesCovered(disk: Disk, file: File, chain: seq<string>, b: File, visited: map<File, seq<string>>,
                     queue: seq<Item>, rest: seq<Item>)
    requires Edge(disk, file, b)
    requires rest == queue + Children(Requires(disk, file), chain)
    ensures Covered(b, |chain| + 1, visited, rest)
  {
    ChildrenSpec(Requires(disk, file), chain);
    hide Children, Requires, Normal;
    var d :| d in Requires(disk, file) && d.resolved && Normal(d.target) == b;
    var i :| 0 <= i < |Requires(disk, file)| && Requires(disk, file)[i] == d;
    NormalTwice(d.target);
    assert rest[|queue| + i] == Children(Requires(disk, file), chain)[i];
  }

  lemma VisitAccounted(disk: Disk, visited: map<File, seq<string>>, queue: seq<Item>, entries: seq<File>,
                       spawns: seq<File>)
    requires queue != [] && Sorted(visited, queue) && Accounted(disk, visited, queue, entries, spawns)
    requires Normal(queue[0].file) !in visited && !Broken(disk, Normal(queue[0].file))
    ensures var relative := Normal(queue[0].file);
            && relative in disk
            && Accounted(disk, visited[relative := queue[0].chain],
                         queue[1..] + Children(Requires(disk, relative), queue[0].chain), entries, spawns)
  {
    var relative := Normal(queue[0].file);
    assert relative in disk;
    var children := Children(Requires(disk, relative), queue[0].chain);
    var next, rest := visited[relative := queue[0].chain], queue[1..] + children;
    hide Children, Requires, Normal, Edge, Covered, Sorted, Broken;
    forall b | Edge(disk, relative, b) ensures Covered(b, |next[relative]| + 1, next, rest) {
      EdgesCovered(disk, relative, queue[0].chain, b, next, queue[1..], rest);
    }
    forall file, bound | Covered(file, bound, visited, queue) ensures Covered(file, bound, next, rest) {
      VisitCovered(file, bound, visited, queue, children);
    }
  }

  /** Visiting a sound file and queueing its requires. */
  lemma Visit(disk: Disk, visited: map<File, seq<string>>, queue: seq<Item>, entries: seq<File>, spawns: seq<File>)
    requires queue != [] && Progress(disk, visited, queue, entries, spawns)
    requires Normal(queue[0].file) !in visited && !Broken(disk, Normal(queue[0].file))
    ensures var relative := Normal(queue[0].file);
            && relative in disk
            && Progress(disk, visited[relative := queue[0].chain],
                        queue[1..] + Children(Requires(disk, relative), queue[0].chain), entries, spawns)
  {
    hide Children, Requires, Normal, Sorted, ChainsHold, Accounted, Broken;
    VisitSorted(visited, queue, Requires(disk, Normal(queue[0].file)));
    VisitChains(disk, visited, queue, entries, spawns);
    VisitAccounted(disk, visited, queue, entries, spawns);
  }

  // ---- what the invariant says at the end ----

  /** With the queue empty, every path from a start ends in a visited file, with no longer a chain. */
  lemma {:induction false} PathsAreVisited(disk: Disk, visited: map<File, seq<string>>, entries: seq<File>,
                                           spawns: seq<File>,
                                           path: seq<File>, cost: nat)
    requires Accounted(disk, visited, [], entries, spawns) && IsPath(disk, path) && Costs(path, cost, entries, spawns)
    ensures path[|path| - 1] in visited && |visited[path[|path| - 1]]| <= cost
    decreases |path|
  {
    if |path| == 1 {
      if Starts(path[0], entries) && cost == 1 {
        var s :| s in entries && Normal(s) == path[0];
        assert Covered(Normal(s), 1, visited, []);
      } else {
        var s :| s in spawns && Normal(s) == path[0];
        assert Covered(Normal(s), 2, visited, []);
      }
    } else {
      var shorter := path[..|path| - 1];
      forall i | 0 <= i < |shorter| - 1 ensures Edge(disk, shorter[i], shorter[i + 1]) {
        assert Edge(disk, path[i], path[i + 1]);
      }
      PathsAreVisited(disk, visited, entries, spawns, shorter, cost - 1);
      assert Edge(disk, path[|path| - 2], path[|path| - 1]);
      assert Covered(path[|path| - 1], |visited[path[|path| - 2]]| + 1, visited, []);
    }
  }

  /** A chain is witness that its file is reachable, at the cost of its length. */
  lemma ChainMeansReachable(disk: Disk, chain: seq<string>, file: File, entries: seq<File>, spawns: seq<File>)
    requires IsChain(disk, chain, file, entries, spawns)
    ensures Reachable(disk, file, entries, spawns)
  {
    hide Edge, Normal;
    var marks := if Follows(disk, chain, 0, file) && chain[0] in entries then 0 else 1;
    var path := seq(|chain| - marks, i requires 0 <= i < |chain| - marks => Hop(chain, marks, i));
    assert path[0] == Normal(chain[marks]);
    assert IsPath(disk, path);
    assert Costs(path, |chain|, entries, spawns);
  }

  /** The chains are shortest, the visited files the reachable ones, and none of them is broken. */
  ghost predicate IsClosure(disk: Disk, visited: map<File, seq<string>>, entries: seq<File>, spawns: seq<File>) {
    && (forall file :: file in visited <==> Reachable(disk, file, entries, spawns))
    && (forall file :: file in visited ==> IsChain(disk, visited[file], file, entries, spawns))
    && (forall path, cost :: IsPath(disk, path) && Costs(path, cost, entries, spawns) ==>
          path[|path| - 1] in visited && |visited[path[|path| - 1]]| <= cost)
    && (forall file :: Reachable(disk, file, entries, spawns) ==> !Broken(disk, file))
  }

  lemma ProgressEnds(disk: Disk, visited: map<File, seq<string>>, entries: seq<File>, spawns: seq<File>)
    requires Progress(disk, visited, [], entries, spawns)
    ensures IsClosure(disk, visited, entries, spawns)
  {
    hide IsChain, Edge, Broken, Normal, Covered;
    forall path, cost | IsPath(disk, path) && Costs(path, cost, entries, spawns)
      ensures path[|path| - 1] in visited && |visited[path[|path| - 1]]| <= cost
    {
      PathsAreVisited(disk, visited, entries, spawns, path, cost);
    }
    forall file | file in visited ensures Reachable(disk, file, entries, spawns) {
      ChainMeansReachable(disk, visited[file], file, entries, spawns);
    }
    hide IsPath, Costs;
  }

  /**
   The closure, or the first broken file on the way. It ends on every finite disk, cyclic or not: a
   turn either visits one more file of the disk or shortens the queue.
   */
  method CollectLocalRuntimeClosure(disk: Disk, entries: seq<File>, spawns: seq<File>) returns (r: Result)
    ensures r.Closure? ==> IsClosure(disk, r.visited, entries, spawns)
    ensures r.Failure? ==> Reachable(disk, r.file, entries, spawns) && Broken(disk, r.file)
  {
    hide Progress, Children, Marked, Normal, IsClosure, Reachable, Broken, Requires;
    InitialProgress(disk, entries, spawns);
    var queue := InitialQueue(entries, spawns);
    var visited: map<File, seq<string>> := map[];
    while queue != []
      invariant Progress(disk, visited, queue, entries, spawns)
      decreases |disk.Keys - visited.Keys|, |queue|
    {
      var item := queue[0];
      var relative := Normal(item.file);
      if relative in visited {
        PopVisited(disk, visited, queue, entries, spawns);
        queue := queue[1..];
        continue;
      }
      ItemReachable(disk, visited, queue, entries, spawns);
      var failed, error, children := Scan(disk, relative, item.chain);
      if failed { return Failure(relative, error); }
      Visit(disk, visited, queue, entries, spawns);
      OneMoreVisited(disk, visited, relative, item.chain);
      visited := visited[relative := item.chain];
      queue := queue[1..] + children;
    }
    ProgressEnds(disk, visited, entries, spawns);
    return Closure(visited);
  }

  lemma ItemReachable(disk: Disk, visited: map<File, seq<string>>, queue: seq<Item>, entries: seq<File>,
                      spawns: seq<File>)
    requires queue != [] && Progress(disk, visited, queue, entries, spawns)
    ensures Reachable(disk, Normal(queue[0].file), entries, spawns)
  {
    hide IsChain, Normal, Reachable;
    ChainMeansReachable(disk, queue[0].chain, Normal(queue[0].file), entries, spawns);
  }

  lemma OneMoreVisited(disk: Disk, visited: map<File, seq<string>>, file: File, chain: seq<string>)
    requires file in disk && file !in visited
    ensures |disk.Keys - visited[file := chain].Keys| < |disk.Keys - visited.Keys|
  {
    assert visited[file := chain].Keys == visited.Keys + {file};
    assert disk.Keys - visited[file := chain].Keys == disk.Keys - visited.Keys - {file};
    assert file in disk.Keys - visited.Keys;
  }

  function InitialQueue(entries: seq<File>, spawns: seq<File>): seq<Item> {
    Marked(entries, []) + Marked(spawns, [SPAWN])
  }

  /** Read one file and list the items for its requires, or say what is wrong with it. */
  method Scan(disk: Disk, relative: File, chain: seq<string>) returns (failed: bool, error: Error, children: seq<Item>)
    ensures failed <==> Broken(disk, relative)
    ensures !failed ==> children == Children(Requires(disk, relative), chain)
  {
    failed, error, children := false, EntryNotAFile(relative), [];
    var node := NodeAt(disk, relative);
    if !IsSource(relative) {
      failed := !node.Regular?;
      return;
    }
    if !node.Regular? || !node.readable {
      failed, error := true, EntryUnreadable(chain);
      return;
    }
    var k := 0;
    while k < |node.dependencies|
      invariant k <= |node.dependencies| && !failed
      invariant forall i :: 0 <= i < k ==> node.dependencies[i].resolved
      invariant children + Children(node.dependencies[k..], chain) == Children(node.dependencies, chain)
    {
      var d := node.dependencies[k];
      if !d.resolved {
        failed, error := true, DependencyMissing(chain, d.specifier);
        return;
      }
      assert node.dependencies[k..][1..] == node.dependencies[k + 1..];
      children := children + [Item(Normal(d.target), chain + [Normal(d.target)])];
      k := k + 1;
    }
  }
}
