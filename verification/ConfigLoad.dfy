/**
 Loading a configuration file with its `defaults_from` ancestors.
 */
module ConfigLoad {

  import opened ConfigMerge
  import ProjectPath

  /** A resolved, absolute path. */
  type Location = string

  type Text = string

  /** What loading one file gives: nothing readable, a root that is no mapping, or a configuration. */
  datatype File = Unreadable | NotAMapping | Holds(config: Config)

  /** The file system and its path rules, as far as loading sees them. */
  datatype Disk = Disk(
    files: map<Location, File>,
    resolve: Text -> Location,
    expand: Text -> Text,
    absolute: Text -> bool,
    beside: (Text, Text) -> Text
  )

  datatype Error =
    | Cycle(chain: seq<Location>)
    | CannotRead(file: Text)
    | RootNotAMapping(file: Text)
    | BadParent(file: Text)

  datatype Result = Loaded(config: Config) | Failed(error: Error)

  const PARENT := "defaults_from"

  predicate Blank(text: Text) {
    forall i :: 0 <= i < |text| ==> ProjectPath.IsSpace(text[i])
  }

  predicate IsFile(disk: Disk, file: Text) {
    disk.resolve(file) in disk.files
  }

  function ReadAt(disk: Disk, file: Text): File {
    if IsFile(disk, file) then disk.files[disk.resolve(file)] else Unreadable
  }

  /** The parent a configuration names, if it names one. */
  function Named(config: Config): Option<Value> {
    if PARENT in config.fields && Truthy(config.fields[PARENT]) then Some(config.fields[PARENT]) else None
  }

  /** A relative parent is looked up beside the file first, then from the working directory. */
  function ParentPath(disk: Disk, file: Text, name: Text): Text {
    var parent := disk.expand(name);
    if disk.absolute(parent) then parent
    else
      var adjacent := disk.beside(file, parent);
      if IsFile(disk, adjacent) || !IsFile(disk, parent) then adjacent else parent
  }

  function Own(config: Config): Config {
    Dict(config.fields - {PARENT})
  }

  function Left(disk: Disk, stack: seq<Location>): set<Location> {
    disk.files.Keys - set location | location in stack
  }

  /** Load a file over its ancestors; `stack` holds the files being loaded. */
  function Load(disk: Disk, path: Text, stack: seq<Location>): Result
    decreases |Left(disk, stack)|
  {
    var file := disk.expand(path);
    var location := disk.resolve(file);
    if location in stack then Failed(Cycle(stack + [location]))
    else
      var content := ReadAt(disk, file);
      if content.Unreadable? then Failed(CannotRead(file))
      else if content.NotAMapping? then Failed(RootNotAMapping(file))
      else
        var parent := Named(content.config);
        if parent.None? then Loaded(content.config)
        else if !parent.value.Text? || Blank(parent.value.text) then Failed(BadParent(file))
        else
          StackGrows(disk, location, stack);
          var below := Load(disk, ParentPath(disk, file, parent.value.text), stack + [location]);
          if below.Failed? then below else Loaded(Merge(below.config, Own(content.config)))
  }

  lemma StackGrows(disk: Disk, location: Location, stack: seq<Location>)
    requires location in disk.files && location !in stack
    ensures |Left(disk, stack + [location])| < |Left(disk, stack)|
  {
    assert location in Left(disk, stack) && Left(disk, stack + [location]) == Left(disk, stack) - {location};
  }

  // ---- the chain of ancestors ----

  /** What one file of the chain is: broken, the last, or with a parent to go on to. */
  datatype Link = Broken(error: Error) | Root(config: Config) | Child(config: Config, parent: Text)

  function LinkAt(disk: Disk, file: Text): Link {
    var content := ReadAt(disk, file);
    if content.Unreadable? then Broken(CannotRead(file))
    else if content.NotAMapping? then Broken(RootNotAMapping(file))
    else
      var parent := Named(content.config);
      if parent.None? then Root(content.config)
      else if parent.value.Text? && !Blank(parent.value.text) then
        Child(content.config, disk.expand(ParentPath(disk, file, parent.value.text)))
      else Broken(BadParent(file))
  }

  /** Files each named by the one before, no two of them the same file. */
  ghost predicate IsChain(disk: Disk, chain: seq<Text>) {
    && chain != []
    && Linked(disk, chain)
    && NoRepeats(Locations(disk, chain))
  }

  ghost predicate Linked(disk: Disk, chain: seq<Text>) {
    forall i: nat :: i < |chain| - 1 ==> LinkedAt(disk, chain, i)
  }

  ghost predicate LinkedAt(disk: Disk, chain: seq<Text>, i: nat)
    requires i < |chain| - 1
  {
    LinkAt(disk, chain[i]).Child? && LinkAt(disk, chain[i]).parent == chain[i + 1]
  }

  ghost predicate NoRepeats(locations: seq<Location>) {
    forall i, j :: 0 <= i < j < |locations| ==> locations[i] != locations[j]
  }

  function Locations(disk: Disk, chain: seq<Text>): (r: seq<Location>)
    ensures |r| == |chain| && forall i :: 0 <= i < |r| ==> r[i] == disk.resolve(chain[i])
  {
    if chain == [] then [] else [disk.resolve(chain[0])] + Locations(disk, chain[1..])
  }

  /** The chain cannot go on: its last file names no parent, is broken, or names a file already on it. */
  ghost predicate IsFull(disk: Disk, chain: seq<Text>) {
    && IsChain(disk, chain)
    && var last := LinkAt(disk, chain[|chain| - 1]);
       last.Child? ==> disk.resolve(last.parent) in Locations(disk, chain)
  }

  /** Own settings of every file of the chain, the root file first. */
  ghost function Layers(disk: Disk, chain: seq<Text>): seq<Config>
    requires forall i :: 0 <= i < |chain| ==> !LinkAt(disk, chain[i]).Broken?
  {
    if chain == [] then []
    else
      var link := LinkAt(disk, chain[0]);
      Layers(disk, chain[1..]) + [if link.Root? then link.config else Own(link.config)]
  }

  /** Each layer in turn over what came before it. */
  ghost function Folded(layers: seq<Config>): Config {
    if layers == [] then EMPTY else Merge(Folded(layers[..|layers| - 1]), layers[|layers| - 1])
  }

  ghost predicate Sound(disk: Disk, chain: seq<Text>) {
    chain != [] && forall i :: 0 <= i < |chain| ==> !LinkAt(disk, chain[i]).Broken?
  }

  /** What a full chain says the load gives. */
  ghost function Outcome(disk: Disk, chain: seq<Text>): Result
    requires IsFull(disk, chain)
  {
    var last := LinkAt(disk, chain[|chain| - 1]);
    if last.Broken? then Failed(last.error)
    else if last.Child? then Failed(Cycle(Locations(disk, chain) + [disk.resolve(last.parent)]))
    else
      assert Sound(disk, chain) by {
        forall i | 0 <= i < |chain| ensures !LinkAt(disk, chain[i]).Broken? {
          if i < |chain| - 1 { assert LinkedAt(disk, chain, i); }
        }
      }
      Loaded(Folded(Layers(disk, chain)))
  }

  /** What loading from the i-th file of a full chain gives. */
  ghost predicate GivesRest(disk: Disk, chain: seq<Text>, i: nat, r: Result)
    requires IsFull(disk, chain) && i < |chain|
  {
    var outcome := Outcome(disk, chain);
    if outcome.Failed? then r == outcome
    else Sound(disk, chain[i..]) && r == Loaded(Folded(Layers(disk, chain[i..])))
  }

  function Over(below: Result, own: Config): Result {
    if below.Failed? then below else Loaded(Merge(below.config, own))
  }

  /** One step of a load. */
  lemma LoadStep(disk: Disk, path: Text, stack: seq<Location>) returns (parent: Text)
    requires disk.resolve(disk.expand(path)) !in stack
    ensures var file := disk.expand(path); var link := LinkAt(disk, file); var r := Load(disk, path, stack);
            && (link.Broken? ==> r == Failed(link.error))
            && (link.Root? ==> r == Loaded(link.config))
            && (link.Child? ==>
                  disk.expand(parent) == link.parent &&
                    r == Over(Load(disk, parent, stack + [disk.resolve(file)]), Own(link.config)))
  {
    var file := disk.expand(path);
    var content := ReadAt(disk, file);
    parent := "";
    if LinkAt(disk, file).Child? { parent := ParentPath(disk, file, Named(content.config).value.text); }
  }

  lemma LoadAgain(disk: Disk, path: Text, stack: seq<Location>)
    requires disk.resolve(disk.expand(path)) in stack
    ensures Load(disk, path, stack) == Failed(Cycle(stack + [disk.resolve(disk.expand(path))]))
  {
  }

  lemma StackAt(disk: Disk, chain: seq<Text>, i: nat)
    requires i < |chain| && NoRepeats(Locations(disk, chain))
    ensures Locations(disk, chain[..i + 1]) == Locations(disk, chain[..i]) + [disk.resolve(chain[i])]
    ensures disk.resolve(chain[i]) !in Locations(disk, chain[..i])
  {
    var part := chain[..i + 1];
    forall k, l | 0 <= k < l < |part| ensures Locations(disk, part)[k] != Locations(disk, part)[l] {
      assert Locations(disk, part)[k] == Locations(disk, chain)[k] &&
        Locations(disk, part)[l] == Locations(disk, chain)[l];
    }
    assert part[..i] == chain[..i];
    LastIsNewLocation(disk, part);
  }

  lemma {:induction false} LoadGivesRest(disk: Disk, chain: seq<Text>, i: nat, path: Text)
    requires IsFull(disk, chain) && i < |chain| && disk.expand(path) == chain[i]
    ensures GivesRest(disk, chain, i, Load(disk, path, Locations(disk, chain[..i])))
    decreases |chain| - i
  {
    hide Load, LinkAt;
    var stack := Locations(disk, chain[..i]);
    StackAt(disk, chain, i);
    if i == |chain| - 1 {
      LastLoad(disk, chain, path);
    } else {
      var parent := LoadStep(disk, path, stack);
      assert LinkedAt(disk, chain, i);
      LoadGivesRest(disk, chain, i + 1, parent);
      if Outcome(disk, chain).Loaded? { LayersFrom(disk, chain, i); }
    }
  }

  lemma LastLoad(disk: Disk, chain: seq<Text>, path: Text)
    requires IsFull(disk, chain) && disk.expand(path) == chain[|chain| - 1]
    ensures GivesRest(disk, chain, |chain| - 1, Load(disk, path, Locations(disk, chain[..|chain| - 1])))
  {
    hide Load, LinkAt;
    var last := |chain| - 1;
    var stack := Locations(disk, chain[..last]);
    LastIsNewLocation(disk, chain);
    var parent := LoadStep(disk, path, stack);
    var link := LinkAt(disk, chain[last]);
    assert chain[last..] == [chain[last]];
    if link.Root? {
      FoldedAlone(disk, chain[last]);
    } else if link.Child? {
      LoadAgain(disk, parent, Locations(disk, chain));
    }
  }

  lemma FoldedAlone(disk: Disk, file: Text)
    requires LinkAt(disk, file).Root?
    ensures Folded(Layers(disk, [file])) == LinkAt(disk, file).config
  {
    var config := LinkAt(disk, file).config;
    assert [file][1..] == [];
    assert Layers(disk, [file]) == [config];
    assert [config][..0] == [];
    EmptyIsLeftIdentity(config);
  }

  lemma LayersFrom(disk: Disk, chain: seq<Text>, i: nat)
    requires i < |chain| - 1 && Sound(disk, chain[i + 1..]) && LinkAt(disk, chain[i]).Child?
    ensures Sound(disk, chain[i..])
    ensures Folded(Layers(disk, chain[i..])) ==
            Merge(Folded(Layers(disk, chain[i + 1..])), Own(LinkAt(disk, chain[i]).config))
  {
    assert chain[i..][1..] == chain[i + 1..];
    forall k | 0 <= k < |chain[i..]| ensures !LinkAt(disk, chain[i..][k]).Broken? {
      if k > 0 { assert chain[i..][k] == chain[i + 1..][k - 1]; }
    }
    var above := Layers(disk, chain[i + 1..]);
    var own := Own(LinkAt(disk, chain[i]).config);
    assert Layers(disk, chain[i..]) == above + [own];
    assert (above + [own])[..|above|] == above;
  }

  /** Loading a file gives what its chain of ancestors says. */
  lemma LoadIsOutcome(disk: Disk, path: Text, chain: seq<Text>)
    requires IsFull(disk, chain) && chain[0] == disk.expand(path)
    ensures Load(disk, path, []) == Outcome(disk, chain)
  {
    LoadGivesRest(disk, chain, 0, path);
    assert chain[..0] == [] && chain[0..] == chain;
  }

  /** Every file of every disk has such a chain. */
  lemma FullChainExists(disk: Disk, path: Text)
    ensures exists chain :: IsFull(disk, chain) && chain[0] == disk.expand(path)
  {
    var chain := FullChain(disk, [disk.expand(path)]);
  }

  lemma {:induction false} FullChain(disk: Disk, chain: seq<Text>) returns (full: seq<Text>)
    requires IsChain(disk, chain) && forall i :: 0 <= i < |chain| - 1 ==> IsFile(disk, chain[i])
    ensures IsFull(disk, full) && full[0] == chain[0]
    decreases |Left(disk, Locations(disk, chain[..|chain| - 1]))|
  {
    hide LinkAt, Left, NoRepeats, Linked;
    var last := chain[|chain| - 1];
    var link := LinkAt(disk, last);
    if !link.Child? || disk.resolve(link.parent) in Locations(disk, chain) {
      return chain;
    }
    ChainGrows(disk, chain);
    LastIsNewLocation(disk, chain);
    ChildIsFile(disk, last);
    var longer := chain + [link.parent];
    hide IsChain;
    assert longer[..|longer| - 1] == chain;
    StackGrows(disk, disk.resolve(last), Locations(disk, chain[..|chain| - 1]));
    full := FullChain(disk, longer);
  }

  lemma ChainGrows(disk: Disk, chain: seq<Text>)
    requires IsChain(disk, chain)
    requires var last := LinkAt(disk, chain[|chain| - 1]);
             last.Child? && disk.resolve(last.parent) !in Locations(disk, chain)
    ensures IsChain(disk, chain + [LinkAt(disk, chain[|chain| - 1]).parent])
  {
    hide LinkAt, NoRepeats, Linked;
    var next := LinkAt(disk, chain[|chain| - 1]).parent;
    LocationsGrow(disk, chain, next);
    OneMore(Locations(disk, chain), disk.resolve(next));
    LinksGrow(disk, chain, next);
  }

  lemma ChildIsFile(disk: Disk, file: Text)
    requires LinkAt(disk, file).Child?
    ensures IsFile(disk, file)
  {
  }

  lemma LastIsNewLocation(disk: Disk, chain: seq<Text>)
    requires chain != [] && NoRepeats(Locations(disk, chain))
    ensures Locations(disk, chain) == Locations(disk, chain[..|chain| - 1]) + [disk.resolve(chain[|chain| - 1])]
    ensures disk.resolve(chain[|chain| - 1]) !in Locations(disk, chain[..|chain| - 1])
  {
    hide NoRepeats, Locations;
    var front, last := chain[..|chain| - 1], chain[|chain| - 1];
    assert chain == front + [last];
    LocationsGrow(disk, front, last);
    LastIsNew(Locations(disk, front), disk.resolve(last));
  }

  lemma {:induction false} LocationsGrow(disk: Disk, chain: seq<Text>, next: Text)
    ensures Locations(disk, chain + [next]) == Locations(disk, chain) + [disk.resolve(next)]
  {
    if chain != [] {
      assert (chain + [next])[1..] == chain[1..] + [next];
      LocationsGrow(disk, chain[1..], next);
    } else {
      assert (chain + [next])[1..] == [];
    }
  }

  lemma LinksGrow(disk: Disk, chain: seq<Text>, next: Text)
    requires chain != [] && Linked(disk, chain)
    requires LinkAt(disk, chain[|chain| - 1]).Child? && LinkAt(disk, chain[|chain| - 1]).parent == next
    ensures Linked(disk, chain + [next])
  {
    hide LinkAt;
    forall i: nat | i < |chain| ensures LinkedAt(disk, chain + [next], i) {
      if i < |chain| - 1 { assert LinkedAt(disk, chain, i); }
    }
  }

  lemma OneMore(locations: seq<Location>, next: Location)
    requires NoRepeats(locations) && next !in locations
    ensures NoRepeats(locations + [next])
  {
  }

  lemma LastIsNew(locations: seq<Location>, last: Location)
    requires NoRepeats(locations + [last])
    ensures last !in locations
  {
    var longer := locations + [last];
    forall i | 0 <= i < |locations| ensures locations[i] != last {
      assert longer[i] != longer[|locations|];
    }
  }

  // ---- what a loaded configuration holds ----

  /**
   The nearest file that says something at a path, other than a mapping, decides what the loaded configuration
   holds there.
   */
  lemma {:induction false} NearestLayerWins(layers: seq<Config>, k: nat, path: Path)
    requires k < |layers| && At(layers[k], path).Some? && !At(layers[k], path).value.Dict?
    requires forall j :: k < j < |layers| ==> At(layers[j], path).None? && !Blocks(layers[j], path)
    ensures At(Folded(layers), path) == At(layers[k], path)
    decreases |layers|
  {
    var last := |layers| - 1;
    MergeByPath(Folded(layers[..last]), layers[last], path);
    if k < last { NearestLayerWins(layers[..last], k, path); }
  }

  /** Nothing is held at a path that no file mentions. */
  lemma {:induction false} NothingFromNowhere(layers: seq<Config>, path: Path)
    requires path != [] && forall j :: 0 <= j < |layers| ==> At(layers[j], path).None?
    ensures At(Folded(layers), path).None?
    decreases |layers|
  {
    if layers != [] {
      var last := |layers| - 1;
      MergeByPath(Folded(layers[..last]), layers[last], path);
      NothingFromNowhere(layers[..last], path);
    }
  }

  /** `defaults_from` survives the load exactly when the root file has the key, with nothing in it. */
  lemma ParentKeySurvives(disk: Disk, path: Text, chain: seq<Text>)
    requires IsFull(disk, chain) && chain[0] == disk.expand(path) && Load(disk, path, []).Loaded?
    ensures var last := LinkAt(disk, chain[|chain| - 1]);
            last.Root? && (PARENT in Load(disk, path, []).config.fields <==> PARENT in last.config.fields)
  {
    LoadIsOutcome(disk, path, chain);
    forall i: nat | i < |chain| - 1 ensures LinkAt(disk, chain[i]).Child? { assert LinkedAt(disk, chain, i); }
    OnlyRootLayerNamesParent(disk, chain);
  }

  lemma {:induction false} OnlyRootLayerNamesParent(disk: Disk, chain: seq<Text>)
    requires Sound(disk, chain)
    requires forall i :: 0 <= i < |chain| - 1 ==> LinkAt(disk, chain[i]).Child?
    requires LinkAt(disk, chain[|chain| - 1]).Root?
    ensures PARENT in Folded(Layers(disk, chain)).fields <==> PARENT in LinkAt(disk, chain[|chain| - 1]).config.fields
    decreases |chain|
  {
    var layers := Layers(disk, chain);
    var rest := layers[..|layers| - 1];
    assert rest == Layers(disk, chain[1..]);
    if |chain| > 1 {
      OnlyRootLayerNamesParent(disk, chain[1..]);
    } else {
      assert chain[1..] == [];
    }
  }
}
