/**
 Layered configuration: merging a patch over a base, and setting one value at a dotted path.
 */
module ConfigMerge {

  datatype Option<T> = None | Some(value: T)

  /** A configuration value as the YAML and JSON loaders give it. */
  datatype Value =
    | Null
    | Bool(flag: bool)
    | Number(number: real)
    | Text(text: string)
    | List(items: seq<Value>)
    | Dict(fields: map<string, Value>)

  type Config = v: Value | v.Dict? witness Dict(map[])

  const EMPTY: Config := Dict(map[])

  type Path = seq<string>

  /** What counts as true when a value is used as a condition. */
  predicate Truthy(v: Value) {
    match v
    case Null => false
    case Bool(flag) => flag
    case Number(number) => number != 0.0
    case Text(text) => text != ""
    case List(items) => items != []
    case Dict(fields) => fields != map[]
  }

  /** `patch` over `base`: mappings merge key by key, anything else is replaced. */
  function Merge(base: Config, patch: Config): Config
    decreases patch
  {
    Dict(map key | key in base.fields.Keys + patch.fields.Keys ::
           if key !in patch.fields then base.fields[key]
           else if key in base.fields && base.fields[key].Dict? && patch.fields[key].Dict? then
             Merge(base.fields[key], patch.fields[key])
           else patch.fields[key])
  }

  /** Merging as the loader does it: copy the base, then overwrite it key by key. */
  method DeepMerge(base: Config, patch: Config) returns (merged: Config)
    ensures merged == Merge(base, patch)
    decreases patch
  {
    MergedFields(base, patch);
    hide Merge;
    var out, rest := base.fields, patch.fields.Keys;
    while rest != {}
      invariant rest <= patch.fields.Keys
      invariant out.Keys == base.fields.Keys + (patch.fields.Keys - rest)
      invariant forall key :: key in out ==>
        out[key] == if key in rest then base.fields[key] else MergedField(base, patch, key)
    {
      var key :| key in rest;
      var value := patch.fields[key];
      if value.Dict? && key in out && out[key].Dict? {
        value := DeepMerge(out[key], value);
      }
      MergedFieldIs(base, patch, key);
      out, rest := out[key := value], rest - {key};
    }
    merged := Dict(out);
    assert merged.fields == Merge(base, patch).fields;
  }

  ghost function MergedField(base: Config, patch: Config, key: string): Value
    requires key in base.fields || key in patch.fields
  {
    assert key in Merge(base, patch).fields;
    Merge(base, patch).fields[key]
  }

  lemma MergedFieldIs(base: Config, patch: Config, key: string)
    requires key in patch.fields
    ensures MergedField(base, patch, key) ==
      if key in base.fields && base.fields[key].Dict? && patch.fields[key].Dict? then
        Merge(base.fields[key], patch.fields[key])
      else patch.fields[key]
  {
  }

  lemma MergedFields(base: Config, patch: Config)
    ensures Merge(base, patch).fields.Keys == base.fields.Keys + patch.fields.Keys
    ensures forall key :: key in Merge(base, patch).fields ==>
            Merge(base, patch).fields[key] == MergedField(base, patch, key)
    ensures forall key :: key in base.fields && key !in patch.fields ==>
            MergedField(base, patch, key) == base.fields[key]
  {
  }

  // ---- reading by path ----

  /** The value at a path of keys, if there is one. */
  function At(v: Value, path: Path): Option<Value> {
    if path == [] then Some(v)
    else if v.Dict? && path[0] in v.fields then At(v.fields[path[0]], path[1..])
    else None
  }

  /** A value that is no mapping sits on the way to the path. */
  predicate Blocks(v: Value, path: Path) {
    && path != []
    && (!v.Dict? || (path[0] in v.fields && Blocks(v.fields[path[0]], path[1..])))
  }

  /**
   What a merge holds at every path: two mappings merge, else the patch wins, else the base shows through
   unless blocked.
   */
  lemma {:induction false} MergeByPath(base: Config, patch: Config, path: Path)
    ensures At(Merge(base, patch), path) ==
      var under, over := At(base, path), At(patch, path);
      if under.Some? && under.value.Dict? && over.Some? && over.value.Dict? then Some(Merge(under.value, over.value))
      else if over.Some? then over
      else if Blocks(patch, path) then None
      else under
    decreases path
  {
    if path != [] {
      var key := path[0];
      if key in base.fields && base.fields[key].Dict? && key in patch.fields && patch.fields[key].Dict? {
        MergeByPath(base.fields[key], patch.fields[key], path[1..]);
      } else if key in patch.fields {
        assert At(Merge(base, patch), path) == At(patch, path);
        if At(patch, path).None? { AbsentMeansBlocked(base, patch, key, path); }
      }
    }
  }

  lemma AbsentMeansBlocked(base: Config, patch: Config, key: string, path: Path)
    requires path != [] && key == path[0] && key in patch.fields && At(patch, path).None?
    requires key !in base.fields || !base.fields[key].Dict? || !patch.fields[key].Dict?
    ensures Blocks(patch, path) || At(base, path).None?
  {
    if !patch.fields[key].Dict? {
      assert path[1..] != [];
    } else if key in base.fields {
      assert path[1..] != [];
    }
  }

  // ---- the algebra ----

  lemma EmptyIsLeftIdentity(x: Config)
    ensures Merge(EMPTY, x) == x
  {
    assert Merge(EMPTY, x).fields == x.fields;
  }

  lemma EmptyIsRightIdentity(x: Config)
    ensures Merge(x, EMPTY) == x
  {
    assert Merge(x, EMPTY).fields == x.fields;
  }

  /** Every key of `x` is in `y`, and likewise wherever both have a mapping. */
  ghost predicate Covered(x: Config, y: Config)
    decreases y
  {
    && x.fields.Keys <= y.fields.Keys
    && forall key :: key in x.fields && key in y.fields && x.fields[key].Dict? && y.fields[key].Dict? ==>
         Covered(x.fields[key], y.fields[key])
  }

  /** A base vanishes under a patch exactly when the patch covers it. */
  lemma {:induction false} AbsorbedIffCovered(x: Config, y: Config)
    ensures Merge(x, y) == y <==> Covered(x, y)
    decreases y
  {
    var merged := Merge(x, y);
    forall key | key in x.fields && key in y.fields && x.fields[key].Dict? && y.fields[key].Dict?
      ensures merged.fields[key] == y.fields[key] <==> Covered(x.fields[key], y.fields[key])
    {
      AbsorbedIffCovered(x.fields[key], y.fields[key]);
    }
    if Covered(x, y) {
      assert merged.fields == y.fields;
    }
  }

  lemma {:induction false} CoversItself(x: Config)
    ensures Covered(x, x)
    decreases x
  {
    forall key | key in x.fields && x.fields[key].Dict? ensures Covered(x.fields[key], x.fields[key]) {
      CoversItself(x.fields[key]);
    }
  }

  lemma MergeIsIdempotent(x: Config)
    ensures Merge(x, x) == x
  {
    CoversItself(x);
    AbsorbedIffCovered(x, x);
  }

  /** A merge covers both its parts, so merging either in again underneath changes nothing. */
  lemma {:induction false} MergeCoversBase(x: Config, y: Config)
    ensures Covered(x, Merge(x, y))
    decreases y
  {
    var merged := Merge(x, y);
    forall key | key in x.fields && key in merged.fields && x.fields[key].Dict? && merged.fields[key].Dict?
      ensures Covered(x.fields[key], merged.fields[key])
    {
      if key in y.fields && y.fields[key].Dict? {
        MergeCoversBase(x.fields[key], y.fields[key]);
      } else {
        CoversItself(x.fields[key]);
      }
    }
  }

  /**
   When three layers may be grouped either way: wherever the outer two have mappings, the middle one
   has nothing, or a mapping that groups well in turn, or the top covers the bottom there.
   */
  ghost predicate Groups(a: Config, b: Config, c: Config)
    decreases c, 1
  {
    forall key :: GroupsAt(a, b, c, key)
  }

  ghost predicate GroupsAt(a: Config, b: Config, c: Config, key: string)
    decreases c, 0
  {
    key in a.fields && key in b.fields && key in c.fields && a.fields[key].Dict? && c.fields[key].Dict? ==>
      if b.fields[key].Dict? then Groups(a.fields[key], b.fields[key], c.fields[key])
      else Covered(a.fields[key], c.fields[key])
  }

  lemma {:induction false} AssociativeIffGroups(a: Config, b: Config, c: Config)
    ensures Merge(Merge(a, b), c) == Merge(a, Merge(b, c)) <==> Groups(a, b, c)
    decreases c, 1
  {
    var left, right := Merge(Merge(a, b), c), Merge(a, Merge(b, c));
    assert left.fields.Keys == right.fields.Keys;
    forall key | key in left.fields
      ensures left.fields[key] == right.fields[key] <==> GroupsAt(a, b, c, key)
    {
      GroupsAtKey(a, b, c, key);
    }
    if forall key :: GroupsAt(a, b, c, key) {
      forall key | key in left.fields ensures left.fields[key] == right.fields[key] {
        assert GroupsAt(a, b, c, key);
      }
      assert left.fields == right.fields;
    } else {
      var key :| !GroupsAt(a, b, c, key);
      assert left.fields[key] != right.fields[key];
    }
  }

  lemma GroupsAtKey(a: Config, b: Config, c: Config, key: string)
    requires key in a.fields.Keys + b.fields.Keys + c.fields.Keys
    ensures Merge(Merge(a, b), c).fields[key] == Merge(a, Merge(b, c)).fields[key] <==> GroupsAt(a, b, c, key)
    decreases c, 0
  {
    if key in a.fields && key in b.fields && key in c.fields && a.fields[key].Dict? && c.fields[key].Dict? {
      if b.fields[key].Dict? {
        AssociativeIffGroups(a.fields[key], b.fields[key], c.fields[key]);
      } else {
        AbsorbedIffCovered(a.fields[key], c.fields[key]);
      }
    }
  }

  /** Wherever two of the layers share a key, both have a mapping there or neither has. */
  ghost predicate Agree(x: Config, y: Config)
    decreases x
  {
    forall key :: key in x.fields && key in y.fields ==>
      (x.fields[key].Dict? <==> y.fields[key].Dict?) && (x.fields[key].Dict? ==> Agree(x.fields[key], y.fields[key]))
  }

  lemma {:induction false} AgreeingLayersAssociate(a: Config, b: Config, c: Config)
    requires Agree(a, b) && Agree(b, c)
    ensures Merge(Merge(a, b), c) == Merge(a, Merge(b, c))
  {
    AgreeingLayersGroup(a, b, c);
    AssociativeIffGroups(a, b, c);
  }

  lemma {:induction false} AgreeingLayersGroup(a: Config, b: Config, c: Config)
    requires Agree(a, b) && Agree(b, c)
    ensures Groups(a, b, c)
    decreases c
  {
    forall key | key in a.fields && key in b.fields && key in c.fields && a.fields[key].Dict? && c.fields[key].Dict?
      ensures b.fields[key].Dict? && Groups(a.fields[key], b.fields[key], c.fields[key])
    {
      AgreeingLayersGroup(a.fields[key], b.fields[key], c.fields[key]);
    }
  }

  /** A scalar in the middle layer hides the bottom mapping in one grouping and not in the other. */
  lemma MiddleScalarBreaksAssociativity()
    ensures var bottom, middle, top :=
            Dict(map["k" := Dict(map["x" := Null])]), Dict(map["k" := Null]), Dict(map["k" := EMPTY]);
            && Merge(Merge(bottom, middle), top) == top
            && Merge(bottom, Merge(middle, top)) == bottom
            && bottom != top
  {
    var bottom: Config, middle: Config, top: Config :=
      Dict(map["k" := Dict(map["x" := Null])]), Dict(map["k" := Null]), Dict(map["k" := EMPTY]);
    EmptyIsRightIdentity(bottom.fields["k"]);
    assert Merge(bottom, middle).fields == middle.fields;
    assert Merge(middle, top).fields == top.fields;
    assert Merge(bottom, top).fields == bottom.fields;
    assert "x" in bottom.fields["k"].fields && "x" !in top.fields["k"].fields;
  }

  // ---- setting one value ----

  /** Set the value at a path, making mappings on the way; a value that is no mapping on the way is an error. */
  function Set(v: Value, path: Path, value: Value): Option<Value>
    decreases path
  {
    if path == [] then Some(value)
    else if !v.Dict? then None
    else
      var child := Set(if path[0] in v.fields then v.fields[path[0]] else EMPTY, path[1..], value);
      if child.None? then None else Some(Dict(v.fields[path[0] := child.value]))
  }

  /** It fails exactly when something other than a mapping is in the way. */
  lemma {:induction false} SetFailsIffBlocked(v: Value, path: Path, value: Value)
    ensures Set(v, path, value).None? <==> Blocks(v, path)
    decreases path
  {
    if path != [] && v.Dict? {
      SetFailsIffBlocked(if path[0] in v.fields then v.fields[path[0]] else EMPTY, path[1..], value);
      if path[0] !in v.fields { EmptyNeverBlocks(path[1..]); }
    }
  }

  lemma EmptyNeverBlocks(path: Path)
    ensures !Blocks(EMPTY, path)
  {
  }

  lemma {:induction false} SetThenAt(v: Value, path: Path, value: Value)
    requires Set(v, path, value).Some?
    ensures At(Set(v, path, value).value, path) == Some(value)
    decreases path
  {
    if path != [] { SetThenAt(if path[0] in v.fields then v.fields[path[0]] else EMPTY, path[1..], value); }
  }

  /** Two paths that part somewhere: neither is a prefix of the other. */
  predicate Apart(p: Path, q: Path) {
    p != [] && q != [] && (p[0] != q[0] || Apart(p[1..], q[1..]))
  }

  /** Nothing changes away from the path. */
  lemma {:induction false} SetKeepsTheRest(v: Value, path: Path, value: Value, other: Path)
    requires Set(v, path, value).Some? && Apart(path, other)
    ensures At(Set(v, path, value).value, other) == At(v, other)
    ensures Blocks(Set(v, path, value).value, other) == Blocks(v, other)
    decreases path
  {
    if path[0] == other[0] {
      var child := if path[0] in v.fields then v.fields[path[0]] else EMPTY;
      SetKeepsTheRest(child, path[1..], value, other[1..]);
      if path[0] !in v.fields {
        assert At(EMPTY, other[1..]).None?;
        EmptyNeverBlocks(other[1..]);
      }
    }
  }

  /**
   Setting is merging a patch that holds that one value, whenever the value is no mapping and nothing blocks
   the path.
   */
  function Single(path: Path, value: Value): Value {
    if path == [] then value else Dict(map[path[0] := Single(path[1..], value)])
  }

  lemma {:induction false} SetIsMerge(v: Config, path: Path, value: Value)
    requires path != [] && !value.Dict? && !Blocks(v, path)
    ensures Set(v, path, value).Some? && Set(v, path, value).value == Merge(v, Single(path, value))
    decreases path
  {
    var key, rest := path[0], path[1..];
    var child := if key in v.fields then v.fields[key] else EMPTY;
    var below := Single(rest, value);
    var patch: Config := Single(path, value);
    assert patch == Dict(map[key := below]);
    SetFailsIffBlocked(v, path, value);
    if rest != [] {
      if key !in v.fields { EmptyNeverBlocks(rest); }
      SetIsMerge(child, rest, value);
      EmptyIsLeftIdentity(below);
    } else {
      assert below == value;
    }
    assert Merge(v, patch).fields[key] == Set(child, rest, value).value;
    assert Merge(v, patch).fields == v.fields[key := Set(child, rest, value).value];
  }
}
