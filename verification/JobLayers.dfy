/**
 The configuration a plan gives a job: the loaded file under the plan's and the case's settings, then the
 overrides, one dotted path at a time, and last the templates filled in.
 */
module JobLayers {

  import opened ConfigMerge

  datatype Override = Override(path: Path, value: Value)

  /** Where the settings of one job come from; what is missing is empty. */
  datatype Layers = Layers(
    loaded: Config, planBase: Config, planConfig: Config, caseBase: Config, caseConfig: Config,
    experimentName: string, overrides: seq<Override>, render: string -> string
  )

  const OUTPUT_DIR: Path := ["runtime", "output_dir"]

  function Merged(l: Layers): Config {
    Merge(Merge(l.loaded, Merge(l.planBase, l.planConfig)), Merge(l.caseBase, l.caseConfig))
  }

  /** Everything set on the merged layers, in order. */
  function Settings(l: Layers, seed: int, outputDir: string): seq<Override> {
    [Override(["seed"], Number(seed as real)), Override(["experiment_name"], Text(l.experimentName)),
     Override(OUTPUT_DIR, Text(outputDir))]
    + l.overrides
  }

  function Apply(v: Value, settings: seq<Override>): Option<Value> {
    if settings == [] then Some(v)
    else
      var before, last := Apply(v, settings[..|settings| - 1]), settings[|settings| - 1];
      if before.None? then None else Set(before.value, last.path, last.value)
  }

  /** Every text in a value with its templates filled in. */
  function Rendered(v: Value, render: string -> string): Value {
    match v
    case Text(text) => Text(render(text))
    case Dict(fields) => Dict(map key | key in fields :: Rendered(fields[key], render))
    case List(items) => List(seq(|items|, i requires 0 <= i < |items| => Rendered(items[i], render)))
    case _ => v
  }

  /**
   The configuration, or none when a setting has something other than a mapping in its way. `elsewhere` is
   the absolute output directory of a job that works in another directory.
   */
  function DraftConfig(l: Layers, seed: int, outputDir: string, elsewhere: Option<string>): Option<Value> {
    var applied := Apply(Merged(l), Settings(l, seed, outputDir));
    if applied.None? then None
    else if elsewhere.None? then Some(Rendered(applied.value, l.render))
    else Set(Rendered(applied.value, l.render), OUTPUT_DIR, Text(elsewhere.value))
  }

  method ApplyAll(v: Value, settings: seq<Override>) returns (r: Option<Value>)
    ensures r == Apply(v, settings)
  {
    hide Set;
    r := Some(v);
    for i := 0 to |settings|
      invariant r.Some? && r == Apply(v, settings[..i])
    {
      assert settings[..i + 1][..i] == settings[..i];
      r := Set(r.value, settings[i].path, settings[i].value);
      if r.None? {
        NoneStaysNone(v, settings, i + 1);
        return;
      }
    }
    assert settings[..|settings|] == settings;
  }

  method BuildConfig(l: Layers, seed: int, outputDir: string, elsewhere: Option<string>) returns (r: Option<Value>)
    ensures r == DraftConfig(l, seed, outputDir, elsewhere)
  {
    hide Merged, Settings, Apply, Rendered;
    r := ApplyAll(Merged(l), Settings(l, seed, outputDir));
    if r.None? { return; }
    r := Some(Rendered(r.value, l.render));
    if elsewhere.Some? { r := Set(r.value, OUTPUT_DIR, Text(elsewhere.value)); }
  }

  lemma {:induction false} NoneStaysNone(v: Value, settings: seq<Override>, k: nat)
    requires k <= |settings| && Apply(v, settings[..k]).None?
    ensures Apply(v, settings).None?
  {
    if k == |settings| {
      assert settings[..k] == settings;
    } else {
      assert settings[..|settings| - 1][..k] == settings[..k];
      NoneStaysNone(v, settings[..|settings| - 1], k);
    }
  }

  // ---- what a draft holds ----

  /** A setting that no later one meets is what is found at its path. */
  lemma {:induction false} LastSettingWins(v: Value, settings: seq<Override>, k: nat)
    requires k < |settings| && Apply(v, settings).Some?
    requires forall j :: k < j < |settings| ==> Apart(settings[j].path, settings[k].path)
    ensures At(Apply(v, settings).value, settings[k].path) == Some(settings[k].value)
  {
    var front, last := settings[..|settings| - 1], settings[|settings| - 1];
    if k == |front| {
      SetThenAt(Apply(v, front).value, last.path, last.value);
    } else {
      LastSettingWins(v, front, k);
      SetKeepsTheRest(Apply(v, front).value, last.path, last.value, settings[k].path);
    }
  }

  /** What no setting meets stays as it is in the layers. */
  lemma {:induction false} SettingsKeepTheRest(v: Value, settings: seq<Override>, path: Path)
    requires Apply(v, settings).Some? && forall j :: 0 <= j < |settings| ==> Apart(settings[j].path, path)
    ensures At(Apply(v, settings).value, path) == At(v, path)
  {
    if settings != [] {
      var front, last := settings[..|settings| - 1], settings[|settings| - 1];
      SettingsKeepTheRest(v, front, path);
      SetKeepsTheRest(Apply(v, front).value, last.path, last.value, path);
    }
  }

  /** Applying fails exactly at a setting whose path is blocked by what the ones before it left. */
  lemma {:induction false} ApplyFailsIffBlocked(v: Value, settings: seq<Override>)
    ensures Apply(v, settings).None? <==> exists k :: 0 <= k < |settings| && BlockedAt(v, settings, k)
  {
    if settings != [] {
      var last := |settings| - 1;
      var front := settings[..last];
      ApplyFailsIffBlocked(v, front);
      forall k: nat | k < last ensures BlockedAt(v, settings, k) <==> BlockedAt(v, front, k) {
        assert front[..k] == settings[..k];
      }
      if Apply(v, front).Some? {
        SetFailsIffBlocked(Apply(v, front).value, settings[last].path, settings[last].value);
        assert BlockedAt(v, settings, last) <==> Apply(v, settings).None?;
      } else {
        var k :| 0 <= k < |front| && BlockedAt(v, front, k);
        assert BlockedAt(v, settings, k);
      }
    }
  }

  ghost predicate BlockedAt(v: Value, settings: seq<Override>, k: nat)
    requires k < |settings|
  {
    Apply(v, settings[..k]).Some? && Blocks(Apply(v, settings[..k]).value, settings[k].path)
  }

  /** Filling in templates changes texts and nothing else. */
  lemma {:induction false} RenderedAt(v: Value, render: string -> string, path: Path)
    ensures At(Rendered(v, render), path) ==
            if At(v, path).None? then None else Some(Rendered(At(v, path).value, render))
    decreases path
  {
    if path != [] && v.Dict? && path[0] in v.fields {
      RenderedAt(v.fields[path[0]], render, path[1..]);
    }
  }

  /**
   A job's own setting, with its templates filled in, is what its draft holds, unless a later setting meets
   its path.
   */
  lemma DraftHoldsSetting(l: Layers, seed: int, outputDir: string, elsewhere: Option<string>, k: nat)
    requires var settings := Settings(l, seed, outputDir);
             && k < |settings| && forall j :: k < j < |settings| ==> Apart(settings[j].path, settings[k].path)
    ensures var draft, setting := DraftConfig(l, seed, outputDir, elsewhere), Settings(l, seed, outputDir)[k];
            draft.Some? && (elsewhere.None? || Apart(OUTPUT_DIR, setting.path)) ==>
              At(draft.value, setting.path) == Some(Rendered(setting.value, l.render))
  {
    hide Settings, Merged, Rendered, OUTPUT_DIR;
    var settings := Settings(l, seed, outputDir);
    var applied := Apply(Merged(l), settings);
    if applied.Some? {
      LastSettingWins(Merged(l), settings, k);
      RenderedAt(applied.value, l.render, settings[k].path);
      if elsewhere.None? || Apart(OUTPUT_DIR, settings[k].path) {
        OutputDirAside(l, applied.value, elsewhere, settings[k].path);
      }
    }
  }

  /** Elsewhere the merged layers show through, the case over the plan over the loaded file. */
  lemma DraftHoldsLayers(l: Layers, seed: int, outputDir: string, elsewhere: Option<string>, path: Path)
    requires forall j :: 0 <= j < |Settings(l, seed, outputDir)| ==> Apart(Settings(l, seed, outputDir)[j].path, path)
    ensures var draft, below := DraftConfig(l, seed, outputDir, elsewhere), At(Merged(l), path);
            draft.Some? && (elsewhere.None? || Apart(OUTPUT_DIR, path)) ==>
              At(draft.value, path) == if below.None? then None else Some(Rendered(below.value, l.render))
  {
    hide Settings, Merged, Rendered, OUTPUT_DIR;
    var settings := Settings(l, seed, outputDir);
    var applied := Apply(Merged(l), settings);
    if applied.Some? {
      SettingsKeepTheRest(Merged(l), settings, path);
      RenderedAt(applied.value, l.render, path);
      if elsewhere.None? || Apart(OUTPUT_DIR, path) { OutputDirAside(l, applied.value, elsewhere, path); }
    }
  }

  lemma OutputDirAside(l: Layers, applied: Value, elsewhere: Option<string>, path: Path)
    requires elsewhere.None? || Apart(OUTPUT_DIR, path)
    ensures var rendered := Rendered(applied, l.render);
            elsewhere.Some? && Set(rendered, OUTPUT_DIR, Text(elsewhere.value)).Some? ==>
              At(Set(rendered, OUTPUT_DIR, Text(elsewhere.value)).value, path) == At(rendered, path)
  {
    hide Rendered, OUTPUT_DIR;
    var rendered := Rendered(applied, l.render);
    if elsewhere.Some? && Set(rendered, OUTPUT_DIR, Text(elsewhere.value)).Some? {
      SetKeepsTheRest(rendered, OUTPUT_DIR, Text(elsewhere.value), path);
    }
  }
}
