/**
 The configuration of a bound job: every path in it rewritten to the formal output directory and result
 file, and the binding itself stamped into it.
 */
module JobConfig {

  import opened ConfigMerge
  import opened ProjectPath

  const OUTPUT_DIR_KEYS: set<string> := {
    "output_dir", "outputDir", "result_dir", "resultDir", "results_dir", "resultsDir", "work_dir", "workDir", "workdir",
    "save_dir", "saveDir", "log_dir", "logDir"}

  const RESULT_KEYS: set<string> := {
    "result_csv", "resultCsv", "results_csv", "resultsCsv", "metrics_csv", "metricsCsv", "summary_csv", "summaryCsv",
    "output_csv", "outputCsv", "result_json", "resultJson", "metrics_json", "metricsJson", "summary_txt", "summaryTxt",
    "log_file", "logFile"}

  /** The two sets of keys, without dashes and underscores and in lower case. */
  const PLAIN_OUTPUT_KEYS: set<string> := {"outputdir", "resultdir", "resultsdir", "workdir", "savedir", "logdir"}

  const PLAIN_RESULT_KEYS: set<string> := {
    "resultcsv", "resultscsv", "metricscsv", "summarycsv", "outputcsv", "resultjson", "metricsjson",
    "summarytxt", "logfile"}

  /**
   The characters whose lower case is an ASCII letter: the capitals and the Kelvin sign. No other one can make
   a listed key.
   */
  function LowerChar(c: char): char {
    if 'A' <= c <= 'Z' then c - 'A' + 'a' else if c == '\U{212A}' then 'k' else c
  }

  function Plain(key: string): string {
    if key == "" then ""
    else if key[0] == '-' || key[0] == '_' then Plain(key[1..])
    else [LowerChar(key[0])] + Plain(key[1..])
  }

  predicate IsDirKey(key: string) {
    Plain(key) in PLAIN_OUTPUT_KEYS
  }

  predicate IsCsvKey(key: string) {
    Plain(key) in PLAIN_RESULT_KEYS
  }

  /** Where paths go, and the texts that name them before. */
  datatype Binding = Binding(dir: string, csv: string, formalDir: string, aliases: seq<string>)

  function WithoutEndSlashes(s: string): string {
    if s != "" && s[|s| - 1] == '/' then WithoutEndSlashes(s[..|s| - 1]) else s
  }

  function Source(path: string): string {
    WithoutEndSlashes(Slashed(path))
  }

  /** `text` is the path `source` or something below it. */
  predicate Under(text: string, source: string) {
    && source != "" && |source| <= |text| && text[..|source|] == source
    && (|text| == |source| || text[|source|] == '/')
  }

  function RewriteText(text: string, b: Binding): string {
    if Under(Slashed(text), Source(b.formalDir)) then b.dir + Slashed(text)[|Source(b.formalDir)|..]
    else RewriteAlias(text, b.aliases, b.csv)
  }

  function RewriteAlias(text: string, aliases: seq<string>, csv: string): string {
    if aliases == [] then text
    else if Under(Slashed(text), Source(aliases[0])) then csv + Slashed(text)[|Source(aliases[0])|..]
    else RewriteAlias(text, aliases[1..], csv)
  }

  function Rewrite(v: Value, b: Binding, key: string): Value {
    if IsDirKey(key) then Text(b.dir)
    else if IsCsvKey(key) then Text(b.csv)
    else
      match v
      case Dict(fields) => Dict(map k | k in fields :: Rewrite(fields[k], b, k))
      case List(items) => List(seq(|items|, i requires 0 <= i < |items| => Rewrite(items[i], b, "")))
      case Text(text) => Text(RewriteText(text, b))
      case _ => v
  }

  // ---- rewriting twice ----

  /** `again` is the binding a bound job gives: its directory is the formal one and every alias is the result file. */
  ghost predicate IsRebinding(b: Binding, again: Binding) {
    && Reduced(b.dir) && Reduced(b.csv) && Source(b.formalDir) == b.dir
    && again.dir == again.formalDir == b.dir && again.csv == b.csv
    && again.aliases != [] && forall i :: 0 <= i < |again.aliases| ==> again.aliases[i] == b.csv
  }

  /**
   Text written with a backslash that only the result file itself matches: the first rewrite leaves it, the
   second does not.
   */
  ghost predicate TextDrifts(text: string, b: Binding) {
    && '\\' in text && Under(Slashed(text), b.csv)
    && !Under(Slashed(text), Source(b.formalDir))
    && !NamedByAlias(text, b.aliases)
  }

  ghost predicate NamedByAlias(text: string, aliases: seq<string>) {
    exists i :: 0 <= i < |aliases| && Under(Slashed(text), Source(aliases[i]))
  }

  /** Such a text sits somewhere in the value, not below a key that is replaced whole. */
  ghost predicate Drifts(v: Value, b: Binding, key: string) {
    && !IsDirKey(key) && !IsCsvKey(key)
    && match v
       case Dict(fields) => exists k :: k in fields && Drifts(fields[k], b, k)
       case List(items) => exists i :: 0 <= i < |items| && Drifts(items[i], b, "")
       case Text(text) => TextDrifts(text, b)
       case _ => false
  }

  lemma ReducedIsSource(path: string)
    requires Reduced(path)
    ensures Source(path) == path && Slashed(path) == path && path != ""
  {
    ReducedIsClean(path);
  }

  lemma {:induction false} AliasFound(text: string, aliases: seq<string>, csv: string)
    ensures if NamedByAlias(text, aliases)
            then exists i :: 0 <= i < |aliases| && Under(Slashed(text), Source(aliases[i])) &&
                   RewriteAlias(text, aliases, csv) == csv + Slashed(text)[|Source(aliases[i])|..]
            else RewriteAlias(text, aliases, csv) == text
  {
    if aliases != [] && !Under(Slashed(text), Source(aliases[0])) {
      if NamedByAlias(text, aliases) {
        var i :| 0 <= i < |aliases| && Under(Slashed(text), Source(aliases[i]));
        assert aliases[1..][i - 1] == aliases[i];
      }
      AliasFound(text, aliases[1..], csv);
      if NamedByAlias(text, aliases[1..]) {
        var i :| 0 <= i < |aliases| - 1 && Under(Slashed(text), Source(aliases[1..][i])) &&
          RewriteAlias(text, aliases[1..], csv) == csv + Slashed(text)[|Source(aliases[1..][i])|..];
        assert aliases[i + 1] == aliases[1..][i];
      }
    }
  }

  /** What the second rewrite does to any text. */
  lemma RewriteAgain(text: string, b: Binding, again: Binding)
    requires IsRebinding(b, again)
    ensures RewriteText(text, again) ==
            if Under(Slashed(text), b.dir) || Under(Slashed(text), b.csv) then Slashed(text) else text
  {
    ReducedIsSource(b.dir);
    ReducedIsSource(b.csv);
    AliasFound(text, again.aliases, b.csv);
    hide Source, RewriteAlias, Slashed;
    if Under(Slashed(text), b.csv) {
      assert Under(Slashed(text), Source(again.aliases[0]));
    }
  }

  /**
   What the first rewrite makes of a text: its slashed form, the result file or something below it, or the
   text itself.
   */
  lemma RewriteOnce(text: string, b: Binding)
    requires Reduced(b.csv) && Source(b.formalDir) == b.dir
    ensures var once := RewriteText(text, b);
            if Under(Slashed(text), b.dir) then once == Slashed(text)
            else if NamedByAlias(text, b.aliases) then Slashed(once) == once && Under(once, b.csv)
            else once == text
  {
    ReducedIsSource(b.csv);
    AliasFound(text, b.aliases, b.csv);
    hide Source, RewriteAlias, Reduced;
    var once := RewriteText(text, b);
    if Under(Slashed(text), b.dir) {
      assert once == Slashed(text);
    } else if NamedByAlias(text, b.aliases) {
      var i :| 0 <= i < |b.aliases| && Under(Slashed(text), Source(b.aliases[i])) &&
        once == b.csv + Slashed(text)[|Source(b.aliases[i])|..];
      SlashedJoin(b.csv, Slashed(text)[|Source(b.aliases[i])|..]);
    }
  }

  lemma SlashedJoin(path: string, rest: string)
    requires Slashed(path) == path && Slashed(rest) == rest
    ensures Slashed(path + rest) == path + rest
  {
  }

  lemma SlashedTwice(text: string)
    ensures Slashed(Slashed(text)) == Slashed(text)
    ensures Slashed(text) == text <==> '\\' !in text
  {
    if '\\' in text {
      var i :| 0 <= i < |text| && text[i] == '\\';
      assert Slashed(text)[i] == '/';
    }
  }

  lemma TextTwice(text: string, b: Binding, again: Binding)
    requires IsRebinding(b, again)
    ensures RewriteText(RewriteText(text, b), again) == RewriteText(text, b) <==> !TextDrifts(text, b)
  {
    hide Source, Reduced, RewriteText, Slashed, Under;
    var once := RewriteText(text, b);
    RewriteOnce(text, b);
    RewriteAgain(once, b, again);
    SlashedTwice(text);
  }

  lemma {:induction false} RewriteTwice(v: Value, b: Binding, again: Binding, key: string)
    requires IsRebinding(b, again)
    ensures Rewrite(Rewrite(v, b, key), again, key) == Rewrite(v, b, key) <==> !Drifts(v, b, key)
    decreases v
  {
    hide IsRebinding, IsDirKey, IsCsvKey, RewriteText, TextDrifts;
    if !IsDirKey(key) && !IsCsvKey(key) {
      var once := Rewrite(v, b, key);
      var twice := Rewrite(once, again, key);
      match v
      case Dict(fields) =>
        forall k | k in fields
          ensures twice.fields[k] == once.fields[k] <==> !Drifts(fields[k], b, k)
        {
          RewriteTwice(fields[k], b, again, k);
        }
        assert twice.fields.Keys == once.fields.Keys == fields.Keys;
        if twice.fields != once.fields {
          var k :| k in fields && twice.fields[k] != once.fields[k];
        }
      case List(items) =>
        forall i | 0 <= i < |items|
          ensures twice.items[i] == once.items[i] <==> !Drifts(items[i], b, "")
        {
          RewriteTwice(items[i], b, again, "");
        }
        if twice.items != once.items {
          var i :| 0 <= i < |items| && twice.items[i] != once.items[i];
        }
      case Text(text) => TextTwice(text, b, again);
      case _ =>
    } else {
      hide Rewrite;
      RewriteKey(v, b, key);
      RewriteKey(Rewrite(v, b, key), again, key);
      RebindingKeeps(b, again);
    }
  }

  lemma RewriteKey(v: Value, b: Binding, key: string)
    requires IsDirKey(key) || IsCsvKey(key)
    ensures Rewrite(v, b, key) == Text(if IsDirKey(key) then b.dir else b.csv)
  {
  }

  lemma RebindingKeeps(b: Binding, again: Binding)
    requires IsRebinding(b, again)
    ensures again.dir == b.dir && again.csv == b.csv
  {
  }

  // ---- stamping the binding into the configuration ----

  /** What is stamped: the two paths as a command sees them, and the contract. */
  datatype Stamp = Stamp(csv: string, dir: string, contract: Value)

  function ThenSet(v: Option<Value>, path: Path, value: Value): Option<Value> {
    if v.None? then v else Set(v.value, path, value)
  }

  function Stamped(config: Value, s: Stamp): Option<Value> {
    var a := Set(config, ["test", "results_csv"], Text(s.csv));
    var b := ThenSet(a, ["runtime", "result_csv"], Text(s.csv));
    var c := ThenSet(b, ["paper", "result_csv"], Text(s.csv));
    var d := ThenSet(c, ["runtime", "output_dir"], Text(s.dir));
    ThenSet(d, ["runtime", "result_path_contract"], s.contract)
  }

  /** A section of a configuration, empty when there is none. */
  function Section(config: Value, name: string): Value {
    if config.Dict? && name in config.fields then config.fields[name] else EMPTY
  }

  predicate HasSections(config: Value) {
    config.Dict? && Section(config, "test").Dict? && Section(config, "runtime").Dict? && Section(config, "paper").Dict?
  }

  function Put(config: Value, section: string, key: string, value: Value): Value
    requires config.Dict? && Section(config, section).Dict?
  {
    Dict(config.fields[section := Dict(Section(config, section).fields[key := value])])
  }

  lemma SetIsPut(config: Value, section: string, key: string, value: Value)
    ensures Set(config, [section, key], value) ==
      if config.Dict? && Section(config, section).Dict? then Some(Put(config, section, key, value)) else None
  {
    assert [section, key][1..] == [key] && [key][1..] == [];
    assert Set(Section(config, section), [key], value) ==
      if Section(config, section).Dict? then Some(Dict(Section(config, section).fields[key := value])) else None;
  }

  lemma PutSections(config: Value, section: string, key: string, value: Value)
    requires config.Dict? && Section(config, section).Dict?
    ensures var r := Put(config, section, key, value);
            && r.Dict? && r.fields.Keys == config.fields.Keys + {section}
            && Section(r, section) == Dict(Section(config, section).fields[key := value])
            && forall other :: other != section ==> Section(r, other) == Section(config, other)
  {
  }

  /** The values stamped into a section. */
  function Stamps(name: string, s: Stamp): map<string, Value> {
    if name == "test" then map["results_csv" := Text(s.csv)]
    else if name == "paper" then map["result_csv" := Text(s.csv)]
    else if name == "runtime" then
      map["result_csv" := Text(s.csv), "output_dir" := Text(s.dir), "result_path_contract" := s.contract]
    else map[]
  }

  /** `r` is `config` with the stamp in its three sections and everything else as it was. */
  ghost predicate IsStamped(config: Value, s: Stamp, r: Value)
    requires HasSections(config)
  {
    && r.Dict? && r.fields.Keys == config.fields.Keys + {"test", "runtime", "paper"}
    && Section(r, "test") == Dict(Section(config, "test").fields + Stamps("test", s))
    && Section(r, "runtime") == Dict(Section(config, "runtime").fields + Stamps("runtime", s))
    && Section(r, "paper") == Dict(Section(config, "paper").fields + Stamps("paper", s))
    && forall key :: key !in {"test", "runtime", "paper"} ==> Section(r, key) == Section(config, key)
  }

  /** Stamping fails exactly when one of the three sections is there and is no mapping. */
  lemma StampedIs(config: Value, s: Stamp)
    requires config.Dict?
    ensures Stamped(config, s).Some? <==> HasSections(config)
    ensures HasSections(config) ==> IsStamped(config, s, Stamped(config, s).value)
  {
    if HasSections(config) {
      StampedPuts(config, s);
    } else {
      StampedFails(config, s);
    }
  }

  lemma StampedFails(config: Value, s: Stamp)
    requires config.Dict? && !HasSections(config)
    ensures Stamped(config, s).None?
  {
    hide Set, Put, Section;
    SetIsPut(config, "test", "results_csv", Text(s.csv));
    if Section(config, "test").Dict? {
      PutSections(config, "test", "results_csv", Text(s.csv));
      var a := Put(config, "test", "results_csv", Text(s.csv));
      SetIsPut(a, "runtime", "result_csv", Text(s.csv));
      if Section(a, "runtime").Dict? {
        PutSections(a, "runtime", "result_csv", Text(s.csv));
        SetIsPut(Put(a, "runtime", "result_csv", Text(s.csv)), "paper", "result_csv", Text(s.csv));
      }
    }
  }

  lemma StampedPuts(config: Value, s: Stamp)
    requires HasSections(config)
    ensures Stamped(config, s).Some? && IsStamped(config, s, Stamped(config, s).value)
  {
    hide Set, Put, Section, Stamps;
    SetIsPut(config, "test", "results_csv", Text(s.csv));
    PutSections(config, "test", "results_csv", Text(s.csv));
    var a := Put(config, "test", "results_csv", Text(s.csv));
    SetIsPut(a, "runtime", "result_csv", Text(s.csv));
    PutSections(a, "runtime", "result_csv", Text(s.csv));
    var b := Put(a, "runtime", "result_csv", Text(s.csv));
    SetIsPut(b, "paper", "result_csv", Text(s.csv));
    PutSections(b, "paper", "result_csv", Text(s.csv));
    var c := Put(b, "paper", "result_csv", Text(s.csv));
    SetIsPut(c, "runtime", "output_dir", Text(s.dir));
    PutSections(c, "runtime", "output_dir", Text(s.dir));
    var d := Put(c, "runtime", "output_dir", Text(s.dir));
    SetIsPut(d, "runtime", "result_path_contract", s.contract);
    PutSections(d, "runtime", "result_path_contract", s.contract);
    StampsAdd(Section(config, "test").fields, s);
    StampsAdd(Section(config, "runtime").fields, s);
    StampsAdd(Section(config, "paper").fields, s);
  }

  lemma StampsAdd(fields: map<string, Value>, s: Stamp)
    ensures fields["results_csv" := Text(s.csv)] == fields + Stamps("test", s)
    ensures fields["result_csv" := Text(s.csv)] == fields + Stamps("paper", s)
    ensures fields["result_csv" := Text(s.csv)]["output_dir" := Text(s.dir)]["result_path_contract" := s.contract] ==
            fields + Stamps("runtime", s)
  {
  }

  // ---- binding a bound configuration again ----

  function StampedKeys(name: string): set<string> {
    if name == "test" then {"results_csv"}
    else if name == "paper" then {"result_csv"}
    else if name == "runtime" then {"result_csv", "output_dir", "result_path_contract"}
    else {}
  }

  /** One section without the values that get stamped. */
  function UnstampedSection(v: Value, name: string): Value {
    if v.Dict? then Dict(v.fields - StampedKeys(name)) else v
  }

  /** A configuration without them. */
  function Unstamped(config: Value): Value {
    if config.Dict? then Dict(map key | key in config.fields :: UnstampedSection(config.fields[key], key)) else config
  }

  lemma {:induction false} PlainLetters(key: string)
    requires forall i :: 0 <= i < |key| ==> 'a' <= key[i] <= 'z'
    ensures Plain(key) == key
  {
    if key != "" {
      PlainLetters(key[1..]);
      assert key == [key[0]] + key[1..];
    }
  }

  predicate IsSection(name: string) {
    name == "test" || name == "runtime" || name == "paper"
  }

  lemma SectionNamesArePlain(name: string)
    requires IsSection(name)
    ensures !IsDirKey(name) && !IsCsvKey(name)
  {
    PlainLetters(name);
    hide Plain;
    assert name[0] == 't' || name[0] == 'p' || (name[0] == 'r' && name[1] == 'u');
    NoPathKeyStartsSo();
  }

  lemma NoPathKeyStartsSo()
    ensures forall key :: key in PLAIN_OUTPUT_KEYS ==>
            key[0] != 't' && key[0] != 'p' && (key[0] == 'r' ==> key[1] != 'u')
    ensures forall key :: key in PLAIN_RESULT_KEYS ==>
            key[0] != 't' && key[0] != 'p' && (key[0] == 'r' ==> key[1] != 'u')
  {
  }

  function RewriteAll(fields: map<string, Value>, b: Binding): map<string, Value> {
    map k | k in fields :: Rewrite(fields[k], b, k)
  }

  lemma RewriteFields(fields: map<string, Value>, b: Binding, name: string)
    requires !IsDirKey(name) && !IsCsvKey(name)
    ensures Rewrite(Dict(fields), b, name) == Dict(RewriteAll(fields, b))
  {
  }

  /** Rewriting and stamping the fields of a section a second time. */
  lemma FieldsTwice(fields: map<string, Value>, stamps: map<string, Value>, b: Binding, again: Binding)
    requires IsRebinding(b, again)
    ensures var once := RewriteAll(fields, b) + stamps;
            RewriteAll(once, again) + stamps == once <==>
              forall k :: k in fields && k !in stamps ==> !Drifts(fields[k], b, k)
  {
    hide IsRebinding, Rewrite, Drifts;
    var once := RewriteAll(fields, b) + stamps;
    var twice := RewriteAll(once, again) + stamps;
    assert twice.Keys == once.Keys;
    forall k | k in fields && k !in stamps
      ensures twice[k] == once[k] <==> !Drifts(fields[k], b, k)
    {
      assert once[k] == Rewrite(fields[k], b, k);
      assert twice[k] == Rewrite(once[k], again, k);
      RewriteTwice(fields[k], b, again, k);
    }
    if twice != once {
      var k :| k in once && twice[k] != once[k];
      assert k in fields && k !in stamps;
    }
  }

  lemma UnstampedDrifts(section: Value, b: Binding, name: string, s: Stamp)
    requires !IsDirKey(name) && !IsCsvKey(name) && section.Dict?
    ensures Drifts(UnstampedSection(section, name), b, name) <==>
            exists k :: k in section.fields && k !in Stamps(name, s) && Drifts(section.fields[k], b, k)
  {
    var left := UnstampedSection(section, name).fields;
    StampKeys(name, s);
    FieldsDrift(left, b, name);
    hide IsDirKey, IsCsvKey, Stamps, StampedKeys, Drifts;
    assert forall k :: k in left <==> k in section.fields && k !in Stamps(name, s);
    assert forall k :: k in left ==> left[k] == section.fields[k];
  }

  lemma StampKeys(name: string, s: Stamp)
    ensures Stamps(name, s).Keys == StampedKeys(name)
  {
  }

  lemma FieldsDrift(fields: map<string, Value>, b: Binding, name: string)
    requires !IsDirKey(name) && !IsCsvKey(name)
    ensures Drifts(Dict(fields), b, name) <==> exists k :: k in fields && Drifts(fields[k], b, k)
  {
  }

  /** Rewriting and stamping a section a second time. */
  lemma SectionTwice(section: Value, b: Binding, again: Binding, name: string, s: Stamp)
    requires IsRebinding(b, again) && !IsDirKey(name) && !IsCsvKey(name) && section.Dict?
    ensures Rewrite(section, b, name).Dict?
    ensures var once := Dict(Rewrite(section, b, name).fields + Stamps(name, s));
            && Rewrite(once, again, name).Dict?
            && (Dict(Rewrite(once, again, name).fields + Stamps(name, s)) == once <==>
                !Drifts(UnstampedSection(section, name), b, name))
  {
    hide IsRebinding, IsDirKey, IsCsvKey, Rewrite, Drifts, Stamps, UnstampedSection, RewriteAll;
    RewriteFields(section.fields, b, name);
    RewriteFields(RewriteAll(section.fields, b) + Stamps(name, s), again, name);
    FieldsTwice(section.fields, Stamps(name, s), b, again);
    UnstampedDrifts(section, b, name, s);
  }

  lemma RewriteKeepsSections(config: Value, b: Binding)
    requires config.Dict?
    ensures Rewrite(config, b, "") == Dict(RewriteAll(config.fields, b))
    ensures HasSections(Rewrite(config, b, "")) <==> HasSections(config)
  {
    assert Plain("") == "";
    RewriteFields(config.fields, b, "");
    forall name | IsSection(name)
      ensures Section(Rewrite(config, b, ""), name).Dict? <==> Section(config, name).Dict?
    {
      SectionNamesArePlain(name);
      hide IsDirKey, IsCsvKey;
    }
    hide Rewrite, Section;
    assert IsSection("test") && IsSection("runtime") && IsSection("paper");
  }

  /** The configuration of a bound job, when the three sections allow it. */
  function BoundConfig(config: Value, b: Binding, s: Stamp): Option<Value> {
    Stamped(Rewrite(config, b, ""), s)
  }

  /** What a bound configuration holds under each of its keys. */
  lemma BoundFields(config: Value, b: Binding, s: Stamp)
    requires HasSections(config)
    ensures HasSections(Rewrite(config, b, "")) && IsStamped(Rewrite(config, b, ""), s, BoundConfig(config, b, s).value)
  {
    RewriteKeepsSections(config, b);
    StampedIs(Rewrite(config, b, ""), s);
  }

  lemma SectionRewrites(config: Value, b: Binding, name: string)
    requires HasSections(config) && IsSection(name)
    ensures var rewritten := Rewrite(Section(config, name), b, name);
            rewritten.Dict? && Section(Rewrite(config, b, ""), name) == rewritten
  {
    RewriteKeepsSections(config, b);
    SectionNamesArePlain(name);
    var fields := Section(config, name).fields;
    RewriteFields(fields, b, name);
    hide Rewrite, IsDirKey, IsCsvKey;
    if name !in config.fields {
      assert RewriteAll(fields, b) == map[];
    }
  }

  lemma BoundSections(config: Value, b: Binding, s: Stamp, name: string)
    requires HasSections(config) && IsSection(name)
    ensures BoundConfig(config, b, s).Some? && BoundConfig(config, b, s).value.Dict?
    ensures Rewrite(Section(config, name), b, name).Dict?
    ensures Section(BoundConfig(config, b, s).value, name) ==
            Dict(Rewrite(Section(config, name), b, name).fields + Stamps(name, s))
  {
    hide Stamps, Rewrite, Section, Stamped;
    BoundFields(config, b, s);
    StampedIs(Rewrite(config, b, ""), s);
    SectionRewrites(config, b, name);
  }

  /** The value a configuration has for a key of a section is this one. */
  predicate FieldIs(config: Value, section: string, key: string, value: Value) {
    Section(config, section).Dict? && key in Section(config, section).fields &&
      Section(config, section).fields[key] == value
  }

  /** Every stamped value is in its place. */
  lemma BoundHoldsStamp(config: Value, b: Binding, s: Stamp, section: string, key: string, value: Value)
    requires HasSections(config) && IsSection(section) && Stamping(section, s, key, value)
    ensures BoundConfig(config, b, s).Some? && FieldIs(BoundConfig(config, b, s).value, section, key, value)
  {
    hide Rewrite, BoundConfig, Stamps, Section;
    BoundSections(config, b, s, section);
  }

  predicate Stamping(section: string, s: Stamp, key: string, value: Value) {
    key in Stamps(section, s) && Stamps(section, s)[key] == value
  }

  lemma StampsHave(s: Stamp)
    ensures Stamping("runtime", s, "result_path_contract", s.contract)
    ensures Stamping("runtime", s, "output_dir", Text(s.dir))
    ensures Stamping("runtime", s, "result_csv", Text(s.csv))
    ensures Stamping("test", s, "results_csv", Text(s.csv))
    ensures Stamping("paper", s, "result_csv", Text(s.csv))
  {
  }

  lemma BoundIsOnce(config: Value, b: Binding, s: Stamp)
    requires HasSections(config)
    ensures BoundConfig(config, b, s).Some? && HasSections(BoundConfig(config, b, s).value)
    ensures BoundConfig(config, b, s).value.fields.Keys == config.fields.Keys + {"test", "runtime", "paper"}
  {
    BoundFields(config, b, s);
    RewriteKeepsSections(config, b);
    hide Stamps, Rewrite, Section;
    StampedIs(Rewrite(config, b, ""), s);
  }

  lemma PlainFieldBound(config: Value, b: Binding, s: Stamp, key: string)
    requires HasSections(config) && !IsSection(key) && BoundConfig(config, b, s).Some?
    ensures Section(BoundConfig(config, b, s).value, key) ==
            if key in config.fields then Rewrite(config.fields[key], b, key) else EMPTY
  {
    RewriteKeepsSections(config, b);
    BoundFields(config, b, s);
    hide Stamps, Rewrite, BoundConfig;
  }

  lemma FieldTwice(config: Value, b: Binding, again: Binding, s: Stamp, key: string)
    requires HasSections(config) && IsRebinding(b, again) && BoundConfig(config, b, s).Some?
    requires HasSections(BoundConfig(config, b, s).value) &&
             BoundConfig(BoundConfig(config, b, s).value, again, s).Some?
    ensures var once := BoundConfig(config, b, s).value;
            Section(BoundConfig(once, again, s).value, key) == Section(once, key)
            <==> !Drifts(UnstampedSection(Section(config, key), key), b, key)
  {
    hide *;
    if IsSection(key) {
      SectionFieldTwice(config, b, again, s, key);
    } else {
      PlainFieldTwice(config, b, again, s, key);
    }
  }

  lemma SectionFieldTwice(config: Value, b: Binding, again: Binding, s: Stamp, key: string)
    requires HasSections(config) && IsRebinding(b, again) && BoundConfig(config, b, s).Some?
    requires HasSections(BoundConfig(config, b, s).value) &&
             BoundConfig(BoundConfig(config, b, s).value, again, s).Some?
    requires IsSection(key)
    ensures var once := BoundConfig(config, b, s).value;
            Section(BoundConfig(once, again, s).value, key) == Section(once, key)
            <==> !Drifts(UnstampedSection(Section(config, key), key), b, key)
  {
    hide IsRebinding, Rewrite, Stamps, Drifts, BoundConfig, IsDirKey, IsCsvKey, UnstampedSection;
    BoundSections(config, b, s, key);
    BoundSections(BoundConfig(config, b, s).value, again, s, key);
    SectionNamesArePlain(key);
    SectionTwice(Section(config, key), b, again, key, s);
  }

  lemma PlainFieldTwice(config: Value, b: Binding, again: Binding, s: Stamp, key: string)
    requires HasSections(config) && IsRebinding(b, again) && BoundConfig(config, b, s).Some?
    requires HasSections(BoundConfig(config, b, s).value) &&
             BoundConfig(BoundConfig(config, b, s).value, again, s).Some?
    requires !IsSection(key)
    ensures var once := BoundConfig(config, b, s).value;
            Section(BoundConfig(once, again, s).value, key) == Section(once, key)
            <==> !Drifts(UnstampedSection(Section(config, key), key), b, key)
  {
    hide IsRebinding, Rewrite, Stamps, Drifts, BoundConfig, UnstampedSection;
    var before, once := Section(config, key), BoundConfig(config, b, s).value;
    PlainUnstamped(before, key);
    PlainFieldBound(config, b, s, key);
    BoundIsOnce(config, b, s);
    PlainFieldBound(once, again, s, key);
    RewriteTwice(before, b, again, key);
    EmptyNeverDrifts(b, key);
  }

  lemma EmptyNeverDrifts(b: Binding, key: string)
    ensures !Drifts(EMPTY, b, key)
  {
  }

  lemma PlainUnstamped(v: Value, key: string)
    requires !IsSection(key)
    ensures UnstampedSection(v, key) == v
  {
    if v.Dict? { assert v.fields - {} == v.fields; }
  }

  lemma UnstampedDriftsSomewhere(config: Value, b: Binding)
    requires config.Dict?
    ensures Drifts(Unstamped(config), b, "") <==>
            exists key :: Drifts(UnstampedSection(Section(config, key), key), b, key)
  {
    PlainLetters("");
    var fields := Unstamped(config).fields;
    assert Drifts(Dict(fields), b, "") <==> exists key :: key in fields && Drifts(fields[key], b, key);
    hide UnstampedSection, Drifts, IsDirKey, IsCsvKey;
    forall key
      ensures Drifts(UnstampedSection(Section(config, key), key), b, key) <==>
              key in fields && Drifts(fields[key], b, key)
    {
      if key !in config.fields { EmptyUnstamped(key, b); }
    }
  }

  lemma EmptyUnstamped(key: string, b: Binding)
    ensures !Drifts(UnstampedSection(EMPTY, key), b, key)
  {
  }

  lemma SameSections(once: Value, twice: Value)
    requires once.Dict? && twice.Dict? && once.fields.Keys == twice.fields.Keys
    ensures once == twice <==> forall key :: Section(twice, key) == Section(once, key)
  {
    if forall key :: Section(twice, key) == Section(once, key) {
      forall key | key in once.fields ensures once.fields[key] == twice.fields[key] {
        assert Section(twice, key) == Section(once, key);
      }
      assert once.fields == twice.fields;
    }
  }

  /** Binding a bound configuration again changes nothing exactly when no text outside the stamp drifts. */
  lemma BoundConfigTwice(config: Value, b: Binding, again: Binding, s: Stamp)
    requires HasSections(config) && IsRebinding(b, again)
    ensures BoundConfig(config, b, s).Some?
    ensures BoundConfig(BoundConfig(config, b, s).value, again, s) == BoundConfig(config, b, s) <==>
            !Drifts(Unstamped(config), b, "")
  {
    hide IsRebinding, Rewrite, Stamps, Drifts, UnstampedSection, BoundConfig, Section;
    BoundIsOnce(config, b, s);
    var once := BoundConfig(config, b, s).value;
    BoundIsOnce(once, again, s);
    var twice := BoundConfig(once, again, s).value;
    forall key
      ensures Section(twice, key) == Section(once, key) <==>
              !Drifts(UnstampedSection(Section(config, key), key), b, key)
    {
      FieldTwice(config, b, again, s, key);
    }
    UnstampedDriftsSomewhere(config, b);
    assert twice.fields.Keys == once.fields.Keys;
    SameSections(once, twice);
  }
}
