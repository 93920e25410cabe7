/**
 Binding a job to its formal result paths, and the check that a list of bound jobs must pass before it runs.
 */
module JobBinding {

  import opened ConfigMerge
  import opened ProjectPath
  import opened JobConfig

  datatype Alias = Alias(key: string, path: string)

  datatype Job = Job(
    index: nat,
    caseName: string,
    seed: int,
    config: Config,
    outputDir: string,
    resultCsv: string,
    workingDirectory: string,
    aliases: seq<Alias>,
    templates: map<string, Value>,
    outputs: seq<string>
  )

  /** The file system, and how a value that is no text prints. */
  datatype Env = Env(disk: Disk, print_: Value -> string)

  datatype Error =
    | PolicyRetired
    | BadPath(path: string, reason: Reason)
    | DeclarationChanged
    | SectionNotAMapping

  datatype Bound = Bound(job: Job) | Refused(error: Error)

  /** The text of a field, or `otherwise` when it is missing or counts as false. */
  function Field(env: Env, fields: map<string, Value>, key: string, otherwise: string): string {
    if key !in fields || !Truthy(fields[key]) then otherwise
    else if fields[key].Text? then fields[key].text
    else env.print_(fields[key])
  }

  // ---- binding ----

  function Declared(env: Env, job: Job): Result {
    SafePath(env.disk, Field(env, job.templates, "declared_result_csv", job.resultCsv), false)
  }

  function FormalDir(env: Env, job: Job): string {
    Source(Field(env, job.templates, "declared_output_dir", job.outputDir))
  }

  function OutputOf(env: Env, job: Job, outputOverride: string): Result {
    SafePath(env.disk, if outputOverride != "" then outputOverride else job.outputDir, false)
  }

  /** A path as the command of a job is given it: absolute when the command runs somewhere else. */
  function CommandPath(env: Env, job: Job, path: string): string {
    if path == "" || job.workingDirectory == "" || job.workingDirectory == "." then path else env.disk.resolve(path)
  }

  function Contract(env: Env, job: Job, declared: string, execution: string, formalDir: string, output: string): Value {
    Dict(map[
      "schemaVersion" := Number(1.0),
      "policy" := Text("declared"),
      "declared_result_csv" := Text(declared),
      "execution_result_csv" := Text(execution),
      "collection_result_csv" := Text(execution),
      "declared_output_dir" := Text(formalDir),
      "execution_output_dir" := Text(output),
      "index" := Number(job.index as real),
      "case" := Text(job.caseName),
      "seed" := Number(job.seed as real),
      "plan_file" := Text(Field(env, job.templates, "plan_file", "")),
      "plan_revision" := Text(Field(env, job.templates, "plan_revision", ""))])
  }

  function Paths(aliases: seq<Alias>): (r: seq<string>)
    ensures |r| == |aliases|
  {
    seq(|aliases|, i requires 0 <= i < |aliases| => aliases[i].path)
  }

  predicate HasAlias(aliases: seq<Alias>, key: string) {
    exists i :: 0 <= i < |aliases| && aliases[i].key == key
  }

  function WithAlias(aliases: seq<Alias>, key: string, path: string): seq<Alias> {
    if HasAlias(aliases, key) then aliases else aliases + [Alias(key, path)]
  }

  /** Every alias names the result file, and the two standard ones are there. */
  function BoundAliases(aliases: seq<Alias>, csv: string): seq<Alias> {
    var renamed := seq(|aliases|, i requires 0 <= i < |aliases| => Alias(aliases[i].key, csv));
    WithAlias(WithAlias(renamed, "result_csv", csv), "resultCsv", csv)
  }

  /** The template values that binding writes. */
  function Written(dir: string, csv: string, contract: Value): map<string, Value> {
    (map key | key in OUTPUT_DIR_KEYS :: Text(dir))
    + (map key | key in RESULT_KEYS :: Text(csv))
    + map["result_path_contract" := contract]
  }

  function BoundTemplates(templates: map<string, Value>, dir: string, csv: string,
                          contract: Value): map<string, Value> {
    templates + Written(dir, csv, contract)
  }

  function Drop(s: string, n: nat): string {
    if n <= |s| then s[n..] else ""
  }

  predicate StartsWith(s: string, prefix: string) {
    |prefix| <= |s| && s[..|prefix|] == prefix
  }

  function BoundOutput(item: string, job: Job, output: string, csv: string): string {
    if item == job.resultCsv then csv
    else if StartsWith(item, WithoutEndSlashes(job.outputDir) + "/") then output + Drop(item, |job.outputDir|)
    else item
  }

  function BoundOutputs(job: Job, output: string, csv: string): seq<string> {
    seq(|job.outputs|, i requires 0 <= i < |job.outputs| => BoundOutput(job.outputs[i], job, output, csv))
  }

  function BindingOf(env: Env, job: Job, output: string, execution: string): Binding {
    Binding(output, execution, FormalDir(env, job), Paths(job.aliases))
  }

  function StampOf(env: Env, job: Job, declared: string, execution: string, output: string): Stamp {
    Stamp(CommandPath(env, job, execution), CommandPath(env, job, output),
          Contract(env, job, declared, execution, FormalDir(env, job), output))
  }

  /** A job with its paths in place everywhere, once they are known to be good. */
  function Fill(env: Env, job: Job, declared: string, execution: string, output: string): Bound {
    var stamp := StampOf(env, job, declared, execution, output);
    var config := BoundConfig(job.config, BindingOf(env, job, output, execution), stamp);
    if config.None? || !config.value.Dict? then Refused(SectionNotAMapping)
    else
      Bound(job.(
        outputDir := output,
        resultCsv := execution,
        aliases := BoundAliases(job.aliases, execution),
        config := config.value,
        templates := BoundTemplates(job.templates, output, execution, stamp.contract),
        outputs := BoundOutputs(job, output, execution)))
  }

  /** Bind a job: commands, configuration and collection all get the declared paths, or the job is refused. */
  function Bind(env: Env, job: Job, outputOverride: string): Bound {
    if Field(env, job.templates, "result_path_policy", "declared") != "declared" then Refused(PolicyRetired)
    else
      var declared, output := Declared(env, job), OutputOf(env, job, outputOverride);
      if declared.Unsafe? then Refused(BadPath("paper.result_csv", declared.reason))
      else if output.Unsafe? then Refused(BadPath("runtime.output_dir", output.reason))
      else if output.path != FormalDir(env, job) || "attempts" in Split(output.path) ||
        "attempts" in Split(declared.path) then
        Refused(DeclarationChanged)
      else
        var execution := SafePath(env.disk, declared.path, false);
        if execution.Unsafe? then Refused(BadPath("execution.result_csv", execution.reason))
        else Fill(env, job, declared.path, execution.path, output.path)
  }

  // ---- the check before a run ----

  /** The verdict on one job: an unsafe path or a section of the wrong kind stops the whole check. */
  datatype Verdict = Passes | Fails | Stops

  predicate IsOne(v: Value) {
    v == Number(1.0) || v == Bool(true)
  }

  predicate Holds(contract: Value, key: string, text: string) {
    contract.Dict? && key in contract.fields && contract.fields[key] == Text(text)
  }

  predicate HoldsAll(contract: Value, output: string, result: string) {
    && Holds(contract, "declared_output_dir", output) && Holds(contract, "execution_output_dir", output)
    && Holds(contract, "declared_result_csv", result) && Holds(contract, "execution_result_csv", result)
    && Holds(contract, "collection_result_csv", result)
  }

  /** Where a path in the configuration of a job leads. */
  function Place(env: Env, workingDirectory: string, path: string): string {
    env.disk.resolve(if IsAbsolute(path) then path
                     else if workingDirectory == "" || workingDirectory == "." then path
                     else workingDirectory + "/" + path)
  }

  predicate Leads(env: Env, job: Job, section: string, key: string, target: string) {
    && Section(job.config, section).Dict?
    && Place(env, job.workingDirectory, Field(env, Section(job.config, section).fields, key, "")) ==
      env.disk.resolve(target)
  }

  predicate LeadsAll(env: Env, job: Job, output: string, result: string) {
    && Leads(env, job, "runtime", "output_dir", output) && Leads(env, job, "runtime", "result_csv", result)
    && Leads(env, job, "test", "results_csv", result) && Leads(env, job, "paper", "result_csv", result)
  }

  function ContractOf(job: Job): Value {
    var runtime := Section(job.config, "runtime");
    if runtime.Dict? && "result_path_contract" in runtime.fields then runtime.fields["result_path_contract"] else EMPTY
  }

  predicate IsCurrent(contract: Value) {
    && contract.Dict? && "schemaVersion" in contract.fields && IsOne(contract.fields["schemaVersion"])
    && Holds(contract, "policy", "declared")
  }

  function RowCheck(env: Env, job: Job): Verdict {
    var contract := ContractOf(job);
    if !Section(job.config, "runtime").Dict? || !contract.Dict? then Stops
    else if !IsCurrent(contract) then Fails
    else
      var output, result := SafePath(env.disk, job.outputDir, false), SafePath(env.disk, job.resultCsv, false);
      if output.Unsafe? || result.Unsafe? then Stops
      else if HoldsAll(contract, output.path, result.path) && LeadsAll(env, job, output.path, result.path) then Passes
      else Fails
  }

  // ---- a bound job and its check ----

  lemma BindParts(env: Env, job: Job, outputOverride: string)
    ensures Bind(env, job, outputOverride).Bound? ==>
      && Declared(env, job).Safe? && OutputOf(env, job, outputOverride).Safe? && HasSections(job.config)
      && OutputOf(env, job, outputOverride).path == FormalDir(env, job)
      && var declared := Declared(env, job).path;
         var execution := SafePath(env.disk, declared, false);
         execution.Safe? && Bind(env, job, outputOverride) ==
           Fill(env, job, declared, execution.path, OutputOf(env, job, outputOverride).path)
  {
    hide Fill, FormalDir, SafePath, Field, HasSections, Split;
    if Declared(env, job).Safe? && OutputOf(env, job, outputOverride).Safe? {
      var declared, output := Declared(env, job).path, OutputOf(env, job, outputOverride).path;
      var execution := SafePath(env.disk, declared, false);
      if execution.Safe? { FillSucceeds(env, job, declared, execution.path, output); }
    }
  }

  /** Filling in fails exactly when a section of the configuration is no mapping. */
  lemma FillSucceeds(env: Env, job: Job, declared: string, execution: string, output: string)
    ensures Fill(env, job, declared, execution, output).Bound? <==> HasSections(job.config)
  {
    var stamp, b := StampOf(env, job, declared, execution, output), BindingOf(env, job, output, execution);
    hide Stamped, BindingOf, StampOf, BoundAliases, BoundTemplates, BoundOutputs, Rewrite;
    RewriteKeepsSections(job.config, b);
    StampedIs(Rewrite(job.config, b, ""), stamp);
    if HasSections(job.config) { BoundIsOnce(job.config, b, stamp); }
  }

  /** A job filled in: its sections, and the stamp in them. */
  lemma FillConfig(env: Env, job: Job, declared: string, execution: string, output: string)
    requires HasSections(job.config)
    ensures Fill(env, job, declared, execution, output).Bound?
    ensures var bound := Fill(env, job, declared, execution, output).job;
            var stamp := StampOf(env, job, declared, execution, output);
            && HasSections(job.config) && HasSections(bound.config)
            && BoundConfig(job.config, BindingOf(env, job, output, execution), stamp).Some?
            && BoundConfig(job.config, BindingOf(env, job, output, execution), stamp).value == bound.config
  {
    FillSucceeds(env, job, declared, execution, output);
    var stamp, b := StampOf(env, job, declared, execution, output), BindingOf(env, job, output, execution);
    hide Stamped, BindingOf, StampOf, BoundAliases, BoundTemplates, BoundOutputs, Rewrite;
    RewriteKeepsSections(job.config, b);
    StampedIs(Rewrite(job.config, b, ""), stamp);
    BoundIsOnce(job.config, b, stamp);
  }

  /** What the check reads from a filled-in job. */
  lemma FillParts(env: Env, job: Job, declared: string, execution: string, output: string)
    requires HasSections(job.config)
    ensures Fill(env, job, declared, execution, output).Bound?
    ensures var bound := Fill(env, job, declared, execution, output).job;
            var stamp := StampOf(env, job, declared, execution, output);
            && FieldIs(bound.config, "runtime", "result_path_contract", stamp.contract)
            && FieldIs(bound.config, "runtime", "output_dir", Text(stamp.dir))
            && FieldIs(bound.config, "runtime", "result_csv", Text(stamp.csv))
            && FieldIs(bound.config, "test", "results_csv", Text(stamp.csv))
            && FieldIs(bound.config, "paper", "result_csv", Text(stamp.csv))
  {
    FillSucceeds(env, job, declared, execution, output);
    FillConfig(env, job, declared, execution, output);
    var stamp, b := StampOf(env, job, declared, execution, output), BindingOf(env, job, output, execution);
    hide Fill, BoundConfig, BindingOf, StampOf, HasSections, FieldIs, Stamping;
    StampsHave(stamp);
    BoundHoldsStamp(job.config, b, stamp, "runtime", "result_path_contract", stamp.contract);
    BoundHoldsStamp(job.config, b, stamp, "runtime", "output_dir", Text(stamp.dir));
    BoundHoldsStamp(job.config, b, stamp, "runtime", "result_csv", Text(stamp.csv));
    BoundHoldsStamp(job.config, b, stamp, "test", "results_csv", Text(stamp.csv));
    BoundHoldsStamp(job.config, b, stamp, "paper", "result_csv", Text(stamp.csv));
  }

  /** A path bound the way a command sees it leads where the path itself does. */
  lemma CommandPathLeads(env: Env, job: Job, path: string)
    requires Real(env.disk) && Reduced(path)
    ensures Place(env, job.workingDirectory, CommandPath(env, job, path)) == env.disk.resolve(path)
    ensures CommandPath(env, job, path) != ""
  {
    ReducedIsClean(path);
    assert IsAbsolute(env.disk.resolve(path));
  }

  lemma ContractHolds(env: Env, job: Job, declared: string, execution: string, formalDir: string, output: string,
                      o: string, r: string)
    ensures var contract := Contract(env, job, declared, execution, formalDir, output);
            HoldsAll(contract, o, r) <==> formalDir == o && output == o && declared == r && execution == r
  {
    hide Field;
  }

  lemma ContractIsCurrent(env: Env, job: Job, declared: string, execution: string, formalDir: string, output: string)
    ensures var contract := Contract(env, job, declared, execution, formalDir, output);
            IsCurrent(contract) && Holds(contract, "declared_result_csv", declared)
  {
    hide Field;
  }

  lemma LeadsThere(env: Env, job: Job, section: string, key: string, text: string, target: string)
    requires FieldIs(job.config, section, key, Text(text)) && text != ""
    requires Place(env, job.workingDirectory, text) == env.disk.resolve(target)
    ensures Leads(env, job, section, key, target)
  {
    hide Place;
  }

  lemma FilledLeads(env: Env, job: Job, declared: string, execution: string, output: string)
    requires Real(env.disk) && Reduced(execution) && Reduced(output)
    requires HasSections(job.config)
    ensures Fill(env, job, declared, execution, output).Bound?
    ensures LeadsAll(env, Fill(env, job, declared, execution, output).job, output, execution)
  {
    FillSucceeds(env, job, declared, execution, output);
    FillParts(env, job, declared, execution, output);
    CommandPathLeads(env, job, execution);
    CommandPathLeads(env, job, output);
    FilledShape(env, job, declared, execution, output);
    var bound := Fill(env, job, declared, execution, output).job;
    var csv, dir := CommandPath(env, job, execution), CommandPath(env, job, output);
    hide Fill, FieldIs, Place, CommandPath, Contract, Real, Reduced, Leads;
    LeadsThere(env, bound, "runtime", "output_dir", dir, output);
    LeadsThere(env, bound, "runtime", "result_csv", csv, execution);
    LeadsThere(env, bound, "test", "results_csv", csv, execution);
    LeadsThere(env, bound, "paper", "result_csv", csv, execution);
  }

  /**
   A bound job passes its own check exactly when trimming and the drive check leave both its paths alone.
   The check trims the bound paths again, so "./ a.csv", bound as " a.csv", is turned away.
   */
  lemma BoundPassesIffSettled(env: Env, job: Job, outputOverride: string)
    requires Real(env.disk)
    ensures var bound := Bind(env, job, outputOverride);
            bound.Bound? ==>
              && Declared(env, job).Safe? && OutputOf(env, job, outputOverride).Safe?
              && (RowCheck(env, bound.job).Passes? <==>
                  Settled(Declared(env, job).path) && Settled(OutputOf(env, job, outputOverride).path))
  {
    hide Bind, SafePath, RowCheck, Fill, Field, FormalDir, Settled, HasSections, Reduced, Real;
    BindParts(env, job, outputOverride);
    if Bind(env, job, outputOverride).Bound? {
      var declared, output := Declared(env, job).path, OutputOf(env, job, outputOverride).path;
      var execution := SafePath(env.disk, declared, false).path;
      SafeTwice(env.disk, Field(env, job.templates, "declared_result_csv", job.resultCsv));
      SafeTwice(env.disk, if outputOverride != "" then outputOverride else job.outputDir);
      SafeIsReduced(env.disk, declared);
      SafeIsReduced(env.disk, if outputOverride != "" then outputOverride else job.outputDir);
      FilledPasses(env, job, declared, execution, output);
    }
  }

  lemma CurrentRowCheck(env: Env, job: Job)
    requires Section(job.config, "runtime").Dict? && IsCurrent(ContractOf(job))
    ensures var output, result := SafePath(env.disk, job.outputDir, false), SafePath(env.disk, job.resultCsv, false);
            RowCheck(env, job).Passes? <==>
            output.Safe? && result.Safe? && HoldsAll(ContractOf(job), output.path, result.path) &&
              LeadsAll(env, job, output.path, result.path)
  {
    hide HoldsAll, LeadsAll, SafePath;
  }

  lemma FilledPasses(env: Env, job: Job, declared: string, execution: string, output: string)
    requires Real(env.disk) && Reduced(execution) && Reduced(output) && output == FormalDir(env, job)
    requires HasSections(job.config)
    ensures Fill(env, job, declared, execution, output).Bound?
    ensures RowCheck(env, Fill(env, job, declared, execution, output).job).Passes?
            <==>
              && declared == execution && SafePath(env.disk, execution, false) == Safe(execution)
              && SafePath(env.disk, output, false) == Safe(output)
  {
    FillSucceeds(env, job, declared, execution, output);
    var bound := Fill(env, job, declared, execution, output).job;
    FilledLeads(env, job, declared, execution, output);
    FilledShape(env, job, declared, execution, output);
    var o, r := SafePath(env.disk, output, false), SafePath(env.disk, execution, false);
    ContractIsCurrent(env, job, declared, execution, FormalDir(env, job), output);
    ContractHolds(env, job, declared, execution, FormalDir(env, job), output,
                  if o.Safe? then o.path else output, if r.Safe? then r.path else execution);
    hide Fill, SafePath, Field, FormalDir, Section, LeadsAll, HoldsAll, IsCurrent, Contract, Real, Reduced,
      RowCheck, ContractOf;
    CurrentRowCheck(env, bound);
  }

  lemma FilledShape(env: Env, job: Job, declared: string, execution: string, output: string)
    requires HasSections(job.config)
    ensures Fill(env, job, declared, execution, output).Bound?
    ensures var bound := Fill(env, job, declared, execution, output).job;
            && Section(bound.config, "runtime").Dict?
            && ContractOf(bound) == Contract(env, job, declared, execution, FormalDir(env, job), output)
            && bound.outputDir == output && bound.resultCsv == execution
            && bound.workingDirectory == job.workingDirectory
            && bound.index == job.index && bound.seed == job.seed && bound.caseName == job.caseName
  {
    FillSucceeds(env, job, declared, execution, output);
    FillParts(env, job, declared, execution, output);
    hide BoundConfig, Section, CommandPath, BoundAliases, BoundTemplates, BoundOutputs, Contract, BindingOf;
  }

  /** Binding keeps what tells the jobs apart. */
  lemma BindKeepsIdentity(env: Env, job: Job, outputOverride: string)
    ensures var bound := Bind(env, job, outputOverride);
            bound.Bound? ==>
              bound.job.index == job.index && bound.job.seed == job.seed && bound.job.caseName == job.caseName
  {
    hide Bind, Fill, ContractOf, Section, SafePath, Declared, OutputOf, FormalDir, HasSections;
    BindParts(env, job, outputOverride);
    if Bind(env, job, outputOverride).Bound? {
      var declared := Declared(env, job).path;
      FilledShape(env, job, declared, SafePath(env.disk, declared, false).path,
                  OutputOf(env, job, outputOverride).path);
    }
  }

  predicate EndsInR(key: string) {
    key != "" && key[|key| - 1] == 'r'
  }

  lemma DirKeysEndInR(key: string)
    requires key in OUTPUT_DIR_KEYS
    ensures EndsInR(key) && key != "result_path_contract"
  {
  }

  lemma ResultKeysEndOtherwise(key: string)
    requires key in RESULT_KEYS
    ensures !EndsInR(key) && key != "result_path_contract"
  {
  }

  /** Where each template value goes: directory keys, result keys, the contract, and nothing else. */
  lemma WrittenIs(dir: string, csv: string, contract: Value, key: string)
    ensures key in Written(dir, csv, contract) <==>
            key in OUTPUT_DIR_KEYS || key in RESULT_KEYS || key == "result_path_contract"
    ensures key in OUTPUT_DIR_KEYS ==> Written(dir, csv, contract)[key] == Text(dir)
    ensures key in RESULT_KEYS ==> Written(dir, csv, contract)[key] == Text(csv)
    ensures Written(dir, csv, contract)["result_path_contract"] == contract
  {
    if key in OUTPUT_DIR_KEYS { DirKeysEndInR(key); }
    if key in RESULT_KEYS { ResultKeysEndOtherwise(key); }
    hide EndsInR, OUTPUT_DIR_KEYS, RESULT_KEYS;
  }

  /** What binding a job wrote at one template key, and in the aliases. */
  ghost predicate WroteAll(job: Job, bound: Job, key: string) {
    && (key in OUTPUT_DIR_KEYS ==> TemplateIs(bound, key, Text(bound.outputDir)))
    && (key in RESULT_KEYS ==> TemplateIs(bound, key, Text(bound.resultCsv)))
    && TemplateIs(bound, "result_path_contract", ContractOf(bound))
    && (key !in OUTPUT_DIR_KEYS && key !in RESULT_KEYS && key != "result_path_contract" ==>
          (key in bound.templates <==> key in job.templates) &&
            (key in job.templates ==> bound.templates[key] == job.templates[key]))
    && forall i :: 0 <= i < |bound.aliases| ==> bound.aliases[i].path == bound.resultCsv
  }

  /**
   After a bind every directory template names the output directory, every result template and every
   alias the result file, and no other template changes.
   */
  lemma BindWrites(env: Env, job: Job, outputOverride: string, key: string)
    ensures Bind(env, job, outputOverride).Bound? ==> WroteAll(job, Bind(env, job, outputOverride).job, key)
  {
    hide *;
    BindParts(env, job, outputOverride);
    if Bind(env, job, outputOverride).Bound? {
      var declared, output := Declared(env, job).path, OutputOf(env, job, outputOverride).path;
      var execution := SafePath(env.disk, declared, false).path;
      FillWrites(env, job, declared, execution, output, key);
    }
  }

  predicate TemplateIs(job: Job, key: string, value: Value) {
    key in job.templates && job.templates[key] == value
  }

  lemma FillWrites(env: Env, job: Job, declared: string, execution: string, output: string, key: string)
    requires HasSections(job.config)
    ensures Fill(env, job, declared, execution, output).Bound?
    ensures WroteAll(job, Fill(env, job, declared, execution, output).job, key)
  {
    hide Written, BoundAliases, BoundConfig, BoundOutputs, BindingOf, ContractOf, Contract, FormalDir, Section,
      CommandPath, HasSections;
    hide OUTPUT_DIR_KEYS, RESULT_KEYS;
    FillSucceeds(env, job, declared, execution, output);
    var contract := StampOf(env, job, declared, execution, output).contract;
    WrittenIs(output, execution, contract, key);
    WrittenIs(output, execution, contract, "result_path_contract");
    FilledShape(env, job, declared, execution, output);
    AliasesTwice(job.aliases, execution);
  }

  // ---- binding twice ----

  /** The job says itself where its results were declared, as every built job does. */
  predicate DeclaresCsv(job: Job) {
    "declared_result_csv" in job.templates && Truthy(job.templates["declared_result_csv"])
  }

  lemma AliasesTwice(aliases: seq<Alias>, csv: string)
    ensures var once := BoundAliases(aliases, csv);
            && once != [] && (forall i :: 0 <= i < |once| ==> once[i].path == csv)
            && BoundAliases(once, csv) == once
  {
    var once := BoundAliases(aliases, csv);
    assert HasAlias(once, "result_csv") && HasAlias(once, "resultCsv") by {
      var renamed := seq(|aliases|, i requires 0 <= i < |aliases| => Alias(aliases[i].key, csv));
      var first := WithAlias(renamed, "result_csv", csv);
      AddedAlias(renamed, "result_csv", csv);
      AddedAlias(first, "resultCsv", csv);
    }
    assert seq(|once|, i requires 0 <= i < |once| => Alias(once[i].key, csv)) == once;
  }

  lemma AddedAlias(aliases: seq<Alias>, key: string, csv: string)
    ensures HasAlias(WithAlias(aliases, key, csv), key)
    ensures forall other :: HasAlias(aliases, other) ==> HasAlias(WithAlias(aliases, key, csv), other)
  {
    var r := WithAlias(aliases, key, csv);
    if !HasAlias(aliases, key) { assert r[|aliases|].key == key; }
    forall other | HasAlias(aliases, other) ensures HasAlias(r, other) {
      var i :| 0 <= i < |aliases| && aliases[i].key == other;
      assert r[i].key == other;
    }
  }

  lemma OutputsTwice(bound: Job)
    requires WithoutEndSlashes(bound.outputDir) == bound.outputDir
    ensures BoundOutputs(bound, bound.outputDir, bound.resultCsv) == bound.outputs
  {
    forall i | 0 <= i < |bound.outputs|
      ensures BoundOutput(bound.outputs[i], bound, bound.outputDir, bound.resultCsv) == bound.outputs[i]
    {
      var item := bound.outputs[i];
      if StartsWith(item, bound.outputDir + "/") {
        assert item[..|bound.outputDir|] == (bound.outputDir + "/")[..|bound.outputDir|] == bound.outputDir;
      }
    }
  }

  /** Fields that binding reads and does not write. */
  predicate IsRead(key: string) {
    key == "plan_file" || key == "plan_revision" || key == "declared_output_dir" || key == "declared_result_csv" ||
      key == "result_path_policy"
  }

  /** Short, and starting like no field that is only read. */
  predicate IsShort(key: string) {
    0 < |key| < 18 && key[0] != 'p' && key[0] != 'd'
  }

  lemma DirKeysAreShort(key: string)
    requires key in OUTPUT_DIR_KEYS
    ensures IsShort(key)
  {
  }

  lemma ResultKeysAreShort(key: string)
    requires key in RESULT_KEYS
    ensures IsShort(key)
  {
  }

  lemma ReadIsNotWritten(key: string, dir: string, csv: string, contract: Value)
    requires IsRead(key)
    ensures key !in Written(dir, csv, contract)
  {
    assert key != "result_path_contract" && !IsShort(key);
    if key in OUTPUT_DIR_KEYS { DirKeysAreShort(key); }
    if key in RESULT_KEYS { ResultKeysAreShort(key); }
    hide IsRead, IsShort, OUTPUT_DIR_KEYS, RESULT_KEYS;
  }

  lemma TemplatesKeep(env: Env, templates: map<string, Value>, dir: string, csv: string, contract: Value, key: string,
                      otherwise: string)
    requires IsRead(key)
    ensures Field(env, BoundTemplates(templates, dir, csv, contract), key, otherwise) ==
            Field(env, templates, key, otherwise)
  {
    ReadIsNotWritten(key, dir, csv, contract);
    hide Written, IsRead;
  }

  lemma TemplatesTwice(templates: map<string, Value>, dir: string, csv: string, contract: Value)
    ensures var once := BoundTemplates(templates, dir, csv, contract); BoundTemplates(once, dir, csv, contract) == once
  {
    hide Written;
    var once := BoundTemplates(templates, dir, csv, contract);
    assert BoundTemplates(once, dir, csv, contract).Keys == once.Keys;
  }

  predicate EndsInSlash(dir: string) {
    dir != "" && dir[|dir| - 1] == '/'
  }

  /** A declared output below the output directory is kept unless that directory was written with a slash at its end. */
  lemma OutputKept(job: Job, item: string, output: string, csv: string)
    requires output == Source(job.outputDir) && '\\' !in item && item != job.resultCsv
    ensures BoundOutput(item, job, output, csv) == item
            <==> !(StartsWith(item, WithoutEndSlashes(job.outputDir) + "/") && EndsInSlash(job.outputDir))
  {
    var dir, short := job.outputDir, WithoutEndSlashes(job.outputDir);
    EndSlashes(dir);
    if StartsWith(item, short + "/") {
      forall i | 0 <= i < |short| ensures dir[i] == item[i] {
        assert item[i] == (short + "/")[i] == dir[i];
      }
      assert '\\' !in dir;
      SlashedTwice(dir);
      assert output == short && short == item[..|short|] && item[|short|] == '/';
      assert |dir| <= |item| ==> |output + Drop(item, |dir|)| == |short| + |item| - |dir|;
    }
  }

  /**
   The outputs of a bound job, for a job whose output directory is its own formal one, as in every built
   job: the result file as bound, and any other output as declared, exactly unless it lies below an output
   directory written with a slash at its end.
   */
  lemma OutputsKeptIffNoEndSlash(env: Env, job: Job, outputOverride: string, i: nat)
    requires i < |job.outputs| && '\\' !in job.outputs[i]
    ensures var bound, item := Bind(env, job, outputOverride), job.outputs[i];
            bound.Bound? && FormalDir(env, job) == Source(job.outputDir) ==>
              && |bound.job.outputs| == |job.outputs|
              && if item == job.resultCsv then bound.job.outputs[i] == bound.job.resultCsv
                 else (bound.job.outputs[i] == item
                       <==> !(StartsWith(item, WithoutEndSlashes(job.outputDir) + "/") && EndsInSlash(job.outputDir)))
  {
    hide Bind, Fill, SafePath, Declared, OutputOf, FormalDir, HasSections, Source, WithoutEndSlashes, EndsInSlash,
      StartsWith, BoundOutput;
    BindParts(env, job, outputOverride);
    if Bind(env, job, outputOverride).Bound? && FormalDir(env, job) == Source(job.outputDir) {
      var declared, output := Declared(env, job).path, OutputOf(env, job, outputOverride).path;
      var execution := SafePath(env.disk, declared, false).path;
      FilledOutputs(env, job, declared, execution, output);
      if job.outputs[i] == job.resultCsv {
        ResultOutput(job, output, execution);
      } else {
        OutputKept(job, job.outputs[i], output, execution);
      }
    }
  }

  lemma ResultOutput(job: Job, output: string, csv: string)
    ensures BoundOutput(job.resultCsv, job, output, csv) == csv
  {
  }

  lemma FilledOutputs(env: Env, job: Job, declared: string, execution: string, output: string)
    requires HasSections(job.config)
    ensures Fill(env, job, declared, execution, output).Bound?
    ensures var bound := Fill(env, job, declared, execution, output).job;
            && bound.resultCsv == execution && |bound.outputs| == |job.outputs|
            && forall i :: 0 <= i < |job.outputs| ==>
              bound.outputs[i] == BoundOutput(job.outputs[i], job, output, execution)
  {
    hide BoundTemplates, BoundConfig, BoundAliases, BoundOutput, StampOf, BindingOf, HasSections;
    FillSucceeds(env, job, declared, execution, output);
  }

  lemma {:induction false} EndSlashes(s: string)
    ensures |WithoutEndSlashes(s)| <= |s| && WithoutEndSlashes(s) == s[..|WithoutEndSlashes(s)|]
    ensures forall i :: |WithoutEndSlashes(s)| <= i < |s| ==> s[i] == '/'
    ensures WithoutEndSlashes(s) == s <==> s == "" || s[|s| - 1] != '/'
  {
    if s != "" { EndSlashes(s[..|s| - 1]); }
  }

  /** The templates of a filled-in job. */
  lemma FilledTemplates(env: Env, job: Job, declared: string, execution: string, output: string, key: string,
                        otherwise: string)
    requires IsRead(key) && HasSections(job.config)
    ensures Fill(env, job, declared, execution, output).Bound?
    ensures Field(env, Fill(env, job, declared, execution, output).job.templates, key, otherwise) ==
            Field(env, job.templates, key, otherwise)
  {
    FillSucceeds(env, job, declared, execution, output);
    TemplatesKeep(env, job.templates, output, execution, StampOf(env, job, declared, execution, output).contract,
                  key, otherwise);
    hide BoundTemplates, BoundConfig, StampOf, BindingOf, BoundAliases, BoundOutputs, IsRead, Field;
  }

  lemma DeclaresDecides(env: Env, job: Job, otherwise: string)
    ensures DeclaresCsv(job) ==>
      Field(env, job.templates, "declared_result_csv", otherwise) ==
        Field(env, job.templates, "declared_result_csv", job.resultCsv)
    ensures !DeclaresCsv(job) ==> Field(env, job.templates, "declared_result_csv", otherwise) == otherwise
  {
  }

  /** Binding a bound job starts from what the job declares. */
  lemma FilledDeclares(env: Env, job: Job, declared: string, execution: string, output: string)
    requires Reduced(output) && output == FormalDir(env, job)
    requires HasSections(job.config)
    ensures Fill(env, job, declared, execution, output).Bound?
    ensures var bound := Fill(env, job, declared, execution, output).job;
            && FormalDir(env, bound) == output
            && Declared(env, bound) ==
              (if DeclaresCsv(job) then Declared(env, job) else SafePath(env.disk, execution, false))
            && OutputOf(env, bound, "") == SafePath(env.disk, output, false)
  {
    FillSucceeds(env, job, declared, execution, output);
    ReducedIsSource(output);
    FilledShape(env, job, declared, execution, output);
    FilledTemplates(env, job, declared, execution, output, "declared_output_dir", output);
    FilledTemplates(env, job, declared, execution, output, "declared_result_csv", execution);
    DeclaresDecides(env, job, execution);
    assert Field(env, job.templates, "declared_output_dir", output) ==
      Field(env, job.templates, "declared_output_dir", job.outputDir)
        || Field(env, job.templates, "declared_output_dir", output) == output;
    hide Fill, SafePath, Reduced, Source, DeclaresCsv, Field, Contract, ContractOf;
  }

  lemma RefillStamp(env: Env, job: Job, declared: string, execution: string, output: string)
    requires Reduced(output) && output == FormalDir(env, job)
    requires HasSections(job.config)
    ensures Fill(env, job, declared, execution, output).Bound?
    ensures StampOf(env, Fill(env, job, declared, execution, output).job, declared, execution, output) ==
            StampOf(env, job, declared, execution, output)
  {
    FillSucceeds(env, job, declared, execution, output);
    var bound := Fill(env, job, declared, execution, output).job;
    FilledDeclares(env, job, declared, execution, output);
    FilledShape(env, job, declared, execution, output);
    FilledTemplates(env, job, declared, execution, output, "plan_file", "");
    FilledTemplates(env, job, declared, execution, output, "plan_revision", "");
    hide Fill, Field, FormalDir, ContractOf, Section, Declared, OutputOf, Reduced;
  }

  lemma BoundPaths(aliases: seq<Alias>, csv: string)
    ensures var paths := Paths(BoundAliases(aliases, csv));
            paths != [] && forall i :: 0 <= i < |paths| ==> paths[i] == csv
  {
    AliasesTwice(aliases, csv);
    hide BoundAliases;
  }

  lemma RefillBinding(env: Env, job: Job, declared: string, execution: string, output: string)
    requires Reduced(output) && Reduced(execution) && output == FormalDir(env, job)
    requires HasSections(job.config)
    ensures Fill(env, job, declared, execution, output).Bound?
    ensures var bound := Fill(env, job, declared, execution, output).job;
            IsRebinding(BindingOf(env, job, output, execution), BindingOf(env, bound, output, execution))
  {
    FillSucceeds(env, job, declared, execution, output);
    FilledDeclares(env, job, declared, execution, output);
    BoundPaths(job.aliases, execution);
    ReducedIsSource(output);
    FilledAliases(env, job, declared, execution, output);
    hide Fill, Paths, BoundAliases, FormalDir, Declared, OutputOf, Reduced, Source;
  }

  lemma FilledAliases(env: Env, job: Job, declared: string, execution: string, output: string)
    requires HasSections(job.config)
    ensures Fill(env, job, declared, execution, output).Bound?
    ensures Fill(env, job, declared, execution, output).job.aliases == BoundAliases(job.aliases, execution)
  {
    hide BoundTemplates, BoundConfig, BoundAliases, BoundOutputs, StampOf, BindingOf;
    FillSucceeds(env, job, declared, execution, output);
  }

  /** Filling in a filled-in job again. */
  lemma RefillIffNothingDrifts(env: Env, job: Job, declared: string, execution: string, output: string)
    requires Reduced(output) && Reduced(execution) && output == FormalDir(env, job)
    requires HasSections(job.config)
    ensures Fill(env, job, declared, execution, output).Bound?
    ensures var bound := Fill(env, job, declared, execution, output).job;
            Fill(env, bound, declared, execution, output) == Bound(bound)
            <==> !Drifts(Unstamped(job.config), BindingOf(env, job, output, execution), "")
  {
    FillSucceeds(env, job, declared, execution, output);
    var bound := Fill(env, job, declared, execution, output).job;
    var b, again := BindingOf(env, job, output, execution), BindingOf(env, bound, output, execution);
    var stamp := StampOf(env, job, declared, execution, output);
    FillConfig(env, job, declared, execution, output);
    RefillStamp(env, job, declared, execution, output);
    RefillBinding(env, job, declared, execution, output);
    hide BoundTemplates, BoundConfig, BoundAliases, BoundOutputs, BindingOf, StampOf, FormalDir, Drifts, Unstamped,
      HasSections, IsRebinding;
    BoundConfigTwice(job.config, b, again, stamp);
    AliasesTwice(job.aliases, execution);
    TemplatesTwice(job.templates, output, execution, stamp.contract);
    ReducedIsSource(output);
    ReducedIsClean(output);
    EndSlashes(output);
    OutputsTwice(bound);
    hide Reduced, Source, WithoutEndSlashes;
  }

  /** How a bind ends once its two paths are accepted. */
  lemma BindFrom(env: Env, job: Job, outputOverride: string, declared: string, output: string)
    requires Field(env, job.templates, "result_path_policy", "declared") == "declared"
    requires Declared(env, job) == Safe(declared) && OutputOf(env, job, outputOverride) == Safe(output)
    requires "attempts" !in Split(output) && "attempts" !in Split(declared)
    ensures var execution := SafePath(env.disk, declared, false);
            output == FormalDir(env, job) && execution.Safe? ==>
              Bind(env, job, outputOverride) == Fill(env, job, declared, execution.path, output)
  {
    hide Fill, FormalDir, SafePath, Field, Split;
  }

  lemma BoundIsNoAttempt(env: Env, job: Job, outputOverride: string)
    ensures Bind(env, job, outputOverride).Bound? ==>
      && Field(env, job.templates, "result_path_policy", "declared") == "declared"
      && Declared(env, job).Safe? && OutputOf(env, job, outputOverride).Safe?
      && "attempts" !in Split(OutputOf(env, job, outputOverride).path) && "attempts" !in Split(Declared(env, job).path)
  {
    hide Fill, FormalDir, SafePath, Field, Split;
  }

  /**
   Binding a bound job again changes nothing exactly when its output directory is settled, its result file
   is settled or declared in the templates, and no text in its configuration drifts.
   */
  lemma RebindIffNothingDrifts(env: Env, job: Job, outputOverride: string)
    requires Real(env.disk)
    ensures var bound := Bind(env, job, outputOverride);
            bound.Bound? ==>
              && Declared(env, job).Safe? && OutputOf(env, job, outputOverride).Safe?
              && SafePath(env.disk, Declared(env, job).path, false).Safe?
              && var declared, output := Declared(env, job).path, OutputOf(env, job, outputOverride).path;
                 Bind(env, bound.job, "") == bound <==>
                 && Settled(output) && (DeclaresCsv(job) || Settled(declared))
                 && !Drifts(Unstamped(job.config),
                            BindingOf(env, job, output, SafePath(env.disk, declared, false).path), "")
  {
    hide Fill, Bind, Drifts, Unstamped, BindingOf, FormalDir, Declared, OutputOf, SafePath, Field, Settled, DeclaresCsv,
      Split, Reduced, Real, HasSections;
    BindParts(env, job, outputOverride);
    BoundIsNoAttempt(env, job, outputOverride);
    if Bind(env, job, outputOverride).Bound? {
      var declared, output := Declared(env, job).path, OutputOf(env, job, outputOverride).path;
      var execution := SafePath(env.disk, declared, false).path;
      DeclaredSettles(env, job);
      OutputSettles(env, job, outputOverride);
      SafeIsReduced(env.disk, declared);
      FilledShape(env, job, declared, execution, output);
      Rebind(env, job, declared, execution, output);
    }
  }

  lemma DeclaredSettles(env: Env, job: Job)
    requires Real(env.disk) && Declared(env, job).Safe?
    ensures var path := Declared(env, job).path;
            Reduced(path) && (SafePath(env.disk, path, false) == Safe(path) <==> Settled(path))
  {
    hide SafePath, Field, Reduced, Settled, Real;
    SafeIsReduced(env.disk, Field(env, job.templates, "declared_result_csv", job.resultCsv));
    SafeTwice(env.disk, Field(env, job.templates, "declared_result_csv", job.resultCsv));
  }

  lemma OutputSettles(env: Env, job: Job, outputOverride: string)
    requires Real(env.disk) && OutputOf(env, job, outputOverride).Safe?
    ensures var path := OutputOf(env, job, outputOverride).path;
            Reduced(path) && (SafePath(env.disk, path, false) == Safe(path) <==> Settled(path))
  {
    hide SafePath, Reduced, Settled, Real;
    SafeIsReduced(env.disk, if outputOverride != "" then outputOverride else job.outputDir);
    SafeTwice(env.disk, if outputOverride != "" then outputOverride else job.outputDir);
  }

  /** What a bound job was bound from. */
  ghost predicate BoundFrom(env: Env, job: Job, declared: string, execution: string, output: string) {
    && Real(env.disk) && Reduced(output) && Reduced(declared) && Reduced(execution) && output == FormalDir(env, job)
    && Field(env, job.templates, "result_path_policy", "declared") == "declared"
    && Declared(env, job) == Safe(declared) && SafePath(env.disk, declared, false) == Safe(execution)
    && (SafePath(env.disk, output, false) == Safe(output) <==> Settled(output))
    && (declared == execution <==> Settled(declared))
    && "attempts" !in Split(output) && "attempts" !in Split(declared)
    && HasSections(job.config)
  }

  lemma Rebind(env: Env, job: Job, declared: string, execution: string, output: string)
    ensures BoundFrom(env, job, declared, execution, output) ==>
      && var filled := Fill(env, job, declared, execution, output);
      && filled.Bound?
      && (Bind(env, filled.job, "") == filled <==>
          && Settled(output) && (DeclaresCsv(job) || Settled(declared))
          && !Drifts(Unstamped(job.config), BindingOf(env, job, output, execution), ""))
  {
    hide Fill, Bind, Drifts, Unstamped, BindingOf, FormalDir, Declared, OutputOf, SafePath, Field, Settled, DeclaresCsv,
      Split, Reduced, Real, HasSections;
    if BoundFrom(env, job, declared, execution, output) {
      FillSucceeds(env, job, declared, execution, output);
      var bound := Fill(env, job, declared, execution, output).job;
      FilledDeclares(env, job, declared, execution, output);
      FilledTemplates(env, job, declared, execution, output, "result_path_policy", "declared");
      RefillIffNothingDrifts(env, job, declared, execution, output);
      RebindIsRefill(env, job, declared, execution, output);
      if Settled(output) && (DeclaresCsv(job) || Settled(declared)) {
        BindFrom(env, bound, "", declared, output);
      }
    }
  }

  /** A second bind that gives the job back saw settled paths, and is a second filling in. */
  lemma RebindIsRefill(env: Env, job: Job, declared: string, execution: string, output: string)
    ensures BoundFrom(env, job, declared, execution, output) ==>
      && var filled := Fill(env, job, declared, execution, output);
      && filled.Bound?
      && (Bind(env, filled.job, "") == filled ==> Settled(output) && (DeclaresCsv(job) || Settled(declared)))
  {
    hide Fill, Bind, FormalDir, Declared, OutputOf, SafePath, Field, Settled, DeclaresCsv, Split, Reduced, Real,
      HasSections;
    if BoundFrom(env, job, declared, execution, output) {
      FillSucceeds(env, job, declared, execution, output);
      var bound := Fill(env, job, declared, execution, output).job;
      FilledDeclares(env, job, declared, execution, output);
      BindParts(env, bound, "");
      if Bind(env, bound, "") == Bound(bound) && !DeclaresCsv(job) {
        ShrinksOrStays(env.disk, declared);
        ShrinksOrStays(env.disk, execution);
        var secondDeclared := Declared(env, bound).path;
        var secondExecution := SafePath(env.disk, secondDeclared, false).path;
        FilledFromTheSame(env, job, declared, execution, output, secondDeclared, secondExecution,
                          OutputOf(env, bound, "").path);
      }
    }
  }

  /** A job that filling in gives back was filled in from the same two result paths before. */
  lemma FilledFromTheSame(env: Env, job: Job, declared: string, execution: string, output: string,
                          secondDeclared: string, secondExecution: string, secondOutput: string)
    requires HasSections(job.config)
    ensures Fill(env, job, declared, execution, output).Bound?
    ensures Fill(env, Fill(env, job, declared, execution, output).job, secondDeclared, secondExecution, secondOutput)
            == Fill(env, job, declared, execution, output)
            ==> secondDeclared == declared && secondExecution == execution
  {
    hide Fill, FormalDir, ContractOf, Contract, IsCurrent, Section, HasSections;
    FillSucceeds(env, job, declared, execution, output);
    var bound := Fill(env, job, declared, execution, output).job;
    FillConfig(env, job, declared, execution, output);
    FilledShape(env, job, declared, execution, output);
    FilledShape(env, bound, secondDeclared, secondExecution, secondOutput);
    ContractIsCurrent(env, job, declared, execution, FormalDir(env, job), output);
    ContractIsCurrent(env, bound, secondDeclared, secondExecution, FormalDir(env, bound), secondOutput);
  }

  lemma ShrinksOrStays(disk: Disk, path: string)
    requires Real(disk) && Reduced(path) && SafePath(disk, path, false).Safe?
    ensures SafePath(disk, path, false).path == path || |SafePath(disk, path, false).path| < |path|
  {
    hide Reduced, Cleaned, Split, Kept, Join, TrimLeft, TrimRight;
    ReducedIsClean(path);
    CleanedShrinks(path);
    if Kept(Split(Cleaned(path))) != [] { NormalIsNoLonger(Cleaned(path)); }
  }

  lemma CleanedShrinks(path: string)
    requires '\\' !in path
    ensures Cleaned(path) == path || |Cleaned(path)| < |path|
  {
    hide TrimLeft, TrimRight;
    TrimShape(path);
    TrimShape(TrimLeft(path));
    SlashedTwice(path);
  }

  // ---- where the plain claims fail ----

  /** A file system without links, the project at its root. */
  function PlainDisk(): Disk {
    Disk("/", text => if IsAbsolute(text) then text else if text == "." then "/" else "/" + text, location => true)
  }

  /** A job with one section of its configuration missing nothing and its results under these paths. */
  function PlainJob(outputDir: string, resultCsv: string): Job {
    Job(0, "case", 1, EMPTY, outputDir, resultCsv, ".", [], map[], [])
  }

  lemma OneSegment(part: string)
    requires IsSegment(part) && Settled(part)
    ensures SafePath(PlainDisk(), part, false) == Safe(part) && Split(part) == [part]
  {
    SplitAppend(part, "");
    assert [part][1..] == [];
    TrimShape(part);
    assert Cleaned(part) == part;
    assert Kept([part]) == [part];
    hide Split, Kept, Cleaned, TrimLeft, TrimRight;
    assert Normal(part) == part;
  }

  /** A result file written "./ a" is bound, and the bound job then fails its check. */
  lemma SpacedResultFailsItsCheck(env: Env)
    requires env.disk == PlainDisk()
    ensures Bind(env, PlainJob("out", "./ a"), "").Bound?
    ensures !RowCheck(env, Bind(env, PlainJob("out", "./ a"), "").job).Passes?
  {
    hide *;
    var job := PlainJob("out", "./ a");
    PlainJobParts(env);
    SpacedIsSafe();
    OneSegmentOut();
    SpacedIsOneSegment();
    PlainIsReal();
    FillSucceeds(env, job, " a", SafePath(env.disk, " a", false).path, "out");
    BindFrom(env, job, "", " a", "out");
    BoundPassesIffSettled(env, job, "");
  }

  lemma PlainIsReal()
    ensures Real(PlainDisk()) && PlainDisk().inside(PlainDisk().resolve(" a")) &&
            PlainDisk().resolve(" a") != PlainDisk().root
  {
  }

  lemma SpacedIsOneSegment()
    ensures Split(" a") == [" a"] && !Settled(" a") && "attempts" !in [" a"] && "attempts" !in ["out"]
  {
    SplitAppend(" a", "");
  }

  lemma PlainJobParts(env: Env)
    requires env.disk == PlainDisk()
    ensures var job := PlainJob("out", "./ a");
            && Declared(env, job) == Safe(" a") && OutputOf(env, job, "") == Safe("out") && FormalDir(env, job) == "out"
            && Field(env, job.templates, "result_path_policy", "declared") == "declared"
            && HasSections(job.config)
  {
    hide SafePath, PlainDisk, Source;
    PlainSource();
    OneSegmentOut();
    PlainIsReal();
    SafeIsNotAlwaysStable(env.disk);
    var job := PlainJob("out", "./ a");
    assert forall key, otherwise :: Field(env, job.templates, key, otherwise) == otherwise;
  }

  lemma PlainSource()
    ensures Source("out") == "out"
  {
    assert Slashed("out") == "out";
  }

  lemma OneSegmentOut()
    ensures SafePath(PlainDisk(), "out", false) == Safe("out") && Split("out") == ["out"]
  {
    assert IsSegment("out");
    hide SafePath, PlainDisk;
    OneSegment("out");
  }

  /** Written "a", the result file is bound and the bound job passes. */
  lemma PlainResultPasses(env: Env)
    requires env.disk == PlainDisk()
    ensures var bound := Bind(env, PlainJob("out", "a"), "");
            bound.Bound? && RowCheck(env, bound.job).Passes?
  {
    hide *;
    var job := PlainJob("out", "a");
    PlainResultParts(env);
    OneSegmentOut();
    OneSegmentA();
    PlainIsReal();
    FillSucceeds(env, job, "a", "a", "out");
    BindFrom(env, job, "", "a", "out");
    BoundPassesIffSettled(env, job, "");
  }

  lemma PlainResultParts(env: Env)
    requires env.disk == PlainDisk()
    ensures var job := PlainJob("out", "a");
            && Declared(env, job) == Safe("a") && OutputOf(env, job, "") == Safe("out") && FormalDir(env, job) == "out"
            && Field(env, job.templates, "result_path_policy", "declared") == "declared"
            && HasSections(job.config) && Settled("a") && Settled("out")
  {
    hide SafePath, PlainDisk, Source;
    PlainSource();
    OneSegmentOut();
    OneSegmentA();
    var job := PlainJob("out", "a");
    assert forall key, otherwise :: Field(env, job.templates, key, otherwise) == otherwise;
  }

  lemma OneSegmentA()
    ensures SafePath(PlainDisk(), "a", false) == Safe("a") && Split("a") == ["a"] && "attempts" !in ["a"] &&
            "attempts" !in ["out"]
  {
    assert IsSegment("a");
    hide SafePath, PlainDisk;
    OneSegment("a");
  }

  lemma SpacedIsSafe()
    ensures SafePath(PlainDisk(), " a", false).Safe?
  {
    OneSegment("a");
    assert TrimLeft(" a") == "a";
    assert Cleaned(" a") == Cleaned("a");
  }

  /** A job with its output directory written "out/" and one declared output below it. */
  function SlashedJob(): Job {
    PlainJob("out/", "a").(outputs := ["out/x"])
  }

  /** That job is bound, and its output comes out as "outx". */
  lemma EndSlashJoinsNames(env: Env)
    requires env.disk == PlainDisk()
    ensures var bound := Bind(env, SlashedJob(), ""); bound.Bound? && bound.job.outputs == ["outx"]
  {
    hide *;
    var job := SlashedJob();
    SlashedParts(env);
    OneSegmentOut();
    OneSegmentA();
    FillSucceeds(env, job, "a", "a", "out");
    BindFrom(env, job, "", "a", "out");
    FilledOutputs(env, job, "a", "a", "out");
    JoinedName();
  }

  lemma JoinedName()
    ensures SlashedJob().outputs == ["out/x"] && BoundOutput("out/x", SlashedJob(), "out", "a") == "outx"
  {
    assert WithoutEndSlashes("out/") == "out" by { assert "out/"[..3] == "out"; }
    assert "out/x"[..4] == "out" + "/";
  }

  lemma SlashedParts(env: Env)
    requires env.disk == PlainDisk()
    ensures var job := SlashedJob();
            && Declared(env, job) == Safe("a") && OutputOf(env, job, "") == Safe("out") && FormalDir(env, job) == "out"
            && Field(env, job.templates, "result_path_policy", "declared") == "declared"
            && HasSections(job.config)
  {
    hide SafePath, PlainDisk, Source;
    SlashedSource();
    SlashedIsSafe();
    OneSegmentA();
    var job := SlashedJob();
    assert forall key, otherwise :: Field(env, job.templates, key, otherwise) == otherwise;
  }

  lemma SlashedSource()
    ensures Source("out/") == "out"
  {
    assert Slashed("out/") == "out/";
    assert "out/"[..3] == "out";
  }

  lemma SlashedIsSafe()
    ensures SafePath(PlainDisk(), "out/", false) == Safe("out")
  {
    var text := "out/";
    TrimShape(text);
    assert Cleaned(text) == text;
    SlashedNormal();
    hide Split, Normal, Cleaned, TrimLeft, TrimRight;
  }

  lemma SlashedNormal()
    ensures Split("out/") == ["out", ""] && Normal("out/") == "out"
  {
    assert "out/" == "out" + "/" + "";
    SplitAppend("out", "");
    hide Split;
    assert ["out", ""][1..] == [""] && [""][1..] == [];
    assert Kept([""]) == [];
    assert Kept(Split("out/")) == ["out"];
  }

  /** A text below the result file, written with a backslash, is left by the first rewrite and changed by the second. */
  lemma BackslashDrifts()
    ensures var b := Binding("out", "a", "out", ["./a"]); RewriteText("a\\x", b) == "a\\x" && TextDrifts("a\\x", b)
    ensures RewriteText("a\\x", Binding("out", "a", "out", ["a"])) == "a/x"
  {
    var b, again := Binding("out", "a", "out", ["./a"]), Binding("out", "a", "out", ["a"]);
    assert Slashed("a\\x") == "a/x";
    assert Slashed("./a") == "./a" && Slashed("out") == "out" && Slashed("a") == "a";
    assert "a\\x"[1] == '\\';
    AliasFound("a\\x", b.aliases, "a");
    AliasFound("a\\x", again.aliases, "a");
  }

  /**
   A job with such a text in its configuration: its result file is declared as "./a", and one setting names
   "a\\x".
   */
  function DriftingJob(): Job {
    Job(0, "case", 1, Dict(map["x" := Text("a\\x")]), "out", "./a", ".", [Alias("result_csv", "./a")],
        map["declared_result_csv" := Text("./a")], [])
  }

  /** That job is bound, and binding the bound job again gives another job. */
  lemma RebindingCanChange(env: Env)
    requires env.disk == PlainDisk()
    ensures var bound := Bind(env, DriftingJob(), ""); bound.Bound? && Bind(env, bound.job, "") != bound
  {
    hide *;
    var job := DriftingJob();
    DriftingParts(env);
    DottedIsSafe();
    OneSegmentOut();
    OneSegmentA();
    PlainIsReal();
    FillSucceeds(env, job, "a", "a", "out");
    BindFrom(env, job, "", "a", "out");
    RebindIffNothingDrifts(env, job, "");
    DriftingDrifts();
  }

  lemma DriftingParts(env: Env)
    requires env.disk == PlainDisk()
    ensures var job := DriftingJob();
            && Declared(env, job) == Safe("a") && OutputOf(env, job, "") == Safe("out") && FormalDir(env, job) == "out"
            && Field(env, job.templates, "result_path_policy", "declared") == "declared"
            && HasSections(job.config)
            && BindingOf(env, job, "out", "a") == Binding("out", "a", "out", ["./a"])
  {
    hide SafePath, PlainDisk, Source;
    PlainSource();
    OneSegmentOut();
    DottedIsSafe();
    var job := DriftingJob();
    assert Field(env, job.templates, "declared_result_csv", "./a") == "./a";
    assert Field(env, job.templates, "declared_output_dir", "out") == "out";
    assert Paths(job.aliases) == ["./a"];
  }

  lemma DottedIsSafe()
    ensures SafePath(PlainDisk(), "./a", false) == Safe("a")
  {
    var text := "./a";
    TrimShape(text);
    assert Cleaned(text) == text;
    DottedNormal();
    hide Split, Normal, Cleaned, TrimLeft, TrimRight;
  }

  lemma DottedNormal()
    ensures Split("./a") == [".", "a"] && Normal("./a") == "a"
  {
    assert "./a" == "." + "/" + "a";
    SplitAppend(".", "a");
    SplitAppend("a", "");
    hide Split;
    assert [".", "a"][1..] == ["a"] && ["a"][1..] == [];
    assert Kept(["a"]) == ["a"];
    assert Kept(Split("./a")) == ["a"];
  }

  lemma DriftingDrifts()
    ensures Drifts(Unstamped(DriftingJob().config), Binding("out", "a", "out", ["./a"]), "")
  {
    var b, config := Binding("out", "a", "out", ["./a"]), DriftingJob().config;
    DriftingText(b);
    UnstampedDriftsSomewhere(config, b);
    PlainUnstamped(Text("a\\x"), "x");
    hide Drifts, Unstamped, UnstampedSection;
    assert Section(config, "x") == Text("a\\x");
    assert Drifts(UnstampedSection(Section(config, "x"), "x"), b, "x");
  }

  lemma DriftingText(b: Binding)
    requires b == Binding("out", "a", "out", ["./a"])
    ensures Drifts(Text("a\\x"), b, "x")
  {
    BackslashDrifts();
    PlainLetters("x");
    hide TextDrifts, RewriteText;
  }
}
