/**
 The files a round of work changed, as git's NUL-separated status and diff listings name them.
 */
module ChangedFiles {

  datatype Option<T> = None | Some(value: T)

  const NUL: char := '\0'

  predicate StartsWith(s: string, prefix: string) {
    |prefix| <= |s| && s[..|prefix|] == prefix
  }

  /** Build output, run evidence, documents and installed packages do not count as changes. */
  predicate IsRelevant(path: string) {
    && path != ""
    && !StartsWith(path, "dist/") && !StartsWith(path, "simple_cluster/")
    && !StartsWith(path, "docs/") && !StartsWith(path, "node_modules/")
  }

  function Relevant(path: string): set<string> {
    if IsRelevant(path) then {path} else {}
  }

  // ---- reading ----

  function Split(text: string): (r: seq<string>)
    ensures r != []
  {
    if text == "" then [""]
    else if text[0] == NUL then [""] + Split(text[1..])
    else
      var rest := Split(text[1..]);
      [[text[0]] + rest[0]] + rest[1..]
  }

  /** The fields of a listing; every field ends with a NUL, so the empty last piece is none. */
  function Fields(text: string): seq<string> {
    var pieces := Split(text);
    if pieces[|pieces| - 1] == "" then pieces[..|pieces| - 1] else pieces
  }

  predicate IsMove(status: string) {
    'R' in status || 'C' in status
  }

  predicate IsDiffMove(status: string) {
    status != "" && (status[0] == 'R' || status[0] == 'C') && forall i :: 1 <= i < |status| ==> '0' <= status[i] <= '9'
  }

  /** The relevant paths of a status listing. A field too short for a status and a path is passed over. */
  function StatusPaths(fields: seq<string>): set<string>
    decreases |fields|
  {
    if fields == [] then {}
    else if |fields[0]| < 4 then StatusPaths(fields[1..])
    else if !IsMove(fields[0][..2]) then Relevant(fields[0][3..]) + StatusPaths(fields[1..])
    else if |fields| == 1 then Relevant(fields[0][3..])
    else Relevant(fields[0][3..]) + Relevant(fields[1]) + StatusPaths(fields[2..])
  }

  function DiffPaths(fields: seq<string>): set<string>
    decreases |fields|
  {
    if |fields| < 2 then {}
    else if !IsDiffMove(fields[0]) then Relevant(fields[1]) + DiffPaths(fields[2..])
    else if |fields| == 2 then Relevant(fields[1])
    else Relevant(fields[1]) + Relevant(fields[2]) + DiffPaths(fields[3..])
  }

  /** Nothing when git could not answer. */
  method ChangedFiles(status: Option<string>, diff: Option<string>) returns (r: Option<set<string>>)
    ensures r == if status.None? || diff.None? then None
                 else Some(StatusPaths(Fields(status.value)) + DiffPaths(Fields(diff.value)))
  {
    if status.None? { return None; }
    var s := ReadStatus(Fields(status.value));
    if diff.None? { return None; }
    var d := ReadDiff(Fields(diff.value));
    return Some(s + d);
  }

  method ReadStatus(fields: seq<string>) returns (paths: set<string>)
    ensures paths == StatusPaths(fields)
  {
    hide IsRelevant;
    paths := {};
    var i := 0;
    while i < |fields|
      invariant i <= |fields| && paths + StatusPaths(fields[i..]) == StatusPaths(fields)
    {
      var field := fields[i];
      ghost var rest := fields[i..];
      assert rest[1..] == fields[i + 1..];
      i := i + 1;
      if |field| < 4 { continue; }
      if IsRelevant(field[3..]) { paths := paths + {field[3..]}; }
      if IsMove(field[..2]) {
        if i == |fields| { return; }
        assert rest[2..] == fields[i + 1..];
        if IsRelevant(fields[i]) { paths := paths + {fields[i]}; }
        i := i + 1;
      }
    }
  }

  method ReadDiff(fields: seq<string>) returns (paths: set<string>)
    ensures paths == DiffPaths(fields)
  {
    hide IsRelevant, IsDiffMove;
    paths := {};
    var i := 0;
    while i + 1 < |fields|
      invariant i <= |fields| && paths + DiffPaths(fields[i..]) == DiffPaths(fields)
    {
      ghost var rest := fields[i..];
      assert rest[2..] == fields[i + 2..];
      if IsRelevant(fields[i + 1]) { paths := paths + {fields[i + 1]}; }
      if IsDiffMove(fields[i]) {
        if i + 2 == |fields| { return; }
        assert rest[3..] == fields[i + 3..];
        if IsRelevant(fields[i + 2]) { paths := paths + {fields[i + 2]}; }
        i := i + 3;
      } else {
        i := i + 2;
      }
    }
  }

  // ---- what git prints ----

  /** `--porcelain=v1 -z`: two status letters, a space and the path; a move or copy adds the path it came from. */
  datatype StatusEntry = Plain(x: char, y: char, path: string) | Moved(x: char, y: char, path: string, from: string)

  /** `--name-status -z`: the status and the path; a move or copy has the old path first. */
  datatype DiffEntry = Changed(status: string, path: string) | Renamed(status: string, before: string, path: string)

  predicate IsPath(path: string) {
    path != "" && NUL !in path
  }

  predicate IsStatus(e: StatusEntry) {
    && IsPath(e.path) && e.x != NUL && e.y != NUL
    && (e.Moved? <==> IsMove([e.x, e.y])) && (e.Moved? ==> IsPath(e.from))
  }

  predicate IsDiff(e: DiffEntry) {
    && e.status != "" && NUL !in e.status
    && (e.Renamed? <==> IsDiffMove(e.status))
    && if e.Renamed? then IsPath(e.before) && IsPath(e.path) else IsPath(e.path)
  }

  function StatusFields(e: StatusEntry): seq<string> {
    [[e.x, e.y, ' '] + e.path] + if e.Moved? then [e.from] else []
  }

  function DiffFields(e: DiffEntry): seq<string> {
    if e.Renamed? then [e.status, e.before, e.path] else [e.status, e.path]
  }

  function AllStatusFields(es: seq<StatusEntry>): seq<string> {
    if es == [] then [] else StatusFields(es[0]) + AllStatusFields(es[1..])
  }

  function AllDiffFields(es: seq<DiffEntry>): seq<string> {
    if es == [] then [] else DiffFields(es[0]) + AllDiffFields(es[1..])
  }

  function Terminated(fields: seq<string>): string {
    if fields == [] then "" else fields[0] + [NUL] + Terminated(fields[1..])
  }

  /** Every path an entry names. */
  function StatusNames(e: StatusEntry): set<string> {
    {e.path} + if e.Moved? then {e.from} else {}
  }

  function DiffNames(e: DiffEntry): set<string> {
    if e.Renamed? then {e.before, e.path} else {e.path}
  }

  /** Some entry of the listing names the path. */
  ghost predicate StatusNamed(es: seq<StatusEntry>, path: string) {
    exists i :: 0 <= i < |es| && path in StatusNames(es[i])
  }

  ghost predicate DiffNamed(es: seq<DiffEntry>, path: string) {
    exists i :: 0 <= i < |es| && path in DiffNames(es[i])
  }

  // ---- reading undoes printing ----

  predicate NulFree(fields: seq<string>) {
    forall i :: 0 <= i < |fields| ==> NUL !in fields[i]
  }

  lemma {:induction false} SplitAppend(field: string, rest: string)
    requires NUL !in field
    ensures Split(field + [NUL] + rest) == [field] + Split(rest)
  {
    var whole := field + [NUL] + rest;
    if field == "" {
      assert whole[1..] == rest;
    } else {
      assert whole[1..] == field[1..] + [NUL] + rest;
      SplitAppend(field[1..], rest);
      assert [field[0]] + field[1..] == field;
    }
  }

  lemma {:induction false} SplitTerminated(fields: seq<string>)
    requires NulFree(fields)
    ensures Split(Terminated(fields)) == fields + [""]
  {
    if fields != [] {
      SplitAppend(fields[0], Terminated(fields[1..]));
      SplitTerminated(fields[1..]);
    }
  }

  /** Every listing of NUL-free fields is taken apart into its fields. */
  lemma FieldsOfTerminated(fields: seq<string>)
    requires NulFree(fields)
    ensures Fields(Terminated(fields)) == fields
  {
    SplitTerminated(fields);
  }

  lemma {:induction false} StatusIsNulFree(es: seq<StatusEntry>)
    requires forall i :: 0 <= i < |es| ==> IsStatus(es[i])
    ensures NulFree(AllStatusFields(es))
  {
    if es != [] { StatusIsNulFree(es[1..]); }
  }

  lemma {:induction false} DiffIsNulFree(es: seq<DiffEntry>)
    requires forall i :: 0 <= i < |es| ==> IsDiff(es[i])
    ensures NulFree(AllDiffFields(es))
  {
    if es != [] { DiffIsNulFree(es[1..]); }
  }

  lemma {:induction false} StatusReadsBack(es: seq<StatusEntry>)
    requires forall i :: 0 <= i < |es| ==> IsStatus(es[i])
    ensures forall path :: path in StatusPaths(AllStatusFields(es)) <==>
      IsRelevant(path) && StatusNamed(es, path)
  {
    hide IsRelevant;
    if es != [] {
      var e, fields := es[0], AllStatusFields(es);
      StatusReadsBack(es[1..]);
      assert fields[0] == [e.x, e.y, ' '] + e.path;
      assert fields[0][..2] == [e.x, e.y] && fields[0][3..] == e.path;
      assert fields[|StatusFields(e)|..] == AllStatusFields(es[1..]);
      assert StatusPaths(fields) ==
        Relevant(e.path) + (if e.Moved? then Relevant(e.from) else {}) + StatusPaths(AllStatusFields(es[1..]));
      hide StatusPaths, AllStatusFields, IsStatus;
      NamedFirstOrLater(es);
    }
  }

  lemma NamedFirstOrLater(es: seq<StatusEntry>)
    requires es != []
    ensures forall path :: StatusNamed(es, path) <==> path in StatusNames(es[0]) || StatusNamed(es[1..], path)
  {
    hide StatusNames;
    forall path | StatusNamed(es[1..], path) ensures StatusNamed(es, path) {
      var i :| 0 <= i < |es[1..]| && path in StatusNames(es[1..][i]);
      assert es[i + 1] == es[1..][i];
    }
    forall path, i | 1 <= i < |es| && path in StatusNames(es[i]) ensures StatusNamed(es[1..], path) {
      assert es[1..][i - 1] == es[i];
    }
  }

  lemma {:induction false} DiffReadsBack(es: seq<DiffEntry>)
    requires forall i :: 0 <= i < |es| ==> IsDiff(es[i])
    ensures forall path :: path in DiffPaths(AllDiffFields(es)) <==>
      IsRelevant(path) && DiffNamed(es, path)
  {
    hide IsRelevant;
    if es != [] {
      var e, fields := es[0], AllDiffFields(es);
      DiffReadsBack(es[1..]);
      assert fields[0] == e.status;
      assert fields[|DiffFields(e)|..] == AllDiffFields(es[1..]);
      assert DiffPaths(fields) ==
        (if e.Renamed? then Relevant(e.before) + Relevant(e.path) else Relevant(e.path)) +
          DiffPaths(AllDiffFields(es[1..]));
      hide DiffPaths, AllDiffFields, IsDiff;
      NamedInDiff(es);
    }
  }

  lemma NamedInDiff(es: seq<DiffEntry>)
    requires es != []
    ensures forall path :: DiffNamed(es, path) <==> path in DiffNames(es[0]) || DiffNamed(es[1..], path)
  {
    hide DiffNames;
    forall path | DiffNamed(es[1..], path) ensures DiffNamed(es, path) {
      var i :| 0 <= i < |es[1..]| && path in DiffNames(es[1..][i]);
      assert es[i + 1] == es[1..][i];
    }
    forall path, i | 1 <= i < |es| && path in DiffNames(es[i]) ensures DiffNamed(es[1..], path) {
      assert es[1..][i - 1] == es[i];
    }
  }

  /** What is read from git's two listings is every relevant path they name, old and new. */
  lemma ListingsReadBack(status: seq<StatusEntry>, diff: seq<DiffEntry>)
    requires forall i :: 0 <= i < |status| ==> IsStatus(status[i])
    requires forall i :: 0 <= i < |diff| ==> IsDiff(diff[i])
    ensures forall path ::
      path in StatusPaths(Fields(Terminated(AllStatusFields(status)))) +
        DiffPaths(Fields(Terminated(AllDiffFields(diff)))) <==>
      && IsRelevant(path)
      && (StatusNamed(status, path) || DiffNamed(diff, path))
  {
    hide *;
    StatusIsNulFree(status);
    DiffIsNulFree(diff);
    FieldsOfTerminated(AllStatusFields(status));
    FieldsOfTerminated(AllDiffFields(diff));
    StatusReadsBack(status);
    DiffReadsBack(diff);
  }
}
