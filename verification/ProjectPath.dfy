/**
 Project-relative paths: what is accepted, and the text an accepted path is reduced to.
 */
module ProjectPath {

  datatype Reason = NotRelative | ParentSegment | OutsideProject | ProjectRoot

  datatype Result = Safe(path: string) | Unsafe(reason: Reason)

  /** Where the file system puts a path, given relative to the project root or absolute. */
  datatype Disk = Disk(root: string, resolve: string -> string, inside: string -> bool)

  /** Resolved paths are absolute and resolve to themselves, and "." is the root. */
  ghost predicate Real(disk: Disk) {
    && disk.resolve(".") == disk.root
    && forall text :: IsAbsolute(disk.resolve(text)) && disk.resolve(disk.resolve(text)) == disk.resolve(text)
  }

  predicate IsAbsolute(text: string) {
    text != "" && text[0] == '/'
  }

  /** The characters that Python's `str.strip` removes. */
  predicate IsSpace(c: char) {
    || '\t' <= c <= '\r' || '\U{1C}' <= c <= ' ' || c == '\U{85}' || c == '\U{A0}' || c == '\U{1680}'
    || '\U{2000}' <= c <= '\U{200A}' || c == '\U{2028}' || c == '\U{2029}' || c == '\U{202F}'
    || c == '\U{205F}' || c == '\U{3000}'
  }

  function TrimLeft(s: string): string {
    if s != "" && IsSpace(s[0]) then TrimLeft(s[1..]) else s
  }

  function TrimRight(s: string): string {
    if s != "" && IsSpace(s[|s| - 1]) then TrimRight(s[..|s| - 1]) else s
  }

  /** Backslashes become slashes. */
  function Slashed(s: string): (r: string)
    ensures |r| == |s| && forall i :: 0 <= i < |r| ==> r[i] == if s[i] == '\\' then '/' else s[i]
  {
    seq(|s|, i requires 0 <= i < |s| => if s[i] == '\\' then '/' else s[i])
  }

  function Split(s: string): (r: seq<string>)
    ensures r != []
  {
    if s == "" then [""]
    else if s[0] == '/' then [""] + Split(s[1..])
    else
      var r := Split(s[1..]);
      [[s[0]] + r[0]] + r[1..]
  }

  function Join(parts: seq<string>): string {
    if parts == [] then ""
    else if |parts| == 1 then parts[0]
    else parts[0] + "/" + Join(parts[1..])
  }

  function Kept(parts: seq<string>): seq<string> {
    if parts == [] then []
    else (if parts[0] == "" || parts[0] == "." then [] else [parts[0]]) + Kept(parts[1..])
  }

  predicate HasDrive(text: string) {
    |text| >= 2 && text[1] == ':' && ('A' <= text[0] <= 'Z' || 'a' <= text[0] <= 'z')
  }

  function Cleaned(value: string): string {
    Slashed(TrimRight(TrimLeft(value)))
  }

  function Normal(text: string): string {
    var parts := Kept(Split(text));
    if parts == [] then "." else Join(parts)
  }

  function SafePath(disk: Disk, value: string, allowRoot: bool): Result {
    var text := Cleaned(value);
    if text == "" || text[0] == '/' || HasDrive(text) then Unsafe(NotRelative)
    else if ".." in Split(text) then Unsafe(ParentSegment)
    else
      var normal := Normal(text);
      if !disk.inside(disk.resolve(normal)) then Unsafe(OutsideProject)
      else if disk.resolve(normal) == disk.root && !allowRoot then Unsafe(ProjectRoot)
      else Safe(normal)
  }

  // ---- what the reduced text looks like ----

  predicate IsSegment(part: string) {
    && part != "" && part != "." && part != ".."
    && '/' !in part && '\\' !in part
  }

  predicate Segments(parts: seq<string>) {
    forall i :: 0 <= i < |parts| ==> IsSegment(parts[i])
  }

  lemma {:induction false} SplitParts(s: string, i: nat)
    requires i < |Split(s)|
    ensures '/' !in Split(s)[i] && forall c :: c in Split(s)[i] ==> c in s
  {
    if s != "" {
      if s[0] == '/' {
        if i > 0 { SplitParts(s[1..], i - 1); }
      } else {
        SplitParts(s[1..], i);
      }
    }
  }

  lemma {:induction false} KeptParts(parts: seq<string>, i: nat)
    requires i < |Kept(parts)|
    ensures Kept(parts)[i] in parts && Kept(parts)[i] != "" && Kept(parts)[i] != "."
  {
    if parts != [] {
      var skip := if parts[0] == "" || parts[0] == "." then 0 else 1;
      if i >= skip { KeptParts(parts[1..], i - skip); }
    }
  }

  lemma KeptAreSegments(text: string)
    requires '\\' !in text && ".." !in Split(text)
    ensures Segments(Kept(Split(text)))
  {
    var kept := Kept(Split(text));
    forall i | 0 <= i < |kept| ensures IsSegment(kept[i]) {
      KeptParts(Split(text), i);
      var k :| 0 <= k < |Split(text)| && Split(text)[k] == kept[i];
      SplitParts(text, k);
    }
  }

  lemma {:induction false} SplitAppend(part: string, rest: string)
    requires '/' !in part
    ensures Split(part + "/" + rest) == [part] + Split(rest) && Split(part) == [part]
  {
    var whole := part + "/" + rest;
    if part == "" {
      assert whole[1..] == rest;
    } else {
      assert whole[1..] == part[1..] + "/" + rest;
      SplitAppend(part[1..], rest);
      assert [part[0]] + part[1..] == part;
    }
  }

  lemma {:induction false} SplitJoin(parts: seq<string>)
    requires parts != [] && Segments(parts)
    ensures Split(Join(parts)) == parts
  {
    if |parts| == 1 {
      SplitAppend(parts[0], "");
    } else {
      SplitAppend(parts[0], Join(parts[1..]));
      SplitJoin(parts[1..]);
    }
  }

  lemma {:induction false} KeptAll(parts: seq<string>)
    requires Segments(parts)
    ensures Kept(parts) == parts
  {
    if parts != [] { KeptAll(parts[1..]); }
  }

  /** The bytes the parts need when written out with a slash after each. */
  function Size(parts: seq<string>): nat {
    if parts == [] then 0 else |parts[0]| + 1 + Size(parts[1..])
  }

  lemma {:induction false} SplitSize(s: string)
    ensures Size(Split(s)) == |s| + 1
  {
    if s != "" { SplitSize(s[1..]); }
  }

  lemma {:induction false} KeptSize(parts: seq<string>)
    ensures Size(Kept(parts)) <= Size(parts)
  {
    if parts != [] {
      KeptSize(parts[1..]);
      var rest := Kept(parts[1..]);
      assert Size([parts[0]] + rest) == |parts[0]| + 1 + Size(rest) by { assert ([parts[0]] + rest)[1..] == rest; }
      assert Kept(parts) == if parts[0] == "" || parts[0] == "." then rest else [parts[0]] + rest;
    }
  }

  lemma {:induction false} JoinSize(parts: seq<string>)
    requires parts != []
    ensures |Join(parts)| + 1 == Size(parts)
  {
    if |parts| > 1 { JoinSize(parts[1..]); } else { assert Size(parts[1..]) == 0; }
  }

  /** Reducing never makes a text longer. */
  lemma NormalIsNoLonger(text: string)
    requires Kept(Split(text)) != []
    ensures |Normal(text)| <= |text|
  {
    SplitSize(text);
    KeptSize(Split(text));
    JoinSize(Kept(Split(text)));
  }

  lemma {:induction false} JoinClean(parts: seq<string>)
    requires parts != [] && Segments(parts)
    ensures Join(parts) != "" && Join(parts)[0] != '/' && Join(parts)[|Join(parts)| - 1] != '/' && '\\' !in Join(parts)
  {
    assert IsSegment(parts[0]);
    if |parts| > 1 {
      JoinClean(parts[1..]);
      var rest := Join(parts[1..]);
      assert Join(parts)[|Join(parts)| - 1] == rest[|rest| - 1];
    }
  }

  /** An accepted path, reduced. */
  ghost predicate Reduced(path: string) {
    exists parts :: parts != [] && Segments(parts) && path == Join(parts)
  }

  lemma SafeIsReduced(disk: Disk, value: string)
    requires Real(disk) && SafePath(disk, value, false).Safe?
    ensures Reduced(SafePath(disk, value, false).path)
  {
    var text := Cleaned(value);
    assert '\\' !in text;
    KeptAreSegments(text);
    assert Kept(Split(text)) != [];
  }

  lemma ReducedIsClean(path: string)
    requires Reduced(path)
    ensures path != "" && path[0] != '/' && path[|path| - 1] != '/' &&
            '\\' !in path && ".." !in Split(path) && Normal(path) == path
  {
    var parts :| parts != [] && Segments(parts) && path == Join(parts);
    JoinClean(parts);
    SplitJoin(parts);
    KeptAll(parts);
  }

  /** No whitespace at either end and no drive letter: what trimming and the drive check would otherwise trip over. */
  predicate Settled(path: string) {
    && path != "" && !IsSpace(path[0]) && !IsSpace(path[|path| - 1])
    && !HasDrive(path)
  }

  lemma {:induction false} TrimShape(s: string)
    ensures |TrimLeft(s)| <= |s| && |TrimRight(s)| <= |s|
    ensures TrimLeft(s) == s <==> s == "" || !IsSpace(s[0])
    ensures TrimRight(s) == s <==> s == "" || !IsSpace(s[|s| - 1])
    ensures TrimLeft(s) != s ==> |TrimLeft(s)| < |s|
    ensures TrimRight(s) != s ==> |TrimRight(s)| < |s|
  {
    if s != "" {
      TrimShape(s[1..]);
      TrimShape(s[..|s| - 1]);
    }
  }

  /**
   An accepted path is accepted again, unchanged, exactly when it is settled: "./ a" is accepted as
   " a", and " a" as "a".
   */
  lemma SafeTwice(disk: Disk, value: string)
    requires Real(disk) && SafePath(disk, value, false).Safe?
    ensures var path := SafePath(disk, value, false).path;
            SafePath(disk, path, false) == Safe(path) <==> Settled(path)
  {
    var path := SafePath(disk, value, false).path;
    SafeIsReduced(disk, value);
    ReducedIsClean(path);
    TrimShape(path);
    TrimShape(TrimLeft(path));
    var text := Cleaned(path);
    if Settled(path) {
      assert text == path;
    } else if SafePath(disk, path, false) == Safe(path) && Kept(Split(text)) != [] {
      NormalIsNoLonger(text);
    }
  }

  lemma SafeIsNotAlwaysStable(disk: Disk)
    requires Real(disk) && disk.inside(disk.resolve(" a")) && disk.resolve(" a") != disk.root
    ensures SafePath(disk, "./ a", false) == Safe(" a") && SafePath(disk, " a", false) != Safe(" a")
  {
    var text := "./ a";
    TrimShape(text);
    assert Cleaned(text) == text;
    SpacedNormal();
    hide Split, Normal, Cleaned, TrimLeft, TrimRight;
    SafeTwice(disk, text);
  }

  lemma SpacedNormal()
    ensures Split("./ a") == [".", " a"] && Normal("./ a") == " a"
  {
    var text := "./ a";
    assert text == "." + "/" + " a";
    SplitAppend(".", " a");
    SplitAppend(" a", "");
    hide Split;
    assert [".", " a"][1..] == [" a"] && [" a"][1..] == [];
    assert Kept(Split(text)) == [" a"];
  }
}
