/**
 Comparing two version strings, and the precedence that section 11 of Semantic Versioning 2.0.0 defines.
 */
module SemVer {

  datatype Option<T> = None | Some(value: T)

  /** A parsed version: three runs of digits and the dot-separated prerelease identifiers, none for a release. */
  datatype Version = Version(major: string, minor: string, patch: string, prerelease: seq<string>)

  // ---- parsing ----

  predicate IsDigit(c: char) {
    '0' <= c <= '9'
  }

  predicate AllDigits(s: string) {
    s != "" && forall i :: 0 <= i < |s| ==> IsDigit(s[i])
  }

  predicate IsTagChar(c: char) {
    IsDigit(c) || 'A' <= c <= 'Z' || 'a' <= c <= 'z' || c == '-' || c == '.'
  }

  predicate AllTagChars(s: string) {
    s != "" && forall i :: 0 <= i < |s| ==> IsTagChar(s[i])
  }

  /** Where a character first occurs, or the length of the text. */
  function Find(s: string, c: char): (i: nat)
    ensures i <= |s| && (i < |s| ==> s[i] == c) && forall k :: 0 <= k < i ==> s[k] != c
  {
    if s == "" || s[0] == c then 0 else Find(s[1..], c) + 1
  }

  function Split(s: string): (r: seq<string>)
    ensures r != []
    decreases |s|
  {
    var i := Find(s, '.');
    if i == |s| then [s] else [s[..i]] + Split(s[i + 1..])
  }

  function Join(parts: seq<string>): string
    requires parts != []
  {
    if |parts| == 1 then parts[0] else parts[0] + "." + Join(parts[1..])
  }

  /** The text before the build part, unless the build part is malformed. */
  function WithoutBuild(text: string): Option<string> {
    var plus := Find(text, '+');
    if plus == |text| then Some(text)
    else if AllTagChars(text[plus + 1..]) then Some(text[..plus])
    else None
  }

  function Parse(text: string): Option<Version> {
    var rest := WithoutBuild(text);
    if rest.None? then None else ParseRest(rest.value)
  }

  /** Core and prerelease. */
  function ParseRest(rest: string): Option<Version> {
    var dash := Find(rest, '-');
    var core := Split(rest[..dash]);
    if |core| != 3 || !AllDigits(core[0]) || !AllDigits(core[1]) || !AllDigits(core[2]) then None
    else if dash == |rest| then Some(Version(core[0], core[1], core[2], []))
    else if AllTagChars(rest[dash + 1..]) then Some(Version(core[0], core[1], core[2], Split(rest[dash + 1..])))
    else None
  }

  function CoreText(v: Version): string {
    v.major + "." + v.minor + "." + v.patch
  }

  function TagText(v: Version): string {
    if v.prerelease == [] then "" else "-" + Join(v.prerelease)
  }

  function Print(v: Version): string {
    CoreText(v) + TagText(v)
  }

  predicate IsIdentifier(s: string) {
    forall i :: 0 <= i < |s| ==> IsTagChar(s[i]) && s[i] != '.'
  }

  /** The versions that texts stand for. One empty identifier alone cannot be written; among others it can. */
  predicate WellFormed(v: Version) {
    && AllDigits(v.major) && AllDigits(v.minor) && AllDigits(v.patch)
    && (forall i :: 0 <= i < |v.prerelease| ==> IsIdentifier(v.prerelease[i]))
    && v.prerelease != [""]
  }

  predicate IsBuild(s: string) {
    s == "" || (s[0] == '+' && AllTagChars(s[1..]))
  }

  lemma FindAt(s: string, c: char, i: nat)
    requires i <= |s| && (forall k :: 0 <= k < i ==> s[k] != c) && (i < |s| ==> s[i] == c)
    ensures Find(s, c) == i
  {
  }

  lemma {:induction false} SplitParts(s: string)
    ensures Join(Split(s)) == s
    ensures forall k :: 0 <= k < |Split(s)| ==> '.' !in Split(s)[k] && forall c :: c in Split(s)[k] ==> c in s
    decreases |s|
  {
    var i := Find(s, '.');
    if i < |s| {
      SplitParts(s[i + 1..]);
      assert s == s[..i] + "." + s[i + 1..];
    }
  }

  lemma {:induction false} SplitJoin(parts: seq<string>)
    requires parts != [] && forall k :: 0 <= k < |parts| ==> '.' !in parts[k]
    ensures Split(Join(parts)) == parts
  {
    var first, s := parts[0], Join(parts);
    if |parts| == 1 {
      FindAt(s, '.', |s|);
    } else {
      assert s[..|first|] == first && s[|first| + 1..] == Join(parts[1..]);
      FindAt(s, '.', |first|);
      SplitJoin(parts[1..]);
    }
  }

  lemma JoinThree(parts: seq<string>)
    requires |parts| == 3
    ensures Join(parts) == parts[0] + "." + parts[1] + "." + parts[2]
  {
    var rest := parts[1..];
    assert rest[1..] == [parts[2]];
    assert Join(rest) == parts[1] + "." + parts[2];
    assert Join(parts) == parts[0] + "." + Join(rest);
    assert parts[0] + "." + (parts[1] + "." + parts[2]) == parts[0] + "." + parts[1] + "." + parts[2];
  }

  /** A text that is accepted is its version written out, and a build part. */
  lemma ParsedIsPrinted(text: string)
    requires Parse(text).Some?
    ensures WellFormed(Parse(text).value)
    ensures exists build :: IsBuild(build) && text == Print(Parse(text).value) + build
  {
    var rest := WithoutBuild(text).value;
    RestIsPrinted(rest);
    WithoutBuildIs(text);
  }

  lemma WithoutBuildIs(text: string)
    requires WithoutBuild(text).Some?
    ensures var rest := WithoutBuild(text).value;
            |rest| <= |text| && text == rest + text[|rest|..] && IsBuild(text[|rest|..])
  {
    var plus := Find(text, '+');
    if plus < |text| { assert text[plus..][1..] == text[plus + 1..]; }
  }

  lemma RestIsPrinted(rest: string)
    requires ParseRest(rest).Some?
    ensures WellFormed(ParseRest(rest).value) && Print(ParseRest(rest).value) == rest
  {
    hide Split, Join, AllDigits, AllTagChars, IsIdentifier, Print;
    var v, dash := ParseRest(rest).value, Find(rest, '-');
    SplitParts(rest[..dash]);
    JoinThree(Split(rest[..dash]));
    assert CoreText(v) == rest[..dash];
    if dash < |rest| {
      var tag := rest[dash + 1..];
      SplitParts(tag);
      PrereleaseIsWellFormed(tag);
      assert TagText(v) == "-" + tag;
      PrintIs(v, rest, dash);
    } else {
      PrintIs(v, rest, dash);
    }
  }

  lemma PrintIs(v: Version, rest: string, dash: nat)
    requires dash <= |rest| && CoreText(v) == rest[..dash]
    requires if dash < |rest| then rest[dash] == '-' && TagText(v) == "-" + rest[dash + 1..] else TagText(v) == ""
    ensures Print(v) == rest
  {
    hide CoreText, TagText;
    if dash < |rest| { assert rest == rest[..dash] + ("-" + rest[dash + 1..]); }
  }

  lemma PrereleaseIsWellFormed(s: string)
    requires AllTagChars(s)
    ensures Split(s) != [""] && forall i :: 0 <= i < |Split(s)| ==> IsIdentifier(Split(s)[i])
  {
    SplitParts(s);
    hide Split;
    if |Split(s)| == 1 { assert Split(s)[0] == Join(Split(s)) == s; }
    forall i | 0 <= i < |Split(s)| ensures IsIdentifier(Split(s)[i]) {
      var part := Split(s)[i];
      forall k | 0 <= k < |part| ensures IsTagChar(part[k]) && part[k] != '.' {
        assert part[k] in s && part[k] in part;
      }
    }
  }

  /** Every version written out, with any build part, is accepted and read back. */
  lemma PrintedIsParsed(v: Version, build: string)
    requires WellFormed(v) && IsBuild(build)
    ensures Parse(Print(v) + build) == Some(v)
  {
    hide Split, Join, Find, AllDigits;
    var core, tag := CoreText(v), TagText(v);
    var rest := core + tag;
    CoreIsPlain(v);
    TagIsPlain(v);
    assert Print(v) + build == rest + build;
    PlainRest(rest, build);
    assert forall k :: 0 <= k < |core| ==> rest[k] == core[k];
    if tag != "" { assert rest[|core|] == tag[0]; }
    FindAt(rest, '-', |core|);
    assert rest[..|core|] == core;
    if v.prerelease != [] { assert rest[|core| + 1..] == Join(v.prerelease); }
  }

  lemma PlainRest(rest: string, build: string)
    requires IsBuild(build) && forall k :: 0 <= k < |rest| ==> rest[k] != '+'
    ensures WithoutBuild(rest + build) == Some(rest)
  {
    var text := rest + build;
    FindAt(text, '+', |rest|);
    assert text[..|rest|] == rest;
    if build != "" { assert text[|rest| + 1..] == build[1..]; } else { assert text == rest; }
  }

  lemma CoreIsPlain(v: Version)
    requires WellFormed(v)
    ensures Split(CoreText(v)) == [v.major, v.minor, v.patch]
    ensures forall k :: 0 <= k < |CoreText(v)| ==> CoreText(v)[k] != '+' && CoreText(v)[k] != '-'
  {
    hide Join, Split;
    var parts := [v.major, v.minor, v.patch];
    JoinThree(parts);
    SplitJoin(parts);
  }

  lemma TagIsPlain(v: Version)
    requires WellFormed(v)
    ensures v.prerelease != [] ==> AllTagChars(Join(v.prerelease)) && Split(Join(v.prerelease)) == v.prerelease
    ensures forall k :: 0 <= k < |TagText(v)| ==> TagText(v)[k] != '+'
    ensures TagText(v) == "" || TagText(v)[0] == '-'
  {
    if v.prerelease != [] { JoinedIsTag(v.prerelease); }
  }

  lemma JoinedIsTag(parts: seq<string>)
    requires parts != [] && parts != [""] && forall i :: 0 <= i < |parts| ==> IsIdentifier(parts[i])
    ensures AllTagChars(Join(parts)) && Split(Join(parts)) == parts
  {
    JoinChars(parts);
    SplitJoin(parts);
  }

  lemma {:induction false} JoinChars(parts: seq<string>)
    requires parts != [] && forall i :: 0 <= i < |parts| ==> IsIdentifier(parts[i])
    ensures forall k :: 0 <= k < |Join(parts)| ==> IsTagChar(Join(parts)[k])
    ensures Join(parts) == "" ==> parts == [""]
  {
    if |parts| > 1 { JoinChars(parts[1..]); }
  }

  // ---- comparing ----

  function ValueOf(digits: string): nat
    requires forall i :: 0 <= i < |digits| ==> IsDigit(digits[i])
  {
    if digits == "" then 0
    else
      var last := digits[|digits| - 1];
      assert IsDigit(last);
      10 * ValueOf(digits[..|digits| - 1]) + (last as int - '0' as int)
  }

  /** The number a run of digits converts to. */
  function NumberOf(number: nat -> real, digits: string): real {
    if AllDigits(digits) then number(ValueOf(digits)) else 0.0
  }

  const EXACT: nat := 0x20_0000_0000_0000

  /** A larger number never converts to a smaller double. */
  ghost predicate IsMonotone(number: nat -> real) {
    forall a: nat, b: nat :: a <= b ==> number(a) <= number(b)
  }

  /** Conversion to a double keeps the order, and keeps apart what it can hold exactly. */
  ghost predicate Rounds(number: nat -> real) {
    && IsMonotone(number)
    && (forall a: nat, b: nat :: a < b <= EXACT ==> number(a) < number(b))
  }

  predicate Less(s: string, t: string) {
    t != "" && (s == "" || s[0] < t[0] || (s[0] == t[0] && Less(s[1..], t[1..])))
  }

  function CompareNumbers(number: nat -> real, a: seq<string>, b: seq<string>): int
    requires |a| == |b|
  {
    if a == [] then 0
    else if NumberOf(number, a[0]) != NumberOf(number, b[0]) then
      (if NumberOf(number, a[0]) < NumberOf(number, b[0]) then -1 else 1)
    else CompareNumbers(number, a[1..], b[1..])
  }

  /** Two identifiers that differ. */
  function CompareId(number: nat -> real, x: string, y: string): int {
    if AllDigits(x) && AllDigits(y) then (if NumberOf(number, x) < NumberOf(number, y) then -1 else 1)
    else if AllDigits(x) != AllDigits(y) then (if AllDigits(x) then -1 else 1)
    else if Less(x, y) then -1 else 1
  }

  function CompareIds(number: nat -> real, a: seq<string>, b: seq<string>): int {
    if a == [] && b == [] then 0
    else if a == [] then -1
    else if b == [] then 1
    else if a[0] == b[0] then CompareIds(number, a[1..], b[1..])
    else CompareId(number, a[0], b[0])
  }

  function Core(v: Version): (r: seq<string>)
    ensures |r| == 3
  {
    [v.major, v.minor, v.patch]
  }

  function Compare(number: nat -> real, a: Version, b: Version): int {
    var core := CompareNumbers(number, Core(a), Core(b));
    if core != 0 then core
    else if a.prerelease == [] || b.prerelease == [] then
      (if |a.prerelease| == |b.prerelease| then 0 else if a.prerelease != [] then -1 else 1)
    else CompareIds(number, a.prerelease, b.prerelease)
  }

  method CompareVersions(number: nat -> real, left: string, right: string) returns (r: Option<int>)
    ensures r.None? <==> Parse(left).None? || Parse(right).None?
    ensures r.Some? ==> r.value == Compare(number, Parse(left).value, Parse(right).value)
  {
    hide Parse;
    if Parse(left).None? || Parse(right).None? { return None; }
    var a, b := Parse(left).value, Parse(right).value;
    var core := CompareCores(number, Core(a), Core(b));
    if core != 0 { return Some(core); }
    if a.prerelease == [] || b.prerelease == [] {
      return Some(if |a.prerelease| == |b.prerelease| then 0 else if a.prerelease != [] then -1 else 1);
    }
    var ids := ComparePrereleases(number, a.prerelease, b.prerelease);
    return Some(ids);
  }

  method CompareCores(number: nat -> real, a: seq<string>, b: seq<string>) returns (r: int)
    requires |a| == |b|
    ensures r == CompareNumbers(number, a, b)
  {
    for i := 0 to |a|
      invariant CompareNumbers(number, a, b) == CompareNumbers(number, a[i..], b[i..])
    {
      if NumberOf(number, a[i]) != NumberOf(number, b[i]) {
        return if NumberOf(number, a[i]) < NumberOf(number, b[i]) then -1 else 1;
      }
    }
    return 0;
  }

  method ComparePrereleases(number: nat -> real, a: seq<string>, b: seq<string>) returns (r: int)
    ensures r == CompareIds(number, a, b)
  {
    for i := 0 to if |a| > |b| then |a| else |b|
      invariant i <= |a| && i <= |b|
      invariant CompareIds(number, a, b) == CompareIds(number, a[i..], b[i..])
    {
      if i == |a| { return -1; }
      if i == |b| { return 1; }
      if a[i] == b[i] { continue; }
      return CompareId(number, a[i], b[i]);
    }
    return 0;
  }

  // ---- order ----

  lemma {:induction false} LessIsStrict(s: string, t: string)
    ensures !(Less(s, t) && Less(t, s)) && !Less(s, s) && (s != t ==> Less(s, t) || Less(t, s))
  {
    if s != "" && t != "" {
      LessIsStrict(s[1..], t[1..]);
      if s[0] == t[0] && s[1..] == t[1..] { assert s == [s[0]] + s[1..] == t; }
    }
    if s != "" { LessIsStrict(s[1..], s[1..]); }
  }

  lemma {:induction false} LessIsTransitive(s: string, t: string, u: string)
    requires Less(s, t) && Less(t, u)
    ensures Less(s, u)
  {
    if s != "" && s[0] == t[0] == u[0] { LessIsTransitive(s[1..], t[1..], u[1..]); }
  }

  lemma {:induction false} NumbersAreAntisymmetric(number: nat -> real, a: seq<string>, b: seq<string>)
    requires |a| == |b|
    ensures CompareNumbers(number, a, b) == -CompareNumbers(number, b, a)
  {
    if a != [] { NumbersAreAntisymmetric(number, a[1..], b[1..]); }
  }

  lemma {:induction false} NumbersAreTransitive(number: nat -> real, a: seq<string>, b: seq<string>, c: seq<string>)
    requires |a| == |b| == |c| && CompareNumbers(number, a, b) <= 0 && CompareNumbers(number, b, c) <= 0
    ensures CompareNumbers(number, a, c) <= 0
    ensures CompareNumbers(number, a, c) == 0 ==> CompareNumbers(number, a, b) == 0 && CompareNumbers(number, b, c) == 0
    ensures CompareNumbers(number, a, b) == 0 && CompareNumbers(number, b, c) == 0 ==> CompareNumbers(number, a, c) == 0
  {
    if a != [] && NumberOf(number, a[0]) == NumberOf(number, b[0]) == NumberOf(number, c[0]) {
      NumbersAreTransitive(number, a[1..], b[1..], c[1..]);
    }
  }

  /** The first identifiers that differ are both numeric and convert to the same number, as "01" and "1" do. */
  predicate IdsClash(number: nat -> real, a: seq<string>, b: seq<string>) {
    && a != [] && b != []
    && if a[0] == b[0] then IdsClash(number, a[1..], b[1..])
       else AllDigits(a[0]) && AllDigits(b[0]) && NumberOf(number, a[0]) == NumberOf(number, b[0])
  }

  predicate Clash(number: nat -> real, a: Version, b: Version) {
    CompareNumbers(number, Core(a), Core(b)) == 0 && IdsClash(number, a.prerelease, b.prerelease)
  }

  lemma {:induction false} IdsAntisymmetricIff(number: nat -> real, a: seq<string>, b: seq<string>)
    ensures CompareIds(number, a, b) == -CompareIds(number, b, a) <==> !IdsClash(number, a, b)
    ensures IdsClash(number, a, b) ==> CompareIds(number, a, b) == 1 && CompareIds(number, b, a) == 1
  {
    if a != [] && b != [] {
      if a[0] == b[0] {
        IdsAntisymmetricIff(number, a[1..], b[1..]);
      } else {
        LessIsStrict(a[0], b[0]);
      }
    }
  }

  lemma {:induction false} IdsAreReflexive(number: nat -> real, a: seq<string>)
    ensures CompareIds(number, a, a) == 0
  {
    if a != [] { IdsAreReflexive(number, a[1..]); }
  }

  lemma {:induction false} IdsAreTransitive(number: nat -> real, a: seq<string>, b: seq<string>, c: seq<string>)
    requires CompareIds(number, a, b) <= 0 && CompareIds(number, b, c) <= 0
    ensures CompareIds(number, a, c) <= 0
  {
    if a != [] && b != [] && c != [] {
      if a[0] == b[0] == c[0] {
        IdsAreTransitive(number, a[1..], b[1..], c[1..]);
      } else if a[0] != b[0] && b[0] != c[0] {
        IdIsTransitive(number, a[0], b[0], c[0]);
      }
    }
  }

  lemma IdIsTransitive(number: nat -> real, x: string, y: string, z: string)
    requires CompareId(number, x, y) < 0 && CompareId(number, y, z) < 0
    ensures x != z && CompareId(number, x, z) < 0
  {
    LessIsStrict(x, y);
    if Less(x, y) && Less(y, z) { LessIsTransitive(x, y, z); }
  }

  lemma CompareIsReflexive(number: nat -> real, v: Version)
    ensures Compare(number, v, v) == 0
  {
    NumbersAreAntisymmetric(number, Core(v), Core(v));
    IdsAreReflexive(number, v.prerelease);
  }

  lemma CompareIsTransitive(number: nat -> real, a: Version, b: Version, c: Version)
    requires Compare(number, a, b) <= 0 && Compare(number, b, c) <= 0
    ensures Compare(number, a, c) <= 0
  {
    NumbersAreTransitive(number, Core(a), Core(b), Core(c));
    if a.prerelease != [] && b.prerelease != [] && c.prerelease != [] &&
       CompareIds(number, a.prerelease, b.prerelease) <= 0 && CompareIds(number, b.prerelease, c.prerelease) <= 0 {
      IdsAreTransitive(number, a.prerelease, b.prerelease, c.prerelease);
    }
  }

  /**
   Swapping the arguments flips the sign exactly when the versions do not clash; when they do, each is called
   the greater.
   */
  lemma CompareIsAntisymmetricIff(number: nat -> real, a: Version, b: Version)
    ensures Compare(number, a, b) == -Compare(number, b, a) <==> !Clash(number, a, b)
    ensures Clash(number, a, b) ==> Compare(number, a, b) == 1 && Compare(number, b, a) == 1
  {
    NumbersAreAntisymmetric(number, Core(a), Core(b));
    IdsAntisymmetricIff(number, a.prerelease, b.prerelease);
  }

  lemma LeadingZeroClashes(number: nat -> real)
    ensures Compare(number, Version("1", "0", "0", ["01"]), Version("1", "0", "0", ["1"])) == 1
    ensures Compare(number, Version("1", "0", "0", ["1"]), Version("1", "0", "0", ["01"])) == 1
  {
    var a, b := Version("1", "0", "0", ["01"]), Version("1", "0", "0", ["1"]);
    assert "01"[..1] == "0" && "0"[..0] == "" && "1"[..0] == "";
    assert ValueOf("01") == ValueOf("1");
    assert AllDigits("01") && AllDigits("1");
    NumbersAreAntisymmetric(number, Core(a), Core(a));
    CompareIsAntisymmetricIff(number, a, b);
  }

  // ---- section 11 ----

  datatype Id = Numeric(n: nat) | Alpha(s: string)

  function IdOf(s: string): Id {
    if AllDigits(s) then Numeric(ValueOf(s)) else Alpha(s)
  }

  /** Numeric identifiers numerically, others in ASCII order, numeric ones below others. */
  function IdPrecedence(x: Id, y: Id): int {
    match (x, y)
    case (Numeric(n), Numeric(m)) => if n < m then -1 else if n > m then 1 else 0
    case (Numeric(_), Alpha(_)) => -1
    case (Alpha(_), Numeric(_)) => 1
    case (Alpha(s), Alpha(t)) => if Less(s, t) then -1 else if Less(t, s) then 1 else 0
  }

  /** The first identifiers that differ decide; a longer list of otherwise equal ones is higher. */
  function IdsPrecedence(a: seq<string>, b: seq<string>): int {
    if a == [] && b == [] then 0
    else if a == [] then -1
    else if b == [] then 1
    else
      var first := IdPrecedence(IdOf(a[0]), IdOf(b[0]));
      if first != 0 then first else IdsPrecedence(a[1..], b[1..])
  }

  function NumericPrecedence(a: nat, b: nat): int {
    if a < b then -1 else if a > b then 1 else 0
  }

  /** Major, minor and patch numerically; a prerelease below its release; then the identifiers. */
  function Precedence(a: Version, b: Version): int
    requires WellFormed(a) && WellFormed(b)
  {
    var major := NumericPrecedence(ValueOf(a.major), ValueOf(b.major));
    var minor := NumericPrecedence(ValueOf(a.minor), ValueOf(b.minor));
    var patch := NumericPrecedence(ValueOf(a.patch), ValueOf(b.patch));
    if major != 0 then major else if minor != 0 then minor else if patch != 0 then patch
    else if a.prerelease == [] && b.prerelease == [] then 0
    else if a.prerelease == [] then 1
    else if b.prerelease == [] then -1
    else IdsPrecedence(a.prerelease, b.prerelease)
  }

  /** No leading zero, as section 9 requires of numeric identifiers. */
  predicate IsCanonical(s: string) {
    AllDigits(s) ==> s == "0" || s[0] != '0'
  }

  /** Every number in the version is one a double holds exactly. */
  predicate IsSmall(v: Version)
    requires WellFormed(v)
  {
    && ValueOf(v.major) <= EXACT && ValueOf(v.minor) <= EXACT && ValueOf(v.patch) <= EXACT
    && forall i :: 0 <= i < |v.prerelease| && AllDigits(v.prerelease[i]) ==> ValueOf(v.prerelease[i]) <= EXACT
  }

  predicate HasCanonicalIds(v: Version) {
    forall i :: 0 <= i < |v.prerelease| ==> IsCanonical(v.prerelease[i])
  }

  lemma {:induction false} ValueIsPositive(s: string)
    requires AllDigits(s) && s[0] != '0'
    ensures ValueOf(s) > 0
  {
    if |s| > 1 { ValueIsPositive(s[..|s| - 1]); } else { assert s[..0] == ""; }
  }

  /** Without leading zeros, different digits are different numbers. */
  lemma {:induction false} CanonicalDiffers(x: string, y: string)
    requires AllDigits(x) && AllDigits(y) && IsCanonical(x) && IsCanonical(y) && ValueOf(x) == ValueOf(y)
    ensures x == y
    decreases |x|
  {
    if |x| > 1 { ValueIsPositive(x[..|x| - 1]); } else { assert x[..|x| - 1] == ""; }
    if |y| > 1 { ValueIsPositive(y[..|y| - 1]); } else { assert y[..|y| - 1] == ""; }
    if |x| > 1 && |y| > 1 {
      CanonicalDiffers(x[..|x| - 1], y[..|y| - 1]);
    }
    assert x == x[..|x| - 1] + [x[|x| - 1]] && y == y[..|y| - 1] + [y[|y| - 1]];
  }

  /** Of the first core numbers that differ, the doubles do not. */
  predicate Blurs(number: nat -> real, a: Version, b: Version)
    requires WellFormed(a) && WellFormed(b)
  {
    if ValueOf(a.major) != ValueOf(b.major) then NumberOf(number, a.major) == NumberOf(number, b.major)
    else if ValueOf(a.minor) != ValueOf(b.minor) then NumberOf(number, a.minor) == NumberOf(number, b.minor)
    else ValueOf(a.patch) != ValueOf(b.patch) && NumberOf(number, a.patch) == NumberOf(number, b.patch)
  }

  lemma {:induction false} IdsPrecedenceFlips(a: seq<string>, b: seq<string>)
    ensures IdsPrecedence(a, b) == -IdsPrecedence(b, a)
  {
    if a != [] && b != [] {
      LessIsStrict(a[0], b[0]);
      IdsPrecedenceFlips(a[1..], b[1..]);
    }
  }

  lemma IdAgrees(number: nat -> real, x: string, y: string)
    requires IsMonotone(number) && x != y
    requires AllDigits(x) && AllDigits(y) ==> NumberOf(number, x) != NumberOf(number, y)
    ensures IdPrecedence(IdOf(x), IdOf(y)) == CompareId(number, x, y) != 0
  {
    LessIsStrict(x, y);
  }

  lemma IdIsItself(x: string)
    ensures IdPrecedence(IdOf(x), IdOf(x)) == 0
  {
    LessIsStrict(x, x);
  }

  lemma {:induction false} IdsAgree(number: nat -> real, a: seq<string>, b: seq<string>)
    requires IsMonotone(number) && !IdsClash(number, a, b)
    ensures CompareIds(number, a, b) == IdsPrecedence(a, b)
  {
    if a != [] && b != [] {
      if a[0] == b[0] {
        IdIsItself(a[0]);
        IdsAgree(number, a[1..], b[1..]);
      } else {
        IdAgrees(number, a[0], b[0]);
      }
    }
  }

  lemma {:induction false} IdsClashBothWays(number: nat -> real, a: seq<string>, b: seq<string>)
    ensures IdsClash(number, a, b) == IdsClash(number, b, a)
  {
    if a != [] && b != [] && a[0] == b[0] { IdsClashBothWays(number, a[1..], b[1..]); }
  }

  /**
   Where the core does not blur, the comparison of two versions is their precedence of section 11, either way
   round, exactly when they do not clash.
   */
  lemma CompareIsPrecedenceIff(number: nat -> real, a: Version, b: Version)
    requires IsMonotone(number) && WellFormed(a) && WellFormed(b) && !Blurs(number, a, b)
    ensures Compare(number, a, b) == Precedence(a, b) && Compare(number, b, a) == Precedence(b, a)
            <==> !Clash(number, a, b)
  {
    CompareIsAntisymmetricIff(number, a, b);
    IdsPrecedenceFlips(a.prerelease, b.prerelease);
    IdsClashBothWays(number, a.prerelease, b.prerelease);
    if !IdsClash(number, a.prerelease, b.prerelease) {
      IdsAgree(number, a.prerelease, b.prerelease);
      IdsAgree(number, b.prerelease, a.prerelease);
    }
    hide ValueOf, AllDigits, CompareIds, IdsPrecedence, IdsClash;
    CoreIs(number, a, b);
    CoreIs(number, b, a);
    OneNumber(number, a.major, b.major);
    OneNumber(number, a.minor, b.minor);
    OneNumber(number, a.patch, b.patch);
    hide IsMonotone, NumberOf, CompareNumbers;
  }

  /** Two different numbers that round to the same double make equal versions, which section 11 orders. */
  lemma BlurredMajorsCompareEqual(number: nat -> real, a: Version, major: string)
    requires WellFormed(a) && AllDigits(major)
    requires ValueOf(a.major) < ValueOf(major) && NumberOf(number, a.major) == NumberOf(number, major)
    ensures Compare(number, a, a.(major := major)) == 0
    ensures Precedence(a, a.(major := major)) == -1
  {
    CoreIs(number, a, a.(major := major));
    IdsAreReflexive(number, a.prerelease);
  }

  /** Without leading zeros in numeric identifiers and with every number exact, nothing blurs or clashes. */
  lemma CompareIsPrecedence(number: nat -> real, a: Version, b: Version)
    requires Rounds(number) && WellFormed(a) && WellFormed(b)
    requires HasCanonicalIds(a) && HasCanonicalIds(b) && IsSmall(a) && IsSmall(b)
    ensures Compare(number, a, b) == Precedence(a, b)
    ensures !Blurs(number, a, b) && !Clash(number, a, b)
  {
    IdsNeverClash(number, a.prerelease, b.prerelease);
    CompareIsPrecedenceIff(number, a, b);
  }

  /** The three numbers, one after the other. */
  lemma CoreIs(number: nat -> real, a: Version, b: Version)
    ensures CompareNumbers(number, Core(a), Core(b)) ==
      if NumberOf(number, a.major) != NumberOf(number, b.major) then
        (if NumberOf(number, a.major) < NumberOf(number, b.major) then -1 else 1)
      else if NumberOf(number, a.minor) != NumberOf(number, b.minor) then
        (if NumberOf(number, a.minor) < NumberOf(number, b.minor) then -1 else 1)
      else if NumberOf(number, a.patch) != NumberOf(number, b.patch) then
        (if NumberOf(number, a.patch) < NumberOf(number, b.patch) then -1 else 1)
      else 0
  {
    hide NumberOf;
    var x, y := [a.minor, a.patch], [b.minor, b.patch];
    assert Core(a)[1..] == x && Core(b)[1..] == y;
    assert x[1..] == [a.patch] && y[1..] == [b.patch] && [a.patch][1..] == [] && [b.patch][1..] == [];
    assert CompareNumbers(number, [], []) == 0;
    assert CompareNumbers(number, [a.patch], [b.patch]) == 0 || NumberOf(number, a.patch) != NumberOf(number, b.patch);
    assert NumberOf(number, a.minor) == NumberOf(number, b.minor) ==>
      CompareNumbers(number, x, y) == CompareNumbers(number, [a.patch], [b.patch]);
  }

  lemma OneNumber(number: nat -> real, x: string, y: string)
    requires IsMonotone(number) && AllDigits(x) && AllDigits(y)
    ensures NumberOf(number, x) < NumberOf(number, y) ==> ValueOf(x) < ValueOf(y)
    ensures NumberOf(number, x) > NumberOf(number, y) ==> ValueOf(x) > ValueOf(y)
  {
  }

  lemma {:induction false} IdsNeverClash(number: nat -> real, a: seq<string>, b: seq<string>)
    requires Rounds(number)
    requires forall i :: 0 <= i < |a| ==> IsCanonical(a[i]) && (AllDigits(a[i]) ==> ValueOf(a[i]) <= EXACT)
    requires forall i :: 0 <= i < |b| ==> IsCanonical(b[i]) && (AllDigits(b[i]) ==> ValueOf(b[i]) <= EXACT)
    ensures !IdsClash(number, a, b)
  {
    if a != [] && b != [] {
      if a[0] == b[0] {
        IdsNeverClash(number, a[1..], b[1..]);
      } else if AllDigits(a[0]) && AllDigits(b[0]) {
        if ValueOf(a[0]) == ValueOf(b[0]) { CanonicalDiffers(a[0], b[0]); }
      }
    }
  }
}
