/**
 Reading the central directory and the stored entries of a ZIP file.
 */
module ZipDirectory {

  type Byte = b: int | 0 <= b < 256 witness 0

  type Bytes = seq<Byte>

  datatype Entry = Entry(name: Bytes, comp: nat, uncomp: nat, method_: nat, local: nat)

  datatype Error = NoEndRecord | CorruptEntry(index: nat) | OutOfRange | CorruptLocalHeader | Unsupported(method_: nat)

  datatype Result<T> = Ok(value: T) | Err(error: Error)

  const END_SIGNATURE := 0x06054b50
  const ENTRY_SIGNATURE := 0x02014b50
  const LOCAL_SIGNATURE := 0x04034b50

  function U16(buf: Bytes, off: nat): nat
    requires off + 2 <= |buf|
  {
    var low: int, high: int := buf[off], buf[off + 1];
    low + 0x100 * high
  }

  function U32(buf: Bytes, off: nat): nat
    requires off + 4 <= |buf|
  {
    U16(buf, off) + 0x1_0000 * U16(buf, off + 2)
  }

  /** The part of a buffer from `from` to `to`, as far as the buffer goes. */
  function Part(buf: Bytes, from: nat, to: nat): Bytes
    requires from <= to
  {
    if to <= |buf| then buf[from..to] else if from <= |buf| then buf[from..] else []
  }

  // ---- reading ----

  predicate InReach(buf: Bytes, i: int) {
    0 <= i <= |buf| - 22 && i > |buf| - 65558
  }

  /** The last end-of-directory signature within reach of the end of the file. */
  predicate IsEnd(buf: Bytes, end: int) {
    && InReach(buf, end) && U32(buf, end) == END_SIGNATURE
    && forall i :: end < i <= |buf| - 22 ==> U32(buf, i) != END_SIGNATURE
  }

  /** The entry at an offset and the offset after it. */
  function ReadEntry(buf: Bytes, off: nat, index: nat): Result<(Entry, nat)> {
    if off + 4 > |buf| then Err(OutOfRange)
    else if U32(buf, off) != ENTRY_SIGNATURE then Err(CorruptEntry(index))
    else if off + 46 > |buf| then Err(OutOfRange)
    else
      var nameLen, extraLen, commentLen := U16(buf, off + 28), U16(buf, off + 30), U16(buf, off + 32);
      Ok((Entry(Part(buf, off + 46, off + 46 + nameLen), U32(buf, off + 20), U32(buf, off + 24), U16(buf, off + 10),
                U32(buf, off + 42)),
          off + 46 + nameLen + extraLen + commentLen))
  }

  function ReadEntries(buf: Bytes, off: nat, index: nat, count: nat): Result<seq<Entry>>
    decreases count - index
  {
    if index >= count then Ok([])
    else
      var first := ReadEntry(buf, off, index);
      if first.Err? then Err(first.error)
      else
        var rest := ReadEntries(buf, first.value.1, index + 1, count);
        After([first.value.0], rest)
  }

  function ReadDirectory(buf: Bytes, end: nat): Result<seq<Entry>>
    requires end + 22 <= |buf|
  {
    ReadEntries(buf, U32(buf, end + 16), 0, U16(buf, end + 10))
  }

  method ZipEntries(buf: Bytes) returns (r: Result<seq<Entry>>)
    ensures r == Err(NoEndRecord) <==> forall end :: !IsEnd(buf, end)
    ensures forall end :: IsEnd(buf, end) ==> r == ReadDirectory(buf, end)
  {
    var end := FindEnd(buf);
    if end < 0 { return Err(NoEndRecord); }
    assert IsEnd(buf, end);
    OneEnd(buf, end);
    hide IsEnd, U16, U32, ReadEntries, ReadEntry;
    r := ReadAll(buf, U32(buf, end + 16), U16(buf, end + 10));
  }

  /** Search backward for the end record. */
  method FindEnd(buf: Bytes) returns (end: int)
    ensures if end < 0 then forall e :: !IsEnd(buf, e) else IsEnd(buf, end)
  {
    hide U32;
    end := -1;
    var i := |buf| - 22;
    while i >= 0 && i > |buf| - 65558
      invariant i <= |buf| - 22
      invariant forall k :: i < k <= |buf| - 22 && k >= 0 ==> U32(buf, k) != END_SIGNATURE
    {
      if U32(buf, i) == END_SIGNATURE { return i; }
      i := i - 1;
    }
  }

  lemma OneEnd(buf: Bytes, end: int)
    requires IsEnd(buf, end)
    ensures forall other :: IsEnd(buf, other) ==> other == end
  {
    hide U32;
    forall other | IsEnd(buf, other) ensures other == end {
      assert U32(buf, other) == U32(buf, end);
    }
  }

  method ReadAll(buf: Bytes, start: nat, count: nat) returns (r: Result<seq<Entry>>)
    ensures r == ReadEntries(buf, start, 0, count) && r != Err(NoEndRecord)
  {
    hide ReadEntry;
    var out: seq<Entry>, off := [], start;
    AfterNone(ReadEntries(buf, start, 0, count));
    for n := 0 to count
      invariant ReadEntries(buf, start, 0, count) == After(out, ReadEntries(buf, off, n, count))
    {
      var entry := ReadEntry(buf, off, n);
      if entry.Err? {
        ErrorsNeverNameTheEnd(buf, off, n);
        return Err(entry.error);
      }
      AfterOne(out, entry.value.0, ReadEntries(buf, entry.value.1, n + 1, count));
      out, off := out + [entry.value.0], entry.value.1;
    }
    assert out + [] == out;
    r := Ok(out);
  }

  lemma AfterNone(rest: Result<seq<Entry>>)
    ensures After([], rest) == rest
  {
    if rest.Ok? { assert [] + rest.value == rest.value; }
  }

  lemma AfterOne(out: seq<Entry>, entry: Entry, rest: Result<seq<Entry>>)
    ensures After(out, After([entry], rest)) == After(out + [entry], rest)
  {
    if rest.Ok? { assert out + ([entry] + rest.value) == (out + [entry]) + rest.value; }
  }

  function After(out: seq<Entry>, rest: Result<seq<Entry>>): Result<seq<Entry>> {
    if rest.Err? then rest else Ok(out + rest.value)
  }

  lemma ErrorsNeverNameTheEnd(buf: Bytes, off: nat, index: nat)
    ensures ReadEntry(buf, off, index) != Err(NoEndRecord)
  {
  }

  /** The bytes of a stored entry; decompression is not part of this model. */
  function EntryData(buf: Bytes, e: Entry): Result<Bytes> {
    if e.local + 4 > |buf| then Err(OutOfRange)
    else if U32(buf, e.local) != LOCAL_SIGNATURE then Err(CorruptLocalHeader)
    else if e.local + 30 > |buf| then Err(OutOfRange)
    else
      var start := e.local + 30 + U16(buf, e.local + 26) + U16(buf, e.local + 28);
      if e.method_ == 0 then Ok(Part(buf, start, start + e.comp)) else Err(Unsupported(e.method_))
  }

  // ---- writing, as sections 4.3.7, 4.3.12 and 4.3.16 of the PKWARE APPNOTE lay files out ----

  function Le2(n: nat): (r: Bytes)
    requires n < 0x1_0000
    ensures |r| == 2 && U16(r, 0) == n
  {
    [n % 0x100, n / 0x100]
  }

  function Le4(n: nat): (r: Bytes)
    requires n < 0x1_0000_0000
    ensures |r| == 4 && U32(r, 0) == n
  {
    var r := Le2(n % 0x1_0000) + Le2(n / 0x1_0000);
    assert r[0] == Le2(n % 0x1_0000)[0] && r[1] == Le2(n % 0x1_0000)[1] && r[2] == Le2(n / 0x1_0000)[0] &&
      r[3] == Le2(n / 0x1_0000)[1];
    r
  }

  /**
   One file of an archive. The fields the reader never looks at are left open: versions, flags, times,
   checksums and attributes, the local header's own name, extra field and sizes, and what follows the data.
   */
  datatype Member = Member(
    name: Bytes, extra: Bytes, comment: Bytes, method_: nat, uncomp: nat, data: Bytes,
    versions: Bytes, times: Bytes, attributes: Bytes,
    localName: Bytes, localExtra: Bytes, localVersions: Bytes, localTimes: Bytes, after: Bytes
  )

  predicate Fits(m: Member) {
    && |m.name| < 0x1_0000 && |m.extra| < 0x1_0000 && |m.comment| < 0x1_0000 && m.method_ < 0x1_0000
    && m.uncomp < 0x1_0000_0000 && |m.data| < 0x1_0000_0000
    && |m.versions| == 6 && |m.times| == 8 && |m.attributes| == 8
    && |m.localName| < 0x1_0000 && |m.localExtra| < 0x1_0000 && |m.localVersions| == 6 && |m.localTimes| == 16
  }

  function LocalFixed(m: Member): (r: Bytes)
    requires Fits(m)
    ensures |r| == 30
  {
    Le4(LOCAL_SIGNATURE) + m.localVersions + m.localTimes + Le2(|m.localName|) + Le2(|m.localExtra|)
  }

  function Local(m: Member): Bytes
    requires Fits(m)
  {
    LocalFixed(m) + m.localName + m.localExtra + m.data + m.after
  }

  function CentralHead(m: Member): (r: Bytes)
    requires Fits(m)
    ensures |r| == 20
  {
    Le4(ENTRY_SIGNATURE) + m.versions + Le2(m.method_) + m.times
  }

  function CentralLengths(m: Member): (r: Bytes)
    requires Fits(m)
    ensures |r| == 14
  {
    Le4(|m.data|) + Le4(m.uncomp) + Le2(|m.name|) + Le2(|m.extra|) + Le2(|m.comment|)
  }

  function CentralFixed(m: Member, local: nat): (r: Bytes)
    requires Fits(m) && local < 0x1_0000_0000
    ensures |r| == 46
  {
    CentralHead(m) + CentralLengths(m) + (m.attributes + Le4(local))
  }

  function Central(m: Member, local: nat): (r: Bytes)
    requires Fits(m) && local < 0x1_0000_0000
    ensures |r| == 46 + |m.name| + |m.extra| + |m.comment|
  {
    CentralFixed(m, local) + m.name + m.extra + m.comment
  }

  /** An archive: bytes before, the files, bytes between the directory and the end record, and a comment. */
  datatype Archive = Archive(before: Bytes, members: seq<Member>, between: Bytes, comment: Bytes, disks: Bytes,
                             directorySize: Bytes)

  predicate AllFit(ms: seq<Member>) {
    forall i :: 0 <= i < |ms| ==> Fits(ms[i])
  }

  function Bodies(ms: seq<Member>): Bytes
    requires AllFit(ms)
  {
    if ms == [] then [] else Bodies(ms[..|ms| - 1]) + Local(ms[|ms| - 1])
  }

  /** Where the local header of the i-th file is. */
  function LocalOffset(before: Bytes, ms: seq<Member>, i: nat): nat
    requires AllFit(ms) && i <= |ms|
  {
    |before| + |Bodies(ms[..i])|
  }

  function Directory(before: Bytes, ms: seq<Member>, n: nat): Bytes
    requires AllFit(ms) && n <= |ms| && Offsets(before, ms)
  {
    if n == 0 then [] else Directory(before, ms, n - 1) + Central(ms[n - 1], LocalOffset(before, ms, n - 1))
  }

  predicate Offsets(before: Bytes, ms: seq<Member>)
    requires AllFit(ms)
  {
    forall i :: 0 <= i <= |ms| ==> LocalOffset(before, ms, i) < 0x1_0000_0000
  }

  predicate Writable(a: Archive) {
    && AllFit(a.members) && Offsets(a.before, a.members) && |a.members| < 0x1_0000
    && |a.comment| < 0x1_0000 && |a.disks| == 6 && |a.directorySize| == 4
  }

  function EndRecord(a: Archive): (r: Bytes)
    requires Writable(a)
    ensures |r| == 22
  {
    Le4(END_SIGNATURE) + a.disks +
      (Le2(|a.members|) + a.directorySize + Le4(LocalOffset(a.before, a.members, |a.members|)) + Le2(|a.comment|))
  }

  function Front(a: Archive): Bytes
    requires Writable(a)
  {
    a.before + Bodies(a.members) + Directory(a.before, a.members, |a.members|) + a.between
  }

  function Written(a: Archive): Bytes
    requires Writable(a)
  {
    Front(a) + EndRecord(a) + a.comment
  }

  /** The row of the i-th file. */
  function RowOf(a: Archive, i: nat): Entry
    requires Writable(a) && i < |a.members|
  {
    var m := a.members[i];
    Entry(m.name, |m.data|, m.uncomp, m.method_, LocalOffset(a.before, a.members, i))
  }

  // ---- reading what was written ----

  /** `part` sits in the buffer at an offset. */
  ghost predicate Sits(buf: Bytes, off: nat, part: Bytes) {
    off + |part| <= |buf| && buf[off..off + |part|] == part
  }

  lemma SitsInside(buf: Bytes, off: nat, part: Bytes, inner: nat, inside: Bytes, at: nat)
    requires Sits(buf, off, part) && Sits(part, inner, inside) && at == off + inner
    ensures Sits(buf, at, inside)
  {
    var there := buf[off + inner..off + inner + |inside|];
    forall i | 0 <= i < |inside| ensures there[i] == inside[i] {
      assert there[i] == buf[off + (inner + i)] == buf[off..off + |part|][inner + i];
      assert inside[i] == part[inner..inner + |inside|][i] == part[inner + i];
    }
  }

  lemma SitsNumber2(buf: Bytes, off: nat, n: nat)
    requires n < 0x1_0000 && Sits(buf, off, Le2(n))
    ensures U16(buf, off) == n
  {
    assert buf[off] == buf[off..off + 2][0] && buf[off + 1] == buf[off..off + 2][1];
  }

  lemma SitsNumber4(buf: Bytes, off: nat, n: nat)
    requires n < 0x1_0000_0000 && Sits(buf, off, Le4(n))
    ensures U32(buf, off) == n
  {
    var part := buf[off..off + 4];
    assert buf[off] == part[0] && buf[off + 1] == part[1] && buf[off + 2] == part[2] && buf[off + 3] == part[3];
    hide Le4;
  }

  lemma SitsMiddle(a: Bytes, b: Bytes, c: Bytes)
    ensures Sits(a + b + c, |a|, b) && Sits(a + b + c, 0, a) && Sits(a + b + c, |a| + |b|, c)
  {
  }

  lemma SitsPair(a: Bytes, b: Bytes)
    ensures Sits(a + b, 0, a) && Sits(a + b, |a|, b)
  {
  }

  lemma HeadFields(m: Member)
    requires Fits(m)
    ensures Sits(CentralHead(m), 0, Le4(ENTRY_SIGNATURE)) && Sits(CentralHead(m), 10, Le2(m.method_))
  {
    hide Le2, Le4;
  }

  lemma LengthFields(m: Member)
    requires Fits(m)
    ensures var h := CentralLengths(m);
            && Sits(h, 0, Le4(|m.data|)) && Sits(h, 4, Le4(m.uncomp))
            && Sits(h, 8, Le2(|m.name|)) && Sits(h, 10, Le2(|m.extra|)) && Sits(h, 12, Le2(|m.comment|))
  {
    hide Le2, Le4;
  }

  lemma FixedParts(m: Member, local: nat)
    requires Fits(m) && local < 0x1_0000_0000
    ensures var h := CentralFixed(m, local);
            Sits(h, 0, CentralHead(m)) && Sits(h, 20, CentralLengths(m)) && Sits(h, 42, Le4(local))
  {
    hide CentralHead, CentralLengths, Le4;
    SitsMiddle(CentralHead(m), CentralLengths(m), m.attributes + Le4(local));
    SitsPair(m.attributes, Le4(local));
    SitsInside(CentralFixed(m, local), 34, m.attributes + Le4(local), 8, Le4(local), 42);
  }

  /** One directory row is read back where it was written. */
  lemma EntryReadsBack(buf: Bytes, off: nat, m: Member, local: nat, index: nat, next: nat)
    requires Fits(m) && local < 0x1_0000_0000 && Sits(buf, off, Central(m, local)) && next == off + |Central(m, local)|
    ensures ReadEntry(buf, off, index) == Ok((Entry(m.name, |m.data|, m.uncomp, m.method_, local), next))
  {
    CentralParts(m, local);
    var h, rest := CentralFixed(m, local), m.name + m.extra + m.comment;
    hide CentralFixed, Central, Le2, Le4, U16, U32;
    SitsInside(buf, off, Central(m, local), 0, h, off);
    SitsInside(buf, off, Central(m, local), 46, m.name, off + 46);
    FixedReadsBack(buf, off, m, local);
  }

  lemma CentralParts(m: Member, local: nat)
    requires Fits(m) && local < 0x1_0000_0000
    ensures Sits(Central(m, local), 0, CentralFixed(m, local)) && Sits(Central(m, local), 46, m.name)
  {
    var h, rest := CentralFixed(m, local), m.extra + m.comment;
    hide CentralFixed, Sits;
    assert Central(m, local) == h + m.name + rest;
    SitsMiddle(h, m.name, rest);
  }

  lemma FixedReadsBack(buf: Bytes, off: nat, m: Member, local: nat)
    requires Fits(m) && local < 0x1_0000_0000 && Sits(buf, off, CentralFixed(m, local))
    ensures off + 46 <= |buf| && U32(buf, off) == ENTRY_SIGNATURE && U16(buf, off + 10) == m.method_
    ensures U32(buf, off + 20) == |m.data| && U32(buf, off + 24) == m.uncomp && U32(buf, off + 42) == local
    ensures U16(buf, off + 28) == |m.name| && U16(buf, off + 30) == |m.extra| && U16(buf, off + 32) == |m.comment|
  {
    var h, head, lengths := CentralFixed(m, local), CentralHead(m), CentralLengths(m);
    FixedParts(m, local);
    HeadFields(m);
    LengthFields(m);
    hide CentralFixed, CentralHead, CentralLengths, Le2, Le4, U16, U32, Sits;
    SitsInside(buf, off, h, 0, head, off);
    SitsInside(buf, off, h, 20, lengths, off + 20);
    SitsInside(buf, off, h, 42, Le4(local), off + 42);
    SitsInside(buf, off, head, 0, Le4(ENTRY_SIGNATURE), off);
    SitsInside(buf, off, head, 10, Le2(m.method_), off + 10);
    SitsInside(buf, off + 20, lengths, 0, Le4(|m.data|), off + 20);
    SitsInside(buf, off + 20, lengths, 4, Le4(m.uncomp), off + 24);
    SitsInside(buf, off + 20, lengths, 8, Le2(|m.name|), off + 28);
    SitsInside(buf, off + 20, lengths, 10, Le2(|m.extra|), off + 30);
    SitsInside(buf, off + 20, lengths, 12, Le2(|m.comment|), off + 32);
    SitsNumber4(buf, off, ENTRY_SIGNATURE);
    SitsNumber2(buf, off + 10, m.method_);
    SitsNumber4(buf, off + 20, |m.data|);
    SitsNumber4(buf, off + 24, m.uncomp);
    SitsNumber2(buf, off + 28, |m.name|);
    SitsNumber2(buf, off + 30, |m.extra|);
    SitsNumber2(buf, off + 32, |m.comment|);
    SitsNumber4(buf, off + 42, local);
    SitsWithin(buf, off, h);
  }

  lemma SitsWithin(buf: Bytes, off: nat, part: Bytes)
    requires Sits(buf, off, part)
    ensures off + |part| <= |buf|
  {
  }

  lemma LocalFields(m: Member)
    requires Fits(m)
    ensures var h := LocalFixed(m);
            Sits(h, 0, Le4(LOCAL_SIGNATURE)) && Sits(h, 26, Le2(|m.localName|)) && Sits(h, 28, Le2(|m.localExtra|))
  {
    hide Le2, Le4;
  }

  lemma LocalParts(m: Member)
    requires Fits(m)
    ensures Sits(Local(m), 0, LocalFixed(m)) && Sits(Local(m), 30 + |m.localName| + |m.localExtra|, m.data)
  {
    var h, names := LocalFixed(m), m.localName + m.localExtra;
    hide LocalFixed, Sits;
    SitsMiddle(h + names, m.data, m.after);
    SitsPair(h, names + m.data + m.after);
    assert Local(m) == h + (names + m.data + m.after) == h + names + m.data + m.after;
  }

  lemma LocalReadsBack(buf: Bytes, off: nat, m: Member)
    requires Fits(m) && Sits(buf, off, LocalFixed(m))
    ensures off + 30 <= |buf| && U32(buf, off) == LOCAL_SIGNATURE
    ensures U16(buf, off + 26) == |m.localName| && U16(buf, off + 28) == |m.localExtra|
  {
    var h := LocalFixed(m);
    LocalFields(m);
    SitsWithin(buf, off, h);
    hide LocalFixed, Le2, Le4, U16, U32, Sits;
    SitsInside(buf, off, h, 0, Le4(LOCAL_SIGNATURE), off);
    SitsInside(buf, off, h, 26, Le2(|m.localName|), off + 26);
    SitsInside(buf, off, h, 28, Le2(|m.localExtra|), off + 28);
    SitsNumber4(buf, off, LOCAL_SIGNATURE);
    SitsNumber2(buf, off + 26, |m.localName|);
    SitsNumber2(buf, off + 28, |m.localExtra|);
  }

  /** A stored entry gives back its data. */
  lemma DataReadsBack(buf: Bytes, off: nat, m: Member, e: Entry)
    requires Fits(m) && Sits(buf, off, Local(m)) && e.local == off && e.comp == |m.data|
    ensures EntryData(buf, e) == if e.method_ == 0 then Ok(m.data) else Err(Unsupported(e.method_))
  {
    var start := 30 + |m.localName| + |m.localExtra|;
    LocalParts(m);
    SitsInside(buf, off, Local(m), 0, LocalFixed(m), off);
    SitsInside(buf, off, Local(m), start, m.data, off + start);
    LocalReadsBack(buf, off, m);
    hide Local, LocalFixed, U16, U32;
  }

  // ---- where things are in the written file ----

  lemma {:induction false} BodySits(ms: seq<Member>, i: nat)
    requires AllFit(ms) && i < |ms|
    ensures Sits(Bodies(ms), |Bodies(ms[..i])|, Local(ms[i]))
  {
    hide Local;
    var last := |ms| - 1;
    var front, body := Bodies(ms[..last]), Local(ms[last]);
    SitsPair(front, body);
    if i < last {
      assert ms[..last][..i] == ms[..i];
      BodySits(ms[..last], i);
      SitsInside(Bodies(ms), 0, front, |Bodies(ms[..i])|, Local(ms[i]), |Bodies(ms[..i])|);
    }
  }

  lemma {:induction false} RowSits(before: Bytes, ms: seq<Member>, n: nat, i: nat)
    requires AllFit(ms) && Offsets(before, ms) && i < n <= |ms|
    ensures Sits(Directory(before, ms, n), |Directory(before, ms, i)|, Central(ms[i], LocalOffset(before, ms, i)))
    ensures |Directory(before, ms, i + 1)| == |Directory(before, ms, i)| + |Central(ms[i], LocalOffset(before, ms, i))|
  {
    hide Central, LocalOffset;
    var front, row := Directory(before, ms, n - 1), Central(ms[n - 1], LocalOffset(before, ms, n - 1));
    SitsPair(front, row);
    if i < n - 1 {
      RowSits(before, ms, n - 1, i);
      var at := |Directory(before, ms, i)|;
      SitsInside(Directory(before, ms, n), 0, front, at, Central(ms[i], LocalOffset(before, ms, i)), at);
    }
  }

  lemma EndFields(a: Archive)
    requires Writable(a)
    ensures var h := EndRecord(a);
            && Sits(h, 0, Le4(END_SIGNATURE)) && Sits(h, 10, Le2(|a.members|))
            && Sits(h, 16, Le4(LocalOffset(a.before, a.members, |a.members|)))
  {
    hide Le2, Le4, LocalOffset, Offsets, AllFit;
  }

  /** The parts of the written file: the files, the directory, the end record. */
  lemma PartsSit(a: Archive)
    requires Writable(a)
    ensures var buf := Written(a);
            && Sits(buf, |a.before|, Bodies(a.members))
            && Sits(buf, LocalOffset(a.before, a.members, |a.members|), Directory(a.before, a.members, |a.members|))
            && Sits(buf, |Front(a)|, EndRecord(a))
            && |buf| == |Front(a)| + 22 + |a.comment|
  {
    hide *;
    CountFits(a);
    FrontSits(a);
    FrontIsFirst(a);
    var buf, start := Written(a), LocalOffset(a.before, a.members, |a.members|);
    SitsInside(buf, 0, Front(a), |a.before|, Bodies(a.members), |a.before|);
    SitsInside(buf, 0, Front(a), start, Directory(a.before, a.members, |a.members|), start);
  }

  lemma FrontIsFirst(a: Archive)
    requires Writable(a)
    ensures Sits(Written(a), 0, Front(a)) && Sits(Written(a), |Front(a)|, EndRecord(a))
    ensures |Written(a)| == |Front(a)| + 22 + |a.comment|
  {
    hide Front, EndRecord, Sits;
    SitsMiddle(Front(a), EndRecord(a), a.comment);
  }

  lemma FrontSits(a: Archive)
    requires Writable(a)
    ensures Sits(Front(a), |a.before|, Bodies(a.members))
    ensures Sits(Front(a), LocalOffset(a.before, a.members, |a.members|), Directory(a.before, a.members, |a.members|))
  {
    var bodies, directory := Bodies(a.members), Directory(a.before, a.members, |a.members|);
    assert a.members[..|a.members|] == a.members;
    hide Bodies, Directory, Sits;
    assert Front(a) == (a.before + bodies) + directory + a.between;
    assert Front(a) == a.before + bodies + (directory + a.between);
    SitsMiddle(a.before + bodies, directory, a.between);
    SitsMiddle(a.before, bodies, directory + a.between);
  }

  /** The rows of the files from the n-th on. */
  function RowsFrom(a: Archive, n: nat): seq<Entry>
    requires Writable(a) && n <= |a.members|
    decreases |a.members| - n
  {
    if n == |a.members| then [] else [RowOf(a, n)] + RowsFrom(a, n + 1)
  }

  lemma OneRowReadsBack(a: Archive, buf: Bytes, start: nat, n: nat)
    requires Writable(a) && n < |a.members| && Sits(buf, start, Directory(a.before, a.members, |a.members|))
    ensures ReadEntry(buf, start + |Directory(a.before, a.members, n)|, n) ==
      Ok((RowOf(a, n), start + |Directory(a.before, a.members, n + 1)|))
  {
    hide *;
    MemberIs(a, n);
    var local, all := LocalOffset(a.before, a.members, n), Directory(a.before, a.members, |a.members|);
    var inner, next := |Directory(a.before, a.members, n)|, |Directory(a.before, a.members, n + 1)|;
    RowSits(a.before, a.members, |a.members|, n);
    SitsInside(buf, start, all, inner, Central(a.members[n], local), start + inner);
    EntryReadsBack(buf, start + inner, a.members[n], local, n, start + next);
  }

  lemma MemberIs(a: Archive, i: nat)
    requires Writable(a) && i < |a.members|
    ensures AllFit(a.members) && Offsets(a.before, a.members) && Fits(a.members[i]) && AllFit(a.members[..i])
    ensures LocalOffset(a.before, a.members, i) < 0x1_0000_0000
    ensures var m := a.members[i];
            RowOf(a, i) == Entry(m.name, |m.data|, m.uncomp, m.method_, LocalOffset(a.before, a.members, i))
    ensures |Bodies(a.members[..i])| + |a.before| == LocalOffset(a.before, a.members, i)
  {
  }

  lemma {:induction false} RowsReadBack(a: Archive, buf: Bytes, start: nat, n: nat)
    requires Writable(a) && n <= |a.members| && Sits(buf, start, Directory(a.before, a.members, |a.members|))
    ensures ReadEntries(buf, start + |Directory(a.before, a.members, n)|, n, |a.members|) == Ok(RowsFrom(a, n))
    decreases |a.members| - n
  {
    hide Directory, RowOf, Sits, ReadEntry, Writable;
    if n < |a.members| {
      OneRowReadsBack(a, buf, start, n);
      RowsReadBack(a, buf, start, n + 1);
    }
  }

  // ---- the round trip ----

  /** Nothing after the end record of the archive looks like another one. */
  predicate NoLaterEnd(a: Archive)
    requires Writable(a)
  {
    forall i :: |Front(a)| < i <= |Written(a)| - 22 ==> U32(Written(a), i) != END_SIGNATURE
  }

  /**
   The search finds the end record that was written, whatever the length of the comment, exactly when nothing
   later looks like one.
   */
  lemma EndIsFoundIff(a: Archive)
    requires Writable(a)
    ensures IsEnd(Written(a), |Front(a)|) <==> NoLaterEnd(a)
  {
    EndReadsBack(a);
    CommentIsShort(a);
    hide Front, Written, U32;
  }

  lemma CommentIsShort(a: Archive)
    requires Writable(a)
    ensures |a.comment| < 0x1_0000
  {
  }

  lemma EndReadsBack(a: Archive)
    requires Writable(a)
    ensures var buf, end := Written(a), |Front(a)|;
            && |buf| == end + 22 + |a.comment| && U32(buf, end) == END_SIGNATURE && U16(buf, end + 10) == |a.members|
            && U32(buf, end + 16) == LocalOffset(a.before, a.members, |a.members|)
  {
    hide *;
    CountFits(a);
    PartsSit(a);
    EndFields(a);
    var buf, end, start := Written(a), |Front(a)|, LocalOffset(a.before, a.members, |a.members|);
    SitsInside(buf, end, EndRecord(a), 0, Le4(END_SIGNATURE), end);
    SitsInside(buf, end, EndRecord(a), 10, Le2(|a.members|), end + 10);
    SitsInside(buf, end, EndRecord(a), 16, Le4(start), end + 16);
    SitsNumber4(buf, end, END_SIGNATURE);
    SitsNumber2(buf, end + 10, |a.members|);
    SitsNumber4(buf, end + 16, start);
  }

  lemma CountFits(a: Archive)
    requires Writable(a)
    ensures END_SIGNATURE < 0x1_0000_0000
    ensures AllFit(a.members) && Offsets(a.before, a.members) && |a.members| < 0x1_0000
    ensures LocalOffset(a.before, a.members, |a.members|) < 0x1_0000_0000
  {
  }

  /** The data of every stored file is read back. */
  lemma StoredDataReadsBack(a: Archive, i: nat)
    requires Writable(a) && i < |a.members|
    ensures EntryData(Written(a), RowOf(a, i)) ==
      if a.members[i].method_ == 0 then Ok(a.members[i].data) else Err(Unsupported(a.members[i].method_))
  {
    hide *;
    MemberIs(a, i);
    PartsSit(a);
    BodySits(a.members, i);
    var buf := Written(a);
    var off := LocalOffset(a.before, a.members, i);
    SitsInside(buf, |a.before|, Bodies(a.members), |Bodies(a.members[..i])|, Local(a.members[i]), off);
    DataReadsBack(buf, off, a.members[i], RowOf(a, i));
  }

  lemma {:induction false} RowsFromIs(a: Archive, n: nat)
    requires Writable(a) && n <= |a.members|
    ensures |RowsFrom(a, n)| == |a.members| - n &&
            forall i :: 0 <= i < |a.members| - n ==> RowsFrom(a, n)[i] == RowOf(a, n + i)
    decreases |a.members| - n
  {
    hide RowOf, Writable;
    if n < |a.members| { RowsFromIs(a, n + 1); }
  }

  /**
   Round trip: reading a written archive gives its files, in order, and their stored data, provided that
   nothing after its end record looks like another.
   */
  lemma ArchiveReadsBack(a: Archive)
    requires Writable(a) && NoLaterEnd(a)
    ensures IsEnd(Written(a), |Front(a)|)
    ensures var rows := ReadDirectory(Written(a), |Front(a)|);
            && rows.Ok? && |rows.value| == |a.members|
            && forall i :: 0 <= i < |a.members| ==> rows.value[i] == RowOf(a, i)
    ensures forall i :: 0 <= i < |a.members| && a.members[i].method_ == 0 ==>
            EntryData(Written(a), RowOf(a, i)) == Ok(a.members[i].data)
  {
    hide *;
    EndIsFoundIff(a);
    AllRowsReadBack(a);
    RowsFromIs(a, 0);
    forall i | 0 <= i < |a.members| && a.members[i].method_ == 0
      ensures EntryData(Written(a), RowOf(a, i)) == Ok(a.members[i].data)
    {
      StoredDataReadsBack(a, i);
    }
  }

  lemma AllRowsReadBack(a: Archive)
    requires Writable(a)
    ensures |Front(a)| + 22 <= |Written(a)| && ReadDirectory(Written(a), |Front(a)|) == Ok(RowsFrom(a, 0))
  {
    hide *;
    EndReadsBack(a);
    NoRowsYet(a);
    CountFits(a);
    PartsSit(a);
    var buf, end, start := Written(a), |Front(a)|, LocalOffset(a.before, a.members, |a.members|);
    RowsReadBack(a, buf, start, 0);
    DirectoryIs(buf, end, start, |a.members|);
  }

  lemma DirectoryIs(buf: Bytes, end: nat, start: nat, count: nat)
    requires end + 22 <= |buf| && U32(buf, end + 16) == start && U16(buf, end + 10) == count
    ensures ReadDirectory(buf, end) == ReadEntries(buf, start, 0, count)
  {
    hide U32, U16, ReadEntries;
  }

  lemma NoRowsYet(a: Archive)
    requires Writable(a)
    ensures Directory(a.before, a.members, 0) == []
  {
  }
}
