/**
 Deduplication of planned test jobs: one row per file identity and argument list, in order of first
 appearance, keeping the source of every slot that asked for it.
 */
module TestRows {

  const NUL: char := '\0'

  datatype Slot = Slot(identity: string, argv: seq<string>, source: string)

  datatype Row = Row(identity: string, argv: seq<string>, sources: seq<string>)

  function Join(parts: seq<string>): string {
    if parts == [] then [] else if |parts| == 1 then parts[0] else parts[0] + [NUL] + Join(parts[1..])
  }

  function Key(identity: string, argv: seq<string>): string {
    identity + [NUL] + Join(argv)
  }

  function SlotKey(slot: Slot): string { Key(slot.identity, slot.argv) }

  function RowKey(row: Row): string { Key(row.identity, row.argv) }

  predicate Clean(text: string) { NUL !in text }

  predicate AllClean(parts: seq<string>) { forall i :: 0 <= i < |parts| ==> Clean(parts[i]) }

  /** The sources of every slot with this key, in order. */
  function SourcesOf(slots: seq<Slot>, key: string): seq<string> {
    if slots == [] then []
    else SourcesOf(slots[..|slots| - 1], key) +
         (if SlotKey(slots[|slots| - 1]) == key then [slots[|slots| - 1].source] else [])
  }

  function TotalSources(rows: seq<Row>): nat {
    if rows == [] then 0 else |rows[0].sources| + TotalSources(rows[1..])
  }

  /** The rows are the slots collapsed: distinct keys, nothing lost, and no source lost or added. */
  ghost predicate Collapsed(slots: seq<Slot>, rows: seq<Row>) {
    && (forall i, k :: 0 <= i < k < |rows| ==> RowKey(rows[i]) != RowKey(rows[k]))
    && (forall s :: 0 <= s < |slots| ==> exists r :: 0 <= r < |rows| && RowKey(rows[r]) == SlotKey(slots[s]))
    && (forall r :: 0 <= r < |rows| ==> rows[r].sources == SourcesOf(slots, RowKey(rows[r])))
  }

  /** Each row shows up where its first slot does: `firsts` are the positions of the first slots. */
  ghost predicate InOrder(slots: seq<Slot>, rows: seq<Row>, firsts: seq<nat>) {
    && |firsts| == |rows|
    && (forall r :: 0 <= r < |rows| ==> firsts[r] < |slots|)
    && (forall r :: 0 <= r < |rows| ==>
        slots[firsts[r]].identity == rows[r].identity && slots[firsts[r]].argv == rows[r].argv)
    && (forall r, s :: 0 <= r < |rows| && 0 <= s < firsts[r] ==> SlotKey(slots[s]) != RowKey(rows[r]))
    && (forall i, k :: 0 <= i < k < |rows| ==> firsts[i] < firsts[k])
  }

  lemma {:induction false} TotalAppend(rows: seq<Row>, row: Row)
    ensures TotalSources(rows + [row]) == TotalSources(rows) + |row.sources|
  {
    if rows != [] {
      assert (rows + [row])[1..] == rows[1..] + [row];
      TotalAppend(rows[1..], row);
    }
  }

  lemma {:induction false} TotalUpdate(rows: seq<Row>, r: nat, source: string)
    requires r < |rows|
    ensures TotalSources(rows[r := rows[r].(sources := rows[r].sources + [source])]) == TotalSources(rows) + 1
  {
    var next := rows[r := rows[r].(sources := rows[r].sources + [source])];
    if r == 0 {
      assert next[1..] == rows[1..];
    } else {
      assert next[1..] == rows[1..][r - 1 := rows[1..][r - 1].(sources := rows[1..][r - 1].sources + [source])];
      TotalUpdate(rows[1..], r - 1, source);
    }
  }

  lemma NoSources(slots: seq<Slot>, key: string)
    requires forall s :: 0 <= s < |slots| ==> SlotKey(slots[s]) != key
    ensures SourcesOf(slots, key) == []
  {
    if slots != [] {
      assert slots[|slots| - 1] == slots[|slots| - 1];
      NoSources(slots[..|slots| - 1], key);
    }
  }

  predicate HasKey(rows: seq<Row>, key: string) {
    exists r :: 0 <= r < |rows| && RowKey(rows[r]) == key
  }

  /** Opening a row for a key not met before changes nothing said of the slots so far. */
  lemma OpenRow(slots: seq<Slot>, rows: seq<Row>, row: Row)
    requires Collapsed(slots, rows) && !HasKey(rows, RowKey(row)) && row.sources == []
    ensures Collapsed(slots, rows + [row])
  {
    hide Key;
    forall s | 0 <= s < |slots| ensures SlotKey(slots[s]) != RowKey(row) {
      var r :| 0 <= r < |rows| && RowKey(rows[r]) == SlotKey(slots[s]);
    }
    NoSources(slots, RowKey(row));
    hide SourcesOf;
    forall s | 0 <= s < |slots|
      ensures exists r :: 0 <= r < |rows + [row]| && RowKey((rows + [row])[r]) == SlotKey(slots[s])
    {
      var r :| 0 <= r < |rows| && RowKey(rows[r]) == SlotKey(slots[s]);
      assert RowKey((rows + [row])[r]) == SlotKey(slots[s]);
    }
  }

  lemma OpenRowInOrder(slots: seq<Slot>, rows: seq<Row>, firsts: seq<nat>, slot: Slot, row: Row)
    requires Collapsed(slots, rows) && InOrder(slots, rows, firsts) && !HasKey(rows, SlotKey(slot))
    requires row == Row(slot.identity, slot.argv, [])
    ensures InOrder(slots + [slot], rows + [row], firsts + [|slots|])
  {
    hide Key, SourcesOf;
    forall s | 0 <= s < |slots| ensures SlotKey(slots[s]) != RowKey(row) {
      var r :| 0 <= r < |rows| && RowKey(rows[r]) == SlotKey(slots[s]);
    }
  }

  lemma KeepOrder(slots: seq<Slot>, rows: seq<Row>, firsts: seq<nat>, slot: Slot)
    requires InOrder(slots, rows, firsts)
    ensures InOrder(slots + [slot], rows, firsts)
  {
    hide Key;
  }

  function AddSource(rows: seq<Row>, r: nat, source: string): seq<Row>
    requires r < |rows|
  {
    rows[r := rows[r].(sources := rows[r].sources + [source])]
  }

  /** Adding the slot's source to the row of its key accounts for the slot. */
  lemma AddSourceCollapses(slots: seq<Slot>, rows: seq<Row>, r: nat, slot: Slot)
    requires Collapsed(slots, rows) && r < |rows| && RowKey(rows[r]) == SlotKey(slot)
    ensures Collapsed(slots + [slot], AddSource(rows, r, slot.source))
  {
    hide Key;
    var all, next := slots + [slot], AddSource(rows, r, slot.source);
    assert all[..|all| - 1] == slots;
    forall k | 0 <= k < |next| ensures next[k].sources == SourcesOf(all, RowKey(next[k])) {
      assert RowKey(next[k]) == RowKey(rows[k]);
      assert SourcesOf(all, RowKey(next[k])) ==
             SourcesOf(slots, RowKey(next[k])) + (if SlotKey(slot) == RowKey(next[k]) then [slot.source] else []);
      assert k != r ==> RowKey(rows[k]) != RowKey(rows[r]);
    }
    forall s | 0 <= s < |all| ensures exists k :: 0 <= k < |next| && RowKey(next[k]) == SlotKey(all[s]) {
      if s < |slots| {
        var k :| 0 <= k < |rows| && RowKey(rows[k]) == SlotKey(slots[s]);
        assert RowKey(next[k]) == SlotKey(all[s]);
      } else {
        assert RowKey(next[r]) == SlotKey(all[s]);
      }
    }
  }

  lemma AddSourceKeepsOrder(slots: seq<Slot>, rows: seq<Row>, firsts: seq<nat>, r: nat, source: string)
    requires InOrder(slots, rows, firsts) && r < |rows|
    ensures InOrder(slots, AddSource(rows, r, source), firsts)
  {
    hide Key;
  }

  /** The lookup map knows exactly the rows. */
  ghost predicate Indexed(byKey: map<string, nat>, rows: seq<Row>) {
    && (forall r :: 0 <= r < |rows| ==> RowKey(rows[r]) in byKey && byKey[RowKey(rows[r])] == r)
    && (forall key :: key in byKey ==> byKey[key] < |rows| && RowKey(rows[byKey[key]]) == key)
  }

  lemma IndexedAdd(byKey: map<string, nat>, rows: seq<Row>, row: Row)
    requires Indexed(byKey, rows) && RowKey(row) !in byKey
    ensures Indexed(byKey[RowKey(row) := |rows|], rows + [row])
  {
    hide Key;
  }

  method Deduplicate(slots: seq<Slot>)
    returns (rows: seq<Row>, requestedSlots: nat, duplicatesRemoved: nat, ghost firsts: seq<nat>)
    ensures Collapsed(slots, rows) && InOrder(slots, rows, firsts)
    ensures requestedSlots == |slots| == TotalSources(rows)
    ensures requestedSlots == |rows| + duplicatesRemoved
  {
    var byKey: map<string, nat> := map[];
    rows, firsts := [], [];
    hide Key, Collapsed, InOrder, TotalSources;
    assert Collapsed([], []) && InOrder([], [], []) && TotalSources([]) == 0 by { EmptyCollapse(); }
    for i := 0 to |slots|
      invariant Collapsed(slots[..i], rows) && InOrder(slots[..i], rows, firsts) && Indexed(byKey, rows)
      invariant TotalSources(rows) == i && |rows| <= i
    {
      var slot := slots[i];
      var key := SlotKey(slot);
      assert slots[..i + 1] == slots[..i] + [slot];
      if key !in byKey {
        var row := Row(slot.identity, slot.argv, []);
        OpenRow(slots[..i], rows, row);
        OpenRowInOrder(slots[..i], rows, firsts, slot, row);
        IndexedAdd(byKey, rows, row);
        TotalAppend(rows, row);
        byKey := byKey[key := |rows|];
        rows := rows + [row];
        firsts := firsts + [i];
      } else {
        KeepOrder(slots[..i], rows, firsts, slot);
      }
      var r := byKey[key];
      AddSourceCollapses(slots[..i], rows, r, slot);
      AddSourceKeepsOrder(slots[..i + 1], rows, firsts, r, slot.source);
      TotalUpdate(rows, r, slot.source);
      rows := rows[r := rows[r].(sources := rows[r].sources + [slot.source])];
    }
    assert slots[..|slots|] == slots;
    requestedSlots := |slots|;
    duplicatesRemoved := |slots| - |rows|;
  }

  lemma EmptyCollapse()
    ensures Collapsed([], []) && InOrder([], [], []) && TotalSources([]) == 0
  {}

  // ---- what a key stands for ----

  /** Text up to its first NUL is determined. */
  lemma FirstNul(x: string, y: string, u: string, v: string)
    requires Clean(x) && Clean(y) && x + [NUL] + u == y + [NUL] + v
    ensures x == y && u == v
  {
    var text := x + [NUL] + u;
    assert text[|x|] == NUL && text[|y|] == NUL;
    assert forall k :: 0 <= k < |x| ==> text[k] == x[k];
    assert forall k :: 0 <= k < |y| ==> (y + [NUL] + v)[k] == y[k];
    assert |x| == |y|;
    assert text[..|x|] == x && text[|x| + 1..] == u;
    assert (y + [NUL] + v)[..|y|] == y && (y + [NUL] + v)[|y| + 1..] == v;
  }

  /** Exactly the joins of two or more parts contain a separator. */
  lemma SeparatorShows(parts: seq<string>)
    requires AllClean(parts)
    ensures |parts| > 1 <==> !Clean(Join(parts))
  {
    if |parts| > 1 { assert Join(parts)[|parts[0]|] == NUL; }
    if |parts| == 1 { assert Clean(parts[0]); }
  }

  lemma {:induction false} JoinSplits(a: seq<string>, b: seq<string>)
    requires AllClean(a) && AllClean(b) && a != [] && b != [] && Join(a) == Join(b)
    ensures a == b
  {
    assert Clean(a[0]) && Clean(b[0]);
    SeparatorShows(a);
    SeparatorShows(b);
    if |a| > 1 && |b| > 1 {
      FirstNul(a[0], b[0], Join(a[1..]), Join(b[1..]));
      JoinSplits(a[1..], b[1..]);
    }
  }

  /**
   For file identities and arguments without NUL, equal keys mean the same file and the same
   arguments, save that no arguments and one empty argument share a key.
   */
  lemma KeyIsExact(identity: string, argv: seq<string>, other: string, argv': seq<string>)
    requires Clean(identity) && Clean(other) && AllClean(argv) && AllClean(argv')
    ensures Key(identity, argv) == Key(other, argv') <==>
            identity == other && (argv == argv' || (argv == [] && argv' == [""]) || (argv == [""] && argv' == []))
  {
    if Key(identity, argv) == Key(other, argv') {
      FirstNul(identity, other, Join(argv), Join(argv'));
      SeparatorShows(argv);
      SeparatorShows(argv');
      if argv != [] && argv' != [] {
        JoinSplits(argv, argv');
      }
    }
  }
}
