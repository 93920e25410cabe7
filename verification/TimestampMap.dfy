/**
 A map from keys to the time each was last touched, kept in touching order and bounded in age and size.
 */
module TimestampMap {

  datatype Entry<K> = Entry(key: K, at: real)

  datatype Options<K(==)> = Options(limit: real, maxAgeMs: real, protectedKeys: set<K>)

  // ---- the list behind the map ----

  ghost predicate Distinct<K(!new)>(s: seq<Entry<K>>) {
    forall i, k :: 0 <= i < k < |s| ==> s[i].key != s[k].key
  }

  predicate HasKey<K(==)>(s: seq<Entry<K>>, key: K) {
    exists i :: 0 <= i < |s| && s[i].key == key
  }

  function Without<K(==)>(s: seq<Entry<K>>, key: K): seq<Entry<K>> {
    if s == [] then []
    else Without(s[..|s| - 1], key) + if s[|s| - 1].key == key then [] else [s[|s| - 1]]
  }

  predicate Stays<K(==)>(e: Entry<K>, key: K, timestamp: real, o: Options<K>) {
    e.key == key || e.key in o.protectedKeys || timestamp - e.at < MaxAge(o)
  }

  function MaxAge<K>(o: Options<K>): real {
    if o.maxAgeMs > 0.0 then o.maxAgeMs else 0.0
  }

  /** The limit as a whole number, at least 1. */
  function Limit<K>(o: Options<K>): nat {
    if o.limit < 1.0 then 1 else o.limit.Floor
  }

  /** What is left of the entries once the old ones are gone. */
  function Young<K(==)>(s: seq<Entry<K>>, key: K, timestamp: real, o: Options<K>): seq<Entry<K>> {
    if s == [] then []
    else Young(s[..|s| - 1], key, timestamp, o) + if Stays(s[|s| - 1], key, timestamp, o) then [s[|s| - 1]] else []
  }

  /** What is left once the first unprotected entries are dropped, `excess` of them if there are so many. */
  function Evicted<K(==)>(s: seq<Entry<K>>, excess: int, o: Options<K>): seq<Entry<K>> {
    if s == [] || excess <= 0 then s
    else if s[0].key in o.protectedKeys then [s[0]] + Evicted(s[1..], excess, o)
    else Evicted(s[1..], excess - 1, o)
  }

  /** The entries after a touch. */
  function Touched<K(==)>(s: seq<Entry<K>>, key: K, timestamp: real, o: Options<K>): seq<Entry<K>> {
    var rest := Without(Young(s, key, timestamp, o), key);
    Evicted(rest, |rest| + 1 - Limit(o), o) + [Entry(key, timestamp)]
  }

  class RecencyMap<K(==,!new)> {
    var entries: seq<Entry<K>>

    ghost predicate Valid()
      reads this
    {
      Distinct(entries)
    }

    constructor ()
      ensures Valid() && entries == []
    {
      entries := [];
    }

    /** Drop the entry at a position. */
    method DeleteAt(i: nat)
      requires i < |entries|
      modifies this
      ensures entries == old(entries)[..i] + old(entries)[i + 1..]
    {
      entries := entries[..i] + entries[i + 1..];
    }

    /** Put a key at the end with its new time. */
    method Renew(key: K, timestamp: real)
      modifies this
      ensures entries == Without(old(entries), key) + [Entry(key, timestamp)]
    {
      var kept: seq<Entry<K>> := [];
      for i := 0 to |entries|
        invariant entries == old(entries) && kept == Without(entries[..i], key)
      {
        assert entries[..i + 1][..i] == entries[..i];
        if entries[i].key != key { kept := kept + [entries[i]]; }
      }
      assert entries[..|entries|] == entries;
      entries := kept + [Entry(key, timestamp)];
    }

    /** Touch a key: drop what is too old, put the key last, then drop the least recently touched down to the limit. */
    method Touch(key: K, timestamp: real, o: Options<K>) returns (removed: nat)
      requires Valid()
      modifies this
      ensures Valid() && entries == Touched(old(entries), key, timestamp, o)
      ensures removed == |old(entries)| + (if HasKey(old(entries), key) then 0 else 1) - |entries|
    {
      hide Distinct, InOrder, HasKey, Stays, Young, Without, Evicted, Limit;
      ghost var before := entries;
      var tooOld := DropOld(key, timestamp, o);
      YoungIs(before, key, timestamp, o);
      YoungKeepsKey(before, key, timestamp, o);
      OrderIsDistinct(entries, before);
      WithoutOne(entries, key);
      TouchedIs(before, key, timestamp, o);
      Renew(key, timestamp);
      var extra := DropExcess(key, timestamp, o);
      removed := tooOld + extra;
    }

    method DropOld(key: K, timestamp: real, o: Options<K>) returns (removed: nat)
      modifies this
      ensures entries == Young(old(entries), key, timestamp, o)
      ensures removed == |old(entries)| - |entries|
    {
      hide Young, Stays;
      removed := 0;
      var i, seen := 0, 0;
      ghost var before := entries;
      NothingYoung(key, timestamp, o);
      assert before[..0] == [];
      while i < |entries|
        invariant i <= |entries| && seen <= |before| && removed == seen - i
        invariant entries == Young(before[..seen], key, timestamp, o) + before[seen..]
        invariant i == |Young(before[..seen], key, timestamp, o)|
        decreases |before| - seen
      {
        ghost var young, rest := Young(before[..seen], key, timestamp, o), before[seen..];
        NextYoung(before, seen, key, timestamp, o);
        assert entries[i] == rest[0] == before[seen] && rest[1..] == before[seen + 1..];
        if Stays(entries[i], key, timestamp, o) {
          assert entries == (young + [rest[0]]) + rest[1..];
          i := i + 1;
        } else {
          DeleteAt(i);
          assert entries == young + rest[1..];
          removed := removed + 1;
        }
        seen := seen + 1;
      }
      assert before[..|before|] == before;
    }

    /** The key just renewed is last. */
    method DropExcess(key: K, timestamp: real, o: Options<K>) returns (removed: nat)
      requires entries != [] && entries[|entries| - 1] == Entry(key, timestamp) &&
               !HasKey(entries[..|entries| - 1], key)
      modifies this
      ensures entries == Evicted(old(entries)[..|old(entries)| - 1], |old(entries)| - Limit(o), o) +
              [Entry(key, timestamp)]
      ensures removed == |old(entries)| - |entries|
    {
      hide HasKey, Limit, Evicted;
      removed := 0;
      var i := 0;
      ghost var rest, last := entries[..|entries| - 1], [Entry(key, timestamp)];
      ghost var all := Evicted(rest, |entries| - Limit(o), o);
      ghost var kept, left := [], rest;
      while i < |entries| && |entries| > Limit(o)
        invariant removed == |old(entries)| - |entries| && i <= |entries|
        invariant i < |entries| ==>
                  |kept| == i && entries == kept + left + last && all == kept + Evicted(left, |entries| - Limit(o), o)
        invariant forall e :: e in left ==> e in rest
        invariant i == |entries| ==> left == [] && entries == all + last
        decreases |entries| - i
      {
        EvictedStep(left, |entries| - Limit(o), o);
        if left == [] {
          assert entries[i] == last[0];
        } else {
          assert entries[i] == left[0] && entries == kept + ([left[0]] + left[1..]) + last;
          NotTheKey(rest, key, left[0]);
        }
        if entries[i].key == key || entries[i].key in o.protectedKeys {
          kept := if left == [] then kept else kept + [left[0]];
          i := i + 1;
        } else {
          DeleteAt(i);
          assert entries == kept + left[1..] + last;
          removed := removed + 1;
        }
        left := if left == [] then [] else left[1..];
      }
      EvictedDone(left, |entries| - Limit(o), o);
    }
  }

  lemma NothingYoung<K>(key: K, timestamp: real, o: Options<K>)
    ensures Young([], key, timestamp, o) == []
  {
  }

  lemma NextYoung<K>(s: seq<Entry<K>>, n: nat, key: K, timestamp: real, o: Options<K>)
    requires n < |s|
    ensures Young(s[..n + 1], key, timestamp, o) ==
      Young(s[..n], key, timestamp, o) + (if Stays(s[n], key, timestamp, o) then [s[n]] else [])
  {
    assert s[..n + 1][..n] == s[..n];
  }

  lemma EvictedStep<K>(s: seq<Entry<K>>, excess: int, o: Options<K>)
    requires excess > 0
    ensures Evicted(s, excess, o) ==
      if s == [] then []
      else if s[0].key in o.protectedKeys then [s[0]] + Evicted(s[1..], excess, o)
      else Evicted(s[1..], excess - 1, o)
  {
  }

  lemma EvictedDone<K>(s: seq<Entry<K>>, excess: int, o: Options<K>)
    ensures excess <= 0 ==> Evicted(s, excess, o) == s
  {
  }

  lemma NotTheKey<K>(s: seq<Entry<K>>, key: K, e: Entry<K>)
    requires !HasKey(s, key) && e in s
    ensures e.key != key
  {
  }

  // ---- what is left ----

  /** x comes before y. */
  ghost predicate Before<K(!new)>(s: seq<Entry<K>>, x: Entry<K>, y: Entry<K>) {
    exists p, q :: 0 <= p < q < |s| && s[p] == x && s[q] == y
  }

  /** Entries of `s`, in the order of `s`. */
  ghost predicate InOrder<K(!new)>(a: seq<Entry<K>>, s: seq<Entry<K>>) {
    && (forall e :: e in a ==> e in s)
    && forall i, k :: 0 <= i < k < |a| ==> Before(s, a[i], a[k])
  }

  lemma InOrderIsTransitive<K(!new)>(a: seq<Entry<K>>, b: seq<Entry<K>>, c: seq<Entry<K>>)
    requires InOrder(a, b) && InOrder(b, c)
    ensures InOrder(a, c)
  {
    forall i, k | 0 <= i < k < |a| ensures Before(c, a[i], a[k]) {
      assert Before(b, a[i], a[k]);
    }
  }

  lemma BeforeInFront<K(!new)>(s: seq<Entry<K>>, last: Entry<K>, x: Entry<K>, y: Entry<K>)
    ensures Before(s + [last], x, y) <==> Before(s, x, y) || (x in s && y == last)
  {
    var all := s + [last];
    if Before(s, x, y) {
      var p, q :| 0 <= p < q < |s| && s[p] == x && s[q] == y;
      assert all[p] == x && all[q] == y;
    } else if x in s && y == last {
      var p :| 0 <= p < |s| && s[p] == x;
      assert all[p] == x && all[|s|] == y;
    }
  }

  lemma InOrderGrows<K(!new)>(a: seq<Entry<K>>, s: seq<Entry<K>>, last: Entry<K>)
    requires InOrder(a, s)
    ensures InOrder(a, s + [last]) && InOrder(a + [last], s + [last])
  {
    forall x, y ensures Before(s + [last], x, y) <==> Before(s, x, y) || (x in s && y == last) {
      BeforeInFront(s, last, x, y);
    }
    hide Before;
  }

  lemma OrderIsDistinct<K(!new)>(a: seq<Entry<K>>, s: seq<Entry<K>>)
    requires Distinct(s) && InOrder(a, s)
    ensures Distinct(a)
  {
    forall i, k | 0 <= i < k < |a| ensures a[i].key != a[k].key {
      assert Before(s, a[i], a[k]);
    }
  }

  /** The young entries are those that stay, in their order. */
  lemma {:induction false} YoungIs<K(!new)>(s: seq<Entry<K>>, key: K, timestamp: real, o: Options<K>)
    ensures var young := Young(s, key, timestamp, o);
            InOrder(young, s) && forall e :: e in young <==> e in s && Stays(e, key, timestamp, o)
  {
    if s != [] {
      var front, last := s[..|s| - 1], s[|s| - 1];
      YoungIs(front, key, timestamp, o);
      InOrderGrows(Young(front, key, timestamp, o), front, last);
      hide InOrder, Stays;
      assert s == front + [last];
      assert Young(front, key, timestamp, o) + [] == Young(front, key, timestamp, o);
      assert forall e :: e in s <==> e in front || e == last;
    }
  }

  lemma YoungKeepsKey<K(!new)>(s: seq<Entry<K>>, key: K, timestamp: real, o: Options<K>)
    ensures HasKey(Young(s, key, timestamp, o), key) <==> HasKey(s, key)
  {
    var young := Young(s, key, timestamp, o);
    YoungIs(s, key, timestamp, o);
    hide InOrder;
    if i :| 0 <= i < |s| && s[i].key == key {
      assert s[i] in young;
    }
    if HasKey(young, key) {
      var i :| 0 <= i < |young| && young[i].key == key;
      assert young[i] in s;
    }
  }

  lemma KeyInFront<K>(s: seq<Entry<K>>, last: Entry<K>, key: K)
    ensures HasKey(s + [last], key) <==> HasKey(s, key) || last.key == key
  {
    var all := s + [last];
    assert forall i :: 0 <= i < |s| ==> all[i] == s[i];
    assert all[|s|] == last;
  }

  lemma {:induction false} YoungKeepsOrder<K(!new)>(s: seq<Entry<K>>, key: K, timestamp: real, o: Options<K>,
                                                    x: Entry<K>, y: Entry<K>)
    requires Before(s, x, y) && Stays(x, key, timestamp, o) && Stays(y, key, timestamp, o)
    ensures Before(Young(s, key, timestamp, o), x, y)
  {
    var front, last := s[..|s| - 1], s[|s| - 1];
    assert s == front + [last];
    BeforeInFront(front, last, x, y);
    BeforeInFront(Young(front, key, timestamp, o), last, x, y);
    YoungIs(front, key, timestamp, o);
    hide Before, InOrder, Stays;
    if Before(front, x, y) {
      YoungKeepsOrder(front, key, timestamp, o, x, y);
    }
    assert Young(front, key, timestamp, o) + [] == Young(front, key, timestamp, o);
  }

  lemma {:induction false} WithoutIs<K(!new)>(s: seq<Entry<K>>, key: K)
    ensures InOrder(Without(s, key), s) && forall e :: e in Without(s, key) <==> e in s && e.key != key
  {
    if s != [] {
      var front, last := s[..|s| - 1], s[|s| - 1];
      WithoutIs(front, key);
      InOrderGrows(Without(front, key), front, last);
      hide InOrder;
      assert s == front + [last];
      assert Without(front, key) + [] == Without(front, key);
      assert forall e :: e in s <==> e in front || e == last;
    }
  }

  lemma {:induction false} WithoutOne<K(!new)>(s: seq<Entry<K>>, key: K)
    requires Distinct(s)
    ensures !HasKey(Without(s, key), key) && |Without(s, key)| == |s| - (if HasKey(s, key) then 1 else 0)
  {
    if s != [] {
      var front, last := s[..|s| - 1], s[|s| - 1];
      assert s == front + [last];
      WithoutOne(front, key);
      KeyInFront(front, last, key);
      KeyInFront(Without(front, key), last, key);
      KeyOnce(front, last, key);
      hide HasKey, Distinct;
      assert Without(front, key) + [] == Without(front, key);
    }
  }

  lemma KeyOnce<K(!new)>(s: seq<Entry<K>>, last: Entry<K>, key: K)
    requires Distinct(s + [last])
    ensures !(HasKey(s, key) && last.key == key)
  {
    var all := s + [last];
    assert forall i :: 0 <= i < |s| ==> all[i] == s[i] && all[i].key != all[|s|].key;
  }

  lemma {:induction false} WithoutKeepsOrder<K(!new)>(s: seq<Entry<K>>, key: K, x: Entry<K>, y: Entry<K>)
    requires Distinct(s) && Before(s, x, y) && x.key != key && y.key != key
    ensures Before(Without(s, key), x, y)
  {
    var front, last := s[..|s| - 1], s[|s| - 1];
    assert s == front + [last];
    BeforeInFront(front, last, x, y);
    BeforeInFront(Without(front, key), last, x, y);
    WithoutIs(front, key);
    hide Before, InOrder;
    if Before(front, x, y) {
      WithoutKeepsOrder(front, key, x, y);
    }
    assert Without(front, key) + [] == Without(front, key);
  }

  // ---- eviction ----

  ghost predicate AllProtected<K(!new)>(s: seq<Entry<K>>, o: Options<K>) {
    forall e :: e in s ==> e.key in o.protectedKeys
  }

  /** Protected entries are kept, and so are all entries once the excess is gone; no more than the excess goes. */
  lemma {:induction false} EvictedIs<K(!new)>(s: seq<Entry<K>>, excess: int, o: Options<K>)
    ensures var left := Evicted(s, excess, o);
            && (forall e :: e in left ==> e in s)
            && (forall e :: e in s && e.key in o.protectedKeys ==> e in left)
            && (excess <= 0 ==> left == s)
            && (excess > 0 ==> |left| >= |s| - excess && (|left| == |s| - excess || AllProtected(left, o)))
  {
    if s != [] && excess > 0 {
      EvictedIs(s[1..], if s[0].key in o.protectedKeys then excess else excess - 1, o);
      assert forall e :: e in s <==> e == s[0] || e in s[1..];
    }
  }

  lemma BeforeFromFirst<K(!new)>(first: Entry<K>, s: seq<Entry<K>>, x: Entry<K>, y: Entry<K>)
    ensures Before([first] + s, x, y) <==> Before(s, x, y) || (x == first && y in s)
  {
    var all := [first] + s;
    if Before(s, x, y) {
      var p, q :| 0 <= p < q < |s| && s[p] == x && s[q] == y;
      assert all[p + 1] == x && all[q + 1] == y;
    } else if x == first && y in s {
      var q :| 0 <= q < |s| && s[q] == y;
      assert all[0] == x && all[q + 1] == y;
    }
    if Before(all, x, y) {
      var p, q :| 0 <= p < q < |all| && all[p] == x && all[q] == y;
      assert all[q] == s[q - 1];
      if p > 0 { assert all[p] == s[p - 1]; }
    }
  }

  lemma InOrderFromFirst<K(!new)>(first: Entry<K>, a: seq<Entry<K>>, s: seq<Entry<K>>)
    requires InOrder(a, s)
    ensures InOrder(a, [first] + s) && InOrder([first] + a, [first] + s)
  {
    forall x, y ensures Before([first] + s, x, y) <==> Before(s, x, y) || (x == first && y in s) {
      BeforeFromFirst(first, s, x, y);
    }
    hide Before;
  }

  lemma {:induction false} EvictedInOrder<K(!new)>(s: seq<Entry<K>>, excess: int, o: Options<K>)
    ensures InOrder(Evicted(s, excess, o), s)
  {
    if s != [] && excess > 0 {
      var less := if s[0].key in o.protectedKeys then excess else excess - 1;
      EvictedInOrder(s[1..], less, o);
      InOrderFromFirst(s[0], Evicted(s[1..], less, o), s[1..]);
      assert [s[0]] + s[1..] == s;
    }
  }

  /** The least recently touched go first: an unprotected entry that is kept has everything after it kept. */
  lemma {:induction false} EvictedFromFront<K(!new)>(s: seq<Entry<K>>, excess: int, o: Options<K>, x: Entry<K>,
                                                     y: Entry<K>)
    requires Distinct(s) && Before(s, x, y) && x.key !in o.protectedKeys && x in Evicted(s, excess, o)
    ensures y in Evicted(s, excess, o)
  {
    if s != [] && excess > 0 {
      var less := if s[0].key in o.protectedKeys then excess else excess - 1;
      assert [s[0]] + s[1..] == s;
      BeforeFromFirst(s[0], s[1..], x, y);
      EvictedIs(s[1..], less, o);
      FirstIsOnce(s);
      hide Distinct;
      if Before(s[1..], x, y) && x in Evicted(s[1..], less, o) {
        EvictedFromFront(s[1..], less, o, x, y);
      }
    }
  }

  lemma FirstIsOnce<K(!new)>(s: seq<Entry<K>>)
    requires s != [] && Distinct(s)
    ensures s[0] !in s[1..] && Distinct(s[1..])
  {
  }

  // ---- a touch ----

  function Rest<K(==)>(s: seq<Entry<K>>, key: K, timestamp: real, o: Options<K>): seq<Entry<K>> {
    Without(Young(s, key, timestamp, o), key)
  }

  /** What may be evicted: everything still young but the key. */
  lemma RestIs<K(!new)>(s: seq<Entry<K>>, key: K, timestamp: real, o: Options<K>)
    requires Distinct(s)
    ensures var rest := Rest(s, key, timestamp, o);
            && Distinct(rest) && InOrder(rest, s) && !HasKey(rest, key)
            && forall e :: e in rest <==> e in s && e.key != key && Stays(e, key, timestamp, o)
  {
    var young := Young(s, key, timestamp, o);
    YoungIs(s, key, timestamp, o);
    OrderIsDistinct(young, s);
    WithoutIs(young, key);
    WithoutOne(young, key);
    InOrderIsTransitive(Without(young, key), young, s);
    OrderIsDistinct(Without(young, key), s);
    hide Distinct, InOrder, HasKey;
  }

  /** Each survivor of a touch: the key last, with the new time, and before it entries from before, in their order. */
  lemma TouchedIs<K(!new)>(s: seq<Entry<K>>, key: K, timestamp: real, o: Options<K>)
    requires Distinct(s)
    ensures var after := Touched(s, key, timestamp, o); var front := after[..|after| - 1];
            && after[|after| - 1] == Entry(key, timestamp)
            && Distinct(after) && InOrder(front, s)
            && (forall e :: e in front ==> e.key != key && (e.key in o.protectedKeys || timestamp - e.at < MaxAge(o)))
            && (forall e :: e in s && e.key != key && e.key in o.protectedKeys ==> e in front)
  {
    var rest := Rest(s, key, timestamp, o);
    var excess := |rest| + 1 - Limit(o);
    RestIs(s, key, timestamp, o);
    EvictedIs(rest, excess, o);
    EvictedInOrder(rest, excess, o);
    var front := Evicted(rest, excess, o);
    InOrderIsTransitive(front, rest, s);
    OrderIsDistinct(front, s);
    assert (front + [Entry(key, timestamp)])[..|front|] == front;
    hide InOrder, HasKey;
  }

  /**
   The size is within the limit, or only the key and protected entries are left; and no more is evicted than
   that takes.
   */
  lemma TouchedIsBounded<K(!new)>(s: seq<Entry<K>>, key: K, timestamp: real, o: Options<K>)
    requires Distinct(s)
    ensures var after := Touched(s, key, timestamp, o);
            && (|after| <= Limit(o) || forall e :: e in after ==> e.key == key || e.key in o.protectedKeys)
            && (|after| < Limit(o) ==> forall e :: e in s && e.key != key && Stays(e, key, timestamp, o) ==> e in after)
  {
    var rest := Rest(s, key, timestamp, o);
    RestIs(s, key, timestamp, o);
    EvictedIs(rest, |rest| + 1 - Limit(o), o);
  }

  /** Among young unprotected entries the least recently touched are evicted first. */
  lemma TouchedEvictsOldest<K(!new)>(s: seq<Entry<K>>, key: K, timestamp: real, o: Options<K>, x: Entry<K>, y: Entry<K>)
    requires Distinct(s) && Before(s, x, y) && x.key != key && y.key != key && x.key !in o.protectedKeys
    requires Stays(x, key, timestamp, o) && Stays(y, key, timestamp, o)
    requires x in Touched(s, key, timestamp, o)
    ensures y in Touched(s, key, timestamp, o)
  {
    hide Before, InOrder, Distinct, Stays, HasKey, Young, Without, Evicted;
    var young, rest := Young(s, key, timestamp, o), Rest(s, key, timestamp, o);
    YoungIs(s, key, timestamp, o);
    OrderIsDistinct(young, s);
    YoungKeepsOrder(s, key, timestamp, o, x, y);
    WithoutKeepsOrder(young, key, x, y);
    RestIs(s, key, timestamp, o);
    EvictedFromFront(rest, |rest| + 1 - Limit(o), o, x, y);
  }
}
