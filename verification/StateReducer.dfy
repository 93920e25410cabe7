/**
 Keeping the newest state of a run when its events may arrive late, twice or out of order.
 */
module StateReducer {

  datatype Option<T> = None | Some(value: T)

  /** What an event says; a field it does not carry is none. */
  datatype State = State(
    runKey: Option<string>,
    sessionId: Option<string>,
    seqNumber: Option<int>,
    stateVersion: Option<int>,
    generatedAt: Option<string>,
    status: Option<string>,
    state: Option<string>,
    others: map<string, string>
  )

  const TERMINAL_STATES: set<string> := {
    "completed", "failed", "stopped", "deleted", "delete_failed", "timeout", "stalled", "error", "operation_completed",
    "operation_failed", "completed_with_errors", "cancelled", "canceled", "unsupported"}

  /** How times are read. */
  type Clock = string -> Option<int>

  function TextOf(a: Option<string>): string {
    if a.Some? then a.value else ""
  }

  function NumberOf(a: Option<int>): int {
    if a.Some? then a.value else 0
  }

  function Lower(s: string): string {
    if s == "" then "" else [if 'A' <= s[0] <= 'Z' then s[0] - 'A' + 'a' else s[0]] + Lower(s[1..])
  }

  predicate IsTerminal(s: State) {
    Lower(if TextOf(s.status) != "" then TextOf(s.status) else TextOf(s.state)) in TERMINAL_STATES
  }

  /** Both name the run, the same, and each a session, not the same. */
  predicate IsNewSession(previous: State, incoming: State) {
    && TextOf(incoming.runKey) != "" && TextOf(incoming.runKey) == TextOf(previous.runKey)
    && TextOf(incoming.sessionId) != "" && TextOf(previous.sessionId) != "" && incoming.sessionId != previous.sessionId
  }

  predicate ShouldAccept(clock: Clock, previous: Option<State>, incoming: State) {
    if previous.None? then true
    else
      var held := previous.value;
      var heldSeq, nextSeq := NumberOf(held.seqNumber), NumberOf(incoming.seqNumber);
      var heldVersion, nextVersion := NumberOf(held.stateVersion), NumberOf(incoming.stateVersion);
      var heldTime, nextTime := clock(TextOf(held.generatedAt)), clock(TextOf(incoming.generatedAt));
      if IsNewSession(held, incoming) then true
      else if heldSeq != 0 && nextSeq != 0 && nextSeq < heldSeq then false
      else if heldVersion != 0 && nextVersion != 0 && nextVersion < heldVersion then false
      else if heldTime.Some? && nextTime.Some? && nextTime.value < heldTime.value && nextSeq == 0 then false
      else
        !(IsTerminal(held) && !IsTerminal(incoming) && held.runKey == incoming.runKey &&
          TextOf(held.sessionId) == TextOf(incoming.sessionId))
  }

  function Over<T>(a: Option<T>, b: Option<T>): Option<T> {
    if b.Some? then b else a
  }

  /** The fields of the second laid over those of the first. */
  function Spread(a: State, b: State): State {
    State(Over(a.runKey, b.runKey), Over(a.sessionId, b.sessionId), Over(a.seqNumber, b.seqNumber),
          Over(a.stateVersion, b.stateVersion),
          Over(a.generatedAt, b.generatedAt), Over(a.status, b.status), Over(a.state, b.state), a.others + b.others)
  }

  function Merge(clock: Clock, previous: Option<State>, incoming: State): Option<State> {
    if !ShouldAccept(clock, previous, incoming) then previous
    else if previous.None? then Some(incoming)
    else Some(Spread(previous.value, incoming))
  }

  /** The state held after events have arrived one after the other. */
  function Held(clock: Clock, arrivals: seq<State>): Option<State> {
    if arrivals == [] then None
    else Merge(clock, Held(clock, arrivals[..|arrivals| - 1]), arrivals[|arrivals| - 1])
  }

  // ---- one session ----

  /** Events of one run and session that carry the same fields, a status, different positive numbers and no version. */
  ghost predicate OneSession(events: seq<State>) {
    && (forall i, k :: 0 <= i < |events| && 0 <= k < |events| ==> Alike(events[i], events[k]))
    && (forall i :: 0 <= i < |events| ==> IsNumbered(events[i]))
    && (forall i, k :: 0 <= i < k < |events| ==> events[i].seqNumber != events[k].seqNumber)
  }

  ghost predicate Alike(a: State, b: State) {
    && a.runKey == b.runKey && a.sessionId == b.sessionId && (a.generatedAt.Some? <==> b.generatedAt.Some?)
    && (a.state.Some? <==> b.state.Some?) && a.others.Keys == b.others.Keys
  }

  ghost predicate IsNumbered(e: State) {
    e.seqNumber.Some? && e.seqNumber.value > 0 && e.stateVersion.None? && TextOf(e.status) != ""
  }

  /** An event of the session replaces another whole, or leaves it whole. */
  lemma MergeInSession(clock: Clock, held: State, incoming: State)
    requires Alike(held, incoming) && IsNumbered(held) && IsNumbered(incoming)
    ensures Merge(clock, Some(held), incoming) ==
      if incoming.seqNumber.value < held.seqNumber.value || (IsTerminal(held) && !IsTerminal(incoming)) then Some(held)
      else Some(incoming)
  {
    hide IsTerminal;
    assert held.others + incoming.others == incoming.others;
  }

  /** What arrives are events of the session, in any order and any number of times. */
  ghost predicate ArriveFrom(arrivals: seq<State>, events: seq<State>) {
    forall i :: 0 <= i < |arrivals| ==> arrivals[i] in events
  }

  ghost predicate IsHighest(e: State, events: seq<State>) {
    e in events && e.seqNumber.Some? &&
      forall i :: 0 <= i < |events| && events[i].seqNumber.Some? ==> events[i].seqNumber.value <= e.seqNumber.value
  }

  lemma PairOf(events: seq<State>, a: State, b: State)
    requires OneSession(events) && a in events && b in events
    ensures Alike(a, b) && IsNumbered(a) && IsNumbered(b) && (a.seqNumber == b.seqNumber ==> a == b)
  {
    var i :| 0 <= i < |events| && events[i] == a;
    var k :| 0 <= k < |events| && events[k] == b;
    if i < k { assert events[i].seqNumber != events[k].seqNumber; }
    if k < i { assert events[k].seqNumber != events[i].seqNumber; }
  }

  /** What is held is an event that arrived. */
  lemma {:induction false} HeldArrived(clock: Clock, events: seq<State>, arrivals: seq<State>)
    requires OneSession(events) && ArriveFrom(arrivals, events) && arrivals != []
    ensures Held(clock, arrivals).Some? && Held(clock, arrivals).value in arrivals
  {
    var front, last := arrivals[..|arrivals| - 1], arrivals[|arrivals| - 1];
    if front == [] {
      assert Held(clock, front) == None;
    } else {
      HeldArrived(clock, events, front);
      PairOf(events, Held(clock, front).value, last);
      MergeInSession(clock, Held(clock, front).value, last);
    }
  }

  /** Through a whole session the held number only goes up, and a terminal status, once held, is held to the end. */
  lemma {:induction false} HeldOnlyAdvances(clock: Clock, events: seq<State>, arrivals: seq<State>, n: nat)
    requires OneSession(events) && ArriveFrom(arrivals, events) && 0 < n <= |arrivals|
    ensures Held(clock, arrivals[..n]).Some? && Held(clock, arrivals).Some?
    ensures var early, late := Held(clock, arrivals[..n]).value, Held(clock, arrivals).value;
            NumberOf(early.seqNumber) <= NumberOf(late.seqNumber) && (IsTerminal(early) ==> IsTerminal(late))
    decreases |arrivals|
  {
    HeldArrived(clock, events, arrivals[..n]);
    if n == |arrivals| {
      assert arrivals[..n] == arrivals;
    } else {
      var front, last := arrivals[..|arrivals| - 1], arrivals[|arrivals| - 1];
      assert front[..n] == arrivals[..n];
      HeldOnlyAdvances(clock, events, front, n);
      HeldArrived(clock, events, front);
      PairOf(events, Held(clock, front).value, last);
      MergeInSession(clock, Held(clock, front).value, last);
      hide IsTerminal;
    }
  }

  /** Once the highest event has arrived, it is held, if it is terminal or nothing before it was. */
  lemma {:induction false} HighestIsHeld(clock: Clock, events: seq<State>, arrivals: seq<State>, highest: State)
    requires OneSession(events) && ArriveFrom(arrivals, events) && IsHighest(highest, events) && highest in arrivals
    requires IsTerminal(highest) || forall i :: 0 <= i < |events| ==> !IsTerminal(events[i])
    ensures Held(clock, arrivals) == Some(highest)
  {
    hide IsTerminal;
    var front, last := arrivals[..|arrivals| - 1], arrivals[|arrivals| - 1];
    if highest in front {
      HighestIsHeld(clock, events, front, highest);
      PairOf(events, highest, last);
      MergeInSession(clock, highest, last);
    } else {
      assert last == highest;
      if front != [] {
        HeldArrived(clock, events, front);
        var held := Held(clock, front).value;
        PairOf(events, held, highest);
        MergeInSession(clock, held, highest);
      }
    }
  }

  /** Every way for all the events to arrive ends with the same state held. */
  ghost predicate OrderDoesNotMatter(clock: Clock, events: seq<State>) {
    forall a, b :: Covers(a, events) && Covers(b, events) ==> Held(clock, a) == Held(clock, b)
  }

  /** All the events and no others, in any order, any of them more than once. */
  ghost predicate Covers(arrivals: seq<State>, events: seq<State>) {
    ArriveFrom(arrivals, events) && forall i :: 0 <= i < |events| ==> events[i] in arrivals
  }

  /** The order of arrival does not matter exactly when the highest event is terminal or none is. */
  lemma OrderDoesNotMatterIff(clock: Clock, events: seq<State>, highest: State)
    requires OneSession(events) && IsHighest(highest, events)
    ensures OrderDoesNotMatter(clock, events) <==>
            IsTerminal(highest) || forall i :: 0 <= i < |events| ==> !IsTerminal(events[i])
  {
    hide IsTerminal;
    if IsTerminal(highest) || forall i :: 0 <= i < |events| ==> !IsTerminal(events[i]) {
      forall a | Covers(a, events) ensures Held(clock, a) == Some(highest) {
        HighestIsHeld(clock, events, a, highest);
      }
    } else {
      var i :| 0 <= i < |events| && IsTerminal(events[i]);
      TwoOrders(clock, events, highest, events[i]);
    }
  }

  /** Whatever arrives after the first event, the number stays at least its own, and its terminal status stays. */
  lemma AfterFirst(clock: Clock, events: seq<State>, first: State)
    requires OneSession(events) && first in events
    ensures var a := [first] + events;
            && Covers(a, events) && Held(clock, a).Some? && Held(clock, a).value in events
            && NumberOf(first.seqNumber) <= NumberOf(Held(clock, a).value.seqNumber)
            && (IsTerminal(first) ==> IsTerminal(Held(clock, a).value))
  {
    hide IsTerminal, OneSession;
    var a := [first] + events;
    assert forall i :: 0 <= i < |events| ==> a[i + 1] == events[i];
    assert ArriveFrom(a, events) && Covers(a, events);
    assert a[..1] == [first];
    HeldOne(clock, first);
    HeldOnlyAdvances(clock, events, a, 1);
    HeldArrived(clock, events, a);
  }

  lemma HeldOne(clock: Clock, e: State)
    ensures Held(clock, [e]) == Some(e)
  {
    assert [e][..0] == [];
  }

  /** With the highest first it is held to the end; with the terminal one first, what is held is terminal. */
  lemma TwoOrders(clock: Clock, events: seq<State>, highest: State, terminal: State)
    requires OneSession(events) && IsHighest(highest, events) && terminal in events && IsTerminal(terminal) &&
             !IsTerminal(highest)
    ensures Covers([highest] + events, events) && Covers([terminal] + events, events)
    ensures Held(clock, [highest] + events) != Held(clock, [terminal] + events)
  {
    hide IsTerminal, OneSession, Covers, Held;
    AfterFirst(clock, events, highest);
    AfterFirst(clock, events, terminal);
    PairOf(events, Held(clock, [highest] + events).value, highest);
  }

  lemma {:induction false} LowerLetters(s: string)
    requires forall i :: 0 <= i < |s| ==> 'a' <= s[i] <= 'z'
    ensures Lower(s) == s
  {
    if s != "" {
      LowerLetters(s[1..]);
      assert s == [s[0]] + s[1..];
    }
  }

  /** The n-th event of a session, with a status and nothing else. */
  function Report(n: int, status: string): State {
    State(Some("run"), Some("session"), Some(n), None, None, Some(status), None, map[])
  }

  lemma CompletedIsListed()
    ensures "completed" in TERMINAL_STATES
  {
  }

  lemma NothingInRIsListed(word: string)
    requires word != "" && word[0] == 'r'
    ensures word !in TERMINAL_STATES
  {
  }

  lemma ReportsDiffer()
    ensures IsTerminal(Report(1, "completed")) && !IsTerminal(Report(2, "running"))
  {
    hide Lower, TERMINAL_STATES;
    LowerLetters("completed");
    LowerLetters("running");
    CompletedIsListed();
    NothingInRIsListed("running");
  }

  lemma HeldTwo(clock: Clock, first: State, second: State)
    ensures Held(clock, [first, second]) == Merge(clock, Some(first), second)
  {
    hide Merge;
    HeldOne(clock, first);
    assert [first, second][..1] == [first];
  }

  /** A run reported completed and then, under a higher number, running: whichever arrives first is held to the end. */
  lemma FirstArrivalIsHeld(clock: Clock)
    ensures Held(clock, [Report(1, "completed"), Report(2, "running")]) == Some(Report(1, "completed"))
    ensures Held(clock, [Report(2, "running"), Report(1, "completed")]) == Some(Report(2, "running"))
  {
    hide Held, Merge, IsTerminal;
    var completed, running := Report(1, "completed"), Report(2, "running");
    ReportsDiffer();
    HeldTwo(clock, completed, running);
    HeldTwo(clock, running, completed);
    MergeInSession(clock, completed, running);
    MergeInSession(clock, running, completed);
  }
}
