/**
 One server-sent event subscription: a socket that may fill up or fail, a queue of frames held back
 while it is full, a byte budget, an event cap and a closing gap frame. Server state is a journal
 and the subscriptions listening to it.
 */
module EventStream {
  import opened EventJournal

  // Bytes of the frames `event: gap ... slow_consumer` and `event: gap ... subscriber_limit`.
  const SLOW_CONSUMER_GAP_BYTES: nat := 102
  const SUBSCRIBER_LIMIT_GAP_BYTES: nat := 105

  // The most bytes HTTP adds to one write: chunk size and line ends, and before the first the headers.
  const FRAMING: nat

  datatype Limits = Limits(maxEvents: nat, maxBufferBytes: nat, maxClients: nat, maxPendingBytes: nat)

  /** The bounds the constructor clamps its options to. */
  predicate ValidLimits(limits: Limits) {
    && 1 <= limits.maxEvents <= 1024
    && 1024 <= limits.maxBufferBytes
    && 1 <= limits.maxClients <= 64
    && 512 <= limits.maxPendingBytes
  }

  datatype Frame = EventFrame(event: Event) | GapFrame

  /** What one write to the socket does: it throws, or it leaves some bytes buffered and says whether it is full. */
  datatype WriteResult = Threw | Wrote(full: bool, held: nat)

  /**
   A subscription. `wire` is everything accepted by the socket so far, `held` the bytes of it not yet
   flushed (`writableLength`), `socket` how the socket answers its writes, one after the other; when no
   answer is left the peer is gone.
   */
  datatype Stream = Stream(sent: nat, closed: bool, backpressured: bool, finishWhenDrained: bool,
                           queuedBytes: nat, pending: seq<Event>, timer: bool,
                           held: nat, ended: bool, wire: seq<Frame>, socket: seq<WriteResult>)

  function Opened(socket: seq<WriteResult>): Stream {
    Stream(0, false, false, false, 0, [], false, 0, false, [], socket)
  }

  function Close(s: Stream, endResponse: bool): Stream {
    if s.closed then s
    else s.(closed := true, timer := false, ended := s.ended || endResponse)
  }

  function SendGap(s: Stream): Stream {
    if s.closed then s
    else
      var gone := s.(pending := [], queuedBytes := 0, closed := true, timer := false);
      if s.ended then gone
      else gone.(wire := s.wire + [GapFrame], held := s.held + SLOW_CONSUMER_GAP_BYTES + FRAMING, ended := true)
  }

  function Min(a: nat, b: nat): nat { if a <= b then a else b }

  function Minus(a: nat, b: nat): nat { if b <= a then a - b else 0 }

  function Answer(socket: seq<WriteResult>, k: nat): WriteResult {
    if k < |socket| then socket[k] else Threw
  }

  /** Hand one frame to the socket; a socket that throws closes the stream. The flag says there is room for more. */
  function Write(s: Stream, event: Event): (Stream, bool) {
    match Answer(s.socket, |s.wire|)
    case Threw => (Close(s, false), false)
    case Wrote(full, held) =>
      (s.(wire := s.wire + [EventFrame(event)], held := Min(held, s.held + event.bytes + FRAMING)), !full)
  }

  /** Queue a counted frame behind a full socket, or write it at once. */
  function Pass(s: Stream, event: Event): Stream {
    if s.backpressured || s.pending != [] then
      s.(pending := s.pending + [event], queuedBytes := s.queuedBytes + event.bytes)
    else
      var (after, room) := Write(s, event);
      if room then after else after.(backpressured := true)
  }

  /** At the event cap the stream ends as soon as nothing is held back. */
  function Cap(s: Stream, limits: Limits): Stream {
    if s.sent < limits.maxEvents then s
    else
      var last := s.(finishWhenDrained := true);
      if !last.backpressured && last.pending == [] then Close(last, true) else last
  }

  function SendFrame(s: Stream, event: Event, limits: Limits): Stream {
    if s.closed || s.sent >= limits.maxEvents then s
    else if s.held + s.queuedBytes + event.bytes + SLOW_CONSUMER_GAP_BYTES > limits.maxPendingBytes then SendGap(s)
    else Cap(Pass(s.(sent := s.sent + 1), event), limits)
  }

  /** Taking the oldest held-back event in hand. */
  function TakeOldest(s: Stream): Stream
    requires s.pending != []
  {
    s.(pending := s.pending[1..], queuedBytes := Minus(s.queuedBytes, s.pending[0].bytes))
  }

  function WriteOldest(s: Stream): Stream
    requires s.pending != []
  {
    var (after, room) := Write(TakeOldest(s), s.pending[0]);
    if room then after else after.(backpressured := true)
  }

  /** Write held-back frames, oldest first, until the socket is full again. */
  function Flush(s: Stream): Stream
    decreases |s.pending|
  {
    if s.backpressured || s.pending == [] || s.closed then s else Flush(WriteOldest(s))
  }

  function Drain(s: Stream): Stream {
    if s.closed then s
    else
      var flushed := Flush(s.(backpressured := false));
      if !flushed.closed && flushed.finishWhenDrained && !flushed.backpressured && flushed.pending == []
      then Close(flushed, true) else flushed
  }

  /** Replay history: every retained event after `since`, in order, until the stream closes. */
  function Replay(s: Stream, events: seq<Event>, since: nat, limits: Limits): Stream
    decreases |events|
  {
    if events == [] || s.closed then s
    else
      var next := if events[0].number > since then SendFrame(s, events[0], limits) else s;
      Replay(next, events[1..], since, limits)
  }

  predicate HistoryGap(journal: Journal, since: nat) {
    if journal.events != [] then since < journal.events[0].number - 1 else since < journal.sequence
  }

  /** A subscription as it stands when the request handler returns. */
  function Subscribe(journal: Journal, since: nat, socket: seq<WriteResult>, limits: Limits): Stream {
    if HistoryGap(journal, since) then SendGap(Opened(socket))
    else
      var s := Replay(Opened(socket), journal.events, since, limits);
      if s.closed then s
      else if s.sent >= limits.maxEvents && !s.backpressured && s.pending == [] then Close(s, true)
      else s.(timer := true)
  }

  /** A subscriber over the client limit only ever gets a gap frame. */
  function Rejected(socket: seq<WriteResult>): Stream {
    Opened(socket).(closed := true, ended := true, held := SUBSCRIBER_LIMIT_GAP_BYTES + FRAMING, wire := [GapFrame])
  }

  // ---- what every subscription keeps ----

  /** What HTTP adds at most to this many writes. */
  ghost function Overhead(writes: nat): nat {
    if writes == 0 then 0 else FRAMING + Overhead(writes - 1)
  }

  lemma {:induction false} OverheadIs(writes: nat)
    ensures Overhead(writes) == FRAMING * writes
  {
    if writes > 0 { OverheadIs(writes - 1); }
  }

  lemma {:induction false} OverheadGrows(fewer: nat, more: nat)
    requires fewer <= more
    ensures Overhead(fewer) <= Overhead(more)
    decreases more
  {
    if fewer < more { OverheadGrows(fewer, more - 1); }
  }

  /** How many events the socket has accepted: everything but a final gap frame. */
  function Accepted(s: Stream): nat {
    if s.wire != [] && s.wire[|s.wire| - 1].GapFrame? then |s.wire| - 1 else |s.wire|
  }

  /**
   A subscription that began after event number `base`. The socket holds a gapless run of the
   published history in order, closed off at most by one gap frame. An open subscription owns the
   continuation of that run: the event in hand, if any, and then the queue. Its bytes are within the
   budget, which knows nothing of what HTTP adds to each write.
   */
  ghost predicate Sound(s: Stream, inHand: bool, published: seq<Event>, base: nat, limits: Limits) {
    && base + s.sent <= |published|
    && s.sent <= limits.maxEvents
    && Accepted(s) <= s.sent
    && (forall i :: 0 <= i < Accepted(s) ==> s.wire[i] == EventFrame(published[base + i]))
    && (Accepted(s) < |s.wire| ==> s.closed && s.ended)
    && s.queuedBytes == TotalBytes(s.pending)
    && s.held <= limits.maxPendingBytes + Overhead(limits.maxEvents + 1)
    && (s.closed ==> !s.timer)
    && (!s.closed ==>
          && !s.ended
          && s.sent == Accepted(s) + (if inHand then 1 else 0) + |s.pending|
          && s.pending == published[base + s.sent - |s.pending|..base + s.sent]
          && s.held + (if inHand then published[base + Accepted(s)].bytes else 0) + s.queuedBytes
             + SLOW_CONSUMER_GAP_BYTES + Overhead(|s.pending| + if inHand then 1 else 0)
             <= limits.maxPendingBytes + Overhead(limits.maxEvents))
  }

  /**
   Between callbacks a subscription offered everything up to number `upto` has nothing in hand, and
   nothing offered was missed unless the cap is reached.
   */
  ghost predicate Carries(s: Stream, published: seq<Event>, base: nat, upto: nat, limits: Limits) {
    && Sound(s, false, published, base, limits)
    && base + s.sent <= upto <= |published|
    && (s.pending != [] ==> s.backpressured)
    && (!s.closed && s.sent < limits.maxEvents ==> base + s.sent == upto)
    && (!s.closed ==> (s.finishWhenDrained <==> s.sent >= limits.maxEvents))
    && (!s.closed && s.finishWhenDrained ==> s.backpressured)
  }

  lemma {:induction false} TotalBytesAppend(events: seq<Event>, event: Event)
    ensures TotalBytes(events + [event]) == TotalBytes(events) + event.bytes
  {
    if events != [] {
      assert (events + [event])[1..] == events[1..] + [event];
      TotalBytesAppend(events[1..], event);
    }
  }

  /** A write moves the event in hand to the socket, or closes the subscription. */
  lemma WriteSound(s: Stream, published: seq<Event>, base: nat, limits: Limits)
    requires !s.closed && Sound(s, true, published, base, limits)
    ensures Sound(Write(s, published[base + Accepted(s)]).0, false, published, base, limits)
    ensures Write(s, published[base + Accepted(s)]).0.closed ==> !Write(s, published[base + Accepted(s)]).1
  {
    if Answer(s.socket, |s.wire|).Wrote? {
      var event := published[base + Accepted(s)];
      var after := Write(s, event).0;
      assert after.wire[|after.wire| - 1] == EventFrame(event);
    }
  }

  /** The queue grows at its end. */
  lemma QueueSound(s: Stream, published: seq<Event>, base: nat, limits: Limits)
    requires !s.closed && s.sent < limits.maxEvents && base + s.sent < |published|
    requires Sound(s, false, published, base, limits)
    requires s.held + s.queuedBytes + published[base + s.sent].bytes + SLOW_CONSUMER_GAP_BYTES <= limits.maxPendingBytes
    ensures var event := published[base + s.sent];
            Sound(s.(sent := s.sent + 1, pending := s.pending + [event], queuedBytes := s.queuedBytes + event.bytes),
                  false, published, base, limits)
  {
    TotalBytesAppend(s.pending, published[base + s.sent]);
    OverheadGrows(|s.pending| + 1, limits.maxEvents);
  }

  /** Counting the next event takes it in hand. */
  lemma InHandSound(s: Stream, published: seq<Event>, base: nat, limits: Limits)
    requires !s.closed && s.sent < limits.maxEvents && base + s.sent < |published| && s.pending == []
    requires Sound(s, false, published, base, limits)
    requires s.held + s.queuedBytes + published[base + s.sent].bytes + SLOW_CONSUMER_GAP_BYTES <= limits.maxPendingBytes
    ensures Accepted(s) == s.sent && Sound(s.(sent := s.sent + 1), true, published, base, limits)
  {
    hide TotalBytes;
    OverheadGrows(1, limits.maxEvents);
  }

  /** Backpressure is no part of what a subscription holds. */
  lemma PressureSound(s: Stream, published: seq<Event>, base: nat, limits: Limits)
    requires Sound(s, false, published, base, limits)
    ensures Sound(s.(backpressured := true), false, published, base, limits)
  {
    hide TotalBytes;
  }

  lemma PassSound(s: Stream, published: seq<Event>, base: nat, limits: Limits)
    requires !s.closed && s.sent < limits.maxEvents && base + s.sent < |published|
    requires Sound(s, false, published, base, limits)
    requires s.pending != [] ==> s.backpressured
    requires s.held + s.queuedBytes + published[base + s.sent].bytes + SLOW_CONSUMER_GAP_BYTES <= limits.maxPendingBytes
    ensures var passed := Pass(s.(sent := s.sent + 1), published[base + s.sent]);
            && Sound(passed, false, published, base, limits)
            && passed.sent == s.sent + 1 && passed.finishWhenDrained == s.finishWhenDrained
            && (passed.pending != [] ==> passed.backpressured)
  {
    hide TotalBytes, Sound;
    if s.backpressured || s.pending != [] {
      QueueSound(s, published, base, limits);
    } else {
      InHandSound(s, published, base, limits);
      WriteSound(s.(sent := s.sent + 1), published, base, limits);
      PressureSound(Write(s.(sent := s.sent + 1), published[base + s.sent]).0, published, base, limits);
    }
  }

  lemma GapSound(s: Stream, published: seq<Event>, base: nat, limits: Limits)
    requires !s.closed && Sound(s, false, published, base, limits)
    ensures Sound(SendGap(s), false, published, base, limits)
    ensures SendGap(s).closed && SendGap(s).pending == [] && SendGap(s).sent == s.sent
  {
    var gone := SendGap(s);
    assert gone.wire[..|s.wire|] == s.wire;
    assert gone.wire[|gone.wire| - 1].GapFrame?;
  }

  /** At the cap nothing changes but whether the subscription is open. */
  lemma CapSound(s: Stream, published: seq<Event>, base: nat, limits: Limits)
    requires Sound(s, false, published, base, limits)
    ensures var capped := Cap(s, limits);
            && Sound(capped, false, published, base, limits) && capped.sent == s.sent && capped.pending == s.pending
            && capped.backpressured == s.backpressured && (s.closed ==> capped.closed)
            && (s.sent < limits.maxEvents ==>
                capped.finishWhenDrained == s.finishWhenDrained && capped.closed == s.closed)
            && (!capped.closed && s.sent >= limits.maxEvents ==>
                  capped.finishWhenDrained && (capped.backpressured || capped.pending != []))
  {
    hide TotalBytes;
  }

  /** Offering the next event of the history to a subscription. */
  lemma SendFrameCarries(s: Stream, published: seq<Event>, base: nat, upto: nat, limits: Limits)
    requires ValidLimits(limits) && upto < |published|
    requires Carries(s, published, base, upto, limits)
    ensures Carries(SendFrame(s, published[upto], limits), published, base, upto + 1, limits)
  {
    hide TotalBytes, Pass, SendGap, Cap, Sound, Accepted;
    var event := published[upto];
    if s.closed || s.sent >= limits.maxEvents {
    } else if s.held + s.queuedBytes + event.bytes + SLOW_CONSUMER_GAP_BYTES > limits.maxPendingBytes {
      GapSound(s, published, base, limits);
    } else {
      PassSound(s, published, base, limits);
      CapSound(Pass(s.(sent := s.sent + 1), event), published, base, limits);
    }
  }

  lemma TakeSound(s: Stream, published: seq<Event>, base: nat, limits: Limits)
    requires !s.closed && s.pending != [] && Sound(s, false, published, base, limits)
    ensures base + Accepted(s) < |published| && s.pending[0] == published[base + Accepted(s)]
    ensures Sound(TakeOldest(s), true, published, base, limits)
  {
    assert s.pending[0] == published[base + s.sent - |s.pending|];
  }

  lemma WriteOldestSound(s: Stream, published: seq<Event>, base: nat, limits: Limits)
    requires !s.closed && s.pending != [] && Sound(s, false, published, base, limits)
    ensures Sound(WriteOldest(s), false, published, base, limits)
    ensures WriteOldest(s).closed ==> WriteOldest(s).backpressured
  {
    hide TotalBytes, Sound, Write;
    TakeSound(s, published, base, limits);
    assert Accepted(TakeOldest(s)) == Accepted(s);
    WriteSound(TakeOldest(s), published, base, limits);
    PressureSound(Write(TakeOldest(s), s.pending[0]).0, published, base, limits);
  }

  /** Flushing moves held-back events to the socket and neither loses nor reorders any. */
  lemma {:induction false} FlushSound(s: Stream, published: seq<Event>, base: nat, limits: Limits)
    requires Sound(s, false, published, base, limits)
    ensures Sound(Flush(s), false, published, base, limits)
    ensures Flush(s).sent == s.sent && Flush(s).finishWhenDrained == s.finishWhenDrained
    ensures Flush(s).pending != [] && !s.closed ==> Flush(s).backpressured
    decreases |s.pending|
  {
    if !(s.backpressured || s.pending == [] || s.closed) {
      WriteOldestSound(s, published, base, limits);
      FlushSound(WriteOldest(s), published, base, limits);
    }
  }

  lemma DrainCarries(s: Stream, published: seq<Event>, base: nat, upto: nat, limits: Limits)
    requires Carries(s, published, base, upto, limits)
    ensures Carries(Drain(s), published, base, upto, limits)
  {
    if !s.closed {
      FlushSound(s.(backpressured := false), published, base, limits);
    }
  }

  lemma CloseCarries(s: Stream, endResponse: bool, published: seq<Event>, base: nat, upto: nat, limits: Limits)
    requires Carries(s, published, base, upto, limits)
    ensures Carries(Close(s, endResponse), published, base, upto, limits)
  {}

  /** What a subscription was sent stays true as the history grows. */
  lemma HistoryGrows(s: Stream, published: seq<Event>, more: seq<Event>, base: nat, upto: nat, limits: Limits)
    requires Carries(s, published, base, upto, limits)
    ensures Carries(s, published + more, base, upto, limits)
  {
    var all := published + more;
    forall i | 0 <= i < Accepted(s)
      ensures s.wire[i] == EventFrame(all[base + i])
    {
      assert all[base + i] == published[base + i];
    }
    if !s.closed {
      assert published[base + s.sent - |s.pending|..base + s.sent] == all[base + s.sent - |s.pending|..base + s.sent];
    }
  }

  /** Replaying from position `from` of the history brings a subscription up to date. */
  lemma {:induction false} ReplayCarries(s: Stream, published: seq<Event>, from: nat, since: nat, base: nat,
                                         limits: Limits)
    requires ValidLimits(limits) && Numbered(published) && from <= |published|
    requires base == Min(since, |published|)
    requires Carries(s, published, base, if from <= base then base else from, limits)
    ensures Carries(Replay(s, published[from..], since, limits), published, base, |published|, limits)
    decreases |published| - from
  {
    var events := published[from..];
    if from == |published| {
    } else if s.closed {
    } else {
      assert events[0] == published[from] && events[0].number == from + 1;
      assert events[1..] == published[from + 1..];
      if from >= base {
        SendFrameCarries(s, published, base, from, limits);
        ReplayCarries(SendFrame(s, published[from], limits), published, from + 1, since, base, limits);
      } else {
        ReplayCarries(s, published, from + 1, since, base, limits);
      }
    }
  }

  /** A history gap is reported exactly when some published event after `since` is no longer retained. */
  lemma HistoryGapIsExact(journal: Journal, published: seq<Event>, since: nat, limits: Limits)
    requires Numbered(published) && Retains(journal, published, limits.maxBufferBytes)
    ensures HistoryGap(journal, since) <==>
            exists i :: 0 <= i < |published| && published[i].number > since && published[i] !in journal.events
  {
    var first := |published| - |journal.events|;
    if HistoryGap(journal, since) {
      if journal.events != [] { assert journal.events[0] == published[first]; }
      assert first > since;
      forall i | 0 <= i < |journal.events|
        ensures journal.events[i] != published[since]
      {
        assert journal.events[i] == published[first + i];
      }
      assert published[since] !in journal.events;
    } else {
      forall i | 0 <= i < |published| && published[i].number > since
        ensures published[i] in journal.events
      {
        if journal.events != [] { assert journal.events[0] == published[first]; }
        assert journal.events[i - first] == published[i];
      }
    }
  }

  /** A new subscription starts right after `since`, or with a gap frame and nothing else. */
  lemma SubscribeCarries(journal: Journal, published: seq<Event>, since: nat, socket: seq<WriteResult>, limits: Limits)
    requires ValidLimits(limits) && Numbered(published) && Retains(journal, published, limits.maxBufferBytes)
    ensures Carries(Subscribe(journal, since, socket, limits), published, Min(since, |published|), |published|, limits)
    ensures HistoryGap(journal, since) ==>
      Subscribe(journal, since, socket, limits).wire == [GapFrame] && Subscribe(journal, since, socket, limits).closed
  {
    var base := Min(since, |published|);
    var start := Opened(socket);
    var first := |published| - |journal.events|;
    assert Sound(start, false, published, base, limits);
    hide Sound, TotalBytes, Fits;
    if HistoryGap(journal, since) {
      GapSound(start, published, base, limits);
    } else {
      if journal.events != [] { assert journal.events[0] == published[first]; }
      assert first <= base;
      ReplayCarries(start, published, first, since, base, limits);
    }
  }

  lemma RejectedCarries(socket: seq<WriteResult>, published: seq<Event>, base: nat, limits: Limits)
    requires ValidLimits(limits) && base <= |published|
    ensures Carries(Rejected(socket), published, base, |published|, limits)
  {}

  /** The kernel taking bytes off the buffer. */
  lemma FlushedBytesCarry(s: Stream, held: nat, published: seq<Event>, base: nat, upto: nat, limits: Limits)
    requires held <= s.held && Carries(s, published, base, upto, limits)
    ensures Carries(s.(held := held), published, base, upto, limits)
  {
    assert Accepted(s.(held := held)) == Accepted(s);
  }

  /** What the socket holds, and on an open subscription the queue and the gap frame with it. */
  lemma BudgetKept(s: Stream, published: seq<Event>, base: nat, upto: nat, limits: Limits)
    requires Carries(s, published, base, upto, limits)
    ensures s.held <= limits.maxPendingBytes + FRAMING * (limits.maxEvents + 1)
    ensures !s.closed ==> s.held + s.queuedBytes + FRAMING * |s.pending| + SLOW_CONSUMER_GAP_BYTES
                          <= limits.maxPendingBytes + FRAMING * limits.maxEvents
  {
    OverheadIs(limits.maxEvents + 1);
    OverheadIs(limits.maxEvents);
    OverheadIs(|s.pending|);
  }
}
