/**
 The event server as objects: a server with its journal and registries, and one object per
 subscription holding the state its callbacks share. Every method is proved equal to the
 corresponding operation of `EventServer`, so what holds in every run there holds here.
 */
module ApiServer {
  import opened EventJournal
  import opened EventStream
  import EventServer

  class SseStream {
    const server: LocalApiServer
    ghost const id: EventServer.Id
    const socket: seq<WriteResult>
    var sent: nat
    var closed: bool
    var backpressured: bool
    var finishWhenDrained: bool
    var queuedBytes: nat
    var pending: seq<Event>
    var timer: bool
    var writableLength: nat
    var writableEnded: bool
    var wire: seq<Frame>

    ghost function View(): Stream
      reads this
    {
      Stream(sent, closed, backpressured, finishWhenDrained, queuedBytes, pending, timer,
             writableLength, writableEnded, wire, socket)
    }

    constructor (server: LocalApiServer, ghost id: EventServer.Id, socket: seq<WriteResult>)
      ensures View() == Opened(socket)
      ensures this.server == server && this.id == id
    {
      this.server, this.id, this.socket := server, id, socket;
      sent, closed, backpressured, finishWhenDrained := 0, false, false, false;
      queuedBytes, pending, timer := 0, [], false;
      writableLength, writableEnded, wire := 0, false, [];
    }

    /** A subscription leaves both registries when it closes, and nothing else in them changes. */
    twostate predicate LeavesWhenClosed()
      reads this, server
    {
      && server.listeners ==
        (if closed && !old(closed) then Removed(old(server.listeners), this) else old(server.listeners))
      && server.sseClosers ==
        (if closed && !old(closed) then Removed(old(server.sseClosers), this) else old(server.sseClosers))
    }

    method Close(endResponse: bool)
      modifies this, server`listeners, server`sseClosers
      ensures View() == EventStream.Close(old(View()), endResponse)
      ensures LeavesWhenClosed()
    {
      if closed { return; }
      closed := true;
      timer := false;
      server.listeners := Removed(server.listeners, this);
      server.sseClosers := Removed(server.sseClosers, this);
      if endResponse && !writableEnded { writableEnded := true; }
    }

    method SendGap()
      modifies this, server`listeners, server`sseClosers
      ensures View() == EventStream.SendGap(old(View()))
      ensures LeavesWhenClosed()
    {
      hide Removed;
      if closed { return; }
      pending := [];
      queuedBytes := 0;
      closed := true;
      timer := false;
      server.listeners := Removed(server.listeners, this);
      server.sseClosers := Removed(server.sseClosers, this);
      if !writableEnded {
        wire := wire + [GapFrame];
        writableLength := writableLength + SLOW_CONSUMER_GAP_BYTES + FRAMING;
        writableEnded := true;
      }
    }

    method WriteFrame(event: Event) returns (room: bool)
      modifies this, server`listeners, server`sseClosers
      ensures (View(), room) == Write(old(View()), event)
      ensures LeavesWhenClosed()
    {
      match Answer(socket, |wire|)
      case Threw =>
        Close(false);
        room := false;
      case Wrote(full, held) =>
        wire := wire + [EventFrame(event)];
        writableLength := Min(held, writableLength + event.bytes + FRAMING);
        room := !full;
    }

    method PassFrame(event: Event)
      modifies this, server`listeners, server`sseClosers
      ensures View() == Pass(old(View()), event)
      ensures LeavesWhenClosed()
    {
      hide TotalBytes, Removed, Write;
      if backpressured || pending != [] {
        pending := pending + [event];
        queuedBytes := queuedBytes + event.bytes;
      } else {
        var room := WriteFrame(event);
        if !room { backpressured := true; }
      }
    }

    method FinishAtCap()
      modifies this, server`listeners, server`sseClosers
      ensures View() == Cap(old(View()), server.limits)
      ensures LeavesWhenClosed()
    {
      hide TotalBytes, Removed;
      if sent >= server.limits.maxEvents {
        finishWhenDrained := true;
        if !backpressured && pending == [] { Close(true); }
      }
    }

    method SendFrame(event: Event)
      modifies this, server`listeners, server`sseClosers
      ensures View() == EventStream.SendFrame(old(View()), event, server.limits)
      ensures LeavesWhenClosed()
    {
      hide TotalBytes, Removed, Write, Pass, EventStream.SendGap;
      if closed || sent >= server.limits.maxEvents { return; }
      if writableLength + queuedBytes + event.bytes + SLOW_CONSUMER_GAP_BYTES > server.limits.maxPendingBytes {
        SendGap();
      } else {
        sent := sent + 1;
        PassFrame(event);
        FinishAtCap();
      }
    }

    /** The answer to a subscriber over the client limit: one gap frame, no subscription. */
    method Reject()
      requires View() == Opened(socket)
      modifies this
      ensures View() == Rejected(socket)
    {
      closed, writableEnded, writableLength, wire := true, true, SUBSCRIBER_LIMIT_GAP_BYTES + FRAMING, [GapFrame];
    }

    /** Replay the retained events after `since`, in order, until the subscription closes. */
    method ReplayHistory(events: seq<Event>, since: nat)
      modifies this, server`listeners, server`sseClosers
      ensures View() == Replay(old(View()), events, since, server.limits)
      ensures LeavesWhenClosed()
    {
      hide TotalBytes, Removed, EventStream.SendFrame;
      var i := 0;
      while i < |events| && !closed
        invariant i <= |events| && (old(closed) ==> closed)
        invariant Replay(View(), events[i..], since, server.limits) == Replay(old(View()), events, since, server.limits)
        invariant LeavesWhenClosed()
      {
        var item := events[i];
        ghost var before := View();
        if item.number > since { SendFrame(item); }
        assert events[i..][1..] == events[i + 1..];
        i := i + 1;
      }
    }

    /** Start a registered subscription: a gap if history is missing, else history and then the timer. */
    method Begin(since: nat)
      requires View() == Opened(socket)
      modifies this, server`listeners, server`sseClosers
      ensures View() == Subscribe(server.CurrentJournal(), since, socket, server.limits)
      ensures LeavesWhenClosed()
    {
      hide TotalBytes, Removed, Replay;
      var historyGap := if server.events != [] then since < server.events[0].number - 1
                        else since < server.eventSequence;
      if historyGap {
        SendGap();
        return;
      }
      ReplayHistory(server.events, since);
      if closed { return; }
      if sent >= server.limits.maxEvents && !backpressured && pending == [] {
        Close(true);
        return;
      }
      timer := true;
    }

    method WriteOldestFrame()
      requires pending != []
      modifies this, server`listeners, server`sseClosers
      ensures View() == WriteOldest(old(View()))
      ensures LeavesWhenClosed()
    {
      hide TotalBytes, Removed, Write;
      var item := pending[0];
      pending := pending[1..];
      queuedBytes := Minus(queuedBytes, item.bytes);
      var room := WriteFrame(item);
      if !room { backpressured := true; }
    }

    method OnDrain()
      modifies this, server`listeners, server`sseClosers
      ensures View() == Drain(old(View()))
      ensures LeavesWhenClosed()
    {
      hide TotalBytes, Removed, Write, WriteOldest;
      if closed { return; }
      backpressured := false;
      while !backpressured && pending != [] && !closed
        invariant Flush(View()) == Flush(old(View()).(backpressured := false))
        invariant LeavesWhenClosed()
        decreases |pending|
      {
        ghost var before := View();
        WriteOldestFrame();
        FlushShrinks(before);
      }
      if !closed && finishWhenDrained && !backpressured && pending == [] { Close(true); }
    }
  }

  lemma FlushShrinks(s: Stream)
    requires s.pending != []
    ensures |WriteOldest(s).pending| == |s.pending| - 1
  {}

  function Removed(list: seq<SseStream>, s: SseStream): seq<SseStream> {
    if list == [] then [] else (if list[0] == s then [] else [list[0]]) + Removed(list[1..], s)
  }

  ghost function Ids(list: seq<SseStream>): seq<EventServer.Id> {
    seq(|list|, i requires 0 <= i < |list| => list[i].id)
  }

  ghost function Except(list: seq<SseStream>, gone: set<SseStream>): seq<SseStream> {
    if list == [] then [] else (if list[0] in gone then [] else [list[0]]) + Except(list[1..], gone)
  }

  lemma {:induction false} ExceptOneMore(list: seq<SseStream>, gone: set<SseStream>, s: SseStream)
    ensures Removed(Except(list, gone), s) == Except(list, gone + {s})
  {
    if list != [] {
      ExceptOneMore(list[1..], gone, s);
      var rest := Except(list[1..], gone);
      assert ([list[0]] + rest)[1..] == rest && [] + rest == rest;
    }
  }

  lemma {:induction false} ExceptSpec(list: seq<SseStream>, gone: set<SseStream>)
    ensures forall s :: s in Except(list, gone) <==> s in list && s !in gone
    ensures gone == {} ==> Except(list, gone) == list
    ensures Distinct(list) ==> Distinct(Except(list, gone))
  {
    if list != [] {
      ExceptSpec(list[1..], gone);
      if Distinct(list) { assert Distinct(list[1..]) && list[0] !in list[1..]; }
    }
  }

  lemma HasMember(list: seq<SseStream>)
    ensures list == [] || exists s :: s in list
  {
    if list != [] { assert list[0] in list; }
  }

  ghost predicate Distinct(list: seq<SseStream>) {
    forall i, j :: 0 <= i < j < |list| ==> list[i] != list[j]
  }

  class LocalApiServer {
    const limits: Limits
    var events: seq<Event>
    var eventBufferBytes: nat
    var eventSequence: nat
    var listeners: seq<SseStream>
    var sseClosers: seq<SseStream>
    // Every subscription ever made; its index is its identifier.
    ghost var subscribed: seq<SseStream>

    ghost function Streams(): map<EventServer.Id, Stream>
      reads this`subscribed, subscribed
    {
      map i: nat | i < |subscribed| :: subscribed[i].View()
    }

    ghost function View(): EventServer.Server
      reads this, subscribed
    {
      EventServer.Server(Journal(events, eventBufferBytes, eventSequence), Ids(listeners), Ids(sseClosers), Streams())
    }

    ghost predicate Numbered()
      reads this`subscribed
    {
      forall i :: 0 <= i < |subscribed| ==> subscribed[i].server == this && subscribed[i].id == i
    }

    ghost predicate Valid()
      reads this, subscribed
    {
      && ValidLimits(limits)
      && eventBufferBytes == TotalBytes(events)
      && Numbered()
      && Registered()
    }

    /** The registries agree and hold exactly the open subscriptions, once each. */
    ghost predicate Registered()
      reads this, subscribed
    {
      && listeners == sseClosers
      && Distinct(listeners)
      && (forall s :: s in listeners ==> s in subscribed)
      && (forall s :: s in subscribed ==> (s in listeners <==> !s.closed))
    }

    constructor (limits: Limits)
      requires ValidLimits(limits)
      ensures Valid() && View() == EventServer.Start().server && this.limits == limits
    {
      this.limits := limits;
      events, eventBufferBytes, eventSequence := [], 0, 0;
      listeners, sseClosers, subscribed := [], [], [];
    }

    lemma IdIsIndex(s: SseStream)
      requires Numbered() && s in subscribed
      ensures s.id < |subscribed| && subscribed[s.id] == s
    {
      var i :| 0 <= i < |subscribed| && subscribed[i] == s;
    }

    lemma {:induction false} ExceptIsStillOpen(list: seq<SseStream>, gone: set<SseStream>)
      requires Numbered() && forall s :: s in list ==> s in subscribed && (s in gone <==> s.closed)
      ensures Ids(Except(list, gone)) == EventServer.StillOpen(Ids(list), Streams())
    {
      if list != [] {
        ExceptIsStillOpen(list[1..], gone);
        assert Ids(list)[1..] == Ids(list[1..]);
        assert Ids(list)[0] == list[0].id;
        IdIsIndex(list[0]);
        assert Streams()[list[0].id].closed == list[0].closed;
        assert Ids([list[0]] + Except(list[1..], gone)) == [list[0].id] + Ids(Except(list[1..], gone));
      }
    }

    /** Both registries are `list` without `gone`, and `gone` is what closed of it. */
    ghost predicate RegistriesAre(list: seq<SseStream>, gone: set<SseStream>)
      reads this, list
    {
      && listeners == sseClosers == Except(list, gone)
      && forall s :: s in list ==> (s in gone <==> s.closed)
    }

    ghost function CurrentJournal(): Journal
      reads this
    {
      Journal(events, eventBufferBytes, eventSequence)
    }

    /** Append to the journal and drop the oldest events until both limits hold. */
    method Record(kind: string, data: string, bytes: nat) returns (item: Event)
      requires eventBufferBytes == TotalBytes(events)
      modifies this`events, this`eventBufferBytes, this`eventSequence
      ensures item == Event(old(eventSequence) + 1, kind, data, bytes)
      ensures CurrentJournal() == Append(old(CurrentJournal()), kind, data, bytes, limits.maxBufferBytes)
    {
      item := Event(eventSequence + 1, kind, data, bytes);
      eventSequence := item.number;
      TotalBytesAppend(events, item);
      events := events + [item];
      eventBufferBytes := eventBufferBytes + item.bytes;
      while |events| > EVENT_BUFFER_LIMIT || eventBufferBytes > limits.maxBufferBytes
        invariant eventBufferBytes == TotalBytes(events)
        invariant eventSequence == item.number
        invariant Trim(events, limits.maxBufferBytes) == Trim(old(events) + [item], limits.maxBufferBytes)
        decreases |events|
      {
        if events == [] { break; }
        var removed := events[0];
        events := events[1..];
        eventBufferBytes := Minus(eventBufferBytes, removed.bytes);
      }
      assert Fits(events, limits.maxBufferBytes);
      assert Trim(events, limits.maxBufferBytes) == events;
    }

    method Publish(kind: string, data: string, bytes: nat)
      requires Valid()
      modifies this`events, this`eventBufferBytes, this`eventSequence, this`listeners, this`sseClosers, subscribed
      ensures Valid()
      ensures View() == EventServer.PublishEvent(old(View()), kind, data, bytes, limits)
    {
      var item := Record(kind, data, bytes);
      ghost var before := old(View());
      Broadcast(item);
      hide TotalBytes, Fits, Trim, Append, EventStream.SendFrame, EventServer.StillOpen;
      PublishIsPublishEvent(before, old(listeners), item, kind, data, bytes);
    }

    /** The server after recording and broadcasting is the server the published event leads to. */
    lemma PublishIsPublishEvent(before: EventServer.Server, heard: seq<SseStream>, item: Event,
                                kind: string, data: string, bytes: nat)
      requires Valid() && forall s :: s in heard ==> s in subscribed
      requires before.listeners == before.closers == Ids(heard)
      requires forall i: EventServer.Id :: i in before.streams <==> i < |subscribed|
      requires CurrentJournal() == Append(before.journal, kind, data, bytes, limits.maxBufferBytes)
      requires item == Event(eventSequence, kind, data, bytes)
      requires forall s :: s in subscribed ==>
        s.id in before.streams &&
        s.View() == (if s in heard then EventStream.SendFrame(before.streams[s.id], item, limits)
                     else before.streams[s.id])
      requires Ids(listeners) == EventServer.StillOpen(Ids(heard), Streams())
      ensures View() == EventServer.PublishEvent(before, kind, data, bytes, limits)
    {
      hide TotalBytes, Append, EventStream.SendFrame, EventServer.StillOpen;
      IdsMember(heard);
      var after := EventServer.PublishEvent(before, kind, data, bytes, limits);
      forall i | 0 <= i < |subscribed| ensures i in after.streams && Streams()[i] == after.streams[i] {
        assert subscribed[i] in subscribed;
      }
      assert Streams() == after.streams;
    }

    lemma IdsMember(list: seq<SseStream>)
      requires Numbered() && forall s :: s in list ==> s in subscribed
      ensures forall i :: 0 <= i < |subscribed| ==> (i in Ids(list) <==> subscribed[i] in list)
    {
      forall i | 0 <= i < |subscribed|
        ensures i in Ids(list) <==> subscribed[i] in list
      {
        if i in Ids(list) {
          var k :| 0 <= k < |list| && list[k].id == i;
          IdIsIndex(list[k]);
        }
        if subscribed[i] in list {
          var k :| 0 <= k < |list| && list[k] == subscribed[i];
          assert Ids(list)[k] == i;
        }
      }
    }

    /** Every listener at the time of the call gets the event, whatever closes meanwhile. */
    method Broadcast(item: Event)
      requires Valid()
      modifies this`listeners, this`sseClosers, subscribed
      ensures Valid()
      ensures forall s :: s in subscribed ==>
        s.View() == if s in old(listeners) then EventStream.SendFrame(old(s.View()), item, limits) else old(s.View())
      ensures Ids(listeners) == EventServer.StillOpen(Ids(old(listeners)), Streams())
    {
      hide Except, Removed, EventStream.SendFrame, TotalBytes, EventServer.StillOpen;
      var snapshot := listeners;
      ghost var gone: set<SseStream> := {};
      ExceptSpec(snapshot, gone);
      for i := 0 to |snapshot|
        invariant RegistriesAre(snapshot, gone)
        invariant forall s :: s in snapshot ==> s in subscribed && s.server == this
        invariant forall s :: s in subscribed ==>
          s.View() == if s in snapshot[..i] then EventStream.SendFrame(old(s.View()), item, limits) else old(s.View())
      {
        var listener := snapshot[i];
        assert listener in snapshot && listener !in snapshot[..i];
        listener.SendFrame(item);
        ExceptOneMore(snapshot, gone, listener);
        gone := if listener.closed then gone + {listener} else gone;
        assert snapshot[..i + 1] == snapshot[..i] + [listener];
      }
      assert snapshot[..|snapshot|] == snapshot;
      ExceptIsStillOpen(snapshot, gone);
      ExceptSpec(snapshot, gone);
    }

    /** `heard` were the registered subscriptions; only `s` changed, and left if it closed. */
    ghost predicate OnlyChanged(before: EventServer.Server, heard: seq<SseStream>, s: SseStream)
      reads this, subscribed, heard
    {
      && Numbered() && s in subscribed
      && (forall t :: t in heard ==> t in subscribed)
      && Distinct(heard)
      && before.listeners == before.closers == Ids(heard)
      && before.journal == CurrentJournal()
      && (forall i: EventServer.Id :: i in before.streams <==> i < |subscribed|)
      && (forall t :: t in subscribed ==> t.id in before.streams && (t in heard <==> !before.streams[t.id].closed))
      && (forall t :: t in subscribed && t != s ==> t.View() == before.streams[t.id])
      && (before.streams[s.id].closed ==> s.closed)
      && listeners == sseClosers
      && listeners == (if s.closed && !before.streams[s.id].closed then Removed(heard, s) else heard)
    }

    lemma OneChangedRegistries(before: EventServer.Server, heard: seq<SseStream>, s: SseStream)
      requires OnlyChanged(before, heard, s)
      ensures Registered()
      ensures Ids(listeners) == EventServer.StillOpen(Ids(heard), Streams())
    {
      hide TotalBytes, Except, Removed, EventServer.StillOpen;
      ExceptSpec(heard, {});
      ExceptOneMore(heard, {}, s);
      var gone := if s.closed && !before.streams[s.id].closed then {s} else {};
      assert {} + {s} == {s};
      ExceptSpec(heard, gone);
      ExceptIsStillOpen(heard, gone);
    }

    /** A callback of one subscription changes the server by that subscription alone. */
    lemma OneChanged(before: EventServer.Server, heard: seq<SseStream>, s: SseStream)
      requires OnlyChanged(before, heard, s)
      ensures Registered()
      ensures View() == EventServer.Change(before, s.id, s.View())
    {
      hide TotalBytes, Removed, Except, EventServer.StillOpen;
      OneChangedRegistries(before, heard, s);
      IdIsIndex(s);
      forall i | 0 <= i < |subscribed|
        ensures Streams()[i] == before.streams[s.id := s.View()][i]
      {
        assert subscribed[i] in subscribed;
      }
      assert Streams() == before.streams[s.id := s.View()];
    }

    method Drained(s: SseStream)
      requires Valid() && s in subscribed
      modifies s, this`listeners, this`sseClosers
      ensures Valid()
      ensures View() == EventServer.Change(old(View()), s.id, Drain(old(s.View())))
    {
      hide TotalBytes, Removed, EventServer.Change;
      ghost var before := View();
      IdIsIndex(s);
      s.OnDrain();
      OneChanged(before, old(listeners), s);
    }

    /** A timeout ends the response; an abort, a peer close or an error does not. */
    method Ended(s: SseStream, endResponse: bool)
      requires Valid() && s in subscribed
      modifies s, this`listeners, this`sseClosers
      ensures Valid()
      ensures View() == EventServer.Change(old(View()), s.id, EventStream.Close(old(s.View()), endResponse))
    {
      hide TotalBytes, Removed, EventServer.Change;
      ghost var before := View();
      IdIsIndex(s);
      s.Close(endResponse);
      OneChanged(before, old(listeners), s);
    }

    /** A new subscription has joined; nobody else changed. */
    ghost predicate Joined(before: EventServer.Server, others: seq<SseStream>, heard: seq<SseStream>, s: SseStream)
      reads this, subscribed, others
    {
      && subscribed == others + [s] && s !in others && Numbered()
      && before.listeners == before.closers == Ids(heard)
      && before.journal == CurrentJournal()
      && Distinct(heard)
      && (forall t :: t in heard ==> t in others)
      && (forall i: EventServer.Id :: i in before.streams <==> i < |others|)
      && (forall t :: t in others ==>
            t.id in before.streams && t.View() == before.streams[t.id] && (t in heard <==> !t.closed))
    }

    lemma RejectedIsJoin(before: EventServer.Server, others: seq<SseStream>, heard: seq<SseStream>, s: SseStream,
                         since: nat, socket: seq<WriteResult>)
      requires Joined(before, others, heard, s)
      requires listeners == sseClosers == heard && |heard| >= limits.maxClients
      requires s.View() == Rejected(socket)
      ensures Registered()
      ensures View() == EventServer.Join(before, |others|, since, socket, limits)
    {
      hide TotalBytes, EventStream.Subscribe, EventServer.StillOpen;
      forall i | 0 <= i < |subscribed|
        ensures Streams()[i] == before.streams[|others| := s.View()][i]
      {
        assert i < |others| ==> others[i] in others && subscribed[i] == others[i];
      }
      assert Streams() == before.streams[|others| := s.View()];
    }

    /** An accepted subscription: it registers, and then only it changes. */
    lemma AcceptedIsJoin(before: EventServer.Server, others: seq<SseStream>, heard: seq<SseStream>, s: SseStream,
                         since: nat, socket: seq<WriteResult>)
      requires Joined(before, others, heard, s) && |heard| < limits.maxClients
      requires listeners == sseClosers == (if s.closed then Removed(heard + [s], s) else heard + [s])
      requires s.View() == Subscribe(CurrentJournal(), since, socket, limits)
      ensures Registered()
      ensures View() == EventServer.Join(before, |others|, since, socket, limits)
    {
      hide TotalBytes, Subscribe, Removed, EventServer.StillOpen, Joined, OnlyChanged;
      var id := |others|;
      AcceptedOnlyChanged(before, others, heard, s, since, socket);
      assert s.id == id && Ids(heard) == before.listeners == before.closers by { JoinedIds(before, others, heard, s); }
      OneChanged(Announced(before, id, socket), heard + [s], s);
      assert Announced(before, id, socket).streams[id := s.View()] == before.streams[id := s.View()];
    }

    ghost function Announced(before: EventServer.Server, id: EventServer.Id,
                             socket: seq<WriteResult>): EventServer.Server {
      EventServer.Server(before.journal, before.listeners + [id], before.closers + [id],
                         before.streams[id := Opened(socket)])
    }

    lemma JoinedIds(before: EventServer.Server, others: seq<SseStream>, heard: seq<SseStream>, s: SseStream)
      requires Joined(before, others, heard, s)
      ensures s.id == |others| && Ids(heard) == before.listeners == before.closers && before.journal == CurrentJournal()
    {
      assert subscribed[|others|] == s;
    }

    lemma AcceptedOnlyChanged(before: EventServer.Server, others: seq<SseStream>, heard: seq<SseStream>, s: SseStream,
                              since: nat, socket: seq<WriteResult>)
      requires Joined(before, others, heard, s)
      requires listeners == sseClosers == (if s.closed then Removed(heard + [s], s) else heard + [s])
      ensures OnlyChanged(Announced(before, |others|, socket), heard + [s], s)
    {
      hide TotalBytes, Removed;
      var id := |others|;
      assert Ids(heard + [s]) == Ids(heard) + [id];
      assert s == subscribed[id];
      forall t | t in subscribed && t != s ensures t in others && t.id != id {
        var k :| 0 <= k < |subscribed| && subscribed[k] == t;
        assert k < |others| && others[k] == t;
      }
    }

    method StreamEvents(since: nat, socket: seq<WriteResult>) returns (s: SseStream)
      requires Valid()
      modifies this`listeners, this`sseClosers, this`subscribed
      ensures Valid() && s in subscribed
      ensures View() == EventServer.Join(old(View()), |old(subscribed)|, since, socket, limits)
    {
      hide TotalBytes, EventServer.Join, Removed, Subscribe;
      s := new SseStream(this, |subscribed|, socket);
      ghost var before := View();
      ghost var others := subscribed;
      subscribed := subscribed + [s];
      if |listeners| >= limits.maxClients {
        s.Reject();
        RejectedIsJoin(before, others, listeners, s, since, socket);
        return;
      }
      listeners := listeners + [s];
      sseClosers := sseClosers + [s];
      s.Begin(since);
      AcceptedIsJoin(before, others, old(listeners), s, since, socket);
    }

    method CloseAll()
      requires Valid()
      modifies this`listeners, this`sseClosers, subscribed
      ensures Valid()
      ensures forall s :: s in subscribed ==>
        s.View() == if s in old(sseClosers) then EventStream.Close(old(s.View()), true) else old(s.View())
      ensures Ids(sseClosers) == EventServer.StillOpen(Ids(old(sseClosers)), Streams())
    {
      hide Except, Removed, TotalBytes, EventServer.StillOpen;
      var snapshot := sseClosers;
      ghost var gone: set<SseStream> := {};
      ExceptSpec(snapshot, gone);
      for i := 0 to |snapshot|
        invariant RegistriesAre(snapshot, gone)
        invariant forall s :: s in snapshot ==> s in subscribed && s.server == this
        invariant forall s :: s in subscribed ==>
          s.View() == if s in snapshot[..i] then EventStream.Close(old(s.View()), true) else old(s.View())
      {
        var stream := snapshot[i];
        assert stream in snapshot && stream !in snapshot[..i];
        stream.Close(true);
        ExceptOneMore(snapshot, gone, stream);
        gone := gone + {stream};
        assert snapshot[..i + 1] == snapshot[..i] + [stream];
      }
      assert snapshot[..|snapshot|] == snapshot;
      ExceptIsStillOpen(snapshot, gone);
      ExceptSpec(snapshot, gone);
    }

    /** Shutdown ends every open subscription. */
    method Dispose()
      requires Valid()
      modifies this`listeners, this`sseClosers, subscribed
      ensures Valid() && sseClosers == []
      ensures View() == EventServer.Dispose(old(View()))
    {
      hide TotalBytes, EventServer.StillOpen, EventServer.Dispose;
      ghost var before, heard := View(), sseClosers;
      CloseAll();
      HasMember(sseClosers);
      sseClosers := [];
      DisposedIsDispose(before, heard);
    }

    lemma DisposedIsDispose(before: EventServer.Server, heard: seq<SseStream>)
      requires Numbered() && forall s :: s in heard ==> s in subscribed
      requires before.listeners == before.closers == Ids(heard)
      requires before.journal == CurrentJournal()
      requires forall i: EventServer.Id :: i in before.streams <==> i < |subscribed|
      requires forall s :: s in subscribed ==>
        s.id in before.streams &&
        s.View() == (if s in heard then EventStream.Close(before.streams[s.id], true) else before.streams[s.id])
      requires Ids(listeners) == Ids(sseClosers) == EventServer.StillOpen(Ids(heard), Streams())
      ensures View() == EventServer.Dispose(before)
    {
      hide TotalBytes, EventStream.Close, EventServer.StillOpen;
      IdsMember(heard);
      var after := EventServer.Dispose(before);
      forall i | 0 <= i < |subscribed| ensures i in after.streams && Streams()[i] == after.streams[i] {
        assert subscribed[i] in subscribed;
      }
      assert Streams() == after.streams;
    }
  }
}
