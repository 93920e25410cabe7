/**
 The event server as a whole: one journal, any number of subscriptions and clients, and every
 interleaving of publish, subscribe, drain, flush, timeout, abort, shutdown, receive and reconnect.
 */
module EventServer {
  import opened EventJournal
  import opened EventStream

  type Id = nat

  /** `listeners` and `closers` hold the open subscriptions in the order they subscribed. */
  datatype Server = Server(journal: Journal, listeners: seq<Id>, closers: seq<Id>, streams: map<Id, Stream>)

  /** A client receives a prefix of its connection's wire; after a gap frame it must take a snapshot. */
  datatype Client = Client(received: seq<Event>, connected: bool, stream: Id, at: nat, gapped: bool)

  /** `published` and `bases` are history: every event so far, and the number each subscription began after. */
  datatype World = World(server: Server, clients: map<nat, Client>, published: seq<Event>, bases: map<Id, nat>)

  datatype Step =
    | Publish(kind: string, data: string, bytes: nat)
    | Subscribes(since: nat, socket: seq<WriteResult>)
    | Connects(client: nat, socket: seq<WriteResult>)
    | Drains(id: Id)
    | Flushes(id: Id, held: nat)
    | TimesOut(id: Id)
    | Aborts(id: Id)
    | Receives(client: nat)
    | Disposes

  const NewClient := Client([], false, 0, 0, false)

  function Start(): World {
    World(Server(Journal([], 0, 0), [], [], map[]), map[], [], map[])
  }

  function StillOpen(ids: seq<Id>, streams: map<Id, Stream>): seq<Id> {
    if ids == [] then []
    else (if ids[0] in streams && streams[ids[0]].closed then [] else [ids[0]]) + StillOpen(ids[1..], streams)
  }

  /** Replace the subscriptions by what they became; the ones that closed leave both registries. */
  function Settle(server: Server, streams: map<Id, Stream>): Server {
    server.(streams := streams, listeners := StillOpen(server.listeners, streams),
            closers := StillOpen(server.closers, streams))
  }

  function PublishEvent(server: Server, kind: string, data: string, bytes: nat, limits: Limits): Server {
    var journal := Append(server.journal, kind, data, bytes, limits.maxBufferBytes);
    var event := Event(journal.sequence, kind, data, bytes);
    Settle(server.(journal := journal),
           map id | id in server.streams ::
             if id in server.listeners then SendFrame(server.streams[id], event, limits) else server.streams[id])
  }

  function Join(server: Server, id: Id, since: nat, socket: seq<WriteResult>, limits: Limits): Server {
    if |server.listeners| >= limits.maxClients then
      server.(streams := server.streams[id := Rejected(socket)])
    else
      Settle(server.(listeners := server.listeners + [id], closers := server.closers + [id]),
             server.streams[id := EventStream.Subscribe(server.journal, since, socket, limits)])
  }

  function Change(server: Server, id: Id, s: Stream): Server {
    Settle(server, server.streams[id := s])
  }

  function Dispose(server: Server): Server {
    Settle(server, map id | id in server.streams ::
             if id in server.closers then Close(server.streams[id], true) else server.streams[id])
  }

  function LastReceived(client: Client): nat {
    if client.received == [] then 0 else client.received[|client.received| - 1].number
  }

  function Read(c: Client, frame: Frame): Client {
    match frame
    case EventFrame(event) => c.(received := c.received + [event], at := c.at + 1)
    case GapFrame => c.(gapped := true)
  }

  function ClientOf(w: World, client: nat): Client {
    if client in w.clients then w.clients[client] else NewClient
  }

  /** A subscription identifier not used before. */
  function NextId(w: World): Id { |w.bases| }

  predicate Enabled(w: World, step: Step) {
    match step
    case Publish(_, _, _) => true
    case Subscribes(_, _) => true
    case Connects(client, _) => !ClientOf(w, client).gapped
    case Drains(id) => id in w.server.streams
    case Flushes(id, held) => id in w.server.streams && held <= w.server.streams[id].held
    case TimesOut(id) => id in w.server.streams && w.server.streams[id].timer
    case Aborts(id) => id in w.server.streams
    case Receives(client) =>
      var c := ClientOf(w, client);
      c.connected && !c.gapped && c.stream in w.server.streams && c.at < |w.server.streams[c.stream].wire|
    case Disposes => true
  }

  function Next(w: World, step: Step, limits: Limits): World
    requires Enabled(w, step)
  {
    match step
    case Publish(kind, data, bytes) =>
      w.(server := PublishEvent(w.server, kind, data, bytes, limits),
         published := w.published + [Event(w.server.journal.sequence + 1, kind, data, bytes)])
    case Subscribes(since, socket) =>
      w.(server := Join(w.server, NextId(w), since, socket, limits),
         bases := w.bases[NextId(w) := Min(since, |w.published|)])
    case Connects(client, socket) =>
      var c := ClientOf(w, client);
      w.(server := Join(w.server, NextId(w), LastReceived(c), socket, limits),
         bases := w.bases[NextId(w) := Min(LastReceived(c), |w.published|)],
         clients := w.clients[client := c.(connected := true, stream := NextId(w), at := 0)])
    case Drains(id) => w.(server := Change(w.server, id, Drain(w.server.streams[id])))
    case Flushes(id, held) => w.(server := Change(w.server, id, w.server.streams[id].(held := held)))
    case TimesOut(id) => w.(server := Change(w.server, id, Close(w.server.streams[id], true)))
    case Aborts(id) => w.(server := Change(w.server, id, Close(w.server.streams[id], false)))
    case Receives(client) =>
      var c := ClientOf(w, client);
      w.(clients := w.clients[client := Read(c, w.server.streams[c.stream].wire[c.at])])
    case Disposes => w.(server := Dispose(w.server))
  }

  ghost predicate Possible(w: World, steps: seq<Step>, limits: Limits)
    decreases |steps|
  {
    steps == [] || (Enabled(w, steps[0]) && Possible(Next(w, steps[0], limits), steps[1..], limits))
  }

  ghost function Run(w: World, steps: seq<Step>, limits: Limits): World
    requires Possible(w, steps, limits)
    decreases |steps|
  {
    if steps == [] then w else Run(Next(w, steps[0], limits), steps[1..], limits)
  }

  // ---- invariants ----

  ghost predicate Distinct(ids: seq<Id>) {
    forall i, j :: 0 <= i < j < |ids| ==> ids[i] != ids[j]
  }

  /** Both registries hold exactly the open subscriptions, once each, and no more than the client limit. */
  ghost predicate Registered(server: Server, limits: Limits) {
    && server.closers == server.listeners
    && Distinct(server.listeners)
    && |server.listeners| <= limits.maxClients
    && (forall id :: id in server.listeners ==> id in server.streams)
    && (forall id :: id in server.streams ==> (id in server.listeners <==> !server.streams[id].closed))
  }

  ghost predicate StreamsCarry(streams: map<Id, Stream>, bases: map<Id, nat>, published: seq<Event>, limits: Limits) {
    && streams.Keys == bases.Keys
    && forall id :: id in streams ==> Carries(streams[id], published, bases[id], |published|, limits)
  }

  /** What a client has received is the history up to where its connection stands. */
  ghost predicate ClientFollows(c: Client, w: World) {
    && c.received <= w.published
    && (c.connected ==>
          && c.stream in w.server.streams && c.stream in w.bases
          && c.at <= Accepted(w.server.streams[c.stream])
          && |c.received| == w.bases[c.stream] + c.at)
  }

  ghost predicate ServerValid(server: Server, bases: map<Id, nat>, published: seq<Event>, limits: Limits) {
    && ValidLimits(limits)
    && Numbered(published)
    && Retains(server.journal, published, limits.maxBufferBytes)
    && Registered(server, limits)
    && StreamsCarry(server.streams, bases, published, limits)
    && Counted(bases)
  }

  ghost predicate Counted(bases: map<Id, nat>) {
    forall id :: id in bases ==> id < |bases|
  }

  ghost predicate Valid(w: World, limits: Limits) {
    && ServerValid(w.server, w.bases, w.published, limits)
    && (forall c :: c in w.clients ==> ClientFollows(w.clients[c], w))
  }

  lemma {:induction false} StillOpenSpec(ids: seq<Id>, streams: map<Id, Stream>)
    ensures var kept := StillOpen(ids, streams);
            && |kept| <= |ids|
            && (forall id :: id in kept <==> id in ids && !(id in streams && streams[id].closed))
            && (Distinct(ids) ==> Distinct(kept))
  {
    if ids != [] {
      StillOpenSpec(ids[1..], streams);
      var head := if ids[0] in streams && streams[ids[0]].closed then [] else [ids[0]];
      var tail := StillOpen(ids[1..], streams);
      if Distinct(ids) {
        assert forall i, j :: 0 <= i < j < |ids[1..]| ==> ids[1..][i] != ids[1..][j] by {
          forall i, j | 0 <= i < j < |ids[1..]| ensures ids[1..][i] != ids[1..][j] {
            assert ids[1..][i] == ids[i + 1] && ids[1..][j] == ids[j + 1];
          }
        }
        assert ids[0] !in ids[1..];
        assert Distinct(head + tail);
      }
    }
  }

  /** Streams that only close on their own keep both registries exact. */
  lemma SettleRegistered(server: Server, streams: map<Id, Stream>, limits: Limits)
    requires server.closers == server.listeners && Distinct(server.listeners) && |server.listeners| <= limits.maxClients
    requires forall id :: id in server.listeners ==> id in streams
    requires forall id :: id in streams && id !in server.listeners ==> streams[id].closed
    ensures Registered(Settle(server, streams), limits)
  {
    StillOpenSpec(server.listeners, streams);
  }

  /** A step that extends the history and takes nothing back from any wire leaves every client where it was. */
  ghost predicate TakesNothingBack(w: World, w': World) {
    && w.clients == w'.clients
    && w.published <= w'.published
    && (forall id :: id in w.server.streams && id in w.bases ==>
          && id in w'.server.streams && id in w'.bases && w'.bases[id] == w.bases[id]
          && Accepted(w.server.streams[id]) <= Accepted(w'.server.streams[id]))
  }

  lemma ClientsStay(w: World, w': World, limits: Limits)
    requires Valid(w, limits) && TakesNothingBack(w, w')
    requires ServerValid(w'.server, w'.bases, w'.published, limits)
    ensures Valid(w', limits)
  {}

  lemma SendFrameKeepsWire(s: Stream, event: Event, limits: Limits)
    ensures Accepted(s) <= Accepted(SendFrame(s, event, limits))
  {}

  lemma {:induction false} FlushKeepsWire(s: Stream)
    ensures Accepted(s) <= Accepted(Flush(s))
    decreases |s.pending|
  {
    if !(s.backpressured || s.pending == [] || s.closed) { FlushKeepsWire(WriteOldest(s)); }
  }

  lemma PublishedStreamsCarry(server: Server, published: seq<Event>, bases: map<Id, nat>,
                              kind: string, data: string, bytes: nat, limits: Limits)
    requires ValidLimits(limits) && server.journal.sequence == |published| && Registered(server, limits)
    requires StreamsCarry(server.streams, bases, published, limits)
    ensures var event := Event(|published| + 1, kind, data, bytes);
            StreamsCarry(PublishEvent(server, kind, data, bytes, limits).streams, bases, published + [event], limits)
  {
    var event := Event(|published| + 1, kind, data, bytes);
    var streams := PublishEvent(server, kind, data, bytes, limits).streams;
    forall id | id in server.streams
      ensures Carries(streams[id], published + [event], bases[id], |published| + 1, limits)
    {
      HistoryGrows(server.streams[id], published, [event], bases[id], |published|, limits);
      assert (published + [event])[|published|] == event;
      if id in server.listeners {
        SendFrameCarries(server.streams[id], published + [event], bases[id], |published|, limits);
      }
    }
  }

  lemma PublishServerKeeps(server: Server, published: seq<Event>, bases: map<Id, nat>,
                           kind: string, data: string, bytes: nat, limits: Limits)
    requires ServerValid(server, bases, published, limits)
    ensures var event := Event(server.journal.sequence + 1, kind, data, bytes);
            ServerValid(PublishEvent(server, kind, data, bytes, limits), bases, published + [event], limits)
  {
    AppendRetains(server.journal, published, kind, data, bytes, limits.maxBufferBytes);
    PublishedStreamsCarry(server, published, bases, kind, data, bytes, limits);
    SettleRegistered(server.(journal := Append(server.journal, kind, data, bytes, limits.maxBufferBytes)),
                     PublishEvent(server, kind, data, bytes, limits).streams, limits);
  }

  /** One subscription changed on its own: drained, flushed, timed out or aborted. */
  lemma ChangeServerKeeps(server: Server, published: seq<Event>, bases: map<Id, nat>, id: Id, s: Stream, limits: Limits)
    requires ServerValid(server, bases, published, limits) && id in server.streams
    requires Carries(s, published, bases[id], |published|, limits)
    requires server.streams[id].closed ==> s.closed
    ensures ServerValid(Change(server, id, s), bases, published, limits)
  {
    hide Carries, Retains, Numbered, ValidLimits, StillOpen, Distinct;
    SettleRegistered(server, server.streams[id := s], limits);
  }

  lemma UnusedKeyKeepsStreams(streams: map<Id, Stream>, bases: map<Id, nat>, s: Stream, base: nat,
                              published: seq<Event>, limits: Limits)
    requires StreamsCarry(streams, bases, published, limits) && Carries(s, published, base, |published|, limits)
    requires Counted(bases)
    ensures |bases| !in bases
    ensures StreamsCarry(streams[|bases| := s], bases[|bases| := base], published, limits)
    ensures Counted(bases[|bases| := base])
  {
    hide Carries;
    assert bases[|bases| := base].Keys == bases.Keys + {|bases|};
  }

  /** A new subscription, accepted or rejected, begins after `since` or at the present end of history. */
  lemma JoinServerKeeps(server: Server, published: seq<Event>, bases: map<Id, nat>, since: nat,
                        socket: seq<WriteResult>, limits: Limits)
    requires ServerValid(server, bases, published, limits)
    ensures ServerValid(Join(server, |bases|, since, socket, limits), bases[|bases| := Min(since, |published|)],
                        published, limits)
  {
    hide StreamsCarry, Carries, EventStream.Subscribe, Retains, Numbered, ValidLimits, StillOpen;
    var id, base := |bases|, Min(since, |published|);
    StreamKeys(server.streams, bases, published, limits);
    if |server.listeners| >= limits.maxClients {
      RejectedCarries(socket, published, base, limits);
      UnusedKeyKeepsStreams(server.streams, bases, Rejected(socket), base, published, limits);
    } else {
      var s := EventStream.Subscribe(server.journal, since, socket, limits);
      SubscribeCarries(server.journal, published, since, socket, limits);
      UnusedKeyKeepsStreams(server.streams, bases, s, base, published, limits);
      SettleRegistered(server.(listeners := server.listeners + [id], closers := server.closers + [id]),
                       server.streams[id := s], limits);
    }
  }

  lemma StreamKeys(streams: map<Id, Stream>, bases: map<Id, nat>, published: seq<Event>, limits: Limits)
    requires StreamsCarry(streams, bases, published, limits)
    ensures streams.Keys == bases.Keys
  {}

  lemma DisposedStreamsCarry(server: Server, published: seq<Event>, bases: map<Id, nat>, limits: Limits)
    requires StreamsCarry(server.streams, bases, published, limits)
    ensures StreamsCarry(Dispose(server).streams, bases, published, limits)
  {
    hide Carries, Close, StillOpen;
    forall id | id in server.streams
      ensures Carries(Dispose(server).streams[id], published, bases[id], |published|, limits)
    {
      CloseCarries(server.streams[id], true, published, bases[id], |published|, limits);
    }
  }

  lemma DisposeServerKeeps(server: Server, published: seq<Event>, bases: map<Id, nat>, limits: Limits)
    requires ServerValid(server, bases, published, limits)
    ensures ServerValid(Dispose(server), bases, published, limits)
  {
    hide Carries, StreamsCarry, Retains, Numbered, ValidLimits, StillOpen, Distinct;
    DisposedStreamsCarry(server, published, bases, limits);
    SettleRegistered(server, Dispose(server).streams, limits);
  }

  lemma PublishTakesNothingBack(w: World, kind: string, data: string, bytes: nat, limits: Limits)
    ensures TakesNothingBack(w, Next(w, Publish(kind, data, bytes), limits))
  {
    var w' := Next(w, Publish(kind, data, bytes), limits);
    var event := Event(w.server.journal.sequence + 1, kind, data, bytes);
    forall id | id in w.server.streams
      ensures Accepted(w.server.streams[id]) <= Accepted(w'.server.streams[id])
    {
      hide SendFrame, Accepted;
      SendFrameKeepsWire(w.server.streams[id], event, limits);
    }
  }

  lemma PublishKeeps(w: World, kind: string, data: string, bytes: nat, limits: Limits)
    requires Valid(w, limits)
    ensures Valid(Next(w, Publish(kind, data, bytes), limits), limits)
  {
    hide ServerValid, Carries;
    var w' := Next(w, Publish(kind, data, bytes), limits);
    PublishServerKeeps(w.server, w.published, w.bases, kind, data, bytes, limits);
    PublishTakesNothingBack(w, kind, data, bytes, limits);
    ClientsStay(w, w', limits);
  }

  lemma ChangeKeeps(w: World, id: Id, s: Stream, limits: Limits)
    requires Valid(w, limits) && id in w.server.streams
    requires Carries(s, w.published, w.bases[id], |w.published|, limits)
    requires Accepted(w.server.streams[id]) <= Accepted(s)
    requires w.server.streams[id].closed ==> s.closed
    ensures Valid(w.(server := Change(w.server, id, s)), limits)
  {
    hide ServerValid, Carries;
    ChangeServerKeeps(w.server, w.published, w.bases, id, s, limits);
    ClientsStay(w, w.(server := Change(w.server, id, s)), limits);
  }

  lemma NextIdIsUnused(w: World, limits: Limits)
    requires Valid(w, limits)
    ensures NextId(w) !in w.bases && NextId(w) !in w.server.streams
  {}

  lemma JoinKeeps(w: World, since: nat, socket: seq<WriteResult>, limits: Limits)
    requires Valid(w, limits)
    ensures var id := NextId(w);
            Valid(w.(server := Join(w.server, id, since, socket, limits),
                     bases := w.bases[id := Min(since, |w.published|)]), limits)
  {
    hide ServerValid, Carries;
    var id := NextId(w);
    NextIdIsUnused(w, limits);
    JoinServerKeeps(w.server, w.published, w.bases, since, socket, limits);
    ClientsStay(w, w.(server := Join(w.server, id, since, socket, limits),
                      bases := w.bases[id := Min(since, |w.published|)]), limits);
  }

  lemma LastReceivedIsCount(c: Client, w: World)
    requires ClientFollows(c, w) && Numbered(w.published)
    ensures LastReceived(c) == |c.received| <= |w.published|
  {
    if c.received != [] { assert c.received[|c.received| - 1] == w.published[|c.received| - 1]; }
  }

  lemma ClientMoves(w: World, client: nat, c: Client, limits: Limits)
    requires Valid(w, limits) && ClientFollows(c, w)
    ensures Valid(w.(clients := w.clients[client := c]), limits)
  {
    hide ServerValid;
    var w' := w.(clients := w.clients[client := c]);
    forall k | k in w'.clients ensures ClientFollows(w'.clients[k], w') {
      assert k != client ==> ClientFollows(w.clients[k], w);
    }
  }

  lemma ClientOfFollows(w: World, client: nat, limits: Limits)
    requires Valid(w, limits)
    ensures ClientFollows(ClientOf(w, client), w)
  {}

  /** A reconnecting client resumes right after what it has. */
  lemma ConnectKeeps(w: World, client: nat, socket: seq<WriteResult>, limits: Limits)
    requires Valid(w, limits) && Enabled(w, Connects(client, socket))
    ensures Valid(Next(w, Connects(client, socket), limits), limits)
  {
    var c := ClientOf(w, client);
    var id := NextId(w);
    ClientOfFollows(w, client, limits);
    LastReceivedIsCount(c, w);
    JoinKeeps(w, LastReceived(c), socket, limits);
    hide Valid;
    var w1 := w.(server := Join(w.server, id, LastReceived(c), socket, limits),
                 bases := w.bases[id := Min(LastReceived(c), |w.published|)]);
    ClientMoves(w1, client, c.(connected := true, stream := id, at := 0), limits);
  }

  /** Receiving the next frame hands the client the next event of the history, or ends the claim at a gap. */
  lemma ReceiveKeeps(w: World, client: nat, limits: Limits)
    requires Valid(w, limits) && Enabled(w, Receives(client))
    ensures Valid(Next(w, Receives(client), limits), limits)
  {
    hide Valid, ClientFollows, Carries;
    var c := ClientOf(w, client);
    ClientOfFollows(w, client, limits);
    StreamOfCarries(w, c.stream, limits);
    ReadFollows(c, w, limits);
    ClientMoves(w, client, Read(c, w.server.streams[c.stream].wire[c.at]), limits);
  }

  lemma ReadFollows(c: Client, w: World, limits: Limits)
    requires ClientFollows(c, w) && c.connected
    requires c.at < |w.server.streams[c.stream].wire|
    requires Carries(w.server.streams[c.stream], w.published, w.bases[c.stream], |w.published|, limits)
    ensures ClientFollows(Read(c, w.server.streams[c.stream].wire[c.at]), w)
  {
    var s := w.server.streams[c.stream];
    if s.wire[c.at].EventFrame? {
      assert c.at < Accepted(s);
      assert s.wire[c.at] == EventFrame(w.published[|c.received|]);
    }
  }

  lemma StreamOfCarries(w: World, id: Id, limits: Limits)
    requires Valid(w, limits) && id in w.server.streams
    ensures id in w.bases && Carries(w.server.streams[id], w.published, w.bases[id], |w.published|, limits)
  {
    hide Carries;
  }

  lemma DisposeKeeps(w: World, limits: Limits)
    requires Valid(w, limits)
    ensures Valid(Next(w, Disposes, limits), limits)
  {
    hide ServerValid, Carries;
    DisposeServerKeeps(w.server, w.published, w.bases, limits);
    ClientsStay(w, Next(w, Disposes, limits), limits);
  }

  lemma DrainKeeps(w: World, id: Id, limits: Limits)
    requires Valid(w, limits) && id in w.server.streams
    ensures Valid(Next(w, Drains(id), limits), limits)
  {
    hide Valid, Carries;
    StreamOfCarries(w, id, limits);
    DrainCarries(w.server.streams[id], w.published, w.bases[id], |w.published|, limits);
    FlushKeepsWire(w.server.streams[id].(backpressured := false));
    ChangeKeeps(w, id, Drain(w.server.streams[id]), limits);
  }

  lemma CloseKeeps(w: World, id: Id, endResponse: bool, limits: Limits)
    requires Valid(w, limits) && id in w.server.streams
    ensures Valid(w.(server := Change(w.server, id, Close(w.server.streams[id], endResponse))), limits)
  {
    hide Valid, Carries;
    StreamOfCarries(w, id, limits);
    CloseCarries(w.server.streams[id], endResponse, w.published, w.bases[id], |w.published|, limits);
    ChangeKeeps(w, id, Close(w.server.streams[id], endResponse), limits);
  }

  lemma FlushedKeeps(w: World, id: Id, held: nat, limits: Limits)
    requires Valid(w, limits) && id in w.server.streams && held <= w.server.streams[id].held
    ensures Valid(w.(server := Change(w.server, id, w.server.streams[id].(held := held))), limits)
  {
    hide Valid, Carries;
    StreamOfCarries(w, id, limits);
    FlushedBytesCarry(w.server.streams[id], held, w.published, w.bases[id], |w.published|, limits);
    ChangeKeeps(w, id, w.server.streams[id].(held := held), limits);
  }

  /** Every possible step keeps the invariant. */
  lemma StepKeeps(w: World, step: Step, limits: Limits)
    requires Valid(w, limits) && Enabled(w, step)
    ensures Valid(Next(w, step, limits), limits)
  {
    hide Valid, Carries;
    match step
    case Publish(kind, data, bytes) => PublishKeeps(w, kind, data, bytes, limits);
    case Subscribes(since, socket) => JoinKeeps(w, since, socket, limits);
    case Connects(client, socket) => ConnectKeeps(w, client, socket, limits);
    case Drains(id) => DrainKeeps(w, id, limits);
    case Flushes(id, held) => FlushedKeeps(w, id, held, limits);
    case TimesOut(id) => CloseKeeps(w, id, true, limits);
    case Aborts(id) => CloseKeeps(w, id, false, limits);
    case Receives(client) => ReceiveKeeps(w, client, limits);
    case Disposes => DisposeKeeps(w, limits);
  }

  lemma {:induction false} RunKeeps(w: World, steps: seq<Step>, limits: Limits)
    requires Valid(w, limits) && Possible(w, steps, limits)
    ensures Valid(Run(w, steps, limits), limits)
    decreases |steps|
  {
    if steps != [] {
      StepKeeps(w, steps[0], limits);
      RunKeeps(Next(w, steps[0], limits), steps[1..], limits);
    }
  }

  // ---- what holds in every run ----

  /**
   No silent loss. However publishing, subscribing, draining, timeouts, aborts and reconnects
   interleave, a client that starts at 0 and reconnects with its last received number has received
   the events 1, 2, 3, ... exactly as published, without hole or repeat, until its first gap frame.
   */
  lemma NoSilentLoss(steps: seq<Step>, limits: Limits, client: nat)
    requires ValidLimits(limits) && Possible(Start(), steps, limits)
    ensures var w := Run(Start(), steps, limits);
            var c := ClientOf(w, client);
            c.received <= w.published && forall i :: 0 <= i < |c.received| ==> c.received[i].number == i + 1
  {
    RunKeeps(Start(), steps, limits);
    var w := Run(Start(), steps, limits);
    ClientOfFollows(w, client, limits);
    PublishedIsNumbered(w, limits);
    hide Valid, Run, Possible;
    ReceivedIsNumbered(ClientOf(w, client), w);
  }

  lemma PublishedIsNumbered(w: World, limits: Limits)
    requires Valid(w, limits)
    ensures Numbered(w.published)
  {}

  lemma ReceivedIsNumbered(c: Client, w: World)
    requires ClientFollows(c, w) && Numbered(w.published)
    ensures c.received <= w.published && forall i :: 0 <= i < |c.received| ==> c.received[i].number == i + 1
  {
    forall i | 0 <= i < |c.received|
      ensures c.received[i].number == i + 1
    {
      assert c.received[i] == w.published[i];
    }
  }

  /**
   And nothing is lost by staying connected: a client that has read its whole wire, on a live
   connection below the event cap with an empty queue, has received everything ever published.
   */
  lemma CaughtUpMeansComplete(steps: seq<Step>, limits: Limits, client: nat)
    requires ValidLimits(limits) && Possible(Start(), steps, limits)
    requires var w := Run(Start(), steps, limits);
             var c := ClientOf(w, client);
             c.connected && c.stream in w.server.streams &&
             var s := w.server.streams[c.stream];
             !s.closed && s.pending == [] && s.sent < limits.maxEvents && c.at == |s.wire|
    ensures var w := Run(Start(), steps, limits); ClientOf(w, client).received == w.published
  {
    RunKeeps(Start(), steps, limits);
    var w := Run(Start(), steps, limits);
    var c := ClientOf(w, client);
    assert Carries(w.server.streams[c.stream], w.published, w.bases[c.stream], |w.published|, limits);
    assert ClientFollows(c, w);
  }

  /**
   The state of every subscription in every run: a non-empty queue means backpressure, the byte count
   is exact, buffered and queued bytes and the gap frame fit the budget but for what HTTP adds to at
   most as many writes as the event cap allows, and one for the gap frame, the event cap holds, the wire
   carries consecutive numbers with at most a gap frame behind them, and exactly the open
   subscriptions are registered.
   */
  lemma EverySubscriptionIsBounded(steps: seq<Step>, limits: Limits, id: Id)
    requires ValidLimits(limits) && Possible(Start(), steps, limits)
    requires id in Run(Start(), steps, limits).server.streams
    ensures var server := Run(Start(), steps, limits).server;
            var s := server.streams[id];
            && (s.pending != [] ==> s.backpressured)
            && s.queuedBytes == TotalBytes(s.pending)
            && s.held <= limits.maxPendingBytes + FRAMING * (limits.maxEvents + 1)
            && (!s.closed ==> s.held + s.queuedBytes + FRAMING * |s.pending| + SLOW_CONSUMER_GAP_BYTES
                              <= limits.maxPendingBytes + FRAMING * limits.maxEvents)
            && Accepted(s) <= s.sent <= limits.maxEvents
            && (forall i :: 0 <= i < |s.wire| - 1 ==> s.wire[i].EventFrame?)
            && (forall i, j :: 0 <= i < j < |s.wire| && s.wire[j].EventFrame? ==>
                  s.wire[i].EventFrame? && s.wire[j].event.number == s.wire[i].event.number + (j - i))
            && (id in server.listeners <==> !s.closed)
            && (id in server.closers <==> !s.closed)
            && |server.listeners| <= limits.maxClients
  {
    RunKeeps(Start(), steps, limits);
    var w := Run(Start(), steps, limits);
    var s := w.server.streams[id];
    assert Carries(s, w.published, w.bases[id], |w.published|, limits) && Numbered(w.published);
    BudgetKept(s, w.published, w.bases[id], |w.published|, limits);
    WireIsNumbered(s, w.published, w.bases[id], limits);
    hide Run, Possible, TotalBytes, Numbered;
  }

  lemma WireIsNumbered(s: Stream, published: seq<Event>, base: nat, limits: Limits)
    requires Sound(s, false, published, base, limits) && Numbered(published)
    ensures forall i :: 0 <= i < |s.wire| - 1 ==> s.wire[i].EventFrame?
    ensures forall i, j :: 0 <= i < j < |s.wire| && s.wire[j].EventFrame? ==>
              s.wire[i].EventFrame? && s.wire[j].event.number == s.wire[i].event.number + (j - i)
  {
    hide TotalBytes, Overhead;
    forall i | 0 <= i < Accepted(s)
      ensures s.wire[i].EventFrame? && s.wire[i].event.number == base + i + 1
    {
      assert s.wire[i] == EventFrame(published[base + i]);
    }
  }
}
