/**
 A room's queue on its way from the tables to its clients. Use cases, the steps of the hub,
 the broadcasts that announce a commit some time after it, and the clients' reads of the
 queue interleave freely. A client reads after it has been asked to synchronise, and keeps
 whatever snapshot carries the largest version.
 */
module QueueFeed {
  import opened Common
  import opened Versions
  import opened Tables
  import opened Invariants
  import opened Operations
  import opened Preservation
  import opened QueueTheorems
  import opened Clients
  import opened Hub
  import H = HubSystem
  import W = LiveSessions

  type Message = Versioned<PublicSnapshot>

  /** `ops` are the committed use cases and `committed` the snapshots they have to announce.
      `sent` are the places, among those, of the ones that have been broadcast; `joinedAt` is
      how many there were when a socket was activated, and `got` what its client has read
      since. */
  datatype Feed = Feed(
    ops: seq<Op>,
    committed: seq<Message>,
    live: H.State,
    sent: set<nat>,
    joinedAt: map<H.SocketId, nat>,
    got: map<H.SocketId, seq<Message>>)

  datatype Event =
    | Use(op: Op, call: H.CallId)
    | Live(step: H.Step)
    | Send(place: nat)                   // the broadcast of a committed snapshot
    | Read(c: H.SocketId)

  /** A snapshot is broadcast as its place among the committed ones, and every other event
      under a negative number. */
  ghost predicate Possible(f: Feed, room: RoomId, e: Event) {
    match e
    case Use(op, call) => W.WellAddressed(Reach(f.ops), op) && call !in f.live.calls
    case Live(step) => !step.Join? && !step.EndSession? && (step.Broadcast? ==> step.body < 0)
    case Send(place) => place < |f.committed| && place !in f.sent
    case Read(c) => c in f.live.sockets && f.live.sockets[c].read >= 1
  }

  function Got(f: Feed, c: H.SocketId): seq<Message> {
    if c in f.got then f.got[c] else []
  }

  function Activates(live: H.State, step: H.Step, c: H.SocketId): bool {
    step == H.Step.Activate(c) && !H.IsActive(live, c) && H.IsActive(H.Apply(live, step), c)
  }

  ghost function Next(f: Feed, room: RoomId, e: Event): Feed {
    if !Possible(f, room, e) then f
    else
      match e
      case Use(op, call) =>
        f.(ops := f.ops + [op],
           committed := f.committed + MessagesIn(Step(Reach(f.ops), op).signals, room),
           live := H.After(f.live, W.Meaning(Step(Reach(f.ops), op).signals, room, call)))
      case Live(step) =>
        f.(live := H.Apply(f.live, step),
           joinedAt := if step.Activate? && Activates(f.live, step, step.c)
                       then f.joinedAt[step.c := |f.committed|] else f.joinedAt)
      case Send(place) =>
        f.(live := H.Apply(f.live, H.Step.Broadcast(place)), sent := f.sent + {place})
      case Read(c) => f.(got := f.got[c := Got(f, c) + ReadAfter(f.ops, room)])
  }

  /** The feed after any sequence of events; an event that is not possible does nothing. */
  ghost function AfterEvents(room: RoomId, events: seq<Event>): Feed {
    if events == [] then Feed([], [], H.Start, {}, map[], map[])
    else Next(AfterEvents(room, events[..|events| - 1]), room, events[|events| - 1])
  }

  /** The snapshots among the messages of a socket. */
  function Snapshots(stream: seq<Hub.Message>, committed: seq<Message>): seq<Message> {
    if stream == [] then []
    else
      var m := stream[|stream| - 1];
      Snapshots(stream[..|stream| - 1], committed)
      + if m.Event? && 0 <= m.body < |committed| then [committed[m.body]] else []
  }

  /** What a client has read and received. */
  function Held(f: Feed, c: H.SocketId): seq<Message>
    requires c in f.live.sockets && f.live.sockets[c].read <= |f.live.sockets[c].stream|
  {
    Got(f, c) + Snapshots(f.live.sockets[c].stream[..f.live.sockets[c].read], f.committed)
  }

  // ---------- invariants ----------

  ghost predicate Ordered(committed: seq<Message>) {
    forall i, j :: 0 <= i < j < |committed| ==> committed[i].version <= committed[j].version
  }

  /** A snapshot that was committed after the socket's activation and has been broadcast is in
      its stream. */
  ghost predicate Fed(stream: seq<Hub.Message>, joinedAt: nat, sent: set<nat>) {
    forall i: nat :: i in sent && joinedAt <= i ==> Event(i) in stream
  }

  /** What a client has read is at least as new as what had been committed when its socket was
      activated, and not newer than what is committed. */
  ghost predicate UpToJoin(got: seq<Message>, joinedAt: nat, committed: seq<Message>) {
    && joinedAt <= |committed|
    && (forall m :: m in got ==> committed != [] && m.version <= Last(committed).version)
    && (joinedAt > 0 ==> exists m :: m in got && m.version >= committed[joinedAt - 1].version)
  }

  ghost predicate SocketInv(f: Feed, c: H.SocketId) {
    && (H.InPhase(f.live, c, H.Phase.Live) ==>
          && c in f.joinedAt && f.joinedAt[c] <= |f.committed|
          && (H.IsActive(f.live, c) ==> Fed(f.live.sockets[c].stream, f.joinedAt[c], f.sent)))
    && (c in f.got ==>
          H.InPhase(f.live, c, H.Phase.Live) && UpToJoin(f.got[c], f.joinedAt[c], f.committed))
  }

  ghost predicate SentAreCommitted(sent: set<nat>, committed: nat) {
    forall i :: i in sent ==> i < committed
  }

  ghost predicate FeedInv(f: Feed, room: RoomId) {
    && W.InStep(W.World(Reach(f.ops), f.live), room)
    && f.committed == Messages(f.ops, room) && Ordered(f.committed)
    && SentAreCommitted(f.sent, |f.committed|)
    && (forall c :: SocketInv(f, c))
  }

  // ---------- commits ----------

  lemma {:induction false} MessagesOrdered(ops: seq<Op>, room: RoomId)
    ensures Ordered(Messages(ops, room))
  {
    if room in Reach(ops).rooms { MessagesFollowLog(ops, room); } else { NoRoomNoMessages(ops, room); }
  }

  lemma {:induction false} OneMoreCommit(ops: seq<Op>, op: Op, room: RoomId)
    ensures Reach(ops + [op]) == Step(Reach(ops), op).db
    ensures Messages(ops + [op], room) == Messages(ops, room) + MessagesIn(Step(Reach(ops), op).signals, room)
  {
    assert (ops + [op])[..|ops|] == ops;
  }

  lemma {:induction false} StillUpToJoin(got: seq<Message>, joinedAt: nat, before: seq<Message>, after: seq<Message>)
    requires UpToJoin(got, joinedAt, before) && before <= after && Ordered(after)
    ensures UpToJoin(got, joinedAt, after)
  {
    if before != [] { assert Last(before) == after[|before| - 1]; }
    if joinedAt > 0 { assert after[joinedAt - 1] == before[joinedAt - 1]; }
  }

  /** What a commit says about sessions leaves sockets, hub and streams alone. */
  lemma {:induction false} SaidKeepsSockets(live: H.State, before: map<SessionId, Session>,
                                            after: map<SessionId, Session>, said: seq<H.Step>, room: RoomId,
                                            call: H.CallId)
    requires W.Says(before, after, said, room, call)
    ensures H.After(live, said).sockets == live.sockets && H.After(live, said).hub == live.hub
  {
    if said != [] {
      assert said == [said[0]];
      W.AfterOne(live, said[0]);
    }
  }

  lemma {:induction false} CommitKeepsSockets(live: H.State, db: Db, op: Op, room: RoomId, call: H.CallId)
    requires Ready(db) && db.nextSession !in db.sessions && W.WellAddressed(db, op)
    ensures var after := H.After(live, W.Meaning(Step(db, op).signals, room, call));
            after.sockets == live.sockets && after.hub == live.hub
  {
    W.StepSays(db, op, room, call);
    SaidKeepsSockets(live, db.sessions, Step(db, op).db.sessions, W.Meaning(Step(db, op).signals, room, call), room,
                     call);
  }

  lemma {:induction false} UseKeepsSocket(f: Feed, room: RoomId, op: Op, call: H.CallId, c: H.SocketId)
    requires FeedInv(f, room) && Possible(f, room, Use(op, call))
    requires Ordered(Next(f, room, Use(op, call)).committed)
    ensures SocketInv(Next(f, room, Use(op, call)), c)
  {
    assert SocketInv(f, c);
    CommitKeepsSockets(f.live, Reach(f.ops), op, room, call);
    if c in f.got {
      StillUpToJoin(f.got[c], f.joinedAt[c], f.committed, Next(f, room, Use(op, call)).committed);
    }
  }

  lemma {:induction false} UseKeepsFeed(f: Feed, room: RoomId, op: Op, call: H.CallId)
    requires FeedInv(f, room) && Possible(f, room, Use(op, call))
    ensures FeedInv(Next(f, room, Use(op, call)), room)
  {
    W.UseKeepsInStep(W.World(Reach(f.ops), f.live), room, op, call);
    OneMoreCommit(f.ops, op, room);
    MessagesOrdered(f.ops + [op], room);
    forall c ensures SocketInv(Next(f, room, Use(op, call)), c) {
      UseKeepsSocket(f, room, op, call, c);
    }
  }

  // ---------- hub steps and broadcasts ----------

  lemma {:induction false} StreamGrows(live: H.State, step: H.Step, c: H.SocketId)
    requires c in live.sockets
    ensures c in H.Apply(live, step).sockets
    ensures live.sockets[c].stream <= H.Apply(live, step).sockets[c].stream
  {
  }

  /** A live socket stays live; one that is active afterwards has been active before unless
      the step activates it, and keeps its stream. */
  lemma {:induction false} LiveSocketStep(live: H.State, step: H.Step, c: H.SocketId)
    requires H.Inv(live)
    ensures H.InPhase(live, c, H.Phase.Live) ==> H.InPhase(H.Apply(live, step), c, H.Phase.Live)
    ensures H.InPhase(H.Apply(live, step), c, H.Phase.Live) && !H.InPhase(live, c, H.Phase.Live)
            ==> step == H.Step.Activate(c) && Activates(live, step, c)
    ensures H.InPhase(live, c, H.Phase.Live) && H.IsActive(H.Apply(live, step), c) ==> H.IsActive(live, c)
  {
    if H.InPhase(live, c, H.Phase.Live) {
      H.LiveStep(live, step, c);
      assert H.Sound(live, c);
    } else if H.InPhase(H.Apply(live, step), c, H.Phase.Live) {
      H.ActivationStep(live, step, c);
    }
  }

  lemma {:induction false} FedOnward(before: seq<Hub.Message>, after: seq<Hub.Message>, joinedAt: nat, sent: set<nat>)
    requires Fed(before, joinedAt, sent) && before <= after
    ensures Fed(after, joinedAt, sent)
  {
    forall i: nat | i in sent && joinedAt <= i ensures Event(i) in after {
      assert Event(i) in before;
    }
  }

  lemma {:induction false} LiveKeepsSocket(f: Feed, room: RoomId, step: H.Step, c: H.SocketId)
    requires FeedInv(f, room) && Possible(f, room, Live(step))
    ensures SocketInv(Next(f, room, Live(step)), c)
  {
    assert SocketInv(f, c);
    LiveSocketStep(f.live, step, c);
    if H.InPhase(f.live, c, H.Phase.Live) {
      StreamGrows(f.live, step, c);
      if H.IsActive(f.live, c) {
        FedOnward(f.live.sockets[c].stream, H.Apply(f.live, step).sockets[c].stream, f.joinedAt[c], f.sent);
      }
    }
  }

  lemma {:induction false} LiveKeepsFeed(f: Feed, room: RoomId, step: H.Step)
    requires FeedInv(f, room) && Possible(f, room, Live(step))
    ensures FeedInv(Next(f, room, Live(step)), room)
  {
    W.LiveKeepsInStep(f.live, step);
    forall c ensures SocketInv(Next(f, room, Live(step)), c) {
      LiveKeepsSocket(f, room, step, c);
    }
  }

  /** A broadcast reaches every socket that is active after it. */
  lemma {:induction false} BroadcastFeeds(live: H.State, place: nat, c: H.SocketId)
    requires H.Inv(live) && c in live.sockets && H.IsActive(H.Apply(live, H.Step.Broadcast(place)), c)
    ensures Event(place) in H.Apply(live, H.Step.Broadcast(place)).sockets[c].stream
  {
    assert H.Sound(live, c);
    if live.created {
      H.OverflowRemoves(live, place, c);
      var stream := H.Apply(live, H.Step.Broadcast(place)).sockets[c].stream;
      assert stream[|stream| - 1] == Event(place);
    }
  }

  lemma {:induction false} SendKeepsSocket(f: Feed, room: RoomId, place: nat, c: H.SocketId)
    requires FeedInv(f, room) && Possible(f, room, Send(place))
    ensures SocketInv(Next(f, room, Send(place)), c)
  {
    assert SocketInv(f, c);
    var step := H.Step.Broadcast(place);
    LiveSocketStep(f.live, step, c);
    if H.InPhase(f.live, c, H.Phase.Live) {
      StreamGrows(f.live, step, c);
      if H.IsActive(H.Apply(f.live, step), c) {
        FedOnward(f.live.sockets[c].stream, H.Apply(f.live, step).sockets[c].stream, f.joinedAt[c], f.sent);
        BroadcastFeeds(f.live, place, c);
      }
    }
  }

  lemma {:induction false} SendKeepsFeed(f: Feed, room: RoomId, place: nat)
    requires FeedInv(f, room) && Possible(f, room, Send(place))
    ensures FeedInv(Next(f, room, Send(place)), room)
  {
    W.LiveKeepsInStep(f.live, H.Step.Broadcast(place));
    forall c ensures SocketInv(Next(f, room, Send(place)), c) {
      SendKeepsSocket(f, room, place, c);
    }
  }

  // ---------- reads ----------

  lemma {:induction false} MoreRead(got: seq<Message>, read: seq<Message>, joinedAt: nat, committed: seq<Message>)
    requires joinedAt <= |committed| && Ordered(committed)
    requires forall m :: m in got ==> committed != [] && m.version <= Last(committed).version
    requires committed == [] ==> read == []
    requires committed != [] ==> |read| == 1 && read[0].version == Last(committed).version
    ensures UpToJoin(got + read, joinedAt, committed)
  {
    if joinedAt > 0 {
      assert read[0] in got + read;
      assert committed[joinedAt - 1].version <= committed[|committed| - 1].version;
    }
  }

  lemma {:induction false} ReadKeepsFeed(f: Feed, room: RoomId, c: H.SocketId)
    requires FeedInv(f, room) && Possible(f, room, Read(c))
    ensures FeedInv(Next(f, room, Read(c)), room)
  {
    assert SocketInv(f, c);
    assert H.Sound(f.live, c);
    ReadCarriesLastVersion(f.ops, room);
    MoreRead(Got(f, c), ReadAfter(f.ops, room), f.joinedAt[c], f.committed);
    forall d ensures SocketInv(Next(f, room, Read(c)), d) {
      assert SocketInv(f, d);
    }
  }

  lemma {:induction false} NextKeepsFeed(f: Feed, room: RoomId, e: Event)
    requires FeedInv(f, room) && Possible(f, room, e)
    ensures FeedInv(Next(f, room, e), room)
  {
    match e
    case Use(op, call) => UseKeepsFeed(f, room, op, call);
    case Live(step) => LiveKeepsFeed(f, room, step);
    case Send(place) => SendKeepsFeed(f, room, place);
    case Read(c) => ReadKeepsFeed(f, room, c);
  }

  lemma {:induction false} StartFeed(room: RoomId)
    ensures FeedInv(Feed([], [], H.Start, {}, map[], map[]), room)
  {
    W.SocketsGoByTables(room, []);
  }

  lemma {:induction false} AfterEventsInv(room: RoomId, events: seq<Event>)
    ensures FeedInv(AfterEvents(room, events), room)
  {
    if events == [] {
      StartFeed(room);
    } else {
      var f, e := AfterEvents(room, events[..|events| - 1]), events[|events| - 1];
      AfterEventsInv(room, events[..|events| - 1]);
      if Possible(f, room, e) { NextKeepsFeed(f, room, e); }
    }
  }

  // ---------- what a client ends up with ----------

  lemma {:induction false} SnapshotsAreCommitted(stream: seq<Hub.Message>, committed: seq<Message>)
    ensures forall m :: m in Snapshots(stream, committed) ==> m in committed
    ensures forall i: nat :: i < |committed| && Event(i) in stream ==> committed[i] in Snapshots(stream, committed)
  {
    if stream != [] {
      var front := stream[..|stream| - 1];
      SnapshotsAreCommitted(front, committed);
      forall i: nat | i < |committed| && Event(i) in stream ensures committed[i] in Snapshots(stream, committed) {
        assert stream == front + [stream[|stream| - 1]];
        if Event(i) in front { assert committed[i] in Snapshots(front, committed); }
      }
    }
  }

  /** `held` has nothing newer than the last committed snapshot, and its version. */
  ghost predicate ReachesLast(held: seq<Message>, committed: seq<Message>)
    requires committed != []
  {
    && (forall m :: m in held ==> m.version <= Last(committed).version)
    && (exists m :: m in held && m.version == Last(committed).version)
  }

  lemma {:induction false} HeldReachesLast(got: seq<Message>, stream: seq<Hub.Message>, joinedAt: nat, sent: set<nat>,
                                           committed: seq<Message>)
    requires committed != [] && Ordered(committed) && UpToJoin(got, joinedAt, committed)
    requires Fed(stream, joinedAt, sent) && |committed| - 1 in sent
    ensures ReachesLast(got + Snapshots(stream, committed), committed)
  {
    var shown, n := Snapshots(stream, committed), |committed| - 1;
    SnapshotsAreCommitted(stream, committed);
    forall m | m in got + shown ensures m.version <= Last(committed).version {
      if m in shown {
        var i :| 0 <= i < |committed| && committed[i] == m;
      }
    }
    if joinedAt == |committed| {
      var m :| m in got && m.version >= committed[joinedAt - 1].version;
      assert m in got + shown;
    } else {
      assert Event(n) in stream;
      assert committed[n] in got + shown;
    }
  }

  /** The version kept is the last committed one, and if all that was read is older and no
      other snapshot has that version, the snapshot kept is the last committed one. */
  ghost predicate CaughtUp(kept: Option<Message>, got: seq<Message>, committed: seq<Message>)
    requires committed != []
  {
    && kept.Some? && kept.value.version == Last(committed).version
    && ((forall m :: m in got ==> m.version < Last(committed).version) && LastStandsOut(committed)
        ==> kept.value == Last(committed))
  }

  lemma {:induction false} KeptReachesLast(got: seq<Message>, stream: seq<Hub.Message>, joinedAt: nat, sent: set<nat>,
                                           committed: seq<Message>)
    requires committed != [] && Ordered(committed) && UpToJoin(got, joinedAt, committed)
    requires Fed(stream, joinedAt, sent) && |committed| - 1 in sent
    ensures CaughtUp(Kept(got + Snapshots(stream, committed)), got, committed)
  {
    HeldReachesLast(got, stream, joinedAt, sent, committed);
    LargestIsLast(committed, got + Snapshots(stream, committed));
    SnapshotsAreCommitted(stream, committed);
  }

  /** What is known of the client of an active socket that has read the queue. */
  ghost predicate FedClient(f: Feed, c: H.SocketId) {
    && c in f.live.sockets && c in f.joinedAt && c in f.got && Ordered(f.committed)
    && Fed(f.live.sockets[c].stream, f.joinedAt[c], f.sent)
    && UpToJoin(f.got[c], f.joinedAt[c], f.committed)
  }

  lemma {:induction false} ActiveClientIsFed(f: Feed, room: RoomId, c: H.SocketId)
    requires FeedInv(f, room) && H.IsActive(f.live, c) && c in f.got
    ensures FedClient(f, c)
  {
    assert SocketInv(f, c) && H.Sound(f.live, c);
  }

  lemma {:induction false} FedClientCatchesUp(f: Feed, c: H.SocketId)
    requires FedClient(f, c) && f.live.sockets[c].read == |f.live.sockets[c].stream|
    requires f.committed != [] && |f.committed| - 1 in f.sent
    ensures CaughtUp(Kept(Held(f, c)), f.got[c], f.committed)
  {
    var x := f.live.sockets[c];
    assert x.stream[..x.read] == x.stream;
    KeptReachesLast(f.got[c], x.stream, f.joinedAt[c], f.sent, f.committed);
  }

  lemma {:induction false} ReadersAreFed(room: RoomId, events: seq<Event>, c: H.SocketId)
    requires H.IsActive(AfterEvents(room, events).live, c) && c in AfterEvents(room, events).got
    ensures FedClient(AfterEvents(room, events), c)
  {
    AfterEventsInv(room, events);
    ActiveClientIsFed(AfterEvents(room, events), room, c);
  }

  /** In every interleaving: a client whose socket is active, that has read the queue since it
      was asked to synchronise and has taken everything from its channel, holds the last
      committed version once the last snapshot has been broadcast, however late and in
      whatever order broadcasts went out; and if all it has read is older and no other
      snapshot has that version, it holds exactly the last committed snapshot. */
  lemma {:induction false} ActiveClientsCatchUp(room: RoomId, events: seq<Event>, c: H.SocketId)
    requires var f := AfterEvents(room, events);
             && H.IsActive(f.live, c) && c in f.live.sockets && c in f.got
             && f.live.sockets[c].read == |f.live.sockets[c].stream|
             && f.committed != [] && |f.committed| - 1 in f.sent
    ensures var f := AfterEvents(room, events);
            CaughtUp(Kept(Held(f, c)), f.got[c], f.committed)
  {
    ReadersAreFed(room, events, c);
    FedClientCatchesUp(AfterEvents(room, events), c);
  }

  /** The snapshots to announce are those of the run of the use cases, and the last one is
      alone with its version if and only if the last rewrite did not lose its reading. */
  lemma {:induction false} AnnouncedAreCommitted(room: RoomId, events: seq<Event>)
    ensures var f := AfterEvents(room, events);
            && f.committed == Messages(f.ops, room)
            && (f.committed != [] ==> (LastStandsOut(f.committed) <==> LastReadingGood(f.ops, room)))
  {
    AfterEventsInv(room, events);
    LastMessageStandsOutIff(AfterEvents(room, events).ops, room);
  }
}
