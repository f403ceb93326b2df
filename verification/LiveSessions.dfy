/**
 The tables and one room's sockets together. What a use case commits and signals is what
 the handshakes' session checks and the disconnections of the hub go by.
 */
module LiveSessions {
  import opened Common
  import opened Tables
  import opened Invariants
  import opened Operations
  import opened Preservation
  import opened Effects
  import H = HubSystem

  datatype World = World(db: Db, live: H.State)

  /** A use case, with a name for the disconnecting call it may issue; or a step of a
      handshake, a pump, a broadcast or a call in flight. */
  datatype Event = Use(op: Op, call: H.CallId) | Live(step: H.Step)

  /** The sessions joined to the room. */
  function JoinedIn(sessions: map<SessionId, Session>, room: RoomId): set<SessionId> {
    set s | s in sessions && sessions[s].room == room && sessions[s].status == Joined
  }

  /** What the signals of one commit mean for the room's sockets: a session has joined, or
      has ended and is to be disconnected. */
  function Meaning(signals: seq<Signal>, room: RoomId, call: H.CallId): seq<H.Step> {
    if signals == [] then []
    else
      Meaning(signals[..|signals| - 1], room, call)
      + match signals[|signals| - 1]
        case RoomJoined(r, s) => if r == room then [H.Step.Join(s)] else []
        case Disconnected(r, s) => if r == room then [H.Step.EndSession(s, call)] else []
        case _ => []
  }

  /** A leave is made for the room of the session, as it was read with the session. */
  predicate WellAddressed(db: Db, op: Op) {
    op.OpLeave? ==> op.session in db.sessions && op.room == db.sessions[op.session].room
  }

  ghost predicate Possible(w: World, room: RoomId, e: Event) {
    match e
    case Use(op, call) => Ready(w.db) && WellAddressed(w.db, op) && call !in w.live.calls
    case Live(step) => !step.Join? && !step.EndSession?
  }

  ghost function Next(w: World, room: RoomId, e: Event): World {
    if !Possible(w, room, e) then w
    else
      match e
      case Use(op, call) =>
        World(Step(w.db, op).db, H.After(w.live, Meaning(Step(w.db, op).signals, room, call)))
      case Live(step) => w.(live := H.Apply(w.live, step))
  }

  ghost function AfterEvents(room: RoomId, events: seq<Event>): World {
    if events == [] then World(EmptyDb, H.Start)
    else Next(AfterEvents(room, events[..|events| - 1]), room, events[|events| - 1])
  }

  // ---------- the sockets go by the tables ----------

  /** The handshakes check exactly the sessions that are joined in the tables. */
  ghost predicate InStep(w: World, room: RoomId) {
    Inv(w.db) && H.Inv(w.live) && w.live.active == JoinedIn(w.db.sessions, room)
  }

  /** Signals about sessions, in a commit that sends at most two. */
  lemma MeaningOfOne(s: Signal, room: RoomId, call: H.CallId)
    ensures Meaning([s], room, call)
            == match s
               case RoomJoined(r, u) => if r == room then [H.Step.Join(u)] else []
               case Disconnected(r, u) => if r == room then [H.Step.EndSession(u, call)] else []
               case _ => []
  {
    assert [s][..0] == [];
  }

  lemma MeaningOfTwo(s: Signal, t: Signal, room: RoomId, call: H.CallId)
    ensures Meaning([s, t], room, call) == Meaning([s], room, call) + Meaning([t], room, call)
  {
    assert [s, t][..1] == [s];
    MeaningOfOne(t, room, call);
  }

  lemma AfterOne(live: H.State, step: H.Step)
    ensures H.After(live, [step]) == H.Apply(live, step)
  {
    assert [step][..0] == [];
  }

  /** A commit joins one session to the room, and its signals say so. */
  ghost predicate Joins(before: map<SessionId, Session>, after: map<SessionId, Session>, said: seq<H.Step>,
                        room: RoomId, s: SessionId) {
    JoinedIn(after, room) == JoinedIn(before, room) + {s} && said == [H.Step.Join(s)]
  }

  /** A commit ends one session of the room, and its signals say so. */
  ghost predicate Ends(before: map<SessionId, Session>, after: map<SessionId, Session>, said: seq<H.Step>, room: RoomId,
                       call: H.CallId, s: SessionId)
  {
    JoinedIn(after, room) == JoinedIn(before, room) - {s} && said == [H.Step.EndSession(s, call)]
  }

  ghost predicate Says(before: map<SessionId, Session>, after: map<SessionId, Session>, said: seq<H.Step>,
                       room: RoomId, call: H.CallId)
  {
    || (JoinedIn(after, room) == JoinedIn(before, room) && said == [])
    || (exists s :: Joins(before, after, said, room, s))
    || (exists s :: Ends(before, after, said, room, call, s))
  }

  lemma ReattachSays(db: Db, target: RoomId, s: SessionId, nickname: string, room: RoomId, call: H.CallId)
    requires s in db.sessions && db.sessions[s].room == target
    ensures var o := Admitted(db, target, Some(s), nickname);
            Says(db.sessions, o.db.sessions, Meaning(o.signals, room, call), room, call)
  {
    var o := Admitted(db, target, Some(s), nickname);
    MeaningOfOne(RoomJoined(target, s), room, call);
    if target == room { assert Joins(db.sessions, o.db.sessions, Meaning(o.signals, room, call), room, s); }
  }

  lemma SwitchSays(db: Db, target: RoomId, s: SessionId, nickname: string, room: RoomId, call: H.CallId)
    requires s in db.sessions && db.sessions[s].room != target && db.nextSession !in db.sessions
    ensures var o := Admitted(db, target, Some(s), nickname);
            Says(db.sessions, o.db.sessions, Meaning(o.signals, room, call), room, call)
  {
    var o := Admitted(db, target, Some(s), nickname);
    var left, joined := Disconnected(db.sessions[s].room, s), RoomJoined(target, db.nextSession);
    assert o.signals == [left, joined];
    MeaningOfOne(left, room, call);
    MeaningOfOne(joined, room, call);
    MeaningOfTwo(left, joined, room, call);
    if target == room {
      assert Joins(db.sessions, o.db.sessions, Meaning(o.signals, room, call), room, db.nextSession);
    } else if db.sessions[s].room == room {
      assert Ends(db.sessions, o.db.sessions, Meaning(o.signals, room, call), room, call, s);
    }
  }

  lemma NewGuestSays(db: Db, target: RoomId, known: Option<SessionId>, nickname: string, room: RoomId, call: H.CallId)
    requires (known.Some? ==> known.value !in db.sessions) && db.nextSession !in db.sessions
    ensures var o := Admitted(db, target, known, nickname);
            Says(db.sessions, o.db.sessions, Meaning(o.signals, room, call), room, call)
  {
    var o := Admitted(db, target, known, nickname);
    var joined := RoomJoined(target, db.nextSession);
    assert o.signals == [joined];
    MeaningOfOne(joined, room, call);
    if target == room {
      assert Joins(db.sessions, o.db.sessions, Meaning(o.signals, room, call), room, db.nextSession);
    }
  }

  lemma JoinSays(db: Db, first: Option<RoomId>, second: Option<RoomId>, known: Option<SessionId>, nickname: string,
                 room: RoomId, call: H.CallId)
    requires db.nextSession !in db.sessions
    ensures var o := Join(db, first, second, known, nickname);
            Says(db.sessions, o.db.sessions, Meaning(o.signals, room, call), room, call)
  {
    if Join(db, first, second, known, nickname).result.Ok? {
      if known.None? || known.value !in db.sessions {
        NewGuestSays(db, first.value, known, nickname, room, call);
      } else if db.sessions[known.value].room == first.value {
        ReattachSays(db, first.value, known.value, nickname, room, call);
      } else {
        SwitchSays(db, first.value, known.value, nickname, room, call);
      }
    }
  }

  lemma LeaveSays(db: Db, s: SessionId, room: RoomId, call: H.CallId)
    requires s in db.sessions
    ensures var o := Leave(db, s, db.sessions[s].room);
            Says(db.sessions, o.db.sessions, Meaning(o.signals, room, call), room, call)
  {
    var o := Leave(db, s, db.sessions[s].room);
    MeaningOfOne(Disconnected(db.sessions[s].room, s), room, call);
    if db.sessions[s].room == room {
      assert Ends(db.sessions, o.db.sessions, Meaning(o.signals, room, call), room, call, s);
    }
  }

  lemma QuietTables(db: Db, op: Op)
    requires Ready(db) && !op.OpJoin? && !op.OpLeave?
    ensures Step(db, op).db.sessions == db.sessions
  {
    StepIsUseCase(db, op);
    if op.OpPropose? { ProposeCases(db, op.room, op.caller, op.catalog, op.firstLook, op.gap); }
  }

  lemma QuietSignals(db: Db, op: Op)
    requires Ready(db) && !op.OpJoin? && !op.OpLeave?
    ensures var signals := Step(db, op).signals;
            |signals| <= 1 && (signals != [] ==> !signals[0].RoomJoined? && !signals[0].Disconnected?)
  {
    if op.OpPropose? { ProposeCases(db, op.room, op.caller, op.catalog, op.firstLook, op.gap); }
  }

  lemma QuietSays(db: Db, op: Op, room: RoomId, call: H.CallId)
    requires Ready(db) && !op.OpJoin? && !op.OpLeave?
    ensures Step(db, op).db.sessions == db.sessions && Meaning(Step(db, op).signals, room, call) == []
  {
    QuietTables(db, op);
    QuietSignals(db, op);
    var signals := Step(db, op).signals;
    if signals != [] {
      assert signals == [signals[0]];
      MeaningOfOne(signals[0], room, call);
    }
  }

  lemma {:induction false} StepSays(db: Db, op: Op, room: RoomId, call: H.CallId)
    requires Ready(db) && db.nextSession !in db.sessions && WellAddressed(db, op)
    ensures Says(db.sessions, Step(db, op).db.sessions, Meaning(Step(db, op).signals, room, call), room, call)
  {
    if op.OpJoin? {
      JoinSays(db, op.firstCode, op.secondCode, op.known, op.nickname, room, call);
    } else if op.OpLeave? {
      LeaveSays(db, op.session, room, call);
    } else {
      QuietSays(db, op, room, call);
    }
  }

  /** Taking the signals to the sockets keeps them in step with the tables. */
  lemma {:induction false} SaidIsDone(live: H.State, before: map<SessionId, Session>, after: map<SessionId, Session>,
                                      said: seq<H.Step>, room: RoomId, call: H.CallId)
    requires Says(before, after, said, room, call) && live.active == JoinedIn(before, room) && call !in live.calls
    ensures H.After(live, said).active == JoinedIn(after, room)
  {
    if s :| Joins(before, after, said, room, s) {
      AfterOne(live, H.Step.Join(s));
    } else if s :| Ends(before, after, said, room, call, s) {
      AfterOne(live, H.Step.EndSession(s, call));
    }
  }

  lemma {:induction false} UseKeepsInStep(w: World, room: RoomId, op: Op, call: H.CallId)
    requires InStep(w, room) && Possible(w, room, Use(op, call))
    ensures InStep(Next(w, room, Use(op, call)), room)
  {
    StepKeepsInv(w.db, op);
    StepSays(w.db, op, room, call);
    var said := Meaning(Step(w.db, op).signals, room, call);
    SaidIsDone(w.live, w.db.sessions, Step(w.db, op).db.sessions, said, room, call);
    H.AfterKeepsInv(w.live, said);
  }

  lemma LiveKeepsInStep(live: H.State, step: H.Step)
    requires H.Inv(live) && !step.Join? && !step.EndSession?
    ensures H.Inv(H.Apply(live, step)) && H.Apply(live, step).active == live.active
  {
    H.StepKeepsInv(live, step);
  }

  /** In every reachable world the session checks of the handshakes go by the tables. */
  lemma {:induction false} SocketsGoByTables(room: RoomId, events: seq<Event>)
    ensures InStep(AfterEvents(room, events), room)
  {
    if events == [] {
      EmptyDbInv();
    } else {
      var w := AfterEvents(room, events[..|events| - 1]);
      SocketsGoByTables(room, events[..|events| - 1]);
      match events[|events| - 1]
      case Use(op, call) => if Possible(w, room, Use(op, call)) { UseKeepsInStep(w, room, op, call); }
      case Live(step) => if Possible(w, room, Live(step)) { LiveKeepsInStep(w.live, step); }
    }
  }

  /** In every reachable world an active socket belongs to a session that is joined to the
      room in the tables, or the call that will disconnect it is on its way. */
  lemma {:induction false} ActiveSocketsAreJoined(room: RoomId, events: seq<Event>, c: H.SocketId)
    requires H.IsActive(AfterEvents(room, events).live, c)
    ensures var w := AfterEvents(room, events);
            && c in w.live.sockets
            && var s := w.live.sockets[c].session;
               || (s in w.db.sessions && w.db.sessions[s].room == room && w.db.sessions[s].status == Joined)
               || H.OnItsWay(w.live, s)
  {
    SocketsGoByTables(room, events);
    var live := AfterEvents(room, events).live;
    assert H.Sound(live, c) && H.Covered(live, c);
  }

  // ---------- what a leave and a join do to the sockets ----------

  /** The session has ended for the handshakes, and the call that will disconnect its sockets
      is on its way; sockets and hub are as before. */
  ghost predicate EndedIn(before: H.State, after: H.State, s: SessionId, call: H.CallId) {
    && s !in after.active && after.active == before.active - {s}
    && call in after.calls && after.calls[call].session == s
    && after.sockets == before.sockets && after.hub == before.hub
  }

  lemma {:induction false} EndingIsDone(live: H.State, s: SessionId, call: H.CallId)
    requires call !in live.calls
    ensures EndedIn(live, H.After(live, [H.Step.EndSession(s, call)]), s, call)
  {
    AfterOne(live, H.Step.EndSession(s, call));
  }

  /** In every reachable world a leave of the room takes the session out of the tables and
      away from the handshakes, and sends its disconnection on its way. */
  lemma {:induction false} LeaveDisconnects(room: RoomId, events: seq<Event>, s: SessionId, call: H.CallId)
    requires Possible(AfterEvents(room, events), room, Use(OpLeave(s, room), call))
    ensures var w := AfterEvents(room, events);
            var after := Next(w, room, Use(OpLeave(s, room), call));
            && s in after.db.sessions && after.db.sessions[s].status == Left
            && EndedIn(w.live, after.live, s, call) && H.OnItsWay(after.live, s)
  {
    var w := AfterEvents(room, events);
    LeaveEffect(w.db, s, room);
    MeaningOfOne(Disconnected(room, s), room, call);
    EndingIsDone(w.live, s, call);
    assert Next(w, room, Use(OpLeave(s, room), call)).live.calls[call].session == s;
  }

  /** So does an accepted join of another room by the session's guest. */
  lemma {:induction false} SwitchDisconnects(room: RoomId, events: seq<Event>, target: RoomId, s: SessionId,
                                             nickname: string, call: H.CallId)
    requires Possible(AfterEvents(room, events), room, Use(OpJoin(Some(target), Some(target), Some(s), nickname), call))
    requires var db := AfterEvents(room, events).db;
             1 <= |nickname| <= 32 && OpenRoom(db, target) && s in db.sessions && db.sessions[s].room == room != target
    ensures var w := AfterEvents(room, events);
            var after := Next(w, room, Use(OpJoin(Some(target), Some(target), Some(s), nickname), call));
            && s in after.db.sessions && after.db.sessions[s].status == Left
            && EndedIn(w.live, after.live, s, call) && H.OnItsWay(after.live, s)
  {
    var w := AfterEvents(room, events);
    SocketsGoByTables(room, events);
    JoinEffect(w.db, target, Some(s), nickname);
    var left, joined := Disconnected(room, s), RoomJoined(target, w.db.nextSession);
    MeaningOfOne(left, room, call);
    MeaningOfOne(joined, room, call);
    MeaningOfTwo(left, joined, room, call);
    EndingIsDone(w.live, s, call);
    var after := Next(w, room, Use(OpJoin(Some(target), Some(target), Some(s), nickname), call));
    assert after.live.calls[call].session == s;
  }
}
