/**
 What a use case needs to see of the tables, and what it writes back. Computing on tables
 that look the same on the locked rows, and writing back only what those rows guard, does
 what the use case does when it runs alone.
 */
module WriteBack {
  import opened Common
  import opened Tables
  import opened Invariants
  import opened Operations
  import opened Preservation
  import opened Locality

  // ---------- what a use case needs to see ----------

  ghost predicate SameNext(a: Db, b: Db) {
    a.nextTrack == b.nextTrack && a.nextSession == b.nextSession
  }

  /** Two sets of tables that look the same to a use case on the rows it locks. */
  ghost predicate LookAlike(a: Db, b: Db, op: Op) {
    && (LockedRoom(op).Some? ==> Agree(a, b, LockedRoom(op).value))
    && (LockedSession(op).Some? ==> AgreeOn(a, b, LockedSession(op).value))
    && SameNext(a, b)
  }

  /** The same done to the locked room, and the same sent. */
  ghost predicate SameOutcome(a: Outcome, b: Outcome, op: Op) {
    && (LockedRoom(op).Some? ==> Agree(a.db, b.db, LockedRoom(op).value))
    && a.signals == b.signals
  }

  lemma {:induction false} SettingsAreLocal(a: Db, b: Db, op: Op)
    requires Ready(a) && Ready(b) && LookAlike(a, b, op) && op.OpCreateRoom?
    ensures SameOutcome(Step(a, op), Step(b, op), op)
  {
    CreationReadsItsRoom(a, b, op.id, op.name, op.settings);
  }

  lemma {:induction false} PatchIsLocal(a: Db, b: Db, op: Op)
    requires Ready(a) && Ready(b) && LookAlike(a, b, op) && op.OpPatchRoom?
    ensures SameOutcome(Step(a, op), Step(b, op), op)
  {
    PatchReadsItsRoom(a, b, op.room, op.newStatus, op.newLimit, op.newVotes);
  }

  lemma {:induction false} JoinIsLocal(a: Db, b: Db, op: Op)
    requires Ready(a) && Ready(b) && LookAlike(a, b, op) && op.OpJoin?
    ensures SameOutcome(Step(a, op), Step(b, op), op)
  {
    if op.firstCode.Some? {
      JoinReadsItsRoom(a, b, op.firstCode, op.secondCode, op.known, op.nickname);
    }
  }

  lemma {:induction false} ProposalOutcome(a: Db, b: Db, op: Op)
    requires Ready(a) && Ready(b) && op.OpPropose?
    requires SameEffect(ProposeTrack(a, op.room, op.caller, op.catalog, op.firstLook, op.gap),
                        ProposeTrack(b, op.room, op.caller, op.catalog, op.firstLook, op.gap), op.room)
    ensures SameOutcome(Step(a, op), Step(b, op), op)
  {
  }

  lemma {:induction false} ProposalIsLocal(a: Db, b: Db, op: Op)
    requires Ready(a) && Ready(b) && ActiveUnique(a.tracks) && ActiveUnique(b.tracks)
    requires LookAlike(a, b, op) && op.OpPropose?
    ensures SameOutcome(Step(a, op), Step(b, op), op)
  {
    ProposalReadsItsRoom(a, b, op.room, op.caller, op.catalog, op.firstLook, op.gap);
    ProposalOutcome(a, b, op);
  }

  lemma {:induction false} VoteStep(db: Db, op: Op)
    requires Ready(db) && op.OpVote?
    ensures Step(db, op) == Committed(AddVote(db, op.room, op.session, op.track))
  {
  }

  lemma {:induction false} SameOutcomeOf<T>(a: Out<T>, b: Out<T>, op: Op)
    requires LockedRoom(op).Some? ==> Agree(a.db, b.db, LockedRoom(op).value)
    requires a.signals == b.signals
    ensures SameOutcome(Committed(a), Committed(b), op)
  {
  }

  lemma {:induction false} VoteIsLocal(a: Db, b: Db, op: Op)
    requires Ready(a) && Ready(b) && VoteReferences(a) && VoteReferences(b) && LookAlike(a, b, op) && op.OpVote?
    ensures SameOutcome(Step(a, op), Step(b, op), op)
  {
    VoteWritesItsRoom(a, b, op.room, op.session, op.track);
    SameOutcomeOf(AddVote(a, op.room, op.session, op.track), AddVote(b, op.room, op.session, op.track), op);
    VoteStep(a, op);
    VoteStep(b, op);
  }

  lemma {:induction false} DeleteIsLocal(a: Db, b: Db, op: Op)
    requires Ready(a) && Ready(b) && LookAlike(a, b, op) && op.OpDelete?
    ensures SameOutcome(Step(a, op), Step(b, op), op)
  {
    DeleteReadsItsRoom(a, b, op.room, op.track);
  }

  lemma {:induction false} EndIsLocal(a: Db, b: Db, op: Op)
    requires Ready(a) && Ready(b) && LookAlike(a, b, op) && op.OpEnd?
    ensures SameOutcome(Step(a, op), Step(b, op), op)
  {
    EndReadsItsRoom(a, b, op.room, op.track, EndStatus(op.skipped));
  }

  lemma {:induction false} PlayIsLocal(a: Db, b: Db, op: Op)
    requires Ready(a) && Ready(b) && LookAlike(a, b, op) && op.OpPlay?
    ensures SameOutcome(Step(a, op), Step(b, op), op)
  {
    PlayReadsItsRoom(a, b, op.room, op.track);
  }

  lemma {:induction false} BatchOutcome(a: Db, b: Db, op: Op)
    requires Ready(a) && Ready(b) && op.OpRecalculate?
    requires SameEffect(RecalculateRoomQueue(a, op.room, op.now, op.createdAt, op.logId),
                        RecalculateRoomQueue(b, op.room, op.now, op.createdAt, op.logId), op.room)
    ensures SameOutcome(Step(a, op), Step(b, op), op)
  {
  }

  lemma {:induction false} BatchIsLocal(a: Db, b: Db, op: Op)
    requires Inv(a) && Inv(b) && LookAlike(a, b, op) && op.OpRecalculate?
    ensures SameOutcome(Step(a, op), Step(b, op), op)
  {
    BatchReadsItsRoom(a, b, op.room, op.now, op.createdAt, op.logId);
    BatchOutcome(a, b, op);
  }

  lemma {:induction false} LeaveIsLocal(a: Db, b: Db, op: Op)
    requires Ready(a) && Ready(b) && (op.OpLeave? || op.OpFault?)
    ensures SameOutcome(Step(a, op), Step(b, op), op)
  {
  }

  lemma {:induction false} RoomStepIsLocal(a: Db, b: Db, op: Op)
    requires Ready(a) && Ready(b) && LookAlike(a, b, op) && LockedSession(op).None? && !op.OpRecalculate?
    ensures SameOutcome(Step(a, op), Step(b, op), op)
  {
    match op
    case OpCreateRoom(_, _, _) => SettingsAreLocal(a, b, op);
    case OpPatchRoom(_, _, _, _) => PatchIsLocal(a, b, op);
    case OpJoin(_, _, _, _) => JoinIsLocal(a, b, op);
    case OpDelete(_, _) => DeleteIsLocal(a, b, op);
    case OpEnd(_, _, _) => EndIsLocal(a, b, op);
    case OpPlay(_, _) => PlayIsLocal(a, b, op);
    case OpFault => LeaveIsLocal(a, b, op);
  }

  /** What a use case does to its room, and what it sends, depends on nothing but the rows it
      locks. */
  lemma {:induction false} StepIsLocal(a: Db, b: Db, op: Op)
    requires Inv(a) && Inv(b) && LookAlike(a, b, op)
    ensures SameOutcome(Step(a, op), Step(b, op), op)
  {
    if op.OpRecalculate? {
      BatchIsLocal(a, b, op);
    } else if op.OpPropose? {
      ProposalIsLocal(a, b, op);
    } else if op.OpVote? {
      VoteIsLocal(a, b, op);
    } else if op.OpJoin? {
      JoinIsLocal(a, b, op);
    } else if op.OpLeave? {
      LeaveIsLocal(a, b, op);
    } else {
      RoomStepIsLocal(a, b, op);
    }
  }

  // ---------- sessions and ids ----------

  ghost predicate SameSession(a: map<SessionId, Session>, b: map<SessionId, Session>, s: SessionId) {
    (s in a <==> s in b) && (s in a ==> a[s] == b[s])
  }

  /** The same sessions on the locked row and on a new one, and the same next ids. */
  ghost predicate SameSessions(a: Db, b: Db, op: Op, created: SessionId) {
    && (LockedSession(op).Some? ==> SameSession(a.sessions, b.sessions, LockedSession(op).value))
    && SameSession(a.sessions, b.sessions, created)
    && SameNext(a, b)
  }

  lemma {:induction false} NewGuestSession(a: Db, b: Db, room: RoomId, known: Option<SessionId>, nickname: string)
    requires SameNext(a, b)
    requires known.Some? ==> known.value !in a.sessions && known.value !in b.sessions
    ensures var x, y := Admitted(a, room, known, nickname).db, Admitted(b, room, known, nickname).db;
            && (known.Some? ==> SameSession(x.sessions, y.sessions, known.value))
            && SameSession(x.sessions, y.sessions, a.nextSession) && SameNext(x, y)
  {
  }

  lemma {:induction false} ReturningSession(a: Db, b: Db, s: SessionId, nickname: string)
    requires SameNext(a, b) && a.nextSession !in a.sessions && b.nextSession !in b.sessions
    requires s in a.sessions && s in b.sessions && a.sessions[s] == b.sessions[s]
    ensures var room := a.sessions[s].room;
            var x, y := Admitted(a, room, Some(s), nickname).db, Admitted(b, room, Some(s), nickname).db;
            && SameSession(x.sessions, y.sessions, s)
            && SameSession(x.sessions, y.sessions, a.nextSession) && SameNext(x, y)
  {
  }

  lemma {:induction false} SwitchingSession(a: Db, b: Db, room: RoomId, s: SessionId, nickname: string)
    requires SameNext(a, b) && a.nextSession !in a.sessions && b.nextSession !in b.sessions
    requires s in a.sessions && s in b.sessions && a.sessions[s] == b.sessions[s] && a.sessions[s].room != room
    ensures var x, y := Admitted(a, room, Some(s), nickname).db, Admitted(b, room, Some(s), nickname).db;
            && SameSession(x.sessions, y.sessions, s)
            && SameSession(x.sessions, y.sessions, a.nextSession) && SameNext(x, y)
  {
    var left, n := a.sessions[s].(status := Left), a.nextSession;
    var x, y := Admitted(a, room, Some(s), nickname).db, Admitted(b, room, Some(s), nickname).db;
    assert x.sessions == a.sessions[s := left][n := Session(room, nickname, Joined)];
    assert y.sessions == b.sessions[s := left][n := Session(room, nickname, Joined)];
  }

  lemma {:induction false} AdmissionOfLocked(a: Db, b: Db, room: RoomId, known: Option<SessionId>, nickname: string)
    requires SameNext(a, b) && a.nextSession !in a.sessions && b.nextSession !in b.sessions
    requires known.Some? ==> AgreeOn(a, b, known.value)
    ensures var x, y := Admitted(a, room, known, nickname).db, Admitted(b, room, known, nickname).db;
            && (known.Some? ==> SameSession(x.sessions, y.sessions, known.value))
            && SameSession(x.sessions, y.sessions, a.nextSession) && SameNext(x, y)
  {
    if known.Some? && known.value in a.sessions {
      if a.sessions[known.value].room == room {
        ReturningSession(a, b, known.value, nickname);
      } else {
        SwitchingSession(a, b, room, known.value, nickname);
      }
    } else {
      NewGuestSession(a, b, room, known, nickname);
    }
  }

  lemma {:induction false} JoinOfLocked(a: Db, b: Db, first: RoomId, second: Option<RoomId>, known: Option<SessionId>,
                                        nickname: string)
    requires SameNext(a, b) && a.nextSession !in a.sessions && b.nextSession !in b.sessions
    requires Agree(a, b, first) && (known.Some? ==> AgreeOn(a, b, known.value))
    ensures var x := Join(a, Some(first), second, known, nickname).db;
            var y := Join(b, Some(first), second, known, nickname).db;
            && (known.Some? ==> SameSession(x.sessions, y.sessions, known.value))
            && SameSession(x.sessions, y.sessions, a.nextSession) && SameNext(x, y)
  {
    JoinReadsItsRoom(a, b, Some(first), second, known, nickname);
    if Join(a, Some(first), second, known, nickname).result.Ok? {
      AdmissionOfLocked(a, b, first, known, nickname);
    } else {
      JoinRefusal(a, Some(first), second, known, nickname);
      JoinRefusal(b, Some(first), second, known, nickname);
    }
  }

  lemma {:induction false} JoinSessions(a: Db, b: Db, op: Op)
    requires Ready(a) && Ready(b) && LookAlike(a, b, op) && op.OpJoin?
    requires a.nextSession !in a.sessions && b.nextSession !in b.sessions
    ensures SameSessions(Step(a, op).db, Step(b, op).db, op, a.nextSession)
  {
    StepIsUseCase(a, op);
    StepIsUseCase(b, op);
    if op.firstCode.Some? { JoinOfLocked(a, b, op.firstCode.value, op.secondCode, op.known, op.nickname); }
  }

  lemma {:induction false} LeaveSessions(a: Db, b: Db, op: Op)
    requires Ready(a) && Ready(b) && LookAlike(a, b, op) && op.OpLeave?
    requires a.nextSession !in a.sessions && b.nextSession !in b.sessions
    ensures SameSessions(Step(a, op).db, Step(b, op).db, op, a.nextSession)
  {
    StepIsUseCase(a, op);
    StepIsUseCase(b, op);
  }

  /** A proposal issues a track id exactly if it answers with it. */
  lemma {:induction false} ProposalIssues(db: Db, room: RoomId, caller: Caller, catalog: CatalogId,
                                          firstLook: Option<RoomStatus>, gap: nat)
    requires db.queue.Keys == db.rooms.Keys
    ensures var o := ProposeTrack(db, room, caller, catalog, firstLook, gap);
            && o.db.sessions == db.sessions && o.db.nextSession == db.nextSession
            && o.db.nextTrack == db.nextTrack + (if o.result.Ok? && o.result.value.Created? then 1 else 0)
  {
    ProposeCases(db, room, caller, catalog, firstLook, gap);
  }

  lemma {:induction false} SameAnswerSameIds(a: Db, b: Db, op: Op)
    requires Ready(a) && Ready(b) && LookAlike(a, b, op) && op.OpPropose?
    requires ProposeTrack(a, op.room, op.caller, op.catalog, op.firstLook, op.gap).result
             == ProposeTrack(b, op.room, op.caller, op.catalog, op.firstLook, op.gap).result
    requires a.nextSession !in a.sessions && b.nextSession !in b.sessions
    ensures SameSessions(Step(a, op).db, Step(b, op).db, op, a.nextSession)
  {
    StepIsUseCase(a, op);
    StepIsUseCase(b, op);
    ProposalIssues(a, op.room, op.caller, op.catalog, op.firstLook, op.gap);
    ProposalIssues(b, op.room, op.caller, op.catalog, op.firstLook, op.gap);
  }

  lemma {:induction false} ProposalSessions(a: Db, b: Db, op: Op)
    requires Ready(a) && Ready(b) && ActiveUnique(a.tracks) && ActiveUnique(b.tracks)
    requires LookAlike(a, b, op) && op.OpPropose?
    requires a.nextSession !in a.sessions && b.nextSession !in b.sessions
    ensures SameSessions(Step(a, op).db, Step(b, op).db, op, a.nextSession)
  {
    ProposalReadsItsRoom(a, b, op.room, op.caller, op.catalog, op.firstLook, op.gap);
    SameAnswerSameIds(a, b, op);
  }

  lemma {:induction false} OthersIssueNothing(db: Db, op: Op)
    requires Ready(db) && !op.OpJoin? && !op.OpLeave? && !op.OpPropose?
    ensures Step(db, op).db.sessions == db.sessions && SameNext(db, Step(db, op).db)
  {
    StepIsUseCase(db, op);
  }

  /** What a use case does to its session, and which ids it issues, depends on nothing but the
      rows it locks. */
  lemma {:induction false} SessionsAreLocal(a: Db, b: Db, op: Op)
    requires Inv(a) && Inv(b) && LookAlike(a, b, op)
    ensures SameSessions(Step(a, op).db, Step(b, op).db, op, a.nextSession)
  {
    if op.OpJoin? {
      JoinSessions(a, b, op);
    } else if op.OpLeave? {
      LeaveSessions(a, b, op);
    } else if op.OpPropose? {
      ProposalSessions(a, b, op);
    } else {
      OthersIssueNothing(a, op);
      OthersIssueNothing(b, op);
    }
  }

  // ---------- what is written back ----------

  /** The room's entry as it is afterwards, all others as they were. */
  function RoomEntry<V>(before: map<RoomId, V>, after: map<RoomId, V>, room: Option<RoomId>): map<RoomId, V> {
    if room.None? then before
    else if room.value in after then before[room.value := after[room.value]]
    else before - {room.value}
  }

  function RoomTracks(before: map<TrackId, Track>, after: map<TrackId, Track>,
                      room: Option<RoomId>): map<TrackId, Track> {
    (map t | t in before && Some(before[t].room) != room :: before[t])
    + (map t | t in after && Some(after[t].room) == room :: after[t])
  }

  function RoomVotes(before: set<Vote>, after: set<Vote>, room: Option<RoomId>): set<Vote> {
    (set v | v in before && Some(v.room) != room) + (set v | v in after && Some(v.room) == room)
  }

  predicate Mine(s: SessionId, locked: Option<SessionId>, created: SessionId) {
    Some(s) == locked || s == created
  }

  /** The locked session and a new one as they are afterwards, all others as they were. */
  function SessionEntries(before: map<SessionId, Session>, after: map<SessionId, Session>, locked: Option<SessionId>,
                          created: SessionId): map<SessionId, Session> {
    (map s | s in before && !Mine(s, locked, created) :: before[s])
    + (map s | s in after && Mine(s, locked, created) :: after[s])
  }

  /** `after` is what a use case has made of the tables as it saw them; only what the locked
      rows guard is written to the committed tables `db`. */
  function WrittenBack(db: Db, after: Db, op: Op): Db {
    var room := LockedRoom(op);
    Db(RoomEntry(db.rooms, after.rooms, room),
       SessionEntries(db.sessions, after.sessions, LockedSession(op), db.nextSession),
       RoomTracks(db.tracks, after.tracks, room),
       RoomVotes(db.votes, after.votes, room),
       RoomEntry(db.queue, after.queue, room),
       RoomEntry(db.log, after.log, room),
       after.nextTrack, after.nextSession)
  }

  lemma {:induction false} SameEntries<V>(before: map<RoomId, V>, after: map<RoomId, V>, all: map<RoomId, V>,
                                          room: Option<RoomId>)
    requires forall r :: Some(r) != room ==> (r in before <==> r in all) && (r in before ==> before[r] == all[r])
    requires room.Some? ==> var r := room.value; (r in after <==> r in all) && (r in after ==> after[r] == all[r])
    ensures RoomEntry(before, after, room) == all
  {
    var m := RoomEntry(before, after, room);
    assert forall r :: (r in m <==> r in all) && (r in m ==> m[r] == all[r]);
  }

  /** The tables agree for every room but the locked one. */
  ghost predicate AgreeElsewhere(a: Db, b: Db, room: Option<RoomId>) {
    forall r :: Some(r) != room ==> Agree(a, b, r)
  }

  lemma {:induction false} SameTrackEntries(db: Db, after: Db, all: Db, room: Option<RoomId>)
    requires AgreeElsewhere(db, all, room) && (room.Some? ==> Agree(after, all, room.value))
    ensures RoomTracks(db.tracks, after.tracks, room) == all.tracks
  {
    var m := RoomTracks(db.tracks, after.tracks, room);
    forall t ensures (t in m <==> t in all.tracks) && (t in m ==> m[t] == all.tracks[t]) {
      if t in all.tracks {
        var r := all.tracks[t].room;
        assert TrackIn(if Some(r) == room then after.tracks else db.tracks, r, t) == TrackIn(all.tracks, r, t);
      }
      if t in m {
        var r := m[t].room;
        assert TrackIn(if Some(r) == room then after.tracks else db.tracks, r, t) == TrackIn(all.tracks, r, t);
      }
    }
  }

  lemma {:induction false} SameVoteEntries(db: Db, after: Db, all: Db, room: Option<RoomId>)
    requires AgreeElsewhere(db, all, room) && (room.Some? ==> Agree(after, all, room.value))
    ensures RoomVotes(db.votes, after.votes, room) == all.votes
  {
    var m := RoomVotes(db.votes, after.votes, room);
    forall v: Vote ensures v in m <==> v in all.votes {
      if Some(v.room) != room { assert Agree(db, all, v.room); }
    }
  }

  /** No session but the locked one and a new one differs. */
  ghost predicate SessionsElsewhere(a: map<SessionId, Session>, b: map<SessionId, Session>, locked: Option<SessionId>,
                                    created: SessionId)
  {
    forall s :: !Mine(s, locked, created) ==> SameSession(a, b, s)
  }

  lemma {:induction false} SameSessionEntries(before: map<SessionId, Session>, after: map<SessionId, Session>,
                                              all: map<SessionId, Session>, locked: Option<SessionId>,
                                              created: SessionId)
    requires SessionsElsewhere(before, all, locked, created) && SameSession(after, all, created)
    requires locked.Some? ==> SameSession(after, all, locked.value)
    ensures SessionEntries(before, after, locked, created) == all
  {
    var m := SessionEntries(before, after, locked, created);
    forall s ensures (s in m <==> s in all) && (s in m ==> m[s] == all[s]) {
      assert Mine(s, locked, created) || SameSession(before, all, s);
    }
  }

  /** Writing back only what the locks guard gives all of the tables a use case gives. */
  lemma {:induction false} WrittenBackIs(db: Db, after: Db, all: Db, op: Op)
    requires AgreeElsewhere(db, all, LockedRoom(op))
    requires LockedRoom(op).Some? ==> Agree(after, all, LockedRoom(op).value)
    requires SessionsElsewhere(db.sessions, all.sessions, LockedSession(op), db.nextSession)
    requires SameSessions(after, all, op, db.nextSession)
    ensures WrittenBack(db, after, op) == all
  {
    var room := LockedRoom(op);
    forall r | Some(r) != room
      ensures (r in db.rooms <==> r in all.rooms) && (r in db.rooms ==> db.rooms[r] == all.rooms[r])
      ensures (r in db.queue <==> r in all.queue) && (r in db.queue ==> db.queue[r] == all.queue[r])
      ensures (r in db.log <==> r in all.log) && (r in db.log ==> db.log[r] == all.log[r])
    {
      assert Agree(db, all, r);
    }
    SameEntries(db.rooms, after.rooms, all.rooms, room);
    SameEntries(db.queue, after.queue, all.queue, room);
    SameEntries(db.log, after.log, all.log, room);
    SameTrackEntries(db, after, all, room);
    SameVoteEntries(db, after, all, room);
    SameSessionEntries(db.sessions, after.sessions, all.sessions, LockedSession(op), db.nextSession);
  }

  lemma {:induction false} StepSessionsElsewhere(db: Db, op: Op)
    requires Ready(db) && db.nextSession !in db.sessions
    ensures SessionsElsewhere(db.sessions, Step(db, op).db.sessions, LockedSession(op), db.nextSession)
  {
    StepIsUseCase(db, op);
    if op.OpPropose? { ProposeCases(db, op.room, op.caller, op.catalog, op.firstLook, op.gap); }
  }

  /** A use case that computes on what it has seen, and writes back only what its locks guard,
      does to the committed tables what it does when it runs alone. */
  lemma {:induction false} LocalCommitIsStep(view: Db, db: Db, op: Op)
    requires Inv(view) && Inv(db) && LookAlike(view, db, op)
    ensures WrittenBack(db, Step(view, op).db, op) == Step(db, op).db
    ensures Step(view, op).signals == Step(db, op).signals
  {
    StepIsLocal(view, db, op);
    SessionsAreLocal(view, db, op);
    StepSessionsElsewhere(db, op);
    forall r | Some(r) != LockedRoom(op) ensures Agree(db, Step(db, op).db, r) {
      OtherRoomsUntouched(db, op, r);
    }
    WrittenBackIs(db, Step(view, op).db, Step(db, op).db, op);
  }
}
