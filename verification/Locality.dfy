/**
 Which data a use case touches. A room's row guards the room's settings, tracks, votes,
 rows of the queue, log and nicknames; a session's row guards whether the session is still
 joined. A use case changes no other room, and what it does and answers depends only on
 the room and the session it has locked.
 */
module Locality {
  import opened Common
  import opened Ranking
  import opened Versions
  import opened Tables
  import opened Invariants
  import opened Operations
  import opened Preservation

  /** The tables agree on everything the room's row guards. */
  ghost predicate Agree(a: Db, b: Db, room: RoomId) {
    && (room in a.rooms <==> room in b.rooms)
    && (room in a.rooms ==> a.rooms[room] == b.rooms[room])
    && (room in a.queue <==> room in b.queue)
    && (room in a.queue ==> a.queue[room] == b.queue[room])
    && (room in a.log <==> room in b.log)
    && (room in a.log ==> a.log[room] == b.log[room])
    && SameTracks(a.tracks, b.tracks, room)
    && SameVotes(a.votes, b.votes, room)
    && SameNicknames(a.sessions, b.sessions, room)
  }

  /** The track, if it is one of the room's. */
  function TrackIn(tracks: map<TrackId, Track>, room: RoomId, t: TrackId): Option<Track> {
    if InRoom(tracks, room, t) then Some(tracks[t]) else None
  }

  ghost predicate SameTracks(a: map<TrackId, Track>, b: map<TrackId, Track>, room: RoomId) {
    forall t :: TrackIn(a, room, t) == TrackIn(b, room, t)
  }

  ghost predicate SameVotes(a: set<Vote>, b: set<Vote>, room: RoomId) {
    forall v: Vote :: v.room == room ==> (v in a <==> v in b)
  }

  /** The nickname of a session, if it is one of the room's. */
  function NicknameIn(sessions: map<SessionId, Session>, room: RoomId, s: SessionId): Option<string> {
    if s in sessions && sessions[s].room == room then Some(sessions[s].nickname) else None
  }

  ghost predicate SameNicknames(a: map<SessionId, Session>, b: map<SessionId, Session>, room: RoomId) {
    forall s :: NicknameIn(a, room, s) == NicknameIn(b, room, s)
  }

  /** The tables agree on the session. */
  ghost predicate AgreeOn(a: Db, b: Db, s: SessionId) {
    (s in a.sessions <==> s in b.sessions) && (s in a.sessions ==> a.sessions[s] == b.sessions[s])
  }

  // ---------- what is written ----------

  /** The room whose row a use case locks exclusively, if it locks one. */
  function LockedRoom(op: Op): Option<RoomId> {
    match op
    case OpCreateRoom(id, _, _) => Some(id)
    case OpPatchRoom(room, _, _, _) => Some(room)
    case OpJoin(first, _, _, _) => first
    case OpLeave(_, _) => None
    case OpPropose(room, _, _, _, _) => Some(room)
    case OpVote(room, _, _) => Some(room)
    case OpDelete(room, _) => Some(room)
    case OpEnd(room, _, _) => Some(room)
    case OpPlay(room, _) => Some(room)
    case OpRecalculate(room, _, _, _) => Some(room)
    case OpFault => None
  }

  lemma {:induction false} ProposalStaysInRoom(db: Db, room: RoomId, caller: Caller, catalog: CatalogId,
                                               firstLook: Option<RoomStatus>, gap: nat, r: RoomId)
    requires db.queue.Keys == db.rooms.Keys && db.nextTrack !in db.tracks && r != room
    ensures Agree(db, ProposeTrack(db, room, caller, catalog, firstLook, gap).db, r)
  {
    ProposeCases(db, room, caller, catalog, firstLook, gap);
  }

  lemma {:induction false} DeleteStaysInRoom(db: Db, room: RoomId, t: TrackId, r: RoomId)
    requires db.queue.Keys == db.rooms.Keys && VoteReferences(db) && r != room
    ensures Agree(db, DeleteTrack(db, room, t).db, r)
  {
    if DeleteTrack(db, room, t).result.Ok? {
      assert SameTracks(db.tracks, db.tracks - {t}, r);
      assert SameVotes(db.votes, db.votes - VotesOn(db.votes, t), r);
    }
  }

  lemma {:induction false} StatusStaysInRoom(tracks: map<TrackId, Track>, room: RoomId, t: TrackId,
                                             status: TrackStatus, r: RoomId)
    requires r != room
    ensures SameTracks(tracks, WithStatus(tracks, room, t, status), r)
    ensures SameTracks(tracks, WithStatus(Demoted(tracks, room), room, t, status), r)
  {
  }

  lemma {:induction false} EndStaysInRoom(db: Db, room: RoomId, t: TrackId, status: TrackStatus, r: RoomId)
    requires r != room
    ensures Agree(db, SetTrackStatus(db, room, t, status).db, r)
    ensures Agree(db, SetTrackPlaying(db, room, t).db, r)
  {
    StatusStaysInRoom(db.tracks, room, t, status, r);
    StatusStaysInRoom(db.tracks, room, t, Playing, r);
  }

  lemma {:induction false} VoteStaysInRoom(db: Db, room: RoomId, session: SessionId, t: TrackId, r: RoomId)
    requires r != room
    ensures Agree(db, AddVote(db, room, session, t).db, r)
  {
  }

  lemma {:induction false} ScoresStayInRoom(tracks: map<TrackId, Track>, room: RoomId, scores: map<TrackId, nat>,
                                            r: RoomId)
    requires r != room && forall t :: t in scores ==> InRoom(tracks, room, t)
    ensures SameTracks(tracks, Scored(tracks, room, scores), r)
  {
  }

  lemma {:induction false} BatchStaysInRoom(db: Db, room: RoomId, now: Nanos, createdAt: Micros, id: nat, r: RoomId)
    requires Ready(db) && r != room
    ensures Agree(db, RecalculateRoomQueue(db, room, now, createdAt, id).db, r)
  {
    if room in db.rooms && !Skips(db, room) {
      var ranked := RankedNow(db, room);
      RankedFacts(db, room);
      forall t | t in ScoresOf(ranked) ensures InRoom(db.tracks, room, t) {
        var e :| e in ranked && e.id == t;
        var i :| 0 <= i < |ranked| && ranked[i] == e;
      }
      ScoresStayInRoom(db.tracks, room, ScoresOf(ranked), r);
      RecalculationUnfolds(db, room, now, createdAt, id);
    }
  }

  lemma {:induction false} SettingsStayInRoom(db: Db, id: RoomId, name: string, settings: Settings, r: RoomId)
    requires r != id
    ensures Agree(db, CreateRoom(db, id, name, settings).db, r)
  {
  }

  lemma {:induction false} PatchStaysInRoom(db: Db, room: RoomId, status: Option<RoomStatus>, limit: Option<int>,
                                            votes: Option<int>, r: RoomId)
    requires r != room
    ensures Agree(db, PatchRoom(db, room, status, limit, votes).db, r)
  {
  }

  lemma {:induction false} RoomOpsStayInRoom(db: Db, op: Op, r: RoomId)
    requires Ready(db) && LockedRoom(op) != Some(r) && (op.OpCreateRoom? || op.OpPatchRoom? || op.OpFault?)
    ensures Agree(db, Step(db, op).db, r)
  {
    StepIsUseCase(db, op);
    if op.OpCreateRoom? {
      SettingsStayInRoom(db, op.id, op.name, op.settings, r);
    } else if op.OpPatchRoom? {
      PatchStaysInRoom(db, op.room, op.newStatus, op.newLimit, op.newVotes, r);
    }
  }

  lemma {:induction false} StatusIsNotGuarded(sessions: map<SessionId, Session>, s: SessionId, status: SessionStatus,
                                              r: RoomId)
    ensures SameNicknames(sessions, WithSessionStatus(sessions, s, status), r)
  {
  }

  lemma {:induction false} JoinStaysInRoom(db: Db, room: RoomId, known: Option<SessionId>, nickname: string, r: RoomId)
    requires db.nextSession !in db.sessions && r != room
    ensures Agree(db, Admitted(db, room, known, nickname).db, r)
  {
    if known.Some? { StatusIsNotGuarded(db.sessions, known.value, Left, r); }
  }

  lemma {:induction false} LeaveStaysInRoom(db: Db, session: SessionId, room: RoomId, r: RoomId)
    ensures Agree(db, Leave(db, session, room).db, r)
  {
    StatusIsNotGuarded(db.sessions, session, Left, r);
  }

  lemma {:induction false} JoiningStaysInRoom(db: Db, first: Option<RoomId>, second: Option<RoomId>,
                                              known: Option<SessionId>, nickname: string, r: RoomId)
    requires db.nextSession !in db.sessions && first != Some(r)
    ensures Agree(db, Join(db, first, second, known, nickname).db, r)
  {
    if first.Some? { JoinStaysInRoom(db, first.value, known, nickname, r); }
  }

  lemma {:induction false} SessionOpsStayInRoom(db: Db, op: Op, r: RoomId)
    requires Ready(db) && db.nextSession !in db.sessions && LockedRoom(op) != Some(r) && (op.OpJoin? || op.OpLeave?)
    ensures Agree(db, Step(db, op).db, r)
  {
    StepIsUseCase(db, op);
    if op.OpLeave? {
      LeaveStaysInRoom(db, op.session, op.room, r);
    } else {
      JoiningStaysInRoom(db, op.firstCode, op.secondCode, op.known, op.nickname, r);
    }
  }

  /** A use case changes nothing that the row of another room guards; a leave, or the part
      of a switch that ends the old session, changes nothing that any room's row guards. */
  lemma {:induction false} OtherRoomsUntouched(db: Db, op: Op, r: RoomId)
    requires Inv(db) && LockedRoom(op) != Some(r)
    ensures Agree(db, Step(db, op).db, r)
  {
    StepIsUseCase(db, op);
    if op.OpPropose? {
      ProposalStaysInRoom(db, op.room, op.caller, op.catalog, op.firstLook, op.gap, r);
    } else if op.OpVote? {
      VoteStaysInRoom(db, op.room, op.session, op.track, r);
    } else if op.OpDelete? {
      DeleteStaysInRoom(db, op.room, op.track, r);
    } else if op.OpEnd? {
      EndStaysInRoom(db, op.room, op.track, EndStatus(op.skipped), r);
    } else if op.OpPlay? {
      EndStaysInRoom(db, op.room, op.track, Played, r);
    } else if op.OpRecalculate? {
      BatchStaysInRoom(db, op.room, op.now, op.createdAt, op.logId, r);
    } else if op.OpJoin? || op.OpLeave? {
      SessionOpsStayInRoom(db, op, r);
    } else {
      RoomOpsStayInRoom(db, op, r);
    }
  }

  // ---------- what is read ----------

  /** The use cases leave the same tables for the room, give the same answer and send the
      same signals. */
  ghost predicate SameEffect<T>(a: Out<T>, b: Out<T>, room: RoomId) {
    Agree(a.db, b.db, room) && a.result == b.result && a.signals == b.signals
  }

  lemma {:induction false} CreationReadsItsRoom(a: Db, b: Db, id: RoomId, name: string, settings: Settings)
    requires Agree(a, b, id)
    ensures SameEffect(CreateRoom(a, id, name, settings), CreateRoom(b, id, name, settings), id)
  {
  }

  lemma {:induction false} PatchReadsItsRoom(a: Db, b: Db, room: RoomId, status: Option<RoomStatus>,
                                             limit: Option<int>, votes: Option<int>)
    requires Agree(a, b, room)
    ensures SameEffect(PatchRoom(a, room, status, limit, votes), PatchRoom(b, room, status, limit, votes), room)
  {
  }

  lemma {:induction false} SameVoters(a: Db, b: Db, room: RoomId, t: TrackId)
    requires VoteReferences(a) && VoteReferences(b) && Agree(a, b, room) && InRoom(a.tracks, room, t)
    ensures VotesOn(a.votes, t) == VotesOn(b.votes, t)
  {
    assert TrackIn(a.tracks, room, t) == TrackIn(b.tracks, room, t);
  }

  lemma {:induction false} SameQuota(a: Db, b: Db, room: RoomId, s: SessionId)
    requires Agree(a, b, room)
    ensures VotesBy(a.votes, room, s) == VotesBy(b.votes, room, s)
  {
  }

  lemma {:induction false} SameVoted(a: Db, b: Db, room: RoomId, s: SessionId, t: TrackId)
    requires VoteReferences(a) && VoteReferences(b) && Agree(a, b, room) && InRoom(a.tracks, room, t)
    ensures HasVoted(a.votes, s, t) <==> HasVoted(b.votes, s, t)
  {
    SameVoters(a, b, room, t);
    assert forall v :: v in VotesOn(a.votes, t) <==> v in a.votes && v.track == t;
    assert forall v :: v in VotesOn(b.votes, t) <==> v in b.votes && v.track == t;
  }

  /** The same change to one of the room's tracks keeps the agreement. */
  lemma {:induction false} SameAfterUpdate(a: map<TrackId, Track>, b: map<TrackId, Track>, room: RoomId, t: TrackId,
                                           added: Track)
    requires SameTracks(a, b, room) && added.room == room
    ensures SameTracks(a[t := added], b[t := added], room)
  {
    var a', b' := a[t := added], b[t := added];
    forall u ensures TrackIn(a', room, u) == TrackIn(b', room, u) {
      assert TrackIn(a, room, u) == TrackIn(b, room, u);
    }
  }

  lemma {:induction false} SameAfterVote(a: Db, b: Db, room: RoomId, s: SessionId, t: TrackId)
    requires Agree(a, b, room) && InRoom(a.tracks, room, t) && InRoom(b.tracks, room, t) && a.tracks[t] == b.tracks[t]
    ensures var voted := a.tracks[t].(voteCountCached := a.tracks[t].voteCountCached + 1);
            var v := Vote(room, t, s);
            Agree(a.(votes := a.votes + {v}, tracks := a.tracks[t := voted]),
                  b.(votes := b.votes + {v}, tracks := b.tracks[t := voted]), room)
  {
    SameAfterUpdate(a.tracks, b.tracks, room, t, a.tracks[t].(voteCountCached := a.tracks[t].voteCountCached + 1));
  }

  /** The vote gets as far as looking its track up. */
  predicate LooksForTrack(db: Db, room: RoomId, s: SessionId) {
    room in db.rooms && db.rooms[room].status == Active && SessionCheck(db, room, s).None?
  }

  lemma {:induction false} VoteWritesItsRoom(a: Db, b: Db, room: RoomId, s: SessionId, t: TrackId)
    requires VoteReferences(a) && VoteReferences(b) && Agree(a, b, room) && AgreeOn(a, b, s)
    ensures Agree(AddVote(a, room, s, t).db, AddVote(b, room, s, t).db, room)
    ensures AddVote(a, room, s, t).signals == AddVote(b, room, s, t).signals
  {
    SameQuota(a, b, room, s);
    assert TrackIn(a.tracks, room, t) == TrackIn(b.tracks, room, t);
    if InRoom(a.tracks, room, t) {
      SameVoted(a, b, room, s, t);
      SameAfterVote(a, b, room, s, t);
    }
  }

  /** What a vote does to the room it locks, and what it sends, depends only on that room and
      the session it locks. Its answer depends on one thing more: whether the track it names, and locks,
      exists in any room at all, if the vote gets as far as looking. */
  lemma {:induction false} VoteReadsItsRoom(a: Db, b: Db, room: RoomId, s: SessionId, t: TrackId)
    requires VoteReferences(a) && VoteReferences(b) && Agree(a, b, room) && AgreeOn(a, b, s)
    ensures Agree(AddVote(a, room, s, t).db, AddVote(b, room, s, t).db, room)
    ensures AddVote(a, room, s, t).signals == AddVote(b, room, s, t).signals
    ensures SameEffect(AddVote(a, room, s, t), AddVote(b, room, s, t), room)
            <==> (LooksForTrack(a, room, s) ==> (t in a.tracks <==> t in b.tracks))
  {
    SameQuota(a, b, room, s);
    assert TrackIn(a.tracks, room, t) == TrackIn(b.tracks, room, t);
    if InRoom(a.tracks, room, t) {
      SameVoted(a, b, room, s, t);
      SameAfterVote(a, b, room, s, t);
    }
  }

  /** Two tables that agree on the room and the session, and a vote there for a track that
      only one of them has, in another room: the answers differ. */
  lemma VoteTellsForeignTrack()
    ensures var room := Room(Active, 20, 5, 14400, 10, 0);
            var a := Db(map[0 := room, 1 := room], map[0 := Session(0, "ann", Joined), 1 := Session(1, "bob", Joined)],
                        map[], {}, map[0 := [], 1 := []], map[0 := [], 1 := []], 1, 2);
            var b := a.(tracks := map[0 := Track(1, 0, 1, Queued, 0, 0, 0)]);
            && Agree(a, b, 0) && AgreeOn(a, b, 0)
            && AddVote(a, 0, 0, 0).result == Fail(TrackUnknown)
            && AddVote(b, 0, 0, 0).result == Fail(TrackNotActive)
  {
  }

  lemma {:induction false} SameAfterDelete(a: map<TrackId, Track>, b: map<TrackId, Track>, room: RoomId, t: TrackId)
    requires SameTracks(a, b, room)
    ensures SameTracks(a - {t}, b - {t}, room)
  {
    var a', b' := a - {t}, b - {t};
    forall u ensures TrackIn(a', room, u) == TrackIn(b', room, u) {
      assert TrackIn(a, room, u) == TrackIn(b, room, u);
    }
  }

  lemma {:induction false} DeleteReadsItsRoom(a: Db, b: Db, room: RoomId, t: TrackId)
    requires a.queue.Keys == a.rooms.Keys && b.queue.Keys == b.rooms.Keys && Agree(a, b, room)
    ensures SameEffect(DeleteTrack(a, room, t), DeleteTrack(b, room, t), room)
  {
    assert TrackIn(a.tracks, room, t) == TrackIn(b.tracks, room, t);
    SameAfterDelete(a.tracks, b.tracks, room, t);
  }

  lemma {:induction false} SameAfterStatus(a: map<TrackId, Track>, b: map<TrackId, Track>, room: RoomId, t: TrackId,
                                           status: TrackStatus)
    requires SameTracks(a, b, room)
    ensures IsActive(a, room, t) <==> IsActive(b, room, t)
    ensures SameTracks(WithStatus(a, room, t, status), WithStatus(b, room, t, status), room)
  {
    assert TrackIn(a, room, t) == TrackIn(b, room, t);
    if IsActive(a, room, t) { SameAfterUpdate(a, b, room, t, a[t].(status := status)); }
  }

  lemma {:induction false} EndReadsItsRoom(a: Db, b: Db, room: RoomId, t: TrackId, status: TrackStatus)
    requires Agree(a, b, room)
    ensures SameEffect(SetTrackStatus(a, room, t, status), SetTrackStatus(b, room, t, status), room)
  {
    SameAfterStatus(a.tracks, b.tracks, room, t, status);
  }

  lemma {:induction false} SameAfterDemotion(a: map<TrackId, Track>, b: map<TrackId, Track>, room: RoomId)
    requires SameTracks(a, b, room)
    ensures SameTracks(Demoted(a, room), Demoted(b, room), room)
  {
    var a', b' := Demoted(a, room), Demoted(b, room);
    forall u ensures TrackIn(a', room, u) == TrackIn(b', room, u) {
      assert TrackIn(a, room, u) == TrackIn(b, room, u);
    }
  }

  lemma {:induction false} PlayReadsItsRoom(a: Db, b: Db, room: RoomId, t: TrackId)
    requires Agree(a, b, room)
    ensures SameEffect(SetTrackPlaying(a, room, t), SetTrackPlaying(b, room, t), room)
  {
    SameAfterDemotion(a.tracks, b.tracks, room);
    SameAfterStatus(Demoted(a.tracks, room), Demoted(b.tracks, room), room, t, Playing);
  }

  lemma {:induction false} SameQueued(a: map<TrackId, Track>, b: map<TrackId, Track>, room: RoomId)
    requires SameTracks(a, b, room)
    ensures QueuedIds(a, room) == QueuedIds(b, room)
  {
    forall t ensures t in QueuedIds(a, room) <==> t in QueuedIds(b, room) {
      assert TrackIn(a, room, t) == TrackIn(b, room, t);
    }
  }

  lemma {:induction false} SameDuplicate(a: map<TrackId, Track>, b: map<TrackId, Track>, room: RoomId,
                                         catalog: CatalogId)
    requires SameTracks(a, b, room) && ActiveUnique(a) && ActiveUnique(b)
    ensures ActiveDuplicate(a, room, catalog) == ActiveDuplicate(b, room, catalog)
    ensures var d := ActiveDuplicate(a, room, catalog); d.Some? ==> a[d.value] == b[d.value]
  {
    forall t ensures IsActive(a, room, t) && a[t].catalog == catalog
      <==> IsActive(b, room, t) && b[t].catalog == catalog {
      assert TrackIn(a, room, t) == TrackIn(b, room, t);
    }
    var d := ActiveDuplicate(a, room, catalog);
    if d.Some? { assert TrackIn(a, room, d.value) == TrackIn(b, room, d.value); }
  }

  lemma {:induction false} SameAfterProposal(a: Db, b: Db, room: RoomId, session: SessionId, catalog: CatalogId,
                                             gap: nat)
    requires Agree(a, b, room) && a.nextTrack == b.nextTrack && room in a.rooms
    ensures Agree(WithNewTrack(a, room, session, catalog, gap), WithNewTrack(b, room, session, catalog, gap), room)
  {
    SameAfterUpdate(a.tracks, b.tracks, room, a.nextTrack,
                    Track(room, catalog, session, Queued, 0, 0, a.rooms[room].lastFifo + 1 + gap));
  }

  /** A proposal reads the room and the session it locks. */
  lemma {:induction false} ProposalReadsItsRoom(a: Db, b: Db, room: RoomId, caller: Caller, catalog: CatalogId,
                                                firstLook: Option<RoomStatus>, gap: nat)
    requires a.queue.Keys == a.rooms.Keys && b.queue.Keys == b.rooms.Keys && ActiveUnique(a.tracks)
             && ActiveUnique(b.tracks)
    requires Agree(a, b, room) && AgreeOn(a, b, caller.session) && a.nextTrack == b.nextTrack
    ensures SameEffect(ProposeTrack(a, room, caller, catalog, firstLook, gap),
                       ProposeTrack(b, room, caller, catalog, firstLook, gap), room)
  {
    SameQueued(a.tracks, b.tracks, room);
    SameDuplicate(a.tracks, b.tracks, room, catalog);
    if room in a.rooms { SameAfterProposal(a, b, room, caller.session, catalog, gap); }
  }

  /** Ready for two sets of tables to be compared by what a batch reads. */
  ghost predicate Sound(db: Db) {
    References(db) && VoteReferences(db) && FifoOrder(db) && OnePlaying(db.tracks)
  }

  lemma {:induction false} SameEntry(a: Db, b: Db, room: RoomId, t: TrackId)
    requires Sound(a) && Sound(b) && Agree(a, b, room) && InRoom(a.tracks, room, t)
    ensures InRoom(b.tracks, room, t)
    ensures EntryOf(a.tracks, a.votes, a.sessions, t) == EntryOf(b.tracks, b.votes, b.sessions, t)
  {
    assert TrackIn(a.tracks, room, t) == TrackIn(b.tracks, room, t);
    SameVoters(a, b, room, t);
    var s := a.tracks[t].proposer;
    assert NicknameIn(a.sessions, room, s) == NicknameIn(b.sessions, room, s);
  }

  lemma {:induction false} SamePlaying(a: Db, b: Db, room: RoomId)
    requires Sound(a) && Sound(b) && Agree(a, b, room)
    ensures PlayingOf(a.tracks, a.sessions, room) == PlayingOf(b.tracks, b.sessions, room)
  {
    forall t ensures IsPlaying(a.tracks, room, t) <==> IsPlaying(b.tracks, room, t) {
      assert TrackIn(a.tracks, room, t) == TrackIn(b.tracks, room, t);
    }
    var p := NowPlaying(a.tracks, room);
    if p.Some? {
      assert TrackIn(a.tracks, room, p.value) == TrackIn(b.tracks, room, p.value);
      SameEntry(a, b, room, p.value);
    }
  }

  lemma {:induction false} SameEntries(a: Db, b: Db, room: RoomId)
    requires Sound(a) && Sound(b) && Agree(a, b, room)
    ensures Entries(a.tracks, a.votes, a.sessions, room) == Entries(b.tracks, b.votes, b.sessions, room)
  {
    SameQueued(a.tracks, b.tracks, room);
    forall t | t in QueuedIds(a.tracks, room)
      ensures EntryOf(a.tracks, a.votes, a.sessions, t) == EntryOf(b.tracks, b.votes, b.sessions, t)
    {
      SameEntry(a, b, room, t);
    }
  }

  /** A batch ranks, fingerprints and skips by its room alone. */
  lemma {:induction false} SameBatch(a: Db, b: Db, room: RoomId)
    requires Sound(a) && Sound(b) && Agree(a, b, room) && room in a.rooms
    ensures RankedNow(a, room) == RankedNow(b, room)
    ensures FingerprintNow(a, room) == FingerprintNow(b, room)
    ensures Skips(a, room) <==> Skips(b, room)
  {
    SameEntries(a, b, room);
    SamePlaying(a, b, room);
  }

  lemma {:induction false} SameAfterScoring(a: map<TrackId, Track>, b: map<TrackId, Track>, room: RoomId,
                                            scores: map<TrackId, nat>)
    requires SameTracks(a, b, room)
    ensures SameTracks(Scored(a, room, scores), Scored(b, room, scores), room)
  {
    var a', b' := Scored(a, room, scores), Scored(b, room, scores);
    forall u ensures TrackIn(a', room, u) == TrackIn(b', room, u) {
      assert TrackIn(a, room, u) == TrackIn(b, room, u);
    }
  }

  lemma {:induction false} SameItems(rows: seq<Row>, a: Db, b: Db, room: RoomId, before: nat)
    requires Sound(a) && Sound(b) && Agree(a, b, room)
    requires forall i :: 0 <= i < |rows| ==> InRoom(a.tracks, room, rows[i].track)
    ensures ItemsFrom(rows, a.tracks, a.sessions, before) == ItemsFrom(rows, b.tracks, b.sessions, before)
  {
    if rows != [] {
      SameEntry(a, b, room, rows[0].track);
      assert TrackIn(a.tracks, room, rows[0].track) == TrackIn(b.tracks, room, rows[0].track);
      SameItems(rows[1..], a, b, room, before + 1);
      SameItems(rows[1..], a, b, room, before);
    }
  }

  /** What a batch that writes leaves. */
  function RewrittenLog(db: Db, room: RoomId, ranked: seq<Entry>, fp: Fingerprint, at: Nanos, createdAt: Micros,
                        id: nat): Db
    requires room in db.log
  {
    Rewritten(db, room, ranked, at).(log := db.log[room := db.log[room] + [LogEntry(fp, at, createdAt, id)]])
  }

  lemma {:induction false} SameAfterRewrite(a: Db, b: Db, room: RoomId, ranked: seq<Entry>, fp: Fingerprint, at: Nanos,
                                            createdAt: Micros, id: nat)
    requires Agree(a, b, room) && room in a.log
    ensures Agree(RewrittenLog(a, room, ranked, fp, at, createdAt, id),
                  RewrittenLog(b, room, ranked, fp, at, createdAt, id), room)
  {
    SameAfterScoring(a.tracks, b.tracks, room, ScoresOf(ranked));
  }

  lemma {:induction false} SameSnapshot(a: Db, b: Db, room: RoomId)
    requires Sound(a) && Sound(b) && Agree(a, b, room) && room in a.queue && room in a.log
    requires forall i :: 0 <= i < |a.queue[room]| ==> InRoom(a.tracks, room, a.queue[room][i].track)
    ensures SnapshotOf(a, room) == SnapshotOf(b, room)
  {
    SamePlaying(a, b, room);
    SameItems(a.queue[room], a, b, room, 0);
  }

  /** The same tables for the room and the same snapshot. */
  lemma {:induction false} RewriteReadsItsRoom(a: Db, b: Db, room: RoomId, now: Nanos, createdAt: Micros, id: nat)
    requires Inv(a) && Inv(b) && Agree(a, b, room) && room in a.rooms && !Skips(a, room)
    ensures SameEffect(RecalculateRoomQueue(a, room, now, createdAt, id),
                       RecalculateRoomQueue(b, room, now, createdAt, id), room)
  {
    var oa := RecalculateRoomQueue(a, room, now, createdAt, id);
    var ob := RecalculateRoomQueue(b, room, now, createdAt, id);
    var ranked, fp, at := RankedNow(a, room), FingerprintNow(a, room), NextStamp(PreviousVersion(a.log[room]), now);
    SameBatch(a, b, room);
    RewriteUnfolds(a, room, now, createdAt, id);
    RewriteUnfolds(b, room, now, createdAt, id);
    SameAfterRewrite(a, b, room, ranked, fp, at, createdAt, id);
    RewriteIsSound(a, room, now, createdAt, id);
    RewriteIsSound(b, room, now, createdAt, id);
    RewriteListsItsRoom(a, room, now, createdAt, id);
    SameSnapshot(oa.db, ob.db, room);
  }

  lemma {:induction false} RewriteUnfolds(db: Db, room: RoomId, now: Nanos, createdAt: Micros, id: nat)
    requires Ready(db) && room in db.rooms && !Skips(db, room)
    ensures var at := NextStamp(PreviousVersion(db.log[room]), now);
            var after := RewrittenLog(db, room, RankedNow(db, room), FingerprintNow(db, room), at, createdAt, id);
            && room in after.queue && room in after.log
            && RecalculateRoomQueue(db, room, now, createdAt, id)
               == Out(after, Ok(true), [QueueUpdated(room, SnapshotOf(after, room))])
  {
    RecalculationUnfolds(db, room, now, createdAt, id);
  }

  lemma {:induction false} RewriteListsItsRoom(db: Db, room: RoomId, now: Nanos, createdAt: Micros, id: nat)
    requires Ready(db) && room in db.rooms && !Skips(db, room)
    ensures var after := RecalculateRoomQueue(db, room, now, createdAt, id).db;
            && room in after.queue && room in after.log
            && forall i :: 0 <= i < |after.queue[room]| ==> InRoom(after.tracks, room, after.queue[room][i].track)
  {
    RankedFacts(db, room);
    RewriteUnfolds(db, room, now, createdAt, id);
  }

  lemma {:induction false} RewriteIsSound(db: Db, room: RoomId, now: Nanos, createdAt: Micros, id: nat)
    requires Inv(db) && room in db.rooms && !Skips(db, room)
    ensures Sound(RecalculateRoomQueue(db, room, now, createdAt, id).db)
  {
    RecalculateKeepsAccounts(db, room, now, createdAt, id);
    ScoredKeepsShape(db.tracks, room, ScoresOf(RankedNow(db, room)));
  }

  /** A batch does the same for a room whatever the rest of the tables holds. */
  lemma {:induction false} BatchReadsItsRoom(a: Db, b: Db, room: RoomId, now: Nanos, createdAt: Micros, id: nat)
    requires Inv(a) && Inv(b) && Agree(a, b, room)
    ensures SameEffect(RecalculateRoomQueue(a, room, now, createdAt, id),
                       RecalculateRoomQueue(b, room, now, createdAt, id), room)
  {
    if room in a.rooms {
      SameBatch(a, b, room);
      if !Skips(a, room) { RewriteReadsItsRoom(a, b, room, now, createdAt, id); }
    }
  }

  lemma {:induction false} SameAfterSession(a: map<SessionId, Session>, b: map<SessionId, Session>, room: RoomId,
                                            s: SessionId, x: Session)
    requires SameNicknames(a, b, room)
    ensures SameNicknames(a[s := x], b[s := x], room)
  {
    var a', b' := a[s := x], b[s := x];
    forall u ensures NicknameIn(a', room, u) == NicknameIn(b', room, u) {
      assert NicknameIn(a, room, u) == NicknameIn(b, room, u);
    }
  }

  lemma {:induction false} SameAfterSwitch(a: map<SessionId, Session>, b: map<SessionId, Session>, room: RoomId,
                                           known: SessionId, s: SessionId, x: Session)
    requires SameNicknames(a, b, room) && known in a && known in b && a[known] == b[known]
    ensures SameNicknames(WithSessionStatus(a, known, Left)[s := x], WithSessionStatus(b, known, Left)[s := x], room)
  {
    var left := a[known].(status := Left);
    SameAfterSession(a, b, room, known, left);
    SameAfterSession(a[known := left], b[known := left], room, s, x);
  }

  lemma {:induction false} NewGuestReadsItsRoom(a: Db, b: Db, room: RoomId, known: Option<SessionId>, nickname: string)
    requires Agree(a, b, room) && a.nextSession == b.nextSession
    requires known.Some? ==> known.value !in a.sessions && known.value !in b.sessions
    ensures SameEffect(Admitted(a, room, known, nickname), Admitted(b, room, known, nickname), room)
  {
    SameAfterSession(a.sessions, b.sessions, room, a.nextSession, Session(room, nickname, Joined));
  }

  lemma {:induction false} GuestReadsItsRoom(a: Db, b: Db, room: RoomId, s: SessionId, nickname: string)
    requires Agree(a, b, room) && s in a.sessions && AgreeOn(a, b, s) && a.sessions[s].room == room
    ensures SameEffect(Admitted(a, room, Some(s), nickname), Admitted(b, room, Some(s), nickname), room)
  {
    SameAfterSession(a.sessions, b.sessions, room, s, Session(room, nickname, Joined));
  }

  lemma {:induction false} SwitchReadsItsRoom(a: Db, b: Db, room: RoomId, s: SessionId, nickname: string)
    requires Agree(a, b, room) && a.nextSession == b.nextSession
    requires s in a.sessions && AgreeOn(a, b, s) && a.sessions[s].room != room
    ensures SameEffect(Admitted(a, room, Some(s), nickname), Admitted(b, room, Some(s), nickname), room)
  {
    SameAfterSwitch(a.sessions, b.sessions, room, s, a.nextSession, Session(room, nickname, Joined));
  }

  lemma {:induction false} AdmissionReadsItsRoom(a: Db, b: Db, room: RoomId, known: Option<SessionId>, nickname: string)
    requires Agree(a, b, room) && a.nextSession == b.nextSession
    requires known.Some? ==> AgreeOn(a, b, known.value)
    ensures SameEffect(Admitted(a, room, known, nickname), Admitted(b, room, known, nickname), room)
  {
    if known.Some? && known.value in a.sessions {
      if a.sessions[known.value].room == room {
        GuestReadsItsRoom(a, b, room, known.value, nickname);
      } else {
        SwitchReadsItsRoom(a, b, room, known.value, nickname);
      }
    } else {
      NewGuestReadsItsRoom(a, b, room, known, nickname);
    }
  }

  /** A join reads the room it locks and the session its token names. */
  lemma {:induction false} JoinReadsItsRoom(a: Db, b: Db, first: Option<RoomId>, second: Option<RoomId>,
                                            known: Option<SessionId>, nickname: string)
    requires first.Some? && Agree(a, b, first.value) && a.nextSession == b.nextSession
    requires known.Some? ==> AgreeOn(a, b, known.value)
    ensures SameEffect(Join(a, first, second, known, nickname), Join(b, first, second, known, nickname), first.value)
  {
    AdmissionReadsItsRoom(a, b, first.value, known, nickname);
  }

  // ---------- sessions ----------

  /** The session whose row a use case locks, if it locks one. */
  function LockedSession(op: Op): Option<SessionId> {
    match op
    case OpJoin(_, _, known, _) => known
    case OpLeave(session, _) => Some(session)
    case OpPropose(_, caller, _, _, _) => Some(caller.session)
    case OpVote(_, session, _) => Some(session)
    case _ => None
  }

  /** A use case changes no session but the one whose row it locks. */
  lemma {:induction false} OtherSessionsUntouched(db: Db, op: Op, s: SessionId)
    requires Ready(db) && db.nextSession !in db.sessions && s in db.sessions && LockedSession(op) != Some(s)
    ensures s in Step(db, op).db.sessions && Step(db, op).db.sessions[s] == db.sessions[s]
  {
    StepIsUseCase(db, op);
    if op.OpPropose? { ProposeCases(db, op.room, op.caller, op.catalog, op.firstLook, op.gap); }
  }
}
