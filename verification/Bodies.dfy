/**
 The bodies of the use cases' transactions, statement by statement. A body ends in one of
 two ways: its answer and signals are those of its specification function, and if it
 succeeded the transaction's view is the specified one; or a statement failed. A refused
 or failed body may leave its view half changed.
 */
module Bodies {
  import opened Common
  import opened Ranking
  import opened Versions
  import opened Tables
  import opened Invariants
  import opened Operations
  import opened Repositories

  /** The body did what its specification says, up to what a rollback discards. */
  ghost predicate Answers<T>(spec: Out<T>, result: Result<T, Refusal>, signals: seq<Signal>, view: Db) {
    result == spec.result && signals == spec.signals && (result.Ok? ==> view == spec.db)
  }

  ghost predicate Failed<T>(result: Result<T, Refusal>, fault: Option<nat>) {
    fault.Some? && result == Fail(DatabaseFault)
  }

  // ---------- sessions ----------

  /** The session part of a join, under the room lock. */
  method AdmitBody(tx: Transaction, room: RoomId, known: Option<SessionId>, nickname: string)
    returns (result: Result<SessionId, Refusal>, signals: seq<Signal>)
    modifies tx
    ensures tx.faultAfter.None? <==> old(tx.faultAfter).None?
    ensures Answers(Admitted(old(tx.View()), room, known, nickname), result, signals, tx.View())
            || Failed(result, old(tx.faultAfter))
  {
    result, signals := Fail(DatabaseFault), [];
    var ok := tx.Statement();                 // lock the caller's session, if its token is known
    if !ok { return; }
    var s;
    if known.Some? && known.value in tx.sessions && tx.sessions[known.value].room == room {
      s := known.value;
      var found;
      ok, found := tx.ReattachSameRoom(s, room, nickname);
      if !ok { return; }
      if !found {
        // The session was read under its lock.
        assert false;
      }
    } else {
      if known.Some? && known.value in tx.sessions {
        var previous := tx.sessions[known.value].room;
        ok := tx.LeaveSession(known.value);
        if !ok { return; }
        signals := [Disconnected(previous, known.value)];
      }
      ok, s := tx.CreateSession(room, nickname);
      if !ok { return Fail(DatabaseFault), []; }
    }
    ok := tx.Statement();                     // event
    if !ok { return Fail(DatabaseFault), []; }
    result, signals := Ok(s), signals + [RoomJoined(room, s)];
  }

  method JoinBody(tx: Transaction, firstLook: Option<RoomId>, secondLook: Option<RoomId>, known: Option<SessionId>,
                  nickname: string)
    returns (result: Result<SessionId, Refusal>, signals: seq<Signal>)
    requires ValidNickname(nickname)
    modifies tx
    ensures tx.faultAfter.None? <==> old(tx.faultAfter).None?
    ensures Answers(Join(old(tx.View()), firstLook, secondLook, known, nickname), result, signals, tx.View())
            || Failed(result, old(tx.faultAfter))
  {
    result, signals := Fail(DatabaseFault), [];
    var ok := tx.Statement();                 // look the code up
    if !ok { return; }
    if firstLook.None? { return Fail(InvalidQrCode), []; }
    var room := firstLook.value;
    ok := tx.Statement();                     // lock the room
    if !ok { return; }
    if room !in tx.rooms { return Fail(RoomNotFound), []; }
    var status := tx.rooms[room].status;
    ok := tx.Statement();                     // look the code up again
    if !ok { return; }
    if secondLook.None? { return Fail(InvalidQrCode), []; }
    if secondLook.value != room { return Fail(InvalidQrCode), []; }
    if status != Active { return Fail(RoomNotActive), []; }
    result, signals := AdmitBody(tx, room, known, nickname);
  }

  /** Settings with defaults filled in, unless one is out of its range. */
  method ReadSettings(settings: Settings) returns (room: Option<Room>)
    ensures room == if ValidSettings(settings) then Some(RoomWith(settings)) else None
  {
    var status := Draft;
    if settings.status.Some? { status := settings.status.value; }
    var queueLimit := DEFAULT_QUEUE_LIMIT;
    if settings.queueLimit.Some? { queueLimit := settings.queueLimit.value; }
    if queueLimit < 1 || queueLimit > 200 { return None; }
    var maxVotes := DEFAULT_MAX_VOTES;
    if settings.maxVotes.Some? { maxVotes := settings.maxVotes.value; }
    if maxVotes < 1 || maxVotes > 20 { return None; }
    var qrTtl := DEFAULT_QR_TTL;
    if settings.qrTtl.Some? { qrTtl := settings.qrTtl.value; }
    if qrTtl < 60 || qrTtl > 604800 { return None; }
    var recalcInterval := DEFAULT_RECALC_INTERVAL;
    if settings.recalcInterval.Some? { recalcInterval := settings.recalcInterval.value; }
    if recalcInterval < 2 || recalcInterval > 300 { return None; }
    room := Some(Room(status, queueLimit, maxVotes, qrTtl, recalcInterval, 0));
  }

  method NewRoomBody(tx: Transaction, id: RoomId, name: string, settings: Settings)
    returns (result: Result<RoomId, Refusal>, signals: seq<Signal>)
    modifies tx
    ensures tx.faultAfter.None? <==> old(tx.faultAfter).None?
    ensures Answers(CreateRoom(old(tx.View()), id, name, settings), result, signals, tx.View())
            || Failed(result, old(tx.faultAfter))
  {
    result, signals := Fail(DatabaseFault), [];
    if name == "" { return Fail(ValidationFailed), []; }
    var room := ReadSettings(settings);
    if room.None? { return Fail(ValidationFailed), []; }
    var ok := tx.Statement();
    if !ok || id in tx.rooms { return; }
    tx.rooms := tx.rooms[id := room.value];
    tx.queue, tx.log := tx.queue[id := []], tx.log[id := []];
    result := Ok(id);
  }

  method LeaveBody(tx: Transaction, session: SessionId, room: RoomId)
    returns (result: Result<(), Refusal>, signals: seq<Signal>)
    modifies tx
    ensures tx.faultAfter.None? <==> old(tx.faultAfter).None?
    ensures Answers(Leave(old(tx.View()), session, room), result, signals, tx.View())
            || Failed(result, old(tx.faultAfter))
  {
    result, signals := Fail(DatabaseFault), [];
    var ok := tx.LeaveSession(session);
    if ok { result, signals := Ok(()), [Disconnected(room, session)]; }
  }

  method PatchBody(tx: Transaction, room: RoomId, status: Option<RoomStatus>, queueLimit: Option<int>,
                   maxVotes: Option<int>)
    returns (result: Result<Room, Refusal>, signals: seq<Signal>)
    modifies tx
    ensures tx.faultAfter.None? <==> old(tx.faultAfter).None?
    ensures Answers(PatchRoom(old(tx.View()), room, status, queueLimit, maxVotes), result, signals, tx.View())
            || Failed(result, old(tx.faultAfter))
  {
    result, signals := Fail(DatabaseFault), [];
    if queueLimit.Some? && (queueLimit.value < 1 || queueLimit.value > 200) { return Fail(ValidationFailed), []; }
    if maxVotes.Some? && (maxVotes.value < 1 || maxVotes.value > 20) { return Fail(ValidationFailed), []; }
    var ok := tx.Statement();
    if !ok { return; }
    if room !in tx.rooms { return Fail(RoomNotFound), []; }
    var r := tx.rooms[room];
    if status.Some? { r := r.(status := status.value); }
    if queueLimit.Some? { r := r.(queueLimit := queueLimit.value); }
    if maxVotes.Some? { r := r.(maxVotes := maxVotes.value); }
    tx.rooms := tx.rooms[room := r];
    result := Ok(r);
  }

  // ---------- proposals and votes ----------

  /** A proposal once the room and the session have been locked and found active. */
  method ProposeLocked(tx: Transaction, room: RoomId, caller: Caller, catalog: CatalogId, gap: nat)
    returns (result: Result<Proposal, Refusal>, signals: seq<Signal>)
    requires tx.queue.Keys == tx.rooms.Keys && ActiveUnique(tx.tracks)
    requires caller.room == room && caller.active
    requires room in tx.rooms && tx.rooms[room].status == Active && SessionCheck(tx.View(), room, caller.session).None?
    modifies tx
    ensures tx.faultAfter.None? <==> old(tx.faultAfter).None?
    ensures Answers(ProposeTrack(old(tx.View()), room, caller, catalog, Some(Active), gap), result, signals, tx.View())
            || Failed(result, old(tx.faultAfter))
  {
    result, signals := Fail(DatabaseFault), [];
    var ok, duplicate := tx.GetActiveDuplicate(room, catalog);
    if !ok { return; }
    if duplicate.Some? { return Ok(duplicate.value), []; }
    var queued;
    ok, queued := tx.CountQueued(room);
    if !ok { return; }
    if queued >= tx.rooms[room].queueLimit { return Fail(QueueFull), []; }
    var created, t;
    ok, created, t := tx.CreateQueuedIfAbsent(room, catalog, caller.session, gap);
    if !ok { return; }
    if !created {
      // Under the room lock a missing duplicate guarantees the insert.
      assert false;
    }
    ok := tx.Statement();                     // event
    if !ok { return; }
    result, signals := Ok(Created(t)), [TrackProposed(room, t)];
  }

  method ProposeBody(tx: Transaction, room: RoomId, caller: Caller, catalog: CatalogId, firstLook: Option<RoomStatus>,
                     gap: nat)
    returns (result: Result<Proposal, Refusal>, signals: seq<Signal>)
    requires tx.queue.Keys == tx.rooms.Keys && ActiveUnique(tx.tracks)
    requires caller.room == room && caller.active
    modifies tx
    ensures tx.faultAfter.None? <==> old(tx.faultAfter).None?
    ensures Answers(ProposeTrack(old(tx.View()), room, caller, catalog, firstLook, gap), result, signals, tx.View())
            || Failed(result, old(tx.faultAfter))
  {
    result, signals := Fail(DatabaseFault), [];
    var ok := tx.Statement();                 // unlocked read of the room
    if !ok { return; }
    if firstLook.None? { return Fail(RoomNotFound), []; }
    if firstLook.value != Active { return Fail(RoomNotActive), []; }
    ok := tx.Statement();                     // catalogue lookup or upsert
    if !ok { return; }
    ok := tx.Statement();                     // lock the room and look again
    if !ok { return; }
    if room !in tx.rooms { return Fail(RoomNotFound), []; }
    if tx.rooms[room].status != Active { return Fail(RoomNotActive), []; }
    ok := tx.Statement();                     // lock the session
    if !ok { return; }
    if caller.session !in tx.sessions { return Fail(SessionNotFound), []; }
    var session := tx.sessions[caller.session];
    if session.room != room || session.status != Joined { return Fail(SessionNotInRoom), []; }
    result, signals := ProposeLocked(tx, room, caller, catalog, gap);
  }

  /** A vote once the room and the session have been locked and found active. */
  method VoteLocked(tx: Transaction, room: RoomId, session: SessionId, t: TrackId)
    returns (result: Result<VoteReceipt, Refusal>, signals: seq<Signal>)
    requires room in tx.rooms && tx.rooms[room].status == Active && SessionCheck(tx.View(), room, session).None?
    modifies tx
    ensures tx.faultAfter.None? <==> old(tx.faultAfter).None?
    ensures Answers(AddVote(old(tx.View()), room, session, t), result, signals, tx.View())
            || Failed(result, old(tx.faultAfter))
  {
    result, signals := Fail(DatabaseFault), [];
    var ok := tx.Statement();                 // lock the track, whatever its room
    if !ok { return; }
    if t !in tx.tracks { return Fail(TrackUnknown), []; }
    var target := tx.tracks[t];
    if target.room != room || (target.status != Queued && target.status != Playing) {
      return Fail(TrackNotActive), [];
    }
    ok := tx.Statement();                     // has this session voted for it
    if !ok { return; }
    if HasVoted(tx.votes, session, t) { return Fail(AlreadyVoted), []; }
    ok := tx.Statement();                     // how many votes it has used
    if !ok { return; }
    var used := |VotesBy(tx.votes, room, session)|;
    if used >= tx.rooms[room].maxVotes { return Fail(VoteLimitReached), []; }
    var mismatch, duplicate;
    ok, mismatch, duplicate := tx.InsertVote(room, t, session);
    if !ok { return; }
    if mismatch || duplicate {
      // Neither the trigger nor the unique index objects after the checks under the same locks.
      assert false;
    }
    ok := tx.Statement();                     // event
    if !ok { return; }
    var count := target.voteCountCached + 1;
    result := Ok(VoteReceipt(t, count, tx.rooms[room].maxVotes - used - 1));
    signals := [VoteReceived(room, t, count)];
  }

  method VoteBody(tx: Transaction, room: RoomId, session: SessionId, t: TrackId)
    returns (result: Result<VoteReceipt, Refusal>, signals: seq<Signal>)
    modifies tx
    ensures tx.faultAfter.None? <==> old(tx.faultAfter).None?
    ensures Answers(AddVote(old(tx.View()), room, session, t), result, signals, tx.View())
            || Failed(result, old(tx.faultAfter))
  {
    result, signals := Fail(DatabaseFault), [];
    var ok := tx.Statement();                 // lock the room
    if !ok { return; }
    if room !in tx.rooms { return Fail(RoomNotFound), []; }
    if tx.rooms[room].status != Active { return Fail(RoomNotActive), []; }
    ok := tx.Statement();                     // lock the session
    if !ok { return; }
    if session !in tx.sessions { return Fail(SessionNotFound), []; }
    var locked := tx.sessions[session];
    if locked.room != room || locked.status != Joined { return Fail(SessionNotInRoom), []; }
    result, signals := VoteLocked(tx, room, session, t);
  }

  // ---------- track management ----------

  method DeleteBody(tx: Transaction, room: RoomId, t: TrackId)
    returns (result: Result<(), Refusal>, signals: seq<Signal>)
    requires tx.queue.Keys == tx.rooms.Keys
    modifies tx
    ensures tx.faultAfter.None? <==> old(tx.faultAfter).None?
    ensures Answers(DeleteTrack(old(tx.View()), room, t), result, signals, tx.View())
            || Failed(result, old(tx.faultAfter))
  {
    result, signals := Fail(DatabaseFault), [];
    var ok := tx.Statement();                 // lock the room
    if !ok { return; }
    if room !in tx.rooms { return Fail(RoomNotFound), []; }
    var deleted;
    ok, deleted := tx.Delete(room, t);
    if !ok { return; }
    if !deleted { return Fail(TrackNotFound), []; }
    ok := tx.Statement();                     // event
    if !ok { return; }
    result, signals := Ok(()), [TrackDeleted(room, t)];
  }

  method EndBody(tx: Transaction, room: RoomId, t: TrackId, skipped: bool)
    returns (result: Result<(), Refusal>, signals: seq<Signal>)
    modifies tx
    ensures tx.faultAfter.None? <==> old(tx.faultAfter).None?
    ensures Answers(SetTrackStatus(old(tx.View()), room, t, EndStatus(skipped)), result, signals, tx.View())
            || Failed(result, old(tx.faultAfter))
  {
    result, signals := Fail(DatabaseFault), [];
    var ok := tx.Statement();                 // lock the room
    if !ok { return; }
    if room !in tx.rooms { return Fail(RoomNotFound), []; }
    var updated;
    ok, updated := tx.SetStatus(room, t, EndStatus(skipped));
    if !ok { return; }
    if !updated { return Fail(TrackNotActive), []; }
    ok := tx.Statement();                     // event
    if !ok { return; }
    result, signals := Ok(()), [TrackEnded(room, t, EndStatus(skipped))];
  }

  method PlayBody(tx: Transaction, room: RoomId, t: TrackId)
    returns (result: Result<(), Refusal>, signals: seq<Signal>)
    modifies tx
    ensures tx.faultAfter.None? <==> old(tx.faultAfter).None?
    ensures Answers(SetTrackPlaying(old(tx.View()), room, t), result, signals, tx.View())
            || Failed(result, old(tx.faultAfter))
  {
    result, signals := Fail(DatabaseFault), [];
    var ok := tx.Statement();                 // lock the room
    if !ok { return; }
    if room !in tx.rooms { return Fail(RoomNotFound), []; }
    var updated;
    ok, updated := tx.SetPlaying(room, t);
    if !ok { return; }
    if !updated { return Fail(TrackNotActive), []; }   // after the demotion
    ok := tx.Statement();                     // event
    if !ok { return; }
    result, signals := Ok(()), [TrackPlaying(room, t)];
  }

  // ---------- recalculation ----------

  method FingerprintOf(items: seq<Entry>, playing: Option<Mark>) returns (fp: Fingerprint)
    ensures fp == Fingerprint(MarksOf(items), playing)
  {
    var marks := [];
    for i := 0 to |items|
      invariant marks == MarksOf(items)[..i]
    {
      marks := marks + [MarkOf(items[i])];
    }
    fp := Fingerprint(marks, playing);
  }

  method ScoreMap(items: seq<Entry>) returns (scores: map<TrackId, nat>)
    ensures scores == ScoresOf(items)
  {
    scores := map[];
    for i := 0 to |items|
      invariant scores == ScoresOf(items[..i])
    {
      assert items[..i + 1][..i] == items[..i];
      scores := scores[items[i].id := items[i].votes];
    }
    assert items[..|items|] == items;
  }

  /** Scores do not change which tracks are playing. */
  lemma ScoredKeepsPlaying(tracks: map<TrackId, Track>, room: RoomId, scores: map<TrackId, nat>)
    requires OnePlaying(tracks)
    ensures OnePlaying(Scored(tracks, room, scores))
  {
    assert forall r, t :: IsPlaying(Scored(tracks, room, scores), r, t) ==> IsPlaying(tracks, r, t);
  }

  /** The writes of a batch whose fingerprint is not the logged one. */
  method RewriteBody(tx: Transaction, room: RoomId, ranked: seq<Entry>, fingerprint: Fingerprint, updatedAt: Nanos,
                     createdAt: Micros, logId: nat)
    returns (ok: bool, snapshot: Snapshot)
    requires room in tx.queue && room in tx.log && OnePlaying(tx.tracks)
    modifies tx
    ensures tx.faultAfter.None? <==> old(tx.faultAfter).None?
    ensures !ok ==> old(tx.faultAfter).Some?
    ensures var rewritten := Rewritten(old(tx.View()), room, ranked, updatedAt);
            var entry := LogEntry(fingerprint, updatedAt, createdAt, logId);
            ok ==> && tx.View() == rewritten.(log := old(tx.log)[room := old(tx.log)[room] + [entry]])
                   && room in tx.queue && room in tx.log
                   && snapshot == SnapshotOf(tx.View(), room)
  {
    snapshot := Snapshot([], None, None);
    ok := tx.Replace(room, ranked, updatedAt);
    if !ok { return; }
    var scores := ScoreMap(ranked);
    ScoredKeepsPlaying(tx.tracks, room, scores);
    ok := tx.UpdateCachedScores(room, scores);
    if !ok { return; }
    ok := tx.InsertRecalculation(room, fingerprint, updatedAt, createdAt, logId);
    if !ok { return; }
    ok, snapshot := tx.LoadSnapshot(room);
  }

  /** What a batch reads under the room lock. */
  method ReadBatch(tx: Transaction, room: RoomId)
    returns (ok: bool, state: Option<LogEntry<Fingerprint>>, ranked: seq<Entry>, fingerprint: Fingerprint)
    requires Ready(tx.View()) && OnePlaying(tx.tracks) && room in tx.rooms
    modifies tx`faultAfter
    ensures tx.faultAfter.None? <==> old(tx.faultAfter).None?
    ensures !ok ==> old(tx.faultAfter).Some?
    ensures state == if tx.log[room] == [] then None else Some(Newest(tx.log[room]))
    ensures ok ==> ranked == RankedNow(tx.View(), room) && fingerprint == FingerprintNow(tx.View(), room)
  {
    ranked, fingerprint := [], Fingerprint([], None);
    FifoOrderIsDistinct(tx.View(), room);
    ok, state := tx.LoadState(room);
    if !ok { return; }
    ok, ranked := tx.ListRankedQueued(room, tx.rooms[room].queueLimit);
    if !ok { return; }
    var playing;
    ok, playing := tx.LoadNowPlaying(room);
    if !ok { return; }
    fingerprint := FingerprintOf(ranked, playing);
  }

  /** The batch once the room is locked. */
  method RecalculateLocked(tx: Transaction, room: RoomId, now: Nanos, createdAt: Micros, logId: nat)
    returns (result: Result<bool, Refusal>, signals: seq<Signal>)
    requires Ready(tx.View()) && OnePlaying(tx.tracks) && room in tx.rooms
    modifies tx
    ensures tx.faultAfter.None? <==> old(tx.faultAfter).None?
    ensures Answers(RecalculateRoomQueue(old(tx.View()), room, now, createdAt, logId), result, signals, tx.View())
            || Failed(result, old(tx.faultAfter))
  {
    result, signals := Fail(DatabaseFault), [];
    RecalculationUnfolds(tx.View(), room, now, createdAt, logId);
    var ok, state, ranked, fingerprint := ReadBatch(tx, room);
    if !ok { return; }
    if state.Some? && state.value.fingerprint == fingerprint {
      return Ok(false), [];
    }
    var updatedAt := now;
    if state.Some? && now <= Version(state.value) * NANOS_PER_MICRO {
      updatedAt := Version(state.value) * NANOS_PER_MICRO + NANOS_PER_MICRO;
    }
    var snapshot;
    ok, snapshot := RewriteBody(tx, room, ranked, fingerprint, updatedAt, createdAt, logId);
    if !ok { return; }
    result, signals := Ok(true), [QueueUpdated(room, snapshot)];
  }

  method RecalculateBody(tx: Transaction, room: RoomId, now: Nanos, createdAt: Micros, logId: nat)
    returns (result: Result<bool, Refusal>, signals: seq<Signal>)
    requires Ready(tx.View()) && OnePlaying(tx.tracks)
    modifies tx
    ensures tx.faultAfter.None? <==> old(tx.faultAfter).None?
    ensures Answers(RecalculateRoomQueue(old(tx.View()), room, now, createdAt, logId), result, signals, tx.View())
            || Failed(result, old(tx.faultAfter))
  {
    result, signals := Fail(DatabaseFault), [];
    var ok := tx.Statement();                 // lock the room
    if !ok { return; }
    if room !in tx.rooms { return Fail(RoomNotFound), []; }
    result, signals := RecalculateLocked(tx, room, now, createdAt, logId);
  }

  method GetQueueBody(tx: Transaction, room: RoomId) returns (result: Result<Snapshot, Refusal>)
    requires Ready(tx.View()) && OnePlaying(tx.tracks)
    modifies tx`faultAfter
    ensures tx.faultAfter.None? <==> old(tx.faultAfter).None?
    ensures room in tx.rooms ==> result == Ok(SnapshotOf(tx.View(), room)) || Failed(result, old(tx.faultAfter))
    ensures room !in tx.rooms ==> result == Fail(RoomNotFound) || Failed(result, old(tx.faultAfter))
  {
    result := Fail(DatabaseFault);
    var ok := tx.Statement();                 // lock the room, shared
    if !ok { return; }
    if room !in tx.rooms { return Fail(RoomNotFound); }
    var snapshot;
    ok, snapshot := tx.LoadSnapshot(room);
    if ok { result := Ok(snapshot); }
  }
}
