/**
 The skipped batch, convergence, what reads show between batches, and versions over
 whole runs.
 */
module QueueTheorems {
  import opened Common
  import opened Ranking
  import opened Versions
  import opened Tables
  import opened Invariants
  import opened Operations
  import opened Preservation

  // ---------- the public snapshot ----------

  /** A queue item as clients see it. */
  datatype PublicItem = PublicItem(position: nat, id: TrackId, score: int, votes: nat, proposer: Option<string>)
  datatype PublicSnapshot = PublicSnapshot(items: seq<PublicItem>, playing: Option<Mark>, updatedAt: Option<Micros>)

  function PublicItemOf(i: Item): PublicItem {
    PublicItem(i.position, i.id, i.score, i.votes, i.proposer)
  }

  function Public(s: Snapshot): PublicSnapshot {
    PublicSnapshot(seq(|s.items|, i requires 0 <= i < |s.items| => PublicItemOf(s.items[i])), s.playing, s.updatedAt)
  }

  /** The snapshot a log entry stands for. */
  function Published(e: LogEntry<Fingerprint>): PublicSnapshot {
    var items := e.fingerprint.items;
    PublicSnapshot(
      seq(|items|, i requires 0 <= i < |items| => PublicItem(i + 1, items[i].id, items[i].votes, items[i].votes,
                                                             items[i].proposer)),
      e.fingerprint.playing,
      Some(Version(e)))
  }

  /** The rows, positions, votes, scores, FIFO numbers and cached scores are what a rewrite
      would leave, and a reader sees the last snapshot that was logged. */
  ghost predicate UpToDate(db: Db, room: RoomId)
    requires Inv(db) && room in db.rooms && db.log[room] != []
  {
    var e := Last(db.log[room]);
    && Rewritten(db, room, RankedNow(db, room), e.updatedAt) == db
    && Public(SnapshotOf(db, room)) == Published(e)
  }

  // ---------- what a reader sees of the stored rows ----------

  /** The logged marks whose tracks exist and are queued, in logged order. */
  function StillQueued(items: seq<Mark>, k: nat, tracks: map<TrackId, Track>): seq<nat>
    requires k <= |items|
    ensures forall i :: 0 <= i < |StillQueued(items, k, tracks)| ==> k <= StillQueued(items, k, tracks)[i] < |items|
    decreases |items| - k
  {
    if k == |items| then []
    else
      var rest := StillQueued(items, k + 1, tracks);
      if items[k].id in tracks && tracks[items[k].id].status == Queued then [k] + rest else rest
  }

  /** How a logged mark whose track is queued is shown. */
  function ShownItem(m: Mark, position: nat, at: Nanos, tracks: map<TrackId, Track>, sessions: map<SessionId,
                     Session>): Item
    requires m.id in tracks
  {
    Item(position, m.id, m.votes, m.votes, tracks[m.id].fifo, Nickname(sessions, tracks[m.id].proposer), at)
  }

  /** `shown` lists the marks at the places `kept`. */
  ghost predicate Shows(shown: seq<Item>, kept: seq<nat>, items: seq<Mark>, at: Nanos, tracks: map<TrackId, Track>,
                        sessions: map<SessionId, Session>, before: nat) {
    && |shown| == |kept|
    && forall i :: 0 <= i < |shown| ==>
         && kept[i] < |items| && items[kept[i]].id in tracks
         && shown[i] == ShownItem(items[kept[i]], before + i + 1, at, tracks, sessions)
  }

  lemma {:induction false} ItemsOfLoggedRows(items: seq<Mark>, k: nat, at: Nanos, tracks: map<TrackId, Track>,
                                             sessions: map<SessionId, Session>, before: nat)
    requires k <= |items|
    ensures Shows(ItemsFrom(RowsFrom(items, k, at, tracks), tracks, sessions, before), StillQueued(items, k, tracks),
                  items, at, tracks, sessions, before)
    decreases |items| - k
  {
    if k < |items| {
      var rows, rest := RowsFrom(items, k, at, tracks), RowsFrom(items, k + 1, at, tracks);
      if items[k].id !in tracks {
        ItemsOfLoggedRows(items, k + 1, at, tracks, sessions, before);
      } else if tracks[items[k].id].status != Queued {
        assert rows[1..] == rest;
        ItemsOfLoggedRows(items, k + 1, at, tracks, sessions, before);
      } else {
        assert rows[1..] == rest;
        ItemsOfLoggedRows(items, k + 1, at, tracks, sessions, before + 1);
        ShowsOneMore(ItemsFrom(rest, tracks, sessions, before + 1), StillQueued(items, k + 1, tracks), k, items, at,
                     tracks, sessions, before);
      }
    }
  }

  lemma ShowsOneMore(shown: seq<Item>, kept: seq<nat>, k: nat, items: seq<Mark>, at: Nanos, tracks: map<TrackId,
                     Track>, sessions: map<SessionId, Session>, before: nat)
    requires k < |items| && items[k].id in tracks && Shows(shown, kept, items, at, tracks, sessions, before + 1)
    ensures Shows([ShownItem(items[k], before + 1, at, tracks, sessions)] + shown, [k] + kept, items, at, tracks,
                  sessions, before)
  {
  }

  lemma {:induction false} StillQueuedAscends(items: seq<Mark>, k: nat, tracks: map<TrackId, Track>)
    requires k <= |items|
    ensures var kept := StillQueued(items, k, tracks);
            && (forall i, j :: 0 <= i < j < |kept| ==> kept[i] < kept[j])
            && (forall p :: k <= p < |items| ==>
                  (p in kept <==> items[p].id in tracks && tracks[items[p].id].status == Queued))
    decreases |items| - k
  {
    if k < |items| {
      StillQueuedAscends(items, k + 1, tracks);
    }
  }

  /** Between batches a reader sees the last materialised ranking filtered to the tracks
      that still exist and are queued: order kept, positions exactly 1..n, logged votes,
      and never the playing track. */
  lemma {:induction false} ReadsBetweenBatches(db: Db, room: RoomId)
    requires Inv(db) && room in db.rooms
    ensures db.log[room] == [] ==> SnapshotOf(db, room).items == []
    ensures db.log[room] != [] ==>
              var logged := Last(db.log[room]).fingerprint.items;
              var kept := StillQueued(logged, 0, db.tracks);
              var shown := SnapshotOf(db, room).items;
              && |shown| == |kept|
              && (forall i, j :: 0 <= i < j < |kept| ==> kept[i] < kept[j])
              && (forall p :: 0 <= p < |logged| ==> (p in kept <==> IsQueued(db.tracks, room, logged[p].id)))
              && (forall i :: 0 <= i < |shown| ==>
                    && shown[i].position == i + 1
                    && shown[i].id == logged[kept[i]].id
                    && shown[i].votes == shown[i].score == logged[kept[i]].votes)
    ensures forall i :: 0 <= i < |SnapshotOf(db, room).items| ==>
              NowPlaying(db.tracks, room) != Some(SnapshotOf(db, room).items[i].id)
  {
    if db.log[room] != [] {
      var e := Last(db.log[room]);
      ItemsOfLoggedRows(e.fingerprint.items, 0, e.updatedAt, db.tracks, db.sessions, 0);
      StillQueuedAscends(e.fingerprint.items, 0, db.tracks);
    }
  }

  // ---------- when the derived tables are up to date ----------

  lemma {:induction false} AllStillQueued(items: seq<Mark>, k: nat, tracks: map<TrackId, Track>)
    requires k <= |items|
    requires forall i :: k <= i < |items| ==> items[i].id in tracks && tracks[items[i].id].status == Queued
    ensures var kept := StillQueued(items, k, tracks);
            |kept| == |items| - k && forall i :: 0 <= i < |kept| ==> kept[i] == k + i
    decreases |items| - k
  {
    if k < |items| {
      AllStillQueued(items, k + 1, tracks);
    }
  }

  /** Rows of a ranking that still stands are shown as its log entry says. */
  lemma StandingRowsShowPublished(e: LogEntry<Fingerprint>, ranked: seq<Entry>, tracks: map<TrackId, Track>,
                                  sessions: map<SessionId, Session>)
    requires e.fingerprint.items == MarksOf(ranked)
    requires forall i :: 0 <= i < |ranked| ==> ranked[i].id in tracks && tracks[ranked[i].id].status == Queued
    requires forall i :: 0 <= i < |ranked| ==> ranked[i].proposer == Nickname(sessions, tracks[ranked[i].id].proposer)
    ensures var shown := ItemsFrom(RowsFrom(e.fingerprint.items, 0, e.updatedAt, tracks), tracks, sessions, 0);
            |shown| == |Published(e).items| && forall i :: 0 <= i < |shown| ==>
                PublicItemOf(shown[i]) == Published(e).items[i]
  {
    AllStillQueued(e.fingerprint.items, 0, tracks);
    ItemsOfLoggedRows(e.fingerprint.items, 0, e.updatedAt, tracks, sessions, 0);
  }

  lemma MatchingFingerprintShowsPublished(db: Db, room: RoomId)
    requires Inv(db) && room in db.rooms && db.log[room] != []
    requires FingerprintNow(db, room) == Last(db.log[room]).fingerprint
    ensures Public(SnapshotOf(db, room)) == Published(Last(db.log[room]))
  {
    var e := Last(db.log[room]);
    RankedFacts(db, room);
    StandingRowsShowPublished(e, RankedNow(db, room), db.tracks, db.sessions);
    NewestVersionIsLast(db.log[room]);
    assert Public(SnapshotOf(db, room)).items == Published(e).items;
  }

  lemma MatchingFingerprintNeedsNoRewrite(db: Db, room: RoomId)
    requires Inv(db) && room in db.rooms && db.log[room] != []
    requires FingerprintNow(db, room) == Last(db.log[room]).fingerprint
    ensures Rewritten(db, room, RankedNow(db, room), Last(db.log[room]).updatedAt) == db
  {
    var e := Last(db.log[room]);
    var ranked := RankedNow(db, room);
    RankedFacts(db, room);
    RowsFromRanked(ranked, 0, e.updatedAt, db.tracks);
    assert RowsOf(ranked, e.updatedAt)[0..] == RowsOf(ranked, e.updatedAt);
    MatchingFingerprintKeepsScores(db, room);
    assert db.queue[room := db.queue[room]] == db.queue;
  }

  lemma {:induction false} LoggedScoresStand(tracks: map<TrackId, Track>, room: RoomId, ranked: seq<Entry>,
                                             playing: Option<Mark>)
    requires forall i, j :: 0 <= i < j < |ranked| ==> ranked[i].id != ranked[j].id
    requires forall i :: 0 <= i < |ranked| ==> IsActive(tracks, room, ranked[i].id)
    requires playing.Some? ==> !IsQueued(tracks, room, playing.value.id)
    requires forall t :: IsActive(tracks, room, t) ==>
               ScoreAsLogged(Fingerprint(MarksOf(ranked), playing), t, tracks[t].scoreCached)
    ensures Scored(tracks, room, ScoresOf(ranked)) == tracks
  {
    var fp := Fingerprint(MarksOf(ranked), playing);
    var after := Scored(tracks, room, ScoresOf(ranked));
    forall t | t in tracks ensures after[t] == tracks[t] {
      if t in ScoresOf(ranked) {
        var x :| x in ranked && x.id == t;
        var i :| 0 <= i < |ranked| && ranked[i] == x;
        ScoresOfIndexed(ranked, i);
        assert fp.items[i].id == t;
      } else if IsQueued(tracks, room, t) {
        forall i | 0 <= i < |fp.items| ensures fp.items[i].id != t {
          assert ranked[i] in ranked;
        }
      }
    }
  }

  lemma PlayingIsNotQueued(db: Db, room: RoomId)
    ensures var p := PlayingOf(db.tracks, db.sessions, room);
            p.Some? ==> !IsQueued(db.tracks, room, p.value.id)
  {
  }

  lemma MatchingFingerprintKeepsScores(db: Db, room: RoomId)
    requires Inv(db) && room in db.rooms && db.log[room] != []
    requires FingerprintNow(db, room) == Last(db.log[room]).fingerprint
    ensures Scored(db.tracks, room, ScoresOf(RankedNow(db, room))) == db.tracks
  {
    RankedFacts(db, room);
    PlayingIsNotQueued(db, room);
    LoggedScoresStand(db.tracks, room, RankedNow(db, room), PlayingOf(db.tracks, db.sessions, room));
  }

  /** Shown rows of a ranking determine its marks. */
  lemma ShownRowsDetermineMarks(ranked: seq<Entry>, e: LogEntry<Fingerprint>, tracks: map<TrackId, Track>,
                                sessions: map<SessionId, Session>, shown: seq<Item>)
    requires forall i :: 0 <= i < |ranked| ==> ranked[i].id in tracks && tracks[ranked[i].id].status == Queued
    requires forall i :: 0 <= i < |ranked| ==> ranked[i].proposer == Nickname(sessions, tracks[ranked[i].id].proposer)
    requires shown == ItemsFrom(RowsOf(ranked, e.updatedAt), tracks, sessions, 0)
    requires |shown| == |e.fingerprint.items|
    requires forall i :: 0 <= i < |shown| ==> PublicItemOf(shown[i]) == Published(e).items[i]
    ensures MarksOf(ranked) == e.fingerprint.items
  {
    ItemsOfRankedRows(ranked, 0, e.updatedAt, tracks, sessions);
    assert RowsOf(ranked, e.updatedAt)[0..] == RowsOf(ranked, e.updatedAt);
    forall i | 0 <= i < |ranked| ensures MarksOf(ranked)[i] == e.fingerprint.items[i] {
      assert PublicItemOf(shown[i]) == Published(e).items[i];
    }
  }

  lemma UpToDateShowsFingerprint(db: Db, room: RoomId)
    requires Inv(db) && room in db.rooms && db.log[room] != [] && UpToDate(db, room)
    ensures FingerprintNow(db, room) == Last(db.log[room]).fingerprint
  {
    var e := Last(db.log[room]);
    var shown := SnapshotOf(db, room).items;
    RankedFacts(db, room);
    assert |Public(SnapshotOf(db, room)).items| == |Published(e).items|;
    assert forall i :: 0 <= i < |shown| ==> PublicItemOf(shown[i]) == Public(SnapshotOf(db, room)).items[i];
    ShownRowsDetermineMarks(RankedNow(db, room), e, db.tracks, db.sessions, shown);
  }

  lemma {:induction false} ItemsOfRankedRows(ranked: seq<Entry>, k: nat, at: Nanos, tracks: map<TrackId, Track>,
                                             sessions: map<SessionId, Session>)
    requires k <= |ranked|
    requires forall i :: 0 <= i < |ranked| ==> ranked[i].id in tracks && tracks[ranked[i].id].status == Queued
    ensures var shown := ItemsFrom(RowsOf(ranked, at)[k..], tracks, sessions, k);
            && |shown| == |ranked| - k
            && forall i :: 0 <= i < |shown| ==>
                 shown[i] == ItemOf(RowOf(ranked[k + i], k + i + 1, at), k + i + 1,
                                    Nickname(sessions, tracks[ranked[k + i].id].proposer))
    decreases |ranked| - k
  {
    var rows := RowsOf(ranked, at);
    if k < |ranked| {
      assert rows[k..][1..] == rows[k + 1..];
      ItemsOfRankedRows(ranked, k + 1, at, tracks, sessions);
    }
  }

  /** The derived tables and the visible snapshot are up to date exactly when the current
      fingerprint is the one that was logged last. */
  lemma {:induction false} UpToDateIff(db: Db, room: RoomId)
    requires Inv(db) && room in db.rooms && db.log[room] != []
    ensures UpToDate(db, room) <==> FingerprintNow(db, room) == Last(db.log[room]).fingerprint
  {
    if FingerprintNow(db, room) == Last(db.log[room]).fingerprint {
      MatchingFingerprintShowsPublished(db, room);
      MatchingFingerprintNeedsNoRewrite(db, room);
    }
    if UpToDate(db, room) {
      UpToDateShowsFingerprint(db, room);
    }
  }

  /** Skipping is sound exactly when the newest entry the query finds carries the
      fingerprint of the entry that was committed last. */
  lemma {:induction false} SkipIsSoundIff(db: Db, room: RoomId)
    requires Inv(db) && room in db.rooms && Skips(db, room)
    ensures UpToDate(db, room) <==> Newest(db.log[room]).fingerprint == Last(db.log[room]).fingerprint
  {
    UpToDateIff(db, room);
  }

  /** A skip is sound whenever the entry committed last sorts after all others. */
  lemma {:induction false} SkipIsSound(db: Db, room: RoomId)
    requires Inv(db) && room in db.rooms && Skips(db, room)
    requires forall i :: 0 <= i < |db.log[room]| - 1 ==> Later(Last(db.log[room]), db.log[room][i])
    ensures UpToDate(db, room)
  {
    NewestIsLast(db.log[room]);
    UpToDateIff(db, room);
  }

  // ---------- convergence ----------

  lemma ScoresDoNotRank(tracks: map<TrackId, Track>, scores: map<TrackId, nat>, votes: set<Vote>,
                        sessions: map<SessionId, Session>, room: RoomId)
    requires OnePlaying(tracks)
    ensures var after := Scored(tracks, room, scores);
            && Entries(after, votes, sessions, room) == Entries(tracks, votes, sessions, room)
            && PlayingOf(after, sessions, room) == PlayingOf(tracks, sessions, room)
  {
    var after := Scored(tracks, room, scores);
    assert QueuedIds(after, room) == QueuedIds(tracks, room);
    assert forall t :: IsPlaying(after, room, t) <==> IsPlaying(tracks, room, t);
  }

  lemma RecalculationKeepsFingerprint(db: Db, room: RoomId, now: Nanos, createdAt: Micros, id: nat)
    requires Inv(db) && room in db.rooms && !Skips(db, room)
    ensures var db' := RecalculateRoomQueue(db, room, now, createdAt, id).db;
            Inv(db') && FingerprintNow(db', room) == FingerprintNow(db, room)
  {
    RecalculateKeepsInv(db, room, now, createdAt, id);
    ScoresDoNotRank(db.tracks, ScoresOf(RankedNow(db, room)), db.votes, db.sessions, room);
  }

  /** One recalculation that writes leaves everything up to date, and sends what it logged. */
  lemma {:induction false} RecalculationPublishes(db: Db, room: RoomId, now: Nanos, createdAt: Micros, id: nat)
    requires Inv(db) && room in db.rooms && !Skips(db, room)
    ensures var o := RecalculateRoomQueue(db, room, now, createdAt, id);
            && Inv(o.db) && UpToDate(o.db, room)
            && |o.signals| == 1 && o.signals[0].QueueUpdated? && o.signals[0].room == room
            && Public(o.signals[0].snapshot) == Published(Last(o.db.log[room]))
  {
    var o := RecalculateRoomQueue(db, room, now, createdAt, id);
    RecalculationKeepsFingerprint(db, room, now, createdAt, id);
    UpToDateIff(o.db, room);
  }

  /** The log after a batch that writes. */
  lemma RewriteLogs(db: Db, room: RoomId, now: Nanos, createdAt: Micros, id: nat)
    requires Ready(db) && room in db.rooms && !Skips(db, room)
    ensures var after := RecalculateRoomQueue(db, room, now, createdAt, id).db;
            && room in after.rooms && room in after.log
            && after.log[room] == Append(db.log[room], FingerprintNow(db, room), now, createdAt, id)
  {
    RecalculationUnfolds(db, room, now, createdAt, id);
  }

  /** The batch after a batch that wrote skips exactly if that one's entry landed. */
  lemma NextBatchSkipsIff(db: Db, room: RoomId, now: Nanos, createdAt: Micros, id: nat)
    requires Inv(db) && room in db.rooms && !Skips(db, room)
    ensures var after := RecalculateRoomQueue(db, room, now, createdAt, id).db;
            Inv(after) && room in after.rooms && (Skips(after, room) <==> Lands(db.log[room], now, createdAt, id))
  {
    RewriteLogs(db, room, now, createdAt, id);
    RecalculationKeepsFingerprint(db, room, now, createdAt, id);
    NewestAfterAppend(db.log[room], FingerprintNow(db, room), now, createdAt, id);
  }

  /** One batch that writes leaves the queue equal to the ranking of the current votes,
      whatever the clock reads. An immediate second one reports no change and writes nothing
      if and only if the first one's entry landed. A batch that skips changes nothing, any
      number of times, and leaves the queue up to date if and only if the entry it found
      carries the fingerprint logged last. */
  lemma {:induction false} RecalculationConverges(db: Db, room: RoomId, now: Nanos, createdAt: Micros, id: nat,
                                                  now2: Nanos, createdAt2: Micros, id2: nat)
    requires Inv(db) && room in db.rooms
    ensures var o := RecalculateRoomQueue(db, room, now, createdAt, id);
            && Inv(o.db) && room in o.db.rooms && o.db.log[room] != []
            && var again := RecalculateRoomQueue(o.db, room, now2, createdAt2, id2);
               if Skips(db, room) then
                 && o == again == Out(db, Ok(false), [])
                 && (UpToDate(o.db, room) <==> Newest(db.log[room]).fingerprint == Last(db.log[room]).fingerprint)
               else
                 && UpToDate(o.db, room)
                 && (again == Out(o.db, Ok(false), []) <==> Lands(db.log[room], now, createdAt, id))
  {
    if Skips(db, room) {
      SkipIsSoundIff(db, room);
    } else {
      RecalculationPublishes(db, room, now, createdAt, id);
      NextBatchSkipsIff(db, room, now, createdAt, id);
      var after := RecalculateRoomQueue(db, room, now, createdAt, id).db;
      RecalculationUnfolds(after, room, now2, createdAt2, id2);
    }
  }

  // ---------- versions and messages over whole runs ----------

  /** The queue snapshots broadcast to the room so far, in commit order. */
  ghost function Messages(ops: seq<Op>, room: RoomId): seq<Versioned<PublicSnapshot>> {
    if ops == [] then []
    else
      var before := ops[..|ops| - 1];
      Messages(before, room) + MessagesIn(Step(Reach(before), Last(ops)).signals, room)
  }

  function MessagesIn(signals: seq<Signal>, room: RoomId): seq<Versioned<PublicSnapshot>> {
    if |signals| == 1 && signals[0].QueueUpdated? && signals[0].room == room && signals[0].snapshot.updatedAt.Some?
    then [Versioned(signals[0].snapshot.updatedAt.value, Public(signals[0].snapshot))]
    else []
  }

  /** The op rewrites the derived tables of the room. */
  ghost predicate Rewrites(db: Db, op: Op, room: RoomId)
    requires Ready(db)
  {
    op.OpRecalculate? && op.room == room && room in db.rooms && !Skips(db, room)
  }

  /** No rewrite of the room in the run lost its clock reading to rounding. */
  ghost predicate GoodClock(ops: seq<Op>, room: RoomId) {
    ops != [] ==>
      var before := ops[..|ops| - 1];
      && GoodClock(before, room)
      && (Rewrites(Reach(before), Last(ops), room)
          ==> GoodReading(PreviousVersion(Reach(before).log[room]), Last(ops).now))
  }

  /** A step that rewrites nothing in a room leaves its log alone and broadcasts no snapshot. */
  ghost predicate QuietFor(db: Db, o: Outcome, room: RoomId) {
    && (room in db.log ==> room in o.db.log && o.db.log[room] == db.log[room])
    && (room in o.db.log && room !in db.log ==> o.db.log[room] == [])
    && MessagesIn(o.signals, room) == []
  }

  lemma QuietProposal(db: Db, room: RoomId, caller: Caller, catalog: CatalogId, firstLook: Option<RoomStatus>,
                      gap: nat, r: RoomId)
    requires db.queue.Keys == db.rooms.Keys
    ensures QuietFor(db, Committed(ProposeTrack(db, room, caller, catalog, firstLook, gap)), r)
  {
    ProposeCases(db, room, caller, catalog, firstLook, gap);
  }

  lemma QuietTrackOps(db: Db, room: RoomId, t: TrackId, status: TrackStatus, r: RoomId)
    requires db.queue.Keys == db.rooms.Keys
    ensures QuietFor(db, Committed(DeleteTrack(db, room, t)), r)
    ensures QuietFor(db, Committed(SetTrackStatus(db, room, t, status)), r)
    ensures QuietFor(db, Committed(SetTrackPlaying(db, room, t)), r)
  {
  }

  lemma QuietVote(db: Db, room: RoomId, session: SessionId, t: TrackId, r: RoomId)
    ensures QuietFor(db, Committed(AddVote(db, room, session, t)), r)
  {
  }

  lemma QuietStep(db: Db, op: Op, room: RoomId)
    requires Ready(db) && !op.OpRecalculate?
    ensures QuietFor(db, Step(db, op), room)
  {
    match op
    case OpPropose(r, caller, catalog, firstLook, gap) => QuietProposal(db, r, caller, catalog, firstLook, gap, room);
    case OpVote(r, session, t) => QuietVote(db, r, session, t, room);
    case OpDelete(r, t) => QuietTrackOps(db, r, t, Played, room);
    case OpEnd(r, t, skipped) => QuietTrackOps(db, r, t, EndStatus(skipped), room);
    case OpPlay(r, t) => QuietTrackOps(db, r, t, Played, room);
    case OpCreateRoom(id, name, settings) =>
    case OpPatchRoom(r, status, limit, votes) =>
    case OpJoin(first, second, known, nickname) =>
    case OpLeave(session, r) =>
    case OpFault =>
  }

  lemma QuietRecalculation(db: Db, op: Op, room: RoomId)
    requires Ready(db) && op.OpRecalculate? && !Rewrites(db, op, room)
    ensures QuietFor(db, Step(db, op), room)
  {
  }

  /** How a step changes the log of a room. */
  lemma LogStep(db: Db, op: Op, room: RoomId)
    requires Inv(db)
    ensures Inv(Step(db, op).db)
    ensures !Rewrites(db, op, room) ==> QuietFor(db, Step(db, op), room)
    ensures Rewrites(db, op, room) ==>
              && room in Step(db, op).db.rooms
              && Step(db, op).db.log[room] == Append(db.log[room], FingerprintNow(db, room), op.now, op.createdAt,
                                                     op.logId)
  {
    StepKeepsInv(db, op);
    if !Rewrites(db, op, room) {
      if op.OpRecalculate? { QuietRecalculation(db, op, room); } else { QuietStep(db, op, room); }
    }
  }

  /** One message per log entry, with its version and its content. */
  ghost predicate Follows(sent: seq<Versioned<PublicSnapshot>>, log: Log) {
    && |sent| == |log|
    && (forall i :: 0 <= i < |log| ==> sent[i] == Versioned(Version(log[i]), Published(log[i])))
  }

  lemma {:induction false} AnnouncementOf(signals: seq<Signal>, room: RoomId, e: LogEntry<Fingerprint>)
    requires |signals| == 1 && signals[0].QueueUpdated? && signals[0].room == room
    requires Public(signals[0].snapshot) == Published(e)
    ensures MessagesIn(signals, room) == [Versioned(Version(e), Published(e))]
  {
    assert Public(signals[0].snapshot).updatedAt == signals[0].snapshot.updatedAt;
  }

  /** What a rewrite logs and sends. */
  lemma {:induction false} RewriteSends(db: Db, op: Op, room: RoomId)
    requires Inv(db) && Rewrites(db, op, room)
    ensures var log := Append(db.log[room], FingerprintNow(db, room), op.now, op.createdAt, op.logId);
            && room in Step(db, op).db.log && Step(db, op).db.log[room] == log
            && MessagesIn(Step(db, op).signals, room) == [Versioned(Version(Last(log)), Published(Last(log)))]
  {
    var o := RecalculateRoomQueue(db, room, op.now, op.createdAt, op.logId);
    RecalculationPublishes(db, room, op.now, op.createdAt, op.logId);
    RewriteLogs(db, room, op.now, op.createdAt, op.logId);
    AnnouncementOf(o.signals, room, Last(o.db.log[room]));
  }

  lemma {:induction false} RewriteSendsItsEntry(db: Db, op: Op, room: RoomId, sent: seq<Versioned<PublicSnapshot>>)
    requires Inv(db) && Rewrites(db, op, room) && Follows(sent, db.log[room])
    ensures room in Step(db, op).db.log
            && Follows(sent + MessagesIn(Step(db, op).signals, room), Step(db, op).db.log[room])
  {
    RewriteSends(db, op, room);
  }

  /** Every run logs one entry per broadcast snapshot, in commit order and with its
      version; versions never go back. */
  lemma {:induction false} MessagesFollowLog(ops: seq<Op>, room: RoomId)
    ensures room in Reach(ops).rooms
            ==> Follows(Messages(ops, room), Reach(ops).log[room]) && NonDecreasing(Reach(ops).log[room])
  {
    if room !in Reach(ops).rooms { return; }
    assert ops != [];
    var before := ops[..|ops| - 1];
    ReachInv(before);
    var db, op := Reach(before), Last(ops);
    LogStep(db, op, room);
    if room in db.rooms {
      MessagesFollowLog(before, room);
      if Rewrites(db, op, room) {
        RewriteSendsItsEntry(db, op, room, Messages(before, room));
      }
    } else {
      NoRoomNoMessages(before, room);
    }
  }

  lemma {:induction false} NoRoomNoMessages(ops: seq<Op>, room: RoomId)
    requires room !in Reach(ops).rooms
    ensures Messages(ops, room) == []
  {
    if ops != [] {
      var before := ops[..|ops| - 1];
      ReachInv(before);
      LogStep(Reach(before), Last(ops), room);
      NoRoomNoMessages(before, room);
    }
  }

  /** Over every run logged versions strictly increase exactly when no clock reading was
      lost to rounding; stalled and backward clocks are good. */
  lemma {:induction false} VersionsIncreaseIff(ops: seq<Op>, room: RoomId)
    ensures room in Reach(ops).rooms ==> (Increasing(Reach(ops).log[room]) <==> GoodClock(ops, room))
  {
    if room !in Reach(ops).rooms { return; }
    assert ops != [];
    var before := ops[..|ops| - 1];
    ReachInv(before);
    var db, op := Reach(before), Last(ops);
    LogStep(db, op, room);
    if room in db.rooms {
      VersionsIncreaseIff(before, room);
      if Rewrites(db, op, room) {
        AppendKeepsOrder(db.log[room], FingerprintNow(db, room), op.now, op.createdAt, op.logId);
      }
    } else {
      NoRoomGoodClock(before, room);
    }
  }

  lemma {:induction false} NoRoomGoodClock(ops: seq<Op>, room: RoomId)
    requires room !in Reach(ops).rooms
    ensures GoodClock(ops, room)
  {
    if ops != [] {
      var before := ops[..|ops| - 1];
      ReachInv(before);
      LogStep(Reach(before), Last(ops), room);
      NoRoomGoodClock(before, room);
    }
  }

  /** Over every run from any point on a room's log only grows, so no version that was ever
      read disappears. */
  lemma {:induction false} LogOnlyGrows(ops: seq<Op>, i: nat, room: RoomId)
    requires i <= |ops|
    ensures room in Reach(ops[..i]).rooms
            ==> room in Reach(ops).rooms && Reach(ops[..i]).log[room] <= Reach(ops).log[room]
    decreases |ops|
  {
    if i == |ops| {
      assert ops[..i] == ops;
    } else {
      var front := ops[..|ops| - 1];
      assert front[..i] == ops[..i];
      LogOnlyGrows(front, i, room);
      ReachInv(front);
      LogStep(Reach(front), Last(ops), room);
    }
  }

  /** A clock of microsecond resolution is good over every run, whatever it reads. */
  lemma {:induction false} MicrosecondClockIsGood(ops: seq<Op>, room: RoomId)
    requires forall i :: 0 <= i < |ops| && ops[i].OpRecalculate? ==> ops[i].now % NANOS_PER_MICRO == 0
    ensures GoodClock(ops, room)
  {
    if ops != [] {
      var before := ops[..|ops| - 1];
      MicrosecondClockIsGood(before, room);
      if Rewrites(Reach(before), Last(ops), room) {
        MicrosecondReadingIsGood(PreviousVersion(Reach(before).log[room]), Last(ops).now);
      }
    }
  }

  // ---------- the last rewrite of a run ----------

  /** The entry of the room's last rewrite landed. */
  ghost predicate LastRewriteLanded(ops: seq<Op>, room: RoomId) {
    ops != [] ==>
      var before, op := ops[..|ops| - 1], Last(ops);
      if Rewrites(Reach(before), op, room) then Lands(Reach(before).log[room], op.now, op.createdAt, op.logId)
      else LastRewriteLanded(before, room)
  }

  /** The room's last rewrite did not lose its clock reading to rounding. */
  ghost predicate LastReadingGood(ops: seq<Op>, room: RoomId) {
    ops != [] ==>
      var before, op := ops[..|ops| - 1], Last(ops);
      if Rewrites(Reach(before), op, room) then GoodReading(PreviousVersion(Reach(before).log[room]), op.now)
      else LastReadingGood(before, room)
  }

  lemma {:induction false} GoodReadingLands(ops: seq<Op>, room: RoomId)
    requires LastReadingGood(ops, room)
    ensures LastRewriteLanded(ops, room)
  {
    if ops != [] && !Rewrites(Reach(ops[..|ops| - 1]), Last(ops), room) {
      GoodReadingLands(ops[..|ops| - 1], room);
    }
  }

  /** What the query finds in a log, compared with the entry committed last. */
  ghost predicate FindsLast(log: Log, landed: bool) {
    log != [] ==>
      && (landed ==> Newest(log) == Last(log))
      && (!landed ==> Newest(log).fingerprint != Last(log).fingerprint)
  }

  lemma AppendFindsLast(log: Log, fp: Fingerprint, now: Nanos, createdAt: Micros, id: nat)
    requires log != [] ==> Newest(log).fingerprint != fp
    ensures FindsLast(Append(log, fp, now, createdAt, id), Lands(log, now, createdAt, id))
  {
    NewestAfterAppend(log, fp, now, createdAt, id);
  }

  /** Over every run the query finds the entry committed last if and only if the last
      rewrite landed, whatever earlier readings were lost; if it did not land, the entry
      found carries another fingerprint. */
  lemma {:induction false} QueryFindsLastIff(ops: seq<Op>, room: RoomId)
    ensures room in Reach(ops).rooms ==> FindsLast(Reach(ops).log[room], LastRewriteLanded(ops, room))
  {
    if room !in Reach(ops).rooms { return; }
    assert ops != [];
    var before, op := ops[..|ops| - 1], Last(ops);
    ReachInv(before);
    LogStep(Reach(before), op, room);
    if Rewrites(Reach(before), op, room) {
      AppendFindsLast(Reach(before).log[room], FingerprintNow(Reach(before), room), op.now, op.createdAt, op.logId);
    } else if room in Reach(before).rooms {
      QueryFindsLastIff(before, room);
    }
  }

  /** Over every run a skip is sound if and only if the room's last rewrite landed. */
  lemma {:induction false} EverySkipIsSoundIff(ops: seq<Op>, room: RoomId)
    requires room in Reach(ops).rooms && Skips(Reach(ops), room)
    ensures Inv(Reach(ops)) && (UpToDate(Reach(ops), room) <==> LastRewriteLanded(ops, room))
  {
    ReachInv(ops);
    QueryFindsLastIff(ops, room);
    SkipIsSoundIff(Reach(ops), room);
  }

  /** After every run one batch leaves the queue up to date unless it skips on an entry that
      hides the last rewrite, and exactly then it does not. */
  lemma {:induction false} BatchConvergesIff(ops: seq<Op>, room: RoomId, now: Nanos, createdAt: Micros, id: nat)
    requires room in Reach(ops).rooms
    ensures var after := RecalculateRoomQueue(Reach(ops), room, now, createdAt, id).db;
            && Inv(after) && room in after.rooms && after.log[room] != []
            && (UpToDate(after, room) <==> (Skips(Reach(ops), room) ==> LastRewriteLanded(ops, room)))
  {
    ReachInv(ops);
    RecalculationConverges(Reach(ops), room, now, createdAt, id, now, createdAt, id);
    if Skips(Reach(ops), room) { EverySkipIsSoundIff(ops, room); }
  }

  // ---------- clients ----------

  lemma PublishedDetermines(e: LogEntry<Fingerprint>, f: LogEntry<Fingerprint>)
    requires Published(e) == Published(f)
    ensures e.fingerprint == f.fingerprint
  {
    var a, b := e.fingerprint.items, f.fingerprint.items;
    assert |Published(e).items| == |Published(f).items|;
    forall i | 0 <= i < |a| ensures a[i] == b[i] {
      assert Published(e).items[i] == Published(f).items[i];
    }
  }

  /** The last message is the only one with its version exactly if `good`, and then its
      version is the largest. */
  ghost predicate StandsOutIff(sent: seq<Versioned<PublicSnapshot>>, good: bool) {
    sent != [] ==>
      && (LastStandsOut(sent) <==> good)
      && (good ==> forall i :: 0 <= i < |sent| - 1 ==> sent[i].version < Last(sent).version)
  }

  lemma AppendStandsOutIff(sent: seq<Versioned<PublicSnapshot>>, log: Log, fp: Fingerprint, now: Nanos,
                           createdAt: Micros, id: nat)
    requires Follows(sent, log) && (log != [] ==> Newest(log).fingerprint != fp)
    ensures var e := Last(Append(log, fp, now, createdAt, id));
            StandsOutIff(sent + [Versioned(Version(e), Published(e))], GoodReading(PreviousVersion(log), now))
  {
    var e := Last(Append(log, fp, now, createdAt, id));
    var last := Versioned(Version(e), Published(e));
    if log != [] {
      var newest := Newest(log);
      StampNeverGoesBack(Version(newest), now);
      StampGrowsIff(Version(newest), now);
      var k :| 0 <= k < |log| && log[k] == newest;
      assert sent[k] in sent + [last];
      if Published(newest) == Published(e) { PublishedDetermines(newest, e); }
      forall m | m in sent ensures m.version <= Version(newest) {
        var i :| 0 <= i < |sent| && sent[i] == m;
        assert !Later(log[i], newest);
      }
    }
  }

  lemma RewriteStandsOutIff(db: Db, op: Op, room: RoomId, sent: seq<Versioned<PublicSnapshot>>)
    requires Inv(db) && Rewrites(db, op, room) && Follows(sent, db.log[room])
    ensures StandsOutIff(sent + MessagesIn(Step(db, op).signals, room),
                         GoodReading(PreviousVersion(db.log[room]), op.now))
  {
    RewriteSends(db, op, room);
    AppendStandsOutIff(sent, db.log[room], FingerprintNow(db, room), op.now, op.createdAt, op.logId);
  }

  lemma {:induction false} QuietEndsNothing(ops: seq<Op>, room: RoomId)
    requires ops != [] && !Rewrites(Reach(ops[..|ops| - 1]), Last(ops), room)
    ensures Messages(ops, room) == Messages(ops[..|ops| - 1], room)
    ensures LastReadingGood(ops, room) == LastReadingGood(ops[..|ops| - 1], room)
  {
    ReachInv(ops[..|ops| - 1]);
    LogStep(Reach(ops[..|ops| - 1]), Last(ops), room);
  }

  /** Over every run the last broadcast snapshot is the only one with its version if and
      only if the room's last rewrite did not lose its reading, and then its version is the
      largest. */
  lemma {:induction false} LastMessageStandsOutIff(ops: seq<Op>, room: RoomId)
    ensures StandsOutIff(Messages(ops, room), LastReadingGood(ops, room))
  {
    if ops == [] { return; }
    var before, op := ops[..|ops| - 1], Last(ops);
    ReachInv(before);
    if Rewrites(Reach(before), op, room) {
      MessagesFollowLog(before, room);
      RewriteStandsOutIff(Reach(before), op, room, Messages(before, room));
    } else {
      QuietEndsNothing(ops, room);
      LastMessageStandsOutIff(before, room);
    }
  }

  /** Over every run: whoever receives the last broadcast snapshot, among any others, in any
      order and any number of times, ends on it if and only if the room's last rewrite did
      not lose its reading. */
  lemma {:induction false} ClientsConvergeIff(ops: seq<Op>, room: RoomId)
    requires Messages(ops, room) != []
    ensures LastReadingGood(ops, room)
            <==> forall delivered :: Delivers(Messages(ops, room), delivered) ==>
                Kept(delivered) == Some(Last(Messages(ops, room)))
  {
    LastMessageStandsOutIff(ops, room);
    ReceiversEndOnLastIff(Messages(ops, room));
  }

  lemma FreshReadIsLast(db: Db, room: RoomId, sent: seq<Versioned<PublicSnapshot>>)
    requires Inv(db) && room in db.rooms && db.log[room] != [] && UpToDate(db, room) && Follows(sent, db.log[room])
    ensures sent != [] && Last(sent).content == Public(SnapshotOf(db, room))
  {
  }

  /** Whenever the next batch would skip and the last rewrite landed, the last broadcast
      snapshot is exactly what a fresh read returns. */
  lemma {:induction false} LastMessageIsFresh(ops: seq<Op>, room: RoomId)
    requires room in Reach(ops).rooms && Skips(Reach(ops), room) && LastRewriteLanded(ops, room)
    ensures Messages(ops, room) != [] && Last(Messages(ops, room)).content == Public(SnapshotOf(Reach(ops), room))
  {
    EverySkipIsSoundIff(ops, room);
    MessagesFollowLog(ops, room);
    FreshReadIsLast(Reach(ops), room, Messages(ops, room));
  }

  /** If the last rewrite did not lose its reading, then whenever the next batch would skip,
      whoever received the last broadcast snapshot, among any others and in any order, shows
      exactly what a fresh read returns. */
  lemma {:induction false} ClientsShowFreshRead(ops: seq<Op>, room: RoomId, delivered: seq<Versioned<PublicSnapshot>>)
    requires room in Reach(ops).rooms && Skips(Reach(ops), room) && LastReadingGood(ops, room)
    requires Messages(ops, room) != [] && Delivers(Messages(ops, room), delivered)
    ensures Kept(delivered).Some? && Kept(delivered).value.content == Public(SnapshotOf(Reach(ops), room))
  {
    GoodReadingLands(ops, room);
    ClientsConvergeIff(ops, room);
    LastMessageIsFresh(ops, room);
  }
}
