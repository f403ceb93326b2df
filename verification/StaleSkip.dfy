/**
 What a lost clock reading leads to: a reachable state in which every further batch
 skips although a queued track is missing from the stored queue.
 */
module StaleSkip {
  import opened Common
  import opened Ranking
  import opened Versions
  import opened Tables
  import opened Invariants
  import opened Operations
  import opened Preservation
  import opened QueueTheorems

  lemma RunGrows(ops: seq<Op>, op: Op)
    ensures Reach(ops + [op]) == Step(Reach(ops), op).db
  {
    assert (ops + [op])[..|ops|] == ops;
  }

  lemma NothingQueued(db: Db, room: RoomId)
    requires Ready(db) && room in db.rooms && QueuedIds(db.tracks, room) == {}
    ensures RankedNow(db, room) == []
  {
    RankedFacts(db, room);
    assert Entries(db.tracks, db.votes, db.sessions, room) == {};
  }

  lemma OneQueued(db: Db, room: RoomId, t: TrackId)
    requires Ready(db) && room in db.rooms && 1 <= db.rooms[room].queueLimit && QueuedIds(db.tracks, room) == {t}
    ensures RankedNow(db, room) == [EntryOf(db.tracks, db.votes, db.sessions, t)]
  {
    RankedFacts(db, room);
    var e := EntryOf(db.tracks, db.votes, db.sessions, t);
    assert Entries(db.tracks, db.votes, db.sessions, room) == {e};
    var ranked := RankedNow(db, room);
    assert |ranked| == 1;
    assert ranked[0].id in QueuedIds(db.tracks, room);
  }

  // ---------- one room, one guest, up to two tracks ----------

  function Song(t: nat, status: TrackStatus): Track {
    Track(0, t, 0, status, 0, 0, t + 1)
  }

  function State(tracks: map<TrackId, Track>, rows: seq<Row>, log: Log, next: nat): Db {
    Db(map[0 := Room(Active, 20, 5, 14400, 10, next)], map[0 := Session(0, "guest", Joined)], tracks, {},
       map[0 := rows], map[0 := log], next, 1)
  }

  function GuestMark(): Mark {
    Mark(0, 0, Some("guest"))
  }

  function First(): LogEntry<Fingerprint> {
    LogEntry(Fingerprint([GuestMark()], None), 5000, 4, 0)
  }

  /** 0.3 microseconds later, by a transaction that had started earlier. */
  function Second(): LogEntry<Fingerprint> {
    LogEntry(Fingerprint([], Some(GuestMark())), 5300, 3, 1)
  }

  lemma NewSong(tracks: map<TrackId, Track>, rows: seq<Row>, log: Log, next: nat)
    requires next !in tracks && |QueuedIds(tracks, 0)| < 20
    requires forall t :: IsActive(tracks, 0, t) ==> tracks[t].catalog != next
    ensures ProposeTrack(State(tracks, rows, log, next), 0, Caller(0, 0, true), next, Some(Active), 0).db
            == State(tracks[next := Song(next, Queued)], rows, log, next + 1)
  {
    var db := State(tracks, rows, log, next);
    assert ActiveDuplicate(db.tracks, 0, next).None?;
  }

  /** A batch whose ranking and playing track are known. */
  lemma Batch(db: Db, ranked: seq<Entry>, playing: Option<Mark>, rows: seq<Row>, now: Nanos, createdAt: Micros,
              id: nat, entry: LogEntry<Fingerprint>)
    requires Ready(db) && 0 in db.rooms
    requires RankedNow(db, 0) == ranked && PlayingOf(db.tracks, db.sessions, 0) == playing
    requires Scored(db.tracks, 0, ScoresOf(ranked)) == db.tracks
    requires db.log[0] == [] || Newest(db.log[0]).fingerprint != Fingerprint(MarksOf(ranked), playing)
    requires entry == LogEntry(Fingerprint(MarksOf(ranked), playing), NextStamp(PreviousVersion(db.log[0]), now),
                               createdAt, id)
    requires rows == RowsOf(ranked, entry.updatedAt)
    ensures RecalculateRoomQueue(db, 0, now, createdAt, id).db
            == db.(queue := db.queue[0 := rows], log := db.log[0 := db.log[0] + [entry]])
  {
    RecalculationUnfolds(db, 0, now, createdAt, id);
  }

  function SongEntry(): Entry {
    Entry(0, 0, 1, Some("guest"))
  }

  lemma SongScores(tracks: map<TrackId, Track>)
    requires 0 in tracks && tracks[0] == Song(0, Queued) && QueuedIds(tracks, 0) == {0}
    ensures Scored(tracks, 0, ScoresOf([SongEntry()])) == tracks
  {
    var ranked := [SongEntry()];
    assert ScoresOf(ranked[..0]) == map[] && ScoresOf(ranked) == map[0 := 0];
    assert forall t :: IsQueued(tracks, 0, t) ==> t in QueuedIds(tracks, 0);
  }

  lemma EntryOfSong(db: Db)
    requires db == State(map[0 := Song(0, Queued)], [], [], 1)
    ensures QueuedIds(db.tracks, 0) == {0} && EntryOf(db.tracks, db.votes, db.sessions, 0) == SongEntry()
  {
    assert VotesOn({}, 0) == {};
  }

  lemma SongRanked(db: Db)
    requires db == State(map[0 := Song(0, Queued)], [], [], 1) && Ready(db)
    ensures RankedNow(db, 0) == [SongEntry()]
  {
    EntryOfSong(db);
    OneQueued(db, 0, 0);
  }

  lemma FirstBatchReads(db: Db)
    requires db == State(map[0 := Song(0, Queued)], [], [], 1) && Ready(db)
    ensures RankedNow(db, 0) == [SongEntry()] && PlayingOf(db.tracks, db.sessions, 0) == None
    ensures Scored(db.tracks, 0, ScoresOf([SongEntry()])) == db.tracks
  {
    SongRanked(db);
    assert QueuedIds(db.tracks, 0) == {0};
    SongScores(db.tracks);
  }

  lemma FirstBatch(db: Db)
    requires db == State(map[0 := Song(0, Queued)], [], [], 1) && Ready(db)
    ensures RecalculateRoomQueue(db, 0, 5000, 4, 0).db
            == State(map[0 := Song(0, Queued)], [Row(0, 1, 0, 0, 1, 5000)], [First()], 1)
  {
    FirstBatchReads(db);
    assert MarksOf([SongEntry()]) == [GuestMark()];
    assert RowsOf([SongEntry()], 5000) == [Row(0, 1, 0, 0, 1, 5000)];
    assert [] + [First()] == [First()];
    Batch(db, [SongEntry()], None, [Row(0, 1, 0, 0, 1, 5000)], 5000, 4, 0, First());
  }

  lemma SecondBatch(db: Db)
    requires db == State(map[0 := Song(0, Playing)], [Row(0, 1, 0, 0, 1, 5000)], [First()], 1) && Ready(db)
    ensures RecalculateRoomQueue(db, 0, 5300, 3, 1).db
            == State(map[0 := Song(0, Playing)], [], [First(), Second()], 1)
  {
    assert QueuedIds(db.tracks, 0) == {};
    NothingQueued(db, 0);
    assert IsPlaying(db.tracks, 0, 0);
    assert PlayingOf(db.tracks, db.sessions, 0) == Some(GuestMark());
    assert MarksOf([]) == [] && RowsOf([], 5300) == [] && ScoresOf([]) == map[];
    assert Scored(db.tracks, 0, map[]) == db.tracks;
    assert [First()] + [Second()] == [First(), Second()];
    Batch(db, [], Some(GuestMark()), [], 5300, 3, 1, Second());
  }

  // ---------- the run ----------

  /** `P` holds of the empty tables and is kept by every step, so it holds of every
      reachable state. */
  ghost predicate Closed(P: Db -> bool) {
    P(EmptyDb) && forall db, op :: Ready(db) && P(db) ==> P(Step(db, op).db)
  }

  lemma Taken(P: Db -> bool, db: Db, op: Op, after: Db)
    requires Closed(P) && Ready(db) && P(db) && Step(db, op).db == after
    ensures P(after)
  {
  }

  function ActiveRoom(): Settings {
    Settings(Some(Active), None, None, None, None)
  }

  function WithRoom(): Db {
    Db(map[0 := Room(Active, 20, 5, 14400, 10, 0)], map[], map[], {}, map[0 := []], map[0 := []], 0, 0)
  }

  lemma ReachRoom(P: Db -> bool)
    requires Closed(P)
    ensures P(WithRoom())
  {
    assert CreateRoom(EmptyDb, 0, "bar", ActiveRoom()).db == WithRoom();
    Taken(P, EmptyDb, OpCreateRoom(0, "bar", ActiveRoom()), WithRoom());
  }

  lemma ReachGuest(P: Db -> bool)
    requires Closed(P)
    ensures P(State(map[], [], [], 0))
  {
    ReachRoom(P);
    assert Join(WithRoom(), Some(0), Some(0), None, "guest").db == State(map[], [], [], 0);
    Taken(P, WithRoom(), OpJoin(Some(0), Some(0), None, "guest"), State(map[], [], [], 0));
  }

  lemma ReachProposal(P: Db -> bool)
    requires Closed(P)
    ensures P(State(map[0 := Song(0, Queued)], [], [], 1))
  {
    ReachGuest(P);
    NewSong(map[], [], [], 0);
    Taken(P, State(map[], [], [], 0), OpPropose(0, Caller(0, 0, true), 0, Some(Active), 0),
          State(map[0 := Song(0, Queued)], [], [], 1));
  }

  lemma ReachFirstBatch(P: Db -> bool)
    requires Closed(P)
    ensures P(State(map[0 := Song(0, Queued)], [Row(0, 1, 0, 0, 1, 5000)], [First()], 1))
  {
    ReachProposal(P);
    var proposed := State(map[0 := Song(0, Queued)], [], [], 1);
    FirstBatch(proposed);
    Taken(P, proposed, OpRecalculate(0, 5000, 4, 0),
          State(map[0 := Song(0, Queued)], [Row(0, 1, 0, 0, 1, 5000)], [First()], 1));
  }

  lemma ReachPlaying(P: Db -> bool)
    requires Closed(P)
    ensures P(State(map[0 := Song(0, Playing)], [Row(0, 1, 0, 0, 1, 5000)], [First()], 1))
  {
    ReachFirstBatch(P);
    var listed := State(map[0 := Song(0, Queued)], [Row(0, 1, 0, 0, 1, 5000)], [First()], 1);
    Taken(P, listed, OpPlay(0, 0), State(map[0 := Song(0, Playing)], [Row(0, 1, 0, 0, 1, 5000)], [First()], 1));
  }

  lemma ReachSecondBatch(P: Db -> bool)
    requires Closed(P)
    ensures P(State(map[0 := Song(0, Playing)], [], [First(), Second()], 1))
  {
    ReachPlaying(P);
    var playing := State(map[0 := Song(0, Playing)], [Row(0, 1, 0, 0, 1, 5000)], [First()], 1);
    SecondBatch(playing);
    Taken(P, playing, OpRecalculate(0, 5300, 3, 1), State(map[0 := Song(0, Playing)], [], [First(), Second()], 1));
  }

  lemma ReachSecondSong(P: Db -> bool)
    requires Closed(P)
    ensures P(State(map[0 := Song(0, Playing), 1 := Song(1, Queued)], [], [First(), Second()], 2))
  {
    ReachSecondBatch(P);
    var tracks := map[0 := Song(0, Playing)];
    assert QueuedIds(tracks, 0) == {};
    NewSong(tracks, [], [First(), Second()], 1);
    assert tracks[1 := Song(1, Queued)] == map[0 := Song(0, Playing), 1 := Song(1, Queued)];
    Taken(P, State(tracks, [], [First(), Second()], 1), OpPropose(0, Caller(0, 0, true), 1, Some(Active), 0),
          State(map[0 := Song(0, Playing), 1 := Song(1, Queued)], [], [First(), Second()], 2));
  }

  lemma SwapPlaying()
    ensures var before := State(map[0 := Song(0, Playing), 1 := Song(1, Queued)], [], [First(), Second()], 2);
            SetTrackPlaying(before, 0, 1).db
            == State(map[0 := Song(0, Queued), 1 := Song(1, Playing)], [], [First(), Second()], 2)
  {
    var demoted := Demoted(map[0 := Song(0, Playing), 1 := Song(1, Queued)], 0);
    assert demoted == map[0 := Song(0, Queued), 1 := Song(1, Queued)];
    assert demoted[1 := Song(1, Playing)] == map[0 := Song(0, Queued), 1 := Song(1, Playing)];
  }

  lemma ReachSwap(P: Db -> bool)
    requires Closed(P)
    ensures P(State(map[0 := Song(0, Queued), 1 := Song(1, Playing)], [], [First(), Second()], 2))
  {
    ReachSecondSong(P);
    SwapPlaying();
    var before := State(map[0 := Song(0, Playing), 1 := Song(1, Queued)], [], [First(), Second()], 2);
    assert Ready(before);
    Taken(P, before, OpPlay(0, 1), SetTrackPlaying(before, 0, 1).db);
  }

  function Stuck(): Db {
    State(map[0 := Song(0, Queued), 1 := Song(1, Skipped)], [], [First(), Second()], 2)
  }

  lemma SkipTheSecond()
    ensures var before := State(map[0 := Song(0, Queued), 1 := Song(1, Playing)], [], [First(), Second()], 2);
            SetTrackStatus(before, 0, 1, Skipped).db == Stuck()
  {
    assert map[0 := Song(0, Queued), 1 := Song(1, Playing)][1 := Song(1, Skipped)] == Stuck().tracks;
  }

  lemma StuckIsInEveryClosedSet(P: Db -> bool)
    requires Closed(P)
    ensures P(Stuck())
  {
    ReachSwap(P);
    SkipTheSecond();
    var before := State(map[0 := Song(0, Queued), 1 := Song(1, Playing)], [], [First(), Second()], 2);
    assert Ready(before);
    Taken(P, before, OpEnd(0, 1, true), SetTrackStatus(before, 0, 1, Skipped).db);
  }

  ghost predicate EndsIn(ops: seq<Op>, db: Db) {
    db == Reach(ops)
  }

  ghost predicate Reachable(db: Db) {
    exists ops :: EndsIn(ops, db)
  }

  lemma EndsInNext(ops: seq<Op>, db: Db, op: Op)
    requires Ready(db) && EndsIn(ops, db)
    ensures EndsIn(ops + [op], Step(db, op).db)
  {
    RunGrows(ops, op);
  }

  lemma Witnessed(ops: seq<Op>, db: Db)
    requires EndsIn(ops, db)
    ensures Reachable(db)
  {
  }

  lemma StuckIsReachable()
    ensures Reachable(Stuck())
  {
    Witnessed([], EmptyDb);
    forall db, op, ops | Ready(db) && EndsIn(ops, db) ensures Reachable(Step(db, op).db) {
      EndsInNext(ops, db, op);
      Witnessed(ops + [op], Step(db, op).db);
    }
    StuckIsInEveryClosedSet(Reachable);
  }

  lemma StuckKeepsInv()
    ensures Inv(Stuck())
  {
    StuckIsReachable();
    var ops :| EndsIn(ops, Stuck());
    ReachInv(ops);
  }

  lemma StuckSkips()
    ensures Ready(Stuck())
    ensures QueuedIds(Stuck().tracks, 0) == {0}
    ensures Skips(Stuck(), 0)
    ensures FingerprintNow(Stuck(), 0) == First().fingerprint
  {
    var db := Stuck();
    assert QueuedIds(db.tracks, 0) == {0};
    OneQueued(db, 0, 0);
    assert VotesOn({}, 0) == {};
    assert MarksOf([SongEntry()]) == [GuestMark()];
    assert [First(), Second()][..1] == [First()];
    assert Newest([First(), Second()]) == First();
  }

  /** Two recalculations 0.3 microseconds apart, the second by the transaction that had
      started first: the state is reachable, the room has a queued track, readers see an
      empty queue, and every later batch skips. */
  lemma {:induction false} LostReadingHidesAQueuedTrack(now: Nanos, createdAt: Micros, id: nat)
    ensures Reachable(Stuck()) && Inv(Stuck())
    ensures QueuedIds(Stuck().tracks, 0) == {0} && SnapshotOf(Stuck(), 0).items == []
    ensures RecalculateRoomQueue(Stuck(), 0, now, createdAt, id) == Out(Stuck(), Ok(false), [])
    ensures !UpToDate(Stuck(), 0)
  {
    StuckIsReachable();
    StuckKeepsInv();
    StuckSkips();
    SkipIsSoundIff(Stuck(), 0);
    RecalculationUnfolds(Stuck(), 0, now, createdAt, id);
  }
}
