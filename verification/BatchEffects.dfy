/**
 What a read shows, when a batch skips and what one that writes leaves, read off the rows of
 the tables; and when the next batch sees a vote.
 */
module BatchEffects {
  import opened Common
  import opened Ranking
  import opened Versions
  import opened Tables
  import opened Invariants
  import opened Operations
  import opened Preservation
  import opened QueueTheorems
  import opened Effects

  // ---------- the playing track ----------

  /** A track with its votes and the name its proposer's session has. */
  predicate Describes(db: Db, m: Mark, t: TrackId)
    requires t in db.tracks
  {
    && m.id == t && m.votes == VoteCount(db, t)
    && db.tracks[t].proposer in db.sessions && m.proposer == Some(db.sessions[db.tracks[t].proposer].nickname)
  }

  /** `playing` is the room's playing track, if one plays. */
  ghost predicate ShowsPlaying(db: Db, room: RoomId, playing: Option<Mark>) {
    && (playing.None? <==> forall t :: !Plays(db, t, room))
    && (forall t :: Plays(db, t, room) ==> playing.Some? && Describes(db, playing.value, t))
  }

  lemma {:induction false} PlayingIsShown(db: Db, room: RoomId)
    requires References(db) && VoteCounts(db) && OnePlaying(db.tracks)
    ensures ShowsPlaying(db, room, PlayingOf(db.tracks, db.sessions, room))
  {
    forall t | Plays(db, t, room)
      ensures PlayingOf(db.tracks, db.sessions, room).Some?
      ensures Describes(db, PlayingOf(db.tracks, db.sessions, room).value, t)
    {
      assert IsPlaying(db.tracks, room, t);
      assert VotesOn(db.votes, t) == set v | v in db.votes && v.track == t;
    }
    var p := NowPlaying(db.tracks, room);
    if p.Some? { assert Plays(db, p.value, room); }
  }

  // ---------- what a read shows ----------

  /** `kept` are the places in the ranking logged last whose tracks still wait. */
  ghost predicate StillWaiting(db: Db, logged: seq<Mark>, kept: seq<nat>) {
    && (forall i, j :: 0 <= i < j < |kept| ==> kept[i] < kept[j])
    && (forall p: nat :: p in kept <==>
          p < |logged| && logged[p].id in db.tracks && db.tracks[logged[p].id].status == Queued)
  }

  /** How the `i`th item is shown. */
  predicate ShowsItem(db: Db, item: Item, i: nat, m: Mark, at: Nanos) {
    && item.position == i + 1 && item.id == m.id && item.votes == m.votes && item.score == m.votes
    && m.id in db.tracks && item.fifo == db.tracks[m.id].fifo
    && db.tracks[m.id].proposer in db.sessions
    && item.proposer == Some(db.sessions[db.tracks[m.id].proposer].nickname)
    && item.recalculatedAt == at
  }

  /** The version of a read: the largest that was logged, if any was. */
  predicate ShowsVersion(log: Log, updatedAt: Option<Micros>) {
    && (updatedAt.None? <==> log == [])
    && (forall e :: e in log ==> updatedAt.Some? && RoundMicros(e.updatedAt) <= updatedAt.value)
    && (updatedAt.Some? ==> exists e :: e in log && RoundMicros(e.updatedAt) == updatedAt.value)
  }

  lemma {:induction false} VersionIsShown(log: Log)
    ensures ShowsVersion(log, PreviousVersion(log))
  {
    if log != [] {
      var e := Newest(log);
      forall x | x in log ensures RoundMicros(x.updatedAt) <= Version(e) { assert !Later(x, e); }
    }
  }

  lemma {:induction false} KeptStillWait(db: Db, logged: seq<Mark>)
    ensures StillWaiting(db, logged, StillQueued(logged, 0, db.tracks))
  {
    StillQueuedAscends(logged, 0, db.tracks);
  }

  /** A read shows, of the ranking logged last, the tracks that still wait, in its order and
      with its votes, at the positions 1 to n; the playing track with its votes now; and the
      largest version. */
  lemma {:induction false} ReadShows(db: Db, room: RoomId) returns (kept: seq<nat>)
    requires Inv(db) && room in db.rooms
    ensures var s := SnapshotOf(db, room);
            && ShowsPlaying(db, room, s.playing)
            && ShowsVersion(db.log[room], s.updatedAt)
            && (db.log[room] == [] ==> s.items == [])
            && (db.log[room] != [] ==>
                  var e := Last(db.log[room]);
                  && StillWaiting(db, e.fingerprint.items, kept)
                  && |s.items| == |kept|
                  && (forall i :: 0 <= i < |kept| ==>
                        && kept[i] < |e.fingerprint.items|
                        && ShowsItem(db, s.items[i], i, e.fingerprint.items[kept[i]], e.updatedAt)))
  {
    kept := [];
    PlayingIsShown(db, room);
    VersionIsShown(db.log[room]);
    if db.log[room] != [] {
      var e := Last(db.log[room]);
      kept := StillQueued(e.fingerprint.items, 0, db.tracks);
      KeptStillWait(db, e.fingerprint.items);
      ItemsOfLoggedRows(e.fingerprint.items, 0, e.updatedAt, db.tracks, db.sessions, 0);
    }
  }

  /** Clients can tell two reads apart exactly by the items' position, track, score, votes and
      proposer, the playing track and the version. */
  lemma {:induction false} ClientsSee(a: Snapshot, b: Snapshot)
    ensures Public(a) == Public(b) <==>
              && a.playing == b.playing && a.updatedAt == b.updatedAt && |a.items| == |b.items|
              && (forall i :: 0 <= i < |a.items| ==>
                    && a.items[i].position == b.items[i].position && a.items[i].id == b.items[i].id
                    && a.items[i].score == b.items[i].score && a.items[i].votes == b.items[i].votes
                    && a.items[i].proposer == b.items[i].proposer)
  {
    var x, y := Public(a).items, Public(b).items;
    if x == y {
      assert |x| == |a.items| && |y| == |b.items|;
      forall i | 0 <= i < |a.items| ensures PublicItemOf(a.items[i]) == PublicItemOf(b.items[i]) {
        assert x[i] == y[i];
      }
    } else if |a.items| == |b.items| {
      var i :| 0 <= i < |a.items| && x[i] != y[i];
    }
  }

  // ---------- the best waiting tracks ----------

  /** More votes, or as many and an earlier FIFO number. */
  predicate Before(db: Db, t: TrackId, u: TrackId) {
    && t in db.tracks && u in db.tracks
    && (|| VoteCount(db, t) > VoteCount(db, u)
        || (VoteCount(db, t) == VoteCount(db, u) && db.tracks[t].fifo < db.tracks[u].fifo))
  }

  /** The room's waiting tracks in order, as many as the room allows, the best ones first. */
  ghost predicate Best(db: Db, room: RoomId, ids: seq<TrackId>) {
    && room in db.rooms
    && (forall i :: 0 <= i < |ids| ==> Waits(db, ids[i], room))
    && (forall i, j :: 0 <= i < j < |ids| ==> Before(db, ids[i], ids[j]))
    && |ids| == (if WaitCount(db, room) < db.rooms[room].queueLimit then WaitCount(db, room)
                 else db.rooms[room].queueLimit)
    && (forall t, u :: t in ids && Waits(db, u, room) && u !in ids ==> Before(db, t, u))
  }

  function IdsOf(marks: seq<Mark>): seq<TrackId> {
    seq(|marks|, i requires 0 <= i < |marks| => marks[i].id)
  }

  /** The marks are those of the best waiting tracks. */
  ghost predicate ListsBest(db: Db, room: RoomId, marks: seq<Mark>) {
    && Best(db, room, IdsOf(marks))
    && (forall i :: 0 <= i < |marks| ==> marks[i].id in db.tracks && Describes(db, marks[i], marks[i].id))
  }

  lemma {:induction false} EntryOfWaiting(db: Db, t: TrackId)
    requires References(db) && t in db.tracks
    ensures var e := EntryOf(db.tracks, db.votes, db.sessions, t);
            && e.id == t && e.votes == VoteCount(db, t) && e.fifo == db.tracks[t].fifo
            && Describes(db, MarkOf(e), t)
  {
    assert VotesOn(db.votes, t) == set v | v in db.votes && v.track == t;
  }

  lemma {:induction false} AheadIsBefore(db: Db, t: TrackId, u: TrackId)
    requires t in db.tracks && u in db.tracks
    ensures Ahead(EntryOf(db.tracks, db.votes, db.sessions, t), EntryOf(db.tracks, db.votes, db.sessions, u))
            <==> Before(db, t, u)
  {
    assert VotesOn(db.votes, t) == set v | v in db.votes && v.track == t;
    assert VotesOn(db.votes, u) == set v | v in db.votes && v.track == u;
  }

  lemma {:induction false} SameSize<T, U>(f: map<T, U>)
    requires forall x, y :: x in f && y in f && f[x] == f[y] ==> x == y
    ensures |f.Keys| == |f.Values|
    decreases |f.Keys|
  {
    if f.Keys == {} {
      assert f.Values == {};
    } else {
      var x :| x in f.Keys;
      var rest := f - {x};
      SameSize(rest);
      assert f.Keys == rest.Keys + {x};
      assert f.Values == rest.Values + {f[x]};
    }
  }

  /** There are as many entries as waiting tracks. */
  lemma {:induction false} EntryCount(db: Db, ids: set<TrackId>)
    requires forall t :: t in ids ==> t in db.tracks
    ensures |set t | t in ids :: EntryOf(db.tracks, db.votes, db.sessions, t)| == |ids|
  {
    var f := map t | t in ids :: EntryOf(db.tracks, db.votes, db.sessions, t);
    SameSize(f);
    assert f.Keys == ids;
    assert f.Values == set t | t in ids :: EntryOf(db.tracks, db.votes, db.sessions, t);
  }

  lemma {:induction false} WaitingEntries(db: Db, room: RoomId)
    ensures QueuedIds(db.tracks, room) == set t | t in db.tracks && Waits(db, t, room)
    ensures |Entries(db.tracks, db.votes, db.sessions, room)| == WaitCount(db, room)
  {
    assert QueuedIds(db.tracks, room) == set t | t in db.tracks && Waits(db, t, room);
    EntryCount(db, QueuedIds(db.tracks, room));
  }

  function EntriesOf(db: Db, ids: seq<TrackId>): seq<Entry>
    requires forall i :: 0 <= i < |ids| ==> ids[i] in db.tracks
  {
    seq(|ids|, i requires 0 <= i < |ids| => EntryOf(db.tracks, db.votes, db.sessions, ids[i]))
  }

  lemma {:induction false} BestEntriesListed(db: Db, room: RoomId, ids: seq<TrackId>)
    requires Best(db, room, ids)
    ensures Sorted(EntriesOf(db, ids))
    ensures Elements(EntriesOf(db, ids)) <= Entries(db.tracks, db.votes, db.sessions, room)
  {
    var s := EntriesOf(db, ids);
    forall i, j | 0 <= i < j < |s| ensures Ahead(s[i], s[j]) { AheadIsBefore(db, ids[i], ids[j]); }
    forall x | x in Elements(s) ensures x in Entries(db.tracks, db.votes, db.sessions, room) {
      var i :| 0 <= i < |s| && s[i] == x;
      assert ids[i] in QueuedIds(db.tracks, room);
    }
  }

  lemma {:induction false} BestEntriesAhead(db: Db, room: RoomId, ids: seq<TrackId>, x: Entry, y: Entry)
    requires Best(db, room, ids) && x in EntriesOf(db, ids)
    requires y in Entries(db.tracks, db.votes, db.sessions, room) && y !in EntriesOf(db, ids)
    ensures Ahead(x, y)
  {
    var s := EntriesOf(db, ids);
    var i :| 0 <= i < |s| && s[i] == x;
    var u :| u in QueuedIds(db.tracks, room) && y == EntryOf(db.tracks, db.votes, db.sessions, u);
    forall k | 0 <= k < |ids| ensures ids[k] != u { assert s[k] in s; }
    assert ids[i] in ids;
    AheadIsBefore(db, ids[i], u);
  }

  /** The entries of the best waiting tracks are the ranking the batch computes. */
  lemma {:induction false} BestIsRanked(db: Db, room: RoomId, ids: seq<TrackId>)
    requires Ready(db) && Best(db, room, ids)
    ensures EntriesOf(db, ids) == RankedNow(db, room)
  {
    var s, es := EntriesOf(db, ids), Entries(db.tracks, db.votes, db.sessions, room);
    FifoOrderIsDistinct(db, room);
    EntriesDistinct(db.tracks, db.votes, db.sessions, room);
    WaitingEntries(db, room);
    BestEntriesListed(db, room, ids);
    forall x, y | x in s && y in es && y !in s ensures Ahead(x, y) { BestEntriesAhead(db, room, ids, x, y); }
    TopKUnique(s, es, db.rooms[room].queueLimit);
  }

  /** There is one listing of the best waiting tracks. */
  lemma {:induction false} BestUnique(db: Db, room: RoomId, ids: seq<TrackId>, others: seq<TrackId>)
    requires Ready(db) && Best(db, room, ids) && Best(db, room, others)
    ensures ids == others
  {
    BestIsRanked(db, room, ids);
    BestIsRanked(db, room, others);
    assert |EntriesOf(db, ids)| == |EntriesOf(db, others)|;
    forall i | 0 <= i < |ids| ensures ids[i] == others[i] {
      assert EntriesOf(db, ids)[i].id == EntriesOf(db, others)[i].id;
    }
  }

  /** What the batch ranks are the best waiting tracks. */
  lemma {:induction false} RankedIsBest(db: Db, room: RoomId)
    requires Ready(db) && References(db) && room in db.rooms
    ensures ListsBest(db, room, MarksOf(RankedNow(db, room)))
  {
    var s, es := RankedNow(db, room), Entries(db.tracks, db.votes, db.sessions, room);
    var ids := IdsOf(MarksOf(s));
    FifoOrderIsDistinct(db, room);
    EntriesDistinct(db.tracks, db.votes, db.sessions, room);
    TopKHolds(es, db.rooms[room].queueLimit);
    WaitingEntries(db, room);
    RankedFacts(db, room);
    forall i | 0 <= i < |ids| ensures Waits(db, ids[i], room) && Describes(db, MarksOf(s)[i], ids[i]) {
      EntryOfWaiting(db, ids[i]);
    }
    forall i, j | 0 <= i < j < |ids| ensures Before(db, ids[i], ids[j]) {
      AheadIsBefore(db, ids[i], ids[j]);
    }
    forall t, u | t in ids && Waits(db, u, room) && u !in ids ensures Before(db, t, u) {
      var i :| 0 <= i < |ids| && ids[i] == t;
      var e := EntryOf(db.tracks, db.votes, db.sessions, u);
      assert u in QueuedIds(db.tracks, room) && e in es;
      forall k | 0 <= k < |s| ensures s[k] != e { assert ids[k] in ids; }
      assert s[i] in s;
      AheadIsBefore(db, t, u);
    }
  }

  // ---------- the batch ----------

  /** The fingerprint describes the tables as they are: the best waiting tracks in order and
      the playing track, each with its votes and the name of its proposer. */
  ghost predicate DescribesNow(db: Db, room: RoomId, fp: Fingerprint) {
    ListsBest(db, room, fp.items) && ShowsPlaying(db, room, fp.playing)
  }

  lemma {:induction false} MarksAreRanked(db: Db, room: RoomId, marks: seq<Mark>)
    requires Ready(db) && References(db) && ListsBest(db, room, marks)
    ensures marks == MarksOf(RankedNow(db, room))
  {
    BestIsRanked(db, room, IdsOf(marks));
    forall i | 0 <= i < |marks| ensures marks[i] == MarkOf(RankedNow(db, room)[i]) {
      EntryOfWaiting(db, marks[i].id);
      assert EntriesOf(db, IdsOf(marks))[i] == EntryOf(db.tracks, db.votes, db.sessions, marks[i].id);
    }
  }

  lemma {:induction false} OnePlayingShown(db: Db, room: RoomId, p: Option<Mark>, q: Option<Mark>)
    requires ShowsPlaying(db, room, p) && ShowsPlaying(db, room, q)
    ensures p == q
  {
    if t :| Plays(db, t, room) {
      assert Describes(db, p.value, t) && Describes(db, q.value, t);
    }
  }

  lemma {:induction false} FingerprintIs(db: Db, room: RoomId, fp: Fingerprint)
    requires Inv(db) && room in db.rooms
    ensures fp == FingerprintNow(db, room) <==> DescribesNow(db, room, fp)
  {
    RankedIsBest(db, room);
    PlayingIsShown(db, room);
    if DescribesNow(db, room, fp) {
      MarksAreRanked(db, room, fp.items);
      OnePlayingShown(db, room, fp.playing, PlayingOf(db.tracks, db.sessions, room));
    }
  }

  /** A batch skips exactly if the newest log entry describes the tables as they are. */
  lemma {:induction false} SkipMeans(db: Db, room: RoomId)
    requires Inv(db) && room in db.rooms
    ensures Skips(db, room)
            <==> db.log[room] != [] && DescribesNow(db, room, Newest(db.log[room]).fingerprint)
  {
    if db.log[room] != [] { FingerprintIs(db, room, Newest(db.log[room]).fingerprint); }
  }

  /** The stamp: the reading, or one microsecond past the largest version when the reading is
      not after that. */
  ghost predicate StampedAt(log: Log, now: Nanos, at: Nanos) {
    && (log == [] ==> at == now)
    && (forall v: Micros :: ShowsVersion(log, Some(v)) ==> at == if now > 1000 * v then now else 1000 * v + 1000)
  }

  lemma {:induction false} StampIs(log: Log, now: Nanos)
    ensures StampedAt(log, now, NextStamp(PreviousVersion(log), now))
  {
    VersionIsShown(log);
    forall v: Micros | ShowsVersion(log, Some(v)) ensures PreviousVersion(log) == Some(v) {
      var e :| e in log && RoundMicros(e.updatedAt) == v;
      var f :| f in log && RoundMicros(f.updatedAt) == PreviousVersion(log).value;
    }
  }

  /** The rows of the ranking: positions 1 to n, votes as score. */
  ghost predicate RowsList(db: Db, rows: seq<Row>, marks: seq<Mark>, at: Nanos) {
    && |rows| == |marks|
    && (forall i :: 0 <= i < |rows| ==>
          && marks[i].id in db.tracks
          && rows[i] == Row(marks[i].id, i + 1, marks[i].votes, marks[i].votes, db.tracks[marks[i].id].fifo, at))
  }

  /** Listed tracks have their votes as score, other waiting tracks of the room none, and
      nothing else about the tracks changes. */
  ghost predicate ScoresSet(db: Db, room: RoomId, marks: seq<Mark>, after: map<TrackId, Track>) {
    && after.Keys == db.tracks.Keys
    && (forall t :: t in db.tracks ==>
          after[t] == db.tracks[t].(scoreCached := if t in IdsOf(marks) then VoteCount(db, t)
                                                   else if Waits(db, t, room) then 0
                                                   else db.tracks[t].scoreCached))
  }

  /** What a batch that writes leaves. */
  ghost predicate Writes(db: Db, room: RoomId, now: Nanos, createdAt: Micros, id: nat, after: Db) {
    && room in db.log && room in after.queue && room in after.log && after.log[room] != []
    && var e := Last(after.log[room]);
       && StampedAt(db.log[room], now, e.updatedAt) && e.createdAt == createdAt && e.id == id
       && DescribesNow(db, room, e.fingerprint)
       && RowsList(db, after.queue[room], e.fingerprint.items, e.updatedAt)
       && ScoresSet(db, room, e.fingerprint.items, after.tracks)
       && after == db.(queue := db.queue[room := after.queue[room]], tracks := after.tracks,
                       log := db.log[room := db.log[room] + [e]])
  }

  lemma {:induction false} ListedScore(db: Db, room: RoomId, t: TrackId)
    requires Inv(db) && room in db.rooms
    ensures var scores, ids := ScoresOf(RankedNow(db, room)), IdsOf(MarksOf(RankedNow(db, room)));
            (t in scores <==> t in ids) && (t in ids ==> t in db.tracks && scores[t] == VoteCount(db, t))
  {
    var ranked := RankedNow(db, room);
    var ids := IdsOf(MarksOf(ranked));
    RankedFacts(db, room);
    if t in ids {
      var i :| 0 <= i < |ids| && ids[i] == t;
      assert ranked[i] in ranked;
      ScoresOfIndexed(ranked, i);
      EntryOfWaiting(db, t);
    }
    if t in ScoresOf(ranked) {
      var x :| x in ranked && x.id == t;
      var i :| 0 <= i < |ranked| && ranked[i] == x;
      assert ids[i] == t;
    }
  }

  lemma {:induction false} ScoresAreSet(db: Db, room: RoomId)
    requires Inv(db) && room in db.rooms
    ensures ScoresSet(db, room, MarksOf(RankedNow(db, room)), Scored(db.tracks, room, ScoresOf(RankedNow(db, room))))
  {
    forall t | t in db.tracks
      ensures var scores, ids := ScoresOf(RankedNow(db, room)), IdsOf(MarksOf(RankedNow(db, room)));
              (t in scores <==> t in ids) && (t in ids ==> scores[t] == VoteCount(db, t))
    {
      ListedScore(db, room, t);
    }
  }

  lemma {:induction false} RankedRows(db: Db, room: RoomId, at: Nanos)
    requires Inv(db) && room in db.rooms
    ensures RowsList(db, RowsOf(RankedNow(db, room), at), MarksOf(RankedNow(db, room)), at)
  {
    RankedFacts(db, room);
  }

  /** A batch refuses an unknown room; does nothing if the newest log entry describes the
      tables as they are; and otherwise writes rows, scores and a log entry that describe
      them, and broadcasts what a read then shows. */
  lemma {:induction false} RecalculateEffect(db: Db, room: RoomId, now: Nanos, createdAt: Micros, id: nat)
    requires Inv(db)
    ensures var o := RecalculateRoomQueue(db, room, now, createdAt, id);
            if room !in db.rooms then
              o == Out(db, Fail(RoomNotFound), [])
            else if db.log[room] != [] && DescribesNow(db, room, Newest(db.log[room]).fingerprint) then
              o == Out(db, Ok(false), [])
            else
              && o.result == Ok(true) && Writes(db, room, now, createdAt, id, o.db)
              && o.signals == [QueueUpdated(room, SnapshotOf(o.db, room))]
  {
    if room in db.rooms {
      SkipMeans(db, room);
      RecalculationUnfolds(db, room, now, createdAt, id);
      if !Skips(db, room) {
        var at := NextStamp(PreviousVersion(db.log[room]), now);
        FingerprintIs(db, room, FingerprintNow(db, room));
        StampIs(db.log[room], now);
        ScoresAreSet(db, room);
        RankedRows(db, room, at);
      }
    }
  }

  // ---------- votes and the next batch ----------

  /** `b` are the tables after one more vote for `t`. */
  ghost predicate OneMoreVote(a: Db, b: Db, t: TrackId) {
    && t in a.tracks && a.rooms == b.rooms && a.sessions == b.sessions && a.log == b.log
    && a.tracks.Keys == b.tracks.Keys
    && (forall u :: u in a.tracks ==>
          && a.tracks[u].room == b.tracks[u].room && a.tracks[u].status == b.tracks[u].status
          && a.tracks[u].fifo == b.tracks[u].fifo && a.tracks[u].proposer == b.tracks[u].proposer
          && VoteCount(b, u) == VoteCount(a, u) + if u == t then 1 else 0)
  }

  lemma {:induction false} CountAfterVote(votes: set<Vote>, v: Vote, t: TrackId)
    requires v !in votes
    ensures |set w | w in votes + {v} && w.track == t|
            == |set w | w in votes && w.track == t| + if v.track == t then 1 else 0
  {
    VotesAfterInsert(votes, v, t);
    assert VotesOn(votes, t) == set w | w in votes && w.track == t;
    assert VotesOn(votes + {v}, t) == set w | w in votes + {v} && w.track == t;
  }

  lemma {:induction false} AcceptedVoteIsOneMore(db: Db, room: RoomId, s: SessionId, t: TrackId)
    requires VoteCounts(db) && AddVote(db, room, s, t).result.Ok?
    ensures OneMoreVote(db, AddVote(db, room, s, t).db, t)
  {
    VoteEffect(db, room, s, t);
    forall u ensures VoteCount(AddVote(db, room, s, t).db, u) == VoteCount(db, u) + if u == t then 1 else 0 {
      CountAfterVote(db.votes, Vote(room, t, s), u);
    }
  }

  /** If the voted track is not among the best even afterwards, the best are the same. */
  lemma {:induction false} BestUnlessListed(a: Db, b: Db, room: RoomId, t: TrackId, ids: seq<TrackId>)
    requires OneMoreVote(a, b, t) && Best(b, room, ids) && t !in ids
    ensures Best(a, room, ids)
  {
    assert (set u | u in a.tracks && Waits(a, u, room)) == set u | u in b.tracks && Waits(b, u, room);
    forall i, j | 0 <= i < j < |ids| ensures Before(a, ids[i], ids[j]) {
      assert ids[i] in ids && ids[j] in ids && Before(b, ids[i], ids[j]);
    }
    forall x, u | x in ids && Waits(a, u, room) && u !in ids ensures Before(a, x, u) {
      assert Waits(b, u, room) && Before(b, x, u);
    }
  }

  /** The fingerprint of the tables before describes them after the vote exactly if the voted
      track neither plays nor is among the best. */
  lemma {:induction false} VoteShowsIff(a: Db, b: Db, room: RoomId, t: TrackId, fp: Fingerprint, ids: seq<TrackId>)
    requires Ready(a) && Ready(b) && OneMoreVote(a, b, t) && DescribesNow(a, room, fp) && Best(b, room, ids)
    ensures DescribesNow(b, room, fp) <==> !Plays(a, t, room) && t !in ids
  {
    var listed := IdsOf(fp.items);
    if t in ids {
      if DescribesNow(b, room, fp) { BestUnique(b, room, ids, listed); }
    } else {
      BestUnlessListed(a, b, room, t, ids);
      BestUnique(a, room, ids, listed);
      forall i | 0 <= i < |listed| ensures Describes(b, fp.items[i], listed[i]) {
        assert listed[i] in ids && Describes(a, fp.items[i], listed[i]);
      }
      VoteShowsPlaying(a, b, room, t, fp.playing);
    }
  }

  lemma {:induction false} VoteShowsPlaying(a: Db, b: Db, room: RoomId, t: TrackId, playing: Option<Mark>)
    requires OneMoreVote(a, b, t) && ShowsPlaying(a, room, playing)
    ensures ShowsPlaying(b, room, playing) <==> !Plays(a, t, room)
  {
    assert forall u :: Plays(a, u, room) <==> Plays(b, u, room);
    if Plays(a, t, room) {
      assert Describes(a, playing.value, t);
    }
  }

  /** Before an accepted vote the next batch would have skipped. After it the next batch
      writes if and only if the track plays or is, with this vote, among the best. */
  lemma {:induction false} VoteWakesBatchIff(db: Db, room: RoomId, s: SessionId, t: TrackId, ids: seq<TrackId>)
    requires Inv(db) && room in db.rooms && Skips(db, room) && AddVote(db, room, s, t).result.Ok?
    requires Best(AddVote(db, room, s, t).db, room, ids)
    ensures var after := AddVote(db, room, s, t).db;
            Inv(after) && (!Skips(after, room) <==> Plays(db, t, room) || t in ids)
  {
    var after := AddVote(db, room, s, t).db;
    AddVoteKeepsInv(db, room, s, t);
    AcceptedVoteIsOneMore(db, room, s, t);
    SkipMeans(db, room);
    SkipMeans(after, room);
    VoteShowsIff(db, after, room, t, Newest(db.log[room]).fingerprint, ids);
  }

  /** In particular a vote for the playing track is never skipped. */
  lemma {:induction false} VoteForPlayingWakesBatch(db: Db, room: RoomId, s: SessionId, t: TrackId)
    requires Inv(db) && room in db.rooms && Skips(db, room)
    requires Plays(db, t, room) && AddVote(db, room, s, t).result.Ok?
    ensures Inv(AddVote(db, room, s, t).db) && !Skips(AddVote(db, room, s, t).db, room)
  {
    var after := AddVote(db, room, s, t).db;
    AddVoteKeepsInv(db, room, s, t);
    RankedIsBest(after, room);
    VoteWakesBatchIff(db, room, s, t, IdsOf(MarksOf(RankedNow(after, room))));
  }
}
