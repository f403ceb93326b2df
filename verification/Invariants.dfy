/**
 What holds of the tables in every reachable state: references and id freshness, FIFO
 order, vote accounting, one playing track, active uniqueness, and what the derived
 tables hold between two recalculations.
 */
module Invariants {
  import opened Versions
  import opened Tables

  ghost predicate References(db: Db) {
    && (forall s :: s in db.sessions ==> s < db.nextSession && db.sessions[s].room in db.rooms)
    && (forall t :: t in db.tracks ==>
          && t < db.nextTrack
          && db.tracks[t].room in db.rooms
          && db.tracks[t].proposer in db.sessions
          && db.sessions[db.tracks[t].proposer].room == db.tracks[t].room)
    && db.queue.Keys == db.rooms.Keys
    && db.log.Keys == db.rooms.Keys
  }

  /** A vote, its session and its track belong to one room. */
  ghost predicate VoteReferences(db: Db) {
    forall v :: v in db.votes ==>
      && v.track in db.tracks && v.room == db.tracks[v.track].room
      && v.session in db.sessions && v.room == db.sessions[v.session].room
  }

  /** FIFO numbers follow the order of acceptance within a room. */
  ghost predicate FifoOrder(db: Db) {
    && (forall t :: t in db.tracks ==>
          db.tracks[t].room in db.rooms && db.tracks[t].fifo <= db.rooms[db.tracks[t].room].lastFifo)
    && (forall t, u :: t in db.tracks && u in db.tracks && db.tracks[t].room == db.tracks[u].room && t < u
          ==> db.tracks[t].fifo < db.tracks[u].fifo)
  }

  ghost predicate VoteCounts(db: Db) {
    forall t :: t in db.tracks ==> db.tracks[t].voteCountCached == |VotesOn(db.votes, t)|
  }

  ghost predicate OnePlaying(tracks: map<TrackId, Track>) {
    forall r, t, u :: IsPlaying(tracks, r, t) && IsPlaying(tracks, r, u) ==> t == u
  }

  ghost predicate ActiveUnique(tracks: map<TrackId, Track>) {
    forall r, t, u :: IsActive(tracks, r, t) && IsActive(tracks, r, u) && tracks[t].catalog == tracks[u].catalog
      ==> t == u
  }

  ghost predicate Limits(db: Db) {
    forall r :: r in db.rooms ==>
      && 1 <= db.rooms[r].queueLimit <= 200
      && 1 <= db.rooms[r].maxVotes <= 20
      && 60 <= db.rooms[r].qrTtl <= 604800
      && 2 <= db.rooms[r].recalcInterval <= 300
  }

  // ---------- the derived tables between two recalculations ----------

  /** The rows of the logged ranking whose tracks still exist, at their logged positions. */
  function RowsFrom(items: seq<Mark>, k: nat, at: Nanos, tracks: map<TrackId, Track>): seq<Row>
    requires k <= |items|
    decreases |items| - k
  {
    if k == |items| then []
    else
      var rest := RowsFrom(items, k + 1, at, tracks);
      var m := items[k];
      if m.id in tracks then [Row(m.id, k + 1, m.votes, m.votes, tracks[m.id].fifo, at)] + rest else rest
  }

  /** The cached score an active track has after the recalculation that logged `fp`. */
  ghost predicate ScoreAsLogged(fp: Fingerprint, t: TrackId, score: int) {
    && (forall i :: 0 <= i < |fp.items| && fp.items[i].id == t ==> score == fp.items[i].votes)
    && ((forall i :: 0 <= i < |fp.items| ==> fp.items[i].id != t) && (fp.playing.Some? ==> fp.playing.value.id != t)
        ==> score == 0)
  }

  ghost predicate MarksKnown(fp: Fingerprint, room: RoomId, tracks: map<TrackId, Track>, nextTrack: int) {
    && (forall i :: 0 <= i < |fp.items| ==> fp.items[i].id < nextTrack)
    && (forall i :: 0 <= i < |fp.items| && fp.items[i].id in tracks ==> tracks[fp.items[i].id].room == room)
    && (forall i, j :: 0 <= i < j < |fp.items| ==> fp.items[i].id != fp.items[j].id)
    && (fp.playing.Some? ==> fp.playing.value.id < nextTrack)
  }

  ghost predicate DerivedAsLogged(log: Log, rows: seq<Row>, room: RoomId, tracks: map<TrackId, Track>, nextTrack: int) {
    if log == [] then
      && rows == []
      && (forall t :: IsActive(tracks, room, t) ==> tracks[t].scoreCached == 0)
    else
      var e := Last(log);
      && MarksKnown(e.fingerprint, room, tracks, nextTrack)
      && rows == RowsFrom(e.fingerprint.items, 0, e.updatedAt, tracks)
      && (forall t :: IsActive(tracks, room, t) ==> ScoreAsLogged(e.fingerprint, t, tracks[t].scoreCached))
  }

  ghost predicate Derived(db: Db) {
    && db.queue.Keys == db.rooms.Keys
    && db.log.Keys == db.rooms.Keys
    && (forall r :: r in db.rooms ==>
          && NonDecreasing(db.log[r])
          && DerivedAsLogged(db.log[r], db.queue[r], r, db.tracks, db.nextTrack))
  }

  ghost predicate Inv(db: Db) {
    && References(db)
    && VoteReferences(db)
    && FifoOrder(db)
    && VoteCounts(db)
    && OnePlaying(db.tracks)
    && ActiveUnique(db.tracks)
    && Limits(db)
    && Derived(db)
  }

  /** The part of the invariants a step relies on to be well defined. */
  ghost predicate Ready(db: Db) {
    db.queue.Keys == db.rooms.Keys && db.log.Keys == db.rooms.Keys && FifoOrder(db)
  }

  lemma FifoOrderIsDistinct(db: Db, room: RoomId)
    requires FifoOrder(db)
    ensures FifoDistinct(db.tracks, room)
  {
    forall t, u | InRoom(db.tracks, room, t) && InRoom(db.tracks, room, u) && t != u
      ensures db.tracks[t].fifo != db.tracks[u].fifo
    {
      if t < u { assert db.tracks[t].fifo < db.tracks[u].fifo; } else { assert db.tracks[u].fifo < db.tracks[t].fifo; }
    }
  }
}
