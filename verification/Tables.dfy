/**
 The tables the use cases work on, and the meaning of each repository statement as a
 function of the tables it reads.
 */
module Tables {
  import opened Common
  import opened Ranking
  import opened Versions

  type RoomId = int
  type SessionId = int
  type TrackId = int
  type CatalogId = int

  datatype RoomStatus = Draft | Active | Paused | Closed
  datatype TrackStatus = Queued | Playing | Played | Skipped
  datatype SessionStatus = Joined | Left

  /** `lastFifo` is the FIFO number of the proposal accepted last in the room. The numbers
      themselves come from one sequence for all rooms; see `Interleaving`. */
  datatype Room = Room(status: RoomStatus, queueLimit: nat, maxVotes: nat, qrTtl: nat, recalcInterval: nat,
                       lastFifo: nat)
  datatype Session = Session(room: RoomId, nickname: string, status: SessionStatus)
  datatype Track = Track(room: RoomId, catalog: CatalogId, proposer: SessionId, status: TrackStatus,
                         voteCountCached: nat, scoreCached: int, fifo: nat)
  datatype Vote = Vote(room: RoomId, track: TrackId, session: SessionId)

  /** A row of the materialised queue. */
  datatype Row = Row(track: TrackId, position: nat, score: int, votes: nat, fifo: nat, recalculatedAt: Nanos)

  /** The version structure that is hashed; the hash is taken as injective, so the
      structure stands for it. */
  datatype Mark = Mark(id: TrackId, votes: nat, proposer: Option<string>)
  datatype Fingerprint = Fingerprint(items: seq<Mark>, playing: Option<Mark>)

  type Log = seq<LogEntry<Fingerprint>>

  /** `nextTrack` and `nextSession` stand for the id generator: an id is never issued twice. */
  datatype Db = Db(
    rooms: map<RoomId, Room>,
    sessions: map<SessionId, Session>,
    tracks: map<TrackId, Track>,
    votes: set<Vote>,
    queue: map<RoomId, seq<Row>>,
    log: map<RoomId, Log>,
    nextTrack: int,
    nextSession: int)

  datatype Item = Item(position: nat, id: TrackId, score: int, votes: nat, fifo: nat,
                       proposer: Option<string>, recalculatedAt: Nanos)

  datatype Snapshot = Snapshot(items: seq<Item>, playing: Option<Mark>, updatedAt: Option<Micros>)

  // ---------- tracks, votes, sessions ----------

  predicate ActiveStatus(s: TrackStatus) {
    s == Queued || s == Playing
  }

  predicate InRoom(tracks: map<TrackId, Track>, room: RoomId, t: TrackId) {
    t in tracks && tracks[t].room == room
  }

  predicate IsQueued(tracks: map<TrackId, Track>, room: RoomId, t: TrackId) {
    InRoom(tracks, room, t) && tracks[t].status == Queued
  }

  predicate IsPlaying(tracks: map<TrackId, Track>, room: RoomId, t: TrackId) {
    InRoom(tracks, room, t) && tracks[t].status == Playing
  }

  predicate IsActive(tracks: map<TrackId, Track>, room: RoomId, t: TrackId) {
    InRoom(tracks, room, t) && ActiveStatus(tracks[t].status)
  }

  function QueuedIds(tracks: map<TrackId, Track>, room: RoomId): set<TrackId> {
    set t | t in tracks && IsQueued(tracks, room, t)
  }

  function VotesOn(votes: set<Vote>, t: TrackId): set<Vote> {
    set v | v in votes && v.track == t
  }

  function VotesBy(votes: set<Vote>, room: RoomId, s: SessionId): set<Vote> {
    set v | v in votes && v.room == room && v.session == s
  }

  predicate HasVoted(votes: set<Vote>, s: SessionId, t: TrackId) {
    exists v :: v in votes && v.session == s && v.track == t
  }

  /** The nickname a left join on the proposer finds. */
  function Nickname(sessions: map<SessionId, Session>, s: SessionId): Option<string> {
    if s in sessions then Some(sessions[s].nickname) else None
  }

  /** An active occurrence of the catalogue track in the room, if there is one. */
  ghost function ActiveDuplicate(tracks: map<TrackId, Track>, room: RoomId, c: CatalogId): Option<TrackId> {
    if exists t :: IsActive(tracks, room, t) && tracks[t].catalog == c
    then var t :| IsActive(tracks, room, t) && tracks[t].catalog == c; Some(t)
    else None
  }

  ghost function NowPlaying(tracks: map<TrackId, Track>, room: RoomId): Option<TrackId> {
    if exists t :: IsPlaying(tracks, room, t)
    then var t :| IsPlaying(tracks, room, t); Some(t)
    else None
  }

  /** All playing tracks of the room go back to the queue. */
  function Demoted(tracks: map<TrackId, Track>, room: RoomId): map<TrackId, Track> {
    map t | t in tracks ::
      if IsPlaying(tracks, room, t) then tracks[t].(status := Queued) else tracks[t]
  }

  /** `t` gets the status if it is an active track of the room. */
  function WithStatus(tracks: map<TrackId, Track>, room: RoomId, t: TrackId, status: TrackStatus): map<TrackId, Track> {
    if IsActive(tracks, room, t) then tracks[t := tracks[t].(status := status)] else tracks
  }

  /** Ranked tracks get their votes as cached score, every other queued track of the room 0. */
  function Scored(tracks: map<TrackId, Track>, room: RoomId, scores: map<TrackId, nat>): map<TrackId, Track> {
    map t | t in tracks ::
      if t in scores then tracks[t].(scoreCached := scores[t])
      else if IsQueued(tracks, room, t) then tracks[t].(scoreCached := 0)
      else tracks[t]
  }

  // ---------- ranking ----------

  function EntryOf(tracks: map<TrackId, Track>, votes: set<Vote>, sessions: map<SessionId, Session>, t: TrackId): Entry
    requires t in tracks
  {
    Entry(t, |VotesOn(votes, t)|, tracks[t].fifo, Nickname(sessions, tracks[t].proposer))
  }

  function Entries(tracks: map<TrackId, Track>, votes: set<Vote>, sessions: map<SessionId, Session>,
                   room: RoomId): set<Entry> {
    set t | t in QueuedIds(tracks, room) :: EntryOf(tracks, votes, sessions, t)
  }

  /** No two tracks of the room share a FIFO number. */
  ghost predicate FifoDistinct(tracks: map<TrackId, Track>, room: RoomId) {
    forall t, u :: InRoom(tracks, room, t) && InRoom(tracks, room, u) && t != u ==> tracks[t].fifo != tracks[u].fifo
  }

  lemma EntriesDistinct(tracks: map<TrackId, Track>, votes: set<Vote>, sessions: map<SessionId, Session>, room: RoomId)
    requires FifoDistinct(tracks, room)
    ensures DistinctFifo(Entries(tracks, votes, sessions, room))
  {
  }

  ghost function Ranked(tracks: map<TrackId, Track>, votes: set<Vote>, sessions: map<SessionId, Session>, room: RoomId,
                        limit: nat): seq<Entry>
    requires FifoDistinct(tracks, room)
  {
    EntriesDistinct(tracks, votes, sessions, room);
    TopK(Entries(tracks, votes, sessions, room), limit)
  }

  // ---------- fingerprint ----------

  function MarkOf(e: Entry): Mark {
    Mark(e.id, e.votes, e.proposer)
  }

  function MarksOf(ranked: seq<Entry>): seq<Mark> {
    seq(|ranked|, i requires 0 <= i < |ranked| => MarkOf(ranked[i]))
  }

  /** The playing track as it is read for a snapshot: its cached vote count. */
  function PlayingMark(tracks: map<TrackId, Track>, sessions: map<SessionId, Session>, t: TrackId): Mark
    requires t in tracks
  {
    Mark(t, tracks[t].voteCountCached, Nickname(sessions, tracks[t].proposer))
  }

  ghost function PlayingOf(tracks: map<TrackId, Track>, sessions: map<SessionId, Session>, room: RoomId): Option<Mark> {
    match NowPlaying(tracks, room)
    case None => None
    case Some(t) => Some(PlayingMark(tracks, sessions, t))
  }

  // ---------- materialised queue ----------

  function RowOf(e: Entry, position: nat, at: Nanos): Row {
    Row(e.id, position, e.votes, e.votes, e.fifo, at)
  }

  /** The rows a rewrite inserts: positions 1..n in rank order. */
  function RowsOf(ranked: seq<Entry>, at: Nanos): seq<Row> {
    seq(|ranked|, i requires 0 <= i < |ranked| => RowOf(ranked[i], i + 1, at))
  }

  function ScoresOf(ranked: seq<Entry>): (m: map<TrackId, nat>)
    ensures forall t :: t in m <==> exists e :: e in ranked && e.id == t
  {
    if ranked == [] then map[]
    else
      var e := Last(ranked);
      var front := ranked[..|ranked| - 1];
      assert forall x :: x in ranked <==> x in front || x == e;
      assert e in ranked;
      ScoresOf(front)[e.id := e.votes]
  }

  /** Removing a track cascades to its row and leaves the other positions as they are. */
  function WithoutTrack(rows: seq<Row>, t: TrackId): seq<Row> {
    if rows == [] then []
    else
      var rest := WithoutTrack(rows[1..], t);
      if rows[0].track == t then rest else [rows[0]] + rest
  }

  /** The rows of tracks that are queued, renumbered from `1 + before`. */
  function ItemsFrom(rows: seq<Row>, tracks: map<TrackId, Track>, sessions: map<SessionId, Session>,
                     before: nat): seq<Item> {
    if rows == [] then []
    else
      var r := rows[0];
      if r.track in tracks && tracks[r.track].status == Queued
      then [ItemOf(r, before + 1, Nickname(sessions, tracks[r.track].proposer))]
           + ItemsFrom(rows[1..], tracks, sessions, before + 1)
      else ItemsFrom(rows[1..], tracks, sessions, before)
  }

  function ItemOf(r: Row, position: nat, proposer: Option<string>): Item {
    Item(position, r.track, r.score, r.votes, r.fifo, proposer, r.recalculatedAt)
  }
}
