/**
 The use cases as functions of the committed tables: the new tables, the answer and the
 signals sent after the commit. A refused use case leaves the tables as they were and
 sends nothing.
 */
module Operations {
  import opened Common
  import opened Ranking
  import opened Versions
  import opened Tables
  import opened Invariants

  datatype Refusal =
    | RoomNotFound | RoomNotActive | SessionNotFound | SessionNotInRoom
    | TrackUnknown | TrackNotActive | TrackNotFound | AlreadyVoted | VoteLimitReached | QueueFull
    | InvalidQrCode | ValidationFailed | DatabaseFault

  /** What is sent to the room's sockets after a commit. */
  datatype Signal =
    | QueueUpdated(room: RoomId, snapshot: Snapshot)
    | VoteReceived(room: RoomId, track: TrackId, count: nat)
    | TrackProposed(room: RoomId, track: TrackId)
    | TrackDeleted(room: RoomId, track: TrackId)
    | TrackEnded(room: RoomId, track: TrackId, status: TrackStatus)
    | TrackPlaying(room: RoomId, track: TrackId)
    | RoomJoined(room: RoomId, session: SessionId)
    | Disconnected(room: RoomId, session: SessionId)

  datatype Out<T> = Out(db: Db, result: Result<T, Refusal>, signals: seq<Signal>)

  function Refuse<T>(db: Db, why: Refusal): Out<T> {
    Out(db, Fail(why), [])
  }

  // ---------- rooms ----------

  predicate ValidLimits(queueLimit: int, maxVotes: int) {
    1 <= queueLimit <= 200 && 1 <= maxVotes <= 20
  }

  function Or<T>(patch: Option<T>, default: T): T {
    if patch.Some? then patch.value else default
  }

  /** The settings of a creation request; what is not given gets its default. */
  datatype Settings = Settings(status: Option<RoomStatus>, queueLimit: Option<int>, maxVotes: Option<int>,
                               qrTtl: Option<int>, recalcInterval: Option<int>)

  const DEFAULT_QUEUE_LIMIT := 20
  const DEFAULT_MAX_VOTES := 5
  const DEFAULT_QR_TTL := 14400
  const DEFAULT_RECALC_INTERVAL := 10

  predicate ValidSettings(s: Settings) {
    && ValidLimits(Or(s.queueLimit, DEFAULT_QUEUE_LIMIT), Or(s.maxVotes, DEFAULT_MAX_VOTES))
    && 60 <= Or(s.qrTtl, DEFAULT_QR_TTL) <= 604800
    && 2 <= Or(s.recalcInterval, DEFAULT_RECALC_INTERVAL) <= 300
  }

  function RoomWith(s: Settings): Room
    requires ValidSettings(s)
  {
    Room(Or(s.status, Draft), Or(s.queueLimit, DEFAULT_QUEUE_LIMIT), Or(s.maxVotes, DEFAULT_MAX_VOTES),
         Or(s.qrTtl, DEFAULT_QR_TTL), Or(s.recalcInterval, DEFAULT_RECALC_INTERVAL), 0)
  }

  /** `name` is the requested name without surrounding blanks, `id` the generated id. */
  function CreateRoom(db: Db, id: RoomId, name: string, settings: Settings): Out<RoomId> {
    if name == "" || !ValidSettings(settings) then Refuse(db, ValidationFailed)
    else if id in db.rooms then Refuse(db, DatabaseFault)
    else
      Out(db.(rooms := db.rooms[id := RoomWith(settings)],
              queue := db.queue[id := []],
              log := db.log[id := []]),
          Ok(id), [])
  }

  function PatchRoom(db: Db, room: RoomId, status: Option<RoomStatus>, queueLimit: Option<int>,
                     maxVotes: Option<int>): Out<Room> {
    if !ValidLimits(Or(queueLimit, 1), Or(maxVotes, 1)) then Refuse(db, ValidationFailed)
    else if room !in db.rooms then Refuse(db, RoomNotFound)
    else
      var before := db.rooms[room];
      var after := before.(status := Or(status, before.status),
                           queueLimit := Or(queueLimit, before.queueLimit),
                           maxVotes := Or(maxVotes, before.maxVotes));
      Out(db.(rooms := db.rooms[room := after]), Ok(after), [])
  }

  // ---------- sessions ----------

  function WithSessionStatus(sessions: map<SessionId, Session>, s: SessionId,
                             status: SessionStatus): map<SessionId, Session> {
    if s in sessions then sessions[s := sessions[s].(status := status)] else sessions
  }

  /** A nickname without surrounding blanks, as a sequence of characters. */
  predicate ValidNickname(nickname: string) {
    1 <= |nickname| <= 32
  }

  /** `firstLook` is the room the QR code gives access to before the room is locked,
      `secondLook` the one it gives access to afterwards, and `known` the session the
      caller's token belongs to. */
  function Join(db: Db, firstLook: Option<RoomId>, secondLook: Option<RoomId>, known: Option<SessionId>,
                nickname: string): Out<SessionId> {
    if !ValidNickname(nickname) then Refuse(db, ValidationFailed)
    else if firstLook.None? then Refuse(db, InvalidQrCode)
    else if firstLook.value !in db.rooms then Refuse(db, RoomNotFound)
    else if secondLook != firstLook then Refuse(db, InvalidQrCode)
    else if db.rooms[firstLook.value].status != Active then Refuse(db, RoomNotActive)
    else Admitted(db, firstLook.value, known, nickname)
  }

  /** The join once its QR code has been accepted for the room. */
  function Admitted(db: Db, room: RoomId, known: Option<SessionId>, nickname: string): Out<SessionId> {
    var current := if known.Some? && known.value in db.sessions then known else None;
    if current.Some? && db.sessions[current.value].room == room then
      Out(db.(sessions := db.sessions[current.value := Session(room, nickname, Joined)]),
          Ok(current.value), [RoomJoined(room, current.value)])
    else
      var s := db.nextSession;
      var kept := if current.Some? then WithSessionStatus(db.sessions, current.value, Left) else db.sessions;
      var left := if current.Some? then [Disconnected(db.sessions[current.value].room, current.value)] else [];
      Out(db.(sessions := kept[s := Session(room, nickname, Joined)], nextSession := s + 1),
          Ok(s), left + [RoomJoined(room, s)])
  }

  /** `room` is the room of the session as it was read when the request was authenticated. */
  function Leave(db: Db, session: SessionId, room: RoomId): Out<()> {
    Out(db.(sessions := WithSessionStatus(db.sessions, session, Left)), Ok(()), [Disconnected(room, session)])
  }

  /** Why a session may not act in a room, if it may not. */
  function SessionCheck(db: Db, room: RoomId, session: SessionId): Option<Refusal> {
    if session !in db.sessions then Some(SessionNotFound)
    else if db.sessions[session].room != room || db.sessions[session].status != Joined then Some(SessionNotInRoom)
    else None
  }

  // ---------- proposals ----------

  /** The session as it was read when the request was authenticated. */
  datatype Caller = Caller(session: SessionId, room: RoomId, active: bool)

  datatype Proposal =
    | Created(track: TrackId)
    | Duplicate(track: TrackId, votes: nat, position: Option<nat>)

  /** The stored position of a track's row, gaps included. */
  function StoredPosition(rows: seq<Row>, t: TrackId): Option<nat> {
    if rows == [] then None
    else if rows[0].track == t then Some(rows[0].position)
    else StoredPosition(rows[1..], t)
  }

  /** The tables with a new queued track. */
  function WithNewTrack(db: Db, room: RoomId, session: SessionId, catalog: CatalogId, gap: nat): Db
    requires room in db.rooms
  {
    var fifo := db.rooms[room].lastFifo + 1 + gap;
    db.(rooms := db.rooms[room := db.rooms[room].(lastFifo := fifo)],
        tracks := db.tracks[db.nextTrack := Track(room, catalog, session, Queued, 0, 0, fifo)],
        nextTrack := db.nextTrack + 1)
  }

  /** `firstLook` is the room status the unlocked read saw; `gap` counts the numbers of the
      sequence that were drawn, for other rooms or in vain, since the room's last accepted
      proposal drew its own. */
  ghost function ProposeTrack(db: Db, room: RoomId, caller: Caller, catalog: CatalogId, firstLook: Option<RoomStatus>,
                              gap: nat): Out<Proposal>
    requires db.queue.Keys == db.rooms.Keys
  {
    if caller.room != room || !caller.active then Refuse(db, SessionNotInRoom)
    else if firstLook.None? then Refuse(db, RoomNotFound)
    else if firstLook.value != Active then Refuse(db, RoomNotActive)
    else if room !in db.rooms then Refuse(db, RoomNotFound)
    else if db.rooms[room].status != Active then Refuse(db, RoomNotActive)
    else
      var refused := SessionCheck(db, room, caller.session);
      if refused.Some? then Refuse(db, refused.value)
      else
        match ActiveDuplicate(db.tracks, room, catalog)
        case Some(t) =>
          Out(db, Ok(Duplicate(t, db.tracks[t].voteCountCached, StoredPosition(db.queue[room], t))), [])
        case None =>
          if |QueuedIds(db.tracks, room)| >= db.rooms[room].queueLimit then Refuse(db, QueueFull)
          else
            Out(WithNewTrack(db, room, caller.session, catalog, gap),
                Ok(Created(db.nextTrack)), [TrackProposed(room, db.nextTrack)])
  }

  // ---------- votes ----------

  datatype VoteReceipt = VoteReceipt(track: TrackId, count: nat, remaining: int)

  function AddVote(db: Db, room: RoomId, session: SessionId, t: TrackId): Out<VoteReceipt> {
    if room !in db.rooms then Refuse(db, RoomNotFound)
    else if db.rooms[room].status != Active then Refuse(db, RoomNotActive)
    else
      var refused := SessionCheck(db, room, session);
      if refused.Some? then Refuse(db, refused.value)
      else if t !in db.tracks then Refuse(db, TrackUnknown)
      else if !IsActive(db.tracks, room, t) then Refuse(db, TrackNotActive)
      else if HasVoted(db.votes, session, t) then Refuse(db, AlreadyVoted)
      else
        var used := |VotesBy(db.votes, room, session)|;
        if used >= db.rooms[room].maxVotes then Refuse(db, VoteLimitReached)
        else
          var count := db.tracks[t].voteCountCached + 1;
          Out(db.(votes := db.votes + {Vote(room, t, session)},
                  tracks := db.tracks[t := db.tracks[t].(voteCountCached := count)]),
              Ok(VoteReceipt(t, count, db.rooms[room].maxVotes - used - 1)),
              [VoteReceived(room, t, count)])
  }

  // ---------- track management ----------

  function DeleteTrack(db: Db, room: RoomId, t: TrackId): Out<()>
    requires db.queue.Keys == db.rooms.Keys
  {
    if room !in db.rooms then Refuse(db, RoomNotFound)
    else if !InRoom(db.tracks, room, t) then Refuse(db, TrackNotFound)
    else
      Out(db.(tracks := db.tracks - {t},
              votes := db.votes - VotesOn(db.votes, t),
              queue := db.queue[room := WithoutTrack(db.queue[room], t)]),
          Ok(()), [TrackDeleted(room, t)])
  }

  function SetTrackStatus(db: Db, room: RoomId, t: TrackId, status: TrackStatus): Out<()> {
    if room !in db.rooms then Refuse(db, RoomNotFound)
    else if !IsActive(db.tracks, room, t) then Refuse(db, TrackNotActive)
    else Out(db.(tracks := WithStatus(db.tracks, room, t, status)), Ok(()), [TrackEnded(room, t, status)])
  }

  /** Demotion comes first; a missing target then rolls it back. */
  function SetTrackPlaying(db: Db, room: RoomId, t: TrackId): Out<()> {
    if room !in db.rooms then Refuse(db, RoomNotFound)
    else
      var demoted := Demoted(db.tracks, room);
      if !IsActive(demoted, room, t) then Refuse(db, TrackNotActive)
      else Out(db.(tracks := WithStatus(demoted, room, t, Playing)), Ok(()), [TrackPlaying(room, t)])
  }

  // ---------- recalculation ----------

  ghost function RankedNow(db: Db, room: RoomId): seq<Entry>
    requires Ready(db) && room in db.rooms
  {
    FifoOrderIsDistinct(db, room);
    Ranked(db.tracks, db.votes, db.sessions, room, db.rooms[room].queueLimit)
  }

  ghost function FingerprintNow(db: Db, room: RoomId): Fingerprint
    requires Ready(db) && room in db.rooms
  {
    Fingerprint(MarksOf(RankedNow(db, room)), PlayingOf(db.tracks, db.sessions, room))
  }

  ghost function SnapshotOf(db: Db, room: RoomId): Snapshot
    requires room in db.queue && room in db.log
  {
    Snapshot(ItemsFrom(db.queue[room], db.tracks, db.sessions, 0),
             PlayingOf(db.tracks, db.sessions, room),
             PreviousVersion(db.log[room]))
  }

  /** The tables after a rewrite of the derived tables from `ranked`, without the log. */
  function Rewritten(db: Db, room: RoomId, ranked: seq<Entry>, at: Nanos): Db {
    db.(queue := db.queue[room := RowsOf(ranked, at)],
        tracks := Scored(db.tracks, room, ScoresOf(ranked)))
  }

  /** The fingerprint of the newest log entry is the current one: the batch does nothing. */
  ghost predicate Skips(db: Db, room: RoomId)
    requires Ready(db) && room in db.rooms
  {
    db.log[room] != [] && Newest(db.log[room]).fingerprint == FingerprintNow(db, room)
  }

  ghost function RecalculateRoomQueue(db: Db, room: RoomId, now: Nanos, createdAt: Micros, id: nat): Out<bool>
    requires Ready(db)
  {
    if room !in db.rooms then Refuse(db, RoomNotFound)
    else if Skips(db, room) then Out(db, Ok(false), [])
    else
      var at := NextStamp(PreviousVersion(db.log[room]), now);
      var rewritten := Rewritten(db, room, RankedNow(db, room), at);
      var db' := rewritten.(log := db.log[room := Append(db.log[room], FingerprintNow(db, room), now, createdAt, id)]);
      Out(db', Ok(true), [QueueUpdated(room, SnapshotOf(db', room))])
  }

  /** What a batch writes once its fingerprint is known to differ from the logged one. */
  lemma RecalculationUnfolds(db: Db, room: RoomId, now: Nanos, createdAt: Micros, id: nat)
    requires Ready(db) && room in db.rooms
    ensures var o := RecalculateRoomQueue(db, room, now, createdAt, id);
            var at := NextStamp(PreviousVersion(db.log[room]), now);
            var db' := Rewritten(db, room, RankedNow(db, room), at)
                       .(log := db.log[room := db.log[room] + [LogEntry(FingerprintNow(db, room), at, createdAt, id)]]);
            if Skips(db, room) then o == Out(db, Ok(false), [])
            else o == Out(db', Ok(true), [QueueUpdated(room, SnapshotOf(db', room))])
  {
  }

  // ---------- a refusal changes nothing ----------

  lemma JoinRefusal(db: Db, firstLook: Option<RoomId>, secondLook: Option<RoomId>, known: Option<SessionId>,
                    nickname: string)
    requires Join(db, firstLook, secondLook, known, nickname).result.Fail?
    ensures Join(db, firstLook, secondLook, known, nickname).db == db
    ensures Join(db, firstLook, secondLook, known, nickname).signals == []
  {
  }

  lemma ProposeRefusal(db: Db, room: RoomId, caller: Caller, catalog: CatalogId, firstLook: Option<RoomStatus>,
                       gap: nat)
    requires db.queue.Keys == db.rooms.Keys
    requires ProposeTrack(db, room, caller, catalog, firstLook, gap).result.Fail?
    ensures ProposeTrack(db, room, caller, catalog, firstLook, gap).db == db
    ensures ProposeTrack(db, room, caller, catalog, firstLook, gap).signals == []
  {
  }

  lemma RecalculateRefusal(db: Db, room: RoomId, now: Nanos, createdAt: Micros, id: nat)
    requires Ready(db) && RecalculateRoomQueue(db, room, now, createdAt, id).result.Fail?
    ensures RecalculateRoomQueue(db, room, now, createdAt, id).db == db
    ensures RecalculateRoomQueue(db, room, now, createdAt, id).signals == []
  {
  }

  // ---------- steps and runs ----------

  datatype Op =
    | OpCreateRoom(id: RoomId, name: string, settings: Settings)
    | OpPatchRoom(room: RoomId, newStatus: Option<RoomStatus>, newLimit: Option<int>, newVotes: Option<int>)
    | OpJoin(firstCode: Option<RoomId>, secondCode: Option<RoomId>, known: Option<SessionId>, nickname: string)
    | OpLeave(session: SessionId, room: RoomId)
    | OpPropose(room: RoomId, caller: Caller, catalog: CatalogId, firstLook: Option<RoomStatus>, gap: nat)
    | OpVote(room: RoomId, session: SessionId, track: TrackId)
    | OpDelete(room: RoomId, track: TrackId)
    | OpEnd(room: RoomId, track: TrackId, skipped: bool)
    | OpPlay(room: RoomId, track: TrackId)
    | OpRecalculate(room: RoomId, now: Nanos, createdAt: Micros, logId: nat)
    | OpFault                       // a use case stopped by a database error

  datatype Outcome = Outcome(db: Db, signals: seq<Signal>)

  function Committed<T>(o: Out<T>): Outcome {
    Outcome(o.db, o.signals)
  }

  function EndStatus(skipped: bool): TrackStatus {
    if skipped then Skipped else Played
  }

  ghost function Step(db: Db, op: Op): Outcome
    requires Ready(db)
  {
    match op
    case OpCreateRoom(id, name, settings) => Committed(CreateRoom(db, id, name, settings))
    case OpPatchRoom(room, status, limit, votes) => Committed(PatchRoom(db, room, status, limit, votes))
    case OpJoin(first, second, known, nickname) => Committed(Join(db, first, second, known, nickname))
    case OpLeave(session, room) => Committed(Leave(db, session, room))
    case OpPropose(room, caller, catalog, firstLook, gap) =>
      Committed(ProposeTrack(db, room, caller, catalog, firstLook, gap))
    case OpVote(room, session, t) => Committed(AddVote(db, room, session, t))
    case OpDelete(room, t) => Committed(DeleteTrack(db, room, t))
    case OpEnd(room, t, skipped) => Committed(SetTrackStatus(db, room, t, EndStatus(skipped)))
    case OpPlay(room, t) => Committed(SetTrackPlaying(db, room, t))
    case OpRecalculate(room, now, createdAt, id) => Committed(RecalculateRoomQueue(db, room, now, createdAt, id))
    case OpFault => Outcome(db, [])
  }

  const EmptyDb: Db := Db(map[], map[], map[], {}, map[], map[], 0, 0)
}
