/**
 What each use case answers and what it leaves, read off the rows of the tables: when it
 succeeds, which refusal it gives otherwise, every row it changes, and that it changes no
 other. Nothing here goes by the functions the use cases are defined with.
 */
module Effects {
  import opened Common
  import opened Versions
  import opened Tables
  import opened Invariants
  import opened Operations
  import opened Preservation

  // ---------- the words used ----------

  predicate KnownRoom(db: Db, room: RoomId) {
    room in db.rooms
  }

  predicate OpenRoom(db: Db, room: RoomId) {
    room in db.rooms && db.rooms[room].status == RoomStatus.Active
  }

  predicate Guest(db: Db, s: SessionId, room: RoomId) {
    s in db.sessions && db.sessions[s].room == room && db.sessions[s].status == Joined
  }

  predicate TrackOf(db: Db, t: TrackId, room: RoomId) {
    t in db.tracks && db.tracks[t].room == room
  }

  predicate Waits(db: Db, t: TrackId, room: RoomId) {
    TrackOf(db, t, room) && db.tracks[t].status == Queued
  }

  predicate Plays(db: Db, t: TrackId, room: RoomId) {
    TrackOf(db, t, room) && db.tracks[t].status == Playing
  }

  predicate Current(db: Db, t: TrackId, room: RoomId) {
    Waits(db, t, room) || Plays(db, t, room)
  }

  /** How many votes the track has. */
  function VoteCount(db: Db, t: TrackId): nat {
    |set v | v in db.votes && v.track == t|
  }

  /** How many votes the session has given in the room. */
  function VotesGiven(db: Db, s: SessionId, room: RoomId): nat {
    |set v | v in db.votes && v.room == room && v.session == s|
  }

  function WaitCount(db: Db, room: RoomId): nat {
    |set t | t in db.tracks && Waits(db, t, room)|
  }

  // ---------- leaving ----------

  /** A leave ends the session, changes nothing else, and asks for its disconnection; an
      unknown session changes nothing. */
  lemma {:induction false} LeaveEffect(db: Db, s: SessionId, room: RoomId)
    requires Ready(db)
    ensures Leave(db, s, room).result == Ok(())
    ensures var o := Step(db, OpLeave(s, room));
            && o.signals == [Disconnected(room, s)]
            && o.db == db.(sessions := o.db.sessions)
            && (s !in db.sessions ==> o.db.sessions == db.sessions)
            && (s in db.sessions ==>
                  o.db.sessions == db.sessions[s := Session(db.sessions[s].room, db.sessions[s].nickname, Left)])
  {
  }

  // ---------- joining ----------

  /** When a join is accepted, and which refusal it gets otherwise. */
  lemma {:induction false} JoinAnswers(db: Db, first: Option<RoomId>, second: Option<RoomId>, known: Option<SessionId>,
                                       nickname: string)
    ensures var answer := Join(db, first, second, known, nickname).result;
            var named := 1 <= |nickname| <= 32;
            && (answer.Ok? <==> named && first.Some? && second == first && OpenRoom(db, first.value))
            && (answer == Fail(ValidationFailed) <==> !named)
            && (answer == Fail(RoomNotFound) <==> named && first.Some? && !KnownRoom(db, first.value))
            && (answer == Fail(InvalidQrCode) <==>
                  named && (first.None? || (KnownRoom(db, first.value) && second != first)))
            && (answer == Fail(RoomNotActive) <==>
                  named && first.Some? && second == first && KnownRoom(db, first.value) && !OpenRoom(db, first.value))
  {
  }

  /** The caller of an accepted join comes back as the session its token belongs to, if that
      is one of the room; otherwise it is a new session, and the one of another room is left
      and disconnected. */
  lemma {:induction false} JoinEffect(db: Db, room: RoomId, known: Option<SessionId>, nickname: string)
    requires 1 <= |nickname| <= 32 && OpenRoom(db, room)
    ensures var o := Join(db, Some(room), Some(room), known, nickname);
            var guest := Session(room, nickname, Joined);
            if known.Some? && known.value in db.sessions && db.sessions[known.value].room == room then
              && o.result == Ok(known.value) && o.signals == [RoomJoined(room, known.value)]
              && o.db == db.(sessions := db.sessions[known.value := guest])
            else if known.Some? && known.value in db.sessions then
              var was := db.sessions[known.value];
              var left := Session(was.room, was.nickname, Left);
              && o.result == Ok(db.nextSession)
              && o.signals == [Disconnected(was.room, known.value), RoomJoined(room, db.nextSession)]
              && o.db == db.(sessions := db.sessions[known.value := left][db.nextSession := guest],
                             nextSession := db.nextSession + 1)
            else
              && o.result == Ok(db.nextSession) && o.signals == [RoomJoined(room, db.nextSession)]
              && o.db == db.(sessions := db.sessions[db.nextSession := guest], nextSession := db.nextSession + 1)
  {
  }

  lemma {:induction false} RefusedJoinEffect(db: Db, first: Option<RoomId>, second: Option<RoomId>,
                                             known: Option<SessionId>, nickname: string)
    requires !(1 <= |nickname| <= 32 && first.Some? && second == first && OpenRoom(db, first.value))
    ensures var o := Join(db, first, second, known, nickname); o.db == db && o.signals == []
  {
  }

  // ---------- voting ----------

  predicate MayVote(db: Db, room: RoomId, s: SessionId) {
    OpenRoom(db, room) && Guest(db, s, room)
  }

  predicate Voted(db: Db, s: SessionId, t: TrackId) {
    exists v :: v in db.votes && v.session == s && v.track == t
  }

  /** When a vote is accepted. */
  lemma {:induction false} VoteAnswers(db: Db, room: RoomId, s: SessionId, t: TrackId)
    ensures AddVote(db, room, s, t).result.Ok? <==>
              && MayVote(db, room, s) && Current(db, t, room) && !Voted(db, s, t)
              && VotesGiven(db, s, room) < db.rooms[room].maxVotes
  {
  }

  /** Which refusal a vote gets: about the room and the session first ... */
  lemma {:induction false} VoteRefusals(db: Db, room: RoomId, s: SessionId, t: TrackId)
    ensures var answer := AddVote(db, room, s, t).result;
            && (answer == Fail(RoomNotFound) <==> !KnownRoom(db, room))
            && (answer == Fail(RoomNotActive) <==> KnownRoom(db, room) && !OpenRoom(db, room))
            && (answer == Fail(SessionNotFound) <==> OpenRoom(db, room) && s !in db.sessions)
            && (answer == Fail(SessionNotInRoom) <==>
                  OpenRoom(db, room) && s in db.sessions && !Guest(db, s, room))
  {
  }

  /** ... then about the track, an earlier vote and the quota. */
  lemma {:induction false} VoteTrackRefusals(db: Db, room: RoomId, s: SessionId, t: TrackId)
    requires MayVote(db, room, s)
    ensures var answer := AddVote(db, room, s, t).result;
            && (answer == Fail(TrackUnknown) <==> t !in db.tracks)
            && (answer == Fail(TrackNotActive) <==> t in db.tracks && !Current(db, t, room))
            && (answer == Fail(AlreadyVoted) <==> Current(db, t, room) && Voted(db, s, t))
            && (answer == Fail(VoteLimitReached) <==>
                  && Current(db, t, room) && !Voted(db, s, t)
                  && VotesGiven(db, s, room) >= db.rooms[room].maxVotes)
  {
  }

  /** An accepted vote is added and counted, and receipt and broadcast tell the new count. */
  lemma {:induction false} VoteEffect(db: Db, room: RoomId, s: SessionId, t: TrackId)
    requires VoteCounts(db) && AddVote(db, room, s, t).result.Ok?
    ensures var o := AddVote(db, room, s, t);
            var count := VoteCount(db, t) + 1;
            && Vote(room, t, s) !in db.votes
            && o.db == db.(votes := db.votes + {Vote(room, t, s)},
                           tracks := db.tracks[t := db.tracks[t].(voteCountCached := count)])
            && VoteCount(o.db, t) == count
            && o.result.value == VoteReceipt(t, count, db.rooms[room].maxVotes - VotesGiven(db, s, room) - 1)
            && o.signals == [VoteReceived(room, t, count)]
  {
    VotesAfterInsert(db.votes, Vote(room, t, s), t);
  }

  lemma {:induction false} RefusedVoteEffect(db: Db, room: RoomId, s: SessionId, t: TrackId)
    requires AddVote(db, room, s, t).result.Fail?
    ensures AddVote(db, room, s, t).db == db && AddVote(db, room, s, t).signals == []
  {
  }

  // ---------- proposing ----------

  /** The caller as it was authenticated, and the unlocked look at the room. */
  predicate Authenticated(caller: Caller, room: RoomId) {
    caller.room == room && caller.active
  }

  /** The proposal gets as far as looking for a duplicate. */
  predicate MayPropose(db: Db, room: RoomId, caller: Caller, firstLook: Option<RoomStatus>) {
    && Authenticated(caller, room) && firstLook == Some(RoomStatus.Active)
    && OpenRoom(db, room) && Guest(db, caller.session, room)
  }

  /** A track of the room with this catalogue id that waits or plays. */
  predicate Occurrence(db: Db, t: TrackId, room: RoomId, catalog: CatalogId) {
    Current(db, t, room) && db.tracks[t].catalog == catalog
  }

  /** Which refusal a proposal gets before it looks for a duplicate; without one of these it
      is answered as `ProposeAnswers` says. */
  lemma {:induction false} ProposeRefusals(db: Db, room: RoomId, caller: Caller, catalog: CatalogId,
                                           firstLook: Option<RoomStatus>, gap: nat)
    requires db.queue.Keys == db.rooms.Keys
    ensures var answer := ProposeTrack(db, room, caller, catalog, firstLook, gap).result;
            var named := Authenticated(caller, room);
            var looked := named && firstLook == Some(RoomStatus.Active);
            && (answer == Fail(RoomNotFound) <==> (named && firstLook.None?) || (looked && !KnownRoom(db, room)))
            && (answer == Fail(RoomNotActive) <==>
                  || (named && firstLook.Some? && firstLook.value != RoomStatus.Active)
                  || (looked && KnownRoom(db, room) && !OpenRoom(db, room)))
            && (answer == Fail(SessionNotFound) <==> looked && OpenRoom(db, room) && caller.session !in db.sessions)
            && (answer == Fail(SessionNotInRoom) <==>
                  || !named
                  || (&& looked && OpenRoom(db, room) && caller.session in db.sessions
                      && !Guest(db, caller.session, room)))
            && (answer.Ok? || answer == Fail(QueueFull) <==> MayPropose(db, room, caller, firstLook))
  {
  }

  /** The stored position of a track: that of its row, if it has one. */
  ghost predicate PositionOf(rows: seq<Row>, t: TrackId, position: Option<nat>) {
    && (position.None? <==> forall i :: 0 <= i < |rows| ==> rows[i].track != t)
    && (forall i :: 0 <= i < |rows| && rows[i].track == t ==> position == Some(rows[i].position))
  }

  /** The rows of a room as they are stored: positions ascend, and no track has two rows. */
  ghost predicate OneRowEach(rows: seq<Row>) {
    forall i, j :: 0 <= i < j < |rows| ==> rows[i].position < rows[j].position && rows[i].track != rows[j].track
  }

  lemma {:induction false} RowsFromAscend(items: seq<Mark>, k: nat, at: Nanos, tracks: map<TrackId, Track>)
    requires k <= |items|
    requires forall i, j :: 0 <= i < j < |items| ==> items[i].id != items[j].id
    ensures OneRowEach(RowsFrom(items, k, at, tracks))
    ensures forall r :: r in RowsFrom(items, k, at, tracks) ==>
              k < r.position <= |items| && items[r.position - 1].id == r.track
    decreases |items| - k
  {
    if k < |items| {
      RowsFromAscend(items, k + 1, at, tracks);
      var rest, rows := RowsFrom(items, k + 1, at, tracks), RowsFrom(items, k, at, tracks);
      if items[k].id in tracks {
        assert rows == [rows[0]] + rest;
        forall i, j | 0 <= i < j < |rows|
          ensures rows[i].position < rows[j].position && rows[i].track != rows[j].track
        {
          assert rows[j] == rest[j - 1] && rest[j - 1] in rest;
          if i > 0 { assert rows[i] == rest[i - 1]; }
        }
      }
    }
  }

  /** In every state that keeps the invariants. */
  lemma {:induction false} StoredRowsAscend(db: Db, room: RoomId)
    requires Derived(db) && room in db.rooms
    ensures OneRowEach(db.queue[room])
  {
    if db.log[room] != [] {
      var e := Last(db.log[room]);
      RowsFromAscend(e.fingerprint.items, 0, e.updatedAt, db.tracks);
    }
  }

  lemma {:induction false} StoredPositionIs(rows: seq<Row>, t: TrackId)
    requires OneRowEach(rows)
    ensures PositionOf(rows, t, StoredPosition(rows, t))
  {
    if rows != [] {
      StoredPositionIs(rows[1..], t);
      var rest := rows[1..];
      assert forall i :: 1 <= i < |rows| ==> rows[i] == rest[i - 1];
      if rows[0].track != t && StoredPosition(rows, t).Some? {
        var i :| 0 <= i < |rest| && rest[i].track == t;
        assert rows[i + 1].track == t;
      }
    }
  }

  /** A proposal that gets as far as looking: a track of the room that has the catalogue id
      and waits or plays is answered, with its votes and its stored position and however full
      the queue is. Otherwise the proposal is refused if as many tracks wait as the room
      allows, and accepted if fewer do. */
  lemma {:induction false} ProposeAnswers(db: Db, room: RoomId, caller: Caller, catalog: CatalogId,
                                          firstLook: Option<RoomStatus>, gap: nat)
    requires Inv(db) && MayPropose(db, room, caller, firstLook)
    ensures var answer := ProposeTrack(db, room, caller, catalog, firstLook, gap).result;
            && (forall t :: Occurrence(db, t, room, catalog) ==>
                  && answer.Ok? && answer.value.Duplicate? && answer.value.track == t
                  && answer.value.votes == VoteCount(db, t)
                  && PositionOf(db.queue[room], t, answer.value.position))
            && ((forall t :: !Occurrence(db, t, room, catalog)) ==>
                  answer == if WaitCount(db, room) >= db.rooms[room].queueLimit then Fail(QueueFull)
                            else Ok(Created(db.nextTrack)))
  {
    var answer := ProposeTrack(db, room, caller, catalog, firstLook, gap).result;
    if forall t :: !Occurrence(db, t, room, catalog) {
      forall t ensures !(IsActive(db.tracks, room, t) && db.tracks[t].catalog == catalog) {
        assert !Occurrence(db, t, room, catalog);
      }
    }
    assert WaitCount(db, room) == |QueuedIds(db.tracks, room)| by {
      assert (set t | t in db.tracks && Waits(db, t, room)) == QueuedIds(db.tracks, room);
    }
    forall t | Occurrence(db, t, room, catalog)
      ensures answer.Ok? && answer.value.Duplicate? && answer.value.track == t
      ensures answer.value.votes == VoteCount(db, t) && PositionOf(db.queue[room], t, answer.value.position)
    {
      assert IsActive(db.tracks, room, t);
      StoredRowsAscend(db, room);
      StoredPositionIs(db.queue[room], t);
      assert VotesOn(db.votes, t) == set v | v in db.votes && v.track == t;
    }
  }

  /** An accepted proposal adds one waiting track without votes, with a FIFO number above the
      last of its room, and announces it; any other changes nothing and sends nothing. */
  lemma {:induction false} ProposeEffect(db: Db, room: RoomId, caller: Caller, catalog: CatalogId,
                                         firstLook: Option<RoomStatus>, gap: nat)
    requires db.queue.Keys == db.rooms.Keys
    ensures var o := ProposeTrack(db, room, caller, catalog, firstLook, gap);
            if o.result.Ok? && o.result.value.Created? then
              && room in db.rooms
              && var fifo := db.rooms[room].lastFifo + 1 + gap;
                 && o.db == db.(tracks := db.tracks[db.nextTrack := Track(room, catalog, caller.session, Queued, 0, 0,
                                                                          fifo)],
                                rooms := db.rooms[room := db.rooms[room].(lastFifo := fifo)],
                                nextTrack := db.nextTrack + 1)
                 && o.result.value.track == db.nextTrack && o.signals == [TrackProposed(room, db.nextTrack)]
            else
              o.db == db && o.signals == []
  {
  }

  // ---------- deleting, ending, playing ----------

  /** The rows without those of a track, in their order. */
  ghost predicate RowsWithout(after: seq<Row>, before: seq<Row>, t: TrackId) {
    OneRowEach(after) && forall r :: r in after <==> r in before && r.track != t
  }

  lemma {:induction false} WithoutTrackIs(rows: seq<Row>, t: TrackId)
    requires OneRowEach(rows)
    ensures RowsWithout(WithoutTrack(rows, t), rows, t)
  {
    if rows != [] {
      var rest, after := WithoutTrack(rows[1..], t), WithoutTrack(rows, t);
      WithoutTrackIs(rows[1..], t);
      assert rows == [rows[0]] + rows[1..];
      if rows[0].track != t {
        assert after == [rows[0]] + rest;
        forall i, j | 0 <= i < j < |after|
          ensures after[i].position < after[j].position && after[i].track != after[j].track
        {
          assert after[j] in rest;
          assert after[j] in rows[1..];
          if i > 0 { assert after[i] == rest[i - 1]; }
        }
      }
    }
  }

  /** A delete succeeds exactly for a track of the room. The track, its votes and its row are
      gone; nothing else changes, and the other rows keep their positions. */
  lemma {:induction false} DeleteEffect(db: Db, room: RoomId, t: TrackId)
    requires Inv(db)
    ensures var o := DeleteTrack(db, room, t);
            && (o.result == Fail(RoomNotFound) <==> !KnownRoom(db, room))
            && (o.result == Fail(TrackNotFound) <==> KnownRoom(db, room) && !TrackOf(db, t, room))
            && (o.result == Ok(()) <==> KnownRoom(db, room) && TrackOf(db, t, room))
            && (o.result.Fail? ==> o.db == db && o.signals == [])
            && (o.result.Ok? ==>
                  && room in o.db.queue && RowsWithout(o.db.queue[room], db.queue[room], t)
                  && o.db == db.(tracks := db.tracks - {t},
                                 votes := (set v | v in db.votes && v.track != t),
                                 queue := db.queue[room := o.db.queue[room]])
                  && o.signals == [TrackDeleted(room, t)])
  {
    if KnownRoom(db, room) {
      StoredRowsAscend(db, room);
      WithoutTrackIs(db.queue[room], t);
      assert db.votes - VotesOn(db.votes, t) == set v | v in db.votes && v.track != t;
    }
  }

  /** Ending succeeds exactly for a track of the room that waits or plays, and changes its
      status and nothing else. */
  lemma {:induction false} EndEffect(db: Db, room: RoomId, t: TrackId, skipped: bool)
    requires Ready(db)
    ensures var o := SetTrackStatus(db, room, t, EndStatus(skipped));
            var status := if skipped then Skipped else Played;
            && Step(db, OpEnd(room, t, skipped)) == Outcome(o.db, o.signals)
            && (o.result == Fail(RoomNotFound) <==> !KnownRoom(db, room))
            && (o.result == Fail(TrackNotActive) <==> KnownRoom(db, room) && !Current(db, t, room))
            && (o.result == Ok(()) <==> KnownRoom(db, room) && Current(db, t, room))
            && (o.result.Fail? ==> o.db == db && o.signals == [])
            && (o.result.Ok? ==>
                  && o.db == db.(tracks := db.tracks[t := db.tracks[t].(status := status)])
                  && o.signals == [TrackEnded(room, t, status)])
  {
  }

  /** Playing succeeds exactly for a track of the room that waits or plays. It plays, what
      played in the room waits again, and nothing else changes; without success nothing
      changes at all. */
  lemma {:induction false} PlayEffect(db: Db, room: RoomId, t: TrackId)
    ensures var o := SetTrackPlaying(db, room, t);
            && (o.result == Fail(RoomNotFound) <==> !KnownRoom(db, room))
            && (o.result == Fail(TrackNotActive) <==> KnownRoom(db, room) && !Current(db, t, room))
            && (o.result == Ok(()) <==> KnownRoom(db, room) && Current(db, t, room))
            && (o.result.Fail? ==> o.db == db && o.signals == [])
            && (o.result.Ok? ==>
                  && o.db == db.(tracks := o.db.tracks) && o.db.tracks.Keys == db.tracks.Keys
                  && (forall u :: u in db.tracks ==>
                        o.db.tracks[u] == db.tracks[u].(status := if u == t then Playing
                                                                  else if Plays(db, u, room) then Queued
                                                                  else db.tracks[u].status))
                  && o.signals == [TrackPlaying(room, t)])
  {
  }

  // ---------- rooms ----------

  predicate Within(value: Option<int>, low: int, high: int) {
    value.Some? ==> low <= value.value <= high
  }

  function Given<T>(value: Option<T>, otherwise: T): T {
    match value
    case None => otherwise
    case Some(v) => v
  }

  /** A room is created exactly with a name and with settings in their ranges, and gets what
      is given, the defaults for the rest, an empty queue and an empty log. */
  lemma {:induction false} NewRoomEffect(db: Db, id: RoomId, name: string, s: Settings)
    ensures var o := CreateRoom(db, id, name, s);
            var valid := && name != "" && Within(s.queueLimit, 1, 200) && Within(s.maxVotes, 1, 20)
                         && Within(s.qrTtl, 60, 604800) && Within(s.recalcInterval, 2, 300);
            && (o.result == Fail(ValidationFailed) <==> !valid)
            && (o.result == Fail(DatabaseFault) <==> valid && KnownRoom(db, id))
            && (o.result == Ok(id) <==> valid && !KnownRoom(db, id))
            && o.signals == [] && (o.result.Fail? ==> o.db == db)
            && (o.result.Ok? ==>
                  var room := Room(Given(s.status, Draft), Given(s.queueLimit, 20), Given(s.maxVotes, 5),
                                   Given(s.qrTtl, 14400), Given(s.recalcInterval, 10), 0);
                  o.db == db.(rooms := db.rooms[id := room], queue := db.queue[id := []], log := db.log[id := []]))
  {
  }

  /** A patch succeeds exactly for a known room and limits in their ranges, and changes what is
      given and nothing else. */
  lemma {:induction false} PatchEffect(db: Db, room: RoomId, status: Option<RoomStatus>, limit: Option<int>,
                                       votes: Option<int>)
    ensures var o := PatchRoom(db, room, status, limit, votes);
            var valid := Within(limit, 1, 200) && Within(votes, 1, 20);
            && (o.result == Fail(ValidationFailed) <==> !valid)
            && (o.result == Fail(RoomNotFound) <==> valid && !KnownRoom(db, room))
            && (o.result.Ok? <==> valid && KnownRoom(db, room))
            && o.signals == [] && (o.result.Fail? ==> o.db == db)
            && (o.result.Ok? ==>
                  var before := db.rooms[room];
                  var after := Room(Given(status, before.status), Given(limit, before.queueLimit),
                                    Given(votes, before.maxVotes), before.qrTtl, before.recalcInterval,
                                    before.lastFifo);
                  o.result.value == after && o.db == db.(rooms := db.rooms[room := after]))
  {
  }
}
