/**
 Bounds and permanence over whole runs: the queue bound, the vote quota, ids and FIFO
 numbers that never change, ended tracks that stay ended, and what one vote does to the
 ranking.
 */
module History {
  import opened Common
  import opened Ranking
  import opened Versions
  import opened Tables
  import opened Invariants
  import opened Operations
  import opened Preservation

  // ---------- the queue bound ----------

  ghost predicate AcceptsProposal(db: Db, op: Op, room: RoomId)
    requires Ready(db)
  {
    && op.OpPropose? && op.room == room
    && var o := ProposeTrack(db, room, op.caller, op.catalog, op.firstLook, op.gap);
       o.result.Ok? && o.result.value.Created?
  }

  /** The queue limit in force when the room last accepted a proposal. */
  ghost function LimitAtLastProposal(ops: seq<Op>, room: RoomId): Option<nat> {
    if ops == [] then None
    else
      var before := ops[..|ops| - 1];
      if AcceptsProposal(Reach(before), Last(ops), room) && room in Reach(before).rooms
      then Some(Reach(before).rooms[room].queueLimit)
      else LimitAtLastProposal(before, room)
  }

  lemma QueuedSubset(before: map<TrackId, Track>, after: map<TrackId, Track>, room: RoomId)
    requires forall t :: IsQueued(after, room, t) ==> IsQueued(before, room, t)
    ensures |QueuedIds(after, room)| <= |QueuedIds(before, room)|
  {
    CardinalitySubset(QueuedIds(after, room), QueuedIds(before, room));
  }

  /** Demoting the playing track and promoting another does not lengthen the queue,
      because at most one track of a room is playing. */
  lemma {:induction false} PlayingDoesNotLengthenQueue(tracks: map<TrackId, Track>, room: RoomId, t: TrackId, r: RoomId)
    requires OnePlaying(tracks) && IsActive(Demoted(tracks, room), room, t)
    ensures |QueuedIds(WithStatus(Demoted(tracks, room), room, t, Playing), r)| <= |QueuedIds(tracks, r)|
  {
    var after := WithStatus(Demoted(tracks, room), room, t, Playing);
    if r != room || IsPlaying(tracks, room, t) || NowPlaying(tracks, room).None? {
      QueuedSubset(tracks, after, r);
    } else {
      var p := NowPlaying(tracks, room).value;
      var q := QueuedIds(tracks, room);
      assert t in q && p !in q;
      assert QueuedIds(after, room) <= q - {t} + {p};
      CardinalitySubset(QueuedIds(after, room), q - {t} + {p});
    }
  }

  lemma TrackOpsDoNotLengthenQueue(db: Db, room: RoomId, t: TrackId, session: SessionId, skipped: bool, r: RoomId)
    requires db.queue.Keys == db.rooms.Keys
    ensures |QueuedIds(DeleteTrack(db, room, t).db.tracks, r)| <= |QueuedIds(db.tracks, r)|
    ensures |QueuedIds(SetTrackStatus(db, room, t, EndStatus(skipped)).db.tracks, r)| <= |QueuedIds(db.tracks, r)|
    ensures |QueuedIds(AddVote(db, room, session, t).db.tracks, r)| <= |QueuedIds(db.tracks, r)|
  {
    QueuedSubset(db.tracks, DeleteTrack(db, room, t).db.tracks, r);
    QueuedSubset(db.tracks, SetTrackStatus(db, room, t, EndStatus(skipped)).db.tracks, r);
    QueuedSubset(db.tracks, AddVote(db, room, session, t).db.tracks, r);
  }

  lemma NewTrackQueue(tracks: map<TrackId, Track>, t: TrackId, added: Track, r: RoomId)
    requires t !in tracks && added.status == Queued
    ensures |QueuedIds(tracks[t := added], r)| == |QueuedIds(tracks, r)| + (if r == added.room then 1 else 0)
  {
    if r == added.room {
      assert QueuedIds(tracks[t := added], r) == QueuedIds(tracks, r) + {t};
    } else {
      assert QueuedIds(tracks[t := added], r) == QueuedIds(tracks, r);
    }
  }

  lemma ProposalQueue(db: Db, room: RoomId, caller: Caller, catalog: CatalogId, firstLook: Option<RoomStatus>,
                      gap: nat, r: RoomId)
    requires db.queue.Keys == db.rooms.Keys && db.nextTrack !in db.tracks
    ensures var o := ProposeTrack(db, room, caller, catalog, firstLook, gap);
            var accepted := o.result.Ok? && o.result.value.Created? && r == room;
            && (!accepted ==> |QueuedIds(o.db.tracks, r)| == |QueuedIds(db.tracks, r)|)
            && (accepted ==> r in db.rooms && |QueuedIds(o.db.tracks, r)| <= db.rooms[r].queueLimit)
  {
    ProposeCases(db, room, caller, catalog, firstLook, gap);
    var o := ProposeTrack(db, room, caller, catalog, firstLook, gap);
    if o.result.Ok? && o.result.value.Created? {
      NewTrackQueue(db.tracks, db.nextTrack, o.db.tracks[db.nextTrack], r);
    }
  }

  lemma PlayingQueue(db: Db, room: RoomId, t: TrackId, r: RoomId)
    requires OnePlaying(db.tracks)
    ensures |QueuedIds(SetTrackPlaying(db, room, t).db.tracks, r)| <= |QueuedIds(db.tracks, r)|
  {
    if SetTrackPlaying(db, room, t).result.Ok? { PlayingDoesNotLengthenQueue(db.tracks, room, t, r); }
  }

  lemma ScoringQueue(db: Db, room: RoomId, now: Nanos, createdAt: Micros, id: nat, r: RoomId)
    requires Ready(db)
    ensures |QueuedIds(RecalculateRoomQueue(db, room, now, createdAt, id).db.tracks, r)| <= |QueuedIds(db.tracks, r)|
  {
    QueuedSubset(db.tracks, RecalculateRoomQueue(db, room, now, createdAt, id).db.tracks, r);
  }

  lemma QueueStep(db: Db, op: Op, room: RoomId)
    requires Ready(db) && OnePlaying(db.tracks) && db.nextTrack !in db.tracks
    ensures !AcceptsProposal(db, op, room) ==> |QueuedIds(Step(db, op).db.tracks, room)| <= |QueuedIds(db.tracks, room)|
    ensures AcceptsProposal(db, op, room) ==>
              room in db.rooms && |QueuedIds(Step(db, op).db.tracks, room)| <= db.rooms[room].queueLimit
  {
    match op
    case OpPropose(r, caller, catalog, firstLook, gap) => ProposalQueue(db, r, caller, catalog, firstLook, gap, room);
    case OpVote(r, session, t) => TrackOpsDoNotLengthenQueue(db, r, t, session, true, room);
    case OpDelete(r, t) => TrackOpsDoNotLengthenQueue(db, r, t, 0, true, room);
    case OpEnd(r, t, skipped) => TrackOpsDoNotLengthenQueue(db, r, t, 0, skipped, room);
    case OpPlay(r, t) => PlayingQueue(db, r, t, room);
    case OpRecalculate(r, now, createdAt, id) => ScoringQueue(db, r, now, createdAt, id, room);
    case OpCreateRoom(id, name, settings) =>
    case OpPatchRoom(r, status, limit, votes) =>
    case OpJoin(first, second, known, nickname) =>
    case OpLeave(session, r) =>
    case OpFault =>
  }

  /** Over every run the queue of a room is never longer than the limit in force when the
      room last accepted a proposal, and empty when it never did. */
  lemma {:induction false} QueueBound(ops: seq<Op>, room: RoomId)
    ensures var limit := LimitAtLastProposal(ops, room);
            |QueuedIds(Reach(ops).tracks, room)| <= (if limit.Some? then limit.value else 0)
  {
    if ops == [] {
      assert QueuedIds(Reach(ops).tracks, room) == {};
    } else {
      QueueBound(ops[..|ops| - 1], room);
      ReachInv(ops[..|ops| - 1]);
      QueueStep(Reach(ops[..|ops| - 1]), Last(ops), room);
    }
  }

  // ---------- vote accounting ----------

  ghost predicate AcceptsVote(db: Db, op: Op, room: RoomId, session: SessionId) {
    op.OpVote? && op.room == room && op.session == session && AddVote(db, room, session, op.track).result.Ok?
  }

  /** The vote limit in force when the session last voted in the room. */
  ghost function LimitAtLastVote(ops: seq<Op>, room: RoomId, session: SessionId): Option<nat> {
    if ops == [] then None
    else
      var before := ops[..|ops| - 1];
      if AcceptsVote(Reach(before), Last(ops), room, session) && room in Reach(before).rooms
      then Some(Reach(before).rooms[room].maxVotes)
      else LimitAtLastVote(before, room, session)
  }

  lemma VotesByAfterInsert(votes: set<Vote>, v: Vote, room: RoomId, s: SessionId)
    requires v !in votes
    ensures |VotesBy(votes + {v}, room, s)|
            == |VotesBy(votes, room, s)| + (if v.room == room && v.session == s then 1 else 0)
  {
    if v.room == room && v.session == s {
      assert VotesBy(votes + {v}, room, s) == VotesBy(votes, room, s) + {v};
    } else {
      assert VotesBy(votes + {v}, room, s) == VotesBy(votes, room, s);
    }
  }

  lemma VoteStep(db: Db, op: Op, room: RoomId, s: SessionId)
    requires Ready(db)
    ensures !AcceptsVote(db, op, room, s) ==> |VotesBy(Step(db, op).db.votes, room, s)| <= |VotesBy(db.votes, room, s)|
    ensures AcceptsVote(db, op, room, s) ==>
              room in db.rooms && |VotesBy(Step(db, op).db.votes, room, s)| <= db.rooms[room].maxVotes
  {
    match op
    case OpVote(r, session, t) =>
      if AddVote(db, r, session, t).result.Ok? { VotesByAfterInsert(db.votes, Vote(r, t, session), room, s); }
    case OpDelete(r, t) =>
      CardinalitySubset(VotesBy(DeleteTrack(db, r, t).db.votes, room, s), VotesBy(db.votes, room, s));
    case OpPropose(r, caller, catalog, firstLook, gap) => ProposeCases(db, r, caller, catalog, firstLook, gap);
    case _ =>
  }

  /** Over every run a session's votes in a room never exceed the limit in force at its
      last accepted vote there. */
  lemma {:induction false} VoteQuota(ops: seq<Op>, room: RoomId, s: SessionId)
    ensures var limit := LimitAtLastVote(ops, room, s);
            |VotesBy(Reach(ops).votes, room, s)| <= (if limit.Some? then limit.value else 0)
  {
    if ops == [] {
      assert VotesBy(Reach(ops).votes, room, s) == {};
    } else {
      VoteQuota(ops[..|ops| - 1], room, s);
      VoteStep(Reach(ops[..|ops| - 1]), Last(ops), room, s);
    }
  }

  /** The count and the remaining quota in the receipt are those of the committed tables. */
  lemma {:induction false} ReceiptIsCommitted(db: Db, room: RoomId, session: SessionId, t: TrackId)
    requires Inv(db) && AddVote(db, room, session, t).result.Ok?
    ensures var o := AddVote(db, room, session, t);
            var receipt := o.result.value;
            && receipt.track == t
            && receipt.count == |VotesOn(o.db.votes, t)|
            && receipt.remaining == o.db.rooms[room].maxVotes - |VotesBy(o.db.votes, room, session)|
            && 0 <= receipt.remaining
            && o.signals == [VoteReceived(room, t, |VotesOn(o.db.votes, t)|)]
  {
    var v := Vote(room, t, session);
    VotesAfterInsert(db.votes, v, t);
    VotesByAfterInsert(db.votes, v, room, session);
  }

  // ---------- what never changes ----------

  ghost predicate Ended(s: TrackStatus) {
    s == Played || s == Skipped
  }

  /** A later state: removed ids do not come back, surviving tracks keep their room,
      catalogue id, proposer and FIFO number, and ended tracks keep their status. */
  ghost predicate Aged(before: map<TrackId, Track>, next: int, now: map<TrackId, Track>) {
    && (forall t :: t in now && t < next ==> t in before)
    && (forall t :: t in now && t in before ==>
          && now[t].room == before[t].room && now[t].catalog == before[t].catalog
          && now[t].proposer == before[t].proposer && now[t].fifo == before[t].fifo
          && (Ended(before[t].status) ==> now[t].status == before[t].status))
  }

  lemma DeletingAges(db: Db, room: RoomId, t: TrackId)
    requires db.queue.Keys == db.rooms.Keys
    ensures Aged(db.tracks, db.nextTrack, DeleteTrack(db, room, t).db.tracks)
  {
  }

  lemma EndingAges(db: Db, room: RoomId, t: TrackId, skipped: bool)
    ensures Aged(db.tracks, db.nextTrack, SetTrackStatus(db, room, t, EndStatus(skipped)).db.tracks)
  {
  }

  lemma VotingAges(db: Db, room: RoomId, session: SessionId, t: TrackId)
    ensures Aged(db.tracks, db.nextTrack, AddVote(db, room, session, t).db.tracks)
  {
  }

  lemma PlayingAges(db: Db, room: RoomId, t: TrackId)
    ensures Aged(db.tracks, db.nextTrack, SetTrackPlaying(db, room, t).db.tracks)
  {
  }

  lemma ProposingAges(db: Db, room: RoomId, caller: Caller, catalog: CatalogId, firstLook: Option<RoomStatus>, gap: nat)
    requires db.queue.Keys == db.rooms.Keys && db.nextTrack !in db.tracks
    ensures var db' := ProposeTrack(db, room, caller, catalog, firstLook, gap).db;
            Aged(db.tracks, db.nextTrack, db'.tracks) && db.nextTrack <= db'.nextTrack
  {
    ProposeCases(db, room, caller, catalog, firstLook, gap);
  }

  lemma ScoringAges(tracks: map<TrackId, Track>, next: int, room: RoomId, scores: map<TrackId, nat>)
    ensures Aged(tracks, next, Scored(tracks, room, scores))
  {
  }

  lemma StepAges(db: Db, op: Op)
    requires Ready(db) && db.nextTrack !in db.tracks
    ensures Aged(db.tracks, db.nextTrack, Step(db, op).db.tracks) && db.nextTrack <= Step(db, op).db.nextTrack
  {
    match op
    case OpPropose(r, caller, catalog, firstLook, gap) => ProposingAges(db, r, caller, catalog, firstLook, gap);
    case OpVote(r, session, t) => VotingAges(db, r, session, t);
    case OpDelete(r, t) => DeletingAges(db, r, t);
    case OpEnd(r, t, skipped) => EndingAges(db, r, t, skipped);
    case OpPlay(r, t) => PlayingAges(db, r, t);
    case OpRecalculate(r, now, createdAt, id) =>
      if r in db.rooms { ScoringAges(db.tracks, db.nextTrack, r, ScoresOf(RankedNow(db, r))); }
    case OpCreateRoom(id, name, settings) =>
    case OpPatchRoom(r, status, limit, votes) =>
    case OpJoin(first, second, known, nickname) =>
    case OpLeave(session, r) =>
    case OpFault =>
  }

  /** Aging composes. */
  lemma AgedTwice(a: map<TrackId, Track>, nextA: int, b: map<TrackId, Track>, nextB: int, c: map<TrackId, Track>)
    requires Aged(a, nextA, b) && Aged(b, nextB, c) && nextA <= nextB
    requires forall t :: t in a ==> t < nextA
    ensures Aged(a, nextA, c)
  {
  }

  lemma KnownIds(ops: seq<Op>)
    ensures forall t :: t in Reach(ops).tracks ==> t < Reach(ops).nextTrack
  {
    ReachInv(ops);
  }

  lemma ReachAges(ops: seq<Op>)
    requires ops != []
    ensures var before := Reach(ops[..|ops| - 1]);
            Aged(before.tracks, before.nextTrack, Reach(ops).tracks) && before.nextTrack <= Reach(ops).nextTrack
  {
    ReachInv(ops[..|ops| - 1]);
    StepAges(Reach(ops[..|ops| - 1]), Last(ops));
  }

  /** Over every run from any point on. */
  lemma {:induction false} TracksArePermanent(ops: seq<Op>, i: nat)
    requires i <= |ops|
    ensures Aged(Reach(ops[..i]).tracks, Reach(ops[..i]).nextTrack, Reach(ops).tracks)
    ensures Reach(ops[..i]).nextTrack <= Reach(ops).nextTrack
    decreases |ops|
  {
    if i == |ops| {
      assert ops[..i] == ops;
    } else {
      var front := ops[..|ops| - 1];
      assert front[..i] == ops[..i];
      TracksArePermanent(front, i);
      ReachAges(ops);
      KnownIds(ops[..i]);
      AgedTwice(Reach(ops[..i]).tracks, Reach(ops[..i]).nextTrack, Reach(front).tracks, Reach(front).nextTrack,
                Reach(ops).tracks);
    }
  }

  /** In every reachable state a room has at most one active occurrence of a catalogue
      track and at most one playing track. */
  lemma {:induction false} ActiveOccurrencesAreUnique(ops: seq<Op>, room: RoomId, t: TrackId, u: TrackId)
    requires IsActive(Reach(ops).tracks, room, t) && IsActive(Reach(ops).tracks, room, u) && t != u
    ensures Reach(ops).tracks[t].catalog != Reach(ops).tracks[u].catalog
    ensures !(IsPlaying(Reach(ops).tracks, room, t) && IsPlaying(Reach(ops).tracks, room, u))
  {
    ReachInv(ops);
  }

  // ---------- votes and the ranking ----------

  lemma {:induction false} EntryAfterVote(db: Db, v: Vote, u: TrackId)
    requires v !in db.votes && v.track in db.tracks && u in db.tracks
    ensures var tracks := db.tracks[v.track := Counted(db.tracks[v.track])];
            var e := EntryOf(db.tracks, db.votes, db.sessions, u);
            EntryOf(tracks, db.votes + {v}, db.sessions, u) == if u == v.track then Voted(e) else e
  {
    VotesAfterInsert(db.votes, v, u);
  }

  lemma {:induction false} EntriesAfterVote(db: Db, v: Vote)
    requires v !in db.votes && IsQueued(db.tracks, v.room, v.track)
    ensures var tracks := db.tracks[v.track := Counted(db.tracks[v.track])];
            var before := Entries(db.tracks, db.votes, db.sessions, v.room);
            var e := EntryOf(db.tracks, db.votes, db.sessions, v.track);
            e in before && Entries(tracks, db.votes + {v}, db.sessions, v.room) == before - {e} + {Voted(e)}
  {
    var tracks := db.tracks[v.track := Counted(db.tracks[v.track])];
    assert QueuedIds(tracks, v.room) == QueuedIds(db.tracks, v.room);
    forall u | u in QueuedIds(db.tracks, v.room)
      ensures EntryOf(tracks, db.votes + {v}, db.sessions, u)
              == if u == v.track then Voted(EntryOf(db.tracks, db.votes, db.sessions, u))
                 else EntryOf(db.tracks, db.votes, db.sessions, u)
    {
      EntryAfterVote(db, v, u);
    }
  }

  lemma {:induction false} VoteChangesOneEntry(db: Db, room: RoomId, session: SessionId, t: TrackId)
    requires Inv(db) && AddVote(db, room, session, t).result.Ok? && IsQueued(db.tracks, room, t)
    ensures var db' := AddVote(db, room, session, t).db;
            var e := EntryOf(db.tracks, db.votes, db.sessions, t);
            && e in Entries(db.tracks, db.votes, db.sessions, room)
            && Entries(db'.tracks, db'.votes, db'.sessions, room)
               == Entries(db.tracks, db.votes, db.sessions, room) - {e} + {Voted(e)}
  {
    EntriesAfterVote(db, Vote(room, t, session));
  }

  /** A vote for a track in the ranked part of the queue keeps it there. */
  lemma VoteKeepsListed(db: Db, room: RoomId, session: SessionId, t: TrackId)
    requires Inv(db) && AddVote(db, room, session, t).result.Ok? && IsQueued(db.tracks, room, t)
    requires Ready(AddVote(db, room, session, t).db)
    ensures (exists x :: x in RankedNow(db, room) && x.id == t) ==>
              exists x :: x in RankedNow(AddVote(db, room, session, t).db, room) && x.id == t
  {
    if x :| x in RankedNow(db, room) && x.id == t {
      var e := EntryOf(db.tracks, db.votes, db.sessions, t);
      RankedFacts(db, room);
      var p :| 0 <= p < |RankedNow(db, room)| && RankedNow(db, room)[p] == x;
      assert x == e;
      FifoOrderIsDistinct(db, room);
      EntriesDistinct(db.tracks, db.votes, db.sessions, room);
      VoteChangesOneEntry(db, room, session, t);
      VoteKeepsTopK(Entries(db.tracks, db.votes, db.sessions, room), e, db.rooms[room].queueLimit);
      assert Voted(e) in RankedNow(AddVote(db, room, session, t).db, room) && Voted(e).id == t;
    }
  }

  /** A vote for a queued track never worsens its rank, keeps the relative order of all
      other tracks and never drops it from the ranked part of the queue. */
  lemma {:induction false} VoteLiftsTrack(db: Db, room: RoomId, session: SessionId, t: TrackId) returns (i: nat, j: nat)
    requires Inv(db) && AddVote(db, room, session, t).result.Ok? && IsQueued(db.tracks, room, t)
    ensures var db' := AddVote(db, room, session, t).db;
            && DistinctFifo(Entries(db.tracks, db.votes, db.sessions, room))
            && DistinctFifo(Entries(db'.tracks, db'.votes, db'.sessions, room))
            && Inv(db')
            && var before := Rank(Entries(db.tracks, db.votes, db.sessions, room));
               var after := Rank(Entries(db'.tracks, db'.votes, db'.sessions, room));
               && j <= i < |before| == |after|
               && before[i].id == t && after[j].id == t
               && before[..i] + before[i + 1..] == after[..j] + after[j + 1..]
               && ((exists x :: x in RankedNow(db, room) && x.id == t)
                   ==> (exists x :: x in RankedNow(db', room) && x.id == t))
  {
    var db' := AddVote(db, room, session, t).db;
    AddVoteKeepsInv(db, room, session, t);
    var es := Entries(db.tracks, db.votes, db.sessions, room);
    FifoOrderIsDistinct(db, room);
    EntriesDistinct(db.tracks, db.votes, db.sessions, room);
    VoteChangesOneEntry(db, room, session, t);
    i, j := VoteNeverWorsens(es, EntryOf(db.tracks, db.votes, db.sessions, t));
    VoteKeepsListed(db, room, session, t);
  }

  /** Among equal votes the track whose proposal the room accepted first is ahead. */
  lemma {:induction false} EarlierProposalIsAhead(ops: seq<Op>, room: RoomId, t: TrackId, u: TrackId)
    requires IsQueued(Reach(ops).tracks, room, t) && IsQueued(Reach(ops).tracks, room, u)
    requires |VotesOn(Reach(ops).votes, t)| == |VotesOn(Reach(ops).votes, u)|
    ensures var db := Reach(ops);
            Ahead(EntryOf(db.tracks, db.votes, db.sessions, t), EntryOf(db.tracks, db.votes, db.sessions, u)) <==> t < u
  {
    var db := Reach(ops);
    assert FifoOrder(db);
    if u < t { assert db.tracks[u].fifo < db.tracks[t].fifo; }
  }

  // ---------- sessions ----------

  /** Sessions are never removed and never move to another room. */
  ghost predicate SessionsKept(before: map<SessionId, Session>, now: map<SessionId, Session>) {
    forall s :: s in before ==> s in now && now[s].room == before[s].room
  }

  lemma StepKeepsSessions(db: Db, op: Op)
    requires Ready(db) && db.nextSession !in db.sessions
    ensures SessionsKept(db.sessions, Step(db, op).db.sessions)
  {
    match op
    case OpPropose(r, caller, catalog, firstLook, gap) => ProposeCases(db, r, caller, catalog, firstLook, gap);
    case _ =>
  }

  /** Over every run from any point on a session stays in its room; changing rooms takes a
      new session. */
  lemma {:induction false} SessionsKeepTheirRoom(ops: seq<Op>, i: nat)
    requires i <= |ops|
    ensures SessionsKept(Reach(ops[..i]).sessions, Reach(ops).sessions)
    decreases |ops|
  {
    if i == |ops| {
      assert ops[..i] == ops;
    } else {
      var front := ops[..|ops| - 1];
      assert front[..i] == ops[..i];
      SessionsKeepTheirRoom(front, i);
      ReachInv(front);
      StepKeepsSessions(Reach(front), Last(ops));
    }
  }

  /** Whatever step takes a session out of its room also signals that the session's sockets
      are to be disconnected from that room; a leave names the room the session was read in,
      which never changes. */
  lemma {:induction false} EndedSessionsAreSignalled(db: Db, op: Op, s: SessionId)
    requires Ready(db) && db.nextSession !in db.sessions
    requires s in db.sessions && db.sessions[s].status == Joined
    requires op.OpLeave? && op.session in db.sessions ==> op.room == db.sessions[op.session].room
    requires s in Step(db, op).db.sessions && Step(db, op).db.sessions[s].status == Left
    ensures Disconnected(db.sessions[s].room, s) in Step(db, op).signals
  {
    match op
    case OpPropose(r, caller, catalog, firstLook, gap) => ProposeCases(db, r, caller, catalog, firstLook, gap);
    case _ =>
  }

  /** A successful join leaves its caller with an active session of the room under the given
      nickname: the one its token belongs to if that is a session of the room, otherwise a
      new one, which nothing referred to before. The session of another room that is left
      is the only other one that changes. */
  lemma {:induction false} JoinedSession(db: Db, firstLook: Option<RoomId>, secondLook: Option<RoomId>,
                                         known: Option<SessionId>, nickname: string)
    requires Inv(db) && Join(db, firstLook, secondLook, known, nickname).result.Ok?
    ensures var o := Join(db, firstLook, secondLook, known, nickname);
            var s := o.result.value;
            && firstLook.Some? && secondLook == firstLook
            && s in o.db.sessions && o.db.sessions[s] == Session(firstLook.value, nickname, Joined)
            && (s in db.sessions <==> known == Some(s) && InRoomSession(db, s, firstLook.value))
            && (s !in db.sessions ==> Unreferenced(db, s))
            && (forall u :: u in db.sessions && u != s ==>
                  && u in o.db.sessions
                  && o.db.sessions[u] == if known == Some(u) then db.sessions[u].(status := Left) else db.sessions[u])
  {
  }

  ghost predicate InRoomSession(db: Db, s: SessionId, room: RoomId) {
    s in db.sessions && db.sessions[s].room == room
  }

  /** No track and no vote names the session. */
  ghost predicate Unreferenced(db: Db, s: SessionId) {
    && (forall t :: t in db.tracks ==> db.tracks[t].proposer != s)
    && (forall v :: v in db.votes ==> v.session != s)
  }

  // ---------- rooms ----------

  /** Rooms are never removed and keep their recalculation interval and code lifetime. */
  ghost predicate RoomsKept(before: map<RoomId, Room>, now: map<RoomId, Room>) {
    forall r :: r in before ==>
      r in now && now[r].recalcInterval == before[r].recalcInterval && now[r].qrTtl == before[r].qrTtl
  }

  lemma StepKeepsRooms(db: Db, op: Op)
    requires Ready(db)
    ensures RoomsKept(db.rooms, Step(db, op).db.rooms)
  {
    StepIsUseCase(db, op);
    if op.OpPropose? { ProposeCases(db, op.room, op.caller, op.catalog, op.firstLook, op.gap); }
  }

  /** Over every run from any point on a room keeps the pace it was created with. */
  lemma {:induction false} IntervalsNeverChange(ops: seq<Op>, i: nat)
    requires i <= |ops|
    ensures RoomsKept(Reach(ops[..i]).rooms, Reach(ops).rooms)
    decreases |ops|
  {
    if i == |ops| {
      assert ops[..i] == ops;
    } else {
      var front := ops[..|ops| - 1];
      assert front[..i] == ops[..i];
      IntervalsNeverChange(front, i);
      StepKeepsRooms(Reach(front), Last(ops));
    }
  }
}
