/**
 Every use case keeps the invariants.
 */
module Preservation {
  import opened Common
  import opened Ranking
  import opened Versions
  import opened Tables
  import opened Invariants
  import opened Operations

  // ---------- the derived tables ----------

  lemma {:induction false} RowsFromFrame(items: seq<Mark>, k: nat, at: Nanos, before: map<TrackId, Track>,
                                         after: map<TrackId, Track>)
    requires k <= |items|
    requires forall i :: k <= i < |items| ==>
               && (items[i].id in before <==> items[i].id in after)
               && (items[i].id in before ==> before[items[i].id].fifo == after[items[i].id].fifo)
    ensures RowsFrom(items, k, at, before) == RowsFrom(items, k, at, after)
    decreases |items| - k
  {
    if k < |items| {
      RowsFromFrame(items, k + 1, at, before, after);
    }
  }

  lemma {:induction false} RowsFromDelete(items: seq<Mark>, k: nat, at: Nanos, tracks: map<TrackId, Track>, d: TrackId)
    requires k <= |items|
    ensures RowsFrom(items, k, at, tracks - {d}) == WithoutTrack(RowsFrom(items, k, at, tracks), d)
    decreases |items| - k
  {
    if k < |items| {
      RowsFromDelete(items, k + 1, at, tracks, d);
      var rest := RowsFrom(items, k + 1, at, tracks);
      if items[k].id in tracks {
        var r := Row(items[k].id, k + 1, items[k].votes, items[k].votes, tracks[items[k].id].fifo, at);
        assert ([r] + rest)[1..] == rest;
      }
    }
  }

  /** No known track is removed, moved or renumbered, and the active tracks are old active
      tracks with their old score, or new ones with score 0. */
  ghost predicate TracksEvolve(before: map<TrackId, Track>, after: map<TrackId, Track>, room: RoomId, next: int) {
    && (forall t :: t < next ==> (t in before <==> t in after))
    && (forall t :: t in before && t in after ==> before[t].fifo == after[t].fifo && before[t].room == after[t].room)
    && (forall t :: IsActive(after, room, t) ==>
          || (IsActive(before, room, t) && before[t].scoreCached == after[t].scoreCached)
          || (t >= next && after[t].scoreCached == 0))
  }

  lemma DerivedFrame(log: Log, rows: seq<Row>, room: RoomId, before: map<TrackId, Track>, after: map<TrackId, Track>,
                     next: int, next': int)
    requires DerivedAsLogged(log, rows, room, before, next)
    requires TracksEvolve(before, after, room, next) && next <= next'
    ensures DerivedAsLogged(log, rows, room, after, next')
  {
    if log != [] {
      var e := Last(log);
      RowsFromFrame(e.fingerprint.items, 0, e.updatedAt, before, after);
      assert MarksKnown(e.fingerprint, room, after, next');
      forall t | IsActive(after, room, t) ensures ScoreAsLogged(e.fingerprint, t, after[t].scoreCached) {
        if !(IsActive(before, room, t) && before[t].scoreCached == after[t].scoreCached) {
          assert t >= next;
        }
      }
    }
  }

  /** The same for every room. */
  ghost predicate Evolves(before: map<TrackId, Track>, after: map<TrackId, Track>, next: int) {
    forall r :: TracksEvolve(before, after, r, next)
  }

  lemma AllDerivedFrame(db: Db, db': Db)
    requires Derived(db) && DerivedShared(db, db')
    requires Evolves(db.tracks, db'.tracks, db.nextTrack)
    ensures Derived(db')
  {
    forall r | r in db'.rooms
      ensures NonDecreasing(db'.log[r]) && DerivedAsLogged(db'.log[r], db'.queue[r], r, db'.tracks, db'.nextTrack)
    {
      DerivedFrame(db.log[r], db.queue[r], r, db.tracks, db'.tracks, db.nextTrack, db'.nextTrack);
    }
  }

  ghost predicate DerivedShared(db: Db, db': Db) {
    && db.queue == db'.queue && db.log == db'.log && db.rooms.Keys == db'.rooms.Keys
    && db.nextTrack <= db'.nextTrack
  }

  // ---------- rooms and sessions ----------

  lemma NewRoomKeepsDerived(db: Db, id: RoomId, added: Room)
    requires References(db) && Derived(db) && id !in db.rooms
    ensures Derived(db.(rooms := db.rooms[id := added], queue := db.queue[id := []], log := db.log[id := []]))
  {
    var db' := db.(rooms := db.rooms[id := added], queue := db.queue[id := []], log := db.log[id := []]);
    assert db'.rooms.Keys == db.rooms.Keys + {id} == db'.queue.Keys == db'.log.Keys;
  }

  lemma CreateRoomKeepsInv(db: Db, id: RoomId, name: string, settings: Settings)
    requires Inv(db)
    ensures Inv(CreateRoom(db, id, name, settings).db)
  {
    var db' := CreateRoom(db, id, name, settings).db;
    if db' != db {
      assert db'.rooms.Keys == db.rooms.Keys + {id};
      assert db'.queue.Keys == db'.rooms.Keys && db'.log.Keys == db'.rooms.Keys;
      NewRoomKeepsDerived(db, id, db'.rooms[id]);
    }
  }

  lemma PatchRoomKeepsInv(db: Db, room: RoomId, status: Option<RoomStatus>, queueLimit: Option<int>,
                          maxVotes: Option<int>)
    requires Inv(db)
    ensures Inv(PatchRoom(db, room, status, queueLimit, maxVotes).db)
  {
    var db' := PatchRoom(db, room, status, queueLimit, maxVotes).db;
    assert db'.rooms.Keys == db.rooms.Keys;
    assert Derived(db');
  }

  lemma AdmittedKeepsInv(db: Db, room: RoomId, known: Option<SessionId>, nickname: string)
    requires Inv(db) && room in db.rooms
    ensures Inv(Admitted(db, room, known, nickname).db)
  {
    var db' := Admitted(db, room, known, nickname).db;
    assert forall s :: s in db.sessions ==> s in db'.sessions && db'.sessions[s].room == db.sessions[s].room;
    assert References(db');
    assert VoteReferences(db');
    assert Derived(db');
  }

  lemma JoinKeepsInv(db: Db, firstLook: Option<RoomId>, secondLook: Option<RoomId>, known: Option<SessionId>,
                     nickname: string)
    requires Inv(db)
    ensures Inv(Join(db, firstLook, secondLook, known, nickname).db)
  {
    if Join(db, firstLook, secondLook, known, nickname).result.Ok? {
      AdmittedKeepsInv(db, firstLook.value, known, nickname);
    }
  }

  lemma LeaveKeepsInv(db: Db, session: SessionId, room: RoomId)
    requires Inv(db)
    ensures Inv(Leave(db, session, room).db)
  {
    var db' := Leave(db, session, room).db;
    assert forall s :: s in db.sessions <==> s in db'.sessions;
    assert forall s :: s in db.sessions ==> db'.sessions[s].room == db.sessions[s].room;
    assert References(db');
    assert VoteReferences(db');
    assert Derived(db');
  }

  // ---------- proposals and votes ----------

  lemma NoDuplicateMeansNone(tracks: map<TrackId, Track>, room: RoomId, c: CatalogId)
    requires ActiveDuplicate(tracks, room, c).None?
    ensures forall t :: IsActive(tracks, room, t) ==> tracks[t].catalog != c
  {
  }

  /** The tracks after a queued track with a fresh id has been added. */
  lemma NewTrackKeepsUniqueness(tracks: map<TrackId, Track>, t: TrackId, added: Track)
    requires OnePlaying(tracks) && ActiveUnique(tracks)
    requires t !in tracks && added.status == Queued
    requires ActiveDuplicate(tracks, added.room, added.catalog).None? && added.scoreCached == 0
    ensures OnePlaying(tracks[t := added]) && ActiveUnique(tracks[t := added])
    ensures Evolves(tracks, tracks[t := added], t)
  {
    var after := tracks[t := added];
    NoDuplicateMeansNone(tracks, added.room, added.catalog);
    assert forall r, u :: IsPlaying(after, r, u) ==> IsPlaying(tracks, r, u);
    assert forall r, u :: IsActive(after, r, u) && u != t ==> IsActive(tracks, r, u);
  }

  lemma NewTrackKeepsAccounts(db: Db, db': Db, added: Track)
    requires References(db) && VoteReferences(db) && FifoOrder(db) && VoteCounts(db)
    requires added.room in db.rooms && added.voteCountCached == 0 && db.rooms[added.room].lastFifo < added.fifo
    requires added.proposer in db.sessions && db.sessions[added.proposer].room == added.room
    requires db' == db.(rooms := db.rooms[added.room := db.rooms[added.room].(lastFifo := added.fifo)],
                        tracks := db.tracks[db.nextTrack := added], nextTrack := db.nextTrack + 1)
    ensures References(db') && VoteReferences(db') && FifoOrder(db') && VoteCounts(db')
  {
    assert db'.rooms.Keys == db.rooms.Keys;
    assert VotesOn(db.votes, db.nextTrack) == {};
    forall u | u in db'.tracks ensures db'.tracks[u].voteCountCached == |VotesOn(db'.votes, u)| {
      if u != db.nextTrack { assert u in db.tracks; }
    }
  }

  lemma {:induction false} NewTrackKeepsDerived(db: Db, db': Db, added: Track)
    requires Derived(db) && db.nextTrack !in db.tracks && added.room in db.rooms
    requires Evolves(db.tracks, db.tracks[db.nextTrack := added], db.nextTrack)
    requires db' == db.(rooms := db.rooms[added.room := db.rooms[added.room].(lastFifo := added.fifo)],
                        tracks := db.tracks[db.nextTrack := added], nextTrack := db.nextTrack + 1)
    ensures Derived(db')
  {
    assert db'.rooms.Keys == db.rooms.Keys;
    AllDerivedFrame(db, db');
  }

  lemma {:induction false} AddedTrackKeepsInv(db: Db, db': Db, added: Track)
    requires Inv(db) && added.room in db.rooms && db.rooms[added.room].lastFifo < added.fifo
    requires added.status == Queued && added.voteCountCached == 0 && added.scoreCached == 0
    requires added.proposer in db.sessions && db.sessions[added.proposer].room == added.room
    requires ActiveDuplicate(db.tracks, added.room, added.catalog).None?
    requires db' == db.(rooms := db.rooms[added.room := db.rooms[added.room].(lastFifo := added.fifo)],
                        tracks := db.tracks[db.nextTrack := added], nextTrack := db.nextTrack + 1)
    ensures Inv(db')
  {
    NewTrackKeepsUniqueness(db.tracks, db.nextTrack, added);
    NewTrackKeepsAccounts(db, db', added);
    NewTrackKeepsDerived(db, db', added);
  }

  lemma {:induction false} NewTrackKeepsInv(db: Db, room: RoomId, session: SessionId, catalog: CatalogId, gap: nat)
    requires Inv(db) && room in db.rooms && SessionCheck(db, room, session).None?
    requires ActiveDuplicate(db.tracks, room, catalog).None?
    ensures Inv(WithNewTrack(db, room, session, catalog, gap))
  {
    var db' := WithNewTrack(db, room, session, catalog, gap);
    AddedTrackKeepsInv(db, db', db'.tracks[db.nextTrack]);
  }

  /** A proposal either changes nothing or adds one track under the stated conditions. */
  lemma ProposeCases(db: Db, room: RoomId, caller: Caller, catalog: CatalogId, firstLook: Option<RoomStatus>, gap: nat)
    requires db.queue.Keys == db.rooms.Keys
    ensures var o := ProposeTrack(db, room, caller, catalog, firstLook, gap);
            || (o.db == db && !(o.result.Ok? && o.result.value.Created?))
            || (&& room in db.rooms
                && SessionCheck(db, room, caller.session).None?
                && ActiveDuplicate(db.tracks, room, catalog).None?
                && |QueuedIds(db.tracks, room)| < db.rooms[room].queueLimit
                && o == Out(WithNewTrack(db, room, caller.session, catalog, gap), Ok(Created(db.nextTrack)),
                            [TrackProposed(room, db.nextTrack)]))
  {
  }

  lemma ProposeKeepsInv(db: Db, room: RoomId, caller: Caller, catalog: CatalogId, firstLook: Option<RoomStatus>,
                        gap: nat)
    requires Inv(db)
    ensures Inv(ProposeTrack(db, room, caller, catalog, firstLook, gap).db)
  {
    ProposeCases(db, room, caller, catalog, firstLook, gap);
    var db' := ProposeTrack(db, room, caller, catalog, firstLook, gap).db;
    if db' != db {
      NewTrackKeepsInv(db, room, caller.session, catalog, gap);
    }
  }

  lemma VotesAfterInsert(votes: set<Vote>, v: Vote, t: TrackId)
    requires v !in votes
    ensures |VotesOn(votes + {v}, t)| == |VotesOn(votes, t)| + (if v.track == t then 1 else 0)
  {
    if v.track == t {
      assert VotesOn(votes + {v}, t) == VotesOn(votes, t) + {v};
    } else {
      assert VotesOn(votes + {v}, t) == VotesOn(votes, t);
    }
  }

  function Counted(t: Track): Track {
    t.(voteCountCached := t.voteCountCached + 1)
  }

  lemma VoteKeepsAccounts(db: Db, v: Vote)
    requires References(db) && VoteReferences(db) && VoteCounts(db) && v !in db.votes
    requires v.track in db.tracks && v.room == db.tracks[v.track].room
    requires v.session in db.sessions && v.room == db.sessions[v.session].room
    ensures var db' := db.(votes := db.votes + {v}, tracks := db.tracks[v.track := Counted(db.tracks[v.track])]);
            References(db') && VoteReferences(db') && VoteCounts(db') && Evolves(db.tracks, db'.tracks, db.nextTrack)
  {
    forall u | u in db.tracks
      ensures |VotesOn(db.votes + {v}, u)| == |VotesOn(db.votes, u)| + (if v.track == u then 1 else 0)
    {
      VotesAfterInsert(db.votes, v, u);
    }
  }

  lemma {:induction false} CountedVoteKeepsInv(db: Db, v: Vote)
    requires Inv(db) && v !in db.votes
    requires v.track in db.tracks && v.room == db.tracks[v.track].room
    requires v.session in db.sessions && v.room == db.sessions[v.session].room
    ensures Inv(db.(votes := db.votes + {v}, tracks := db.tracks[v.track := Counted(db.tracks[v.track])]))
  {
    var db' := db.(votes := db.votes + {v}, tracks := db.tracks[v.track := Counted(db.tracks[v.track])]);
    VoteKeepsAccounts(db, v);
    SameShapeKeeps(db, db');
    AllDerivedFrame(db, db');
  }

  lemma {:induction false} AddVoteKeepsInv(db: Db, room: RoomId, session: SessionId, t: TrackId)
    requires Inv(db)
    ensures Inv(AddVote(db, room, session, t).db)
  {
    if AddVote(db, room, session, t).result.Ok? {
      CountedVoteKeepsInv(db, Vote(room, t, session));
    }
  }

  /** Tracks keep their room, catalogue id, FIFO number and status. */
  ghost predicate SameShape(a: map<TrackId, Track>, b: map<TrackId, Track>) {
    && a.Keys == b.Keys
    && (forall t :: t in a ==>
          && a[t].room == b[t].room && a[t].catalog == b[t].catalog
          && a[t].fifo == b[t].fifo && a[t].status == b[t].status)
  }

  lemma SameShapeKeeps(db: Db, db': Db)
    requires FifoOrder(db) && OnePlaying(db.tracks) && ActiveUnique(db.tracks)
    requires db.rooms == db'.rooms && SameShape(db.tracks, db'.tracks)
    ensures FifoOrder(db') && OnePlaying(db'.tracks) && ActiveUnique(db'.tracks)
  {
    assert forall r, u :: IsPlaying(db'.tracks, r, u) ==> IsPlaying(db.tracks, r, u);
    assert forall r, u :: IsActive(db'.tracks, r, u) ==> IsActive(db.tracks, r, u);
  }

  // ---------- track management ----------

  lemma {:induction false} DeleteKeepsAccounts(db: Db, t: TrackId)
    requires VoteReferences(db) && VoteCounts(db)
    ensures var db' := db.(tracks := db.tracks - {t}, votes := db.votes - VotesOn(db.votes, t));
            VoteReferences(db') && VoteCounts(db')
  {
    var db' := db.(tracks := db.tracks - {t}, votes := db.votes - VotesOn(db.votes, t));
    forall u | u in db'.tracks ensures db'.tracks[u].voteCountCached == |VotesOn(db'.votes, u)| {
      assert VotesOn(db'.votes, u) == VotesOn(db.votes, u);
    }
  }

  lemma {:induction false} DeleteKeepsUniqueness(tracks: map<TrackId, Track>, t: TrackId)
    requires OnePlaying(tracks) && ActiveUnique(tracks)
    ensures OnePlaying(tracks - {t}) && ActiveUnique(tracks - {t})
  {
    assert forall r, u :: IsPlaying(tracks - {t}, r, u) ==> IsPlaying(tracks, r, u);
    assert forall r, u :: IsActive(tracks - {t}, r, u) ==> IsActive(tracks, r, u);
  }

  lemma {:induction false} DeleteKeepsAllDerived(db: Db, room: RoomId, t: TrackId)
    requires Inv(db) && DeleteTrack(db, room, t).result.Ok?
    ensures Derived(DeleteTrack(db, room, t).db)
  {
    var db' := DeleteTrack(db, room, t).db;
    assert db'.queue.Keys == db.queue.Keys;
    forall r | r in db'.rooms
      ensures NonDecreasing(db'.log[r]) && DerivedAsLogged(db'.log[r], db'.queue[r], r, db'.tracks, db'.nextTrack)
    {
      DeleteKeepsDerived(db, room, t, r);
    }
  }

  lemma {:induction false} DeleteTrackKeepsInv(db: Db, room: RoomId, t: TrackId)
    requires Inv(db)
    ensures Inv(DeleteTrack(db, room, t).db)
  {
    if DeleteTrack(db, room, t).result.Ok? {
      DeleteKeepsAccounts(db, t);
      DeleteKeepsUniqueness(db.tracks, t);
      DeleteKeepsAllDerived(db, room, t);
    }
  }

  lemma DeleteKeepsDerived(db: Db, room: RoomId, t: TrackId, r: RoomId)
    requires Inv(db) && DeleteTrack(db, room, t).result.Ok? && r in db.rooms
    ensures var db' := DeleteTrack(db, room, t).db;
            DerivedAsLogged(db'.log[r], db'.queue[r], r, db'.tracks, db'.nextTrack)
  {
    var db' := DeleteTrack(db, room, t).db;
    var log := db.log[r];
    assert forall u :: IsActive(db'.tracks, r, u) ==> IsActive(db.tracks, r, u) && db'.tracks[u] == db.tracks[u];
    if log != [] {
      var e := Last(log);
      assert MarksKnown(e.fingerprint, r, db'.tracks, db'.nextTrack);
      if r == room {
        RowsFromDelete(e.fingerprint.items, 0, e.updatedAt, db.tracks, t);
      } else {
        RowsFromFrame(e.fingerprint.items, 0, e.updatedAt, db.tracks, db'.tracks);
      }
    }
  }

  /** Only statuses and cached scores differ. */
  ghost predicate SameBones(a: map<TrackId, Track>, b: map<TrackId, Track>) {
    && a.Keys == b.Keys
    && (forall t :: t in a ==> b[t] == a[t].(status := b[t].status, scoreCached := b[t].scoreCached))
  }

  lemma SameBonesKeeps(db: Db, after: map<TrackId, Track>)
    requires References(db) && VoteReferences(db) && FifoOrder(db) && VoteCounts(db)
    requires SameBones(db.tracks, after)
    ensures var db' := db.(tracks := after);
            References(db') && VoteReferences(db') && FifoOrder(db') && VoteCounts(db')
  {
  }

  lemma EndedKeepsUniqueness(tracks: map<TrackId, Track>, room: RoomId, t: TrackId, status: TrackStatus, next: int)
    requires OnePlaying(tracks) && ActiveUnique(tracks) && !ActiveStatus(status)
    ensures var after := WithStatus(tracks, room, t, status);
            OnePlaying(after) && ActiveUnique(after) && SameBones(tracks, after) && Evolves(tracks, after, next)
  {
    var after := WithStatus(tracks, room, t, status);
    assert forall r, u :: IsPlaying(after, r, u) ==> IsPlaying(tracks, r, u);
    assert forall r, u :: IsActive(after, r, u) ==> IsActive(tracks, r, u);
  }

  lemma SetStatusKeepsInv(db: Db, room: RoomId, t: TrackId, status: TrackStatus)
    requires Inv(db) && !ActiveStatus(status)
    ensures Inv(SetTrackStatus(db, room, t, status).db)
  {
    var db' := SetTrackStatus(db, room, t, status).db;
    if SetTrackStatus(db, room, t, status).result.Ok? {
      EndedKeepsUniqueness(db.tracks, room, t, status, db.nextTrack);
      SameBonesKeeps(db, db'.tracks);
      AllDerivedFrame(db, db');
    }
  }

  lemma PlayingKeepsUniqueness(tracks: map<TrackId, Track>, room: RoomId, t: TrackId, next: int)
    requires OnePlaying(tracks) && ActiveUnique(tracks)
    ensures var after := WithStatus(Demoted(tracks, room), room, t, Playing);
            OnePlaying(after) && ActiveUnique(after) && SameBones(tracks, after) && Evolves(tracks, after, next)
  {
    var after := WithStatus(Demoted(tracks, room), room, t, Playing);
    assert forall r, u :: IsPlaying(after, r, u) ==> (r == room && u == t) || (r != room && IsPlaying(tracks, r, u));
    assert forall r, u :: IsActive(after, r, u) ==> IsActive(tracks, r, u) && after[u].catalog == tracks[u].catalog;
  }

  lemma {:induction false} SetPlayingKeepsInv(db: Db, room: RoomId, t: TrackId)
    requires Inv(db)
    ensures Inv(SetTrackPlaying(db, room, t).db)
  {
    var db' := SetTrackPlaying(db, room, t).db;
    if SetTrackPlaying(db, room, t).result.Ok? {
      PlayingKeepsUniqueness(db.tracks, room, t, db.nextTrack);
      SameBonesKeeps(db, db'.tracks);
      AllDerivedFrame(db, db');
    }
  }

  // ---------- recalculation ----------

  lemma RankedFacts(db: Db, room: RoomId)
    requires Ready(db) && room in db.rooms
    ensures IsTopK(RankedNow(db, room), Entries(db.tracks, db.votes, db.sessions, room), db.rooms[room].queueLimit)
    ensures forall i :: 0 <= i < |RankedNow(db, room)| ==>
              var e := RankedNow(db, room)[i];
              IsQueued(db.tracks, room, e.id) && e == EntryOf(db.tracks, db.votes, db.sessions, e.id)
    ensures forall i, j :: 0 <= i < j < |RankedNow(db, room)| ==> RankedNow(db, room)[i].id != RankedNow(db, room)[j].id
  {
    var es := Entries(db.tracks, db.votes, db.sessions, room);
    FifoOrderIsDistinct(db, room);
    EntriesDistinct(db.tracks, db.votes, db.sessions, room);
    TopKHolds(es, db.rooms[room].queueLimit);
    var ranked := RankedNow(db, room);
    forall i | 0 <= i < |ranked|
      ensures IsQueued(db.tracks, room, ranked[i].id)
              && ranked[i] == EntryOf(db.tracks, db.votes, db.sessions, ranked[i].id)
    {
      assert ranked[i] in Elements(ranked);
    }
    forall i, j | 0 <= i < j < |ranked| ensures ranked[i].id != ranked[j].id {
      assert Ahead(ranked[i], ranked[j]);
    }
  }

  lemma {:induction false} ScoresOfIndexed(ranked: seq<Entry>, i: nat)
    requires forall a, b :: 0 <= a < b < |ranked| ==> ranked[a].id != ranked[b].id
    requires i < |ranked|
    ensures ranked[i].id in ScoresOf(ranked) && ScoresOf(ranked)[ranked[i].id] == ranked[i].votes
  {
    if i < |ranked| - 1 {
      ScoresOfIndexed(ranked[..|ranked| - 1], i);
    }
  }

  /** With every listed track present the logged rows are the rows of the ranking. */
  lemma {:induction false} RowsFromRanked(ranked: seq<Entry>, k: nat, at: Nanos, tracks: map<TrackId, Track>)
    requires k <= |ranked|
    requires forall i :: 0 <= i < |ranked| ==> ranked[i].id in tracks && ranked[i].fifo == tracks[ranked[i].id].fifo
    ensures RowsFrom(MarksOf(ranked), k, at, tracks) == RowsOf(ranked, at)[k..]
    decreases |ranked| - k
  {
    if k < |ranked| {
      RowsFromRanked(ranked, k + 1, at, tracks);
      assert RowsOf(ranked, at)[k..] == [RowOf(ranked[k], k + 1, at)] + RowsOf(ranked, at)[k + 1..];
    }
  }

  /** What a rewrite leaves behind is exactly what its fingerprint logs. */
  lemma {:induction false} RewriteIsAsLogged(ranked: seq<Entry>, playing: Option<Mark>, room: RoomId, at: Nanos,
                                             tracks: map<TrackId, Track>, next: int)
    requires forall i :: 0 <= i < |ranked| ==>
               IsQueued(tracks, room, ranked[i].id) && ranked[i].fifo == tracks[ranked[i].id].fifo
    requires forall i, j :: 0 <= i < j < |ranked| ==> ranked[i].id != ranked[j].id
    requires forall t :: IsPlaying(tracks, room, t) ==> playing.Some? && playing.value.id == t
    requires forall t :: t in tracks ==> t < next
    requires playing.Some? ==> playing.value.id < next
    ensures var fp := Fingerprint(MarksOf(ranked), playing);
            var after := Scored(tracks, room, ScoresOf(ranked));
            && MarksKnown(fp, room, after, next)
            && RowsOf(ranked, at) == RowsFrom(fp.items, 0, at, after)
            && (forall t :: IsActive(after, room, t) ==> ScoreAsLogged(fp, t, after[t].scoreCached))
  {
    var fp := Fingerprint(MarksOf(ranked), playing);
    var after := Scored(tracks, room, ScoresOf(ranked));
    RowsFromRanked(ranked, 0, at, after);
    assert RowsOf(ranked, at)[0..] == RowsOf(ranked, at);
    forall t | IsActive(after, room, t) ensures ScoreAsLogged(fp, t, after[t].scoreCached) {
      RewrittenScore(ranked, playing, room, tracks, t);
    }
  }

  lemma {:induction false} RewrittenScore(ranked: seq<Entry>, playing: Option<Mark>, room: RoomId, tracks: map<TrackId,
                                          Track>, t: TrackId)
    requires forall i, j :: 0 <= i < j < |ranked| ==> ranked[i].id != ranked[j].id
    requires IsActive(tracks, room, t)
    requires IsPlaying(tracks, room, t) ==> playing.Some? && playing.value.id == t
    ensures ScoreAsLogged(Fingerprint(MarksOf(ranked), playing), t,
                          Scored(tracks, room, ScoresOf(ranked))[t].scoreCached)
  {
    var items := MarksOf(ranked);
    forall i | 0 <= i < |items| && items[i].id == t
      ensures Scored(tracks, room, ScoresOf(ranked))[t].scoreCached == items[i].votes
    {
      ScoresOfIndexed(ranked, i);
    }
    if forall i :: 0 <= i < |items| ==> items[i].id != t {
      forall x | x in ranked ensures x.id != t {
        var i :| 0 <= i < |ranked| && ranked[i] == x;
        assert items[i].id == x.id;
      }
    }
  }

  lemma ScoredKeepsShape(tracks: map<TrackId, Track>, room: RoomId, scores: map<TrackId, nat>)
    requires OnePlaying(tracks) && ActiveUnique(tracks)
    ensures var after := Scored(tracks, room, scores);
            SameBones(tracks, after) && OnePlaying(after) && ActiveUnique(after)
  {
    var after := Scored(tracks, room, scores);
    assert forall r, u :: IsPlaying(after, r, u) ==> IsPlaying(tracks, r, u);
    assert forall r, u :: IsActive(after, r, u) ==> IsActive(tracks, r, u);
  }

  lemma ScoredElsewhere(tracks: map<TrackId, Track>, room: RoomId, scores: map<TrackId, nat>, r: RoomId, next: int)
    requires r != room
    requires forall t :: t in scores ==> IsQueued(tracks, room, t)
    ensures TracksEvolve(tracks, Scored(tracks, room, scores), r, next)
  {
  }

  lemma RewriteKeepsOwnDerived(db: Db, room: RoomId, now: Nanos, createdAt: Micros, id: nat)
    requires Inv(db) && room in db.rooms && !Skips(db, room)
    ensures var db' := RecalculateRoomQueue(db, room, now, createdAt, id).db;
            && NonDecreasing(db'.log[room])
            && DerivedAsLogged(db'.log[room], db'.queue[room], room, db'.tracks, db'.nextTrack)
  {
    var db' := RecalculateRoomQueue(db, room, now, createdAt, id).db;
    RankedFacts(db, room);
    AppendKeepsOrder(db.log[room], FingerprintNow(db, room), now, createdAt, id);
    RewriteIsAsLogged(RankedNow(db, room), PlayingOf(db.tracks, db.sessions, room), room,
                      Last(db'.log[room]).updatedAt, db.tracks, db.nextTrack);
  }

  lemma RewriteKeepsOtherDerived(db: Db, room: RoomId, now: Nanos, createdAt: Micros, id: nat, r: RoomId)
    requires Ready(db) && Derived(db) && room in db.rooms && !Skips(db, room) && r in db.rooms && r != room
    ensures var db' := RecalculateRoomQueue(db, room, now, createdAt, id).db;
            NonDecreasing(db'.log[r]) && DerivedAsLogged(db'.log[r], db'.queue[r], r, db'.tracks, db'.nextTrack)
  {
    var db' := RecalculateRoomQueue(db, room, now, createdAt, id).db;
    RankedFacts(db, room);
    ScoredElsewhere(db.tracks, room, ScoresOf(RankedNow(db, room)), r, db.nextTrack);
    DerivedFrame(db.log[r], db.queue[r], r, db.tracks, db'.tracks, db.nextTrack, db'.nextTrack);
  }

  lemma RecalculateKeepsAllDerived(db: Db, room: RoomId, now: Nanos, createdAt: Micros, id: nat)
    requires Inv(db) && room in db.rooms && !Skips(db, room)
    ensures Derived(RecalculateRoomQueue(db, room, now, createdAt, id).db)
  {
    var db' := RecalculateRoomQueue(db, room, now, createdAt, id).db;
    assert db'.queue.Keys == db.queue.Keys && db'.log.Keys == db.log.Keys;
    forall r | r in db'.rooms
      ensures NonDecreasing(db'.log[r]) && DerivedAsLogged(db'.log[r], db'.queue[r], r, db'.tracks, db'.nextTrack)
    {
      if r == room {
        RewriteKeepsOwnDerived(db, room, now, createdAt, id);
      } else {
        RewriteKeepsOtherDerived(db, room, now, createdAt, id, r);
      }
    }
  }

  lemma KeysAfterRecalculation(db: Db, db': Db, room: RoomId)
    requires References(db) && Limits(db) && room in db.rooms
    requires db'.rooms == db.rooms && db'.sessions == db.sessions && db'.tracks == db.tracks
    requires db'.nextTrack == db.nextTrack && db'.nextSession == db.nextSession
    requires db'.queue.Keys == db.queue.Keys + {room} && db'.log.Keys == db.log.Keys + {room}
    ensures References(db') && Limits(db')
  {
  }

  lemma RecalculateKeepsAccounts(db: Db, room: RoomId, now: Nanos, createdAt: Micros, id: nat)
    requires Inv(db) && room in db.rooms && !Skips(db, room)
    ensures var db' := RecalculateRoomQueue(db, room, now, createdAt, id).db;
            References(db') && VoteReferences(db') && FifoOrder(db') && VoteCounts(db') && Limits(db')
  {
    var db' := RecalculateRoomQueue(db, room, now, createdAt, id).db;
    ScoredKeepsShape(db.tracks, room, ScoresOf(RankedNow(db, room)));
    SameBonesKeeps(db, db'.tracks);
    KeysAfterRecalculation(db.(tracks := db'.tracks), db', room);
  }

  lemma {:induction false} RecalculateKeepsInv(db: Db, room: RoomId, now: Nanos, createdAt: Micros, id: nat)
    requires Inv(db)
    ensures Inv(RecalculateRoomQueue(db, room, now, createdAt, id).db)
  {
    if room in db.rooms && !Skips(db, room) {
      RecalculateKeepsAllDerived(db, room, now, createdAt, id);
      RecalculateKeepsAccounts(db, room, now, createdAt, id);
      ScoredKeepsShape(db.tracks, room, ScoresOf(RankedNow(db, room)));
    }
  }

  // ---------- every step, every run ----------

  lemma EmptyDbInv()
    ensures Inv(EmptyDb)
  {
  }

  /** A step does what its use case does. */
  lemma StepIsUseCase(db: Db, op: Op)
    requires Ready(db)
    ensures op.OpCreateRoom? ==> Step(db, op).db == CreateRoom(db, op.id, op.name, op.settings).db
    ensures op.OpPatchRoom? ==> Step(db, op).db == PatchRoom(db, op.room, op.newStatus, op.newLimit, op.newVotes).db
    ensures op.OpJoin? ==> Step(db, op).db == Join(db, op.firstCode, op.secondCode, op.known, op.nickname).db
    ensures op.OpLeave? ==> Step(db, op).db == Leave(db, op.session, op.room).db
    ensures op.OpPropose? ==>
              Step(db, op).db == ProposeTrack(db, op.room, op.caller, op.catalog, op.firstLook, op.gap).db
    ensures op.OpVote? ==> Step(db, op).db == AddVote(db, op.room, op.session, op.track).db
    ensures op.OpDelete? ==> Step(db, op).db == DeleteTrack(db, op.room, op.track).db
    ensures op.OpEnd? ==> Step(db, op).db == SetTrackStatus(db, op.room, op.track, EndStatus(op.skipped)).db
    ensures op.OpPlay? ==> Step(db, op).db == SetTrackPlaying(db, op.room, op.track).db
    ensures op.OpRecalculate? ==>
              Step(db, op).db == RecalculateRoomQueue(db, op.room, op.now, op.createdAt, op.logId).db
    ensures op.OpFault? ==> Step(db, op).db == db
  {
  }

  lemma RoomStepKeepsInv(db: Db, op: Op)
    requires Inv(db) && (op.OpCreateRoom? || op.OpPatchRoom? || op.OpFault?)
    ensures Inv(Step(db, op).db)
  {
    match op
    case OpCreateRoom(id, name, settings) => CreateRoomKeepsInv(db, id, name, settings);
    case OpPatchRoom(room, status, limit, votes) => PatchRoomKeepsInv(db, room, status, limit, votes);
    case OpFault =>
  }

  lemma JoinStepKeepsInv(db: Db, op: Op)
    requires Inv(db) && op.OpJoin?
    ensures Inv(Step(db, op).db)
  {
    JoinKeepsInv(db, op.firstCode, op.secondCode, op.known, op.nickname);
    StepIsUseCase(db, op);
  }

  lemma LeaveStepKeepsInv(db: Db, op: Op)
    requires Inv(db) && op.OpLeave?
    ensures Inv(Step(db, op).db)
  {
    LeaveKeepsInv(db, op.session, op.room);
    StepIsUseCase(db, op);
  }

  lemma ProposeStepKeepsInv(db: Db, op: Op)
    requires Inv(db) && op.OpPropose?
    ensures Inv(Step(db, op).db)
  {
    ProposeKeepsInv(db, op.room, op.caller, op.catalog, op.firstLook, op.gap);
    StepIsUseCase(db, op);
  }

  lemma VoteStepKeepsInv(db: Db, op: Op)
    requires Inv(db) && op.OpVote?
    ensures Inv(Step(db, op).db)
  {
    AddVoteKeepsInv(db, op.room, op.session, op.track);
    StepIsUseCase(db, op);
  }

  lemma DeleteStepKeepsInv(db: Db, op: Op)
    requires Inv(db) && op.OpDelete?
    ensures Inv(Step(db, op).db)
  {
    DeleteTrackKeepsInv(db, op.room, op.track);
    StepIsUseCase(db, op);
  }

  lemma EndStepKeepsInv(db: Db, op: Op)
    requires Inv(db) && op.OpEnd?
    ensures Inv(Step(db, op).db)
  {
    SetStatusKeepsInv(db, op.room, op.track, EndStatus(op.skipped));
    StepIsUseCase(db, op);
  }

  lemma PlayStepKeepsInv(db: Db, op: Op)
    requires Inv(db) && op.OpPlay?
    ensures Inv(Step(db, op).db)
  {
    SetPlayingKeepsInv(db, op.room, op.track);
    StepIsUseCase(db, op);
  }

  lemma RecalculateStepKeepsInv(db: Db, op: Op)
    requires Inv(db) && op.OpRecalculate?
    ensures Inv(Step(db, op).db)
  {
    RecalculateKeepsInv(db, op.room, op.now, op.createdAt, op.logId);
    StepIsUseCase(db, op);
  }

  /** Every use case keeps the invariants, whatever its arguments and its outcome. */
  lemma {:induction false} StepKeepsInv(db: Db, op: Op)
    requires Inv(db)
    ensures Inv(Step(db, op).db)
  {
    if op.OpJoin? { JoinStepKeepsInv(db, op); }
    else if op.OpLeave? { LeaveStepKeepsInv(db, op); }
    else if op.OpPropose? { ProposeStepKeepsInv(db, op); }
    else if op.OpVote? { VoteStepKeepsInv(db, op); }
    else if op.OpDelete? { DeleteStepKeepsInv(db, op); }
    else if op.OpEnd? { EndStepKeepsInv(db, op); }
    else if op.OpPlay? { PlayStepKeepsInv(db, op); }
    else if op.OpRecalculate? { RecalculateStepKeepsInv(db, op); }
    else { RoomStepKeepsInv(db, op); }
  }

  /** The tables after a run of use cases that starts with empty tables. */
  ghost function Reach(ops: seq<Op>): (db: Db)
    ensures Ready(db)
    decreases |ops|, 0
  {
    if ops == [] then EmptyDbInv(); EmptyDb
    else
      var front := ops[..|ops| - 1];
      ReachInv(front);
      StepKeepsInv(Reach(front), Last(ops));
      Step(Reach(front), Last(ops)).db
  }

  /** The invariants hold in every reachable state. */
  lemma {:induction false} ReachInv(ops: seq<Op>)
    ensures Inv(Reach(ops))
    decreases |ops|, 1
  {
    if ops == [] {
      EmptyDbInv();
    } else {
      ReachInv(ops[..|ops| - 1]);
      StepKeepsInv(Reach(ops[..|ops| - 1]), Last(ops));
    }
  }
}
