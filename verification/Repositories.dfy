/**
 A database transaction: its own view of the tables, and the repository statements that
 read and change it. Any statement may fail, after any number of statements that did
 not; what a failed transaction leaves in its view does not matter, because only a
 commit makes the view visible.
 */
module Repositories {
  import opened Common
  import opened Ranking
  import opened Versions
  import opened Tables
  import opened Operations

  class Transaction {
    var rooms: map<RoomId, Room>
    var sessions: map<SessionId, Session>
    var tracks: map<TrackId, Track>
    var votes: set<Vote>
    var queue: map<RoomId, seq<Row>>
    var log: map<RoomId, Log>
    var nextTrack: int
    var nextSession: int

    /** How many more statements succeed before one fails, if one does. */
    var faultAfter: Option<nat>

    ghost function View(): Db
      reads this
    {
      Db(rooms, sessions, tracks, votes, queue, log, nextTrack, nextSession)
    }

    constructor (db: Db, faultAfter: Option<nat>)
      ensures View() == db && this.faultAfter == faultAfter
    {
      rooms, sessions, tracks, votes := db.rooms, db.sessions, db.tracks, db.votes;
      queue, log := db.queue, db.log;
      nextTrack, nextSession := db.nextTrack, db.nextSession;
      this.faultAfter := faultAfter;
    }

    /** One round trip to the database. */
    method Statement() returns (ok: bool)
      modifies this`faultAfter
      ensures faultAfter.None? <==> old(faultAfter).None?
      ensures !ok ==> old(faultAfter).Some?
    {
      ok := true;
      if faultAfter.Some? {
        if faultAfter.value == 0 {
          ok := false;
        } else {
          faultAfter := Some(faultAfter.value - 1);
        }
      }
    }

    // ---------- reads under the room lock ----------

    method CountQueued(room: RoomId) returns (ok: bool, count: nat)
      modifies this`faultAfter
      ensures faultAfter.None? <==> old(faultAfter).None?
      ensures !ok ==> old(faultAfter).Some?
      ensures count == |QueuedIds(tracks, room)|
    {
      ok := Statement();
      count := |QueuedIds(tracks, room)|;
    }

    method GetActiveDuplicate(room: RoomId, c: CatalogId) returns (ok: bool, found: Option<Proposal>)
      requires forall t, u ::
        IsActive(tracks, room, t) && IsActive(tracks, room, u) && tracks[t].catalog == tracks[u].catalog ==> t == u
      requires room in queue
      modifies this`faultAfter
      ensures faultAfter.None? <==> old(faultAfter).None?
      ensures !ok ==> old(faultAfter).Some?
      ensures found == match ActiveDuplicate(tracks, room, c)
                       case None => None
                       case Some(t) => Some(Duplicate(t, tracks[t].voteCountCached, StoredPosition(queue[room], t)))
    {
      ok := Statement();
      found := None;
      var hits := set t | t in tracks && IsActive(tracks, room, t) && tracks[t].catalog == c;
      if hits != {} {
        var t :| t in hits;
        var position := None;
        var i := 0;
        while i < |queue[room]| && position.None?
          invariant i <= |queue[room]|
          invariant StoredPosition(queue[room], t)
                    == if position.Some? then position else StoredPosition(queue[room][i..], t)
        {
          if queue[room][i].track == t {
            position := Some(queue[room][i].position);
          }
          i := i + 1;
        }
        found := Some(Duplicate(t, tracks[t].voteCountCached, position));
      } else {
        assert forall t :: IsActive(tracks, room, t) && tracks[t].catalog == c ==> t in hits;
      }
    }

    /** The ranking query: a stable insertion into the sorted prefix, then the limit. */
    method ListRankedQueued(room: RoomId, limit: nat) returns (ok: bool, items: seq<Entry>)
      requires FifoDistinct(tracks, room)
      modifies this`faultAfter
      ensures faultAfter.None? <==> old(faultAfter).None?
      ensures !ok ==> old(faultAfter).Some?
      ensures items == Ranked(tracks, votes, sessions, room, limit)
      ensures IsTopK(items, Entries(tracks, votes, sessions, room), limit)
    {
      ok := Statement();
      items := [];
      ghost var all := Entries(tracks, votes, sessions, room);
      ghost var listed: set<Entry> := {};
      EntriesDistinct(tracks, votes, sessions, room);
      var pending := QueuedIds(tracks, room);
      while pending != {}
        invariant faultAfter.None? <==> old(faultAfter).None?
        invariant pending <= QueuedIds(tracks, room)
        invariant listed == set t | t in QueuedIds(tracks, room) && t !in pending :: EntryOf(tracks, votes, sessions, t)
        invariant IsRanking(items, listed)
        decreases |pending|
      {
        var t :| t in pending;
        var e := EntryOf(tracks, votes, sessions, t);
        var i := 0;
        while i < |items| && Ahead(items[i], e)
          invariant i <= |items|
          invariant forall j :: 0 <= j < i ==> Ahead(items[j], e)
        {
          i := i + 1;
        }
        FifoSplits(items, listed, e, i);
        InsertKeepsRanking(items, listed, e, i);
        items := items[..i] + [e] + items[i..];
        listed := listed + {e};
        pending := pending - {t};
      }
      assert listed == all;
      RankingUnique(items, Rank(all), all);
      items := items[..Min(limit, |items|)];
      TopKHolds(all, limit);
    }

    /** The place found by the scan splits the sorted prefix. */
    lemma FifoSplits(items: seq<Entry>, listed: set<Entry>, e: Entry, i: nat)
      requires IsRanking(items, listed) && i <= |items|
      requires forall x :: x in listed ==> x.fifo != e.fifo
      requires forall j :: 0 <= j < i ==> Ahead(items[j], e)
      requires i < |items| ==> !Ahead(items[i], e)
      ensures SplitsAt(items, e, i)
    {
      forall j | i <= j < |items| ensures Ahead(e, items[j]) {
        assert items[j] in Elements(items);
        assert items[i] in Elements(items);
      }
    }

    method LoadNowPlaying(room: RoomId) returns (ok: bool, playing: Option<Mark>)
      requires forall t, u :: IsPlaying(tracks, room, t) && IsPlaying(tracks, room, u) ==> t == u
      modifies this`faultAfter
      ensures faultAfter.None? <==> old(faultAfter).None?
      ensures !ok ==> old(faultAfter).Some?
      ensures playing == PlayingOf(tracks, sessions, room)
    {
      ok := Statement();
      playing := None;
      var hits := set t | t in tracks && IsPlaying(tracks, room, t);
      if hits != {} {
        var t :| t in hits;
        playing := Some(PlayingMark(tracks, sessions, t));
      } else {
        assert forall t :: IsPlaying(tracks, room, t) ==> t in hits;
      }
    }

    /** The newest entry of the recalculation log, by the query's ordering. */
    method LoadState(room: RoomId) returns (ok: bool, state: Option<LogEntry<Fingerprint>>)
      requires room in log
      modifies this`faultAfter
      ensures faultAfter.None? <==> old(faultAfter).None?
      ensures !ok ==> old(faultAfter).Some?
      ensures state == if log[room] == [] then None else Some(Newest(log[room]))
    {
      ok := Statement();
      state := None;
      var entries := log[room];
      if entries != [] {
        var newest := entries[0];
        var i := 1;
        while i < |entries|
          invariant 1 <= i <= |entries|
          invariant newest == Newest(entries[..i])
        {
          assert entries[..i + 1][..i] == entries[..i];
          if Later(entries[i], newest) {
            newest := entries[i];
          }
          i := i + 1;
        }
        assert entries[..i] == entries;
        state := Some(newest);
      }
    }

    /** The stored rows whose tracks are queued, renumbered while scanning. */
    method LoadSnapshot(room: RoomId) returns (ok: bool, snapshot: Snapshot)
      requires room in log && room in queue
      requires forall t, u :: IsPlaying(tracks, room, t) && IsPlaying(tracks, room, u) ==> t == u
      modifies this`faultAfter
      ensures faultAfter.None? <==> old(faultAfter).None?
      ensures !ok ==> old(faultAfter).Some?
      ensures ok ==> snapshot == SnapshotOf(View(), room)
    {
      snapshot := Snapshot([], None, None);
      var state, playing;
      ok, state := LoadState(room);
      if !ok { return; }
      ok, playing := LoadNowPlaying(room);
      if !ok { return; }
      ok := Statement();
      if !ok { return; }
      var items: seq<Item> := [];
      var i := 0;
      while i < |queue[room]|
        invariant i <= |queue[room]|
        invariant items + ItemsFrom(queue[room][i..], tracks, sessions, |items|)
                  == ItemsFrom(queue[room], tracks, sessions, 0)
      {
        var row := queue[room][i];
        assert queue[room][i..][1..] == queue[room][i + 1..];
        if row.track in tracks && tracks[row.track].status == Queued {
          items := items + [ItemOf(row, |items| + 1, Nickname(sessions, tracks[row.track].proposer))];
        }
        i := i + 1;
      }
      snapshot := Snapshot(items, playing, if state.Some? then Some(Version(state.value)) else None);
    }

    // ---------- changes ----------

    method CreateQueuedIfAbsent(room: RoomId, c: CatalogId, session: SessionId, gap: nat)
      returns (ok: bool, created: bool, t: TrackId)
      requires room in rooms
      modifies this`faultAfter, this`rooms, this`tracks, this`nextTrack
      ensures faultAfter.None? <==> old(faultAfter).None?
      ensures !ok ==> old(faultAfter).Some?
      ensures t == old(nextTrack)
      ensures created <==> ActiveDuplicate(old(tracks), room, c).None?
      ensures ok ==> View() == if created then WithNewTrack(old(View()), room, session, c, gap) else old(View())
    {
      t := nextTrack;
      created := !exists u | u in tracks :: IsActive(tracks, room, u) && tracks[u].catalog == c;
      ok := Statement();
      if ok && created {
        var fifo := rooms[room].lastFifo + 1 + gap;
        rooms := rooms[room := rooms[room].(lastFifo := fifo)];
        tracks := tracks[t := Track(room, c, session, Queued, 0, 0, fifo)];
        nextTrack := t + 1;
      }
    }

    /** The cascades remove the track's votes and its row. */
    method Delete(room: RoomId, t: TrackId) returns (ok: bool, deleted: bool)
      requires room in queue
      modifies this`faultAfter, this`tracks, this`votes, this`queue
      ensures faultAfter.None? <==> old(faultAfter).None?
      ensures !ok ==> old(faultAfter).Some?
      ensures deleted <==> InRoom(old(tracks), room, t)
      ensures ok ==> View() == if deleted
                               then old(View()).(tracks := old(tracks) - {t},
                                                 votes := old(votes) - VotesOn(old(votes), t),
                                                 queue := old(queue)[room := WithoutTrack(old(queue)[room], t)])
                               else old(View())
    {
      deleted := InRoom(tracks, room, t);
      ok := Statement();
      if ok && deleted {
        tracks := tracks - {t};
        votes := votes - VotesOn(votes, t);
        var rows := queue[room];
        var kept: seq<Row> := [];
        var i := |rows|;
        while i > 0
          invariant 0 <= i <= |rows|
          invariant kept == WithoutTrack(rows[i..], t)
        {
          i := i - 1;
          assert rows[i..][1..] == rows[i + 1..];
          if rows[i].track != t {
            kept := [rows[i]] + kept;
          }
        }
        queue := queue[room := kept];
      }
    }

    method SetStatus(room: RoomId, t: TrackId, status: TrackStatus) returns (ok: bool, updated: bool)
      modifies this`faultAfter, this`tracks
      ensures faultAfter.None? <==> old(faultAfter).None?
      ensures !ok ==> old(faultAfter).Some?
      ensures updated <==> IsActive(old(tracks), room, t)
      ensures ok ==> tracks == WithStatus(old(tracks), room, t, status)
    {
      updated := IsActive(tracks, room, t);
      ok := Statement();
      if ok && updated {
        tracks := tracks[t := tracks[t].(status := status)];
      }
    }

    /** Two statements: every playing track of the room is demoted even when the target
        then turns out to be missing. */
    method SetPlaying(room: RoomId, t: TrackId) returns (ok: bool, updated: bool)
      modifies this`faultAfter, this`tracks
      ensures faultAfter.None? <==> old(faultAfter).None?
      ensures !ok ==> old(faultAfter).Some?
      ensures ok ==> (updated <==> IsActive(Demoted(old(tracks), room), room, t))
      ensures ok ==> tracks == WithStatus(Demoted(old(tracks), room), room, t, Playing)
    {
      updated := false;
      ok := Statement();
      if !ok { return; }
      tracks := map u | u in tracks ::
        if tracks[u].room == room && tracks[u].status == Playing then tracks[u].(status := Queued) else tracks[u];
      assert tracks == Demoted(old(tracks), room);
      ok, updated := SetStatus(room, t, Playing);
    }

    /** The vote, its session and its track belong to one room. */
    predicate SameRoom(room: RoomId, t: TrackId, s: SessionId)
      reads this
    {
      s in sessions && sessions[s].room == room && t in tracks && tracks[t].room == room
    }

    /** The insert: first the trigger that checks the rooms, then the unique index, then the
        trigger that maintains the cached count. */
    method InsertVote(room: RoomId, t: TrackId, s: SessionId) returns (ok: bool, mismatch: bool, duplicate: bool)
      modifies this`faultAfter, this`votes, this`tracks
      ensures faultAfter.None? <==> old(faultAfter).None?
      ensures !ok ==> old(faultAfter).Some?
      ensures mismatch <==> !old(SameRoom(room, t, s))
      ensures duplicate <==> HasVoted(old(votes), s, t)
      ensures mismatch || duplicate ==> votes == old(votes) && tracks == old(tracks)
      ensures ok && !mismatch && !duplicate ==>
                && votes == old(votes) + {Vote(room, t, s)}
                && tracks == old(tracks)[t := old(tracks)[t].(voteCountCached := old(tracks)[t].voteCountCached + 1)]
    {
      mismatch := !SameRoom(room, t, s);
      duplicate := HasVoted(votes, s, t);
      ok := Statement();
      if ok && !mismatch && !duplicate {
        votes := votes + {Vote(room, t, s)};
        tracks := tracks[t := tracks[t].(voteCountCached := tracks[t].voteCountCached + 1)];
      }
    }

    /** All rows of the room are deleted, then inserted in rank order. */
    method Replace(room: RoomId, items: seq<Entry>, at: Nanos) returns (ok: bool)
      modifies this`faultAfter, this`queue
      ensures faultAfter.None? <==> old(faultAfter).None?
      ensures !ok ==> old(faultAfter).Some?
      ensures ok ==> queue == old(queue)[room := RowsOf(items, at)]
    {
      ok := Statement();
      if !ok { return; }
      queue := queue[room := []];
      for i := 0 to |items|
        invariant faultAfter.None? <==> old(faultAfter).None?
        invariant queue == old(queue)[room := RowsOf(items, at)[..i]]
      {
        ok := Statement();
        if !ok { return; }
        assert RowsOf(items, at)[..i + 1] == RowsOf(items, at)[..i] + [RowOf(items[i], i + 1, at)];
        queue := queue[room := queue[room] + [RowOf(items[i], i + 1, at)]];
      }
      assert RowsOf(items, at)[..|items|] == RowsOf(items, at);
      ok := true;
    }

    /** The ranked tracks one by one, in no particular order, then all others at once. */
    method UpdateCachedScores(room: RoomId, ranked: map<TrackId, nat>) returns (ok: bool)
      modifies this`faultAfter, this`tracks
      ensures faultAfter.None? <==> old(faultAfter).None?
      ensures !ok ==> old(faultAfter).Some?
      ensures ok ==> tracks == Scored(old(tracks), room, ranked)
    {
      ok := true;
      var pending := ranked.Items;
      while pending != {}
        invariant faultAfter.None? <==> old(faultAfter).None?
        invariant pending <= ranked.Items
        invariant tracks == RankedScored(old(tracks), ranked, pending)
        decreases |pending|
      {
        var item :| item in pending;
        pending := pending - {item};
        ok := Statement();
        if !ok { return; }
        var (t, score) := item;
        if t in tracks {
          tracks := tracks[t := tracks[t].(scoreCached := score)];
        }
      }
      ok := Statement();
      if !ok { return; }
      tracks := map t | t in tracks ::
        if IsQueued(tracks, room, t) && t !in ranked then tracks[t].(scoreCached := 0) else tracks[t];
      assert tracks.Keys == old(tracks).Keys;
      assert tracks == Scored(old(tracks), room, ranked);
    }

    /** The ranked tracks outside `pending` have their score. */
    ghost function RankedScored(before: map<TrackId, Track>, ranked: map<TrackId, nat>,
                                pending: set<(TrackId, nat)>): map<TrackId, Track> {
      map t | t in before ::
        if t in ranked && (t, ranked[t]) !in pending then before[t].(scoreCached := ranked[t]) else before[t]
    }

    method InsertRecalculation(room: RoomId, fp: Fingerprint, updatedAt: Nanos, createdAt: Micros, id: nat)
      returns (ok: bool)
      requires room in log
      modifies this`faultAfter, this`log
      ensures faultAfter.None? <==> old(faultAfter).None?
      ensures !ok ==> old(faultAfter).Some?
      ensures ok ==> log == old(log)[room := old(log)[room] + [LogEntry(fp, updatedAt, createdAt, id)]]
    {
      ok := Statement();
      if ok {
        log := log[room := log[room] + [LogEntry(fp, updatedAt, createdAt, id)]];
      }
    }

    // ---------- sessions ----------

    /** Reports whether there was such a session in the room. */
    method ReattachSameRoom(s: SessionId, room: RoomId, nickname: string) returns (ok: bool, found: bool)
      modifies this`faultAfter, this`sessions
      ensures faultAfter.None? <==> old(faultAfter).None?
      ensures !ok ==> old(faultAfter).Some?
      ensures found <==> s in old(sessions) && old(sessions)[s].room == room
      ensures !found ==> sessions == old(sessions)
      ensures ok && found ==> sessions == old(sessions)[s := Session(room, nickname, Joined)]
    {
      found := s in sessions && sessions[s].room == room;
      ok := Statement();
      if ok && found {
        sessions := sessions[s := sessions[s].(nickname := nickname, status := Joined)];
      }
    }

    method LeaveSession(s: SessionId) returns (ok: bool)
      modifies this`faultAfter, this`sessions
      ensures faultAfter.None? <==> old(faultAfter).None?
      ensures !ok ==> old(faultAfter).Some?
      ensures ok ==> sessions == WithSessionStatus(old(sessions), s, Left)
    {
      ok := Statement();
      if ok && s in sessions {
        sessions := sessions[s := sessions[s].(status := Left)];
      }
    }

    method CreateSession(room: RoomId, nickname: string) returns (ok: bool, s: SessionId)
      modifies this`faultAfter, this`sessions, this`nextSession
      ensures faultAfter.None? <==> old(faultAfter).None?
      ensures !ok ==> old(faultAfter).Some?
      ensures s == old(nextSession)
      ensures ok ==> sessions == old(sessions)[s := Session(room, nickname, Joined)] && nextSession == s + 1
    {
      s := nextSession;
      ok := Statement();
      if ok {
        sessions := sessions[s := Session(room, nickname, Joined)];
        nextSession := s + 1;
      }
    }
  }
}
