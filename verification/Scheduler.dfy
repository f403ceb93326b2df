/**
 The scheduler that recalculates each room at its own pace: on every tick the rooms that
 are due are attempted, whether or not the attempt succeeds, and rooms that are no longer
 listed are forgotten.
 */
module Scheduler {
  import opened Common
  import opened Tables
  import opened Operations
  import opened Preservation

  type Time = int    // nanoseconds

  const SECOND: Time := 1_000_000_000
  const FALLBACK_INTERVAL: Time := 10 * SECOND

  datatype ScheduleEntry = ScheduleEntry(id: RoomId, intervalSeconds: int)

  function Interval(e: ScheduleEntry): (d: Time)
    ensures d > 0
  {
    if e.intervalSeconds * SECOND <= 0 then FALLBACK_INTERVAL else e.intervalSeconds * SECOND
  }

  predicate Due(last: map<RoomId, Time>, e: ScheduleEntry, now: Time) {
    e.id in last ==> now - last[e.id] >= Interval(e)
  }

  /** The attempt times after looking at the listed rooms in order. */
  function Attempted(last: map<RoomId, Time>, entries: seq<ScheduleEntry>, now: Time): map<RoomId, Time> {
    if entries == [] then last
    else
      var before := Attempted(last, entries[..|entries| - 1], now);
      var e := entries[|entries| - 1];
      if Due(before, e, now) then before[e.id := now] else before
  }

  /** The rooms attempted, in order. */
  function DueRooms(last: map<RoomId, Time>, entries: seq<ScheduleEntry>, now: Time): seq<RoomId> {
    if entries == [] then []
    else
      var front := entries[..|entries| - 1];
      var e := entries[|entries| - 1];
      DueRooms(last, front, now) + if Due(Attempted(last, front, now), e, now) then [e.id] else []
  }

  function Listed(entries: seq<ScheduleEntry>): set<RoomId> {
    set e | e in entries :: e.id
  }

  function Pruned(last: map<RoomId, Time>, listed: set<RoomId>): map<RoomId, Time> {
    map r | r in last && r in listed :: last[r]
  }

  // ---------- the scheduler ----------

  /** One tick: what the listing returned, or nothing if it failed, and the number of
      rooms looked at before the scheduler was stopped, if it was. */
  datatype Tick = Tick(now: Time, listing: Option<seq<ScheduleEntry>>, stoppedAt: Option<nat>)

  predicate FullPass(t: Tick) {
    t.listing.Some? && (t.stoppedAt.Some? ==> t.stoppedAt.value >= |t.listing.value|)
  }

  /** The entries a tick gets to. */
  function Reached(t: Tick): seq<ScheduleEntry> {
    if t.listing.None? then []
    else if FullPass(t) then t.listing.value
    else t.listing.value[..t.stoppedAt.value]
  }

  function AfterTick(last: map<RoomId, Time>, t: Tick): map<RoomId, Time> {
    var attempted := Attempted(last, Reached(t), t.now);
    if FullPass(t) then Pruned(attempted, Listed(t.listing.value)) else attempted
  }

  class QueueRecalculator {
    var lastAttempt: map<RoomId, Time>

    constructor ()
      ensures lastAttempt == map[]
    {
      lastAttempt := map[];
    }

    method RunDue(t: Tick) returns (attempts: seq<RoomId>)
      modifies this
      ensures lastAttempt == AfterTick(old(lastAttempt), t)
      ensures attempts == DueRooms(old(lastAttempt), Reached(t), t.now)
    {
      attempts := [];
      if t.listing.None? { return; }
      var entries := t.listing.value;
      var seen := {};
      var i := 0;
      while i < |entries|
        invariant i <= |entries|
        invariant t.stoppedAt.Some? ==> i <= t.stoppedAt.value
        invariant lastAttempt == Attempted(old(lastAttempt), entries[..i], t.now)
        invariant attempts == DueRooms(old(lastAttempt), entries[..i], t.now)
        invariant seen == Listed(entries[..i])
      {
        if t.stoppedAt.Some? && i >= t.stoppedAt.value {
          assert Reached(t) == entries[..i];
          return;
        }
        var e := entries[i];
        assert entries[..i + 1][..i] == entries[..i];
        assert entries[..i + 1] == entries[..i] + [e];
        ListedGrows(entries[..i], e);
        seen := seen + {e.id};
        i := i + 1;
        var interval := e.intervalSeconds * SECOND;
        if interval <= 0 {
          interval := FALLBACK_INTERVAL;
        }
        if !(e.id in lastAttempt && t.now - lastAttempt[e.id] < interval) {
          lastAttempt := lastAttempt[e.id := t.now];
          attempts := attempts + [e.id];       // recalculated here; a failure is only logged
        }
      }
      assert entries[..i] == entries;
      Prune(seen);
    }

    /** Rooms that were not seen in a full pass are forgotten. */
    method Prune(seen: set<RoomId>)
      modifies this
      ensures lastAttempt == Pruned(old(lastAttempt), seen)
    {
      var pending := lastAttempt.Items;
      while pending != {}
        invariant pending <= old(lastAttempt).Items
        invariant forall r :: r in lastAttempt <==>
                    r in old(lastAttempt) && (r in seen || (r, old(lastAttempt)[r]) in pending)
        invariant forall r :: r in lastAttempt ==> lastAttempt[r] == old(lastAttempt)[r]
        decreases |pending|
      {
        var item :| item in pending;
        pending := pending - {item};
        if item.0 !in seen {
          lastAttempt := lastAttempt - {item.0};
        }
      }
      ghost var kept := Pruned(old(lastAttempt), seen);
      assert forall r :: r in lastAttempt <==> r in kept;
      assert forall r :: r in lastAttempt ==> lastAttempt[r] == kept[r];
      assert lastAttempt.Keys == kept.Keys;
    }
  }

  lemma ListedGrows(entries: seq<ScheduleEntry>, e: ScheduleEntry)
    ensures Listed(entries + [e]) == Listed(entries) + {e.id}
  {
    forall r ensures r in Listed(entries + [e]) <==> r in Listed(entries) + {e.id} {
      if r in Listed(entries) {
        var x :| x in entries && x.id == r;
        assert x in entries + [e];
      }
      assert e in entries + [e];
    }
  }

  // ---------- one pass ----------

  ghost predicate DistinctIds(entries: seq<ScheduleEntry>) {
    forall i, j :: 0 <= i < j < |entries| ==> entries[i].id != entries[j].id
  }

  lemma {:induction false} Unlisted(last: map<RoomId, Time>, entries: seq<ScheduleEntry>, now: Time, room: RoomId)
    requires room !in Listed(entries)
    ensures room in Attempted(last, entries, now) <==> room in last
    ensures room in last ==> Attempted(last, entries, now)[room] == last[room]
    ensures room !in DueRooms(last, entries, now)
  {
    if entries != [] {
      var front := entries[..|entries| - 1];
      assert entries == front + [entries[|entries| - 1]];
      ListedGrows(front, entries[|entries| - 1]);
      Unlisted(last, front, now, room);
    }
  }

  /** Each listed room is attempted in a pass exactly when it is due at its start, once. */
  lemma {:induction false} AttemptedIffDue(last: map<RoomId, Time>, entries: seq<ScheduleEntry>, now: Time, k: nat)
    requires DistinctIds(entries) && k < |entries|
    ensures var e := entries[k];
            var after := Attempted(last, entries, now);
            && e.id in after
            && (e.id in DueRooms(last, entries, now) <==> Due(last, e, now))
            && after[e.id] == if Due(last, e, now) then now else last[e.id]
  {
    var n := |entries| - 1;
    var front := entries[..n];
    if k < n {
      AttemptedIffDue(last, front, now, k);
    } else {
      assert entries[n].id !in Listed(front);
      Unlisted(last, front, now, entries[n].id);
    }
  }

  /** After a full pass exactly the listed rooms are tracked. */
  lemma {:induction false} TrackedAreListed(last: map<RoomId, Time>, t: Tick)
    requires FullPass(t) && DistinctIds(t.listing.value)
    ensures AfterTick(last, t).Keys == Listed(t.listing.value)
  {
    var entries := t.listing.value;
    forall r | r in Listed(entries) ensures r in AfterTick(last, t) {
      var e :| e in entries && e.id == r;
      var k :| 0 <= k < |entries| && entries[k] == e;
      AttemptedIffDue(last, entries, t.now, k);
    }
  }

  // ---------- the effect of one tick ----------

  /** The listed entry was looked at before the scheduler was stopped, if it was. */
  predicate LookedAt(t: Tick, k: nat) {
    t.listing.Some? && k < |t.listing.value| && (t.stoppedAt.Some? ==> k < t.stoppedAt.value)
  }

  /** Never attempted, or its interval ago: ten seconds if what is listed is not positive. */
  predicate Ripe(last: map<RoomId, Time>, e: ScheduleEntry, now: Time) {
    e.id in last ==>
      now - last[e.id] >= if e.intervalSeconds > 0 then e.intervalSeconds * 1_000_000_000 else 10_000_000_000
  }

  /** A listed room is attempted exactly if it was looked at and ripe, and then its attempt is
      remembered; otherwise what was remembered stays. */
  lemma {:induction false} TickEffect(last: map<RoomId, Time>, t: Tick, k: nat)
    requires t.listing.Some? && DistinctIds(t.listing.value) && k < |t.listing.value|
    ensures var e := t.listing.value[k];
            var attempted := LookedAt(t, k) && Ripe(last, e, t.now);
            && (e.id in DueRooms(last, Reached(t), t.now) <==> attempted)
            && (e.id in AfterTick(last, t) <==> LookedAt(t, k) || e.id in last)
            && (e.id in AfterTick(last, t) ==> AfterTick(last, t)[e.id] == if attempted then t.now else last[e.id])
  {
    var e := t.listing.value[k];
    assert e in t.listing.value;
    if LookedAt(t, k) {
      AttemptedIffDue(last, Reached(t), t.now, k);
    } else {
      forall x | x in Reached(t) ensures x.id != e.id {
        var i :| 0 <= i < |Reached(t)| && Reached(t)[i] == x;
        assert t.listing.value[i] == x;
      }
      Unlisted(last, Reached(t), t.now, e.id);
    }
  }

  /** A room that is not listed is not attempted; it is forgotten after a full pass and kept
      when the listing failed or the scheduler was stopped before the end. */
  lemma {:induction false} UnlistedEffect(last: map<RoomId, Time>, t: Tick, room: RoomId)
    requires t.listing.Some? ==> forall e :: e in t.listing.value ==> e.id != room
    ensures room !in DueRooms(last, Reached(t), t.now)
    ensures var full := t.listing.Some? && (t.stoppedAt.Some? ==> t.stoppedAt.value >= |t.listing.value|);
            && (room in AfterTick(last, t) <==> room in last && !full)
            && (room in AfterTick(last, t) ==> AfterTick(last, t)[room] == last[room])
  {
    Unlisted(last, Reached(t), t.now, room);
  }

  /** Rooms are attempted in the order in which they are listed, each once. */
  lemma {:induction false} AttemptedInOrder(last: map<RoomId, Time>, entries: seq<ScheduleEntry>, now: Time)
    returns (places: seq<nat>)
    ensures |places| == |DueRooms(last, entries, now)|
    ensures forall i :: 0 <= i < |places| ==>
              places[i] < |entries| && entries[places[i]].id == DueRooms(last, entries, now)[i]
    ensures forall i, j :: 0 <= i < j < |places| ==> places[i] < places[j]
  {
    places := [];
    if entries != [] {
      var n := |entries| - 1;
      places := AttemptedInOrder(last, entries[..n], now);
      if Due(Attempted(last, entries[..n], now), entries[n], now) { places := places + [n]; }
    }
  }

  // ---------- the pace of one room ----------

  function After(last: map<RoomId, Time>, ticks: seq<Tick>): map<RoomId, Time> {
    if ticks == [] then last else AfterTick(After(last, ticks[..|ticks| - 1]), ticks[|ticks| - 1])
  }

  /** The times at which the room is attempted. */
  function AttemptTimes(last: map<RoomId, Time>, ticks: seq<Tick>, room: RoomId): seq<Time> {
    if ticks == [] then []
    else
      var front := ticks[..|ticks| - 1];
      var t := ticks[|ticks| - 1];
      AttemptTimes(last, front, room) + if room in DueRooms(After(last, front), Reached(t), t.now) then [t.now] else []
  }

  /** The room stays listed with the interval, in full passes over distinct rooms. */
  ghost predicate StaysListed(ticks: seq<Tick>, e: ScheduleEntry) {
    forall t :: t in ticks ==> FullPass(t) && DistinctIds(t.listing.value) && e in t.listing.value
  }

  /** The clock does not run back, and no two ticks are further apart than `gap`. */
  ghost predicate Ticking(ticks: seq<Tick>, gap: Time) {
    forall i, j :: 0 <= i && j == i + 1 && j < |ticks| ==> ticks[i].now <= ticks[j].now <= ticks[i].now + gap
  }

  ghost predicate Paced(times: seq<Time>, interval: Time, gap: Time) {
    forall i, j :: 0 <= i && j == i + 1 && j < |times| ==> interval <= times[j] - times[i] < interval + gap
  }

  lemma TickOfListedRoom(last: map<RoomId, Time>, t: Tick, e: ScheduleEntry)
    requires FullPass(t) && DistinctIds(t.listing.value) && e in t.listing.value
    ensures e.id in AfterTick(last, t)
    ensures e.id in DueRooms(last, Reached(t), t.now) <==> Due(last, e, t.now)
    ensures AfterTick(last, t)[e.id] == if Due(last, e, t.now) then t.now else last[e.id]
    ensures t.now - AfterTick(last, t)[e.id] < Interval(e)
  {
    var k :| 0 <= k < |t.listing.value| && t.listing.value[k] == e;
    AttemptedIffDue(last, t.listing.value, t.now, k);
  }

  /** The attempt times so far meet the pace, and the last one is tracked. */
  ghost predicate OnPace(last: map<RoomId, Time>, times: seq<Time>, e: ScheduleEntry, gap: Time) {
    && times != [] && Paced(times, Interval(e), gap)
    && e.id in last && last[e.id] == times[|times| - 1]
  }

  lemma OneMoreTick(last: map<RoomId, Time>, times: seq<Time>, t: Tick, e: ScheduleEntry, gap: Time, previous: Time)
    requires FullPass(t) && DistinctIds(t.listing.value) && e in t.listing.value
    requires OnPace(last, times, e, gap)
    requires previous - times[|times| - 1] < Interval(e) && t.now <= previous + gap
    ensures var more := times + if e.id in DueRooms(last, Reached(t), t.now) then [t.now] else [];
            OnPace(AfterTick(last, t), more, e, gap) && more[0] == times[0] && t.now - more[|more| - 1] < Interval(e)
  {
    TickOfListedRoom(last, t, e);
  }

  lemma {:induction false} FirstTick(last: map<RoomId, Time>, ticks: seq<Tick>, e: ScheduleEntry, gap: Time)
    requires e.id !in last && |ticks| == 1 && StaysListed(ticks, e)
    ensures var times := AttemptTimes(last, ticks, e.id);
            && OnPace(After(last, ticks), times, e, gap)
            && times[0] == ticks[0].now && ticks[0].now - times[|times| - 1] < Interval(e)
  {
    assert ticks[0] in ticks && ticks[..0] == [];
    TickOfListedRoom(last, ticks[0], e);
  }

  /** A room that stays listed is attempted on its first tick; then consecutive attempts are
      at least its interval apart and less than the interval and the largest gap between
      ticks together; and after every tick the last attempt is less than an interval ago. */
  lemma {:induction false} RoomsKeepTheirPace(last: map<RoomId, Time>, ticks: seq<Tick>, e: ScheduleEntry, gap: Time)
    requires e.id !in last && ticks != [] && StaysListed(ticks, e) && Ticking(ticks, gap)
    ensures var times := AttemptTimes(last, ticks, e.id);
            && OnPace(After(last, ticks), times, e, gap)
            && times[0] == ticks[0].now
            && ticks[|ticks| - 1].now - times[|times| - 1] < Interval(e)
  {
    var n := |ticks| - 1;
    var front, t := ticks[..n], ticks[n];
    assert t in ticks;
    if n == 0 {
      FirstTick(last, ticks, e, gap);
    } else {
      FrontStaysListed(ticks, e, gap);
      RoomsKeepTheirPace(last, front, e, gap);
      OneMoreTick(After(last, front), AttemptTimes(last, front, e.id), t, e, gap, front[n - 1].now);
    }
  }

  lemma FrontStaysListed(ticks: seq<Tick>, e: ScheduleEntry, gap: Time)
    requires |ticks| > 1 && StaysListed(ticks, e) && Ticking(ticks, gap)
    ensures var front := ticks[..|ticks| - 1];
            StaysListed(front, e) && Ticking(front, gap) && ticks[|ticks| - 1].now <= front[|front| - 1].now + gap
  {
    var front := ticks[..|ticks| - 1];
    assert forall t :: t in front ==> t in ticks;
    assert front[|front| - 1] == ticks[|ticks| - 2];
  }

  lemma {:induction false} FirstFrom(times: seq<Time>, start: Time) returns (j: nat)
    requires times != [] && start <= times[|times| - 1]
    ensures j < |times| && start <= times[j] && (j > 0 ==> times[j - 1] < start)
  {
    j := |times| - 1;
    while j > 0 && start <= times[j - 1]
      invariant j < |times| && start <= times[j]
    {
      j := j - 1;
    }
  }

  /** Whatever the moment: a room that has been listed before and stays listed long enough is
      attempted from then on within less than its interval and the largest gap between ticks
      together. */
  lemma {:induction false} AttemptedSoonAfter(last: map<RoomId, Time>, ticks: seq<Tick>, e: ScheduleEntry, gap: Time,
                                              start: Time) returns (j: nat)
    requires e.id !in last && ticks != [] && StaysListed(ticks, e) && Ticking(ticks, gap)
    requires ticks[0].now <= start && start + Interval(e) <= ticks[|ticks| - 1].now
    ensures var times := AttemptTimes(last, ticks, e.id);
            j < |times| && start <= times[j] < start + Interval(e) + gap
  {
    var times := AttemptTimes(last, ticks, e.id);
    RoomsKeepTheirPace(last, ticks, e, gap);
    j := FirstFrom(times, start);
    assert |ticks| > 1 && ticks[0].now <= ticks[1].now <= ticks[0].now + gap;
    if j > 0 { assert times[j] - times[j - 1] < Interval(e) + gap; }
  }

  // ---------- the rooms that are listed ----------

  /** What the listing query returns, in any order: every room that is not closed, once,
      with its interval. */
  ghost predicate ListsRooms(entries: seq<ScheduleEntry>, rooms: map<RoomId, Room>) {
    && DistinctIds(entries)
    && (forall e :: e in entries ==>
          e.id in rooms && rooms[e.id].status != Closed && e.intervalSeconds == rooms[e.id].recalcInterval)
    && (forall r :: r in rooms && rooms[r].status != Closed ==> r in Listed(entries))
  }

  /** In every reachable state each listed room has a positive interval of its own, so the
      fallback interval is never used, and a room that is not closed has an entry. */
  lemma {:induction false} ListedIntervalsAreUsed(ops: seq<Op>, entries: seq<ScheduleEntry>, room: RoomId)
    requires room in Reach(ops).rooms && ListsRooms(entries, Reach(ops).rooms)
    ensures Reach(ops).rooms[room].status != Closed
            <==> exists e :: e in entries && e.id == room
    ensures forall e :: e in entries && e.id == room ==>
              Interval(e) == Reach(ops).rooms[room].recalcInterval * SECOND && 2 * SECOND <= Interval(e) <= 300 * SECOND
  {
    ReachInv(ops);
  }
}
