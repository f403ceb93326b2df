/**
 How long the stored queue lags behind: the scheduler's passes and the commits of all use
 cases in the order of time. Once nothing changes any more that the ranking depends on, the
 next batch of the room, which the scheduler starts within the room's interval and one gap
 between ticks, settles the queue.
 */
module Freshness {
  import opened Versions
  import opened Tables
  import opened Invariants
  import opened Operations
  import opened Preservation
  import opened QueueTheorems
  import opened History
  import opened Scheduler

  // ---------- a batch and what follows it ----------

  /** A use case other than a batch of the room leaves its fingerprint alone. */
  ghost predicate LeavesAlone(db: Db, op: Op, room: RoomId)
    requires Inv(db)
  {
    StepKeepsInv(db, op);
    room in db.rooms ==>
      room in Step(db, op).db.rooms && FingerprintNow(Step(db, op).db, room) == FingerprintNow(db, room)
  }

  predicate BatchOf(op: Op, room: RoomId) {
    op.OpRecalculate? && op.room == room
  }

  /** After a batch: the ranking is the one logged last, or the next batch will skip although
      it is not. */
  ghost predicate Settled(db: Db, room: RoomId, good: bool)
    requires Inv(db)
  {
    && room in db.rooms && db.log[room] != []
    && (good <==> FingerprintNow(db, room) == Last(db.log[room]).fingerprint)
    && (!good ==> Skips(db, room))
  }

  lemma {:induction false} QuietKeepsSettled(db: Db, op: Op, room: RoomId, good: bool)
    requires Inv(db) && Settled(db, room, good) && !BatchOf(op, room) && LeavesAlone(db, op, room)
    ensures Inv(Step(db, op).db) && Settled(Step(db, op).db, room, good)
  {
    LogStep(db, op, room);
  }

  lemma {:induction false} BatchKeepsSettled(db: Db, op: Op, room: RoomId, good: bool)
    requires Inv(db) && Settled(db, room, good) && BatchOf(op, room)
    ensures Inv(Step(db, op).db) && Settled(Step(db, op).db, room, good)
  {
    StepIsUseCase(db, op);
    StepKeepsInv(db, op);
    if !Skips(db, room) {
      RecalculationPublishes(db, room, op.now, op.createdAt, op.logId);
      UpToDateIff(Step(db, op).db, room);
    }
  }

  /** The first batch settles the queue, for good exactly if it does not skip on an entry that
      hides the last rewrite. */
  lemma {:induction false} BatchSettles(ops: seq<Op>, op: Op, room: RoomId)
    requires BatchOf(op, room) && room in Reach(ops).rooms
    ensures Inv(Reach(ops)) && Inv(Step(Reach(ops), op).db)
    ensures Settled(Step(Reach(ops), op).db, room, Skips(Reach(ops), room) ==> LastRewriteLanded(ops, room))
  {
    ReachInv(ops);
    StepIsUseCase(Reach(ops), op);
    StepKeepsInv(Reach(ops), op);
    BatchConvergesIff(ops, room, op.now, op.createdAt, op.logId);
    UpToDateIff(Step(Reach(ops), op).db, room);
  }

  // ---------- passes and commits in the order of time ----------

  datatype Happening = Commit(at: Time, op: Op) | Pass(tick: Tick)

  function TimeOf(h: Happening): Time {
    if h.Commit? then h.at else h.tick.now
  }

  function OpsOf(run: seq<Happening>): seq<Op> {
    if run == [] then []
    else OpsOf(run[..|run| - 1]) + if run[|run| - 1].Commit? then [run[|run| - 1].op] else []
  }

  function TicksOf(run: seq<Happening>): seq<Tick> {
    if run == [] then []
    else TicksOf(run[..|run| - 1]) + if run[|run| - 1].Pass? then [run[|run| - 1].tick] else []
  }

  /** The committed tables after the first `k` happenings. */
  ghost function TablesAt(run: seq<Happening>, k: nat): (db: Db)
    requires k <= |run|
    ensures Inv(db)
  {
    ReachInv(OpsOf(run[..k]));
    Reach(OpsOf(run[..k]))
  }

  ghost predicate InOrder(run: seq<Happening>) {
    forall i, j :: 0 <= i < j < |run| ==> TimeOf(run[i]) <= TimeOf(run[j])
  }

  /** Every pass is a full one over what the listing query returns at that moment, and the
      room is listed in it. */
  ghost predicate ListedInAll(run: seq<Happening>, room: RoomId) {
    forall k :: 0 <= k < |run| && run[k].Pass? ==>
      && FullPass(run[k].tick)
      && ListsRooms(run[k].tick.listing.value, TablesAt(run, k).rooms)
      && room in TablesAt(run, k).rooms && TablesAt(run, k).rooms[room].status != Closed
  }

  predicate IsBatch(h: Happening, room: RoomId) {
    h.Commit? && BatchOf(h.op, room)
  }

  /** The pass at `p` attempts the room; the scheduler started with nothing tracked. */
  predicate Attempts(run: seq<Happening>, p: nat, room: RoomId)
    requires p < |run|
  {
    run[p].Pass?
    && room in DueRooms(After(map[], TicksOf(run[..p])), Reached(run[p].tick), run[p].tick.now)
  }

  ghost predicate BatchFollows(run: seq<Happening>, p: nat, room: RoomId, work: Time)
    requires p < |run|
  {
    exists k :: p < k < |run| && IsBatch(run[k], room) && TimeOf(run[k]) <= TimeOf(run[p]) + work
  }

  /** The batch of every attempt commits within `work` of its pass. */
  ghost predicate AttemptsCommit(run: seq<Happening>, room: RoomId, work: Time) {
    forall p: nat :: p < |run| && Attempts(run, p, room) ==> BatchFollows(run, p, room, work)
  }

  ghost predicate QuietAt(run: seq<Happening>, k: nat, room: RoomId)
    requires k < |run|
  {
    run[k].Commit? && !IsBatch(run[k], room) ==> LeavesAlone(TablesAt(run, k), run[k].op, room)
  }

  /** From `start` on nothing but batches of the room changes what its ranking depends on. */
  ghost predicate QuietFrom(run: seq<Happening>, room: RoomId, start: Time) {
    forall k: nat {:trigger QuietAt(run, k, room)} :: k < |run| && start <= TimeOf(run[k]) ==> QuietAt(run, k, room)
  }

  // ---------- what the scheduler sees ----------

  lemma {:induction false} OpsGrow(run: seq<Happening>, k: nat)
    requires k <= |run|
    ensures OpsOf(run[..k]) <= OpsOf(run)
    decreases |run|
  {
    if k == |run| {
      assert run[..k] == run;
    } else {
      assert run[..|run| - 1][..k] == run[..k];
      OpsGrow(run[..|run| - 1], k);
    }
  }

  /** A room that is known at some point is known later, with the same interval. */
  lemma {:induction false} IntervalStays(run: seq<Happening>, p: nat, k: nat)
    requires p <= k <= |run|
    ensures RoomsKept(TablesAt(run, p).rooms, TablesAt(run, k).rooms)
  {
    assert run[..k][..p] == run[..p];
    OpsGrow(run[..k], p);
    var ops, n := OpsOf(run[..k]), |OpsOf(run[..p])|;
    assert ops[..n] == OpsOf(run[..p]);
    IntervalsNeverChange(ops, n);
  }

  lemma {:induction false} TickHappened(run: seq<Happening>, t: Tick) returns (p: nat)
    requires t in TicksOf(run)
    ensures p < |run| && run[p] == Pass(t)
  {
    var n := |run| - 1;
    if run[n] == Pass(t) {
      p := n;
    } else {
      p := TickHappened(run[..n], t);
    }
  }

  /** The entry under which a room of the tables is listed. */
  function EntryFor(rooms: map<RoomId, Room>, room: RoomId): ScheduleEntry
    requires room in rooms
  {
    ScheduleEntry(room, rooms[room].recalcInterval)
  }

  lemma {:induction false} ListedAs(entries: seq<ScheduleEntry>, rooms: map<RoomId, Room>, room: RoomId)
    requires ListsRooms(entries, rooms) && room in rooms && rooms[room].status != Closed
    ensures DistinctIds(entries) && EntryFor(rooms, room) in entries
  {
    var e :| e in entries && e.id == room;
    assert e == EntryFor(rooms, room);
  }

  lemma {:induction false} RoomStaysListed(run: seq<Happening>, room: RoomId)
    requires ListedInAll(run, room) && room in TablesAt(run, |run|).rooms
    ensures StaysListed(TicksOf(run), EntryFor(TablesAt(run, |run|).rooms, room))
  {
    var e := EntryFor(TablesAt(run, |run|).rooms, room);
    forall t | t in TicksOf(run) ensures FullPass(t) && DistinctIds(t.listing.value) && e in t.listing.value {
      var p := TickHappened(run, t);
      ListedAs(t.listing.value, TablesAt(run, p).rooms, room);
      IntervalStays(run, p, |run|);
    }
  }

  lemma {:induction false} AttemptsOneByOne(run: seq<Happening>, room: RoomId)
    requires run != []
    ensures var n := |run| - 1;
            AttemptTimes(map[], TicksOf(run), room)
            == AttemptTimes(map[], TicksOf(run[..n]), room) + if Attempts(run, n, room) then [TimeOf(run[n])] else []
  {
    var n := |run| - 1;
    if run[n].Pass? {
      assert TicksOf(run)[..|TicksOf(run)| - 1] == TicksOf(run[..n]);
    } else {
      assert TicksOf(run) == TicksOf(run[..n]);
    }
  }

  lemma {:induction false} AttemptHappened(run: seq<Happening>, room: RoomId, a: Time) returns (p: nat)
    requires a in AttemptTimes(map[], TicksOf(run), room)
    ensures p < |run| && Attempts(run, p, room) && TimeOf(run[p]) == a
  {
    var n := |run| - 1;
    AttemptsOneByOne(run, room);
    if a in AttemptTimes(map[], TicksOf(run[..n]), room) {
      p := AttemptHappened(run[..n], room, a);
      assert run[..n][..p] == run[..p];
    } else {
      p := n;
    }
  }

  // ---------- the queue catches up ----------

  lemma {:induction false} TablesNext(run: seq<Happening>, k: nat)
    requires k < |run|
    ensures TablesAt(run, k + 1)
            == if run[k].Commit? then Step(TablesAt(run, k), run[k].op).db else TablesAt(run, k)
    ensures run[k].Commit? ==> OpsOf(run[..k + 1]) == OpsOf(run[..k]) + [run[k].op]
  {
    assert run[..k + 1][..k] == run[..k];
    if run[k].Commit? {
      assert OpsOf(run[..k + 1])[..|OpsOf(run[..k])|] == OpsOf(run[..k]);
    } else {
      assert OpsOf(run[..k + 1]) == OpsOf(run[..k]);
    }
  }

  /** Whether the batch at `k` has a sound skip, if it skips. */
  ghost predicate GoodBatch(run: seq<Happening>, k: nat, room: RoomId)
    requires k <= |run| && room in TablesAt(run, k).rooms
  {
    Skips(TablesAt(run, k), room) ==> LastRewriteLanded(OpsOf(run[..k]), room)
  }

  /** Settled after the first `n` happenings. */
  ghost predicate SettledAt(run: seq<Happening>, n: nat, room: RoomId, good: bool) {
    n <= |run| && Settled(TablesAt(run, n), room, good)
  }

  lemma {:induction false} SettledNext(run: seq<Happening>, room: RoomId, start: Time, i: nat, good: bool)
    requires QuietFrom(run, room, start)
    requires i < |run| && start <= TimeOf(run[i]) && SettledAt(run, i, room, good)
    ensures SettledAt(run, i + 1, room, good)
  {
    TablesNext(run, i);
    assert QuietAt(run, i, room);
    if IsBatch(run[i], room) {
      BatchKeepsSettled(TablesAt(run, i), run[i].op, room, good);
    } else if run[i].Commit? {
      QuietKeepsSettled(TablesAt(run, i), run[i].op, room, good);
    }
  }

  lemma {:induction false} StaysSettled(run: seq<Happening>, room: RoomId, start: Time, n: nat, j: nat, good: bool)
    requires QuietFrom(run, room, start) && n <= j <= |run|
    requires forall i :: n <= i < |run| ==> start <= TimeOf(run[i])
    requires SettledAt(run, n, room, good)
    ensures SettledAt(run, j, room, good)
    decreases |run| - n
  {
    if n == j {
      return;
    }
    SettledNext(run, room, start, n, good);
    StaysSettled(run, room, start, n + 1, j, good);
  }

  /** After the batch at `k` the tables are up to date if and only if its skip, if it skips, is
      sound. */
  ghost predicate SettledBy(run: seq<Happening>, room: RoomId, k: nat)
    requires k < |run| && room in TablesAt(run, k).rooms
  {
    forall j :: k < j <= |run| ==>
      && room in TablesAt(run, j).rooms && TablesAt(run, j).log[room] != []
      && (UpToDate(TablesAt(run, j), room) <==> GoodBatch(run, k, room))
  }

  lemma {:induction false} BatchSettlesRun(run: seq<Happening>, room: RoomId, start: Time, k: nat)
    requires InOrder(run) && QuietFrom(run, room, start)
    requires k < |run| && start <= TimeOf(run[k]) && IsBatch(run[k], room) && room in TablesAt(run, k).rooms
    ensures SettledBy(run, room, k)
  {
    TablesNext(run, k);
    BatchSettles(OpsOf(run[..k]), run[k].op, room);
    forall j | k < j <= |run|
      ensures room in TablesAt(run, j).rooms && TablesAt(run, j).log[room] != []
      ensures UpToDate(TablesAt(run, j), room) <==> GoodBatch(run, k, room)
    {
      StaysSettled(run, room, start, k + 1, j, GoodBatch(run, k, room));
      UpToDateIff(TablesAt(run, j), room);
    }
  }

  /** A room that is listed in every pass, and whose attempts are carried out within `work`:
      from any moment on after which nothing but its own batches changes what its ranking
      depends on, one of its batches commits within its interval, the largest gap between
      ticks and `work` together, and from then on its queue is up to date if and only if that
      batch does not skip on an entry that hides the last rewrite. */
  lemma {:induction false} QueueCatchesUp(run: seq<Happening>, room: RoomId, gap: Time, work: Time, start: Time)
    returns (k: nat)
    requires InOrder(run) && ListedInAll(run, room) && AttemptsCommit(run, room, work) && QuietFrom(run, room, start)
    requires room in TablesAt(run, |run|).rooms
    requires TicksOf(run) != [] && Ticking(TicksOf(run), gap)
    requires var interval := TablesAt(run, |run|).rooms[room].recalcInterval * SECOND;
             TicksOf(run)[0].now <= start && start + interval <= TicksOf(run)[|TicksOf(run)| - 1].now
    ensures k < |run| && IsBatch(run[k], room) && room in TablesAt(run, k).rooms
    ensures var interval := TablesAt(run, |run|).rooms[room].recalcInterval * SECOND;
            start <= TimeOf(run[k]) < start + interval + gap + work
    ensures SettledBy(run, room, k)
  {
    var e := EntryFor(TablesAt(run, |run|).rooms, room);
    RoomStaysListed(run, room);
    var j := AttemptedSoonAfter(map[], TicksOf(run), e, gap, start);
    var a := AttemptTimes(map[], TicksOf(run), room)[j];
    var p := AttemptHappened(run, room, a);
    assert BatchFollows(run, p, room, work);
    k :| p < k < |run| && IsBatch(run[k], room) && TimeOf(run[k]) <= TimeOf(run[p]) + work;
    IntervalStays(run, p, k);
    BatchSettlesRun(run, room, start, k);
  }
}
