/**
 The use cases interleaved. A transaction takes the locks of its plan one by one, looks at
 what a row guards only while it holds the row, draws its FIFO number from the one sequence
 of all rooms while it holds its room, and commits what its use case makes of what it has
 seen, writing back only what its locks guard. Others do the same in between. The committed
 tables are those of running the committed use cases one after the other in commit order.
 */
module Interleaving {
  import opened Common
  import opened Tables
  import opened Invariants
  import opened Operations
  import opened Preservation
  import opened Locality
  import opened WriteBack
  import L = LockProtocol

  // ---------- interleaved use cases ----------

  /** A use case under way: the committed tables at the moments it looked at its room and at
      its session, and the FIFO number it drew last. */
  datatype Work = Work(op: Op, roomSeen: Option<Db>, sessionSeen: Option<Db>, drawn: Option<nat>)

  /** `numbers` is how many FIFO numbers have been drawn, for all rooms together; `ops` are
      the committed use cases in commit order, and `sent` what they sent. */
  datatype System = System(
    locks: L.State,
    db: Db,
    numbers: nat,
    running: map<L.TxId, Work>,
    ops: seq<Op>,
    sent: seq<seq<Signal>>)

  datatype Move =
    | Start(t: L.TxId, kind: L.Kind, op: Op)
    | Ask(t: L.TxId)
    | Obtain(t: L.TxId)
    | SeeRoom(t: L.TxId)
    | SeeSession(t: L.TxId)
    | Draw(t: L.TxId)
    | Commit(t: L.TxId, view: Db)
    | Abort(t: L.TxId)               // refused, failed or cancelled

  /** The transaction that runs the use case. */
  predicate Serves(kind: L.Kind, op: Op) {
    match op
    case OpCreateRoom(id, _, _) => kind == L.Kind.CreateRoom(id)
    case OpPatchRoom(room, _, _, _) => kind == L.Kind.Patch(room)
    case OpJoin(first, _, known, _) => kind.Join? && first == Some(kind.room) && known == kind.known
    case OpLeave(session, _) => kind == L.Kind.TouchSession(session)
    case OpPropose(room, caller, _, _, _) => kind.Propose? && kind.room == room && kind.session == caller.session
    case OpVote(room, session, t) =>
      kind.Vote? && kind.room == room && kind.session == session && kind.target.TrackRow? && kind.target.track == t
    case OpDelete(room, t) => kind == L.Kind.Delete(room, t)
    case OpEnd(room, t, _) => kind == L.Kind.End(room, t)
    case OpPlay(room, _) => kind.Play? && kind.room == room
    case OpRecalculate(room, _, _, _) => kind.Recalculate? && kind.room == room
    case OpFault => false
  }

  /** No request names a session before its id has been issued. */
  predicate NamesIssued(op: Op, db: Db) {
    LockedSession(op).Some? ==> LockedSession(op).value < db.nextSession
  }

  ghost predicate HoldsRoom(locks: L.State, t: L.TxId, op: Op) {
    && t in locks.txs && LockedRoom(op).Some?
    && L.Holds(locks.txs[t], L.RoomRow(LockedRoom(op).value), L.Exclusive)
  }

  ghost predicate HoldsSession(locks: L.State, t: L.TxId, op: Op) {
    && t in locks.txs && LockedSession(op).Some?
    && L.Holds(locks.txs[t], L.SessionRow(LockedSession(op).value), L.Exclusive)
  }

  /** The proposal with the number it drew, told as a gap after the last number of its room. */
  function Numbered(w: Work, db: Db): Op {
    if w.op.OpPropose? && w.drawn.Some? && w.op.room in db.rooms && db.rooms[w.op.room].lastFifo < w.drawn.value
    then w.op.(gap := w.drawn.value - db.rooms[w.op.room].lastFifo - 1)
    else w.op
  }

  ghost predicate AddsTrack(db: Db, op: Op)
    requires Ready(db)
  {
    Step(db, op).db.nextTrack != db.nextTrack
  }

  /** Tables that look, on the rows the transaction has locked, as it saw them: all it knows
      when it computes its outcome. Ids stand in the order in which they are committed. */
  ghost predicate AsSeen(w: Work, view: Db) {
    && (LockedRoom(w.op).Some? ==>
          w.roomSeen.Some? && Agree(view, w.roomSeen.value, LockedRoom(w.op).value))
    && (LockedSession(w.op).Some? ==>
          w.sessionSeen.Some? && AgreeOn(view, w.sessionSeen.value, LockedSession(w.op).value))
  }

  ghost predicate Possible(s: System, m: Move) {
    match m
    case Start(t, kind, op) =>
      L.Enabled(s.locks, L.Begin(t, kind)) && t !in s.running && Serves(kind, op) && NamesIssued(op, s.db)
    case Ask(t) => L.Enabled(s.locks, L.Request(t))
    case Obtain(t) => L.Enabled(s.locks, L.Grant(t))
    case SeeRoom(t) => t in s.running && HoldsRoom(s.locks, t, s.running[t].op)
    case SeeSession(t) => t in s.running && HoldsSession(s.locks, t, s.running[t].op)
    case Draw(t) => t in s.running && HoldsRoom(s.locks, t, s.running[t].op)
    case Commit(t, view) =>
      && t in s.running && t in s.locks.txs
      && Inv(view) && SameNext(view, s.db) && AsSeen(s.running[t], view)
      && (AddsTrack(view, Numbered(s.running[t], view)) ==> s.running[t].drawn.Some?)
    case Abort(t) => t in s.running && t in s.locks.txs
  }

  ghost function Next(s: System, m: Move): System {
    if !Possible(s, m) then s
    else
      match m
      case Start(t, kind, op) =>
        s.(locks := L.Apply(s.locks, L.Begin(t, kind)), running := s.running[t := Work(op, None, None, None)])
      case Ask(t) => s.(locks := L.Apply(s.locks, L.Request(t)))
      case Obtain(t) => s.(locks := L.Apply(s.locks, L.Grant(t)))
      case SeeRoom(t) => s.(running := s.running[t := s.running[t].(roomSeen := Some(s.db))])
      case SeeSession(t) => s.(running := s.running[t := s.running[t].(sessionSeen := Some(s.db))])
      case Draw(t) =>
        s.(running := s.running[t := s.running[t].(drawn := Some(s.numbers + 1))], numbers := s.numbers + 1)
      case Commit(t, view) =>
        var op := Numbered(s.running[t], view);
        s.(locks := L.Apply(s.locks, L.Finish(t)),
           db := WrittenBack(s.db, Step(view, op).db, op),
           running := s.running - {t},
           ops := s.ops + [op],
           sent := s.sent + [Step(view, op).signals])
      case Abort(t) => s.(locks := L.Apply(s.locks, L.Finish(t)), running := s.running - {t})
  }

  /** The system after any sequence of moves; a move that is not possible does nothing. */
  ghost function AfterMoves(moves: seq<Move>): System {
    if moves == [] then System(L.State(map[], 0), EmptyDb, 0, map[], [], [])
    else Next(AfterMoves(moves[..|moves| - 1]), moves[|moves| - 1])
  }

  // ---------- invariants ----------

  /** What a transaction has seen is what is committed now, and the number it drew is above
      all numbers of its room. */
  ghost predicate Current(w: Work, t: L.TxId, locks: L.State, db: Db, numbers: nat) {
    && t in locks.txs && NamesIssued(w.op, db)
    && (w.roomSeen.Some? ==>
          HoldsRoom(locks, t, w.op) && Agree(w.roomSeen.value, db, LockedRoom(w.op).value))
    && (w.sessionSeen.Some? ==>
          HoldsSession(locks, t, w.op) && AgreeOn(w.sessionSeen.value, db, LockedSession(w.op).value))
    && (w.drawn.Some? ==>
          && HoldsRoom(locks, t, w.op) && w.drawn.value <= numbers
          && var room := LockedRoom(w.op).value; room in db.rooms ==> db.rooms[room].lastFifo < w.drawn.value)
  }

  ghost predicate AllCurrent(running: map<L.TxId, Work>, locks: L.State, db: Db, numbers: nat) {
    forall t :: t in running ==> Current(running[t], t, locks, db, numbers)
  }

  ghost predicate AllDrawn(db: Db, numbers: nat) {
    forall r :: r in db.rooms ==> db.rooms[r].lastFifo <= numbers
  }

  /** The committed tables and what was sent are those of a run of use cases one by one. */
  ghost predicate AsRun(db: Db, ops: seq<Op>, sent: seq<seq<Signal>>) {
    && db == Reach(ops) && |sent| == |ops|
    && (forall i :: 0 <= i < |ops| ==> sent[i] == Step(Reach(ops[..i]), ops[i]).signals)
  }

  ghost predicate Invariant(s: System) {
    && L.Inv(s.locks) && Inv(s.db) && AsRun(s.db, s.ops, s.sent) && AllDrawn(s.db, s.numbers)
    && AllCurrent(s.running, s.locks, s.db, s.numbers)
  }

  lemma {:induction false} AgreeOnward(a: Db, b: Db, c: Db, room: RoomId)
    requires Agree(a, b, room) && Agree(b, c, room)
    ensures Agree(a, c, room)
  {
    forall t ensures TrackIn(a.tracks, room, t) == TrackIn(c.tracks, room, t) {
      assert TrackIn(a.tracks, room, t) == TrackIn(b.tracks, room, t);
    }
    forall x ensures NicknameIn(a.sessions, room, x) == NicknameIn(c.sessions, room, x) {
      assert NicknameIn(a.sessions, room, x) == NicknameIn(b.sessions, room, x);
    }
  }

  lemma {:induction false} NumberedLocks(w: Work, db: Db)
    ensures LockedRoom(Numbered(w, db)) == LockedRoom(w.op) && LockedSession(Numbered(w, db)) == LockedSession(w.op)
  {
  }

  lemma {:induction false} SeenLooksAlike(s: System, t: L.TxId, view: Db)
    requires Possible(s, Commit(t, view)) && Current(s.running[t], t, s.locks, s.db, s.numbers)
    ensures LookAlike(view, s.db, Numbered(s.running[t], view))
  {
    var w := s.running[t];
    NumberedLocks(w, view);
    if LockedRoom(w.op).Some? { AgreeOnward(view, w.roomSeen.value, s.db, LockedRoom(w.op).value); }
  }

  /** A commit does to the committed tables what its use case does when it runs alone now. */
  lemma {:induction false} CommitIsStep(s: System, t: L.TxId, view: Db)
    requires Inv(s.db) && Inv(view) && Possible(s, Commit(t, view))
    requires Current(s.running[t], t, s.locks, s.db, s.numbers)
    ensures var op := Numbered(s.running[t], view);
            && LookAlike(view, s.db, op)
            && Next(s, Commit(t, view)).db == Step(s.db, op).db
            && Step(view, op).signals == Step(s.db, op).signals
            && Step(view, op).db.nextTrack == Step(s.db, op).db.nextTrack
  {
    SeenLooksAlike(s, t, view);
    LocalCommitIsStep(view, s.db, Numbered(s.running[t], view));
  }

  // ---------- a commit and the others ----------

  lemma {:induction false} SessionIdsGrow(db: Db, op: Op)
    requires Ready(db)
    ensures db.nextSession <= Step(db, op).db.nextSession
  {
    StepIsUseCase(db, op);
    if op.OpPropose? { ProposeCases(db, op.room, op.caller, op.catalog, op.firstLook, op.gap); }
  }

  /** A use case that locks neither the room nor the session of a transaction. */
  ghost predicate Apart(w: Work, t: L.TxId, locks: L.State, op: Op) {
    && (HoldsRoom(locks, t, w.op) ==> LockedRoom(op) != LockedRoom(w.op))
    && (HoldsSession(locks, t, w.op) ==> LockedSession(op) != LockedSession(w.op))
  }

  lemma {:induction false} StepKeepsRoomSeen(db: Db, op: Op, seen: Db, room: RoomId)
    requires Inv(db) && LockedRoom(op) != Some(room) && Agree(seen, db, room)
    ensures Agree(seen, Step(db, op).db, room)
  {
    OtherRoomsUntouched(db, op, room);
    AgreeOnward(seen, db, Step(db, op).db, room);
  }

  lemma {:induction false} StepKeepsSessionSeen(db: Db, op: Op, seen: Db, session: SessionId)
    requires Ready(db) && db.nextSession !in db.sessions && session < db.nextSession
    requires LockedSession(op) != Some(session) && AgreeOn(seen, db, session)
    ensures AgreeOn(seen, Step(db, op).db, session)
  {
    StepSessionsElsewhere(db, op);
    assert !Mine(session, LockedSession(op), db.nextSession);
  }

  lemma {:induction false} StepKeepsLastNumber(db: Db, op: Op, room: RoomId)
    requires Inv(db) && LockedRoom(op) != Some(room)
    ensures var after := Step(db, op).db;
            (room in db.rooms <==> room in after.rooms)
            && (room in db.rooms ==> after.rooms[room] == db.rooms[room])
  {
    OtherRoomsUntouched(db, op, room);
  }

  /** The commit of a use case leaves alone what the others have seen and drawn. */
  lemma {:induction false} StepKeepsCurrent(w: Work, t: L.TxId, locks: L.State, db: Db, numbers: nat, op: Op)
    requires Inv(db) && Current(w, t, locks, db, numbers) && Apart(w, t, locks, op)
    ensures Current(w, t, locks, Step(db, op).db, numbers)
  {
    SessionIdsGrow(db, op);
    if w.roomSeen.Some? { StepKeepsRoomSeen(db, op, w.roomSeen.value, LockedRoom(w.op).value); }
    if w.sessionSeen.Some? { StepKeepsSessionSeen(db, op, w.sessionSeen.value, LockedSession(w.op).value); }
    if w.drawn.Some? { StepKeepsLastNumber(db, op, LockedRoom(w.op).value); }
  }

  /** Two transactions never hold the same room or the same session. */
  lemma {:induction false} CommittersAreApart(locks: L.State, t: L.TxId, w: Work, u: L.TxId, op: Op)
    requires L.Inv(locks) && t != u
    requires LockedRoom(op).Some? ==> HoldsRoom(locks, u, op)
    requires LockedSession(op).Some? ==> HoldsSession(locks, u, op)
    ensures Apart(w, t, locks, op)
  {
    if HoldsRoom(locks, t, w.op) && LockedRoom(op) == LockedRoom(w.op) {
      L.OneExclusiveHolder(locks, t, u, L.RoomRow(LockedRoom(op).value));
    }
    if HoldsSession(locks, t, w.op) && LockedSession(op) == LockedSession(w.op) {
      L.OneExclusiveHolder(locks, t, u, L.SessionRow(LockedSession(op).value));
    }
  }

  // ---------- FIFO numbers ----------

  /** How a use case changes the last FIFO number of a room. */
  lemma {:induction false} LastProposalNumber(db: Db, op: Op, r: RoomId)
    requires Ready(db) && op.OpPropose? && r in Step(db, op).db.rooms
    ensures var last := Step(db, op).db.rooms[r].lastFifo;
            && r in db.rooms
            && last == db.rooms[r].lastFifo + if AddsTrack(db, op) && r == op.room then 1 + op.gap else 0
  {
    StepIsUseCase(db, op);
    ProposeCases(db, op.room, op.caller, op.catalog, op.firstLook, op.gap);
  }

  lemma {:induction false} LastNumber(db: Db, op: Op, r: RoomId)
    requires Ready(db) && r in Step(db, op).db.rooms
    ensures var last := Step(db, op).db.rooms[r].lastFifo;
            if op.OpPropose? && AddsTrack(db, op) && r == op.room then
              r in db.rooms && last == db.rooms[r].lastFifo + 1 + op.gap
            else
              last == if r in db.rooms then db.rooms[r].lastFifo else 0
  {
    if op.OpPropose? { LastProposalNumber(db, op, r); } else { StepIsUseCase(db, op); }
  }

  /** The track a proposal adds has the number it drew, and the numbers of every room stay
      among those drawn. */
  lemma {:induction false} NumberTaken(w: Work, t: L.TxId, locks: L.State, db: Db, numbers: nat, op: Op, r: RoomId)
    requires Inv(db) && Current(w, t, locks, db, numbers) && op == Numbered(w, db)
    requires AddsTrack(db, op) ==> w.drawn.Some?
    requires AllDrawn(db, numbers) && r in Step(db, op).db.rooms
    ensures Step(db, op).db.rooms[r].lastFifo <= numbers
    ensures op.OpPropose? && AddsTrack(db, op) && r == op.room ==> Step(db, op).db.rooms[r].lastFifo == w.drawn.value
  {
    LastNumber(db, op, r);
  }

  lemma {:induction false} SameNumbered(w: Work, view: Db, db: Db)
    requires LookAlike(view, db, Numbered(w, view))
    ensures Numbered(w, view) == Numbered(w, db)
  {
    NumberedLocks(w, view);
  }

  lemma {:induction false} CommitKeepsDrawn(s: System, t: L.TxId, view: Db)
    requires Invariant(s) && Possible(s, Commit(t, view))
    ensures AllDrawn(Next(s, Commit(t, view)).db, s.numbers)
  {
    var w := s.running[t];
    var op := Numbered(w, view);
    CommitIsStep(s, t, view);
    SameNumbered(w, view, s.db);
    forall r | r in Step(s.db, op).db.rooms ensures Step(s.db, op).db.rooms[r].lastFifo <= s.numbers {
      NumberTaken(w, t, s.locks, s.db, s.numbers, op, r);
    }
  }

  // ---------- every move keeps the invariants ----------

  lemma {:induction false} HoldsStays(before: L.Tx, after: L.Tx, row: L.Resource)
    requires after.kind == before.kind && before.taken <= after.taken <= |L.Plan(before.kind)|
    requires L.Holds(before, row, L.Exclusive)
    ensures L.Holds(after, row, L.Exclusive)
  {
    var i :| 0 <= i < before.taken && L.Plan(before.kind)[i] == L.Lock(row, L.Exclusive);
    assert L.Plan(after.kind)[i] == L.Lock(row, L.Exclusive);
  }

  /** Locks only grow until a transaction ends. */
  lemma {:induction false} LockStepKeepsCurrent(w: Work, t: L.TxId, locks: L.State, step: L.Step, db: Db, numbers: nat)
    requires L.Inv(locks) && Current(w, t, locks, db, numbers) && step != L.Finish(t)
    ensures Current(w, t, L.Apply(locks, step), db, numbers)
  {
    var before, after := locks.txs[t], L.Apply(locks, step).txs[t];
    if HoldsRoom(locks, t, w.op) { HoldsStays(before, after, L.RoomRow(LockedRoom(w.op).value)); }
    if HoldsSession(locks, t, w.op) { HoldsStays(before, after, L.SessionRow(LockedSession(w.op).value)); }
  }

  lemma {:induction false} CommitKeepsCurrent(s: System, t: L.TxId, view: Db, u: L.TxId)
    requires Invariant(s) && Possible(s, Commit(t, view)) && u in s.running && t != u
    ensures var s' := Next(s, Commit(t, view)); Current(s.running[u], u, s'.locks, s'.db, s.numbers)
  {
    var w, op := s.running[u], Numbered(s.running[t], view);
    assert Current(s.running[t], t, s.locks, s.db, s.numbers) && Current(w, u, s.locks, s.db, s.numbers);
    CommitIsStep(s, t, view);
    NumberedLocks(s.running[t], view);
    CommittersAreApart(s.locks, u, w, t, op);
    StepKeepsCurrent(w, u, s.locks, s.db, s.numbers, op);
    LockStepKeepsCurrent(w, u, s.locks, L.Finish(t), Step(s.db, op).db, s.numbers);
  }

  lemma {:induction false} RunGoesOn(ops: seq<Op>, sent: seq<seq<Signal>>, op: Op)
    requires AsRun(Reach(ops), ops, sent)
    ensures AsRun(Step(Reach(ops), op).db, ops + [op], sent + [Step(Reach(ops), op).signals])
  {
    var more := ops + [op];
    assert more[..|more| - 1] == ops;
    forall i | 0 <= i < |more|
      ensures (sent + [Step(Reach(ops), op).signals])[i] == Step(Reach(more[..i]), more[i]).signals
    {
      assert i < |ops| ==> more[..i] == ops[..i];
    }
  }

  lemma {:induction false} CommitKeepsInvariant(s: System, t: L.TxId, view: Db)
    requires Invariant(s) && Possible(s, Commit(t, view))
    ensures Invariant(Next(s, Commit(t, view)))
  {
    CommitIsStep(s, t, view);
    RunGoesOn(s.ops, s.sent, Numbered(s.running[t], view));
    StepKeepsInv(s.db, Numbered(s.running[t], view));
    CommitKeepsDrawn(s, t, view);
    L.ApplyKeepsInv(s.locks, L.Finish(t));
    forall u | u in s.running && u != t
      ensures var s' := Next(s, Commit(t, view)); Current(s.running[u], u, s'.locks, s'.db, s.numbers)
    {
      CommitKeepsCurrent(s, t, view, u);
    }
  }

  lemma {:induction false} LockMoveKeepsCurrent(running: map<L.TxId, Work>, locks: L.State, step: L.Step, db: Db,
                                                numbers: nat)
    requires L.Inv(locks) && AllCurrent(running, locks, db, numbers) && (step.Finish? ==> step.t !in running)
    ensures AllCurrent(running, L.Apply(locks, step), db, numbers)
  {
    forall u | u in running ensures Current(running[u], u, L.Apply(locks, step), db, numbers) {
      LockStepKeepsCurrent(running[u], u, locks, step, db, numbers);
    }
  }

  lemma {:induction false} LockMoveKeepsInvariant(s: System, step: L.Step)
    requires Invariant(s) && (step.Finish? ==> step.t !in s.running)
    ensures Invariant(s.(locks := L.Apply(s.locks, step)))
  {
    L.ApplyKeepsInv(s.locks, step);
    LockMoveKeepsCurrent(s.running, s.locks, step, s.db, s.numbers);
  }

  /** One transaction goes on, and numbers may be drawn. */
  lemma {:induction false} OneGoesOn(running: map<L.TxId, Work>, locks: L.State, db: Db, numbers: nat, t: L.TxId,
                                     w: Work, more: nat)
    requires AllCurrent(running, locks, db, numbers) && numbers <= more && Current(w, t, locks, db, more)
    ensures AllCurrent(running[t := w], locks, db, more)
  {
    var running' := running[t := w];
    forall u | u in running' ensures Current(running'[u], u, locks, db, more) {
      if u != t { assert Current(running[u], u, locks, db, numbers); }
    }
  }

  lemma {:induction false} GoingOnKeepsInvariant(s: System, t: L.TxId, w: Work, more: nat)
    requires Invariant(s) && s.numbers <= more && Current(w, t, s.locks, s.db, more)
    ensures Invariant(s.(running := s.running[t := w], numbers := more))
  {
    OneGoesOn(s.running, s.locks, s.db, s.numbers, t, w, more);
  }

  lemma {:induction false} AgreeWithItself(db: Db, op: Op)
    ensures LockedRoom(op).Some? ==> Agree(db, db, LockedRoom(op).value)
  {
  }

  lemma {:induction false} LookStaysCurrent(w: Work, t: L.TxId, locks: L.State, db: Db, numbers: nat)
    requires Current(w, t, locks, db, numbers)
    ensures HoldsRoom(locks, t, w.op) ==> Current(w.(roomSeen := Some(db)), t, locks, db, numbers)
    ensures HoldsSession(locks, t, w.op) ==> Current(w.(sessionSeen := Some(db)), t, locks, db, numbers)
  {
    AgreeWithItself(db, w.op);
  }

  lemma {:induction false} SeeRoomKeepsInvariant(s: System, t: L.TxId)
    requires Invariant(s) && Possible(s, SeeRoom(t))
    ensures Invariant(Next(s, SeeRoom(t)))
  {
    LookStaysCurrent(s.running[t], t, s.locks, s.db, s.numbers);
    GoingOnKeepsInvariant(s, t, s.running[t].(roomSeen := Some(s.db)), s.numbers);
  }

  lemma {:induction false} SeeSessionKeepsInvariant(s: System, t: L.TxId)
    requires Invariant(s) && Possible(s, SeeSession(t))
    ensures Invariant(Next(s, SeeSession(t)))
  {
    LookStaysCurrent(s.running[t], t, s.locks, s.db, s.numbers);
    GoingOnKeepsInvariant(s, t, s.running[t].(sessionSeen := Some(s.db)), s.numbers);
  }

  lemma {:induction false} NewNumberIsCurrent(w: Work, t: L.TxId, locks: L.State, db: Db, numbers: nat)
    requires Current(w, t, locks, db, numbers) && HoldsRoom(locks, t, w.op) && AllDrawn(db, numbers)
    ensures Current(w.(drawn := Some(numbers + 1)), t, locks, db, numbers + 1)
  {
  }

  lemma {:induction false} DrawKeepsInvariant(s: System, t: L.TxId)
    requires Invariant(s) && Possible(s, Draw(t))
    ensures Invariant(Next(s, Draw(t)))
  {
    NewNumberIsCurrent(s.running[t], t, s.locks, s.db, s.numbers);
    GoingOnKeepsInvariant(s, t, s.running[t].(drawn := Some(s.numbers + 1)), s.numbers + 1);
  }

  lemma {:induction false} StartKeepsInvariant(s: System, t: L.TxId, kind: L.Kind, op: Op)
    requires Invariant(s) && Possible(s, Start(t, kind, op))
    ensures Invariant(Next(s, Start(t, kind, op)))
  {
    LockMoveKeepsInvariant(s, L.Begin(t, kind));
    GoingOnKeepsInvariant(s.(locks := L.Apply(s.locks, L.Begin(t, kind))), t, Work(op, None, None, None), s.numbers);
  }

  lemma {:induction false} AbortKeepsInvariant(s: System, t: L.TxId)
    requires Invariant(s) && Possible(s, Abort(t))
    ensures Invariant(Next(s, Abort(t)))
  {
    LockMoveKeepsInvariant(s.(running := s.running - {t}), L.Finish(t));
  }

  lemma {:induction false} NextKeepsInvariant(s: System, m: Move)
    requires Invariant(s) && Possible(s, m)
    ensures Invariant(Next(s, m))
  {
    match m
    case Start(t, kind, op) => StartKeepsInvariant(s, t, kind, op);
    case Ask(t) => LockMoveKeepsInvariant(s, L.Request(t));
    case Obtain(t) => LockMoveKeepsInvariant(s, L.Grant(t));
    case SeeRoom(t) => SeeRoomKeepsInvariant(s, t);
    case SeeSession(t) => SeeSessionKeepsInvariant(s, t);
    case Draw(t) => DrawKeepsInvariant(s, t);
    case Commit(t, view) => CommitKeepsInvariant(s, t, view);
    case Abort(t) => AbortKeepsInvariant(s, t);
  }

  lemma {:induction false} AfterMovesInvariant(moves: seq<Move>)
    ensures Invariant(AfterMoves(moves))
  {
    if moves == [] {
      EmptyDbInv();
    } else {
      AfterMovesInvariant(moves[..|moves| - 1]);
      var before, m := AfterMoves(moves[..|moves| - 1]), moves[|moves| - 1];
      if Possible(before, m) { NextKeepsInvariant(before, m); }
    }
  }

  /** However use cases interleave, the committed tables are those of running the committed
      ones one after the other in commit order, and so is everything that is sent. */
  lemma {:induction false} UseCasesAreSerial(moves: seq<Move>)
    ensures var s := AfterMoves(moves);
            && s.db == Reach(s.ops) && |s.sent| == |s.ops|
            && (forall i :: 0 <= i < |s.ops| ==> s.sent[i] == Step(Reach(s.ops[..i]), s.ops[i]).signals)
  {
    AfterMovesInvariant(moves);
  }

  /** At every moment what a running transaction has seen of its room and of its session is
      what is committed now. */
  lemma {:induction false} NothingSeenIsStale(moves: seq<Move>, t: L.TxId)
    requires t in AfterMoves(moves).running
    ensures var s := AfterMoves(moves);
            var w := s.running[t];
            && (w.roomSeen.Some? ==>
                  LockedRoom(w.op).Some? && Agree(w.roomSeen.value, s.db, LockedRoom(w.op).value))
            && (w.sessionSeen.Some? ==>
                  LockedSession(w.op).Some? && AgreeOn(w.sessionSeen.value, s.db, LockedSession(w.op).value))
  {
    AfterMovesInvariant(moves);
    var s := AfterMoves(moves);
    assert Current(s.running[t], t, s.locks, s.db, s.numbers);
  }

  lemma {:induction false} AddedTrack(db: Db, op: Op)
    requires Inv(db) && op.OpPropose? && AddsTrack(db, op)
    ensures op.room in db.rooms && op.room in Step(db, op).db.rooms && db.nextTrack in Step(db, op).db.tracks
    ensures Step(db, op).db.tracks[db.nextTrack].room == op.room
    ensures Step(db, op).db.tracks[db.nextTrack].fifo == Step(db, op).db.rooms[op.room].lastFifo
    ensures forall t :: InRoom(db.tracks, op.room, t) ==> db.tracks[t].fifo <= db.rooms[op.room].lastFifo
  {
    StepIsUseCase(db, op);
    ProposeCases(db, op.room, op.caller, op.catalog, op.firstLook, op.gap);
  }

  /** Although one sequence serves all rooms, and numbers that were drawn may be lost or be
      committed in another order: a proposal that adds a track gives it the number it drew,
      and in its room that is above the numbers of all tracks accepted before. */
  lemma {:induction false} DrawnNumberIsLast(moves: seq<Move>, t: L.TxId, view: Db, other: TrackId)
    requires Possible(AfterMoves(moves), Commit(t, view))
    requires var w := AfterMoves(moves).running[t]; w.op.OpPropose? && AddsTrack(view, Numbered(w, view))
    ensures var s := AfterMoves(moves);
            var w := s.running[t];
            var after := Next(s, Commit(t, view)).db;
            && w.drawn.Some? && s.db.nextTrack in after.tracks
            && after.tracks[s.db.nextTrack].room == w.op.room && after.tracks[s.db.nextTrack].fifo == w.drawn.value
            && (InRoom(s.db.tracks, w.op.room, other) ==> s.db.tracks[other].fifo < w.drawn.value)
  {
    AfterMovesInvariant(moves);
    var s := AfterMoves(moves);
    var w := s.running[t];
    var op := Numbered(w, view);
    assert Current(w, t, s.locks, s.db, s.numbers);
    CommitIsStep(s, t, view);
    SameNumbered(w, view, s.db);
    AddedTrack(s.db, op);
    NumberTaken(w, t, s.locks, s.db, s.numbers, op, op.room);
  }

  /** Every transaction plans to lock exclusively all that its use case looks at. */
  lemma {:induction false} PlanCovers(kind: L.Kind, op: Op)
    requires Serves(kind, op)
    ensures LockedRoom(op).Some? ==> L.Lock(L.RoomRow(LockedRoom(op).value), L.Exclusive) in L.Plan(kind)
    ensures LockedSession(op).Some? ==> L.Lock(L.SessionRow(LockedSession(op).value), L.Exclusive) in L.Plan(kind)
    ensures op.OpVote? ==> exists home :: L.Lock(L.TrackRow(home, op.track), L.Exclusive) in L.Plan(kind)
    ensures op.OpDelete? || op.OpEnd? ==> L.Lock(L.TrackRow(op.room, op.track), L.Exclusive) in L.Plan(kind)
  {
  }

  lemma {:induction false} SeenTheOtherWay(w: Work, db: Db)
    requires LockedRoom(w.op).Some? ==> w.roomSeen.Some? && Agree(w.roomSeen.value, db, LockedRoom(w.op).value)
    requires LockedSession(w.op).Some? ==>
               w.sessionSeen.Some? && AgreeOn(w.sessionSeen.value, db, LockedSession(w.op).value)
    ensures AsSeen(w, db)
  {
    if LockedRoom(w.op).Some? { AgreeBothWays(w.roomSeen.value, db, LockedRoom(w.op).value); }
  }

  lemma {:induction false} AgreeBothWays(a: Db, b: Db, room: RoomId)
    requires Agree(a, b, room)
    ensures Agree(b, a, room)
  {
    forall t ensures TrackIn(b.tracks, room, t) == TrackIn(a.tracks, room, t) {
      assert TrackIn(a.tracks, room, t) == TrackIn(b.tracks, room, t);
    }
    forall x ensures NicknameIn(b.sessions, room, x) == NicknameIn(a.sessions, room, x) {
      assert NicknameIn(a.sessions, room, x) == NicknameIn(b.sessions, room, x);
    }
  }

  lemma {:induction false} OnlyProposalsAdd(db: Db, w: Work)
    requires Ready(db) && !w.op.OpPropose?
    ensures !AddsTrack(db, Numbered(w, db))
  {
    StepIsUseCase(db, w.op);
  }

  lemma {:induction false} SeenAndDrawnCommits(s: System, t: L.TxId)
    requires t in s.running && t in s.locks.txs && Inv(s.db) && AsSeen(s.running[t], s.db)
    requires s.running[t].op.OpPropose? ==> s.running[t].drawn.Some?
    ensures Possible(s, Commit(t, s.db))
  {
    if !s.running[t].op.OpPropose? { OnlyProposalsAdd(s.db, s.running[t]); }
  }

  /** A transaction that has looked at what it locked, and has drawn a number if it adds a
      track, can commit: the tables as committed now look to it as it saw them. */
  lemma {:induction false} CanCommit(moves: seq<Move>, t: L.TxId)
    requires var s := AfterMoves(moves);
             && t in s.running
             && var w := s.running[t];
                && (LockedRoom(w.op).Some? ==> w.roomSeen.Some?)
                && (LockedSession(w.op).Some? ==> w.sessionSeen.Some?)
                && (w.op.OpPropose? ==> w.drawn.Some?)
    ensures Possible(AfterMoves(moves), Commit(t, AfterMoves(moves).db))
  {
    AfterMovesInvariant(moves);
    var s := AfterMoves(moves);
    var w := s.running[t];
    assert Current(w, t, s.locks, s.db, s.numbers);
    SeenTheOtherWay(w, s.db);
    SeenAndDrawnCommits(s, t);
  }
}
