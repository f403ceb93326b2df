/**
 The use cases. Each runs its body in one transaction, commits or rolls back, and sends
 its signals after the commit. Whatever statement a database error strikes, the commit
 included, an unsuccessful use case leaves the committed tables and the sent signals as
 they were.
 */
module UseCases {
  import opened Common
  import opened Versions
  import opened Tables
  import opened Invariants
  import opened Operations
  import opened Preservation
  import opened Repositories
  import opened Bodies

  class Services {
    /** The committed tables. */
    var db: Db
    /** The signals sent so far. */
    var sent: seq<Signal>

    ghost predicate Valid()
      reads this
    {
      Inv(db)
    }

    constructor ()
      ensures Valid() && db == EmptyDb && sent == []
    {
      db, sent := EmptyDb, [];
      new;
      EmptyDbInv();
    }

    /** The use case did what its specification says. */
    ghost predicate Did<T>(spec: Out<T>, result: Result<T, Refusal>, sentBefore: seq<Signal>)
      reads this
    {
      result == spec.result && db == spec.db && sent == sentBefore + spec.signals
    }

    /** A database error stopped the use case and left no trace. */
    ghost predicate Stopped<T>(result: Result<T, Refusal>, fault: Option<nat>, before: Db, sentBefore: seq<Signal>)
      reads this
    {
      fault.Some? && result == Fail(DatabaseFault) && db == before && sent == sentBefore
    }

    /** Ends a transaction: a successful body is committed and its signals are sent, any
        other is rolled back. */
    method Finish<T>(tx: Transaction, answer: Result<T, Refusal>, signals: seq<Signal>, ghost fault: Option<nat>,
                     ghost spec: Out<T>)
      returns (result: Result<T, Refusal>)
      requires tx.faultAfter.Some? ==> fault.Some?
      requires Answers(spec, answer, signals, tx.View()) || Failed(answer, fault)
      requires spec.result.Fail? ==> spec.db == db && spec.signals == []
      modifies this`db, this`sent, tx`faultAfter
      ensures Did(spec, result, old(sent)) || Stopped(result, fault, old(db), old(sent))
    {
      result := answer;
      if answer.Ok? {
        var committed := tx.Statement();
        if committed {
          db := Db(tx.rooms, tx.sessions, tx.tracks, tx.votes, tx.queue, tx.log, tx.nextTrack, tx.nextSession);
          sent := sent + signals;
        } else {
          result := Fail(DatabaseFault);
        }
      }
    }

    method JoinRoom(firstLook: Option<RoomId>, secondLook: Option<RoomId>, known: Option<SessionId>, nickname: string,
                    fault: Option<nat>)
      returns (result: Result<SessionId, Refusal>)
      modifies this`db, this`sent
      ensures Did(Join(old(db), firstLook, secondLook, known, nickname), result, old(sent))
              || Stopped(result, fault, old(db), old(sent))
    {
      ghost var refused := Join(db, firstLook, secondLook, known, nickname).result.Fail?;
      if refused { JoinRefusal(db, firstLook, secondLook, known, nickname); }
      if !ValidNickname(nickname) { return Fail(ValidationFailed); }
      var tx := new Transaction(db, fault);
      var answer, signals := JoinBody(tx, firstLook, secondLook, known, nickname);
      result := Finish(tx, answer, signals, fault, Join(old(db), firstLook, secondLook, known, nickname));
    }

    /** A single statement, committed on its own. */
    method LeaveRoom(session: SessionId, room: RoomId, fault: Option<nat>) returns (result: Result<(), Refusal>)
      modifies this`db, this`sent
      ensures Did(Leave(old(db), session, room), result, old(sent)) || Stopped(result, fault, old(db), old(sent))
    {
      var tx := new Transaction(db, fault);
      var answer, signals := LeaveBody(tx, session, room);
      result := Finish(tx, answer, signals, fault, Leave(old(db), session, room));
    }

    method Propose(room: RoomId, caller: Caller, catalog: CatalogId, firstLook: Option<RoomStatus>, gap: nat,
                   fault: Option<nat>)
      returns (result: Result<Proposal, Refusal>)
      requires db.queue.Keys == db.rooms.Keys && ActiveUnique(db.tracks)
      modifies this`db, this`sent
      ensures Did(ProposeTrack(old(db), room, caller, catalog, firstLook, gap), result, old(sent))
              || Stopped(result, fault, old(db), old(sent))
    {
      ghost var refused := ProposeTrack(db, room, caller, catalog, firstLook, gap).result.Fail?;
      if refused { ProposeRefusal(db, room, caller, catalog, firstLook, gap); }
      if caller.room != room || !caller.active { return Fail(SessionNotInRoom); }
      var tx := new Transaction(db, fault);
      var answer, signals := ProposeBody(tx, room, caller, catalog, firstLook, gap);
      result := Finish(tx, answer, signals, fault, ProposeTrack(old(db), room, caller, catalog, firstLook, gap));
    }

    method Vote(room: RoomId, session: SessionId, t: TrackId, fault: Option<nat>)
      returns (result: Result<VoteReceipt, Refusal>)
      modifies this`db, this`sent
      ensures Did(AddVote(old(db), room, session, t), result, old(sent)) || Stopped(result, fault, old(db), old(sent))
    {
      var tx := new Transaction(db, fault);
      var answer, signals := VoteBody(tx, room, session, t);
      result := Finish(tx, answer, signals, fault, AddVote(old(db), room, session, t));
    }

    method Delete(room: RoomId, t: TrackId, fault: Option<nat>) returns (result: Result<(), Refusal>)
      requires db.queue.Keys == db.rooms.Keys
      modifies this`db, this`sent
      ensures Did(DeleteTrack(old(db), room, t), result, old(sent)) || Stopped(result, fault, old(db), old(sent))
    {
      var tx := new Transaction(db, fault);
      var answer, signals := DeleteBody(tx, room, t);
      result := Finish(tx, answer, signals, fault, DeleteTrack(old(db), room, t));
    }

    method End(room: RoomId, t: TrackId, skipped: bool, fault: Option<nat>) returns (result: Result<(), Refusal>)
      modifies this`db, this`sent
      ensures Did(SetTrackStatus(old(db), room, t, EndStatus(skipped)), result, old(sent))
              || Stopped(result, fault, old(db), old(sent))
    {
      var tx := new Transaction(db, fault);
      var answer, signals := EndBody(tx, room, t, skipped);
      result := Finish(tx, answer, signals, fault, SetTrackStatus(old(db), room, t, EndStatus(skipped)));
    }

    method Play(room: RoomId, t: TrackId, fault: Option<nat>) returns (result: Result<(), Refusal>)
      modifies this`db, this`sent
      ensures Did(SetTrackPlaying(old(db), room, t), result, old(sent)) || Stopped(result, fault, old(db), old(sent))
    {
      var tx := new Transaction(db, fault);
      var answer, signals := PlayBody(tx, room, t);
      result := Finish(tx, answer, signals, fault, SetTrackPlaying(old(db), room, t));
    }

    method Recalculate(room: RoomId, now: Nanos, createdAt: Micros, logId: nat, fault: Option<nat>)
      returns (result: Result<bool, Refusal>)
      requires Ready(db) && OnePlaying(db.tracks)
      modifies this`db, this`sent
      ensures Did(RecalculateRoomQueue(old(db), room, now, createdAt, logId), result, old(sent))
              || Stopped(result, fault, old(db), old(sent))
    {
      ghost var refused := RecalculateRoomQueue(db, room, now, createdAt, logId).result.Fail?;
      if refused { RecalculateRefusal(db, room, now, createdAt, logId); }
      var tx := new Transaction(db, fault);
      var answer, signals := RecalculateBody(tx, room, now, createdAt, logId);
      result := Finish(tx, answer, signals, fault, RecalculateRoomQueue(old(db), room, now, createdAt, logId));
    }

    method GetQueue(room: RoomId, fault: Option<nat>) returns (result: Result<Snapshot, Refusal>)
      requires Ready(db) && OnePlaying(db.tracks)
      ensures room in db.rooms ==> result == Ok(SnapshotOf(db, room)) || Failed(result, fault)
      ensures room !in db.rooms ==> result == Fail(RoomNotFound) || Failed(result, fault)
    {
      var tx := new Transaction(db, fault);
      result := GetQueueBody(tx, room);
    }

    /** A validated single statement, committed on its own. */
    method Patch(room: RoomId, status: Option<RoomStatus>, queueLimit: Option<int>, maxVotes: Option<int>,
                 fault: Option<nat>)
      returns (result: Result<Room, Refusal>)
      modifies this`db, this`sent
      ensures Did(PatchRoom(old(db), room, status, queueLimit, maxVotes), result, old(sent))
              || Stopped(result, fault, old(db), old(sent))
    {
      var tx := new Transaction(db, fault);
      var answer, signals := PatchBody(tx, room, status, queueLimit, maxVotes);
      result := Finish(tx, answer, signals, fault, PatchRoom(old(db), room, status, queueLimit, maxVotes));
    }

    method NewRoom(id: RoomId, name: string, settings: Settings, fault: Option<nat>)
      returns (result: Result<RoomId, Refusal>)
      modifies this`db, this`sent
      ensures Did(CreateRoom(old(db), id, name, settings), result, old(sent))
              || Stopped(result, fault, old(db), old(sent))
    {
      var tx := new Transaction(db, fault);
      var answer, signals := NewRoomBody(tx, id, name, settings);
      result := Finish(tx, answer, signals, fault, CreateRoom(old(db), id, name, settings));
    }

    // ---------- any request ----------

    /** The tables and signals are those of the step, or a fault kept the old ones. */
    ghost predicate Stepped(spec: Outcome, fault: Option<nat>, before: Db, sentBefore: seq<Signal>)
      reads this
    {
      || (db == spec.db && sent == sentBefore + spec.signals)
      || (fault.Some? && db == before && sent == sentBefore)
    }

    method Dispatch(op: Op, fault: Option<nat>)
      requires Ready(db) && OnePlaying(db.tracks) && ActiveUnique(db.tracks)
      modifies this`db, this`sent
      ensures Stepped(Step(old(db), op), fault, old(db), old(sent))
    {
      match op
      case OpCreateRoom(id, name, settings) => var _ := NewRoom(id, name, settings, fault);
      case OpPatchRoom(room, status, limit, votes) => var _ := Patch(room, status, limit, votes, fault);
      case OpJoin(first, second, known, nickname) => var _ := JoinRoom(first, second, known, nickname, fault);
      case OpLeave(session, room) => var _ := LeaveRoom(session, room, fault);
      case OpPropose(room, caller, catalog, firstLook, gap) =>
        var _ := Propose(room, caller, catalog, firstLook, gap, fault);
      case OpVote(room, session, t) => var _ := Vote(room, session, t, fault);
      case OpDelete(room, t) => var _ := Delete(room, t, fault);
      case OpEnd(room, t, skipped) => var _ := End(room, t, skipped, fault);
      case OpPlay(room, t) => var _ := Play(room, t, fault);
      case OpRecalculate(room, now, createdAt, id) => var _ := Recalculate(room, now, createdAt, id, fault);
      case OpFault =>
    }

    /** Serves one request: one step of a run, or a fault that changed nothing. */
    method Serve(op: Op, fault: Option<nat>)
      requires Valid()
      modifies this
      ensures Valid() && Stepped(Step(old(db), op), fault, old(db), old(sent))
    {
      StepKeepsInv(db, op);
      Dispatch(op, fault);
    }
  }
}
