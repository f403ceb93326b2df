/**
 What a connected client ends up showing. It asks for the queue after its socket has been
 activated and then keeps whatever snapshot carries the largest version. Snapshots are
 broadcast after the room lock is released, so in any order.
 */
module Clients {
  import opened Common
  import opened Versions
  import opened Tables
  import opened Operations
  import opened Preservation
  import opened QueueTheorems

  /** What reading the queue after a run gives a client: nothing to compare yet, or a
      snapshot with its version. */
  ghost function ReadAfter(ops: seq<Op>, room: RoomId): seq<Versioned<PublicSnapshot>> {
    if room in Reach(ops).rooms && SnapshotOf(Reach(ops), room).updatedAt.Some?
    then [Versioned(SnapshotOf(Reach(ops), room).updatedAt.value, Public(SnapshotOf(Reach(ops), room)))]
    else []
  }

  /** What was committed by a point of the run is the beginning of what is committed in all. */
  lemma {:induction false} MessagesGrow(ops: seq<Op>, k: nat)
    requires k <= |ops|
    ensures forall room :: Messages(ops[..k], room) <= Messages(ops, room)
    decreases |ops|
  {
    if k == |ops| {
      assert ops[..k] == ops;
    } else {
      var front := ops[..|ops| - 1];
      assert front[..k] == ops[..k];
      MessagesGrow(front, k);
    }
  }

  lemma LoggedVersionIsRead(db: Db, room: RoomId, sent: seq<Versioned<PublicSnapshot>>)
    requires room in db.queue && room in db.log && NonDecreasing(db.log[room]) && Follows(sent, db.log[room])
    ensures SnapshotOf(db, room).updatedAt == if sent == [] then None else Some(Last(sent).version)
  {
    if db.log[room] != [] { NewestVersionIsLast(db.log[room]); }
  }

  /** A read carries the version of the last snapshot committed so far. */
  lemma {:induction false} ReadCarriesLastVersion(ops: seq<Op>, room: RoomId)
    ensures (ReadAfter(ops, room) == []) <==> (Messages(ops, room) == [])
    ensures Messages(ops, room) != []
            ==> |ReadAfter(ops, room)| == 1 && ReadAfter(ops, room)[0].version == Last(Messages(ops, room)).version
  {
    if room in Reach(ops).rooms {
      MessagesFollowLog(ops, room);
      LoggedVersionIsRead(Reach(ops), room, Messages(ops, room));
    } else {
      NoRoomNoMessages(ops, room);
    }
  }

  lemma {:induction false} LargestIsLast<T>(committed: seq<Versioned<T>>, held: seq<Versioned<T>>)
    requires committed != []
    requires forall m :: m in held ==> m.version <= Last(committed).version
    requires exists m :: m in held && m.version == Last(committed).version
    ensures Kept(held).Some? && Kept(held).value in held && Kept(held).value.version == Last(committed).version
  {
    KeptIsLargest(held);
  }

  /** A client whose socket was activated when `a` of the room's snapshots had been
      broadcast reads the queue after `k` steps of the run, later than the commit of each
      of those, and then receives the rest. However the broadcasts are ordered and whatever
      the clock read, once all are out it holds the last committed version; and if anything
      was committed after its read and the last rewrite did not lose its reading, exactly
      the last committed snapshot. */
  lemma {:induction false} ConnectedClientConverges(ops: seq<Op>, room: RoomId, k: nat,
                                                    sent: seq<Versioned<PublicSnapshot>>, a: nat)
    requires k <= |ops| && a <= |sent| && Messages(ops, room) != []
    requires forall m :: m in sent <==> m in Messages(ops, room)
    requires forall m :: m in sent[..a] ==> m in Messages(ops[..k], room)
    ensures var held := ReadAfter(ops[..k], room) + sent[a..];
            && Kept(held).Some?
            && Kept(held).value.version == Last(Messages(ops, room)).version
            && (Messages(ops[..k], room) != Messages(ops, room) && LastReadingGood(ops, room)
                ==> Kept(held).value == Last(Messages(ops, room)))
  {
    var committed, early := Messages(ops, room), Messages(ops[..k], room);
    var read := ReadAfter(ops[..k], room);
    var held := read + sent[a..];
    if room !in Reach(ops).rooms { NoRoomNoMessages(ops, room); }
    MessagesFollowLog(ops, room);
    MessagesGrow(ops, k);
    ReadCarriesLastVersion(ops[..k], room);
    LateOrRead(committed, early, read, sent, a);
    LargestIsLast(committed, held);
    if early != committed && LastReadingGood(ops, room) {
      LastMessageStandsOutIff(ops, room);
      EarlierReadIsOlder(committed, early, read);
      var m := Kept(held).value;
      assert m in sent[a..] ==> m in sent;
    }
  }

  lemma LateOrRead<T>(committed: seq<Versioned<T>>, early: seq<Versioned<T>>, read: seq<Versioned<T>>,
                      sent: seq<Versioned<T>>, a: nat)
    requires a <= |sent| && committed != [] && early <= committed
    requires forall i, j :: 0 <= i < j < |committed| ==> committed[i].version <= committed[j].version
    requires early == [] ==> read == []
    requires early != [] ==> |read| == 1 && read[0].version == Last(early).version
    requires forall m :: m in sent <==> m in committed
    requires forall m :: m in sent[..a] ==> m in early
    ensures var held := read + sent[a..];
            && (forall m :: m in held ==> m.version <= Last(committed).version)
            && (exists m :: m in held && m.version == Last(committed).version)
  {
    var last := Last(committed);
    var held := read + sent[a..];
    forall m | m in committed ensures m.version <= last.version {
      var i :| 0 <= i < |committed| && committed[i] == m;
    }
    forall m | m in sent[a..] ensures m in sent {}
    assert last in sent && sent == sent[..a] + sent[a..];
    if last in sent[..a] {
      var i :| 0 <= i < |early| && early[i] == last;
      assert committed[i].version <= committed[|early| - 1].version;
      assert read[0] in held;
    } else {
      assert last in sent[a..];
      assert last in held;
    }
  }

  lemma EarlierReadIsOlder<T>(committed: seq<Versioned<T>>, early: seq<Versioned<T>>, read: seq<Versioned<T>>)
    requires committed != [] && early < committed
    requires forall i :: 0 <= i < |committed| - 1 ==> committed[i].version < Last(committed).version
    requires early != [] ==> |read| == 1 && read[0].version == Last(early).version
    requires early == [] ==> read == []
    ensures forall m :: m in read ==> m.version < Last(committed).version
  {
    if early != [] { assert Last(early) == committed[|early| - 1]; }
  }
}
