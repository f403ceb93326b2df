/**
 Why a use case counts as one step on the committed tables. Transactions interleave
 statement by statement. Every statement sees what is committed at that moment plus the
 transaction's own writes, and touches only data guarded by a row the transaction has
 locked, exclusively if it writes. Locks are kept until the transaction ends. Then the
 committed data, and every answer, are those of running the committed transactions one
 after the other in the order of their commits.
 */
module Isolation {
  import opened Common
  import opened LockProtocol

  /** What one statement does with the data guarded by a row: it may use what the
      transaction has learnt so far and learns more; without `writes` the data stay. */
  datatype Access<!L, !V> = Access(row: Resource, writes: bool, act: (L, Option<V>) -> (L, Option<V>))

  /** What a transaction has learnt, and the data it has written so far. */
  datatype Progress<L, V> = Progress(local: L, written: map<Resource, Option<V>>)

  function Get<V>(data: map<Resource, V>, written: map<Resource, Option<V>>, row: Resource): Option<V> {
    if row in written then written[row] else if row in data then Some(data[row]) else None
  }

  function Perform<L, V>(a: Access<L, V>, p: Progress<L, V>, data: map<Resource, V>): Progress<L, V> {
    var (local, value) := a.act(p.local, Get(data, p.written, a.row));
    Progress(local, if a.writes then p.written[a.row := value] else p.written)
  }

  /** Statements run one after the other with nothing in between. */
  function Exec<L, V>(program: seq<Access<L, V>>, start: L, data: map<Resource, V>): Progress<L, V> {
    if program == [] then Progress(start, map[])
    else Perform(program[|program| - 1], Exec(program[..|program| - 1], start, data), data)
  }

  function Patch<V>(data: map<Resource, V>, written: map<Resource, Option<V>>): map<Resource, V> {
    map row | row in data.Keys + written.Keys && Get(data, written, row).Some? :: Get(data, written, row).value
  }

  // ---------- interleaved transactions ----------

  datatype Running<!L, !V> = Running(program: seq<Access<L, V>>, start: L, done: nat, progress: Progress<L, V>)

  /** A committed transaction: the statements it ran and its answer. */
  datatype Committed<!L, !V> = Committed(program: seq<Access<L, V>>, start: L, answer: L)

  datatype System<!L, !V> = System(
    locks: State,
    data: map<Resource, V>,
    running: map<TxId, Running<L, V>>,
    history: seq<Committed<L, V>>)

  datatype Move<!L, !V> =
    | Start(t: TxId, kind: Kind, program: seq<Access<L, V>>, start: L)
    | Ask(t: TxId)
    | Obtain(t: TxId)
    | Statement(t: TxId)
    | Commit(t: TxId)
    | Abort(t: TxId)                 // refused, failed or cancelled

  /** The transaction holds the row's lock in a mode that allows the access. */
  ghost predicate Allowed<L, V>(x: Tx, a: Access<L, V>) {
    Holds(x, a.row, Exclusive) || (!a.writes && Holds(x, a.row, Shared))
  }

  ghost predicate Possible<L, V>(s: System<L, V>, m: Move<L, V>) {
    match m
    case Start(t, kind, _, _) => Enabled(s.locks, Begin(t, kind)) && t !in s.running
    case Ask(t) => Enabled(s.locks, Request(t))
    case Obtain(t) => Enabled(s.locks, Grant(t))
    case Statement(t) =>
      && t in s.running && t in s.locks.txs && s.locks.txs[t].ticket.None?
      && s.running[t].done < |s.running[t].program|
      && Allowed(s.locks.txs[t], s.running[t].program[s.running[t].done])
    case Commit(t) =>
      && t in s.running && t in s.locks.txs && s.locks.txs[t].ticket.None?
      && s.running[t].done <= |s.running[t].program|
    case Abort(t) => t in s.running && t in s.locks.txs
  }

  ghost function Next<L, V>(s: System<L, V>, m: Move<L, V>): System<L, V> {
    if !Possible(s, m) then s
    else
      match m
      case Start(t, kind, program, start) =>
        s.(locks := Apply(s.locks, Begin(t, kind)),
           running := s.running[t := Running(program, start, 0, Progress(start, map[]))])
      case Ask(t) => s.(locks := Apply(s.locks, Request(t)))
      case Obtain(t) => s.(locks := Apply(s.locks, Grant(t)))
      case Statement(t) =>
        var r := s.running[t];
        s.(running := s.running[t := r.(done := r.done + 1,
                                        progress := Perform(r.program[r.done], r.progress, s.data))])
      case Commit(t) =>
        var r := s.running[t];
        System(Apply(s.locks, Finish(t)), Patch(s.data, r.progress.written), s.running - {t},
               s.history + [Committed(r.program[..r.done], r.start, r.progress.local)])
      case Abort(t) => s.(locks := Apply(s.locks, Finish(t)), running := s.running - {t})
  }

  /** The system after any sequence of moves; a move that is not possible does nothing. */
  ghost function AfterMoves<L, V>(moves: seq<Move<L, V>>): System<L, V> {
    if moves == [] then System(State(map[], 0), map[], map[], [])
    else Next(AfterMoves(moves[..|moves| - 1]), moves[|moves| - 1])
  }

  /** The committed transactions run one after the other. */
  function Serial<L, V>(history: seq<Committed<L, V>>): map<Resource, V> {
    if history == [] then map[]
    else
      var before := Serial(history[..|history| - 1]);
      var c := history[|history| - 1];
      Patch(before, Exec(c.program, c.start, before).written)
  }

  /** Every answer is the one the transaction gets when run in its turn. */
  ghost predicate SerialAnswers<L, V>(history: seq<Committed<L, V>>) {
    forall i :: 0 <= i < |history| ==>
      history[i].answer == Exec(history[i].program, history[i].start, Serial(history[..i])).local
  }

  // ---------- invariants ----------

  /** A running transaction has got as far as it would have got on the data as committed
      now, and it holds the locks for everything it has touched. */
  ghost predicate Current<L, V>(s: System<L, V>, t: TxId)
    requires t in s.running
  {
    var r := s.running[t];
    && t in s.locks.txs && r.done <= |r.program|
    && r.progress == Exec(r.program[..r.done], r.start, s.data)
    && (forall i :: 0 <= i < r.done ==> Allowed(s.locks.txs[t], r.program[i]))
  }

  ghost predicate Invariant<L, V>(s: System<L, V>) {
    && Inv(s.locks)
    && (forall t :: t in s.running ==> Current(s, t))
    && s.data == Serial(s.history)
    && SerialAnswers(s.history)
  }

  /** What is written is among what was touched by writing. */
  lemma {:induction false} WrittenRows<L, V>(program: seq<Access<L, V>>, start: L, data: map<Resource, V>,
                                             row: Resource)
    requires row in Exec(program, start, data).written
    ensures exists i :: 0 <= i < |program| && program[i].row == row && program[i].writes
  {
    var n := |program| - 1;
    if program[n].writes && program[n].row == row {
    } else {
      WrittenRows(program[..n], start, data, row);
      var i :| 0 <= i < n && program[..n][i].row == row && program[..n][i].writes;
      assert program[i].row == row && program[i].writes;
    }
  }

  /** Data that agree on what is touched give the same progress. */
  lemma {:induction false} ExecFrame<L, V>(program: seq<Access<L, V>>, start: L, data: map<Resource, V>,
                                           other: map<Resource, V>)
    requires forall i :: 0 <= i < |program| ==> Get(data, map[], program[i].row) == Get(other, map[], program[i].row)
    ensures Exec(program, start, data) == Exec(program, start, other)
  {
    if program != [] {
      var n := |program| - 1;
      assert forall i :: 0 <= i < n ==> program[..n][i] == program[i];
      ExecFrame(program[..n], start, data, other);
      assert Get(data, map[], program[n].row) == Get(other, map[], program[n].row);
    }
  }

  /** Rows that one transaction may touch and another has written are different. */
  lemma WritersKeepOut<L, V>(s: System<L, V>, t: TxId, u: TxId, i: nat)
    requires Inv(s.locks) && t in s.running && u in s.running && t != u && Current(s, t) && Current(s, u)
    requires i < s.running[t].done
    ensures s.running[t].program[i].row !in s.running[u].progress.written
  {
    var r := s.running[u];
    var a := s.running[t].program[i];
    if a.row in r.progress.written {
      WrittenRows(r.program[..r.done], r.start, s.data, a.row);
      var j :| 0 <= j < r.done && r.program[..r.done][j].row == a.row && r.program[..r.done][j].writes;
      assert r.program[j].row == a.row && Allowed(s.locks.txs[u], r.program[j]);
      assert Allowed(s.locks.txs[t], a);
      assert Conflict(Exclusive, Exclusive) && Conflict(Shared, Exclusive);
      assert false;
    }
  }

  lemma CommitKeepsCurrent<L, V>(s: System<L, V>, u: TxId, t: TxId)
    requires Invariant(s) && Possible(s, Commit(u)) && t in s.running && t != u
    ensures Current(Next(s, Commit(u)), t)
  {
    var s' := Next(s, Commit(u));
    var r := s.running[t];
    forall i | 0 <= i < r.done
      ensures Get(s.data, map[], r.program[..r.done][i].row) == Get(s'.data, map[], r.program[..r.done][i].row)
    {
      WritersKeepOut(s, t, u, i);
    }
    ExecFrame(r.program[..r.done], r.start, s.data, s'.data);
  }

  lemma CommitKeepsHistory<L, V>(s: System<L, V>, t: TxId)
    requires Invariant(s) && Possible(s, Commit(t))
    ensures var s' := Next(s, Commit(t)); s'.data == Serial(s'.history) && SerialAnswers(s'.history)
  {
    var s' := Next(s, Commit(t));
    var n := |s.history|;
    assert s'.history[..n] == s.history;
    forall i | 0 <= i < |s'.history|
      ensures s'.history[i].answer == Exec(s'.history[i].program, s'.history[i].start, Serial(s'.history[..i])).local
    {
      assert i < n ==> s'.history[..i] == s.history[..i];
    }
  }

  /** Locks only grow until the transaction ends. */
  lemma LocksStay<L, V>(before: Tx, after: Tx, a: Access<L, V>)
    requires after.kind == before.kind && before.taken <= after.taken <= |Plan(before.kind)| && Allowed(before, a)
    ensures Allowed(after, a)
  {
    var m := if Holds(before, a.row, Exclusive) then Exclusive else Shared;
    var i :| 0 <= i < before.taken <= |Plan(before.kind)| && Plan(before.kind)[i] == Lock(a.row, m);
    assert Plan(after.kind)[i] == Lock(a.row, m) && Holds(after, a.row, m);
  }

  /** A step on the locks that ends nobody leaves every running transaction current. */
  lemma LockStepKeepsCurrent<L, V>(s: System<L, V>, step: Step, t: TxId)
    requires Inv(s.locks) && t in s.running && Current(s, t) && !step.Finish?
    ensures Current(s.(locks := Apply(s.locks, step)), t)
  {
    var r, before, after := s.running[t], s.locks.txs[t], Apply(s.locks, step).txs[t];
    forall i | 0 <= i < r.done ensures Allowed(after, r.program[i]) {
      assert Allowed(before, r.program[i]);
      LocksStay(before, after, r.program[i]);
    }
  }

  lemma StatementKeepsCurrent<L, V>(s: System<L, V>, t: TxId)
    requires t in s.running && Current(s, t) && Possible(s, Statement(t))
    ensures Current(Next(s, Statement(t)), t)
  {
    var r := s.running[t];
    assert r.program[..r.done + 1][..r.done] == r.program[..r.done];
  }

  lemma NextKeepsCurrent<L, V>(s: System<L, V>, m: Move<L, V>, t: TxId)
    requires Invariant(s) && t in Next(s, m).running
    ensures Current(Next(s, m), t)
  {
    if Possible(s, m) {
      match m
      case Start(u, kind, program, start) => if t != u { LockStepKeepsCurrent(s, Begin(u, kind), t); }
      case Ask(u) => LockStepKeepsCurrent(s, Request(u), t);
      case Obtain(u) => LockStepKeepsCurrent(s, Grant(u), t);
      case Statement(u) => if t == u { StatementKeepsCurrent(s, t); } else { assert Current(s, t); }
      case Commit(u) => CommitKeepsCurrent(s, u, t);
      case Abort(u) => assert Current(s, t);
    }
  }

  lemma NextKeepsInvariant<L, V>(s: System<L, V>, m: Move<L, V>)
    requires Invariant(s)
    ensures Invariant(Next(s, m))
  {
    forall t | t in Next(s, m).running ensures Current(Next(s, m), t) {
      NextKeepsCurrent(s, m, t);
    }
    if Possible(s, m) {
      match m
      case Start(t, kind, _, _) => ApplyKeepsInv(s.locks, Begin(t, kind));
      case Ask(t) => ApplyKeepsInv(s.locks, Request(t));
      case Obtain(t) => ApplyKeepsInv(s.locks, Grant(t));
      case Statement(_) =>
      case Commit(t) => ApplyKeepsInv(s.locks, Finish(t)); CommitKeepsHistory(s, t);
      case Abort(t) => ApplyKeepsInv(s.locks, Finish(t));
    }
  }

  lemma {:induction false} AfterMovesInvariant<L, V>(moves: seq<Move<L, V>>)
    ensures Invariant(AfterMoves(moves))
  {
    if moves != [] {
      AfterMovesInvariant(moves[..|moves| - 1]);
      NextKeepsInvariant(AfterMoves(moves[..|moves| - 1]), moves[|moves| - 1]);
    }
  }

  /** However transactions interleave, the committed data are those of running the committed
      ones one after the other in the order of their commits, and so is every answer. */
  lemma {:induction false} CommitsAreSerial<L, V>(moves: seq<Move<L, V>>)
    ensures AfterMoves(moves).data == Serial(AfterMoves(moves).history)
    ensures SerialAnswers(AfterMoves(moves).history)
  {
    AfterMovesInvariant(moves);
  }

  /** At every moment what a running transaction has learnt is what it would learn from the
      data as committed now: nothing it has read has gone stale. */
  lemma {:induction false} NothingReadIsStale<L, V>(moves: seq<Move<L, V>>, t: TxId)
    requires t in AfterMoves(moves).running
    ensures var s := AfterMoves(moves);
            var r := s.running[t];
            r.done <= |r.program| && r.progress == Exec(r.program[..r.done], r.start, s.data)
  {
    AfterMovesInvariant(moves);
    assert Current(AfterMoves(moves), t);
  }
}
