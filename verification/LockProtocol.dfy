/**
 The row locks under the use cases. Every transaction takes its locks in the order its
 use case fixes, except that tracks are locked in whatever order a map is iterated or an
 update scans, and that a vote locks the track it names before it looks at the track's
 room. Transactions interleave freely, end at any point, and wait in line behind holders
 and behind earlier requests. No reachable state is deadlocked.
 */
module LockProtocol {
  import opened Common
  import opened Tables

  type TxId = int

  /** A lockable row. A track row is named together with the room it belongs to, which is
      set when the track is inserted and never changes. */
  datatype Resource =
    | CatalogRow(catalog: CatalogId)
    | RoomRow(room: RoomId)
    | SessionRow(session: SessionId)
    | TrackRow(home: RoomId, track: TrackId)

  datatype Mode = Shared | Exclusive

  datatype Lock = Lock(row: Resource, mode: Mode)

  /** The transactions, with the rows their arguments and what they read lead them to. */
  datatype Kind =
    | Propose(catalog: Option<CatalogId>, room: RoomId, session: SessionId, created: TrackId)
    | Vote(room: RoomId, session: SessionId, target: Resource)
    | Delete(room: RoomId, track: TrackId)
    | End(room: RoomId, track: TrackId)
    | Play(room: RoomId, tracks: seq<TrackId>)
    | Recalculate(room: RoomId, tracks: seq<TrackId>)
    | Join(room: RoomId, known: Option<SessionId>, created: SessionId)
    | CreateRoom(room: RoomId)
    | Rotate(room: RoomId)
    | Patch(room: RoomId)
    | Read(room: RoomId)
    | TouchSession(session: SessionId)     // leave and heartbeat

  function Tracks(room: RoomId, ids: seq<TrackId>): seq<Lock> {
    seq(|ids|, i requires 0 <= i < |ids| => Lock(TrackRow(room, ids[i]), Exclusive))
  }

  /** The locks a transaction asks for if nothing stops it, in order. */
  function Plan(k: Kind): seq<Lock> {
    match k
    case Propose(catalog, room, session, created) =>
      (if catalog.Some? then [Lock(CatalogRow(catalog.value), Exclusive)] else [])
      + [Lock(RoomRow(room), Exclusive), Lock(SessionRow(session), Exclusive), Lock(TrackRow(room, created), Exclusive)]
    case Vote(room, session, target) =>
      [Lock(RoomRow(room), Exclusive), Lock(SessionRow(session), Exclusive), Lock(target, Exclusive)]
    case Delete(room, t) => [Lock(RoomRow(room), Exclusive), Lock(TrackRow(room, t), Exclusive)]
    case End(room, t) => [Lock(RoomRow(room), Exclusive), Lock(TrackRow(room, t), Exclusive)]
    case Play(room, ids) => [Lock(RoomRow(room), Exclusive)] + Tracks(room, ids)
    case Recalculate(room, ids) => [Lock(RoomRow(room), Exclusive)] + Tracks(room, ids)
    case Join(room, known, created) =>
      [Lock(RoomRow(room), Exclusive)]
      + (if known.Some? then [Lock(SessionRow(known.value), Exclusive)] else [])
      + [Lock(SessionRow(created), Exclusive)]
    case CreateRoom(room) => [Lock(RoomRow(room), Exclusive)]
    case Rotate(room) => [Lock(RoomRow(room), Exclusive)]
    case Patch(room) => [Lock(RoomRow(room), Exclusive)]
    case Read(room) => [Lock(RoomRow(room), Shared)]
    case TouchSession(session) => [Lock(SessionRow(session), Exclusive)]
  }

  ghost predicate Distinct(ids: seq<TrackId>) {
    forall i, j :: 0 <= i < j < |ids| ==> ids[i] != ids[j]
  }

  /** A vote may name a track of any room. A row that a transaction already holds is not
      asked for again. */
  ghost predicate WellFormed(k: Kind) {
    && (k.Vote? ==> k.target.TrackRow?)
    && (k.Play? || k.Recalculate? ==> Distinct(k.tracks))
    && (k.Join? ==> k.known != Some(k.created))
  }

  /** The row of the session a join inserts. */
  predicate Creates(k: Kind, row: Resource) {
    k.Join? && row == SessionRow(k.created)
  }

  ghost predicate Mentions(k: Kind, row: Resource) {
    exists i :: 0 <= i < |Plan(k)| && Plan(k)[i].row == row
  }

  /** Nobody can name a session before the join that inserts it has answered. */
  ghost predicate Unnamed(j: Kind, k: Kind) {
    j.Join? ==> !Mentions(k, SessionRow(j.created))
  }

  // ---------- states and steps ----------

  /** A transaction holds the first `taken` locks of its plan and, with a ticket, waits
      for the next one. */
  datatype Tx = Tx(kind: Kind, taken: nat, ticket: Option<nat>)

  datatype State = State(txs: map<TxId, Tx>, nextTicket: nat)

  datatype Step = Begin(t: TxId, kind: Kind) | Request(t: TxId) | Grant(t: TxId) | Finish(t: TxId)

  predicate Conflict(a: Mode, b: Mode) {
    a == Exclusive || b == Exclusive
  }

  ghost predicate Holds(x: Tx, row: Resource, mode: Mode) {
    exists i :: 0 <= i < x.taken <= |Plan(x.kind)| && Plan(x.kind)[i] == Lock(row, mode)
  }

  ghost predicate Waiting(x: Tx) {
    x.ticket.Some? && x.taken < |Plan(x.kind)|
  }

  ghost function Wanted(x: Tx): Lock
    requires Waiting(x)
  {
    Plan(x.kind)[x.taken]
  }

  /** `t` waits for a lock that `u` holds, or that `u` asked for first, in a conflicting mode. */
  ghost predicate WaitsFor(s: State, t: TxId, u: TxId) {
    && t in s.txs && u in s.txs && t != u
    && Waiting(s.txs[t])
    && var want := Wanted(s.txs[t]);
       || (exists m :: Holds(s.txs[u], want.row, m) && Conflict(want.mode, m))
       || (&& Waiting(s.txs[u]) && Wanted(s.txs[u]).row == want.row && Conflict(want.mode, Wanted(s.txs[u]).mode)
           && s.txs[u].ticket.value < s.txs[t].ticket.value)
  }

  ghost predicate Blocked(s: State, t: TxId) {
    exists u :: WaitsFor(s, t, u)
  }

  ghost predicate Enabled(s: State, step: Step) {
    match step
    case Begin(t, k) =>
      && t !in s.txs && WellFormed(k)
      && (forall u :: u in s.txs ==> Unnamed(k, s.txs[u].kind) && Unnamed(s.txs[u].kind, k))
    case Request(t) => t in s.txs && s.txs[t].ticket.None? && s.txs[t].taken < |Plan(s.txs[t].kind)|
    case Grant(t) => t in s.txs && Waiting(s.txs[t]) && !Blocked(s, t)
    case Finish(t) => t in s.txs           // commit, rollback or cancellation, waiting or not
  }

  ghost function Apply(s: State, step: Step): State {
    if !Enabled(s, step) then s
    else
      match step
      case Begin(t, k) => s.(txs := s.txs[t := Tx(k, 0, None)])
      case Request(t) => State(s.txs[t := s.txs[t].(ticket := Some(s.nextTicket))], s.nextTicket + 1)
      case Grant(t) => s.(txs := s.txs[t := Tx(s.txs[t].kind, s.txs[t].taken + 1, None)])
      case Finish(t) => s.(txs := s.txs - {t})
  }

  /** The state after any sequence of steps; a step that is not enabled does nothing. */
  ghost function After(steps: seq<Step>): State {
    if steps == [] then State(map[], 0)
    else Apply(After(steps[..|steps| - 1]), steps[|steps| - 1])
  }

  // ---------- invariants ----------

  ghost predicate Shaped(s: State) {
    forall t :: t in s.txs ==>
      && WellFormed(s.txs[t].kind)
      && s.txs[t].taken <= |Plan(s.txs[t].kind)|
      && (s.txs[t].ticket.Some? ==> s.txs[t].taken < |Plan(s.txs[t].kind)| && s.txs[t].ticket.value < s.nextTicket)
  }

  ghost predicate TicketsDistinct(s: State) {
    forall t, u :: t in s.txs && u in s.txs && t != u && s.txs[t].ticket.Some? && s.txs[u].ticket.Some?
      ==> s.txs[t].ticket != s.txs[u].ticket
  }

  /** Conflicting locks on a row are never held by two transactions. */
  ghost predicate Exclusion(s: State) {
    forall t, u, row, m, n :: t in s.txs && u in s.txs && t != u && Holds(s.txs[t], row, m) && Holds(s.txs[u], row, n)
      ==> !Conflict(m, n)
  }

  ghost predicate CreatedAreUnnamed(s: State) {
    forall t, u :: t in s.txs && u in s.txs && t != u ==> Unnamed(s.txs[t].kind, s.txs[u].kind)
  }

  ghost predicate Inv(s: State) {
    Shaped(s) && TicketsDistinct(s) && Exclusion(s) && CreatedAreUnnamed(s)
  }

  lemma {:induction false} GrantedHolds(before: Tx, after: Tx, row: Resource, m: Mode)
    requires Waiting(before) && after == Tx(before.kind, before.taken + 1, None)
    ensures Holds(after, row, m) <==> Holds(before, row, m) || Wanted(before) == Lock(row, m)
  {
    var plan := Plan(before.kind);
    if Wanted(before) == Lock(row, m) {
      assert plan[before.taken] == Lock(row, m);
    }
    if Holds(before, row, m) {
      var i :| 0 <= i < before.taken <= |plan| && plan[i] == Lock(row, m);
    }
    if Holds(after, row, m) {
      var i :| 0 <= i < after.taken <= |plan| && plan[i] == Lock(row, m);
      assert i == before.taken || i < before.taken;
    }
  }

  lemma {:induction false} RequestHolds(before: Tx, after: Tx, row: Resource, m: Mode)
    requires after.kind == before.kind && after.taken == before.taken
    ensures Holds(after, row, m) <==> Holds(before, row, m)
  {
  }

  lemma {:induction false} GrantKeepsExclusion(s: State, t: TxId)
    requires Inv(s) && Enabled(s, Grant(t))
    ensures Exclusion(Apply(s, Grant(t)))
  {
    var s' := Apply(s, Grant(t));
    forall a, b, row, m, n |
      a in s'.txs && b in s'.txs && a != b && Holds(s'.txs[a], row, m) && Holds(s'.txs[b], row, n)
      ensures !Conflict(m, n)
    {
      if a == t { GrantedHolds(s.txs[t], s'.txs[t], row, m); assert !WaitsFor(s, t, b); }
      if b == t { GrantedHolds(s.txs[t], s'.txs[t], row, n); assert !WaitsFor(s, t, a); }
    }
  }

  lemma {:induction false} BeginKeepsInv(s: State, t: TxId, k: Kind)
    requires Inv(s) && Enabled(s, Begin(t, k))
    ensures Inv(Apply(s, Begin(t, k)))
  {
  }

  lemma {:induction false} RequestKeepsInv(s: State, t: TxId)
    requires Inv(s) && Enabled(s, Request(t))
    ensures Inv(Apply(s, Request(t)))
  {
    var s' := Apply(s, Request(t));
    forall row, m ensures Holds(s'.txs[t], row, m) <==> Holds(s.txs[t], row, m) {
      RequestHolds(s.txs[t], s'.txs[t], row, m);
    }
  }

  lemma {:induction false} ApplyKeepsInv(s: State, step: Step)
    requires Inv(s)
    ensures Inv(Apply(s, step))
  {
    if Enabled(s, step) {
      match step
      case Begin(t, k) => BeginKeepsInv(s, t, k);
      case Request(t) => RequestKeepsInv(s, t);
      case Grant(t) => GrantKeepsExclusion(s, t);
      case Finish(t) =>
    }
  }

  lemma {:induction false} AfterInv(steps: seq<Step>)
    ensures Inv(After(steps))
  {
    if steps != [] {
      AfterInv(steps[..|steps| - 1]);
      ApplyKeepsInv(After(steps[..|steps| - 1]), steps[|steps| - 1]);
    }
  }

  /** Transactions that change a room hold its row exclusively and exclude each other and
      every reader of the room, so their effects on the room follow one after the other. */
  lemma {:induction false} RoomWritersExclude(steps: seq<Step>, t: TxId, u: TxId, room: RoomId, m: Mode)
    requires t in After(steps).txs && u in After(steps).txs
    requires Holds(After(steps).txs[t], RoomRow(room), Exclusive) && Holds(After(steps).txs[u], RoomRow(room), m)
    ensures t == u
  {
    AfterInv(steps);
    assert Conflict(Exclusive, m);
  }

  // ---------- the order within one transaction ----------

  function Level(r: Resource): nat {
    match r
    case CatalogRow(_) => 0
    case RoomRow(_) => 1
    case SessionRow(_) => 2
    case TrackRow(_, _) => 3
  }

  /** Locks are asked for at rising levels, except tracks of a room whose row the
      transaction already holds exclusively and the session a join inserts; and never twice. */
  lemma {:induction false} PlanRises(k: Kind, i: nat, j: nat)
    requires WellFormed(k) && i < j < |Plan(k)|
    ensures Plan(k)[i].row != Plan(k)[j].row
    ensures || Level(Plan(k)[i].row) < Level(Plan(k)[j].row)
            || (&& !k.Vote? && Plan(k)[i].row.TrackRow? && Plan(k)[j].row.TrackRow?
                && Plan(k)[i].row.home == Plan(k)[j].row.home)
            || (Creates(k, Plan(k)[j].row) && Level(Plan(k)[i].row) <= Level(Plan(k)[j].row))
  {
  }

  /** A transaction that has locked a track either holds the track's room exclusively or
      is a vote with nothing left to ask for. */
  lemma {:induction false} TrackHolder(k: Kind, i: nat)
    requires WellFormed(k) && i < |Plan(k)| && Plan(k)[i].row.TrackRow?
    ensures || (k.Vote? && i == |Plan(k)| - 1)
            || (exists j :: 0 <= j < i && Plan(k)[j] == Lock(RoomRow(Plan(k)[i].row.home), Exclusive))
  {
    if k.Propose? {
      var j := |Plan(k)| - 3;
      assert Plan(k)[j] == Lock(RoomRow(k.room), Exclusive);
    } else if !k.Vote? {
      assert Plan(k)[0] == Lock(RoomRow(k.room), Exclusive);
    }
  }

  /** In every reachable state only the exclusive holder of a track's room waits while it
      holds the track. */
  lemma {:induction false} OnlyRoomHolderWaitsWithTrack(steps: seq<Step>, t: TxId, row: Resource, m: Mode)
    requires t in After(steps).txs && Waiting(After(steps).txs[t])
    requires row.TrackRow? && Holds(After(steps).txs[t], row, m)
    ensures Holds(After(steps).txs[t], RoomRow(row.home), Exclusive)
  {
    AfterInv(steps);
    WaitingTrackHolder(After(steps).txs[t], row, m);
  }

  lemma {:induction false} WaitingTrackHolder(x: Tx, row: Resource, m: Mode)
    requires WellFormed(x.kind) && Waiting(x) && row.TrackRow? && Holds(x, row, m)
    ensures Holds(x, RoomRow(row.home), Exclusive)
  {
    var i :| 0 <= i < x.taken <= |Plan(x.kind)| && Plan(x.kind)[i] == Lock(row, m);
    TrackHolder(x.kind, i);
  }

  // ---------- no deadlock ----------

  /** Some transaction holds the row and waits for another one. */
  ghost predicate HeldUp(s: State, row: Resource) {
    exists u, m :: u in s.txs && Holds(s.txs[u], row, m) && Waiting(s.txs[u])
  }

  /** How near to running a transaction is: higher for later levels, among those that wait
      for tracks higher when the track's holder does not wait itself, and among those that
      wait for sessions higher for the session it inserts. */
  ghost function Height(s: State, t: TxId): nat
    requires t in s.txs
  {
    if !Waiting(s.txs[t]) then 8
    else
      var row := Wanted(s.txs[t]).row;
      2 * Level(row) + (if (row.TrackRow? && !HeldUp(s, row)) || Creates(s.txs[t].kind, row) then 1 else 0)
  }

  /** `u` is nearer to running than `t`. */
  ghost predicate Nearer(s: State, t: TxId, u: TxId)
    requires t in s.txs && u in s.txs
  {
    || Height(s, t) < Height(s, u)
    || (&& Height(s, t) == Height(s, u) && s.txs[t].ticket.Some? && s.txs[u].ticket.Some?
        && s.txs[u].ticket.value < s.txs[t].ticket.value)
  }

  lemma {:induction false} OneExclusiveHolder(s: State, t: TxId, u: TxId, row: Resource)
    requires Exclusion(s) && t in s.txs && u in s.txs
    requires Holds(s.txs[t], row, Exclusive) && Holds(s.txs[u], row, Exclusive)
    ensures t == u
  {
    assert Conflict(Exclusive, Exclusive);
  }

  /** While one transaction holds up a track of a room, no other track of the room is held
      up by anyone else: its holder would have to hold the room as well, or be a vote that
      waits for nothing. */
  lemma {:induction false} TrackOfHeldRoomIsFree(s: State, u: TxId, row: Resource, m: Mode)
    requires Inv(s) && u in s.txs && Waiting(s.txs[u]) && row.TrackRow? && Holds(s.txs[u], row, m)
    requires Wanted(s.txs[u]).row.TrackRow? && Wanted(s.txs[u]).row.home == row.home
    ensures !HeldUp(s, Wanted(s.txs[u]).row)
  {
    var want := Wanted(s.txs[u]).row;
    WaitingTrackHolder(s.txs[u], row, m);
    if w, n :| w in s.txs && Holds(s.txs[w], want, n) && Waiting(s.txs[w]) {
      WaitingTrackHolder(s.txs[w], want, n);
      if w == u {
        var i :| 0 <= i < s.txs[u].taken && Plan(s.txs[u].kind)[i] == Lock(want, n);
        PlanRises(s.txs[u].kind, i, s.txs[u].taken);
        assert false;
      } else {
        OneExclusiveHolder(s, u, w, RoomRow(row.home));
        assert false;
      }
    }
  }

  /** Nobody waits for a session that is being inserted. */
  lemma {:induction false} NobodyNamesCreated(s: State, t: TxId, u: TxId, row: Resource)
    requires Inv(s) && t in s.txs && u in s.txs && t != u
    requires Mentions(s.txs[t].kind, row) && Mentions(s.txs[u].kind, row)
    ensures !Creates(s.txs[t].kind, row) && !Creates(s.txs[u].kind, row)
  {
    assert Unnamed(s.txs[t].kind, s.txs[u].kind) && Unnamed(s.txs[u].kind, s.txs[t].kind);
  }

  lemma {:induction false} HolderIsNearer(s: State, t: TxId, u: TxId, m: Mode)
    requires Inv(s) && t in s.txs && u in s.txs && t != u
    requires Waiting(s.txs[t]) && Holds(s.txs[u], Wanted(s.txs[t]).row, m)
    ensures Height(s, t) < Height(s, u)
  {
    var row := Wanted(s.txs[t]).row;
    assert Mentions(s.txs[t].kind, row) && Mentions(s.txs[u].kind, row);
    NobodyNamesCreated(s, t, u, row);
    if Waiting(s.txs[u]) {
      var i :| 0 <= i < s.txs[u].taken && Plan(s.txs[u].kind)[i] == Lock(row, m);
      PlanRises(s.txs[u].kind, i, s.txs[u].taken);
      if row.TrackRow? && Level(row) == Level(Wanted(s.txs[u]).row) {
        TrackOfHeldRoomIsFree(s, u, row, m);
      }
    }
  }

  /** Every edge of the wait-for graph leads to a transaction that is nearer to running. */
  lemma {:induction false} EdgesLeadNearer(s: State, t: TxId, u: TxId)
    requires Inv(s) && WaitsFor(s, t, u)
    ensures Nearer(s, t, u)
  {
    var want := Wanted(s.txs[t]);
    if m :| Holds(s.txs[u], want.row, m) && Conflict(want.mode, m) {
      HolderIsNearer(s, t, u, m);
    } else {
      assert Mentions(s.txs[t].kind, want.row) && Mentions(s.txs[u].kind, want.row);
      NobodyNamesCreated(s, t, u, want.row);
    }
  }

  ghost predicate Path(s: State, path: seq<TxId>) {
    && path != []
    && (forall i :: 0 <= i < |path| ==> path[i] in s.txs)
    && (forall i, j :: 0 <= i && j == i + 1 && j < |path| ==> WaitsFor(s, path[i], path[j]))
  }

  lemma {:induction false} PathsLeadNearer(s: State, path: seq<TxId>)
    requires Inv(s) && Path(s, path) && |path| >= 2
    ensures Nearer(s, path[0], path[|path| - 1])
  {
    var n := |path| - 1;
    assert WaitsFor(s, path[n - 1], path[n]);
    EdgesLeadNearer(s, path[n - 1], path[n]);
    if n > 1 {
      PathsLeadNearer(s, path[..n]);
    }
  }

  /** The wait-for graph of a reachable state has no cycle. */
  lemma {:induction false} NoDeadlock(steps: seq<Step>, path: seq<TxId>)
    requires Path(After(steps), path) && |path| >= 2
    ensures path[0] != path[|path| - 1]
  {
    AfterInv(steps);
    PathsLeadNearer(After(steps), path);
  }

  ghost function AllNearer(s: State, t: TxId): set<TxId>
    requires t in s.txs
  {
    set u | u in s.txs && Nearer(s, t, u)
  }

  lemma SmallerSet<T>(a: set<T>, b: set<T>)
    requires a < b
    ensures |a| < |b|
  {
    assert b == a + (b - a);
    assert b - a != {};
  }

  lemma {:induction false} FewerAreNearer(s: State, t: TxId, u: TxId)
    requires t in s.txs && u in s.txs && Nearer(s, t, u)
    ensures |AllNearer(s, u)| < |AllNearer(s, t)|
  {
    assert u in AllNearer(s, t) && u !in AllNearer(s, u);
    assert AllNearer(s, u) < AllNearer(s, t);
    SmallerSet(AllNearer(s, u), AllNearer(s, t));
  }

  lemma {:induction false} PathToFree(s: State, t: TxId) returns (path: seq<TxId>)
    requires Inv(s) && t in s.txs
    ensures Path(s, path) && path[0] == t && !Blocked(s, path[|path| - 1])
    decreases |AllNearer(s, t)|
  {
    if !Blocked(s, t) {
      path := [t];
    } else {
      var u :| WaitsFor(s, t, u);
      EdgesLeadNearer(s, t, u);
      FewerAreNearer(s, t, u);
      var rest := PathToFree(s, u);
      path := [t] + rest;
    }
  }

  /** Whatever a transaction of a reachable state waits for, following the waits ends at a
      transaction that can take its next step now: it is running, or its lock can be
      granted. */
  lemma {:induction false} SomeoneCanProceed(steps: seq<Step>, t: TxId) returns (path: seq<TxId>)
    requires t in After(steps).txs
    ensures var s := After(steps);
            && Path(s, path) && path[0] == t
            && var free := path[|path| - 1];
               s.txs[free].ticket.None? || Enabled(s, Grant(free))
  {
    AfterInv(steps);
    path := PathToFree(After(steps), t);
  }
}
