/**
 Everything that acts on a room's hub, interleaved: handshakes with their two session
 checks, socket pumps, broadcasts, leaves and room switches whose disconnection of the old
 session runs after the commit, and the closing of sockets, which happens after the hub's
 mutex has been released. One step is one critical section, one database commit or one
 channel operation. A session, a socket and a hub belong to one room for good, so the
 system is described for one room; a switch ends the session of the room that is left.
 */
module HubSystem {
  import opened Tables
  import opened Hub

  type SocketId = int
  type CallId = int

  /** Where a handshake stands. `Live` sockets have their pumps started. */
  datatype Phase = Upgraded | Pending | Confirmed | Refused | Live | Failed

  /** `stream` is everything ever put into the send channel and `read` how much of it the
      write pump has taken; `from` is the number of broadcasts before the activation. */
  datatype Socket = Socket(session: SessionId, phase: Phase, stream: seq<Message>, read: nat, from: nat, open: bool,
                           closings: nat)

  /** A call that disconnects a session, issued after the commit that ended it; `located`
      once it has found the room's hub. */
  datatype Call = Call(session: SessionId, located: bool)

  /** `created` says whether the registry has a hub for the room, `hub` is its clients map,
      `sent` what it has broadcast, and `closing` the pending close calls. */
  datatype State = State(
    created: bool,
    hub: map<SocketId, bool>,
    sent: seq<Message>,
    sockets: map<SocketId, Socket>,
    active: set<SessionId>,
    calls: map<CallId, Call>,
    closing: multiset<SocketId>)

  datatype Step =
    | Join(session: SessionId)                         // a new session, or one coming back
    | EndSession(session: SessionId, call: CallId)     // leave, or switch to another room
    | Upgrade(c: SocketId, session: SessionId)         // first check passed
    | OpenHub
    | Register(c: SocketId)
    | Confirm(c: SocketId)                             // second check passed
    | Refuse(c: SocketId)                              // second check failed
    | Activate(c: SocketId)
    | Unregister(c: SocketId)                          // refused, or a pump has ended
    | Close(c: SocketId)
    | Broadcast(body: int)
    | Receive(c: SocketId)
    | Locate(call: CallId)
    | Disconnect(call: CallId)

  // ---------- one step ----------

  predicate Buffered(x: Socket) {
    |x.stream| - x.read >= SEND_BUFFER
  }

  function FullOnes(s: State): set<SocketId> {
    set c | c in s.hub && c in s.sockets && Buffered(s.sockets[c])
  }

  function OfSession(s: State, session: SessionId): set<SocketId> {
    set c | c in s.hub && c in s.sockets && s.sockets[c].session == session
  }

  predicate InPhase(s: State, c: SocketId, phase: Phase) {
    c in s.sockets && s.sockets[c].phase == phase
  }

  predicate Enabled(s: State, step: Step) {
    match step
    case Join(session) => true
    case EndSession(session, call) => call !in s.calls
    case Upgrade(c, session) => c !in s.sockets && session in s.active
    case OpenHub => !s.created
    case Register(c) => InPhase(s, c, Upgraded) && s.created
    case Confirm(c) => InPhase(s, c, Pending) && s.sockets[c].session in s.active
    case Refuse(c) => InPhase(s, c, Pending)
    case Activate(c) => InPhase(s, c, Confirmed)
    case Unregister(c) => InPhase(s, c, Refused) || InPhase(s, c, Live)
    case Close(c) => c in s.closing && c in s.sockets
    case Broadcast(body) => s.created
    case Receive(c) => InPhase(s, c, Live) && s.sockets[c].read < |s.sockets[c].stream|
    case Locate(call) => call in s.calls && !s.calls[call].located
    case Disconnect(call) => call in s.calls && s.calls[call].located
  }

  function WithPhase(s: State, c: SocketId, phase: Phase): State
    requires c in s.sockets
  {
    s.(sockets := s.sockets[c := s.sockets[c].(phase := phase)])
  }

  /** `gone` leave the hub and are to be closed. */
  function Removing(s: State, gone: set<SocketId>): State {
    s.(hub := s.hub - gone, closing := s.closing + multiset(gone))
  }

  function DoActivate(s: State, c: SocketId): State
    requires c in s.sockets
  {
    var x := s.sockets[c];
    var hub := Activated(s.hub, c, Buffered(x));
    if c in s.hub && !Buffered(x) then
      s.(hub := hub, sockets := s.sockets[c := x.(phase := Live, stream := x.stream + [SyncRequired],
                                                  from := |s.sent|)])
    else
      WithPhase(s, c, Failed).(hub := hub, closing := s.closing + multiset{c})
  }

  function DoClose(s: State, c: SocketId): State
    requires c in s.sockets
  {
    var x := s.sockets[c];
    s.(sockets := s.sockets[c := x.(open := false, closings := if x.open then x.closings + 1 else x.closings)],
       closing := s.closing - multiset{c})
  }

  function DoBroadcast(s: State, m: Message): State {
    var gone := Overflowing(s.hub, FullOnes(s));
    Removing(s, gone).(
      sent := s.sent + [m],
      sockets := map c | c in s.sockets ::
        if c in s.hub && s.hub[c] && c !in gone
        then s.sockets[c].(stream := s.sockets[c].stream + [m])
        else s.sockets[c])
  }

  function Apply(s: State, step: Step): State {
    if !Enabled(s, step) then s
    else
      match step
      case Join(session) => s.(active := s.active + {session})
      case EndSession(session, call) =>
        s.(active := s.active - {session}, calls := s.calls[call := Call(session, false)])
      case Upgrade(c, session) => s.(sockets := s.sockets[c := Socket(session, Upgraded, [], 0, 0, true, 0)])
      case OpenHub => s.(created := true)
      case Register(c) => WithPhase(s, c, Pending).(hub := WithPending(s.hub, c))
      case Confirm(c) => WithPhase(s, c, Confirmed)
      case Refuse(c) => WithPhase(s, c, Refused)
      case Activate(c) => DoActivate(s, c)
      case Unregister(c) => s.(hub := s.hub - {c}, closing := s.closing + multiset{c})
      case Close(c) => DoClose(s, c)
      case Broadcast(body) => DoBroadcast(s, Event(body))
      case Receive(c) => s.(sockets := s.sockets[c := s.sockets[c].(read := s.sockets[c].read + 1)])
      case Locate(call) =>
        if s.created then s.(calls := s.calls[call := s.calls[call].(located := true)])
        else s.(calls := s.calls - {call})
      case Disconnect(call) => Removing(s, OfSession(s, s.calls[call].session)).(calls := s.calls - {call})
  }

  const Start: State := State(false, map[], [], map[], {}, map[], multiset{})

  /** The state after any sequence of steps; a step that is not enabled does nothing. */
  function After(s: State, steps: seq<Step>): State {
    if steps == [] then s else Apply(After(s, steps[..|steps| - 1]), steps[|steps| - 1])
  }

  // ---------- invariants ----------

  predicate IsActive(s: State, c: SocketId) {
    c in s.hub && s.hub[c]
  }

  /** The life of one socket. */
  ghost predicate Sound(s: State, c: SocketId)
    requires c in s.sockets
  {
    var x := s.sockets[c];
    && x.closings == (if x.open then 0 else 1)
    && (c in s.hub ==> s.created && x.open && c !in s.closing && x.phase != Upgraded && x.phase != Failed)
    && (IsActive(s, c) <==> c in s.hub && x.phase == Live)
    && (x.phase == Upgraded ==> x.open && c !in s.closing)
    && (x.phase != Upgraded ==> c in s.hub || !x.open || c in s.closing)
    && x.read <= |x.stream| <= x.read + SEND_BUFFER
    && (x.phase != Live ==> x.stream == [])
    && (x.phase == Live ==> Contiguous(x, s.sent))
    && (IsActive(s, c) ==> x.from + |x.stream| - 1 == |s.sent|)
  }

  /** The request to synchronise, then broadcasts without a gap from the activation on. */
  ghost predicate Contiguous(x: Socket, sent: seq<Message>) {
    && |x.stream| >= 1 && x.from + |x.stream| - 1 <= |sent|
    && x.stream == [SyncRequired] + sent[x.from..x.from + |x.stream| - 1]
  }

  ghost predicate OnItsWay(s: State, session: SessionId) {
    exists k :: k in s.calls && s.calls[k].session == session
  }

  /** A registered socket past its second check belongs to an active session, or a call
      that will disconnect its session is on its way. */
  ghost predicate Covered(s: State, c: SocketId)
    requires c in s.sockets
  {
    var x := s.sockets[c];
    c in s.hub && (x.phase == Confirmed || x.phase == Live) ==> x.session in s.active || OnItsWay(s, x.session)
  }

  ghost predicate Known(s: State) {
    (forall c :: c in s.hub ==> c in s.sockets) && (forall c :: c in s.closing ==> c in s.sockets)
  }

  ghost predicate Inv(s: State) {
    && Known(s)
    && (forall c :: c in s.sockets ==> Sound(s, c))
    && (forall c :: c in s.sockets ==> Covered(s, c))
  }

  // ---------- every step keeps them ----------

  lemma StepKeepsKnown(s: State, step: Step)
    requires Known(s)
    ensures Known(Apply(s, step))
  {
  }

  lemma BroadcastKeepsSound(s: State, m: Message, c: SocketId)
    requires Known(s) && s.created && c in s.sockets && Sound(s, c)
    ensures Sound(DoBroadcast(s, m), c)
  {
    var x, x' := s.sockets[c], DoBroadcast(s, m).sockets[c];
    if x.phase == Live {
      var n := x.from + |x.stream| - 1;
      if IsActive(s, c) {
        assert (s.sent + [m])[x.from..n + 1] == s.sent[x.from..n] + [m];
      }
      assert (s.sent + [m])[x.from..n] == s.sent[x.from..n];
    }
  }

  lemma ActivateKeepsSound(s: State, d: SocketId, c: SocketId)
    requires Known(s) && InPhase(s, d, Confirmed) && c in s.sockets && Sound(s, c)
    ensures Sound(DoActivate(s, d), c)
  {
  }

  lemma CloseKeepsSound(s: State, d: SocketId, c: SocketId)
    requires Known(s) && d in s.closing && d in s.sockets && c in s.sockets && Sound(s, c)
    ensures Sound(DoClose(s, d), c)
  {
  }

  lemma HandshakeKeepsSound(s: State, step: Step, c: SocketId)
    requires Known(s) && c in Apply(s, step).sockets
    requires c in s.sockets ==> Sound(s, c)
    requires step.Upgrade? || step.Register? || step.Confirm? || step.Refuse? || step.Receive?
    ensures Sound(Apply(s, step), c)
  {
  }

  lemma StepKeepsSound(s: State, step: Step, c: SocketId)
    requires Known(s) && c in Apply(s, step).sockets
    requires c in s.sockets ==> Sound(s, c)
    ensures Sound(Apply(s, step), c)
  {
    if Enabled(s, step) {
      match step
      case Broadcast(body) => BroadcastKeepsSound(s, Event(body), c);
      case Activate(d) => ActivateKeepsSound(s, d, c);
      case Close(d) => CloseKeepsSound(s, d, c);
      case Unregister(_) =>
      case Disconnect(_) =>
      case Join(_) =>
      case EndSession(_, _) =>
      case OpenHub =>
      case Locate(_) =>
      case _ => HandshakeKeepsSound(s, step, c);
    }
  }

  lemma CallsStayOnTheirWay(s: State, step: Step, session: SessionId)
    requires OnItsWay(s, session) && s.created
    requires step.Disconnect? && Enabled(s, step) ==> s.calls[step.call].session != session
    ensures OnItsWay(Apply(s, step), session)
  {
    var k :| k in s.calls && s.calls[k].session == session;
    assert k in Apply(s, step).calls && Apply(s, step).calls[k].session == session;
  }

  lemma StepKeepsCovered(s: State, step: Step, c: SocketId)
    requires Inv(s) && c in Apply(s, step).sockets
    ensures Covered(Apply(s, step), c)
  {
    var s' := Apply(s, step);
    if c in s.sockets && c in s.hub {
      assert Sound(s, c) && Covered(s, c);
      var session := s.sockets[c].session;
      if step.EndSession? && Enabled(s, step) && step.session == session {
        assert step.call in s'.calls;
      } else if OnItsWay(s, session) && c in s'.hub {
        CallsStayOnTheirWay(s, step, session);
      }
    }
  }

  lemma {:induction false} StepKeepsInv(s: State, step: Step)
    requires Inv(s)
    ensures Inv(Apply(s, step))
  {
    StepKeepsKnown(s, step);
    forall c | c in Apply(s, step).sockets ensures Sound(Apply(s, step), c) && Covered(Apply(s, step), c) {
      StepKeepsSound(s, step, c);
      StepKeepsCovered(s, step, c);
    }
  }

  lemma {:induction false} AfterKeepsInv(s: State, steps: seq<Step>)
    requires Inv(s)
    ensures Inv(After(s, steps))
  {
    if steps != [] {
      AfterKeepsInv(s, steps[..|steps| - 1]);
      StepKeepsInv(After(s, steps[..|steps| - 1]), steps[|steps| - 1]);
    }
  }

  /** The invariants hold in every reachable state. */
  lemma ReachableInv(steps: seq<Step>)
    ensures Inv(After(Start, steps))
  {
    AfterKeepsInv(Start, steps);
  }

  // ---------- streams ----------

  /** All states of a run, from the start to the state after the last step. */
  function States(steps: seq<Step>): (run: seq<State>)
    ensures |run| == |steps| + 1 && run[|steps|] == After(Start, steps)
  {
    if steps == [] then [Start] else States(steps[..|steps| - 1]) + [After(Start, steps)]
  }

  /** Step `k` activates the socket, which is active from then on up to the state `m`; the
      step after that, if there is one, takes it out of the hub for good. */
  ghost predicate ActiveSpan(run: seq<State>, steps: seq<Step>, c: SocketId, k: nat, m: nat)
    requires |run| == |steps| + 1
  {
    && k < m <= |steps|
    && steps[k] == Activate(c) && !IsActive(run[k], c)
    && (forall j :: k < j <= m ==> IsActive(run[j], c))
    && (forall j :: m < j <= |steps| ==> c !in run[j].hub)
  }

  /** The stream is the request to synchronise and the broadcasts after the first `n`, up to
      those of the state `t`. */
  ghost predicate StreamIs(x: Socket, n: nat, t: State) {
    x.from == n <= |t.sent| && x.stream == [SyncRequired] + t.sent[n..]
  }

  ghost predicate SpanWithStream(run: seq<State>, steps: seq<Step>, c: SocketId, k: nat, m: nat)
    requires |run| == |steps| + 1
  {
    && ActiveSpan(run, steps, c, k, m)
    && c in run[|steps|].sockets && StreamIs(run[|steps|].sockets[c], |run[k].sent|, run[m])
  }

  /** What a step does to a live socket: out of the hub it never changes; leaving the hub it
      keeps its stream; in the hub it has every broadcast from its activation on. */
  ghost predicate LiveNext(s: State, s': State, c: SocketId) {
    && InPhase(s, c, Live) && InPhase(s', c, Live) && s'.sockets[c].from == s.sockets[c].from
    && (c !in s.hub ==> c !in s'.hub)
    && (c !in s'.hub ==> s'.sockets[c].stream == s.sockets[c].stream)
    && (c in s'.hub ==> IsActive(s', c) && StreamIs(s'.sockets[c], s'.sockets[c].from, s'))
  }

  /** Only a broadcast changes the stream of a live socket, and nothing brings it back. */
  lemma {:induction false} OtherStepsOfLive(s: State, step: Step, c: SocketId)
    requires Known(s) && InPhase(s, c, Live) && !step.Broadcast?
    ensures var s' := Apply(s, step);
            && InPhase(s', c, Live) && s'.sent == s.sent && (c in s'.hub ==> c in s.hub)
            && s'.sockets[c].from == s.sockets[c].from && s'.sockets[c].stream == s.sockets[c].stream
  {
  }

  lemma {:induction false} LiveStep(s: State, step: Step, c: SocketId)
    requires Inv(s) && InPhase(s, c, Live)
    ensures LiveNext(s, Apply(s, step), c)
  {
    assert Sound(s, c);
    StepKeepsSound(s, step, c);
    if step.Broadcast? {
      if Enabled(s, step) { OverflowRemoves(s, step.body, c); }
    } else {
      OtherStepsOfLive(s, step, c);
    }
  }

  /** A socket becomes live by its activation, with nothing but the request to synchronise. */
  ghost predicate GoesLive(s: State, step: Step, s': State, c: SocketId) {
    && step == Activate(c) && !IsActive(s, c) && IsActive(s', c)
    && InPhase(s', c, Live) && s'.sent == s.sent && StreamIs(s'.sockets[c], |s.sent|, s')
  }

  lemma ActivationStep(s: State, step: Step, c: SocketId)
    requires Inv(s) && !InPhase(s, c, Live) && InPhase(Apply(s, step), c, Live)
    ensures GoesLive(s, step, Apply(s, step), c)
  {
    assert c in s.sockets && Sound(s, c);
  }

  lemma SpanGoesOn(run: seq<State>, steps: seq<Step>, step: Step, s': State, c: SocketId, k: nat, m: nat)
    requires |run| == |steps| + 1 && SpanWithStream(run, steps, c, k, m)
    requires LiveNext(run[|steps|], s', c)
    ensures SpanWithStream(run + [s'], steps + [step], c, k, if c in s'.hub then |steps| + 1 else m)
  {
    var e := if c in s'.hub then |steps| + 1 else m;
    var longer := run + [s'];
    assert forall j :: 0 <= j <= |steps| ==> longer[j] == run[j];
    if c in s'.hub {
      assert m == |steps|;
      assert longer[e] == s';
    } else {
      assert c !in longer[|steps| + 1].hub;
    }
  }

  lemma SpanBegins(run: seq<State>, steps: seq<Step>, step: Step, s': State, c: SocketId)
    requires |run| == |steps| + 1 && GoesLive(run[|steps|], step, s', c)
    ensures SpanWithStream(run + [s'], steps + [step], c, |steps|, |steps| + 1)
  {
    var longer := run + [s'];
    assert longer[|steps|] == run[|steps|] && longer[|steps| + 1] == s';
    assert (steps + [step])[|steps|] == step;
  }

  ghost predicate HasSpan(run: seq<State>, steps: seq<Step>, c: SocketId)
    requires |run| == |steps| + 1
  {
    exists k: nat, m: nat :: SpanWithStream(run, steps, c, k, m)
  }

  lemma SpanExtends(run: seq<State>, steps: seq<Step>, step: Step, s': State, c: SocketId)
    requires |run| == |steps| + 1
    requires GoesLive(run[|steps|], step, s', c) || (LiveNext(run[|steps|], s', c) && HasSpan(run, steps, c))
    ensures HasSpan(run + [s'], steps + [step], c)
  {
    if GoesLive(run[|steps|], step, s', c) {
      SpanBegins(run, steps, step, s', c);
    } else {
      var k: nat, m: nat :| SpanWithStream(run, steps, c, k, m);
      SpanGoesOn(run, steps, step, s', c, k, m);
    }
  }

  lemma BecomesOrStaysLive(s: State, step: Step, c: SocketId)
    requires Inv(s) && InPhase(Apply(s, step), c, Live)
    ensures if InPhase(s, c, Live) then LiveNext(s, Apply(s, step), c) else GoesLive(s, step, Apply(s, step), c)
  {
    if InPhase(s, c, Live) { LiveStep(s, step, c); } else { ActivationStep(s, step, c); }
  }

  lemma {:induction false} LastStepOfLive(steps: seq<Step>, c: SocketId)
    requires steps != [] && InPhase(After(Start, steps), c, Live)
    ensures var s, step := After(Start, steps[..|steps| - 1]), steps[|steps| - 1];
            if InPhase(s, c, Live) then LiveNext(s, After(Start, steps), c)
            else GoesLive(s, step, After(Start, steps), c)
  {
    ReachableInv(steps[..|steps| - 1]);
    BecomesOrStaysLive(After(Start, steps[..|steps| - 1]), steps[|steps| - 1], c);
  }

  lemma {:induction false} LiveSocketsHaveSpans(steps: seq<Step>, c: SocketId)
    requires InPhase(After(Start, steps), c, Live)
    ensures HasSpan(States(steps), steps, c)
  {
    assert steps != [];
    var front, step := steps[..|steps| - 1], steps[|steps| - 1];
    LastStepOfLive(steps, c);
    if InPhase(After(Start, front), c, Live) { LiveSocketsHaveSpans(front, c); }
    SpanExtends(States(front), front, step, After(Start, steps), c);
    assert steps == front + [step];
  }

  lemma {:induction false} NeverLiveNeverActive(steps: seq<Step>, c: SocketId)
    requires c in After(Start, steps).sockets && !InPhase(After(Start, steps), c, Live)
    ensures After(Start, steps).sockets[c].stream == []
    ensures forall j :: 0 <= j <= |steps| ==> !IsActive(States(steps)[j], c)
  {
    ReachableInv(steps);
    assert Sound(After(Start, steps), c);
    if steps != [] {
      var front, step := steps[..|steps| - 1], steps[|steps| - 1];
      ReachableInv(front);
      if c in After(Start, front).sockets {
        if InPhase(After(Start, front), c, Live) { LiveStep(After(Start, front), step, c); }
        NeverLiveNeverActive(front, c);
      } else {
        UnknownNeverActive(front, c);
      }
    }
  }

  lemma {:induction false} UnknownNeverActive(steps: seq<Step>, c: SocketId)
    requires c !in After(Start, steps).sockets
    ensures forall j :: 0 <= j <= |steps| ==> !IsActive(States(steps)[j], c)
  {
    ReachableInv(steps);
    if steps != [] {
      var front := steps[..|steps| - 1];
      if c in After(Start, front).sockets { SocketsStay(After(Start, front), steps[|steps| - 1], c); }
      UnknownNeverActive(front, c);
    }
  }

  lemma SocketsStay(s: State, step: Step, c: SocketId)
    requires c in s.sockets
    ensures c in Apply(s, step).sockets
  {
  }

  /** Over every run, what was ever put into a socket's channel is nothing if the socket was
      never active. Otherwise it is the request to synchronise followed by exactly the hub's
      broadcasts between two points of the run: the step that activated the socket, and the
      last state before a step took it out of the hub, or the present if none did. */
  lemma {:induction false} StreamsHaveNoGaps(steps: seq<Step>, c: SocketId)
    requires c in After(Start, steps).sockets
    ensures var run := States(steps);
            var x := run[|steps|].sockets[c];
            || (x.stream == [] && forall j :: 0 <= j <= |steps| ==> !IsActive(run[j], c))
            || (exists k: nat, m: nat ::
                  && ActiveSpan(run, steps, c, k, m)
                  && |run[k].sent| <= |run[m].sent|
                  && x.stream == [SyncRequired] + run[m].sent[|run[k].sent|..])
  {
    if InPhase(After(Start, steps), c, Live) {
      LiveSocketsHaveSpans(steps, c);
      var k: nat, m: nat :| SpanWithStream(States(steps), steps, c, k, m);
      assert ActiveSpan(States(steps), steps, c, k, m);
    } else {
      NeverLiveNeverActive(steps, c);
    }
  }

  /** A broadcast adds its message to every active socket with room for it, and removes
      every other active socket instead of dropping the message; pending sockets and
      sockets outside the hub get nothing. */
  lemma {:induction false} OverflowRemoves(s: State, body: int, c: SocketId)
    requires s.created && c in s.sockets
    ensures var s' := Apply(s, Broadcast(body));
            var x, x' := s.sockets[c], s'.sockets[c];
            var unread := |x.stream| - x.read;
            && s'.sent == s.sent + [Event(body)]
            && (IsActive(s, c) && unread < 32 ==> IsActive(s', c) && x'.stream == x.stream + [Event(body)])
            && (IsActive(s, c) && unread >= 32 ==> c !in s'.hub && c in s'.closing && x' == x)
            && (!IsActive(s, c) ==> x' == x && (c in s'.hub <==> c in s.hub))
  {
  }

  /** A socket appears only for an active session, and passes its second check only while its
      session is active. */
  lemma {:induction false} ChecksAskForSession(s: State, step: Step, c: SocketId)
    requires c in Apply(s, step).sockets
    ensures var session := Apply(s, step).sockets[c].session;
            && (c !in s.sockets ==> session in s.active)
            && (InPhase(Apply(s, step), c, Confirmed) && !InPhase(s, c, Confirmed) ==> session in s.active)
  {
  }

  /** A disconnection takes all registered sockets of its session out of the hub, pending ones
      too, each to be closed once more; it leaves all others and every stream alone. */
  lemma {:induction false} DisconnectEffect(s: State, call: CallId, c: SocketId)
    requires Known(s) && Enabled(s, Disconnect(call)) && c in s.sockets
    ensures var s' := Apply(s, Disconnect(call));
            var mine := c in s.hub && s.sockets[c].session == s.calls[call].session;
            && call !in s'.calls && s'.sockets == s.sockets && s'.active == s.active && s'.sent == s.sent
            && (c in s'.hub <==> c in s.hub && !mine) && (c in s'.hub ==> s'.hub[c] == s.hub[c])
            && s'.closing[c] == s.closing[c] + if mine then 1 else 0
  {
  }

  /** A registered socket with room is activated and asked to synchronise, first of all; any
      other is out of the hub, to be closed, and gets nothing. */
  lemma {:induction false} ActivateEffect(s: State, c: SocketId)
    requires Enabled(s, Activate(c))
    ensures var s' := Apply(s, Activate(c));
            var x, x' := s.sockets[c], s'.sockets[c];
            if c in s.hub && |x.stream| - x.read < 32 then
              IsActive(s', c) && x' == x.(phase := Live, stream := x.stream + [SyncRequired], from := |s.sent|)
              && s'.closing == s.closing
            else
              c !in s'.hub && x' == x.(phase := Failed) && s'.closing == s.closing + multiset{c}
  {
  }

  // ---------- closing ----------

  /** In every reachable state each member of the hub is open, so nothing is sent on a
      closed channel; no channel is closed twice; and a socket that has left the hub is
      closed or has a close call pending. */
  lemma {:induction false} HubMembersAreOpen(steps: seq<Step>, c: SocketId)
    requires c in After(Start, steps).sockets
    ensures var s := After(Start, steps);
            var x := s.sockets[c];
            && (c in s.hub ==> x.open)
            && x.closings <= 1
            && (x.phase != Upgraded && c !in s.hub ==> !x.open || c in s.closing)
  {
    ReachableInv(steps);
    assert Sound(After(Start, steps), c);
  }

  // ---------- the handshake against leave and switch ----------

  /** In every interleaving, a registered socket that has passed its second check belongs
      to a session that is still active, or the call that will disconnect the session has
      not run yet. */
  lemma {:induction false} ConfirmedSocketsAreCovered(steps: seq<Step>, c: SocketId)
    requires var s := After(Start, steps); c in s.hub && (InPhase(s, c, Confirmed) || InPhase(s, c, Live))
    ensures var s := After(Start, steps);
            s.sockets[c].session in s.active || OnItsWay(s, s.sockets[c].session)
  {
    ReachableInv(steps);
    assert Covered(After(Start, steps), c);
  }

  /** No socket of the session is active or on the way to become active. */
  ghost predicate ShutOut(s: State, session: SessionId) {
    && session !in s.active
    && (forall c :: c in s.hub && c in s.sockets && s.sockets[c].session == session ==>
          s.sockets[c].phase == Pending || s.sockets[c].phase == Refused)
  }

  lemma StepKeepsShutOut(s: State, step: Step, session: SessionId)
    requires Inv(s) && ShutOut(s, session) && step != Join(session)
    ensures ShutOut(Apply(s, step), session)
  {
  }

  lemma {:induction false} StaysShutOut(s: State, steps: seq<Step>, session: SessionId)
    requires Inv(s) && ShutOut(s, session) && Join(session) !in steps
    ensures ShutOut(After(s, steps), session)
  {
    if steps != [] {
      var front := steps[..|steps| - 1];
      StaysShutOut(s, front, session);
      AfterKeepsInv(s, front);
      StepKeepsShutOut(After(s, front), steps[|steps| - 1], session);
    }
  }

  /** Once a session has ended and its disconnections have run, none of its sockets is
      active, and without the session joining again none ever becomes active, whatever
      handshakes were half way through. */
  lemma {:induction false} EndedSessionStaysOut(steps: seq<Step>, later: seq<Step>, session: SessionId, c: SocketId)
    requires var s := After(Start, steps); session !in s.active && !OnItsWay(s, session)
    requires Join(session) !in later
    requires var s' := After(After(Start, steps), later); c in s'.sockets && s'.sockets[c].session == session
    ensures !IsActive(After(After(Start, steps), later), c)
  {
    ReachableInv(steps);
    var s := After(Start, steps);
    assert ShutOut(s, session) by {
      forall d | d in s.hub && d in s.sockets && s.sockets[d].session == session
        ensures s.sockets[d].phase == Pending || s.sockets[d].phase == Refused
      {
        assert Covered(s, d) && Sound(s, d);
      }
    }
    StaysShutOut(s, later, session);
    AfterKeepsInv(s, later);
    assert After(s, later) == After(After(Start, steps), later);
    if c in After(s, later).hub { assert Sound(After(s, later), c); }
  }
}
