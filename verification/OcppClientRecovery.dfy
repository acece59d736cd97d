/**
 When a client that lost its connection comes back by itself. A client whose
 `connect()` is called only while no loop runs and no socket is still connecting
 never gets stuck; at any other moment the call can leave it stuck for good
 (packages/css/src/ocpp-client.ts:347-391, 517-575).
 */
module OcppClientRecovery {
  import opened Basics
  import opened ReconnectBackOff
  import opened OcppClientModel
  import opened OcppClientSafety

  predicate IsStarting(socket: Socket) {
    socket == Connecting || socket == Aborting
  }

  /** Socket `k` will close, and its close will be handled. */
  predicate WillReconnect(s: State, k: nat) {
    k < |s.sockets| && s.sockets[k] != Closed && (s.ws.None? || s.ws.value == k)
  }

  /** The loop will go on by itself: it sleeps, or waits for a connect that is still under way. */
  predicate WillRetry(s: State, loop: Loop) {
    loop.phase.Sleeping? || (loop.phase.socket < |s.sockets| && IsStarting(s.sockets[loop.phase.socket]))
  }

  /** Something is under way that leads to a connection: a socket whose close is handled, or a loop that goes on. */
  ghost predicate Tended(s: State) {
    || (exists k: nat :: WillReconnect(s, k))
    || (exists i :: 0 <= i < |s.loops| && WillRetry(s, s.loops[i]))
  }

  /** The client was asked to connect, was not told to disconnect, and nothing leads to a connection any more. */
  ghost predicate Stuck(s: State) {
    !s.destroyed && s.sockets != [] && !Tended(s)
  }

  /** Events of the network and of timers, and calls sent, as opposed to calls that manage the connection. */
  predicate IsInternal(e: Event) {
    !e.ConnectCalled? && !e.DisconnectCalled? && !e.LossSimulated? && !e.ReconnectNowCalled?
  }

  /** `events` can happen one after the other from `s`, and end in `t`. */
  ghost predicate Leads(s: State, events: seq<Event>, spreadMs: real, t: State)
    decreases |events|
  {
    && |s.connects| == |s.sockets|
    && (if events == [] then t == s
        else Enabled(s, events[0]) && Leads(Step(s, events[0], spreadMs), events[1..], spreadMs, t))
  }

  lemma LeadsFrom(s: State, e: Event, events: seq<Event>, spreadMs: real, t: State)
    requires Inv(s) && Enabled(s, e) && Leads(Step(s, e, spreadMs), events, spreadMs, t)
    ensures Leads(s, [e] + events, spreadMs, t)
  {
    assert ([e] + events)[1..] == events;
  }

  // ----- a stuck client stays stuck -----

  lemma StuckFacts(s: State)
    requires Stuck(s)
    ensures forall k :: 0 <= k < |s.sockets| && s.sockets[k] != Closed ==> s.ws.Some? && s.ws.value != k
    ensures forall i :: 0 <= i < |s.loops| ==> !WillRetry(s, s.loops[i])
    ensures OpenSocket(s) == None
  {
    forall k | 0 <= k < |s.sockets| && s.sockets[k] != Closed
      ensures s.ws.Some? && s.ws.value != k
    {
      assert !WillReconnect(s, k);
    }
  }

  /** Same loops and current socket, no socket younger than before: still stuck. */
  lemma StuckLike(s: State, s': State)
    requires Stuck(s) && !s'.destroyed && s'.loops == s.loops && s'.ws == s.ws && |s'.sockets| == |s.sockets|
    requires forall k :: 0 <= k < |s.sockets| ==>
               (s'.sockets[k] != Closed ==> s.sockets[k] != Closed) && (IsStarting(s'.sockets[k]) ==> IsStarting(s.sockets[k]))
    ensures Stuck(s')
  {
    StuckFacts(s);
  }

  lemma StuckNotAwaited(s: State, k: nat)
    requires Stuck(s) && k < |s.sockets| && IsStarting(s.sockets[k])
    ensures !IsAwaited(s.loops, k)
  {
    StuckFacts(s);
  }

  lemma StuckErrored(s: State, k: nat, draw: Draw, spreadMs: real)
    requires Inv(s) && Stuck(s) && Enabled(s, SocketErrored(k, draw))
    ensures Stuck(OnError(s, k, spreadMs, draw))
  {
    if s.sockets[k] != Open {
      StuckNotAwaited(s, k);
    }
    StuckLike(s, OnError(s, k, spreadMs, draw));
  }

  /** No event of the network, of a timer or of a call gets a stuck client out. */
  lemma StuckStays(s: State, e: Event, spreadMs: real)
    requires Inv(s) && Stuck(s) && Enabled(s, e) && IsInternal(e)
    ensures Stuck(Step(s, e, spreadMs))
  {
    StuckFacts(s);
    match e
    case LoopWoke(_) =>
    case SocketOpened(k) =>
      StuckNotAwaited(s, k);
      StuckLike(s, OnOpen(s, k));
    case SocketErrored(k, draw) => StuckErrored(s, k, draw, spreadMs);
    case SocketClosed(k, draw) => StuckLike(s, OnClose(s, k, spreadMs, draw));
    case SocketEnding(k) => StuckLike(s, Step(s, e, spreadMs));
    case Call(id, wire) => StuckLike(s, SendCall(s, id, wire));
    case Result(id, payload) => StuckLike(s, Answer(s, id, Resolved(payload)));
    case CallError(id, code, text) => StuckLike(s, Answer(s, id, Rejected(CallErrorReply(code, text))));
    case TimerFired(id) => StuckLike(s, Finish(s, id, Rejected(Timeout)));
    case SendError(id) => StuckLike(s, Finish(s, id, Rejected(SendFailed)));
  }

  /** Whatever the network does, a stuck client is never connected again. */
  lemma {:induction false} StuckNeverConnects(s: State, events: seq<Event>, spreadMs: real, t: State)
    requires Inv(s) && Stuck(s) && Leads(s, events, spreadMs, t)
    requires forall e :: e in events ==> IsInternal(e)
    ensures Stuck(t) && OpenSocket(t) == None
    decreases |events|
  {
    if events == [] {
      StuckFacts(s);
    } else {
      StuckStays(s, events[0], spreadMs);
      StepKeepsInv(s, events[0], spreadMs);
      StuckNeverConnects(Step(s, events[0], spreadMs), events[1..], spreadMs, t);
    }
  }

  // ----- an orderly client never gets stuck -----

  /** The guard a caller of `connect()` can check: no loop runs, and no socket is still connecting. */
  predicate CanConnect(s: State) {
    s.loops == [] && forall k :: 0 <= k < |s.sockets| ==> s.sockets[k] != Connecting
  }

  /**
   What holds while every `connect()` is called under that guard: a socket that is
   connecting is the current one and the one the loop waits for, a client with a
   loop does not count as connected, every loop goes on, and something leads to a
   connection.
   */
  ghost predicate Orderly(s: State) {
    && Inv(s)
    && (forall k :: 0 <= k < |s.sockets| && s.sockets[k] == Connecting ==>
          s.ws == Some(k) && forall i :: 0 <= i < |s.loops| ==> s.loops[i].phase == Awaiting(k))
    && (s.loops != [] ==> !s.connected)
    && (forall i :: 0 <= i < |s.loops| ==> WillRetry(s, s.loops[i]))
    && (!s.destroyed && s.sockets != [] ==> s.loops != [] || exists k: nat :: WillReconnect(s, k))
  }

  lemma OrderlyIsNotStuck(s: State)
    requires Orderly(s)
    ensures !Stuck(s)
  {
    if s.loops != [] {
      assert WillRetry(s, s.loops[0]);
    }
  }

  lemma OrderlyConnect(s: State)
    requires Orderly(s) && CanConnect(s)
    ensures Orderly(ConnectSocket(s))
  {
    StepKeepsInv(s, ConnectCalled, 0.0);
    assert WillReconnect(ConnectSocket(s), |s.sockets|);
  }

  lemma OrderlyDrop(s: State)
    requires Orderly(s)
    ensures var d := DropSocket(s);
            && (forall k :: 0 <= k < |d.sockets| ==> d.sockets[k] != Connecting)
            && (forall i :: 0 <= i < |d.loops| ==> WillRetry(d, d.loops[i]))
            && (!d.destroyed && d.sockets != [] ==> d.loops != [] || exists k: nat :: WillReconnect(d, k))
  {
    var d := DropSocket(s);
    if !s.destroyed && s.sockets != [] && s.loops == [] {
      var k: nat :| WillReconnect(s, k);
      assert WillReconnect(d, k);
    }
  }

  lemma OrderlyLoss(s: State)
    requires Orderly(s)
    ensures Orderly(LoseConnection(s))
  {
    StepKeepsInv(s, LossSimulated, 0.0);
    OrderlyDrop(s);
    SameConnection(DropSocket(s), LoseConnection(s));
  }

  /** Being orderly is about the connection: it says nothing of the calls. */
  lemma SameConnection(s: State, s': State)
    requires s'.sockets == s.sockets && s'.ws == s.ws && s'.loops == s.loops
    ensures forall k: nat :: WillReconnect(s, k) == WillReconnect(s', k)
    ensures forall i :: 0 <= i < |s.loops| ==> WillRetry(s, s.loops[i]) == WillRetry(s', s.loops[i])
  {
  }

  lemma OrderlyDisconnect(s: State)
    requires Orderly(s)
    ensures Orderly(Disconnect(s))
  {
    StepKeepsInv(s, DisconnectCalled, 0.0);
    OrderlyDrop(s);
    SameConnection(DropSocket(s), Disconnect(s));
  }

  lemma OrderlyReconnectNow(s: State, delayMs: real)
    requires Orderly(s)
    ensures Orderly(ReconnectNow(s, delayMs))
  {
    StepKeepsInv(s, ReconnectNowCalled(delayMs), 0.0);
    OrderlyDrop(s);
    SameConnection(DropSocket(s), ReconnectNow(s, delayMs).(ws := DropSocket(s).ws));
  }

  lemma OrderlyOpened(s: State, k: nat)
    requires Orderly(s) && Enabled(s, SocketOpened(k))
    ensures Orderly(OnOpen(s, k))
  {
    OpenedKept(s, k);
    if s.loops != [] {
      assert s.loops[0].phase == Awaiting(k);
      WithoutOne(s.loops, k);
    }
    assert WillReconnect(OnOpen(s, k), k);
  }

  lemma OrderlyErrored(s: State, k: nat, draw: Draw, spreadMs: real)
    requires Orderly(s) && Enabled(s, SocketErrored(k, draw))
    ensures Orderly(OnError(s, k, spreadMs, draw))
  {
    ErroredKept(s, k, draw, spreadMs);
    var t := OnError(s, k, spreadMs, draw);
    if IsAwaited(s.loops, k) {
      WithoutOne(s.loops, k);
    } else if !s.destroyed && s.loops == [] {
      var j: nat :| WillReconnect(s, j);
      assert WillReconnect(t, j);
    }
  }

  lemma OrderlyEnding(s: State, k: nat)
    requires Orderly(s) && Enabled(s, SocketEnding(k))
    ensures Orderly(s.(sockets := s.sockets[k := Closing]))
  {
    CommandKept(s, SocketEnding(k), 0.0);
    if !s.destroyed && s.loops == [] {
      var j: nat :| WillReconnect(s, j);
      assert WillReconnect(s.(sockets := s.sockets[k := Closing]), j);
    }
  }

  /** The close of a replaced socket. */
  lemma OrderlyIgnored(s: State, k: nat, draw: Draw, spreadMs: real)
    requires Orderly(s) && Enabled(s, SocketClosed(k, draw)) && s.ws.Some? && s.ws.value != k
    ensures Orderly(OnClose(s, k, spreadMs, draw))
  {
    ClosedKept(s, k, draw, spreadMs);
    ReplacedCloseIgnored(s, k, spreadMs, draw);
    var t := s.(sockets := s.sockets[k := Closed]);
    if !s.destroyed && s.loops == [] {
      var j: nat :| WillReconnect(s, j);
      assert WillReconnect(t, j);
    }
  }

  lemma OrderlyClosed(s: State, k: nat, draw: Draw, spreadMs: real)
    requires Orderly(s) && Enabled(s, SocketClosed(k, draw))
    ensures Orderly(OnClose(s, k, spreadMs, draw))
  {
    if s.ws.Some? && s.ws.value != k {
      OrderlyIgnored(s, k, draw, spreadMs);
    } else {
      ClosedKept(s, k, draw, spreadMs);
      var t := OnClose(s, k, spreadMs, draw);
      assert t.sockets == s.sockets[k := Closed] && t.ws == s.ws && !t.connected;
      assert s.loops != [] || s.destroyed ==> t.loops == s.loops;
    }
  }

  lemma OrderlyWoke(s: State, i: nat)
    requires Orderly(s) && Enabled(s, LoopWoke(i))
    ensures Orderly(OnWake(s, i))
  {
    WokeKept(s, i);
  }

  lemma OrderlyCalls(s: State, e: Event, spreadMs: real)
    requires Orderly(s) && Enabled(s, e)
    requires e.Call? || e.Result? || e.CallError? || e.TimerFired? || e.SendError?
    ensures Orderly(Step(s, e, spreadMs))
  {
    CallEventKept(s, e, spreadMs);
    SameConnection(s, Step(s, e, spreadMs));
  }

  /** Every event keeps a client orderly, a `connect()` under its guard. */
  lemma StepKeepsOrderly(s: State, e: Event, spreadMs: real)
    requires Orderly(s) && Enabled(s, e)
    requires e.ConnectCalled? ==> CanConnect(s)
    ensures Orderly(Step(s, e, spreadMs))
  {
    match e
    case ConnectCalled => OrderlyConnect(s);
    case DisconnectCalled => OrderlyDisconnect(s);
    case LossSimulated => OrderlyLoss(s);
    case ReconnectNowCalled(delayMs) => OrderlyReconnectNow(s, delayMs);
    case SocketOpened(k) => OrderlyOpened(s, k);
    case SocketErrored(k, draw) => OrderlyErrored(s, k, draw, spreadMs);
    case SocketEnding(k) => OrderlyEnding(s, k);
    case SocketClosed(k, draw) => OrderlyClosed(s, k, draw, spreadMs);
    case LoopWoke(i) => OrderlyWoke(s, i);
    case Call(_, _) => OrderlyCalls(s, e, spreadMs);
    case Result(_, _) => OrderlyCalls(s, e, spreadMs);
    case CallError(_, _, _) => OrderlyCalls(s, e, spreadMs);
    case TimerFired(_) => OrderlyCalls(s, e, spreadMs);
    case SendError(_) => OrderlyCalls(s, e, spreadMs);
  }

  predicate AllClosed(s: State) {
    forall k :: 0 <= k < |s.sockets| ==> s.sockets[k] == Closed
  }

  /**
   No run that calls `connect()` only under its guard ever reaches a stuck client;
   with every socket closed, its loop is running.
   */
  lemma {:induction false} OrderlyRunNeverStuck(states: seq<State>, events: seq<Event>, spreadMs: real, n: nat)
    requires IsRun(states, events, spreadMs) && n < |states|
    requires forall i :: 0 <= i < n && events[i].ConnectCalled? ==> CanConnect(states[i])
    ensures Orderly(states[n]) && !Stuck(states[n])
    ensures !states[n].destroyed && states[n].sockets != [] && AllClosed(states[n]) ==> states[n].reconnecting
  {
    if n > 0 {
      OrderlyRunNeverStuck(states, events, spreadMs, n - 1);
      StepKeepsOrderly(states[n - 1], events[n - 1], spreadMs);
    }
    OrderlyIsNotStuck(states[n]);
  }

  lemma {:induction false} OrderlyLeads(s: State, events: seq<Event>, spreadMs: real, t: State)
    requires Orderly(s) && Leads(s, events, spreadMs, t)
    requires forall e :: e in events ==> IsInternal(e)
    ensures Orderly(t)
    decreases |events|
  {
    if events != [] {
      assert events[0] in events;
      StepKeepsOrderly(s, events[0], spreadMs);
      OrderlyLeads(Step(s, events[0], spreadMs), events[1..], spreadMs, t);
    }
  }

  // ----- an orderly client can always come back -----

  /** Network events alone lead from `s` to a usable connection. */
  ghost predicate CanComeBack(s: State, spreadMs: real) {
    exists events, t ::
      && Leads(s, events, spreadMs, t)
      && (forall e :: e in events ==> IsInternal(e))
      && OpenSocket(t).Some?
  }

  lemma ComesBackAfter(s: State, e: Event, spreadMs: real)
    requires Inv(s) && Enabled(s, e) && IsInternal(e) && CanComeBack(Step(s, e, spreadMs), spreadMs)
    ensures CanComeBack(s, spreadMs)
  {
    var events, t :| Leads(Step(s, e, spreadMs), events, spreadMs, t) && (forall x :: x in events ==> IsInternal(x)) && OpenSocket(t).Some?;
    LeadsFrom(s, e, events, spreadMs, t);
  }

  lemma IsBack(s: State, spreadMs: real)
    requires Inv(s) && OpenSocket(s).Some?
    ensures CanComeBack(s, spreadMs)
  {
    assert Leads(s, [], spreadMs, s);
  }

  lemma OpensAndIsBack(s: State, k: nat, spreadMs: real)
    requires Orderly(s) && Enabled(s, SocketOpened(k))
    ensures CanComeBack(s, spreadMs)
  {
    OpenedKept(s, k);
    IsBack(OnOpen(s, k), spreadMs);
    ComesBackAfter(s, SocketOpened(k), spreadMs);
  }

  lemma SleeperComesBack(s: State, spreadMs: real)
    requires Orderly(s) && !s.destroyed && |s.loops| == 1 && s.loops[0].phase == Sleeping
    ensures CanComeBack(s, spreadMs)
  {
    OrderlyWoke(s, 0);
    OpensAndIsBack(OnWake(s, 0), |s.sockets|, spreadMs);
    ComesBackAfter(s, LoopWoke(0), spreadMs);
  }

  lemma LoopComesBack(s: State, draw: Draw, spreadMs: real)
    requires Orderly(s) && !s.destroyed && s.loops != []
    ensures CanComeBack(s, spreadMs)
  {
    var loop := s.loops[0];
    if loop.phase.Sleeping? {
      SleeperComesBack(s, spreadMs);
    } else if s.sockets[loop.phase.socket] == Connecting {
      OpensAndIsBack(s, loop.phase.socket, spreadMs);
    } else {
      var k := loop.phase.socket;
      OrderlyErrored(s, k, draw, spreadMs);
      assert IsAwaited(s.loops, k);
      SleeperComesBack(OnError(s, k, spreadMs, draw), spreadMs);
      ComesBackAfter(s, SocketErrored(k, draw), spreadMs);
    }
  }

  lemma ClosingComesBack(s: State, k: nat, draw: Draw, spreadMs: real)
    requires Orderly(s) && !s.destroyed && s.loops == []
    requires WillReconnect(s, k) && s.sockets[k] in {Open, Closing}
    ensures CanComeBack(s, spreadMs)
  {
    OrderlyClosed(s, k, draw, spreadMs);
    LoopComesBack(OnClose(s, k, spreadMs, draw), draw, spreadMs);
    ComesBackAfter(s, SocketClosed(k, draw), spreadMs);
  }

  /** From every orderly state that is meant to be connected, the network can bring the connection back. */
  lemma OrderlyComesBack(s: State, draw: Draw, spreadMs: real)
    requires Orderly(s) && !s.destroyed && s.sockets != []
    ensures CanComeBack(s, spreadMs)
  {
    if s.loops != [] {
      LoopComesBack(s, draw, spreadMs);
    } else {
      var k: nat :| WillReconnect(s, k);
      match s.sockets[k]
      case Connecting => OpensAndIsBack(s, k, spreadMs);
      case Aborting =>
        OrderlyErrored(s, k, draw, spreadMs);
        ClosingComesBack(OnError(s, k, spreadMs, draw), k, draw, spreadMs);
        ComesBackAfter(s, SocketErrored(k, draw), spreadMs);
      case _ => ClosingComesBack(s, k, draw, spreadMs);
    }
  }
}
