/**
 The OCPP client as a machine of atomic events
 (packages/css/src/ocpp-client.ts): calls waiting for an answer, sockets and the
 reconnect loop. One event is one callback of the runtime together with the
 promise continuations it releases.
 */
module OcppClientModel {
  import opened Basics
  import opened ReconnectBackOff

  // ----- calls -----

  datatype Reason =
    | NotConnected | NotInProtocol | Timeout | SendFailed
    | CallErrorReply(code: string, description: string)
    | ClientDisconnected | ConnectionLost | ClosedDuringReconnect

  /** The promise of a call. */
  datatype Outcome = Unsettled | Resolved(payload: string) | Rejected(reason: Reason)

  /** The payload a call has on the wire: OCPP 2.0.1 may not define it, or define nothing to send. */
  datatype WirePayload = Sendable | NothingToSend | Undefined

  // ----- sockets and the reconnect loop -----

  /** `Aborting` is a socket closed before it opened: its error comes first, then its close. */
  datatype Socket = Connecting | Aborting | Open | Closing | Closed

  /** The promise `connect()` returned for a socket. */
  datatype Connect = Pending | Done | Failed

  datatype Phase = Sleeping | Awaiting(socket: nat)

  /** One activation of the reconnect loop. */
  datatype Loop = Loop(attempt: nat, backOffAttempts: nat, firstDelayMs: Option<real>, waits: seq<real>, phase: Phase)

  datatype State = State(
    pending: set<string>,
    timers: set<string>,
    calls: map<string, Outcome>,
    connected: bool,
    destroyed: bool,
    reconnecting: bool,
    ws: Option<nat>,
    firstDelayMs: Option<real>,
    sockets: seq<Socket>,
    connects: seq<Connect>,
    loops: seq<Loop>)

  const INITIAL := State({}, {}, map[], false, false, false, None, None, [], [], [])

  // ----- settling -----

  /** Settling a promise that is settled already does nothing. */
  function Settle(calls: map<string, Outcome>, id: string, outcome: Outcome): map<string, Outcome> {
    if id in calls && calls[id] == Unsettled then calls[id := outcome] else calls
  }

  /** Every pending call is rejected, its timer cleared. */
  function RejectPending(s: State, reason: Reason): State {
    s.(pending := {},
       timers := s.timers - s.pending,
       calls := map id | id in s.calls ::
         if id in s.pending && s.calls[id] == Unsettled then Rejected(reason) else s.calls[id])
  }

  /** A call leaves the pending map with an outcome. */
  function Finish(s: State, id: string, outcome: Outcome): State {
    s.(pending := s.pending - {id}, timers := s.timers - {id}, calls := Settle(s.calls, id, outcome))
  }

  function OpenSocket(s: State): Option<nat> {
    if s.connected && s.ws.Some? && s.ws.value < |s.sockets| && s.sockets[s.ws.value] == Open then s.ws else None
  }

  function SendCall(s: State, id: string, wire: WirePayload): State {
    if OpenSocket(s).None? then s.(calls := s.calls[id := Rejected(NotConnected)])
    else match wire
      case Undefined => s.(calls := s.calls[id := Rejected(NotInProtocol)])
      case NothingToSend => s.(calls := s.calls[id := Resolved("{}")])
      case Sendable => s.(pending := s.pending + {id}, timers := s.timers + {id}, calls := s.calls[id := Unsettled])
  }

  /** A CALLRESULT or CALLERROR frame; one for an id that is not pending is dropped. */
  function Answer(s: State, id: string, outcome: Outcome): State {
    if id in s.pending then Finish(s, id, outcome) else s
  }

  // ----- the loop -----

  /** The next turn of a loop: it counts the attempt and sleeps. */
  function NextWait(loop: Loop, spreadMs: real, draw: Draw): Loop {
    if loop.attempt == 0 && loop.firstDelayMs.Some? then
      Loop(1, loop.backOffAttempts, loop.firstDelayMs, loop.waits + [loop.firstDelayMs.value], Sleeping)
    else
      Loop(loop.attempt + 1, loop.backOffAttempts + 1, loop.firstDelayMs,
           loop.waits + [ReconnectWaitMs(loop.backOffAttempts, spreadMs, draw)], Sleeping)
  }

  function ConnectSocket(s: State): State {
    s.(destroyed := false,
       sockets := s.sockets + [Connecting],
       connects := s.connects + [Pending],
       ws := Some(|s.sockets|))
  }

  /** The loops that do not wait for socket `k`. */
  function Without(loops: seq<Loop>, k: nat): seq<Loop> {
    if loops == [] then []
    else (if loops[0].phase == Awaiting(k) then [] else [loops[0]]) + Without(loops[1..], k)
  }

  predicate IsAwaited(loops: seq<Loop>, k: nat) {
    exists i :: 0 <= i < |loops| && loops[i].phase == Awaiting(k)
  }

  /** After the connect promise of `k` was rejected, the loops that waited for it take their next turn. */
  function Retry(loops: seq<Loop>, k: nat, spreadMs: real, draw: Draw): seq<Loop> {
    seq(|loops|, i requires 0 <= i < |loops| =>
      if loops[i].phase == Awaiting(k) then NextWait(loops[i], spreadMs, draw) else loops[i])
  }

  /** The connect promise of `k` is resolved: a loop that waited for it is done. */
  function LoopDone(s: State, k: nat): State {
    if IsAwaited(s.loops, k) then s.(reconnecting := false, loops := Without(s.loops, k)) else s
  }

  /** The connect promise of `k` is rejected: a loop that waited for it goes on, unless the client was disconnected. */
  function LoopFailed(s: State, k: nat, spreadMs: real, draw: Draw): State {
    if !IsAwaited(s.loops, k) then s
    else if s.destroyed then s.(reconnecting := false, loops := Without(s.loops, k))
    else s.(loops := Retry(s.loops, k, spreadMs, draw))
  }

  function StartLoop(s: State, spreadMs: real, draw: Draw): State {
    if s.reconnecting then s
    else
      var r := RejectPending(s, ClosedDuringReconnect);
      r.(reconnecting := true,
         firstDelayMs := None,
         loops := r.loops + [NextWait(Loop(0, 0, s.firstDelayMs, [], Sleeping), spreadMs, draw)])
  }

  // ----- socket events -----

  function OnOpen(s: State, k: nat): State
    requires k < |s.sockets| && k < |s.connects|
  {
    var o := s.(sockets := s.sockets[k := Open], connected := true);
    if s.connects[k] == Pending then LoopDone(o.(connects := s.connects[k := Done]), k) else o
  }

  /** The connect promise is rejected only while the client does not count as connected. */
  function OnError(s: State, k: nat, spreadMs: real, draw: Draw): State
    requires k < |s.sockets| && k < |s.connects|
  {
    var e := s.(sockets := s.sockets[k := Closing]);
    if !s.connected && s.connects[k] == Pending then
      LoopFailed(e.(connects := s.connects[k := Failed]), k, spreadMs, draw)
    else e
  }

  function OnClose(s: State, k: nat, spreadMs: real, draw: Draw): State
    requires k < |s.sockets|
  {
    var c := s.(sockets := s.sockets[k := Closed]);
    if s.ws.Some? && s.ws.value != k then c
    else
      var d := c.(connected := false);
      if s.destroyed then d else StartLoop(d, spreadMs, draw)
  }

  function OnWake(s: State, i: nat): State
    requires i < |s.loops|
  {
    if s.destroyed then
      s.(reconnecting := false, loops := s.loops[..i] + s.loops[i + 1..])
    else
      ConnectSocket(s).(loops := s.loops[i := s.loops[i].(phase := Awaiting(|s.sockets|))])
  }

  /** `ws.close()`. */
  function CloseSocket(socket: Socket): Socket {
    match socket
    case Connecting => Aborting
    case Open => Closing
    case _ => socket
  }

  function DropSocket(s: State): State {
    if s.ws.Some? && s.ws.value < |s.sockets| then
      s.(sockets := s.sockets[s.ws.value := CloseSocket(s.sockets[s.ws.value])], ws := None)
    else s
  }

  function Disconnect(s: State): State {
    DropSocket(RejectPending(s.(destroyed := true), ClientDisconnected))
  }

  function LoseConnection(s: State): State {
    DropSocket(RejectPending(s, ConnectionLost))
  }

  function ReconnectNow(s: State, delayMs: real): State {
    if s.ws.None? then s
    else LoseConnection(s.(firstDelayMs := Some(if delayMs > 0.0 then delayMs else 0.0)))
  }

  // ----- runs -----

  datatype Event =
    | Call(id: string, wire: WirePayload)
    | Result(id: string, payload: string)
    | CallError(id: string, code: string, description: string)
    | TimerFired(id: string)
    | SendError(id: string)
    | ConnectCalled
    | DisconnectCalled
    | LossSimulated
    | ReconnectNowCalled(delayMs: real)
    | SocketOpened(k: nat)
    | SocketErrored(k: nat, draw: Draw)
    | SocketEnding(k: nat)
    | SocketClosed(k: nat, draw: Draw)
    | LoopWoke(i: nat)

  /** What the runtime can deliver in a state. */
  predicate Enabled(s: State, e: Event) {
    match e
    case Call(id, _) => id !in s.calls
    case TimerFired(id) => id in s.timers
    case SendError(id) => id in s.calls
    case SocketOpened(k) => k < |s.sockets| && s.sockets[k] == Connecting
    case SocketErrored(k, _) => k < |s.sockets| && s.sockets[k] in {Connecting, Aborting, Open}
    case SocketEnding(k) => k < |s.sockets| && s.sockets[k] == Open
    case SocketClosed(k, _) => k < |s.sockets| && s.sockets[k] in {Open, Closing}
    case LoopWoke(i) => i < |s.loops| && s.loops[i].phase == Sleeping
    case _ => true
  }

  function Step(s: State, e: Event, spreadMs: real): State
    requires Enabled(s, e) && |s.connects| == |s.sockets|
  {
    match e
    case Call(id, wire) => SendCall(s, id, wire)
    case Result(id, payload) => Answer(s, id, Resolved(payload))
    case CallError(id, code, description) => Answer(s, id, Rejected(CallErrorReply(code, description)))
    case TimerFired(id) => Finish(s, id, Rejected(Timeout))
    case SendError(id) => Finish(s, id, Rejected(SendFailed))
    case ConnectCalled => ConnectSocket(s)
    case DisconnectCalled => Disconnect(s)
    case LossSimulated => LoseConnection(s)
    case ReconnectNowCalled(delayMs) => ReconnectNow(s, delayMs)
    case SocketOpened(k) => OnOpen(s, k)
    case SocketErrored(k, draw) => OnError(s, k, spreadMs, draw)
    case SocketEnding(k) => s.(sockets := s.sockets[k := Closing])
    case SocketClosed(k, draw) => OnClose(s, k, spreadMs, draw)
    case LoopWoke(i) => OnWake(s, i)
  }

  /** What every state of every run satisfies. */
  ghost predicate Inv(s: State) {
    && |s.connects| == |s.sockets|
    && (s.ws.Some? ==> s.ws.value < |s.sockets|)
    && CallInv(s)
    && |s.loops| <= 1
    && (s.reconnecting <==> |s.loops| == 1)
    && (forall i :: 0 <= i < |s.loops| ==> LoopInv(s, s.loops[i]))
    && (forall k :: 0 <= k < |s.sockets| ==>
          && (s.sockets[k] in {Connecting, Aborting} ==> s.connects[k] == Pending)
          && (s.sockets[k] == Open ==> s.connects[k] == Done))
  }

  /** A call is pending exactly while its promise is unsettled and its timer armed. */
  ghost predicate CallInv(s: State) {
    && s.pending <= s.calls.Keys && s.timers <= s.calls.Keys
    && forall id :: id in s.calls ==>
         && (id in s.pending <==> s.calls[id] == Unsettled)
         && (id in s.timers <==> s.calls[id] == Unsettled)
  }

  /** A loop has logged one wait an attempt, counts all but a reconnectNow attempt, and awaits an unsettled connect. */
  ghost predicate LoopInv(s: State, loop: Loop) {
    && |loop.waits| == loop.attempt >= 1
    && loop.attempt == loop.backOffAttempts + (if loop.firstDelayMs.Some? then 1 else 0)
    && (loop.phase.Awaiting? ==> loop.phase.socket < |s.connects| && s.connects[loop.phase.socket] == Pending)
  }

  /** The states a list of events leads through. */
  ghost predicate IsRun(states: seq<State>, events: seq<Event>, spreadMs: real) {
    && |states| == |events| + 1
    && states[0] == INITIAL
    && forall i :: 0 <= i < |events| ==>
         && |states[i].connects| == |states[i].sockets|
         && Enabled(states[i], events[i])
         && states[i + 1] == Step(states[i], events[i], spreadMs)
  }
}
