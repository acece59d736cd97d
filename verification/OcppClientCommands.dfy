/**
 What the calls that manage the connection promise: a client that was disconnected
 stays down until the next `connect()`, and the loop after `reconnectNow()` starts
 with the delay it was given (packages/css/src/ocpp-client.ts:477-551).
 */
module OcppClientCommands {
  import opened Basics
  import opened OcppClientModel
  import opened OcppClientSafety
  import opened OcppClientRecovery

  // ----- disconnect -----

  /** The client is told to stay down: it has no current socket, and no socket and no loop beyond these. */
  predicate IsDown(s: State, sockets: nat, loops: nat) {
    s.destroyed && s.ws.None? && |s.sockets| == sockets && |s.loops| <= loops
  }

  lemma StepKeepsDown(s: State, e: Event, spreadMs: real, sockets: nat, loops: nat)
    requires Inv(s) && Enabled(s, e) && e != ConnectCalled && IsDown(s, sockets, loops)
    ensures IsDown(Step(s, e, spreadMs), sockets, loops)
    ensures e.LoopWoke? ==> Step(s, e, spreadMs).loops == []
  {
    match e
    case SocketOpened(k) => if IsAwaited(s.loops, k) { WithoutOne(s.loops, k); }
    case SocketErrored(k, _) => if IsAwaited(s.loops, k) { WithoutOne(s.loops, k); }
    case SocketClosed(_, _) =>
    case LoopWoke(_) =>
    case _ =>
  }

  /** Whatever happens after `disconnect()`, without a `connect()` no socket is made and no connection is open. */
  lemma {:induction false} DownUntilConnect(s: State, events: seq<Event>, spreadMs: real, t: State, sockets: nat, loops: nat)
    requires Inv(s) && IsDown(s, sockets, loops) && Leads(s, events, spreadMs, t)
    requires forall e :: e in events ==> e != ConnectCalled
    ensures IsDown(t, sockets, loops) && OpenSocket(t) == None
    decreases |events|
  {
    if events != [] {
      assert events[0] in events && forall e :: e in events[1..] ==> e in events;
      StepKeepsInv(s, events[0], spreadMs);
      StepKeepsDown(s, events[0], spreadMs, sockets, loops);
      DownUntilConnect(Step(s, events[0], spreadMs), events[1..], spreadMs, t, sockets, loops);
    }
  }

  /**
   After `disconnect()` the client stays down: whatever happens, without a further
   `connect()` it makes no socket, starts no loop and has no open connection.
   */
  lemma DisconnectStaysDown(s: State, events: seq<Event>, spreadMs: real, t: State)
    requires Inv(s) && Leads(Step(s, DisconnectCalled, spreadMs), events, spreadMs, t)
    requires forall e :: e in events ==> e != ConnectCalled
    ensures |t.sockets| == |s.sockets| && |t.loops| <= |s.loops| && t.ws == None && OpenSocket(t) == None
  {
    StepKeepsInv(s, DisconnectCalled, spreadMs);
    DownUntilConnect(Step(s, DisconnectCalled, spreadMs), events, spreadMs, t, |s.sockets|, |s.loops|);
  }

  // ----- reconnectNow -----

  function AtLeastZero(x: real): real {
    if x > 0.0 then x else 0.0
  }

  /** The next loop will start with this delay. */
  predicate DelaysNext(s: State, delayMs: real) {
    s.loops == [] && s.firstDelayMs == Some(AtLeastZero(delayMs))
  }

  /** The loop has taken its first wait, this delay, and has not used its back-off. */
  predicate StartedWith(s: State, delayMs: real) {
    && |s.loops| == 1 && s.loops[0].waits == [AtLeastZero(delayMs)] && s.loops[0].backOffAttempts == 0
    && s.firstDelayMs == None
  }

  lemma StepKeepsDelay(s: State, e: Event, spreadMs: real, delayMs: real)
    requires Inv(s) && Enabled(s, e) && !e.ReconnectNowCalled? && DelaysNext(s, delayMs)
    ensures var t := Step(s, e, spreadMs); if t.loops == [] then DelaysNext(t, delayMs) else StartedWith(t, delayMs)
  {
    match e
    case SocketOpened(_) =>
    case SocketErrored(_, _) =>
    case SocketClosed(_, _) =>
    case LoopWoke(_) =>
    case _ =>
  }

  /** `reconnectNow()` was called in step `m`, in a client with a socket and no loop, and no loop ran before step `n`. */
  ghost predicate Asked(states: seq<State>, events: seq<Event>, m: nat, n: nat, delayMs: real) {
    && m < n <= |events| < |states|
    && events[m] == ReconnectNowCalled(delayMs) && states[m].ws.Some? && states[m].loops == []
    && forall k :: m < k < n ==> !events[k].ReconnectNowCalled? && states[k].loops == []
  }

  lemma {:induction false} DelayGoesOn(states: seq<State>, events: seq<Event>, spreadMs: real, m: nat, n: nat, delayMs: real)
    requires IsRun(states, events, spreadMs) && Asked(states, events, m, n, delayMs)
    ensures if states[n].loops == [] then DelaysNext(states[n], delayMs) else StartedWith(states[n], delayMs)
    decreases n
  {
    if n > m + 1 {
      DelayGoesOn(states, events, spreadMs, m, n - 1, delayMs);
      RunKeepsInv(states, events, spreadMs, n - 1);
      StepKeepsDelay(states[n - 1], events[n - 1], spreadMs, delayMs);
    }
  }

  /** In every run the first loop after `reconnectNow()` starts with the delay that was given, zero for a negative one. */
  lemma NextLoopStartsWithDelay(states: seq<State>, events: seq<Event>, spreadMs: real, m: nat, n: nat, delayMs: real)
    requires IsRun(states, events, spreadMs) && Asked(states, events, m, n, delayMs) && states[n].loops != []
    ensures StartedWith(states[n], delayMs)
  {
    DelayGoesOn(states, events, spreadMs, m, n, delayMs);
  }
}
