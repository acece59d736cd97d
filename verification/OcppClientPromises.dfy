/**
 Whether the promises that `connect()` returns are settled. A failure is reported only
 while the client does not count as connected, so a promise whose socket fails at any
 other moment stays unsettled for ever (packages/css/src/ocpp-client.ts:351-389).
 */
module OcppClientPromises {
  import opened Basics
  import opened ReconnectBackOff
  import opened OcppClientModel
  import opened OcppClientSafety
  import opened OcppClientRecovery
  import opened OcppClientConnect

  /** The promise of the connect that made socket `k` is unsettled although the socket is closed. */
  predicate IsHung(s: State, k: nat) {
    k < |s.sockets| && k < |s.connects| && s.sockets[k] == Closed && s.connects[k] == Pending
  }

  /** Nothing settles such a promise, whatever the network and the callers do. */
  lemma {:induction false} HungForEver(s: State, events: seq<Event>, spreadMs: real, t: State, k: nat)
    requires Inv(s) && IsHung(s, k) && Leads(s, events, spreadMs, t)
    ensures IsHung(t, k)
    decreases |events|
  {
    if events != [] {
      StepKeepsInv(s, events[0], spreadMs);
      HungStays(s, events[0], spreadMs, k);
      HungForEver(Step(s, events[0], spreadMs), events[1..], spreadMs, t, k);
    }
  }

  lemma HungStays(s: State, e: Event, spreadMs: real, k: nat)
    requires Inv(s) && Enabled(s, e) && IsHung(s, k)
    ensures IsHung(Step(s, e, spreadMs), k)
  {
    match e
    case SocketOpened(_) =>
    case SocketErrored(j, draw) =>
      assert OnError(s, j, spreadMs, draw).sockets == s.sockets[j := Closing];
    case SocketClosed(j, draw) =>
      assert OnClose(s, j, spreadMs, draw).sockets == s.sockets[j := Closed];
    case LoopWoke(_) =>
    case _ => HungStaysElse(s, e, spreadMs, k);
  }

  lemma HungStaysElse(s: State, e: Event, spreadMs: real, k: nat)
    requires Inv(s) && Enabled(s, e) && IsHung(s, k)
    requires !e.SocketOpened? && !e.SocketErrored? && !e.SocketClosed? && !e.LoopWoke?
    ensures IsHung(Step(s, e, spreadMs), k)
  {
  }

  // ----- the promise of one call -----

  /** Network events alone lead to a state in which the promise of socket `k` hangs. */
  ghost predicate CanHang(s: State, k: nat, spreadMs: real) {
    exists events, t ::
      && Leads(s, events, spreadMs, t)
      && (forall e :: e in events ==> IsInternal(e))
      && IsHung(t, k)
  }

  lemma HangsAfter(s: State, e: Event, k: nat, spreadMs: real)
    requires Inv(s) && Enabled(s, e) && IsInternal(e) && CanHang(Step(s, e, spreadMs), k, spreadMs)
    ensures CanHang(s, k, spreadMs)
  {
    var events, t :| Leads(Step(s, e, spreadMs), events, spreadMs, t) && (forall x :: x in events ==> IsInternal(x)) && IsHung(t, k);
    LeadsFrom(s, e, events, spreadMs, t);
  }

  lemma Hangs(s: State, k: nat, spreadMs: real)
    requires Inv(s) && IsHung(s, k)
    ensures CanHang(s, k, spreadMs)
  {
    assert Leads(s, [], spreadMs, s);
  }

  /** A socket that fails while the client counts as connected: its promise hangs once it closes. */
  lemma FailsUnreported(s: State, k: nat, draw: Draw, spreadMs: real)
    requires Inv(s) && s.connected && k < |s.sockets| && IsStarting(s.sockets[k])
    ensures CanHang(s, k, spreadMs)
  {
    ErroredKept(s, k, draw, spreadMs);
    var e := s.(sockets := s.sockets[k := Closing]);
    assert e == OnError(s, k, spreadMs, draw);
    ClosesUnsettled(e, k, draw, spreadMs);
    HangsAfter(s, SocketErrored(k, draw), k, spreadMs);
  }

  lemma ClosesUnsettled(s: State, k: nat, draw: Draw, spreadMs: real)
    requires Inv(s) && k < |s.sockets| && s.sockets[k] == Closing && s.connects[k] == Pending
    ensures CanHang(s, k, spreadMs)
  {
    ClosedKept(s, k, draw, spreadMs);
    Hangs(OnClose(s, k, spreadMs, draw), k, spreadMs);
    HangsAfter(s, SocketClosed(k, draw), k, spreadMs);
  }

  /** While the promise of socket `k` is unsettled: the socket is connecting, alone and current, and failures are reported. */
  ghost predicate WillSettle(s: State, k: nat) {
    && Inv(s) && k < |s.sockets|
    && (s.connects[k] == Pending ==>
          && s.sockets[k] == Connecting && s.ws == Some(k) && s.loops == [] && !s.connected
          && forall j :: 0 <= j < |s.sockets| && s.sockets[j] == Connecting ==> j == k)
  }

  lemma StepKeepsWillSettle(s: State, e: Event, spreadMs: real, k: nat)
    requires WillSettle(s, k) && Enabled(s, e) && IsInternal(e)
    ensures WillSettle(Step(s, e, spreadMs), k)
  {
    StepKeepsInv(s, e, spreadMs);
    match e
    case SocketOpened(_) =>
    case SocketErrored(_, _) =>
    case SocketClosed(_, _) =>
    case LoopWoke(_) =>
    case _ =>
  }

  lemma {:induction false} LeadsKeepsWillSettle(s: State, events: seq<Event>, spreadMs: real, t: State, k: nat)
    requires WillSettle(s, k) && Leads(s, events, spreadMs, t)
    requires forall e :: e in events ==> IsInternal(e)
    ensures WillSettle(t, k)
    decreases |events|
  {
    if events != [] {
      assert events[0] in events;
      StepKeepsWillSettle(s, events[0], spreadMs, k);
      LeadsKeepsWillSettle(Step(s, events[0], spreadMs), events[1..], spreadMs, t, k);
    }
  }

  /**
   Called under its guard, `connect()` can return a promise that the network leaves
   unsettled for ever if and only if the client still counts as connected at the call.
   */
  lemma OwnConnectHangsExactly(s: State, draw: Draw, spreadMs: real)
    requires Orderly(s) && CanConnect(s)
    ensures CanHang(ConnectSocket(s), |s.sockets|, spreadMs) <==> s.connected
  {
    var c, k := ConnectSocket(s), |s.sockets|;
    StepKeepsInv(s, ConnectCalled, spreadMs);
    if s.connected {
      FailsUnreported(c, k, draw, spreadMs);
    } else {
      forall events, t | Leads(c, events, spreadMs, t) && forall e :: e in events ==> IsInternal(e)
        ensures !IsHung(t, k)
      {
        LeadsKeepsWillSettle(c, events, spreadMs, t, k);
      }
    }
  }

  /** A run that begins with these events and calls `connect()` ends, by the network alone, with that promise hung. */
  ghost predicate EndsHung(begin: seq<Event>, k: nat, spreadMs: real) {
    exists events, t ::
      && Leads(INITIAL, begin + [ConnectCalled] + events, spreadMs, t)
      && (forall e :: e in events ==> IsInternal(e))
      && IsHung(t, k)
  }

  lemma BeginsHungRun(begin: seq<Event>, s: State, k: nat, spreadMs: real)
    requires Leads(INITIAL, begin, spreadMs, s) && Inv(s) && CanHang(ConnectSocket(s), k, spreadMs)
    ensures EndsHung(begin, k, spreadMs)
  {
    var events, t :| Leads(ConnectSocket(s), events, spreadMs, t) && (forall e :: e in events ==> IsInternal(e)) && IsHung(t, k);
    LeadsFrom(s, ConnectCalled, events, spreadMs, t);
    LeadsOn(INITIAL, begin, spreadMs, s, [ConnectCalled] + events, t);
    assert begin + ([ConnectCalled] + events) == begin + [ConnectCalled] + events;
  }

  /** The first connection opens, and the client is disconnected: it counts as connected until the socket closes. */
  lemma FirstDisconnect(spreadMs: real) returns (s: State)
    ensures Orderly(s) && CanConnect(s) && s.connected && |s.sockets| == 1
    ensures Leads(INITIAL, [ConnectCalled, SocketOpened(0), DisconnectCalled], spreadMs, s)
  {
    s := FirstConnect(spreadMs);
    Reaches([ConnectCalled], s, SocketOpened(0), spreadMs);
    s := OnOpen(s, 0);
    assert [ConnectCalled] + [SocketOpened(0)] == [ConnectCalled, SocketOpened(0)];
    Reaches([ConnectCalled, SocketOpened(0)], s, DisconnectCalled, spreadMs);
    s := Disconnect(s);
    assert [ConnectCalled, SocketOpened(0)] + [DisconnectCalled] == [ConnectCalled, SocketOpened(0), DisconnectCalled];
  }

  /** From the initial state: the station connects, goes offline, and comes back before the old socket has closed. */
  lemma HungRunAfterDisconnect(draw: Draw, spreadMs: real)
    ensures EndsHung([ConnectCalled, SocketOpened(0), DisconnectCalled], 1, spreadMs)
  {
    var s := FirstDisconnect(spreadMs);
    OwnConnectHangsExactly(s, draw, spreadMs);
    BeginsHungRun([ConnectCalled, SocketOpened(0), DisconnectCalled], s, 1, spreadMs);
  }

  // ----- the promises of a whole run -----

  /** No loop runs and every socket is closed. */
  predicate IsIdle(s: State) {
    s.loops == [] && AllClosed(s)
  }

  /** A socket that is starting is the only one, its failure will be reported, and no loop can start meanwhile. */
  ghost predicate StartsAlone(s: State, k: nat)
    requires k < |s.sockets|
  {
    && !s.connected
    && (forall j :: 0 <= j < |s.sockets| && j != k ==> !IsStarting(s.sockets[j]))
    && (if s.loops == [] then forall j :: 0 <= j < |s.sockets| && j != k ==> s.sockets[j] == Closed
        else s.loops[0].phase == Awaiting(k))
  }

  /**
   What holds while every `connect()` is called on an idle client: only a socket that is
   starting has an unsettled promise, it starts alone, and a client that counts as
   connected has a socket whose close will be handled.
   */
  ghost predicate Calm(s: State) {
    && Orderly(s)
    && (forall k :: 0 <= k < |s.sockets| ==>
          && (s.connects[k] == Pending ==> IsStarting(s.sockets[k]))
          && (IsStarting(s.sockets[k]) ==> StartsAlone(s, k)))
    && (s.connected ==> exists k: nat :: WillReconnect(s, k))
  }

  lemma IdleIsUnconnected(s: State)
    requires Calm(s) && IsIdle(s)
    ensures !s.connected && CanConnect(s)
  {
  }

  lemma CalmConnect(s: State)
    requires Calm(s) && IsIdle(s)
    ensures Calm(ConnectSocket(s))
  {
    IdleIsUnconnected(s);
    OrderlyConnect(s);
  }

  /** Closing the current socket. */
  lemma CalmDrop(s: State, t: State)
    requires Calm(s) && Orderly(t)
    requires t.sockets == DropSocket(s).sockets && t.ws == DropSocket(s).ws
    requires t.connects == s.connects && t.loops == s.loops && t.connected == s.connected
    ensures Calm(t)
  {
    if s.connected {
      var k: nat :| WillReconnect(s, k);
      assert WillReconnect(t, k);
    }
    forall k | 0 <= k < |t.sockets| && IsStarting(t.sockets[k])
      ensures StartsAlone(t, k)
    {
      assert StartsAlone(s, k);
    }
  }

  lemma CalmOpened(s: State, k: nat)
    requires Calm(s) && Enabled(s, SocketOpened(k))
    ensures Calm(OnOpen(s, k))
  {
    OrderlyOpened(s, k);
    assert StartsAlone(s, k);
    assert WillReconnect(OnOpen(s, k), k);
  }

  /** A starting socket that fails is reported, and another one is left as it is. */
  lemma CalmErrored(s: State, k: nat, draw: Draw, spreadMs: real)
    requires Calm(s) && Enabled(s, SocketErrored(k, draw))
    ensures Calm(OnError(s, k, spreadMs, draw))
  {
    OrderlyErrored(s, k, draw, spreadMs);
    var t := OnError(s, k, spreadMs, draw);
    if IsStarting(s.sockets[k]) {
      assert StartsAlone(s, k);
    } else {
      assert t == s.(sockets := s.sockets[k := Closing]);
      CalmLike(s, t);
    }
  }

  /** Sockets that ran close, nothing else happens. */
  lemma CalmLike(s: State, t: State)
    requires Calm(s) && Orderly(t) && |t.sockets| == |s.sockets|
    requires t.connects == s.connects && t.loops == s.loops && t.ws == s.ws && t.connected == s.connected
    requires forall j :: 0 <= j < |s.sockets| ==>
               || t.sockets[j] == s.sockets[j]
               || (s.sockets[j] == Open && t.sockets[j] == Closing)
               || (s.sockets[j] == Closing && t.sockets[j] == Closing)
    ensures Calm(t)
  {
    if s.connected {
      var k: nat :| WillReconnect(s, k);
      assert WillReconnect(t, k);
    }
    forall k | 0 <= k < |t.sockets| && IsStarting(t.sockets[k])
      ensures StartsAlone(t, k)
    {
      assert StartsAlone(s, k);
    }
  }

  lemma CalmClosed(s: State, k: nat, draw: Draw, spreadMs: real)
    requires Calm(s) && Enabled(s, SocketClosed(k, draw))
    ensures Calm(OnClose(s, k, spreadMs, draw))
  {
    OrderlyClosed(s, k, draw, spreadMs);
    var t := OnClose(s, k, spreadMs, draw);
    forall j | 0 <= j < |t.sockets| && IsStarting(t.sockets[j])
      ensures StartsAlone(t, j)
    {
      assert StartsAlone(s, j);
    }
    if t.connected {
      var j: nat :| WillReconnect(s, j);
      assert WillReconnect(t, j);
    }
  }

  lemma CalmWoke(s: State, i: nat)
    requires Calm(s) && Enabled(s, LoopWoke(i))
    ensures Calm(OnWake(s, i))
  {
    OrderlyWoke(s, i);
    forall k | 0 <= k < |s.sockets|
      ensures !IsStarting(s.sockets[k])
    {
      assert IsStarting(s.sockets[k]) ==> StartsAlone(s, k);
    }
  }

  lemma CalmCalls(s: State, e: Event, spreadMs: real)
    requires Calm(s) && Enabled(s, e)
    requires e.Call? || e.Result? || e.CallError? || e.TimerFired? || e.SendError?
    ensures Calm(Step(s, e, spreadMs))
  {
    OrderlyCalls(s, e, spreadMs);
    CalmLike(s, Step(s, e, spreadMs));
  }

  /** Every event keeps a client calm, a `connect()` on an idle client. */
  lemma StepKeepsCalm(s: State, e: Event, spreadMs: real)
    requires Calm(s) && Enabled(s, e)
    requires e.ConnectCalled? ==> IsIdle(s)
    ensures Calm(Step(s, e, spreadMs))
  {
    match e
    case ConnectCalled => CalmConnect(s);
    case DisconnectCalled =>
      OrderlyDisconnect(s);
      CalmDrop(s, Disconnect(s));
    case LossSimulated =>
      OrderlyLoss(s);
      CalmDrop(s, LoseConnection(s));
    case ReconnectNowCalled(delayMs) =>
      OrderlyReconnectNow(s, delayMs);
      if s.ws.Some? {
        CalmDrop(s, ReconnectNow(s, delayMs));
      }
    case SocketOpened(k) => CalmOpened(s, k);
    case SocketErrored(k, draw) => CalmErrored(s, k, draw, spreadMs);
    case SocketEnding(k) =>
      OrderlyEnding(s, k);
      CalmLike(s, s.(sockets := s.sockets[k := Closing]));
    case SocketClosed(k, draw) => CalmClosed(s, k, draw, spreadMs);
    case LoopWoke(i) => CalmWoke(s, i);
    case Call(_, _) => CalmCalls(s, e, spreadMs);
    case Result(_, _) => CalmCalls(s, e, spreadMs);
    case CallError(_, _, _) => CalmCalls(s, e, spreadMs);
    case TimerFired(_) => CalmCalls(s, e, spreadMs);
    case SendError(_) => CalmCalls(s, e, spreadMs);
  }

  /**
   In no run that calls `connect()` only on an idle client does a connect promise hang,
   the caller's or the loop's: it is unsettled only while its socket is starting.
   */
  lemma {:induction false} IdleRunSettles(states: seq<State>, events: seq<Event>, spreadMs: real, n: nat)
    requires IsRun(states, events, spreadMs) && n < |states|
    requires forall i :: 0 <= i < n && events[i].ConnectCalled? ==> IsIdle(states[i])
    ensures Calm(states[n])
    ensures forall k :: 0 <= k < |states[n].sockets| && states[n].connects[k] == Pending ==> IsStarting(states[n].sockets[k])
  {
    if n > 0 {
      IdleRunSettles(states, events, spreadMs, n - 1);
      StepKeepsCalm(states[n - 1], events[n - 1], spreadMs);
    } else {
      InitialInv();
    }
  }

  lemma {:induction false} CalmLeads(s: State, events: seq<Event>, spreadMs: real, t: State)
    requires Calm(s) && Leads(s, events, spreadMs, t)
    requires forall e :: e in events ==> e != ConnectCalled
    ensures Calm(t)
    decreases |events|
  {
    if events != [] {
      assert events[0] in events && forall e :: e in events[1..] ==> e in events;
      StepKeepsCalm(s, events[0], spreadMs);
      CalmLeads(Step(s, events[0], spreadMs), events[1..], spreadMs, t);
    }
  }

  // ----- no weaker guard does -----

  /** Some course without a further `connect()` leaves some promise hung. */
  ghost predicate CanHangAny(s: State, spreadMs: real) {
    exists events, t, k: nat ::
      && Leads(s, events, spreadMs, t)
      && (forall e :: e in events ==> e != ConnectCalled)
      && IsHung(t, k)
  }

  lemma HangsAnyAfter(s: State, e: Event, spreadMs: real)
    requires Inv(s) && Enabled(s, e) && !e.ConnectCalled? && CanHangAny(Step(s, e, spreadMs), spreadMs)
    ensures CanHangAny(s, spreadMs)
  {
    var events, t, k: nat :|
      Leads(Step(s, e, spreadMs), events, spreadMs, t) && (forall x :: x in events ==> x != ConnectCalled) && IsHung(t, k);
    LeadsFrom(s, e, events, spreadMs, t);
  }

  lemma FailsUnreportedAny(s: State, k: nat, draw: Draw, spreadMs: real)
    requires Inv(s) && s.connected && k < |s.sockets| && IsStarting(s.sockets[k])
    ensures CanHangAny(s, spreadMs)
  {
    FailsUnreported(s, k, draw, spreadMs);
    var events, t :| Leads(s, events, spreadMs, t) && (forall e :: e in events ==> IsInternal(e)) && IsHung(t, k);
    assert forall e :: e in events ==> e != ConnectCalled;
  }

  /** Another socket opens while one is starting: the failure of that one is not reported. */
  lemma OpensBeside(s: State, k: nat, j: nat, draw: Draw, spreadMs: real)
    requires Inv(s) && Enabled(s, SocketOpened(k)) && j < |s.sockets| && j != k && IsStarting(s.sockets[j])
    ensures CanHangAny(s, spreadMs)
  {
    OpenedKept(s, k);
    FailsUnreportedAny(OnOpen(s, k), j, draw, spreadMs);
    HangsAnyAfter(s, SocketOpened(k), spreadMs);
  }

  /** A sleeping loop makes its socket beside one that is starting. */
  lemma WakesBeside(s: State, j: nat, draw: Draw, spreadMs: real)
    requires Inv(s) && !s.destroyed && |s.loops| == 1 && s.loops[0].phase == Sleeping
    requires j < |s.sockets| && IsStarting(s.sockets[j])
    ensures CanHangAny(s, spreadMs)
  {
    WokeKept(s, 0);
    OpensBeside(OnWake(s, 0), |s.sockets|, j, draw, spreadMs);
    HangsAnyAfter(s, LoopWoke(0), spreadMs);
  }

  /** `connect()` while an old socket has not closed: the new one is dropped, and the old close starts a loop. */
  lemma ClosesLate(c: State, k: nat, j: nat, draw: Draw, spreadMs: real)
    requires Inv(c) && !c.destroyed && c.loops == [] && c.ws == Some(k) && j != k
    requires k < |c.sockets| && c.sockets[k] == Connecting
    requires j < |c.sockets| && c.sockets[j] in {Open, Closing}
    ensures CanHangAny(c, spreadMs)
  {
    StepKeepsInv(c, LossSimulated, spreadMs);
    var d := LoseConnection(c);
    ClosedKept(d, j, draw, spreadMs);
    var e := OnClose(d, j, spreadMs, draw);
    assert |e.loops| == 1 && e.loops[0].phase == Sleeping;
    WakesBeside(e, k, draw, spreadMs);
    HangsAnyAfter(d, SocketClosed(j, draw), spreadMs);
    HangsAnyAfter(c, LossSimulated, spreadMs);
  }

  /**
   On a calm client the guard is exact: it is idle if and only if no course after the
   call, without a further `connect()`, leaves a connect promise hung.
   */
  lemma IdleConnectSettlesExactly(s: State, draw: Draw, spreadMs: real)
    requires Calm(s)
    ensures IsIdle(s) <==> !CanHangAny(ConnectSocket(s), spreadMs)
  {
    if IsIdle(s) {
      CalmConnect(s);
      forall events, t | Leads(ConnectSocket(s), events, spreadMs, t) && forall e :: e in events ==> e != ConnectCalled
        ensures forall k: nat :: !IsHung(t, k)
      {
        CalmLeads(ConnectSocket(s), events, spreadMs, t);
      }
    } else {
      UnidleConnectHangs(s, draw, spreadMs);
    }
  }

  lemma UnidleConnectHangs(s: State, draw: Draw, spreadMs: real)
    requires Calm(s) && !IsIdle(s)
    ensures CanHangAny(ConnectSocket(s), spreadMs)
  {
    var c, k := ConnectSocket(s), |s.sockets|;
    StepKeepsInv(s, ConnectCalled, spreadMs);
    if j: nat :| j < |s.sockets| && IsStarting(s.sockets[j]) {
      OpensBeside(c, k, j, draw, spreadMs);
    } else if s.loops != [] {
      assert WillRetry(s, s.loops[0]);
      WakesBeside(c, k, draw, spreadMs);
    } else {
      var j: nat :| j < |s.sockets| && s.sockets[j] != Closed;
      ClosesLate(c, k, j, draw, spreadMs);
    }
  }
}
