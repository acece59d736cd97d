/**
 What every run of the OCPP client keeps, over all interleavings of events: a
 call is settled once, there is one reconnect loop, and a replaced socket changes
 nothing.
 */
module OcppClientSafety {
  import opened ReconnectBackOff
  import opened OcppClientModel

  // ----- the invariant -----

  lemma InitialInv()
    ensures Inv(INITIAL)
  {
  }

  lemma {:induction false} WithoutFewer(loops: seq<Loop>, k: nat)
    ensures |Without(loops, k)| <= |loops|
    ensures IsAwaited(loops, k) ==> |Without(loops, k)| < |loops|
    ensures forall loop :: loop in Without(loops, k) ==> loop in loops
  {
    if loops != [] {
      WithoutFewer(loops[1..], k);
      if IsAwaited(loops, k) && loops[0].phase != Awaiting(k) {
        var i :| 0 <= i < |loops| && loops[i].phase == Awaiting(k);
        assert loops[1..][i - 1].phase == Awaiting(k);
      }
    }
  }

  /** One loop that is awaited leaves none when it is done. */
  lemma WithoutOne(loops: seq<Loop>, k: nat)
    requires |loops| <= 1 && IsAwaited(loops, k)
    ensures |loops| == 1 && Without(loops, k) == []
  {
    WithoutFewer(loops, k);
  }

  lemma RejectKept(s: State, reason: Reason)
    requires CallInv(s)
    ensures var r := RejectPending(s, reason);
            CallInv(r) && r.timers == {} && forall id :: id in r.calls ==> r.calls[id] != Unsettled
  {
    assert s.timers - s.pending == {};
  }

  lemma FinishKept(s: State, id: string, outcome: Outcome)
    requires CallInv(s) && id in s.calls && outcome != Unsettled
    ensures CallInv(Finish(s, id, outcome))
  {
  }

  lemma CallEventCalls(s: State, e: Event, spreadMs: real)
    requires Inv(s) && Enabled(s, e)
    requires e.Call? || e.Result? || e.CallError? || e.TimerFired? || e.SendError?
    ensures CallInv(Step(s, e, spreadMs))
  {
    match e
    case Call(_, _) =>
    case Result(id, payload) => if id in s.pending { FinishKept(s, id, Resolved(payload)); }
    case CallError(id, code, text) => if id in s.pending { FinishKept(s, id, Rejected(CallErrorReply(code, text))); }
    case TimerFired(id) => FinishKept(s, id, Rejected(Timeout));
    case SendError(id) => FinishKept(s, id, Rejected(SendFailed));
  }

  lemma CommandCalls(s: State, e: Event, spreadMs: real)
    requires Inv(s) && Enabled(s, e)
    requires e.ConnectCalled? || e.DisconnectCalled? || e.LossSimulated? || e.ReconnectNowCalled? || e.SocketEnding?
    ensures CallInv(Step(s, e, spreadMs))
  {
    match e
    case DisconnectCalled => RejectKept(s.(destroyed := true), ClientDisconnected);
    case LossSimulated => RejectKept(s, ConnectionLost);
    case ReconnectNowCalled(_) => RejectKept(s, ConnectionLost);
    case ConnectCalled =>
    case SocketEnding(_) =>
  }

  /** Connecting, and the calls, touch no loop. */
  lemma CallEventKept(s: State, e: Event, spreadMs: real)
    requires Inv(s) && Enabled(s, e)
    requires e.Call? || e.Result? || e.CallError? || e.TimerFired? || e.SendError?
    ensures Inv(Step(s, e, spreadMs))
  {
    CallEventCalls(s, e, spreadMs);
  }

  lemma CommandKept(s: State, e: Event, spreadMs: real)
    requires Inv(s) && Enabled(s, e)
    requires e.ConnectCalled? || e.DisconnectCalled? || e.LossSimulated? || e.ReconnectNowCalled? || e.SocketEnding?
    ensures Inv(Step(s, e, spreadMs))
  {
    CommandCalls(s, e, spreadMs);
  }

  lemma OpenedKept(s: State, k: nat)
    requires Inv(s) && Enabled(s, SocketOpened(k))
    ensures Inv(OnOpen(s, k))
  {
    if IsAwaited(s.loops, k) {
      WithoutOne(s.loops, k);
    }
  }

  lemma ErroredKept(s: State, k: nat, draw: Draw, spreadMs: real)
    requires Inv(s) && Enabled(s, SocketErrored(k, draw))
    ensures Inv(OnError(s, k, spreadMs, draw))
  {
    if IsAwaited(s.loops, k) {
      WithoutOne(s.loops, k);
    }
  }

  lemma ClosedKept(s: State, k: nat, draw: Draw, spreadMs: real)
    requires Inv(s) && Enabled(s, SocketClosed(k, draw))
    ensures Inv(OnClose(s, k, spreadMs, draw))
  {
    RejectKept(s, ClosedDuringReconnect);
  }

  lemma WokeKept(s: State, i: nat)
    requires Inv(s) && Enabled(s, LoopWoke(i))
    ensures Inv(OnWake(s, i))
  {
  }

  /** Every event keeps the invariant. */
  lemma StepKeepsInv(s: State, e: Event, spreadMs: real)
    requires Inv(s) && Enabled(s, e)
    ensures Inv(Step(s, e, spreadMs))
  {
    match e
    case SocketOpened(k) => OpenedKept(s, k);
    case SocketErrored(k, draw) => ErroredKept(s, k, draw, spreadMs);
    case SocketClosed(k, draw) => ClosedKept(s, k, draw, spreadMs);
    case LoopWoke(i) => WokeKept(s, i);
    case Call(_, _) => CallEventKept(s, e, spreadMs);
    case Result(_, _) => CallEventKept(s, e, spreadMs);
    case CallError(_, _, _) => CallEventKept(s, e, spreadMs);
    case TimerFired(_) => CallEventKept(s, e, spreadMs);
    case SendError(_) => CallEventKept(s, e, spreadMs);
    case _ => CommandKept(s, e, spreadMs);
  }

  /** Every state of every run satisfies the invariant. */
  lemma {:induction false} RunKeepsInv(states: seq<State>, events: seq<Event>, spreadMs: real, n: nat)
    requires IsRun(states, events, spreadMs) && n < |states|
    ensures Inv(states[n])
  {
    if n == 0 {
      InitialInv();
    } else {
      RunKeepsInv(states, events, spreadMs, n - 1);
      StepKeepsInv(states[n - 1], events[n - 1], spreadMs);
    }
  }

  // ----- calls -----

  /** A settled call keeps its outcome, whatever happens later. */
  lemma SettledStays(s: State, e: Event, spreadMs: real, id: string)
    requires Inv(s) && Enabled(s, e)
    requires id in s.calls && s.calls[id] != Unsettled
    ensures var s' := Step(s, e, spreadMs); id in s'.calls && s'.calls[id] == s.calls[id]
  {
    match e
    case SocketOpened(_) =>
    case SocketErrored(_, _) =>
    case SocketClosed(_, _) =>
    case LoopWoke(_) =>
    case _ =>
  }

  /** Over a run a call is settled at most once. */
  lemma {:induction false} SettledOnce(states: seq<State>, events: seq<Event>, spreadMs: real, id: string, m: nat, n: nat)
    requires IsRun(states, events, spreadMs) && m <= n < |states|
    requires id in states[m].calls && states[m].calls[id] != Unsettled
    ensures id in states[n].calls && states[n].calls[id] == states[m].calls[id]
    decreases n
  {
    if m < n {
      SettledOnce(states, events, spreadMs, id, m, n - 1);
      RunKeepsInv(states, events, spreadMs, n - 1);
      SettledStays(states[n - 1], events[n - 1], spreadMs, id);
    }
  }

  function OutcomeOf(e: Event): Outcome
    requires e.Result? || e.CallError?
  {
    if e.Result? then Resolved(e.payload) else Rejected(CallErrorReply(e.code, e.description))
  }

  /** An answer settles the pending call with its own id, and no other call. */
  lemma AnswerSettlesOwnCall(s: State, e: Event, spreadMs: real)
    requires Inv(s) && (e.Result? || e.CallError?)
    ensures var s' := Step(s, e, spreadMs);
            && (e.id in s.pending ==> s'.calls[e.id] == OutcomeOf(e))
            && (forall id :: id in s.calls && (id != e.id || id !in s.pending) ==>
                  (id in s'.calls && s'.calls[id] == s.calls[id]))
            && (e.id !in s.pending ==> s' == s)
  {
  }

  /** A disconnect, a simulated loss and the start of a reconnect loop leave no call unsettled. */
  lemma NothingLeftUnsettled(s: State, e: Event, spreadMs: real)
    requires Inv(s) && Enabled(s, e)
    requires || e.DisconnectCalled? || e.LossSimulated?
             || (e.ReconnectNowCalled? && s.ws.Some?)
             || (!s.reconnecting && Step(s, e, spreadMs).reconnecting)
    ensures var s' := Step(s, e, spreadMs);
            s'.pending == {} && s'.timers == {} && forall id :: id in s'.calls ==> s'.calls[id] != Unsettled
  {
    StepKeepsInv(s, e, spreadMs);
    match e
    case SocketOpened(_) =>
    case SocketErrored(_, _) =>
    case LoopWoke(_) =>
    case _ =>
  }

  // ----- a replaced socket -----

  /** The late close of a socket that was replaced changes nothing but that socket. */
  lemma ReplacedCloseIgnored(s: State, k: nat, spreadMs: real, draw: Draw)
    requires Inv(s) && Enabled(s, SocketClosed(k, draw))
    requires s.ws.Some? && s.ws.value != k
    ensures OnClose(s, k, spreadMs, draw) == s.(sockets := s.sockets[k := Closed])
    ensures OpenSocket(OnClose(s, k, spreadMs, draw)) == OpenSocket(s)
  {
  }
}
