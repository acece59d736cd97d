/**
 What becomes of a call, from the moment it is sent to its outcome, over every run
 (packages/css/src/ocpp-client.ts:409-526, 588-613).
 */
module OcppClientCalls {
  import opened Basics
  import opened OcppClientModel
  import opened OcppClientSafety

  // ----- sending -----

  /** The client counts as connected and its current socket is open. */
  predicate IsOpen(s: State) {
    s.connected && s.ws.Some? && s.ws.value < |s.sockets| && s.sockets[s.ws.value] == Open
  }

  /** The call waits for an answer: its promise is unsettled, it is pending and its timer runs. */
  predicate Waits(s: State, id: string) {
    id in s.calls && s.calls[id] == Unsettled && id in s.pending && id in s.timers
  }

  /** The call has its outcome, and nothing is kept for it. */
  predicate IsOver(s: State, id: string, outcome: Outcome) {
    id in s.calls && s.calls[id] == outcome && outcome != Unsettled && id !in s.pending && id !in s.timers
  }

  /** Every other call, and the connection, is as before. */
  ghost predicate OthersKept(s: State, t: State, id: string) {
    && t.calls.Keys == s.calls.Keys + {id}
    && (forall x :: x in s.calls && x != id ==>
          t.calls[x] == s.calls[x] && (x in t.pending <==> x in s.pending) && (x in t.timers <==> x in s.timers))
    && t.sockets == s.sockets && t.connects == s.connects && t.loops == s.loops && t.ws == s.ws
    && t.connected == s.connected && t.destroyed == s.destroyed
  }

  /**
   A new call waits exactly when it can be sent and the client has an open connection.
   Without one it is rejected, whatever it carries; with one, a message that the
   protocol does not define is rejected, and one of which nothing exists in it is
   resolved with the empty answer.
   */
  lemma CallIsSent(s: State, id: string, wire: WirePayload, spreadMs: real)
    requires Inv(s) && Enabled(s, Call(id, wire))
    ensures var t := Step(s, Call(id, wire), spreadMs);
            && OthersKept(s, t, id)
            && (Waits(t, id) <==> IsOpen(s) && wire.Sendable?)
            && (!IsOpen(s) ==> IsOver(t, id, Rejected(NotConnected)))
            && (IsOpen(s) && wire.Undefined? ==> IsOver(t, id, Rejected(NotInProtocol)))
            && (IsOpen(s) && wire.NothingToSend? ==> IsOver(t, id, Resolved("{}")))
  {
  }

  /** The event ends the current socket, or drops it. */
  predicate EndsConnection(s: State, e: Event) {
    match e
    case SocketEnding(k) => s.ws == Some(k)
    case SocketErrored(k, _) => s.ws == Some(k)
    case SocketClosed(k, _) => s.ws == Some(k)
    case DisconnectCalled => true
    case LossSimulated => true
    case ReconnectNowCalled(_) => true
    case _ => false
  }

  /** From the moment the current socket is ending, even before it has closed, no call is sent. */
  lemma EndedIsNotOpen(s: State, e: Event, spreadMs: real)
    requires Inv(s) && Enabled(s, e) && EndsConnection(s, e)
    ensures !IsOpen(Step(s, e, spreadMs))
  {
    match e
    case SocketErrored(_, _) =>
    case SocketClosed(_, _) =>
    case _ =>
  }

  // ----- settling -----

  /** The close of a socket that is handled by a client that may reconnect and is not reconnecting yet. */
  predicate StartsReconnecting(s: State, k: nat) {
    (s.ws.None? || s.ws.value == k) && !s.destroyed && s.loops == []
  }

  /** What an event makes of a waiting call: its outcome, or none when the call goes on waiting. */
  function OutcomeBy(s: State, e: Event, id: string): Option<Outcome> {
    match e
    case Result(x, payload) => if x == id then Some(Resolved(payload)) else None
    case CallError(x, code, description) => if x == id then Some(Rejected(CallErrorReply(code, description))) else None
    case TimerFired(x) => if x == id then Some(Rejected(Timeout)) else None
    case SendError(x) => if x == id then Some(Rejected(SendFailed)) else None
    case DisconnectCalled => Some(Rejected(ClientDisconnected))
    case LossSimulated => Some(Rejected(ConnectionLost))
    case ReconnectNowCalled(_) => if s.ws.Some? then Some(Rejected(ConnectionLost)) else None
    case SocketClosed(k, _) => if StartsReconnecting(s, k) then Some(Rejected(ClosedDuringReconnect)) else None
    case _ => None
  }

  /** One event settles a waiting call as it says, or leaves it waiting. */
  lemma WaitingStep(s: State, e: Event, spreadMs: real, id: string)
    requires Inv(s) && Enabled(s, e) && Waits(s, id)
    ensures var t := Step(s, e, spreadMs);
            match OutcomeBy(s, e, id)
            case Some(outcome) => IsOver(t, id, outcome)
            case None => Waits(t, id)
  {
    StepKeepsInv(s, e, spreadMs);
    match e
    case SocketOpened(_) =>
    case SocketErrored(_, _) =>
    case SocketClosed(_, _) =>
    case LoopWoke(_) =>
    case Call(_, _) =>
    case _ => WaitingElse(s, e, spreadMs, id);
  }

  lemma WaitingElse(s: State, e: Event, spreadMs: real, id: string)
    requires Inv(s) && Enabled(s, e) && Waits(s, id) && Inv(Step(s, e, spreadMs))
    requires !e.SocketOpened? && !e.SocketErrored? && !e.SocketClosed? && !e.LoopWoke? && !e.Call?
    ensures var t := Step(s, e, spreadMs);
            match OutcomeBy(s, e, id)
            case Some(outcome) => IsOver(t, id, outcome)
            case None => Waits(t, id)
  {
  }

  /** Call `id` is sent on an open connection in step `m`, and nothing before step `n` settles it. */
  ghost predicate SentAndWaiting(states: seq<State>, events: seq<Event>, m: nat, n: nat, id: string) {
    && m < n <= |events| < |states|
    && IsOpen(states[m]) && events[m] == Call(id, Sendable)
    && forall k :: m < k < n ==> OutcomeBy(states[k], events[k], id) == None
  }

  /** In every run a call that was sent waits until something settles it. */
  lemma {:induction false} SentCallWaits(states: seq<State>, events: seq<Event>, spreadMs: real, m: nat, n: nat, id: string)
    requires IsRun(states, events, spreadMs) && SentAndWaiting(states, events, m, n, id)
    ensures Waits(states[n], id)
    decreases n
  {
    RunKeepsInv(states, events, spreadMs, n - 1);
    if n == m + 1 {
      CallIsSent(states[m], id, Sendable, spreadMs);
    } else {
      SentCallWaits(states, events, spreadMs, m, n - 1, id);
      WaitingStep(states[n - 1], events[n - 1], spreadMs, id);
    }
  }

  /**
   In every run the first event that settles a call that was sent decides its outcome for
   good: a CALLRESULT that comes first resolves it with exactly its payload.
   */
  lemma FirstEventDecides(states: seq<State>, events: seq<Event>, spreadMs: real, m: nat, n: nat, q: nat, id: string)
    requires IsRun(states, events, spreadMs) && n < q < |states|
    requires SentAndWaiting(states, events, m, n, id) && OutcomeBy(states[n], events[n], id).Some?
    ensures id in states[q].calls && Some(states[q].calls[id]) == OutcomeBy(states[n], events[n], id)
    ensures events[n].Result? ==> states[q].calls[id] == Resolved(events[n].payload)
  {
    RunKeepsInv(states, events, spreadMs, n);
    SentCallWaits(states, events, spreadMs, m, n, id);
    WaitingStep(states[n], events[n], spreadMs, id);
    SettledOnce(states, events, spreadMs, id, n + 1, q);
  }

  // ----- causes -----

  /** The outcome that a new call has at once, if any. */
  function OutcomeAtOnce(s: State, wire: WirePayload): Option<Outcome> {
    if !IsOpen(s) then Some(Rejected(NotConnected))
    else match wire
      case Sendable => None
      case NothingToSend => Some(Resolved("{}"))
      case Undefined => Some(Rejected(NotInProtocol))
  }

  /** Step `m` of the run gave the call its outcome: it was refused or answered at once, or settled while it waited. */
  ghost predicate Decided(states: seq<State>, events: seq<Event>, m: nat, id: string, outcome: Outcome) {
    && m < |events| && m < |states|
    && if events[m].Call? && events[m].id == id then OutcomeAtOnce(states[m], events[m].wire) == Some(outcome)
       else Waits(states[m], id) && OutcomeBy(states[m], events[m], id) == Some(outcome)
  }

  lemma NewOutcome(s: State, e: Event, spreadMs: real, id: string)
    requires Inv(s) && Enabled(s, e)
    ensures var t := Step(s, e, spreadMs);
            id in t.calls && t.calls[id] != Unsettled && (id in s.calls ==> s.calls[id] == Unsettled) ==>
              if e.Call? && e.id == id then OutcomeAtOnce(s, e.wire) == Some(t.calls[id])
              else Waits(s, id) && OutcomeBy(s, e, id) == Some(t.calls[id])
  {
    if id in s.calls && s.calls[id] == Unsettled {
      WaitingStep(s, e, spreadMs, id);
    } else if e.Call? {
      CallIsSent(s, e.id, e.wire, spreadMs);
    } else {
      SameIds(s, e, spreadMs);
    }
  }

  lemma SameIds(s: State, e: Event, spreadMs: real)
    requires Inv(s) && Enabled(s, e) && !e.Call?
    ensures Step(s, e, spreadMs).calls.Keys == s.calls.Keys
  {
    match e
    case SocketOpened(_) =>
    case SocketErrored(_, _) =>
    case SocketClosed(_, _) =>
    case LoopWoke(_) =>
    case _ =>
  }

  /** In every run each outcome has its cause: no call is resolved, or rejected, for any other reason. */
  lemma {:induction false} OutcomeHasCause(states: seq<State>, events: seq<Event>, spreadMs: real, n: nat, id: string)
    returns (m: nat)
    requires IsRun(states, events, spreadMs) && n < |states|
    requires id in states[n].calls && states[n].calls[id] != Unsettled
    ensures m < n && Decided(states, events, m, id, states[n].calls[id])
  {
    if n == 0 {
      assert false;
    } else {
      RunKeepsInv(states, events, spreadMs, n - 1);
      NewOutcome(states[n - 1], events[n - 1], spreadMs, id);
      if id in states[n - 1].calls && states[n - 1].calls[id] != Unsettled {
        SettledStays(states[n - 1], events[n - 1], spreadMs, id);
        m := OutcomeHasCause(states, events, spreadMs, n - 1, id);
      } else {
        m := n - 1;
      }
    }
  }
}
