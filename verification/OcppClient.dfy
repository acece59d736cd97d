/**
 The client object itself: fields updated in place by the methods and socket
 handlers of packages/css/src/ocpp-client.ts:183-575. Each method is one event of
 the machine in OcppClientModel and does exactly its step.
 */
module OcppClientObject {
  import opened Basics
  import opened ReconnectBackOff
  import opened OcppClientModel
  import opened OcppClientSafety

  class OcppClient {
    var pending: set<string>
    var timers: set<string>
    var calls: map<string, Outcome>
    var connected: bool
    var destroyed: bool
    var reconnecting: bool
    var ws: Option<nat>
    var firstReconnectDelayMs: Option<real>
    var sockets: seq<Socket>
    var connects: seq<Connect>
    var loops: seq<Loop>
    const reconnectSpreadMs: real

    function State(): State
      reads this
    {
      OcppClientModel.State.State(
        pending, timers, calls, connected, destroyed, reconnecting, ws, firstReconnectDelayMs, sockets, connects, loops)
    }

    ghost predicate Valid()
      reads this
    {
      Inv(State())
    }

    constructor (spreadMs: real)
      ensures State() == INITIAL && Valid() && reconnectSpreadMs == spreadMs
    {
      pending, timers, calls := {}, {}, map[];
      connected, destroyed, reconnecting := false, false, false;
      ws, firstReconnectDelayMs := None, None;
      sockets, connects, loops := [], [], [];
      reconnectSpreadMs := spreadMs;
      new;
      InitialInv();
    }

    method Settle(id: string, outcome: Outcome)
      modifies this`calls
      ensures calls == OcppClientModel.Settle(old(calls), id, outcome)
    {
      if id in calls && calls[id] == Unsettled {
        calls := calls[id := outcome];
      }
    }

    /** The loop over the pending map that `disconnect`, a connection loss and `reconnect` share. */
    method RejectAll(reason: Reason)
      modifies this`pending, this`timers, this`calls
      ensures State() == RejectPending(old(State()), reason)
    {
      while pending != {}
        invariant pending <= old(pending)
        invariant timers == old(timers) - (old(pending) - pending)
        invariant calls.Keys == old(calls).Keys
        invariant forall id :: id in calls ==>
                    calls[id] == (if id in old(pending) - pending && old(calls)[id] == Unsettled then Rejected(reason) else old(calls)[id])
      {
        SomeString(pending);
        var id :| id in pending;
        timers := timers - {id};
        Settle(id, Rejected(reason));
        pending := pending - {id};
      }
    }

    method SendCall(id: string, wire: WirePayload)
      requires Valid() && Enabled(State(), Call(id, wire))
      modifies this
      ensures State() == Step(old(State()), Call(id, wire), reconnectSpreadMs) && Valid()
    {
      CallEventKept(State(), Call(id, wire), reconnectSpreadMs);
      if OpenSocket(State()).None? {
        calls := calls[id := Rejected(NotConnected)];
        return;
      }
      match wire {
        case Undefined => calls := calls[id := Rejected(NotInProtocol)];
        case NothingToSend => calls := calls[id := Resolved("{}")];
        case Sendable =>
          calls := calls[id := Unsettled];
          timers := timers + {id};
          pending := pending + {id};
      }
    }

    method HandleResult(id: string, payload: string)
      requires Valid()
      modifies this
      ensures State() == Step(old(State()), Result(id, payload), reconnectSpreadMs) && Valid()
    {
      CallEventKept(State(), Result(id, payload), reconnectSpreadMs);
      if id in pending {
        timers := timers - {id};
        pending := pending - {id};
        Settle(id, Resolved(payload));
      }
    }

    method HandleCallError(id: string, code: string, description: string)
      requires Valid()
      modifies this
      ensures State() == Step(old(State()), CallError(id, code, description), reconnectSpreadMs) && Valid()
    {
      CallEventKept(State(), CallError(id, code, description), reconnectSpreadMs);
      if id in pending {
        timers := timers - {id};
        pending := pending - {id};
        Settle(id, Rejected(CallErrorReply(code, description)));
      }
    }

    /** The call's own timer after CALL_TIMEOUT_MS. */
    method OnTimeout(id: string)
      requires Valid() && Enabled(State(), TimerFired(id))
      modifies this
      ensures State() == Step(old(State()), TimerFired(id), reconnectSpreadMs) && Valid()
    {
      CallEventKept(State(), TimerFired(id), reconnectSpreadMs);
      timers := timers - {id};
      pending := pending - {id};
      Settle(id, Rejected(Timeout));
    }

    /** The callback of `ws.send` reports an error. */
    method OnSendError(id: string)
      requires Valid() && Enabled(State(), SendError(id))
      modifies this
      ensures State() == Step(old(State()), SendError(id), reconnectSpreadMs) && Valid()
    {
      CallEventKept(State(), SendError(id), reconnectSpreadMs);
      timers := timers - {id};
      pending := pending - {id};
      Settle(id, Rejected(SendFailed));
    }

    method Connect()
      requires Valid()
      modifies this
      ensures State() == Step(old(State()), ConnectCalled, reconnectSpreadMs) && Valid()
    {
      CommandKept(State(), ConnectCalled, reconnectSpreadMs);
      OpenNewSocket();
    }

    method OpenNewSocket()
      modifies this`destroyed, this`ws, this`sockets, this`connects
      ensures State() == ConnectSocket(old(State()))
    {
      destroyed := false;
      ws := Some(|sockets|);
      sockets := sockets + [Connecting];
      connects := connects + [Pending];
    }

    method CloseCurrentSocket()
      modifies this`ws, this`sockets
      ensures State() == DropSocket(old(State()))
    {
      if ws.Some? && ws.value < |sockets| {
        sockets := sockets[ws.value := CloseSocket(sockets[ws.value])];
        ws := None;
      }
    }

    method Disconnect()
      requires Valid()
      modifies this
      ensures State() == Step(old(State()), DisconnectCalled, reconnectSpreadMs) && Valid()
    {
      CommandKept(State(), DisconnectCalled, reconnectSpreadMs);
      destroyed := true;
      RejectAll(ClientDisconnected);
      CloseCurrentSocket();
    }

    method SimulateConnectionLoss()
      requires Valid()
      modifies this
      ensures State() == Step(old(State()), LossSimulated, reconnectSpreadMs) && Valid()
    {
      CommandKept(State(), LossSimulated, reconnectSpreadMs);
      RejectAll(ConnectionLost);
      CloseCurrentSocket();
    }

    method ReconnectNow(delayMs: real)
      requires Valid()
      modifies this
      ensures State() == Step(old(State()), ReconnectNowCalled(delayMs), reconnectSpreadMs) && Valid()
    {
      CommandKept(State(), ReconnectNowCalled(delayMs), reconnectSpreadMs);
      if ws.None? {
        return;
      }
      firstReconnectDelayMs := Some(if delayMs > 0.0 then delayMs else 0.0);
      SimulateConnectionLoss();
    }

    method OnOpen(k: nat)
      requires Valid() && Enabled(State(), SocketOpened(k))
      modifies this
      ensures State() == Step(old(State()), SocketOpened(k), reconnectSpreadMs) && Valid()
    {
      OpenedKept(State(), k);
      sockets := sockets[k := Open];
      connected := true;
      if connects[k] == Pending {
        connects := connects[k := Done];
        if IsAwaited(loops, k) {
          reconnecting := false;
          loops := Without(loops, k);
        }
      }
    }

    method OnError(k: nat, draw: Draw)
      requires Valid() && Enabled(State(), SocketErrored(k, draw))
      modifies this
      ensures State() == Step(old(State()), SocketErrored(k, draw), reconnectSpreadMs) && Valid()
    {
      ErroredKept(State(), k, draw, reconnectSpreadMs);
      sockets := sockets[k := Closing];
      if !connected && connects[k] == Pending {
        connects := connects[k := Failed];
        if IsAwaited(loops, k) {
          if destroyed {
            reconnecting := false;
            loops := Without(loops, k);
          } else {
            loops := Retry(loops, k, reconnectSpreadMs, draw);
          }
        }
      }
    }

    method OnClose(k: nat, draw: Draw)
      requires Valid() && Enabled(State(), SocketClosed(k, draw))
      modifies this
      ensures State() == Step(old(State()), SocketClosed(k, draw), reconnectSpreadMs) && Valid()
    {
      ClosedKept(State(), k, draw, reconnectSpreadMs);
      sockets := sockets[k := Closed];
      if ws.Some? && ws.value != k {
        return;
      }
      connected := false;
      if !destroyed {
        Reconnect(draw);
      }
    }

    /** The loop up to its first wait. */
    method Reconnect(draw: Draw)
      modifies this
      ensures State() == StartLoop(old(State()), reconnectSpreadMs, draw)
    {
      if reconnecting {
        return;
      }
      reconnecting := true;
      RejectAll(ClosedDuringReconnect);
      var firstDelayMs := firstReconnectDelayMs;
      firstReconnectDelayMs := None;
      loops := loops + [NextWait(Loop(0, 0, firstDelayMs, [], Sleeping), reconnectSpreadMs, draw)];
    }

    /** The loop after its wait. */
    method OnWake(i: nat)
      requires Valid() && Enabled(State(), LoopWoke(i))
      modifies this
      ensures State() == Step(old(State()), LoopWoke(i), reconnectSpreadMs) && Valid()
    {
      WokeKept(State(), i);
      if destroyed {
        reconnecting := false;
        loops := loops[..i] + loops[i + 1..];
        return;
      }
      loops := loops[i := loops[i].(phase := Awaiting(|sockets|))];
      OpenNewSocket();
    }
  }
}
