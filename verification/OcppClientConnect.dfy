/**
 When `connect()` can leave the client without a way back. While a loop runs, or a
 socket is still connecting, the call makes a second socket; when that one opens,
 the client counts as connected, the failure of the other one is then not reported
 to the loop that waits for it (packages/css/src/ocpp-client.ts:382-389), and the
 loop waits for ever. Whether the promise that the call returns is settled is another
 question: OcppClientPromises answers it.
 */
module OcppClientConnect {
  import opened Basics
  import opened ReconnectBackOff
  import opened OcppClientModel
  import opened OcppClientSafety
  import opened OcppClientRecovery

  /** Network events alone lead from `s` to a stuck client. */
  ghost predicate CanGetStuck(s: State, spreadMs: real) {
    exists events, t ::
      && Leads(s, events, spreadMs, t)
      && (forall e :: e in events ==> IsInternal(e))
      && Stuck(t)
  }

  lemma GetsStuckAfter(s: State, e: Event, spreadMs: real)
    requires Inv(s) && Enabled(s, e) && IsInternal(e) && CanGetStuck(Step(s, e, spreadMs), spreadMs)
    ensures CanGetStuck(s, spreadMs)
  {
    var events, t :| Leads(Step(s, e, spreadMs), events, spreadMs, t) && (forall x :: x in events ==> IsInternal(x)) && Stuck(t);
    LeadsFrom(s, e, events, spreadMs, t);
  }

  lemma IsStuck(s: State, spreadMs: real)
    requires Inv(s) && Stuck(s)
    ensures CanGetStuck(s, spreadMs)
  {
    assert Leads(s, [], spreadMs, s);
  }

  /** The loop waits for a socket that can neither open nor fail any more, and the current socket is closed. */
  lemma HungLoopIsStuck(s: State, spreadMs: real)
    requires Inv(s) && !s.destroyed && |s.loops| == 1 && s.ws.Some? && s.sockets[s.ws.value] == Closed
    requires s.loops[0].phase.Awaiting? && !IsStarting(s.sockets[s.loops[0].phase.socket])
    ensures CanGetStuck(s, spreadMs)
  {
    assert !WillRetry(s, s.loops[0]);
    assert forall k: nat :: !WillReconnect(s, k);
    IsStuck(s, spreadMs);
  }

  /** The current socket closes while the loop hangs. */
  lemma HungLoopGetsStuck(s: State, k: nat, draw: Draw, spreadMs: real)
    requires Inv(s) && !s.destroyed && |s.loops| == 1 && s.ws == Some(k) && s.sockets[k] in {Open, Closing}
    requires s.loops[0].phase.Awaiting? && !IsStarting(s.sockets[s.loops[0].phase.socket])
    ensures CanGetStuck(s, spreadMs)
  {
    ClosedKept(s, k, draw, spreadMs);
    HungLoopIsStuck(OnClose(s, k, spreadMs, draw), spreadMs);
    GetsStuckAfter(s, SocketClosed(k, draw), spreadMs);
  }

  /** A failure while the client counts as connected is not reported to the loop. */
  lemma UnreportedFailure(s: State, k: nat, j: nat, draw: Draw, spreadMs: real)
    requires Inv(s) && !s.destroyed && |s.loops| == 1 && s.connected
    requires k < |s.sockets| && s.loops[0].phase == Awaiting(k) && IsStarting(s.sockets[k])
    requires s.ws == Some(j) && (j == k || s.sockets[j] == Open)
    ensures CanGetStuck(s, spreadMs)
  {
    ErroredKept(s, k, draw, spreadMs);
    HungLoopGetsStuck(OnError(s, k, spreadMs, draw), j, draw, spreadMs);
    GetsStuckAfter(s, SocketErrored(k, draw), spreadMs);
  }

  /** A loop that wakes while the client counts as connected. */
  lemma WokenGetsStuck(s: State, draw: Draw, spreadMs: real)
    requires Inv(s) && !s.destroyed && |s.loops| == 1 && s.connected && s.loops[0].phase == Sleeping
    ensures CanGetStuck(s, spreadMs)
  {
    WokeKept(s, 0);
    UnreportedFailure(OnWake(s, 0), |s.sockets|, |s.sockets|, draw, spreadMs);
    GetsStuckAfter(s, LoopWoke(0), spreadMs);
  }

  /** `connect()` while the loop sleeps: the new socket opens before the loop wakes. */
  lemma ConnectWhileSleeping(s: State, draw: Draw, spreadMs: real)
    requires Orderly(s) && s.loops != [] && s.loops[0].phase == Sleeping
    ensures CanGetStuck(ConnectSocket(s), spreadMs)
  {
    var c, k := ConnectSocket(s), |s.sockets|;
    StepKeepsInv(s, ConnectCalled, spreadMs);
    OpenedKept(c, k);
    WokenGetsStuck(OnOpen(c, k), draw, spreadMs);
    GetsStuckAfter(c, SocketOpened(k), spreadMs);
  }

  /** `connect()` while the loop waits for its own socket: the new socket opens before that one fails. */
  lemma ConnectWhileAwaiting(s: State, draw: Draw, spreadMs: real)
    requires Orderly(s) && s.loops != [] && s.loops[0].phase.Awaiting?
    ensures CanGetStuck(ConnectSocket(s), spreadMs)
  {
    var c, k := ConnectSocket(s), |s.sockets|;
    assert WillRetry(s, s.loops[0]);
    StepKeepsInv(s, ConnectCalled, spreadMs);
    OpenedKept(c, k);
    UnreportedFailure(OnOpen(c, k), s.loops[0].phase.socket, k, draw, spreadMs);
    GetsStuckAfter(c, SocketOpened(k), spreadMs);
  }

  /** The new socket fails and closes, which starts a loop; the replaced one opens only then. */
  lemma ReplacedOpensLate(c: State, a: nat, b: nat, draw: Draw, spreadMs: real)
    requires Inv(c) && !c.destroyed && c.loops == [] && a != b
    requires c.ws == Some(b) && b < |c.sockets| && c.sockets[b] == Closing
    requires a < |c.sockets| && c.sockets[a] == Connecting
    ensures CanGetStuck(c, spreadMs)
  {
    ClosedKept(c, b, draw, spreadMs);
    var d := OnClose(c, b, spreadMs, draw);
    assert |d.loops| == 1 && d.loops[0].phase == Sleeping;
    OpenedKept(d, a);
    assert !IsAwaited(d.loops, a);
    WokenGetsStuck(OnOpen(d, a), draw, spreadMs);
    GetsStuckAfter(d, SocketOpened(a), spreadMs);
    GetsStuckAfter(c, SocketClosed(b, draw), spreadMs);
  }

  /** `connect()` while another socket is still connecting. */
  lemma ConnectWhileConnecting(s: State, a: nat, draw: Draw, spreadMs: real)
    requires Orderly(s) && s.loops == [] && a < |s.sockets| && s.sockets[a] == Connecting
    ensures CanGetStuck(ConnectSocket(s), spreadMs)
  {
    var c, b := ConnectSocket(s), |s.sockets|;
    StepKeepsInv(s, ConnectCalled, spreadMs);
    ErroredKept(c, b, draw, spreadMs);
    ReplacedOpensLate(OnError(c, b, spreadMs, draw), a, b, draw, spreadMs);
    GetsStuckAfter(c, SocketErrored(b, draw), spreadMs);
  }

  /**
   In an orderly client the guard of `connect()` excludes exactly getting stuck: it holds
   if and only if no course of the network can leave the client stuck after the call.
   */
  lemma ConnectNeverSticksExactly(s: State, draw: Draw, spreadMs: real)
    requires Orderly(s)
    ensures CanConnect(s) <==> !CanGetStuck(ConnectSocket(s), spreadMs)
  {
    if CanConnect(s) {
      OrderlyConnect(s);
      forall events, t | Leads(ConnectSocket(s), events, spreadMs, t) && forall e :: e in events ==> IsInternal(e)
        ensures !Stuck(t)
      {
        OrderlyLeads(ConnectSocket(s), events, spreadMs, t);
        OrderlyIsNotStuck(t);
      }
    } else if s.loops != [] {
      if s.loops[0].phase.Sleeping? {
        ConnectWhileSleeping(s, draw, spreadMs);
      } else {
        ConnectWhileAwaiting(s, draw, spreadMs);
      }
    } else {
      var a :| 0 <= a < |s.sockets| && s.sockets[a] == Connecting;
      ConnectWhileConnecting(s, a, draw, spreadMs);
    }
  }

  // ----- from the initial state -----

  lemma {:induction false} LeadsOn(s: State, a: seq<Event>, spreadMs: real, t: State, b: seq<Event>, u: State)
    requires Leads(s, a, spreadMs, t) && Leads(t, b, spreadMs, u)
    ensures Leads(s, a + b, spreadMs, u)
    decreases |a|
  {
    if a == [] {
      assert a + b == b;
    } else {
      LeadsOn(Step(s, a[0], spreadMs), a[1..], spreadMs, t, b, u);
      assert (a + b)[1..] == a[1..] + b;
    }
  }

  /** A run that begins with these events, calls `connect()`, and leaves the rest to the network, ends stuck. */
  ghost predicate EndsStuck(begin: seq<Event>, spreadMs: real) {
    exists events, t ::
      && Leads(INITIAL, begin + [ConnectCalled] + events, spreadMs, t)
      && (forall e :: e in events ==> IsInternal(e))
      && Stuck(t)
  }

  lemma BeginsStuckRun(begin: seq<Event>, s: State, spreadMs: real)
    requires Leads(INITIAL, begin, spreadMs, s) && Inv(s) && CanGetStuck(ConnectSocket(s), spreadMs)
    ensures EndsStuck(begin, spreadMs)
  {
    var events, t :| Leads(ConnectSocket(s), events, spreadMs, t) && (forall e :: e in events ==> IsInternal(e)) && Stuck(t);
    LeadsFrom(s, ConnectCalled, events, spreadMs, t);
    LeadsOn(INITIAL, begin, spreadMs, s, [ConnectCalled] + events, t);
    assert begin + ([ConnectCalled] + events) == begin + [ConnectCalled] + events;
  }

  lemma Reaches(begin: seq<Event>, s: State, e: Event, spreadMs: real)
    requires Leads(INITIAL, begin, spreadMs, s) && Orderly(s) && Enabled(s, e) && (e.ConnectCalled? ==> CanConnect(s))
    ensures Leads(INITIAL, begin + [e], spreadMs, Step(s, e, spreadMs)) && Orderly(Step(s, e, spreadMs))
  {
    StepKeepsOrderly(s, e, spreadMs);
    assert Leads(Step(s, e, spreadMs), [], spreadMs, Step(s, e, spreadMs));
    LeadsFrom(s, e, [], spreadMs, Step(s, e, spreadMs));
    assert [e] + [] == [e];
    LeadsOn(INITIAL, begin, spreadMs, s, [e], Step(s, e, spreadMs));
  }

  /** The first `connect()`. */
  lemma FirstConnect(spreadMs: real) returns (s: State)
    ensures s == ConnectSocket(INITIAL) && Orderly(s) && Leads(INITIAL, [ConnectCalled], spreadMs, s)
  {
    s := ConnectSocket(INITIAL);
    InitialInv();
    OrderlyConnect(INITIAL);
    assert Leads(s, [], spreadMs, s);
    LeadsFrom(INITIAL, ConnectCalled, [], spreadMs, s);
    assert [ConnectCalled] + [] == [ConnectCalled];
  }

  /** The first connection fails: the loop sleeps. */
  lemma FirstFailure(draw: Draw, spreadMs: real) returns (s: State)
    ensures Orderly(s) && |s.loops| == 1 && s.loops[0].phase == Sleeping && !s.destroyed
    ensures Leads(INITIAL, [ConnectCalled, SocketErrored(0, draw), SocketClosed(0, draw)], spreadMs, s)
  {
    s := FirstConnect(spreadMs);
    Reaches([ConnectCalled], s, SocketErrored(0, draw), spreadMs);
    s := Step(s, SocketErrored(0, draw), spreadMs);
    assert [ConnectCalled] + [SocketErrored(0, draw)] == [ConnectCalled, SocketErrored(0, draw)];
    Reaches([ConnectCalled, SocketErrored(0, draw)], s, SocketClosed(0, draw), spreadMs);
    s := Step(s, SocketClosed(0, draw), spreadMs);
    assert [ConnectCalled, SocketErrored(0, draw)] + [SocketClosed(0, draw)]
        == [ConnectCalled, SocketErrored(0, draw), SocketClosed(0, draw)];
  }

  /** A second `connect()` before the first one has opened can leave the client stuck. */
  lemma StuckRunWhileConnecting(draw: Draw, spreadMs: real)
    ensures EndsStuck([ConnectCalled], spreadMs)
  {
    var s := FirstConnect(spreadMs);
    ConnectWhileConnecting(s, 0, draw, spreadMs);
    BeginsStuckRun([ConnectCalled], s, spreadMs);
  }

  /** So can a `connect()` after the first one failed, while the loop sleeps. */
  lemma StuckRunWhileSleeping(draw: Draw, spreadMs: real)
    ensures EndsStuck([ConnectCalled, SocketErrored(0, draw), SocketClosed(0, draw)], spreadMs)
  {
    var s := FirstFailure(draw, spreadMs);
    ConnectWhileSleeping(s, draw, spreadMs);
    BeginsStuckRun([ConnectCalled, SocketErrored(0, draw), SocketClosed(0, draw)], s, spreadMs);
  }

  /** And one while the loop waits for its own socket. */
  lemma StuckRunWhileAwaiting(draw: Draw, spreadMs: real)
    ensures EndsStuck([ConnectCalled, SocketErrored(0, draw), SocketClosed(0, draw), LoopWoke(0)], spreadMs)
  {
    var failed := [ConnectCalled, SocketErrored(0, draw), SocketClosed(0, draw)];
    var s := FirstFailure(draw, spreadMs);
    Reaches(failed, s, LoopWoke(0), spreadMs);
    s := Step(s, LoopWoke(0), spreadMs);
    assert failed + [LoopWoke(0)] == [ConnectCalled, SocketErrored(0, draw), SocketClosed(0, draw), LoopWoke(0)];
    ConnectWhileAwaiting(s, draw, spreadMs);
    BeginsStuckRun([ConnectCalled, SocketErrored(0, draw), SocketClosed(0, draw), LoopWoke(0)], s, spreadMs);
  }
}
