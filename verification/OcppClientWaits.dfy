/**
 The waits of the reconnect loop over whole runs of the client
 (packages/css/src/ocpp-client.ts:528-551): each one is drawn for the back-off
 attempt it belongs to, and the attempt after `reconnectNow()` is not one of them.
 */
module OcppClientWaits {
  import opened Basics
  import opened ReconnectBackOff
  import opened OcppClientModel
  import opened OcppClientSafety

  /** How many attempts of the loop are no back-off attempts. */
  function Uncounted(loop: Loop): nat {
    if loop.firstDelayMs.Some? then 1 else 0
  }

  /** The first wait is the one `reconnectNow()` asked for, if it did; every other one is drawn for its attempt. */
  ghost predicate WaitsAreDrawn(loop: Loop, spreadMs: real, backOff: Option<BackOff>) {
    && (loop.firstDelayMs.Some? && loop.waits != [] ==> loop.waits[0] == loop.firstDelayMs.value)
    && (forall i :: Uncounted(loop) <= i < |loop.waits| ==> IsDrawn(loop.waits[i], i - Uncounted(loop), spreadMs, backOff))
  }

  ghost predicate AllWaitsAreDrawn(s: State, spreadMs: real, backOff: Option<BackOff>) {
    forall i :: 0 <= i < |s.loops| ==> WaitsAreDrawn(s.loops[i], spreadMs, backOff)
  }

  /** A draw, of the given back-off if one is given. */
  predicate IsDrawOf(draw: Draw, backOff: Option<BackOff>) {
    IsDraw(draw) && (backOff.Some? ==> draw.backOff == backOff)
  }

  /** The draws of an event are draws. */
  predicate FairDraw(e: Event, backOff: Option<BackOff>) {
    match e
    case SocketErrored(_, draw) => IsDrawOf(draw, backOff)
    case SocketClosed(_, draw) => IsDrawOf(draw, backOff)
    case _ => true
  }

  /** One more turn logs one more wait of the right attempt. */
  lemma NextWaitIsDrawn(loop: Loop, spreadMs: real, backOff: Option<BackOff>, draw: Draw)
    requires IsDrawOf(draw, backOff) && WaitsAreDrawn(loop, spreadMs, backOff) && |loop.waits| == loop.attempt
    requires if loop.attempt == 0 then loop.backOffAttempts == 0 else loop.attempt == loop.backOffAttempts + Uncounted(loop)
    ensures WaitsAreDrawn(NextWait(loop, spreadMs, draw), spreadMs, backOff)
  {
    var next := NextWait(loop, spreadMs, draw);
    assert next.waits[..|loop.waits|] == loop.waits;
    assert IsDrawn(ReconnectWaitMs(loop.backOffAttempts, spreadMs, draw), loop.backOffAttempts, spreadMs, backOff);
  }

  lemma StartedIsDrawn(s: State, spreadMs: real, backOff: Option<BackOff>, draw: Draw)
    requires IsDrawOf(draw, backOff) && AllWaitsAreDrawn(s, spreadMs, backOff)
    ensures AllWaitsAreDrawn(StartLoop(s, spreadMs, draw), spreadMs, backOff)
  {
    if !s.reconnecting {
      var first := Loop(0, 0, s.firstDelayMs, [], Sleeping);
      NextWaitIsDrawn(first, spreadMs, backOff, draw);
      assert StartLoop(s, spreadMs, draw).loops == s.loops + [NextWait(first, spreadMs, draw)];
    }
  }

  lemma FewerAreDrawn(s: State, k: nat, spreadMs: real, backOff: Option<BackOff>)
    requires AllWaitsAreDrawn(s, spreadMs, backOff)
    ensures forall loop :: loop in Without(s.loops, k) ==> WaitsAreDrawn(loop, spreadMs, backOff)
  {
    WithoutFewer(s.loops, k);
  }

  lemma ErroredIsDrawn(s: State, k: nat, spreadMs: real, backOff: Option<BackOff>, draw: Draw)
    requires Inv(s) && AllWaitsAreDrawn(s, spreadMs, backOff) && IsDrawOf(draw, backOff) && Enabled(s, SocketErrored(k, draw))
    ensures AllWaitsAreDrawn(OnError(s, k, spreadMs, draw), spreadMs, backOff)
  {
    FewerAreDrawn(s, k, spreadMs, backOff);
    if s.loops != [] {
      assert LoopInv(s, s.loops[0]);
      NextWaitIsDrawn(s.loops[0], spreadMs, backOff, draw);
    }
  }

  lemma OpenedIsDrawn(s: State, k: nat, spreadMs: real, backOff: Option<BackOff>)
    requires Inv(s) && AllWaitsAreDrawn(s, spreadMs, backOff) && Enabled(s, SocketOpened(k))
    ensures AllWaitsAreDrawn(OnOpen(s, k), spreadMs, backOff)
  {
    FewerAreDrawn(s, k, spreadMs, backOff);
  }

  lemma StepIsDrawn(s: State, e: Event, spreadMs: real, backOff: Option<BackOff>)
    requires Inv(s) && AllWaitsAreDrawn(s, spreadMs, backOff) && Enabled(s, e) && FairDraw(e, backOff)
    ensures AllWaitsAreDrawn(Step(s, e, spreadMs), spreadMs, backOff)
  {
    match e
    case SocketOpened(k) => OpenedIsDrawn(s, k, spreadMs, backOff);
    case SocketErrored(k, draw) => ErroredIsDrawn(s, k, spreadMs, backOff, draw);
    case SocketClosed(k, draw) =>
      StartedIsDrawn(s.(sockets := s.sockets[k := Closed], connected := false), spreadMs, backOff, draw);
    case LoopWoke(i) => WokenIsDrawn(s, i, spreadMs, backOff);
    case _ => assert Step(s, e, spreadMs).loops == s.loops;
  }

  lemma WokenIsDrawn(s: State, i: nat, spreadMs: real, backOff: Option<BackOff>)
    requires AllWaitsAreDrawn(s, spreadMs, backOff) && i < |s.loops|
    ensures AllWaitsAreDrawn(OnWake(s, i), spreadMs, backOff)
  {
    assert WaitsAreDrawn(s.loops[i], spreadMs, backOff);
    assert WaitsAreDrawn(s.loops[i].(phase := Awaiting(|s.sockets|)), spreadMs, backOff);
  }

  /** In every state of every run, every wait the loop took is one of the back-off attempt it was taken for. */
  lemma {:induction false} RunWaitsAreDrawn(states: seq<State>, events: seq<Event>, spreadMs: real, backOff: Option<BackOff>, n: nat)
    requires IsRun(states, events, spreadMs) && n < |states| && forall e :: e in events ==> FairDraw(e, backOff)
    ensures AllWaitsAreDrawn(states[n], spreadMs, backOff)
  {
    if n > 0 {
      RunWaitsAreDrawn(states, events, spreadMs, backOff, n - 1);
      RunKeepsInv(states, events, spreadMs, n - 1);
      StepIsDrawn(states[n - 1], events[n - 1], spreadMs, backOff);
    }
  }

  /** The waits that count as back-off attempts. */
  function Counted(loop: Loop): seq<real> {
    if Uncounted(loop) <= |loop.waits| then loop.waits[Uncounted(loop)..] else []
  }

  lemma CountedAreDrawn(loop: Loop, spreadMs: real, b: BackOff, k: nat)
    requires WaitsAreDrawn(loop, spreadMs, Some(b)) && Uncounted(loop) <= |loop.waits| && k < |Counted(loop)|
    ensures IsDrawn(Counted(loop)[k], k, spreadMs, Some(b))
  {
    var skipped := Uncounted(loop);
    var at := k + skipped;
    assert IsDrawn(loop.waits[at], at - skipped, spreadMs, Some(b));
    assert at - skipped == k && Counted(loop)[k] == loop.waits[at];
  }

  lemma CountedTotal(loop: Loop, spreadMs: real, b: BackOff)
    requires WaitsAreDrawn(loop, spreadMs, Some(b)) && Uncounted(loop) <= |loop.waits|
    ensures var waits := Counted(loop);
            LeastTotal(b, |waits|) <= Total(waits) <= LeastTotal(b, |waits|) + RangeTotal(b, |waits|)
  {
    forall k: nat | k < |Counted(loop)|
      ensures IsDrawn(Counted(loop)[k], k, spreadMs, Some(b))
    {
      CountedAreDrawn(loop, spreadMs, b, k);
    }
    TotalWaitBounds(b, spreadMs, Counted(loop));
  }

  /** A loop has waited at least the doubled minima of its attempts, and at most a random range more for each. */
  ghost predicate WaitedEnough(loop: Loop, b: BackOff) {
    var waits := Counted(loop);
    && |waits| == loop.backOffAttempts
    && LeastTotal(b, |waits|) <= Total(waits) <= LeastTotal(b, |waits|) + RangeTotal(b, |waits|)
  }

  lemma LoopTotal(loop: Loop, spreadMs: real, b: BackOff)
    requires |loop.waits| == loop.attempt && loop.attempt == loop.backOffAttempts + Uncounted(loop)
    requires WaitsAreDrawn(loop, spreadMs, Some(b))
    ensures WaitedEnough(loop, b)
  {
    CountedTotal(loop, spreadMs, b);
  }

  lemma LoopCounts(s: State, i: nat)
    requires Inv(s) && i < |s.loops|
    ensures |s.loops[i].waits| == s.loops[i].attempt
    ensures s.loops[i].attempt == s.loops[i].backOffAttempts + Uncounted(s.loops[i])
  {
    assert LoopInv(s, s.loops[i]);
  }

  /**
   In every state of every run with a constant back-off, a loop has waited for its
   back-off attempts at least the doubled minima, whose sum is geometric
   (LeastTotalIsGeometric), and at most a random range more for each.
   */
  lemma RunTotalWait(states: seq<State>, events: seq<Event>, spreadMs: real, b: BackOff, n: nat)
    requires IsRun(states, events, spreadMs) && n < |states|
    requires forall e :: e in events ==> FairDraw(e, Some(b))
    ensures forall i :: 0 <= i < |states[n].loops| ==> WaitedEnough(states[n].loops[i], b)
  {
    RunWaitsAreDrawn(states, events, spreadMs, Some(b), n);
    RunKeepsInv(states, events, spreadMs, n);
    AllLoopsTotal(states[n], spreadMs, b);
  }

  lemma AllLoopsTotal(s: State, spreadMs: real, b: BackOff)
    requires Inv(s) && AllWaitsAreDrawn(s, spreadMs, Some(b))
    ensures forall i :: 0 <= i < |s.loops| ==> WaitedEnough(s.loops[i], b)
  {
    forall i | 0 <= i < |s.loops|
      ensures WaitedEnough(s.loops[i], b)
    {
      LoopCounts(s, i);
      LoopTotal(s.loops[i], spreadMs, b);
    }
  }
}
