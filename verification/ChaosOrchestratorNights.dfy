/**
 The depot journeys of every run of the orchestrator are a depot night, so what holds
 of nights holds of runs: a vehicle that plugged in charges until its departure
 (packages/css/src/chaos-orchestrator.ts:710-1059, packages/css/src/chaos-journey.ts:240-399).
 */
module ChaosOrchestratorNights {
  import opened Basics
  import opened ChaosActions
  import opened DepotJourneyModel
  import opened DepotJourneyRuns
  import opened ChaosOrchestratorModel
  import opened ChaosOrchestratorRefresh
  import opened ChaosOrchestratorSafety
  import opened ChaosOrchestratorTheorems

  // ----- the night of a run -----

  /** The depot events of a turn. */
  function TurnEvents(s: State, turn: Turn): seq<Timed>
    requires CanStep(s, turn)
  {
    match turn
    case TickStep(i) =>
      (match TickEvent(s, i)
       case None => []
       case Some(e) => [Timed(e, i.now, i.draws)])
    case RefreshStep(l) => RefreshEvents(l)
  }

  function ObserveAll(h: History, ts: seq<Timed>, localTimes: LocalTimes): History {
    if ts == [] then h else Observe(ObserveAll(h, ts[..|ts| - 1], localTimes), ts[|ts| - 1], localTimes)
  }

  /** The depot events of a run, turn by turn. */
  ghost function Log(states: seq<State>, turns: seq<Turn>, localTimes: LocalTimes): (log: seq<seq<Timed>>)
    requires IsRun(states, turns, localTimes)
    ensures |log| == |turns|
  {
    seq(|turns|, i requires 0 <= i < |turns| && CanStep(states[i], turns[i]) => TurnEvents(states[i], turns[i]))
  }

  /** The history of the depot stations after the first `n` turns. */
  function HistoryOf(log: seq<seq<Timed>>, localTimes: LocalTimes, n: nat): History
    requires n <= |log|
  {
    if n == 0 then NO_HISTORY else ObserveAll(HistoryOf(log, localTimes, n - 1), log[n - 1], localTimes)
  }

  /** Events that take no step are always allowed. */
  predicate TakesNoStep(e: Event) {
    e.Ensure? || e.Drop? || e.Retain?
  }

  lemma {:induction false} NightGoesOnAll(h: History, ts: seq<Timed>, localTimes: LocalTimes)
    requires EndsNight(h, localTimes) && forall t :: t in ts ==> TakesNoStep(t.event)
    ensures EndsNight(ObserveAll(h, ts, localTimes), localTimes)
    ensures ObserveAll(h, ts, localTimes).journeys == ApplyAll(h.journeys, ts, localTimes)
    decreases |ts|
  {
    if ts != [] {
      NightGoesOnAll(h, ts[..|ts| - 1], localTimes);
      assert ts[|ts| - 1] in ts;
      NightGoesOn(ObserveAll(h, ts[..|ts| - 1], localTimes), ts[|ts| - 1], localTimes);
    }
  }

  lemma {:induction false} EnsuresTakeNoStep(l: Loaded, ids: seq<string>)
    ensures forall t :: t in EnsureEvents(l, ids) ==> t.event.Ensure?
  {
    if ids != [] {
      EnsuresTakeNoStep(l, ids[..|ids| - 1]);
    }
  }

  lemma ObserveOne(h: History, t: Timed, localTimes: LocalTimes)
    ensures ObserveAll(h, [t], localTimes) == Observe(h, t, localTimes)
  {
    assert [t][..0] == [];
  }

  /** A turn of a run is a stretch of a night. */
  lemma TurnIsNight(s: State, turn: Turn, h: History, localTimes: LocalTimes)
    requires Consistent(s) && CanStep(s, turn) && h.journeys == s.depotJourneys && EndsNight(h, localTimes)
    ensures var h' := ObserveAll(h, TurnEvents(s, turn), localTimes);
            EndsNight(h', localTimes) && h'.journeys == Next(s, turn, localTimes).depotJourneys
  {
    match turn
    case TickStep(i) => TickIsNight(s, i, h, localTimes);
    case RefreshStep(l) =>
      EnsuresTakeNoStep(l, l.stationIds);
      NightGoesOnAll(h, RefreshEvents(l), localTimes);
      RefreshIsEvents(s, l, localTimes);
  }

  lemma TickIsNight(s: State, i: TickInput, h: History, localTimes: LocalTimes)
    requires Consistent(s) && DueIsRight(s, i) && h.journeys == s.depotJourneys && EndsNight(h, localTimes)
    ensures var h' := ObserveAll(h, TurnEvents(s, TickStep(i)), localTimes);
            EndsNight(h', localTimes) && h'.journeys == Tick(s, i, localTimes).state.depotJourneys
  {
    TickIsDepotMove(s, i, localTimes);
    var e := TickEvent(s, i);
    if e.Some? {
      var t := Timed(e.value, i.now, i.draws);
      ObserveOne(h, t, localTimes);
      NightGoesOn(h, t, localTimes);
    }
  }

  /** The depot journeys of every run of the orchestrator are those of a night. */
  lemma {:induction false} RunIsNight(states: seq<State>, turns: seq<Turn>, localTimes: LocalTimes, n: nat)
    requires IsRun(states, turns, localTimes) && n < |states|
    ensures var h := HistoryOf(Log(states, turns, localTimes), localTimes, n);
            EndsNight(h, localTimes) && h.journeys == states[n].depotJourneys && HistoryInv(h)
  {
    if n == 0 {
      NightBegins(localTimes);
    } else {
      RunIsNight(states, turns, localTimes, n - 1);
      RunIsSafe(states, turns, localTimes, n - 1);
      TurnIsNight(states[n - 1], turns[n - 1], HistoryOf(Log(states, turns, localTimes), localTimes, n - 1), localTimes);
    }
    NightEndsInOrder(HistoryOf(Log(states, turns, localTimes), localTimes, n), localTimes);
  }

  // ----- the past of a history -----

  /** The event records `action` at the station. */
  predicate Records(e: Event, id: string, action: Action) {
    (e.Arrive? || e.Record?) && e.id == id && RecordedAction(e) == Some(action)
  }

  predicate RecordsSome(e: Event, id: string) {
    (e.Arrive? || e.Record?) && e.id == id
  }

  ghost predicate HasRecord(ts: seq<Timed>, id: string, action: Action) {
    exists t :: t in ts && Records(t.event, id, action)
  }

  ghost predicate HasNoRecord(ts: seq<Timed>, id: string) {
    forall t :: t in ts ==> !RecordsSome(t.event, id)
  }

  ghost predicate HasArrival(ts: seq<Timed>, id: string, now: int) {
    exists t :: t in ts && t.event.Arrive? && t.event.id == id && t.now == now
  }

  lemma EventPast(h: History, t: Timed, localTimes: LocalTimes, id: string)
    ensures var h' := Observe(h, t, localTimes);
            && (id in h'.last ==>
                  || Records(t.event, id, h'.last[id])
                  || (!RecordsSome(t.event, id) && id in h.last && h'.last[id] == h.last[id]))
            && (id in h'.arrivedAt ==>
                  || (t.event.Arrive? && t.event.id == id && t.now == h'.arrivedAt[id])
                  || (id in h.arrivedAt && h'.arrivedAt[id] == h.arrivedAt[id]))
  {
  }

  /** The last action of a station comes from these events or from before. */
  lemma {:induction false} LastOf(h: History, ts: seq<Timed>, localTimes: LocalTimes, id: string)
    ensures var h' := ObserveAll(h, ts, localTimes);
            id in h'.last ==>
              || HasRecord(ts, id, h'.last[id])
              || (HasNoRecord(ts, id) && id in h.last && h'.last[id] == h.last[id])
    decreases |ts|
  {
    if ts != [] {
      var init, t := ts[..|ts| - 1], ts[|ts| - 1];
      LastOf(h, init, localTimes, id);
      EventPast(ObserveAll(h, init, localTimes), t, localTimes, id);
      assert t in ts && (forall x :: x in init ==> x in ts);
      assert forall x :: x in ts ==> x in init || x == t;
    }
  }

  /** The arrival of a station comes from these events or from before. */
  lemma {:induction false} ArrivalOf(h: History, ts: seq<Timed>, localTimes: LocalTimes, id: string)
    ensures var h' := ObserveAll(h, ts, localTimes);
            id in h'.arrivedAt ==>
              HasArrival(ts, id, h'.arrivedAt[id]) || (id in h.arrivedAt && h'.arrivedAt[id] == h.arrivedAt[id])
    decreases |ts|
  {
    if ts != [] {
      var init, t := ts[..|ts| - 1], ts[|ts| - 1];
      ArrivalOf(h, init, localTimes, id);
      EventPast(ObserveAll(h, init, localTimes), t, localTimes, id);
      assert t in ts && (forall x :: x in init ==> x in ts);
    }
  }

  /** Turn `m` recorded the action at the station, and no later turn before `n` recorded any there. */
  ghost predicate IsLastRecord(log: seq<seq<Timed>>, n: nat, id: string, action: Action, m: nat)
    requires n <= |log|
  {
    m < n && HasRecord(log[m], id, action) && forall k :: m < k < n ==> HasNoRecord(log[k], id)
  }

  lemma {:induction false} LastIsRecorded(log: seq<seq<Timed>>, localTimes: LocalTimes, n: nat, id: string) returns (m: nat)
    requires n <= |log| && id in HistoryOf(log, localTimes, n).last
    ensures IsLastRecord(log, n, id, HistoryOf(log, localTimes, n).last[id], m)
  {
    if n == 0 {
      assert false;
    } else {
      LastOf(HistoryOf(log, localTimes, n - 1), log[n - 1], localTimes, id);
      if HasRecord(log[n - 1], id, HistoryOf(log, localTimes, n).last[id]) {
        m := n - 1;
      } else {
        m := LastIsRecorded(log, localTimes, n - 1, id);
      }
    }
  }

  lemma {:induction false} ArrivalIsLogged(log: seq<seq<Timed>>, localTimes: LocalTimes, n: nat, id: string) returns (m: nat)
    requires n <= |log| && id in HistoryOf(log, localTimes, n).arrivedAt
    ensures m < n && HasArrival(log[m], id, HistoryOf(log, localTimes, n).arrivedAt[id])
  {
    if n == 0 {
      assert false;
    } else {
      ArrivalOf(HistoryOf(log, localTimes, n - 1), log[n - 1], localTimes, id);
      if HasArrival(log[n - 1], id, HistoryOf(log, localTimes, n).arrivedAt[id]) {
        m := n - 1;
      } else {
        m := ArrivalIsLogged(log, localTimes, n - 1, id);
      }
    }
  }

  // ----- what a run of the orchestrator keeps -----

  /** A tick published the plug-in of a vehicle at the station. */
  ghost predicate PlugsIn(s: State, turn: Turn, localTimes: LocalTimes, id: string) {
    turn.TickStep? && CanStep(s, turn) && Tick(s, turn.input, localTimes).command == Some(Command(id, PlugIn, None))
  }

  lemma ArrivalIsCommanded(s: State, turn: Turn, localTimes: LocalTimes, id: string, now: int)
    requires CanStep(s, turn) && HasArrival(TurnEvents(s, turn), id, now)
    ensures PlugsIn(s, turn, localTimes, id) && turn.input.now == now
  {
    match turn
    case TickStep(_) =>
    case RefreshStep(l) => EnsuresTakeNoStep(l, l.stationIds);
  }

  /** A stop at the station was due, and was published or passed over. */
  predicate StopsAt(s: State, turn: Turn, id: string) {
    && turn.TickStep? && CanStep(s, turn)
    && var e := TickEvent(s, turn.input);
       e.Some? && (e.value.Record? || e.value.Skip?) && e.value.id == id && e.value.action == StopCharging
  }

  /** A vehicle plugged in at the station in an earlier turn, before its departure. */
  ghost predicate ArrivedBefore(
    states: seq<State>, turns: seq<Turn>, localTimes: LocalTimes, n: nat, id: string, departure: int)
  {
    exists m: nat :: m < n && m < |turns| && m < |states| && PlugsIn(states[m], turns[m], localTimes, id)
                     && turns[m].input.now < departure
  }

  /**
   In every run a stop at a depot station, published or passed over, comes at or after the
   departure; and a vehicle that is there plugged in at an earlier tick, strictly before
   that departure.
   */
  lemma NoStopBeforeDepartureInRuns(states: seq<State>, turns: seq<Turn>, localTimes: LocalTimes, n: nat, id: string)
    requires IsRun(states, turns, localTimes) && n < |turns| && StopsAt(states[n], turns[n], id)
    ensures id in states[n].depotJourneys
    ensures var j := states[n].depotJourneys[id];
            && j.departureAt.Some? && turns[n].input.now >= j.departureAt.value
            && (j.vehicle.Some? ==> ArrivedBefore(states, turns, localTimes, n, id, j.departureAt.value))
  {
    RunIsNight(states, turns, localTimes, n);
    RunIsSafe(states, turns, localTimes, n);
    StopIsDue(states[n], turns[n], localTimes, id);
    var log := Log(states, turns, localTimes);
    var h := HistoryOf(log, localTimes, n);
    assert StationInv(h, id);
    if states[n].depotJourneys[id].vehicle.Some? {
      var m := ArrivalIsLogged(log, localTimes, n, id);
      ArrivalIsCommanded(states[m], turns[m], localTimes, id, h.arrivedAt[id]);
    }
  }

  lemma StopIsDue(s: State, turn: Turn, localTimes: LocalTimes, id: string)
    requires Consistent(s)
    ensures StopsAt(s, turn, id) ==> id in s.depotJourneys && IsDue(s.depotJourneys[id], StopCharging, turn.input.now)
  {
    if StopsAt(s, turn, id) {
      TickIsDepotMove(s, turn.input, localTimes);
    }
  }

  /**
   In every run a start recorded at a depot station comes after a plug-in there, with no
   other session step recorded at the station in between.
   */
  lemma StartFollowsPlugInInRuns(states: seq<State>, turns: seq<Turn>, localTimes: LocalTimes, n: nat, id: string)
    requires IsRun(states, turns, localTimes) && n < |turns|
    ensures HasRecord(Log(states, turns, localTimes)[n], id, StartCharging) ==>
              exists m: nat :: IsLastRecord(Log(states, turns, localTimes), n, id, PlugIn, m)
  {
    RunIsNight(states, turns, localTimes, n);
    RunIsSafe(states, turns, localTimes, n);
    var log := Log(states, turns, localTimes);
    if HasRecord(log[n], id, StartCharging) {
      StartIsDue(states[n], turns[n], localTimes, id);
      assert StationInv(HistoryOf(log, localTimes, n), id);
      var m := LastIsRecorded(log, localTimes, n, id);
    }
  }

  lemma StartIsDue(s: State, turn: Turn, localTimes: LocalTimes, id: string)
    requires Consistent(s) && CanStep(s, turn)
    ensures HasRecord(TurnEvents(s, turn), id, StartCharging) ==> id in s.depotJourneys && s.depotJourneys[id].step == Plugged
  {
    match turn
    case TickStep(i) => TickIsDepotMove(s, i, localTimes);
    case RefreshStep(l) => EnsuresTakeNoStep(l, l.stationIds);
  }
}
