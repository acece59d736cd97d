/**
 When the steps of a depot night are due: not only how early but how late, which
 departure a vehicle gets, and from which instant its stop is named
 (packages/css/src/chaos-journey.ts:186-196, 290-368).
 */
module DepotJourneyTimes {
  import opened Basics
  import opened ChaosActions
  import opened RandomDraw
  import opened DepotJourneyModel
  import opened DepotJourneyRuns

  const SECOND_MS := 1000

  /** The event is of this station, and more than an update of its time zone. */
  predicate Touches(journeys: map<string, Journey>, e: Event, id: string) {
    match e
    case Ensure(x, _) => x == id && id !in journeys
    case Arrive(x, _) => x == id
    case Record(x, _) => x == id
    case Skip(x, _, _) => x == id
    case Drop(x) => x == id
    case Retain(ids) => id !in ids
  }

  predicate Within(t: int, earliest: int, latest: int) {
    earliest <= t < latest
  }

  /** The step was taken or passed over, and the journey goes on to its stop. */
  predicate StartsCharging(e: Event) {
    (e.Record? && e.action == StartCharging) || (e.Skip? && e.action == StartCharging && e.inTransaction)
  }

  /** The vehicle left, or a new station waits for its first one. */
  predicate WaitsForArrival(e: Event) {
    || e.Ensure?
    || (e.Record? && e.action == Unplug)
    || (e.Skip? && !e.inTransaction && (e.action == StartCharging || e.action == Unplug))
  }

  /** Away until an arrival that the calendar around `now` gives, with the deadline of that arrival. */
  ghost predicate IsArrivalAt(j: Journey, now: int, localTimes: LocalTimes, late: bool) {
    var starts, ends := localTimes(now, j.timeZone, ARRIVAL_FROM), localTimes(now, j.timeZone, ARRIVAL_TO);
    && j.step == Away && j.vehicle.None? && j.departureAt.None? && j.dueAt >= now
    && (OrderedEvenings(starts, ends) ==> IsArrival(starts, ends, late, now, j.dueAt))
    && j.arrivalDeadline.Some? && j.arrivalDeadline.value >= j.dueAt
    && IsDeadline(localTimes(j.dueAt, j.timeZone, ARRIVAL_TO), j.dueAt, j.arrivalDeadline.value)
  }

  /** The step stays due, 30 to 60 s from now. */
  predicate IsPutOff(was: Journey, now: int, j: Journey) {
    j == was.(dueAt := j.dueAt) && Within(j.dueAt, now + 30 * SECOND_MS, now + 60 * SECOND_MS)
  }

  /** When the stop is due: at the departure, or at once when that is over. */
  predicate ChargesUntilDeparture(was: Journey, now: int, j: Journey) {
    && j.step == Charging && was.departureAt.Some? && j.departureAt == was.departureAt && j.vehicle == was.vehicle
    && (j.dueAt == now || j.dueAt == was.departureAt.value) && j.dueAt >= now && j.dueAt >= was.departureAt.value
  }

  /** When the next step is due after a plug-in was passed over. */
  ghost predicate AfterPlugInSkipped(was: Journey, now: int, inTransaction: bool, late: bool, j: Journey, localTimes: LocalTimes) {
    if inTransaction then
      && j.step == Charging && j.departureAt == Some(j.dueAt) && j.vehicle.None?
      && IsMorningAfter(localTimes(now, j.timeZone, DEFAULT_DEPARTURE), now, j.dueAt)
    else
      && was.arrivalDeadline.Some?
      && (|| (IsPutOff(was, now, j) && j.dueAt <= was.arrivalDeadline.value)
          || (IsArrivalAt(j, now, localTimes, late) && was.arrivalDeadline.value < now + 60 * SECOND_MS))
  }

  /** When the next step is due after an event at `t.now`, with `was` the journey before it. */
  ghost predicate SetsDue(was: Option<Journey>, t: Timed, j: Journey, localTimes: LocalTimes) {
    var now, e, late := t.now, t.event, t.draws.late < 0.15;
    if e.Arrive? then j.step == Plugged && Within(j.dueAt, now + 5 * SECOND_MS, now + 30 * SECOND_MS)
    else if WaitsForArrival(e) then IsArrivalAt(j, now, localTimes, late)
    else if was.None? then false
    else if StartsCharging(e) then ChargesUntilDeparture(was.value, now, j)
    else if e.Record? then
      j == was.value.(step := Finishing, dueAt := j.dueAt) && Within(j.dueAt, now + 10 * SECOND_MS, now + 60 * SECOND_MS)
    else if !e.Skip? then false
    else if e.action == PlugIn then AfterPlugInSkipped(was.value, now, e.inTransaction, late, j, localTimes)
    else if e.inTransaction then IsPutOff(was.value, now, j)
    else j == was.value.(step := Finishing, dueAt := now)
  }

  function JourneyOf(journeys: map<string, Journey>, id: string): Option<Journey> {
    if id in journeys then Some(journeys[id]) else None
  }

  lemma AwayIsArrival(now: int, timeZone: string, localTimes: LocalTimes, draws: Draws)
    ensures IsArrivalAt(GoAway(now, timeZone, localTimes, draws), now, localTimes, draws.late < LATE_SHARE)
  {
    ArrivalIsNotInThePast(now, timeZone, localTimes, draws);
    if OrderedEvenings(localTimes(now, timeZone, ARRIVAL_FROM), localTimes(now, timeZone, ARRIVAL_TO)) {
      ArrivalIsInWindow(now, timeZone, localTimes, draws);
    }
  }

  lemma RecordSetsDue(j: Journey, t: Timed, localTimes: LocalTimes)
    requires t.event.Record? && JourneyInv(j) && IsDue(j, t.event.action, t.now) && t.event.action != PlugIn
    ensures SetsDue(Some(j), t, Recorded(j, t.event.action, t.now, localTimes, t.draws), localTimes)
  {
    if t.event.action == Unplug {
      AwayIsArrival(t.now, j.timeZone, localTimes, t.draws);
    }
  }

  lemma SkippedPlugInSetsDue(j: Journey, t: Timed, localTimes: LocalTimes)
    requires t.event.Skip? && t.event.action == PlugIn && JourneyInv(j) && IsDue(j, PlugIn, t.now)
    ensures SetsDue(Some(j), t, Skipped(j, PlugIn, t.event.inTransaction, t.now, localTimes, t.draws), localTimes)
  {
    AwayIsArrival(t.now, j.timeZone, localTimes, t.draws);
  }

  lemma SkippedStepSetsDue(j: Journey, t: Timed, localTimes: LocalTimes)
    requires t.event.Skip? && t.event.action != PlugIn && JourneyInv(j) && IsDue(j, t.event.action, t.now)
    ensures SetsDue(Some(j), t, Skipped(j, t.event.action, t.event.inTransaction, t.now, localTimes, t.draws), localTimes)
  {
    AwayIsArrival(t.now, j.timeZone, localTimes, t.draws);
  }

  /** An event of the station sets when its next step is due. */
  lemma TouchSetsDue(h: History, t: Timed, localTimes: LocalTimes, id: string)
    requires HistoryInv(h) && Allowed(h.journeys, t) && id in Observe(h, t, localTimes).journeys
    requires Touches(h.journeys, t.event, id)
    ensures SetsDue(JourneyOf(h.journeys, id), t, Observe(h, t, localTimes).journeys[id], localTimes)
  {
    if id in h.journeys {
      assert StationInv(h, id);
    }
    match t.event
    case Ensure(_, timeZone) => AwayIsArrival(t.now, timeZone, localTimes, t.draws);
    case Arrive(_, _) =>
    case Record(_, _) => RecordSetsDue(h.journeys[id], t, localTimes);
    case Skip(_, action, _) =>
      if action == PlugIn {
        SkippedPlugInSetsDue(h.journeys[id], t, localTimes);
      } else {
        SkippedStepSetsDue(h.journeys[id], t, localTimes);
      }
    case Drop(_) =>
    case Retain(_) =>
  }

  /** Any other event leaves the journey as it is, or updates its time zone. */
  lemma OtherEventKeeps(h: History, t: Timed, localTimes: LocalTimes, id: string)
    requires id in Observe(h, t, localTimes).journeys && !Touches(h.journeys, t.event, id)
    ensures id in h.journeys
    ensures Observe(h, t, localTimes).journeys[id] ==
            if t.event.Ensure? && t.event.id == id then h.journeys[id].(timeZone := t.event.timeZone) else h.journeys[id]
  {
  }

  /** Waits and arrivals are spread: every millisecond of a wait, and every one of a window to come, is what some draw gives. */
  lemma TimesAreSpread(now: int, min: int, max: int, until: int, from: int, to: int, arrival: int)
    requires min < max && now + min <= until < now + max
    requires now <= from <= arrival < to
    ensures exists r :: WaitUntil(now, min, max, r) == until
    ensures exists draws :: PickInstant(from, to, now, draws) == arrival
  {
    var r := EveryShareIsDrawn(max - min, until - now - min);
    assert WaitUntil(now, min, max, r) == until;
    var a := EveryShareIsDrawn(to - from, arrival - from);
    assert PickInstant(from, to, now, Draws(0.0, a, 0.0, 0.0)) == arrival;
  }

  // ----- over a night -----

  /** Event `m` is the last one before `n` of the station. */
  ghost predicate IsLastOf(hs: seq<History>, ts: seq<Timed>, m: nat, n: nat, id: string) {
    && m < n <= |ts| && |ts| < |hs|
    && Touches(hs[m].journeys, ts[m].event, id)
    && forall k :: m < k < n ==> !Touches(hs[k].journeys, ts[k].event, id)
  }

  /** In every night a journey is as the last event of its station left it, but for its time zone. */
  lemma {:induction false} LastEventSetsDue(hs: seq<History>, ts: seq<Timed>, localTimes: LocalTimes, n: nat, id: string)
    returns (m: nat)
    requires IsNight(hs, ts, localTimes) && n < |hs| && id in hs[n].journeys
    ensures IsLastOf(hs, ts, m, n, id) && id in hs[m + 1].journeys
    ensures hs[n].journeys[id] == hs[m + 1].journeys[id].(timeZone := hs[n].journeys[id].timeZone)
    ensures SetsDue(JourneyOf(hs[m].journeys, id), ts[m], hs[m + 1].journeys[id], localTimes)
  {
    if n == 0 {
      assert false;
    } else {
      NightKeepsInv(hs, ts, localTimes, n - 1);
      if Touches(hs[n - 1].journeys, ts[n - 1].event, id) {
        TouchSetsDue(hs[n - 1], ts[n - 1], localTimes, id);
        m := n - 1;
      } else {
        OtherEventKeeps(hs[n - 1], ts[n - 1], localTimes, id);
        m := LastEventSetsDue(hs, ts, localTimes, n - 1, id);
      }
    }
  }

  lemma {:induction false} UntouchedSince(hs: seq<History>, ts: seq<Timed>, localTimes: LocalTimes, m: nat, n: nat, id: string)
    requires IsNight(hs, ts, localTimes) && IsLastOf(hs, ts, m, n, id) && id in hs[m + 1].journeys
    ensures id in hs[n].journeys
    ensures hs[n].journeys[id] == hs[m + 1].journeys[id].(timeZone := hs[n].journeys[id].timeZone)
    decreases n
  {
    if n > m + 1 {
      UntouchedSince(hs, ts, localTimes, m, n - 1, id);
      StillThere(hs[n - 1], ts[n - 1], localTimes, id);
      OtherEventKeeps(hs[n - 1], ts[n - 1], localTimes, id);
    }
  }

  lemma StillThere(h: History, t: Timed, localTimes: LocalTimes, id: string)
    requires id in h.journeys && !Touches(h.journeys, t.event, id)
    ensures id in Observe(h, t, localTimes).journeys
  {
  }

  /**
   In every night, once a start was recorded, or taken over from a running session, and
   while no other event of the station follows, its stop is due exactly from the later
   of that instant and the departure on.
   */
  lemma StopIsDueExactly(hs: seq<History>, ts: seq<Timed>, localTimes: LocalTimes, m: nat, n: nat, id: string, now: int)
    requires IsNight(hs, ts, localTimes) && IsLastOf(hs, ts, m, n, id) && StartsCharging(ts[m].event)
    ensures id in hs[m].journeys && hs[m].journeys[id].departureAt.Some? && id in hs[n].journeys
    ensures IsDue(hs[n].journeys[id], StopCharging, now) <==>
            now >= ts[m].now && now >= hs[m].journeys[id].departureAt.value
  {
    NightKeepsInv(hs, ts, localTimes, m);
    ChargingStays(hs[m], ts[m], localTimes, id);
    TouchSetsDue(hs[m], ts[m], localTimes, id);
    UntouchedSince(hs, ts, localTimes, m, n, id);
  }

  lemma ChargingStays(h: History, t: Timed, localTimes: LocalTimes, id: string)
    requires Allowed(h.journeys, t) && StartsCharging(t.event) && Touches(h.journeys, t.event, id)
    ensures id in h.journeys && id in Observe(h, t, localTimes).journeys
  {
  }

  // ----- which departure -----

  /** The vehicle arrived in event `m` with this departure, and is there since. */
  ghost predicate ArrivedIn(
    hs: seq<History>, ts: seq<Timed>, localTimes: LocalTimes, m: nat, n: nat, id: string, vehicle: Vehicle, departure: int)
  {
    && m < n <= |ts| && |ts| < |hs|
    && ts[m].event == Arrive(id, vehicle)
    && IsDeparture(vehicle.nextDepartureMs, ts[m].now, departure, hs[m].journeys, id, localTimes)
    && forall k :: m < k <= n ==> IsThere(hs[k], id, vehicle)
  }

  predicate IsThere(h: History, id: string, vehicle: Vehicle) {
    id in h.journeys && h.journeys[id].vehicle == Some(vehicle)
  }

  /** The departure of a vehicle: the scheduled one if that is to come at the arrival, else the next 06:00. */
  ghost predicate IsDeparture(
    scheduled: Option<int>, arrival: int, departure: int, journeys: map<string, Journey>, id: string, localTimes: LocalTimes)
  {
    if scheduled.Some? && scheduled.value > arrival then departure == scheduled.value
    else
      var timeZone := if id in journeys then journeys[id].timeZone else "UTC";
      IsMorningAfter(localTimes(arrival, timeZone, DEFAULT_DEPARTURE), arrival, departure)
  }

  lemma EventVehicle(h: History, t: Timed, localTimes: LocalTimes, id: string)
    requires HistoryInv(h) && Allowed(h.journeys, t) && id in Observe(h, t, localTimes).journeys
    ensures var j := Observe(h, t, localTimes).journeys[id];
            j.vehicle.Some? ==>
              if t.event.Arrive? && t.event.id == id then
                && t.event == Arrive(id, j.vehicle.value) && j.departureAt.Some?
                && IsDeparture(j.vehicle.value.nextDepartureMs, t.now, j.departureAt.value, h.journeys, id, localTimes)
              else
                && id in h.journeys && h.journeys[id].vehicle == j.vehicle && h.journeys[id].departureAt == j.departureAt
  {
    if id in h.journeys {
      assert StationInv(h, id);
      match t.event
      case Record(_, _) => RecordKeepsVehicle(h, t, localTimes, id);
      case Skip(_, _, _) => SkipKeepsVehicle(h, t, localTimes, id);
      case _ =>
    }
  }

  lemma RecordKeepsVehicle(h: History, t: Timed, localTimes: LocalTimes, id: string)
    requires t.event.Record? && HistoryInv(h) && Allowed(h.journeys, t) && id in h.journeys
    ensures var j := Observe(h, t, localTimes).journeys[id];
            j.vehicle.Some? ==> h.journeys[id].vehicle == j.vehicle && h.journeys[id].departureAt == j.departureAt
  {
    assert StationInv(h, id);
    if t.event.id == id {
      RecordAdvances(h.journeys[id], t.event.action, t.now, localTimes, t.draws);
    }
  }

  lemma SkipKeepsVehicle(h: History, t: Timed, localTimes: LocalTimes, id: string)
    requires t.event.Skip? && HistoryInv(h) && Allowed(h.journeys, t) && id in h.journeys
    ensures var j := Observe(h, t, localTimes).journeys[id];
            j.vehicle.Some? ==> h.journeys[id].vehicle == j.vehicle && h.journeys[id].departureAt == j.departureAt
  {
    assert StationInv(h, id);
    if t.event.id == id {
      SkipAdvances(h.journeys[id], t.event.action, t.event.inTransaction, t.now, localTimes, t.draws);
    }
  }

  lemma StillArrived(
    hs: seq<History>, ts: seq<Timed>, localTimes: LocalTimes, m: nat, n: nat, id: string, vehicle: Vehicle, departure: int)
    requires 0 < n <= |ts| && ArrivedIn(hs, ts, localTimes, m, n - 1, id, vehicle, departure) && IsThere(hs[n], id, vehicle)
    ensures ArrivedIn(hs, ts, localTimes, m, n, id, vehicle, departure)
  {
  }

  /** In every night a vehicle that is at a station keeps the departure of its arrival: the scheduled one if that is to come. */
  lemma {:induction false} VehicleLeavesOnSchedule(
    hs: seq<History>, ts: seq<Timed>, localTimes: LocalTimes, n: nat, id: string, vehicle: Vehicle)
    returns (m: nat)
    requires IsNight(hs, ts, localTimes) && n < |hs| && IsThere(hs[n], id, vehicle)
    ensures hs[n].journeys[id].departureAt.Some?
    ensures ArrivedIn(hs, ts, localTimes, m, n, id, vehicle, hs[n].journeys[id].departureAt.value)
  {
    NightKeepsInv(hs, ts, localTimes, n);
    assert StationInv(hs[n], id);
    if n == 0 {
      assert false;
    } else {
      NightKeepsInv(hs, ts, localTimes, n - 1);
      EventVehicle(hs[n - 1], ts[n - 1], localTimes, id);
      if ts[n - 1].event.Arrive? && ts[n - 1].event.id == id {
        m := n - 1;
      } else {
        m := VehicleLeavesOnSchedule(hs, ts, localTimes, n - 1, id, vehicle);
        StillArrived(hs, ts, localTimes, m, n, id, vehicle, hs[n].journeys[id].departureAt.value);
      }
    }
  }
}
