/**
 A depot station's night (packages/css/src/chaos-journey.ts:117-399): its vehicle is
 away, plugged in, charging or finishing. Instants are integer milliseconds; the
 instants of a site-time on the local days around another instant come from a
 calendar that is a parameter here.
 */
module DepotJourneyModel {
  import opened Basics
  import opened ChaosActions
  import opened RandomDraw

  /** Near instant, time zone, `HH:MM`: the instants of that site-time, in order. */
  type LocalTimes = (int, string, string) -> seq<int>

  const ARRIVAL_FROM := "19:00"
  const ARRIVAL_TO := "23:00"
  const DEFAULT_DEPARTURE := "06:00"
  const LATE_SHARE := 0.15
  const LATE_MS := 120 * 60_000
  const DAY_MS := 86_400_000

  datatype Vehicle = Vehicle(idToken: string, tokenType: string, vehicleId: Option<string>, nextDepartureMs: Option<int>)

  datatype Step = Away | Plugged | Charging | Finishing

  datatype Journey = Journey(
    step: Step,
    dueAt: int,
    arrivalDeadline: Option<int>,
    timeZone: string,
    vehicle: Option<Vehicle>,
    departureAt: Option<int>)

  /** The random draws of one operation. */
  datatype Draws = Draws(late: Random, arrival: Random, spread: Random, wait: Random)

  function VehicleKey(vehicle: Vehicle): string {
    vehicle.vehicleId.GetOr("token:" + vehicle.idToken)
  }

  function NextAction(step: Step): Action {
    match step
    case Away => PlugIn
    case Plugged => StartCharging
    case Charging => StopCharging
    case Finishing => Unplug
  }

  // ----- arrival and departure -----

  /** The first entry of the list that is at or after an instant. */
  ghost predicate IsFirstFrom(times: seq<int>, from: int, t: int) {
    exists i :: 0 <= i < |times| && times[i] == t && t >= from && forall k :: 0 <= k < i ==> times[k] < from
  }

  /** What `find` gives: the first entry at or after an instant, or none exactly when there is none. */
  ghost predicate IsFound(times: seq<int>, from: int, r: Option<int>) {
    match r
    case Some(t) => IsFirstFrom(times, from, t)
    case None => forall x :: x in times ==> x < from
  }

  lemma FoundLater(times: seq<int>, from: int, r: Option<int>)
    requires times != [] && times[0] < from && IsFound(times[1..], from, r)
    ensures IsFound(times, from, r)
  {
    assert times == [times[0]] + times[1..];
    if r.Some? {
      var i :| 0 <= i < |times[1..]| && times[1..][i] == r.value && forall k :: 0 <= k < i ==> times[1..][k] < from;
      forall k | 0 <= k < i + 1
        ensures times[k] < from
      {
        assert k > 0 ==> times[k] == times[1..][k - 1];
      }
      assert times[i + 1] == r.value;
    }
  }

  /** The first instant of the list after `t`. */
  function FirstAfter(times: seq<int>, t: int): (r: Option<int>)
    ensures IsFound(times, t + 1, r)
  {
    if times == [] then None
    else if times[0] > t then Some(times[0])
    else
      var r := FirstAfter(times[1..], t);
      FoundLater(times, t + 1, r);
      r
  }

  /** The arrival window of each evening: 19:00 to 23:00, or the late period after it. */
  function Window(starts: seq<int>, ends: seq<int>, late: bool, i: nat): (int, int)
    requires i < |starts|
  {
    var end := if i < |ends| then ends[i] else starts[i];
    if late then (end, end + LATE_MS) else (starts[i], end)
  }

  /** Evening `i` is the first whose window ends after `now`. */
  ghost predicate IsFirstOpen(starts: seq<int>, ends: seq<int>, late: bool, now: int, i: int) {
    && 0 <= i < |starts| && Window(starts, ends, late, i).1 > now
    && forall j :: 0 <= j < i ==> Window(starts, ends, late, j).1 <= now
  }

  /** The first window that ends after `now`. */
  function FirstOpenWindow(starts: seq<int>, ends: seq<int>, late: bool, now: int, i: nat): (w: (int, int))
    requires i <= |starts| && forall j :: 0 <= j < i ==> Window(starts, ends, late, j).1 <= now
    ensures || (exists j :: IsFirstOpen(starts, ends, late, now, j) && Window(starts, ends, late, j) == w)
            || (w == (now, now) && forall j :: 0 <= j < |starts| ==> Window(starts, ends, late, j).1 <= now)
    decreases |starts| - i
  {
    if i == |starts| then (now, now)
    else if Window(starts, ends, late, i).1 > now then
      assert IsFirstOpen(starts, ends, late, now, i);
      Window(starts, ends, late, i)
    else FirstOpenWindow(starts, ends, late, now, i + 1)
  }

  /** A random instant of the window, or of what is left of it when that one is past. */
  function PickInstant(from: int, to: int, now: int, draws: Draws): (t: int)
    ensures t >= now
    ensures from <= to && now < to ==> from <= t <= to
    ensures from == to == now ==> t == now
  {
    var picked := from + FloorShare(draws.arrival, to - from);
    if picked >= now then picked
    else now + FloorShare(draws.spread, if to - now > 0 then to - now else 0)
  }

  function NextDepotArrival(now: int, timeZone: string, localTimes: LocalTimes, draws: Draws): int {
    var starts := localTimes(now, timeZone, ARRIVAL_FROM);
    var ends := localTimes(now, timeZone, ARRIVAL_TO);
    var (from, to) := FirstOpenWindow(starts, ends, draws.late < LATE_SHARE, now, 0);
    PickInstant(from, to, now, draws)
  }

  /** The calendar gives each evening an end at or after its start. */
  predicate OrderedEvenings(starts: seq<int>, ends: seq<int>) {
    |starts| <= |ends| && forall i :: 0 <= i < |starts| ==> starts[i] <= ends[i]
  }

  /** An arrival of evening `i`: in its two hours after 23:00 for a late vehicle, between 19:00 and 23:00 for any other. */
  predicate ArrivesIn(starts: seq<int>, ends: seq<int>, late: bool, i: nat, t: int)
    requires i < |starts| <= |ends|
  {
    if late then ends[i] <= t <= ends[i] + LATE_MS else starts[i] <= t <= ends[i]
  }

  /** An arrival is never in the past, on any calendar. */
  lemma ArrivalIsNotInThePast(now: int, timeZone: string, localTimes: LocalTimes, draws: Draws)
    ensures NextDepotArrival(now, timeZone, localTimes, draws) >= now
  {
  }

  lemma WindowHolds(starts: seq<int>, ends: seq<int>, late: bool, i: nat, t: int)
    requires OrderedEvenings(starts, ends) && i < |starts|
    ensures var w := Window(starts, ends, late, i);
            w.0 <= w.1 && (w.0 <= t <= w.1 ==> ArrivesIn(starts, ends, late, i, t))
  {
  }

  /** The instant is one of the first evening whose window is not over; without such an evening it is now. */
  ghost predicate IsArrival(starts: seq<int>, ends: seq<int>, late: bool, now: int, t: int)
    requires |starts| <= |ends|
  {
    || (exists i :: IsFirstOpen(starts, ends, late, now, i) && ArrivesIn(starts, ends, late, i, t))
    || (t == now && forall i :: 0 <= i < |starts| ==> Window(starts, ends, late, i).1 <= now)
  }

  lemma PickIsArrival(starts: seq<int>, ends: seq<int>, late: bool, now: int, w: (int, int), draws: Draws)
    requires OrderedEvenings(starts, ends) && w == FirstOpenWindow(starts, ends, late, now, 0)
    ensures IsArrival(starts, ends, late, now, PickInstant(w.0, w.1, now, draws))
  {
    if i :| IsFirstOpen(starts, ends, late, now, i) && Window(starts, ends, late, i) == w {
      WindowHolds(starts, ends, late, i, PickInstant(w.0, w.1, now, draws));
    }
  }

  /**
   The vehicle arrives on the first evening whose window is not over: in its late period
   for the draws of a late vehicle, in its regular window for all others. With no such
   evening in the calendar it arrives at once.
   */
  lemma ArrivalIsInWindow(now: int, timeZone: string, localTimes: LocalTimes, draws: Draws)
    requires OrderedEvenings(localTimes(now, timeZone, ARRIVAL_FROM), localTimes(now, timeZone, ARRIVAL_TO))
    ensures IsArrival(localTimes(now, timeZone, ARRIVAL_FROM), localTimes(now, timeZone, ARRIVAL_TO),
                      draws.late < LATE_SHARE, now, NextDepotArrival(now, timeZone, localTimes, draws))
  {
    var starts, ends := localTimes(now, timeZone, ARRIVAL_FROM), localTimes(now, timeZone, ARRIVAL_TO);
    var late := draws.late < LATE_SHARE;
    PickIsArrival(starts, ends, late, now, FirstOpenWindow(starts, ends, late, now, 0), draws);
  }

  /** The first end of an arrival window whose late period has not ended at `t`. */
  function FirstNotOver(ends: seq<int>, t: int): (r: Option<int>)
    ensures IsFound(ends, t - LATE_MS, r)
  {
    if ends == [] then None
    else if ends[0] + LATE_MS >= t then Some(ends[0])
    else
      var r := FirstNotOver(ends[1..], t);
      FoundLater(ends, t - LATE_MS, r);
      r
  }

  /** The deadline is the end of the first late period that is not over at the arrival; two hours later without one. */
  ghost predicate IsDeadline(ends: seq<int>, arrival: int, deadline: int) {
    || IsFirstFrom(ends, arrival - LATE_MS, deadline - LATE_MS)
    || (deadline == arrival + LATE_MS && forall e :: e in ends ==> e + LATE_MS < arrival)
  }

  function DepotArrivalDeadline(arrival: int, timeZone: string, localTimes: LocalTimes): (deadline: int)
    ensures deadline >= arrival
    ensures IsDeadline(localTimes(arrival, timeZone, ARRIVAL_TO), arrival, deadline)
  {
    FirstNotOver(localTimes(arrival, timeZone, ARRIVAL_TO), arrival).GetOr(arrival) + LATE_MS
  }

  /** The departure is the first 06:00 after the arrival; a day later without one. */
  ghost predicate IsMorningAfter(mornings: seq<int>, arrival: int, departure: int) {
    || IsFirstFrom(mornings, arrival + 1, departure)
    || (departure == arrival + DAY_MS && forall t :: t in mornings ==> t <= arrival)
  }

  /** The scheduled departure if that is still to come, else the next morning's. */
  function DepotDepartureAt(arrival: int, timeZone: string, scheduled: Option<int>, localTimes: LocalTimes): (departure: int)
    ensures departure > arrival
    ensures if scheduled.Some? && scheduled.value > arrival then departure == scheduled.value
            else IsMorningAfter(localTimes(arrival, timeZone, DEFAULT_DEPARTURE), arrival, departure)
  {
    if scheduled.Some? && scheduled.value > arrival then scheduled.value
    else FirstAfter(localTimes(arrival, timeZone, DEFAULT_DEPARTURE), arrival).GetOr(arrival + DAY_MS)
  }

  // ----- the steps of one journey -----

  function WaitUntil(now: int, min: int, max: int, r: Random): (until: int)
    requires min < max
    ensures now + min <= until < now + max
  {
    now + min + FloorShare(r, max - min)
  }

  function RetryAt(now: int, draws: Draws): (until: int)
    ensures now + 30_000 <= until < now + 60_000
  {
    WaitUntil(now, 30_000, 60_000, draws.wait)
  }

  function GoAway(now: int, timeZone: string, localTimes: LocalTimes, draws: Draws): Journey {
    var dueAt := NextDepotArrival(now, timeZone, localTimes, draws);
    Journey(Away, dueAt, Some(DepotArrivalDeadline(dueAt, timeZone, localTimes)), timeZone, None, None)
  }

  function Arrived(timeZone: string, vehicle: Vehicle, now: int, localTimes: LocalTimes, draws: Draws): Journey {
    Journey(
      Plugged, WaitUntil(now, 5_000, 30_000, draws.wait), None, timeZone, Some(vehicle),
      Some(DepotDepartureAt(now, timeZone, vehicle.nextDepartureMs, localTimes)))
  }

  function Recorded(j: Journey, action: Action, now: int, localTimes: LocalTimes, draws: Draws): Journey {
    match action
    case StartCharging =>
      var departure := j.departureAt.GetOr(now);
      j.(step := Charging, dueAt := if now > departure then now else departure)
    case StopCharging => j.(step := Finishing, dueAt := WaitUntil(now, 10_000, 60_000, draws.wait))
    case Unplug => GoAway(now, j.timeZone, localTimes, draws)
    case _ => j
  }

  function Skipped(j: Journey, action: Action, inTransaction: bool, now: int, localTimes: LocalTimes, draws: Draws): Journey {
    if action == PlugIn && inTransaction then
      var departure := DepotDepartureAt(now, j.timeZone, None, localTimes);
      Journey(Charging, departure, None, j.timeZone, None, Some(departure))
    else if action == PlugIn then
      var retryAt := RetryAt(now, draws);
      if j.arrivalDeadline.Some? && retryAt > j.arrivalDeadline.value then GoAway(now, j.timeZone, localTimes, draws)
      else j.(dueAt := retryAt)
    else if inTransaction && action != StartCharging then
      j.(dueAt := RetryAt(now, draws))
    else if action == StartCharging && inTransaction then
      Recorded(j, StartCharging, now, localTimes, draws)
    else if action == StopCharging then
      j.(step := Finishing, dueAt := now)
    else
      GoAway(now, j.timeZone, localTimes, draws)
  }

  /**
   What every journey satisfies: away, there is no vehicle and the next arrival is
   not after the deadline; plugged in, there is a vehicle with a departure; a stop is
   never due before the departure.
   */
  predicate JourneyInv(j: Journey) {
    match j.step
    case Away => j.vehicle.None? && j.departureAt.None? && j.arrivalDeadline.Some? && j.dueAt <= j.arrivalDeadline.value
    case Plugged => j.vehicle.Some? && j.departureAt.Some? && j.arrivalDeadline.None?
    case Charging => j.departureAt.Some? && j.dueAt >= j.departureAt.value
    case Finishing => j.departureAt.Some?
  }

  /** The journey's next step is due. */
  predicate IsDue(j: Journey, action: Action, now: int) {
    j.dueAt <= now && action == NextAction(j.step)
  }

  /** The cards of the vehicles at a depot station. */
  function HeldTokensOf(journeys: map<string, Journey>): set<string> {
    set id | id in journeys && journeys[id].vehicle.Some? :: journeys[id].vehicle.value.idToken
  }

  /** The keys of the vehicles at a depot station. */
  function HeldVehiclesOf(journeys: map<string, Journey>): set<string> {
    set id | id in journeys && journeys[id].vehicle.Some? :: VehicleKey(journeys[id].vehicle.value)
  }

  // ----- runs over all stations -----

  datatype Event =
    | Ensure(id: string, timeZone: string)
    | Arrive(id: string, vehicle: Vehicle)
    | Record(id: string, action: Action)
    | Skip(id: string, action: Action, inTransaction: bool)
    | Drop(id: string)
    | Retain(ids: set<string>)

  /** An event, when it happens and its draws. */
  datatype Timed = Timed(event: Event, now: int, draws: Draws)

  function Apply(journeys: map<string, Journey>, t: Timed, localTimes: LocalTimes): map<string, Journey> {
    match t.event
    case Ensure(id, timeZone) =>
      if id in journeys then journeys[id := journeys[id].(timeZone := timeZone)]
      else journeys[id := GoAway(t.now, timeZone, localTimes, t.draws)]
    case Arrive(id, vehicle) =>
      var timeZone := if id in journeys then journeys[id].timeZone else "UTC";
      journeys[id := Arrived(timeZone, vehicle, t.now, localTimes, t.draws)]
    case Record(id, action) =>
      if id in journeys then journeys[id := Recorded(journeys[id], action, t.now, localTimes, t.draws)] else journeys
    case Skip(id, action, inTransaction) =>
      if id in journeys then journeys[id := Skipped(journeys[id], action, inTransaction, t.now, localTimes, t.draws)] else journeys
    case Drop(id) => journeys - {id}
    case Retain(ids) => map id | id in journeys && id in ids :: journeys[id]
  }

  /** Steps are taken only when they are due. */
  predicate Allowed(journeys: map<string, Journey>, t: Timed) {
    match t.event
    case Arrive(id, _) => id in journeys && IsDue(journeys[id], PlugIn, t.now)
    case Record(id, action) => id in journeys && IsDue(journeys[id], action, t.now) && action != PlugIn
    case Skip(id, action, _) => id in journeys && IsDue(journeys[id], action, t.now)
    case _ => true
  }
}
