/**
 What every night of a depot keeps, over all stations and all interleavings of
 events, as long as a step is taken only when it is due
 (packages/css/src/chaos-journey.ts:240-399).
 */
module DepotJourneyRuns {
  import opened Basics
  import opened ChaosActions
  import opened DepotJourneyModel

  /**
   The journeys with their past: the last action recorded at a station, how many
   places of the cycle its skips took it forward since, and when its vehicle arrived.
   */
  datatype History = History(
    journeys: map<string, Journey>,
    last: map<string, Action>,
    skipped: map<string, nat>,
    arrivedAt: map<string, int>)

  const NO_HISTORY := History(map[], map[], map[], map[])

  /** Places of the cycle a skip takes a journey forward. */
  function Advance(action: Action, inTransaction: bool): nat {
    match action
    case PlugIn => if inTransaction then 2 else 0
    case StartCharging => if inTransaction then 1 else 3
    case _ => if inTransaction then 0 else 1
  }

  /** The place of an action in the cycle plug in, start, stop, unplug. */
  function Place(action: Action): (place: nat)
    ensures place < 4
  {
    match action
    case PlugIn => 0
    case StartCharging => 1
    case StopCharging => 2
    case _ => 3
  }

  function Noted(h: History, id: string, action: Action, journeys: map<string, Journey>): History {
    History(journeys, h.last[id := action], h.skipped[id := 0], h.arrivedAt)
  }

  function Observe(h: History, t: Timed, localTimes: LocalTimes): History {
    var journeys := Apply(h.journeys, t, localTimes);
    match t.event
    case Ensure(_, _) => h.(journeys := journeys)
    case Arrive(id, _) => Noted(h, id, PlugIn, journeys).(arrivedAt := h.arrivedAt[id := t.now])
    case Record(id, action) => Noted(h, id, action, journeys)
    case Skip(id, action, inTransaction) =>
      var before := if id in h.skipped then h.skipped[id] else 0;
      h.(journeys := journeys, skipped := h.skipped[id := before + Advance(action, inTransaction)])
    case Drop(id) => History(journeys, h.last - {id}, h.skipped - {id}, h.arrivedAt - {id})
    case Retain(ids) =>
      History(journeys, map id | id in h.last && id in ids :: h.last[id],
              map id | id in h.skipped && id in ids :: h.skipped[id],
              map id | id in h.arrivedAt && id in ids :: h.arrivedAt[id])
  }

  /** The journey of one station agrees with its past. */
  predicate StationInv(h: History, id: string)
    requires id in h.journeys
  {
    var j := h.journeys[id];
    && JourneyInv(j)
    && (j.vehicle.Some? ==> id in h.arrivedAt && j.departureAt.Some? && j.departureAt.value > h.arrivedAt[id])
    && (id in h.last ==>
          && id in h.skipped
          && Place(NextAction(j.step)) == (Place(h.last[id]) + 1 + h.skipped[id]) % 4)
    && (j.step == Plugged ==> id in h.last && h.last[id] == PlugIn && h.skipped[id] == 0)
  }

  predicate HistoryInv(h: History) {
    && h.last.Keys <= h.journeys.Keys
    && forall id :: id in h.journeys ==> StationInv(h, id)
  }

  // ----- each event keeps the invariant -----

  /** The journey of `id` is new, every other station is as before. */
  lemma OneStation(h: History, h': History, id: string)
    requires HistoryInv(h) && h'.journeys.Keys == h.journeys.Keys + {id}
    requires h'.last.Keys <= h.last.Keys + {id}
    requires StationInv(h', id)
    requires forall x :: x in h.journeys && x != id ==>
               && h'.journeys[x] == h.journeys[x]
               && (x in h'.last <==> x in h.last) && (x in h.last ==> h'.last[x] == h.last[x])
               && (x in h.skipped ==> x in h'.skipped && h'.skipped[x] == h.skipped[x])
               && (x in h.arrivedAt ==> x in h'.arrivedAt && h'.arrivedAt[x] == h.arrivedAt[x])
    ensures HistoryInv(h')
  {
    forall x | x in h'.journeys
      ensures StationInv(h', x)
    {
      if x != id {
        assert StationInv(h, x);
      }
    }
  }

  lemma EnsureKept(h: History, t: Timed, localTimes: LocalTimes)
    requires HistoryInv(h) && t.event.Ensure?
    ensures HistoryInv(Observe(h, t, localTimes))
  {
    OneStation(h, Observe(h, t, localTimes), t.event.id);
  }

  lemma ArriveKept(h: History, t: Timed, localTimes: LocalTimes)
    requires HistoryInv(h) && t.event.Arrive? && Allowed(h.journeys, t)
    ensures HistoryInv(Observe(h, t, localTimes))
  {
    OneStation(h, Observe(h, t, localTimes), t.event.id);
  }

  lemma RecordAdvances(j: Journey, action: Action, now: int, localTimes: LocalTimes, draws: Draws)
    requires JourneyInv(j) && IsDue(j, action, now) && action != PlugIn
    ensures var k := Recorded(j, action, now, localTimes, draws);
            && JourneyInv(k)
            && Place(NextAction(k.step)) == (Place(action) + 1) % 4
            && (k.vehicle.Some? ==> k.vehicle == j.vehicle && k.departureAt == j.departureAt)
            && k.step != Plugged
  {
  }

  lemma RecordKept(h: History, t: Timed, localTimes: LocalTimes)
    requires HistoryInv(h) && t.event.Record? && Allowed(h.journeys, t)
    ensures HistoryInv(Observe(h, t, localTimes))
  {
    var id := t.event.id;
    assert StationInv(h, id);
    RecordAdvances(h.journeys[id], t.event.action, t.now, localTimes, t.draws);
    OneStation(h, Observe(h, t, localTimes), id);
  }

  lemma SkipKept(h: History, t: Timed, localTimes: LocalTimes)
    requires HistoryInv(h) && t.event.Skip? && Allowed(h.journeys, t)
    ensures HistoryInv(Observe(h, t, localTimes))
  {
    var id := t.event.id;
    var j, j' := h.journeys[id], Observe(h, t, localTimes).journeys[id];
    assert StationInv(h, id);
    SkipAdvances(j, t.event.action, t.event.inTransaction, t.now, localTimes, t.draws);
    if id in h.last {
      PlacesAdd(Place(h.last[id]) + 1 + h.skipped[id], Advance(t.event.action, t.event.inTransaction));
    }
    OneStation(h, Observe(h, t, localTimes), id);
  }

  lemma PlacesAdd(a: nat, b: nat)
    ensures (a % 4 + b) % 4 == (a + b) % 4
  {
  }

  /** A skip keeps what a journey satisfies, and takes it as far along the cycle as `Advance` says. */
  lemma SkipAdvances(j: Journey, action: Action, inTransaction: bool, now: int, localTimes: LocalTimes, draws: Draws)
    requires JourneyInv(j) && IsDue(j, action, now)
    ensures var k := Skipped(j, action, inTransaction, now, localTimes, draws);
            && JourneyInv(k)
            && Place(NextAction(k.step)) == (Place(NextAction(j.step)) + Advance(action, inTransaction)) % 4
            && (k.vehicle.Some? ==> k.vehicle == j.vehicle && k.departureAt == j.departureAt)
            && k.step != Plugged
  {
  }

  lemma RemovalKept(h: History, t: Timed, localTimes: LocalTimes)
    requires HistoryInv(h) && (t.event.Drop? || t.event.Retain?)
    ensures HistoryInv(Observe(h, t, localTimes))
  {
    var h' := Observe(h, t, localTimes);
    forall x | x in h'.journeys
      ensures StationInv(h', x)
    {
      assert StationInv(h, x);
    }
  }

  lemma EventKept(h: History, t: Timed, localTimes: LocalTimes)
    requires HistoryInv(h) && Allowed(h.journeys, t)
    ensures HistoryInv(Observe(h, t, localTimes))
  {
    match t.event
    case Ensure(_, _) => EnsureKept(h, t, localTimes);
    case Arrive(_, _) => ArriveKept(h, t, localTimes);
    case Record(_, _) => RecordKept(h, t, localTimes);
    case Skip(_, _, _) => SkipKept(h, t, localTimes);
    case Drop(_) => RemovalKept(h, t, localTimes);
    case Retain(_) => RemovalKept(h, t, localTimes);
  }

  // ----- whole nights -----

  /** The histories a list of events leads through, every step taken only when due. */
  ghost predicate IsNight(hs: seq<History>, ts: seq<Timed>, localTimes: LocalTimes) {
    && |hs| == |ts| + 1 && hs[0] == NO_HISTORY
    && forall i :: 0 <= i < |ts| ==> Allowed(hs[i].journeys, ts[i]) && hs[i + 1] == Observe(hs[i], ts[i], localTimes)
  }

  lemma {:induction false} NightKeepsInv(hs: seq<History>, ts: seq<Timed>, localTimes: LocalTimes, n: nat)
    requires IsNight(hs, ts, localTimes) && n < |hs|
    ensures HistoryInv(hs[n])
  {
    if n > 0 {
      NightKeepsInv(hs, ts, localTimes, n - 1);
      EventKept(hs[n - 1], ts[n - 1], localTimes);
    }
  }

  /** The history is the end of a night. */
  ghost predicate EndsNight(h: History, localTimes: LocalTimes) {
    exists hs, ts :: IsNight(hs, ts, localTimes) && hs[|ts|] == h
  }

  lemma NightBegins(localTimes: LocalTimes)
    ensures EndsNight(NO_HISTORY, localTimes)
  {
    var hs, ts: seq<Timed> := [NO_HISTORY], [];
    assert IsNight(hs, ts, localTimes) && hs[|ts|] == NO_HISTORY;
  }

  lemma NightGoesOn(h: History, t: Timed, localTimes: LocalTimes)
    requires EndsNight(h, localTimes) && Allowed(h.journeys, t)
    ensures EndsNight(Observe(h, t, localTimes), localTimes)
  {
    var hs, ts :| IsNight(hs, ts, localTimes) && hs[|ts|] == h;
    var hs', ts' := hs + [Observe(h, t, localTimes)], ts + [t];
    forall i | 0 <= i < |ts'|
      ensures Allowed(hs'[i].journeys, ts'[i]) && hs'[i + 1] == Observe(hs'[i], ts'[i], localTimes)
    {
      if i < |ts| {
        assert hs'[i] == hs[i] && hs'[i + 1] == hs[i + 1] && ts'[i] == ts[i];
      }
    }
    assert IsNight(hs', ts', localTimes) && hs'[|ts'|] == Observe(h, t, localTimes);
  }

  lemma NightEndsInOrder(h: History, localTimes: LocalTimes)
    requires EndsNight(h, localTimes)
    ensures HistoryInv(h)
  {
    var hs, ts :| IsNight(hs, ts, localTimes) && hs[|ts|] == h;
    NightKeepsInv(hs, ts, localTimes, |ts|);
  }

  /** The action an event records at a station, if any. */
  function RecordedAction(event: Event): Option<Action> {
    match event
    case Arrive(_, _) => Some(PlugIn)
    case Record(_, action) => Some(action)
    case _ => None
  }

  /**
   The recorded actions of a station go round plug in, start, stop, unplug: the next
   one is the successor of the last one exactly when the skips in between took the
   journey forward by whole rounds.
   */
  lemma RecordedActionsGoRound(hs: seq<History>, ts: seq<Timed>, localTimes: LocalTimes, n: nat)
    requires IsNight(hs, ts, localTimes) && n < |ts|
    requires RecordedAction(ts[n].event).Some? && ts[n].event.id in hs[n].last
    ensures var id := ts[n].event.id;
            id in hs[n].skipped &&
            (Place(RecordedAction(ts[n].event).value) == (Place(hs[n].last[id]) + 1) % 4 <==> hs[n].skipped[id] % 4 == 0)
  {
    NightKeepsInv(hs, ts, localTimes, n);
    assert StationInv(hs[n], ts[n].event.id);
  }

  /** A start is recorded only directly after the plug-in of the vehicle that is at the station. */
  lemma StartFollowsPlugIn(hs: seq<History>, ts: seq<Timed>, localTimes: LocalTimes, n: nat)
    requires IsNight(hs, ts, localTimes) && n < |ts| && ts[n].event.Record? && ts[n].event.action == StartCharging
    ensures var id := ts[n].event.id;
            && id in hs[n].last && hs[n].last[id] == PlugIn
            && hs[n].journeys[id].vehicle.Some? && hs[n + 1].journeys[id].vehicle == hs[n].journeys[id].vehicle
  {
    NightKeepsInv(hs, ts, localTimes, n);
    assert StationInv(hs[n], ts[n].event.id);
  }

  /** No stop is taken, or skipped, before the departure; and a vehicle's departure is after its arrival. */
  lemma NoStopBeforeDeparture(hs: seq<History>, ts: seq<Timed>, localTimes: LocalTimes, n: nat)
    requires IsNight(hs, ts, localTimes) && n < |ts|
    requires (ts[n].event.Record? || ts[n].event.Skip?) && ts[n].event.action == StopCharging
    ensures var id := ts[n].event.id;
            && hs[n].journeys[id].departureAt.Some? && ts[n].now >= hs[n].journeys[id].departureAt.value
            && (hs[n].journeys[id].vehicle.Some? ==>
                  id in hs[n].arrivedAt && hs[n].arrivedAt[id] < hs[n].journeys[id].departureAt.value <= ts[n].now)
  {
    NightKeepsInv(hs, ts, localTimes, n);
    assert StationInv(hs[n], ts[n].event.id);
  }

  // ----- a blocked bay -----

  /** A vehicle waits for a blocked bay: at each instant its plug-in was due and put off. */
  ghost predicate Waits(js: seq<Journey>, nows: seq<int>, draws: seq<Draws>, localTimes: LocalTimes) {
    && |js| == |nows| + 1 == |draws| + 1
    && JourneyInv(js[0]) && js[0].step == Away
    && forall k, n :: 0 <= k < |nows| && n == k + 1 ==> PutOff(js[k], js[n], nows[k], draws[k], localTimes)
  }

  /** The plug-in was due and was put off, the vehicle still waits. */
  predicate PutOff(j: Journey, later: Journey, now: int, draws: Draws, localTimes: LocalTimes) {
    && IsDue(j, PlugIn, now)
    && later == Skipped(j, PlugIn, false, now, localTimes, draws)
    && later == j.(dueAt := RetryAt(now, draws))
    && later.arrivalDeadline.Some? && later.dueAt <= later.arrivalDeadline.value
  }

  /** After `k` retries the vehicle still waits until the same deadline, and 30 s passed for each. */
  lemma {:induction false} WaitGoesOn(js: seq<Journey>, nows: seq<int>, draws: seq<Draws>, localTimes: LocalTimes, k: nat)
    requires Waits(js, nows, draws, localTimes) && k <= |nows|
    ensures js[k].arrivalDeadline == js[0].arrivalDeadline && js[k].step == Away && js[k].vehicle == None
    ensures js[0].dueAt + 30_000 * k <= js[k].dueAt <= js[0].arrivalDeadline.value
  {
    if k > 0 {
      WaitGoesOn(js, nows, draws, localTimes, k - 1);
      var before := k - 1;
      assert PutOff(js[before], js[k], nows[before], draws[before], localTimes);
    }
  }

  /** A vehicle retries a blocked bay at most once for each 30 s between its arrival and its deadline. */
  lemma WaitIsBounded(js: seq<Journey>, nows: seq<int>, draws: seq<Draws>, localTimes: LocalTimes)
    requires Waits(js, nows, draws, localTimes)
    ensures 30_000 * |nows| <= js[0].arrivalDeadline.value - js[0].dueAt
  {
    WaitGoesOn(js, nows, draws, localTimes, |nows|);
  }

  /** A plug-in that is put off in the last 30 s before the deadline, or later, ends the wait: the next vehicle comes. */
  lemma BlockedBayIsGivenUp(j: Journey, now: int, localTimes: LocalTimes, draws: Draws)
    requires JourneyInv(j) && IsDue(j, PlugIn, now) && now > j.arrivalDeadline.value - 30_000
    ensures Skipped(j, PlugIn, false, now, localTimes, draws) == GoAway(now, j.timeZone, localTimes, draws)
    ensures Skipped(j, PlugIn, false, now, localTimes, draws).dueAt >= now
  {
  }

  // ----- a broken cycle -----

  /**
   Skips do break the cycle: when a session somebody else started runs at arrival
   time, the journey takes it over, and a stop follows the unplug directly.
   */
  lemma AdoptedSessionBreaksTheCycle(h: History, id: string, now: int, localTimes: LocalTimes, draws: Draws)
    requires HistoryInv(h) && id in h.journeys && IsDue(h.journeys[id], PlugIn, now)
    requires id in h.last && h.last[id] == Unplug
    ensures var adopt := Timed(Skip(id, PlugIn, true), now, draws);
            var h' := Observe(h, adopt, localTimes);
            var stop := Timed(Record(id, StopCharging), h'.journeys[id].dueAt, draws);
            Allowed(h.journeys, adopt) && Allowed(h'.journeys, stop) && h'.last[id] == Unplug && h'.skipped[id] % 4 == 2
  {
    assert StationInv(h, id);
  }

  const VAN := Vehicle("card", "ISO14443", None, None)

  /** The due step of the station, taken when it is due. */
  function DueStep(h: History, id: string, draws: Draws): Timed
    requires id in h.journeys
  {
    var j := h.journeys[id];
    Timed(if j.step == Away then Arrive(id, VAN) else Record(id, NextAction(j.step)), j.dueAt, draws)
  }

  /** Taking the due step leads to the next one. */
  lemma DueStepTaken(h: History, id: string, localTimes: LocalTimes, draws: Draws)
    requires EndsNight(h, localTimes) && id in h.journeys
    ensures var h' := Observe(h, DueStep(h, id, draws), localTimes);
            && EndsNight(h', localTimes) && id in h'.journeys && id in h'.last
            && h'.last[id] == NextAction(h.journeys[id].step)
            && Place(NextAction(h'.journeys[id].step)) == (Place(NextAction(h.journeys[id].step)) + 1) % 4
  {
    NightEndsInOrder(h, localTimes);
    DueStepObserved(h, id, localTimes, draws);
    NightGoesOn(h, DueStep(h, id, draws), localTimes);
  }

  lemma DueStepObserved(h: History, id: string, localTimes: LocalTimes, draws: Draws)
    requires HistoryInv(h) && id in h.journeys
    ensures Allowed(h.journeys, DueStep(h, id, draws))
    ensures var h' := Observe(h, DueStep(h, id, draws), localTimes);
            && id in h'.journeys && id in h'.last && h'.last[id] == NextAction(h.journeys[id].step)
            && Place(NextAction(h'.journeys[id].step)) == (Place(NextAction(h.journeys[id].step)) + 1) % 4
  {
    var j := h.journeys[id];
    assert StationInv(h, id);
    if j.step != Away {
      RecordAdvances(j, NextAction(j.step), j.dueAt, localTimes, draws);
    }
  }

  /** On every calendar a night leads to a stop recorded directly after an unplug. */
  lemma StopCanFollowUnplug(localTimes: LocalTimes, draws: Draws) returns (h: History, stop: Timed)
    ensures EndsNight(h, localTimes) && Allowed(h.journeys, stop) && stop.event == Record("S", StopCharging)
    ensures "S" in h.last && h.last["S"] == Unplug
  {
    NightBegins(localTimes);
    var ensured := Timed(Ensure("S", "UTC"), 0, draws);
    NightGoesOn(NO_HISTORY, ensured, localTimes);
    h := Observe(NO_HISTORY, ensured, localTimes);
    h := Visit(h, "S", localTimes, draws);
    NightEndsInOrder(h, localTimes);
    var now := h.journeys["S"].dueAt;
    AdoptedSessionBreaksTheCycle(h, "S", now, localTimes, draws);
    var adopt := Timed(Skip("S", PlugIn, true), now, draws);
    NightGoesOn(h, adopt, localTimes);
    h := Observe(h, adopt, localTimes);
    stop := Timed(Record("S", StopCharging), h.journeys["S"].dueAt, draws);
  }

  /** A whole visit: plug in, start, stop, unplug. */
  lemma Visit(h: History, id: string, localTimes: LocalTimes, draws: Draws) returns (after: History)
    requires EndsNight(h, localTimes) && id in h.journeys && h.journeys[id].step == Away
    ensures EndsNight(after, localTimes) && id in after.journeys && after.journeys[id].step == Away
    ensures id in after.last && after.last[id] == Unplug
  {
    after := h;
    DueStepTaken(after, id, localTimes, draws);
    after := Observe(after, DueStep(after, id, draws), localTimes);
    DueStepTaken(after, id, localTimes, draws);
    after := Observe(after, DueStep(after, id, draws), localTimes);
    DueStepTaken(after, id, localTimes, draws);
    after := Observe(after, DueStep(after, id, draws), localTimes);
    DueStepTaken(after, id, localTimes, draws);
    after := Observe(after, DueStep(after, id, draws), localTimes);
  }
}
