/**
 What every run of the chaos orchestrator keeps, over all sequences of ticks and
 refreshes: a vehicle is at one depot station, a card is used at one station, and
 the bookkeeping of the stations stays consistent.
 */
module ChaosOrchestratorSafety {
  import opened Basics
  import opened ChaosActions
  import opened ChaosJourneysObject
  import opened DepotJourneyModel
  import opened RandomDraw
  import opened ChaosOrchestratorModel

  // ----- exclusivity -----

  predicate HasVehicle(s: State, id: string) {
    id in s.depotJourneys && s.depotJourneys[id].vehicle.Some?
  }

  function VehicleOf(s: State, id: string): Vehicle
    requires HasVehicle(s, id)
  {
    s.depotJourneys[id].vehicle.value
  }

  /** No two depot stations hold the same card or vehicle. */
  ghost predicate VehiclesExclusive(s: State) {
    forall a, b :: HasVehicle(s, a) && HasVehicle(s, b) && a != b ==>
      VehicleOf(s, a).idToken != VehicleOf(s, b).idToken && VehicleKey(VehicleOf(s, a)) != VehicleKey(VehicleOf(s, b))
  }

  /** No card charges at two stations. */
  ghost predicate CardsExclusive(s: State) {
    forall a, b :: a in s.chargingTokenByStation && b in s.chargingTokenByStation && a != b ==>
      s.chargingTokenByStation[a] != s.chargingTokenByStation[b]
  }

  /** The card of a vehicle at a depot station charges at no other station. */
  ghost predicate HeldCardsStay(s: State) {
    forall a, b :: HasVehicle(s, a) && b in s.chargingTokenByStation && a != b ==>
      VehicleOf(s, a).idToken != s.chargingTokenByStation[b]
  }

  ghost predicate Exclusive(s: State) {
    VehiclesExclusive(s) && CardsExclusive(s) && HeldCardsStay(s)
  }

  /** The caches agree on which stations there are, and every depot journey is in order. */
  ghost predicate Consistent(s: State) {
    && s.depotJourneys.Keys == s.depotStations.Keys
    && (forall id :: id in s.depotStations ==> id in s.stationIds)
    && s.chargingTokenByStation.Keys == s.chargingStations
    && (forall id :: id in s.chargingStations ==> id in s.stationIds)
    && (forall id :: id in s.offlineStations ==> id in s.stationIds)
    && (forall id :: id in s.journeys ==> id in s.stationIds)
    && (forall id :: id in s.depotJourneys ==> JourneyInv(s.depotJourneys[id]))
  }

  // ----- the moves of a step -----

  /** Vehicles leave, cards stop charging, nothing new is held. */
  lemma Released(s: State, s': State)
    requires Exclusive(s)
    requires forall id :: HasVehicle(s', id) ==> HasVehicle(s, id) && VehicleOf(s', id) == VehicleOf(s, id)
    requires forall id :: id in s'.chargingTokenByStation ==>
               id in s.chargingTokenByStation && s'.chargingTokenByStation[id] == s.chargingTokenByStation[id]
    ensures Exclusive(s')
  {
  }

  lemma NotBusy(s: State, idToken: string)
    requires idToken !in BusyTokens(s)
    ensures forall id :: id in s.chargingTokenByStation ==> s.chargingTokenByStation[id] != idToken
    ensures forall id :: HasVehicle(s, id) ==> VehicleOf(s, id).idToken != idToken
  {
    forall id | HasVehicle(s, id)
      ensures VehicleOf(s, id).idToken != idToken
    {
      assert VehicleOf(s, id).idToken in HeldTokensOf(s.depotJourneys);
    }
    forall id | id in s.chargingTokenByStation
      ensures s.chargingTokenByStation[id] != idToken
    {
      assert s.chargingTokenByStation[id] in s.chargingTokenByStation.Values;
    }
  }

  /** A card that is free starts charging. */
  lemma FreeCardStarts(s: State, id: string, idToken: string)
    requires Exclusive(s) && idToken !in BusyTokens(s)
    ensures Exclusive(StartOn(s, id, idToken))
  {
    NotBusy(s, idToken);
    var t := StartOn(s, id, idToken);
    assert forall x :: HasVehicle(t, x) ==> HasVehicle(s, x) && VehicleOf(t, x) == VehicleOf(s, x);
  }

  /** The card of the station's own vehicle starts charging. */
  lemma OwnCardStarts(s: State, id: string)
    requires Exclusive(s) && HasVehicle(s, id)
    ensures Exclusive(StartOn(s, id, VehicleOf(s, id).idToken))
  {
    var t := StartOn(s, id, VehicleOf(s, id).idToken);
    assert forall x :: HasVehicle(t, x) ==> HasVehicle(s, x) && VehicleOf(t, x) == VehicleOf(s, x);
  }

  lemma VehicleNotHeld(s: State, key: string)
    requires key !in HeldVehiclesOf(s.depotJourneys)
    ensures forall id :: HasVehicle(s, id) ==> VehicleKey(VehicleOf(s, id)) != key
  {
    forall id | HasVehicle(s, id)
      ensures VehicleKey(VehicleOf(s, id)) != key
    {
      assert VehicleKey(VehicleOf(s, id)) in HeldVehiclesOf(s.depotJourneys);
    }
  }

  /** A vehicle that is free plugs in. */
  lemma FreeVehicleArrives(s: State, s': State, id: string, vehicle: Vehicle)
    requires Exclusive(s) && vehicle.idToken !in BusyTokens(s) && VehicleKey(vehicle) !in HeldVehiclesOf(s.depotJourneys)
    requires s'.chargingTokenByStation == s.chargingTokenByStation
    requires HasVehicle(s', id) && VehicleOf(s', id) == vehicle
    requires forall x :: x != id && HasVehicle(s', x) ==> HasVehicle(s, x) && VehicleOf(s', x) == VehicleOf(s, x)
    ensures Exclusive(s')
  {
    NotBusy(s, vehicle.idToken);
    VehicleNotHeld(s, VehicleKey(vehicle));
  }

  // ----- a depot event -----

  /** Only an arrival brings a vehicle to a station. */
  lemma DepotEventVehicles(s: State, e: Event, i: TickInput, localTimes: LocalTimes)
    requires e.Record? || e.Skip?
    ensures var t := DepotEvent(s, e, i, localTimes);
            forall id :: HasVehicle(t, id) ==> HasVehicle(s, id) && VehicleOf(t, id) == VehicleOf(s, id)
  {
  }

  lemma DepotEventConsistent(s: State, e: Event, i: TickInput, localTimes: LocalTimes)
    requires Consistent(s) && (e.Record? || e.Skip? || e.Arrive?) && e.id in s.depotStations
    requires Allowed(s.depotJourneys, Timed(e, i.now, i.draws))
    ensures Consistent(DepotEvent(s, e, i, localTimes))
  {
    var id := e.id;
    var j := s.depotJourneys[id];
    assert JourneyInv(j);
    assert e.Record? ==> JourneyInv(Recorded(j, e.action, i.now, localTimes, i.draws));
    assert e.Skip? ==> JourneyInv(Skipped(j, e.action, e.inTransaction, i.now, localTimes, i.draws));
  }

  lemma StartConsistent(s: State, id: string, idToken: string)
    requires Consistent(s) && id in s.stationIds
    ensures Consistent(StartOn(s, id, idToken))
  {
  }

  lemma StopConsistent(s: State, id: string)
    requires Consistent(s)
    ensures Consistent(StopOn(s, id))
  {
  }

  // ----- the parts of a tick -----

  predicate DueIsTracked(s: State, i: TickInput, due: Due) {
    match due
    case NothingDue => true
    case DepotDue(id, action) => id in s.depotJourneys && IsDue(s.depotJourneys[id], action, i.now)
    case PublicDue(id, action) => id in s.journeys && s.journeys[id].dueAt <= i.now && action == NextAction(s.journeys[id].step)
  }

  ghost predicate Safe(s: State) {
    Exclusive(s) && Consistent(s)
  }

  lemma SkipKept(s: State, i: TickInput, due: Due, localTimes: LocalTimes)
    requires Safe(s) && DueIsTracked(s, i, due) && !due.NothingDue?
    ensures Safe(SkipDue(s, i, due, localTimes))
  {
    var t := SkipDue(s, i, due, localTimes);
    if due.DepotDue? {
      var e := Skip(due.stationId, due.action, HasTransaction(s, i, due.stationId));
      DepotEventVehicles(s, e, i, localTimes);
      DepotEventConsistent(s, e, i, localTimes);
    }
    Released(s, t);
  }

  lemma PlugInKept(s: State, i: TickInput, id: string, vehicle: Vehicle, localTimes: LocalTimes)
    requires Safe(s) && id in s.depotJourneys && IsDue(s.depotJourneys[id], PlugIn, i.now)
    requires vehicle.idToken !in BusyTokens(s) && VehicleKey(vehicle) !in HeldVehiclesOf(s.depotJourneys)
    ensures Safe(DepotEvent(s, Arrive(id, vehicle), i, localTimes))
  {
    DepotEventConsistent(s, Arrive(id, vehicle), i, localTimes);
    FreeVehicleArrives(s, DepotEvent(s, Arrive(id, vehicle), i, localTimes), id, vehicle);
  }

  lemma DepotStartKept(s: State, i: TickInput, id: string, localTimes: LocalTimes)
    requires Safe(s) && id in s.depotJourneys && IsDue(s.depotJourneys[id], StartCharging, i.now) && HasVehicle(s, id)
    ensures Safe(StartOn(DepotEvent(s, Record(id, StartCharging), i, localTimes), id, VehicleOf(s, id).idToken))
  {
    var t := DepotEvent(s, Record(id, StartCharging), i, localTimes);
    DepotEventVehicles(s, Record(id, StartCharging), i, localTimes);
    DepotEventConsistent(s, Record(id, StartCharging), i, localTimes);
    Released(s, t);
    OwnCardStarts(t, id);
    StartConsistent(t, id, VehicleOf(s, id).idToken);
  }

  lemma DepotEndKept(s: State, i: TickInput, id: string, action: Action, localTimes: LocalTimes)
    requires Safe(s) && id in s.depotJourneys && IsDue(s.depotJourneys[id], action, i.now) && action != PlugIn
    ensures Safe(StopOn(DepotEvent(s, Record(id, action), i, localTimes), id))
  {
    var t := DepotEvent(s, Record(id, action), i, localTimes);
    DepotEventVehicles(s, Record(id, action), i, localTimes);
    DepotEventConsistent(s, Record(id, action), i, localTimes);
    StopConsistent(t, id);
    Released(s, StopOn(t, id));
  }

  lemma DepotPlugInKept(s: State, i: TickInput, due: Due, localTimes: LocalTimes)
    requires Safe(s) && due.DepotDue? && DueIsTracked(s, i, due) && due.action == PlugIn
    ensures Safe(DepotStep(s, i, due, localTimes).state)
  {
    SkipKept(s, i, due, localTimes);
    var id := due.stationId;
    var vehicles := if id in s.depotStations then s.depotStations[id].vehicles else [];
    var free := FreeVehicles(vehicles, BusyTokens(s), HeldVehiclesOf(s.depotJourneys));
    if free != [] {
      PlugInKept(s, i, id, Pick(free, i.pickCard), localTimes);
    }
  }

  lemma DepotStartStepKept(s: State, i: TickInput, due: Due, localTimes: LocalTimes)
    requires Safe(s) && due.DepotDue? && DueIsTracked(s, i, due) && due.action == StartCharging
    ensures Safe(DepotStep(s, i, due, localTimes).state)
  {
    SkipKept(s, i, due, localTimes);
    if HasVehicle(s, due.stationId) {
      DepotStartKept(s, i, due.stationId, localTimes);
    }
  }

  lemma DepotEndStepKept(s: State, i: TickInput, due: Due, localTimes: LocalTimes)
    requires Safe(s) && due.DepotDue? && DueIsTracked(s, i, due) && due.action != PlugIn && due.action != StartCharging
    ensures Safe(DepotStep(s, i, due, localTimes).state)
  {
    DepotEndKept(s, i, due.stationId, due.action, localTimes);
  }

  lemma DepotStepKept(s: State, i: TickInput, due: Due, localTimes: LocalTimes)
    requires Safe(s) && due.DepotDue? && DueIsTracked(s, i, due)
    ensures Safe(DepotStep(s, i, due, localTimes).state)
  {
    if due.action == PlugIn {
      DepotPlugInKept(s, i, due, localTimes);
    } else if due.action == StartCharging {
      DepotStartStepKept(s, i, due, localTimes);
    } else {
      DepotEndStepKept(s, i, due, localTimes);
    }
  }

  lemma PublishKept(s: State, i: TickInput, command: Command)
    requires Safe(s) && command.stationId in s.stationIds
    ensures Safe(Publish(s, i, command).state)
  {
    Released(s, Publish(s, i, command).state);
  }

  lemma PublicActionKept(s: State, i: TickInput, id: string, action: Action)
    requires Safe(s) && id in s.stationIds
    ensures Safe(PublicAction(s, i, id, action).state)
  {
    if action == StartCharging {
      var free := FreeTokens(TokensFor(s, id), BusyTokens(s));
      if free != [] {
        var idToken := Pick(free, i.pickCard).idToken;
        FreeCardStarts(s, id, idToken);
        StartConsistent(s, id, idToken);
        PublishKept(StartOn(s, id, idToken), i, Command(id, action, Some(idToken)));
      }
    } else if action == StopCharging || action == Unplug {
      StopConsistent(s, id);
      Released(s, StopOn(s, id));
      PublishKept(StopOn(s, id), i, Command(id, action, None));
    } else {
      PublishKept(s, i, Command(id, action, None));
    }
  }

  lemma DropKept(s: State, id: string)
    requires Safe(s)
    ensures Safe(DropStation(s, id))
  {
    Released(s, DropStation(s, id));
  }

  lemma OutageKept(s: State, i: TickInput, id: string)
    requires Safe(s) && id in s.stationIds
    ensures Safe(s.(offlineStations := s.offlineStations - {id}))
    ensures Safe(s.(offlineStations := s.offlineStations + {id},
                    journeys := RecordPublic(s.journeys, id, GoOffline, i.now, i.draws)))
  {
    Released(s, s.(offlineStations := s.offlineStations - {id}));
    Released(s, s.(offlineStations := s.offlineStations + {id},
                   journeys := RecordPublic(s.journeys, id, GoOffline, i.now, i.draws)));
  }

  lemma ActKept(s: State, i: TickInput, due: Due, id: string, localTimes: LocalTimes)
    requires Safe(s) && id in s.stationIds && DueIsTracked(s, i, due) && (!due.NothingDue? ==> due.stationId == id)
    ensures Safe(Act(s, i, due, id, localTimes).state)
  {
    var offered := Offered(s, i, id, due.DepotDue?);
    if due.NothingDue? {
      if offered != [] {
        PublicActionKept(s, i, id, Pick(offered, i.pickAction));
      }
    } else if due.action !in offered {
      SkipKept(s, i, due, localTimes);
    } else if due.DepotDue? {
      DepotStepKept(s, i, due, localTimes);
    } else {
      PublicActionKept(s, i, id, due.action);
    }
  }

  lemma DueFacts(s: State, i: TickInput)
    requires Consistent(s) && DueIsRight(s, i) && s.stationIds != []
    ensures DueIsTracked(s, i, DueOf(s, i)) && StationOf(s, i) in s.stationIds
  {
  }

  lemma TickKept(s: State, i: TickInput, localTimes: LocalTimes)
    requires Safe(s) && DueIsRight(s, i)
    ensures Safe(Tick(s, i, localTimes).state)
  {
    if s.stationIds != [] {
      var due, id := DueOf(s, i), StationOf(s, i);
      DueFacts(s, i);
      OutageKept(s, i, id);
      DropKept(s, id);
      ActKept(s, i, due, id, localTimes);
    }
  }

  /** A refresh keeps the journeys of known depot stations, a new one starts without a vehicle. */
  lemma RefreshedJourney(s: State, l: Loaded, localTimes: LocalTimes, id: string)
    requires Consistent(s) && id in Refresh(s, l, localTimes).depotJourneys
    ensures var j := Refresh(s, l, localTimes).depotJourneys[id];
            && JourneyInv(j)
            && (j.vehicle.Some? ==> id in s.depotJourneys && s.depotJourneys[id].vehicle == j.vehicle)
  {
    if id in s.depotJourneys {
      assert JourneyInv(s.depotJourneys[id]);
    }
  }

  lemma RefreshConsistent(s: State, l: Loaded, localTimes: LocalTimes)
    requires Consistent(s)
    ensures Consistent(Refresh(s, l, localTimes))
  {
    var t := Refresh(s, l, localTimes);
    forall id | id in t.depotJourneys
      ensures JourneyInv(t.depotJourneys[id])
    {
      RefreshedJourney(s, l, localTimes, id);
    }
    assert t.chargingTokenByStation.Keys == t.chargingStations;
  }

  lemma RefreshKept(s: State, l: Loaded, localTimes: LocalTimes)
    requires Safe(s)
    ensures Safe(Refresh(s, l, localTimes))
  {
    var t := Refresh(s, l, localTimes);
    RefreshConsistent(s, l, localTimes);
    forall id | HasVehicle(t, id)
      ensures HasVehicle(s, id) && VehicleOf(t, id) == VehicleOf(s, id)
    {
      RefreshedJourney(s, l, localTimes, id);
    }
    Released(s, t);
  }

  /** After every run no vehicle and no card is used twice, and the caches agree. */
  lemma {:induction false} RunIsSafe(states: seq<State>, steps: seq<Turn>, localTimes: LocalTimes, n: nat)
    requires IsRun(states, steps, localTimes) && n < |states|
    ensures Safe(states[n])
  {
    if n > 0 {
      RunIsSafe(states, steps, localTimes, n - 1);
      match steps[n - 1]
      case TickStep(input) => TickKept(states[n - 1], input, localTimes);
      case RefreshStep(loaded) => RefreshKept(states[n - 1], loaded, localTimes);
    }
  }
}
