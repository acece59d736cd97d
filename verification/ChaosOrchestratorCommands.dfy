/**
 Which command a tick sends: an offline station only comes back, a due step that is
 possible is tried, a start uses a card of the station's own pool or vehicle, and a
 plug-in at a depot brings one of its vehicles
 (packages/css/src/chaos-orchestrator.ts:816-1059).
 */
module ChaosOrchestratorCommands {
  import opened Basics
  import opened ChaosActions
  import opened DepotJourneyModel
  import opened RandomDraw
  import opened ChaosOrchestratorModel
  import opened ChaosOrchestratorSafety
  import opened ChaosOrchestratorTheorems
  import opened ChaosOrchestratorCards

  // ----- outages -----

  /** The tick brings the station back: it is asked to come online if the publish works. */
  ghost predicate ComesBack(s: State, i: TickInput, o: Outcome, id: string) {
    o.state == s.(offlineStations := s.offlineStations - {id}) && o.command == PublishedIf(i, Command(id, ComeOnline, None))
  }

  lemma PublicKeepsOffline(s: State, i: TickInput, at: string, action: Action)
    ensures PublicAction(s, i, at, action).state.offlineStations == s.offlineStations
  {
  }

  lemma DepotKeepsOffline(s: State, i: TickInput, due: Due, localTimes: LocalTimes)
    requires due.DepotDue?
    ensures DepotStep(s, i, due, localTimes).state.offlineStations == s.offlineStations
  {
  }

  lemma ActKeepsOffline(s: State, i: TickInput, due: Due, at: string, localTimes: LocalTimes)
    requires !due.NothingDue? ==> due.stationId == at
    ensures Act(s, i, due, at, localTimes).state.offlineStations == s.offlineStations
  {
    var offered := Offered(s, i, at, due.DepotDue?);
    if due.NothingDue? {
      if offered != [] {
        PublicKeepsOffline(s, i, at, Pick(offered, i.pickAction));
      }
    } else if due.action in offered {
      if due.DepotDue? {
        DepotKeepsOffline(s, i, due, localTimes);
      } else {
        PublicKeepsOffline(s, i, at, due.action);
      }
    }
  }

  /**
   A station that is offline is sent nothing until a tick visits it, which brings it back
   and does nothing else; a station goes offline only in an outage, while no step is due,
   and is asked to.
   */
  lemma OfflineExactly(s: State, i: TickInput, localTimes: LocalTimes, id: string)
    requires Consistent(s) && DueIsRight(s, i)
    ensures var o := Tick(s, i, localTimes);
            && (id in s.offlineStations && o.command.Some? && o.command.value.stationId == id ==> ComesBack(s, i, o, id))
            && (id in s.offlineStations && id !in o.state.offlineStations ==> ComesBack(s, i, o, id))
            && (id !in s.offlineStations && id in o.state.offlineStations ==>
                  i.outage && DueOf(s, i).NothingDue? && o.command == PublishedIf(i, Command(id, GoOffline, None)))
  {
    if s.stationIds != [] {
      var due, at := DueOf(s, i), StationOf(s, i);
      if at !in s.offlineStations && !(due.NothingDue? && i.outage) && !i.row.Missing? {
        ActKeepsOffline(s, i, due, at, localTimes);
        ActCommand(s, i, due, at, localTimes);
      }
    }
  }

  /** A tick that visits an offline station brings it back, whatever else it finds. */
  lemma VisitBringsBack(s: State, i: TickInput, localTimes: LocalTimes)
    requires DueIsRight(s, i) && s.stationIds != [] && StationOf(s, i) in s.offlineStations
    ensures ComesBack(s, i, Tick(s, i, localTimes), StationOf(s, i))
  {
  }

  /** An outage while no step is due takes the station of the tick offline, and ends its public journey if that has not started. */
  lemma OutageTakesOffline(s: State, i: TickInput, localTimes: LocalTimes)
    requires DueIsRight(s, i) && s.stationIds != [] && DueOf(s, i).NothingDue? && i.outage
    requires StationOf(s, i) !in s.offlineStations
    ensures var o, id := Tick(s, i, localTimes), StationOf(s, i);
            && o.state.offlineStations == s.offlineStations + {id}
            && o.command == PublishedIf(i, Command(id, GoOffline, None))
            && (id in o.state.journeys <==> id in s.journeys && s.journeys[id].step != Plugged)
            && o.state == s.(offlineStations := o.state.offlineStations, journeys := o.state.journeys)
  {
  }

  // ----- what is offered -----

  /** The state the actions are chosen for: in session with a session in memory or in the database, else as the row says. */
  predicate IsStatus(s: State, i: TickInput, id: string, status: StationStatus) {
    if id in s.chargingStations || (i.row.Row? && i.row.hasTransaction) then status == InSession
    else if i.row.Row? then status == i.row.status
    else status == Available
  }

  /** The cards a station may use: those of its fleet when it has one, the common ones otherwise. */
  function PoolOf(s: State, id: string): seq<Token> {
    if id in s.fleetTokens then s.fleetTokens[id] else s.tokens
  }

  /**
   An action is offered exactly when the station's protocol has it, the station's state
   allows it, a card is there if it needs one, and, at a depot station, it is no step of a
   session unless its own journey is due.
   */
  lemma OfferedExactly(s: State, i: TickInput, id: string, depotDue: bool, a: Action, status: StationStatus)
    requires IsStatus(s, i, id, status)
    ensures var connector := if i.row.Row? && i.row.connector.Some? then i.row.connector.value else "Available";
            a in Offered(s, i, id, depotDue) <==>
              && a in i.actions && (a.Notification? || a in StateActions(status, connector))
              && (PoolOf(s, id) == [] ==> a != Authorize && a != StartCharging)
              && (id in s.depotStations && !depotDue ==> a !in {PlugIn, Authorize, StartCharging, StopCharging, Unplug})
  {
  }

  // ----- due steps -----

  /** The tick reaches the station of the due step, which can be asked for it. */
  ghost predicate CanAct(s: State, i: TickInput, due: Due)
    requires DueIsRight(s, i)
  {
    && s.stationIds != [] && !due.NothingDue? && due == DueOf(s, i)
    && due.stationId !in s.offlineStations && !i.row.Missing?
  }

  /** A card of the station's pool that charges nowhere and belongs to no vehicle at a depot station. */
  ghost predicate HasFreeCard(s: State, id: string) {
    exists t :: t in PoolOf(s, id) && t.idToken !in s.chargingTokenByStation.Values && t.idToken !in HeldTokensOf(s.depotJourneys)
  }

  /** A vehicle of the depot that is at no station and whose card is in use nowhere. */
  ghost predicate HasFreeVehicle(s: State, id: string) {
    id in s.depotStations &&
    exists v :: v in s.depotStations[id].vehicles && VehicleKey(v) !in HeldVehiclesOf(s.depotJourneys)
                && v.idToken !in s.chargingTokenByStation.Values && v.idToken !in HeldTokensOf(s.depotJourneys)
  }

  /** Everything that the due step needs is there. */
  ghost predicate IsPossible(s: State, due: Due) {
    match due
    case PublicDue(id, action) => action == StartCharging ==> HasFreeCard(s, id)
    case DepotDue(id, action) => (action == PlugIn ==> HasFreeVehicle(s, id)) && (action == StartCharging ==> HasVehicle(s, id))
    case NothingDue => false
  }

  lemma FreeCards(s: State, id: string)
    ensures FreeTokens(TokensFor(s, id), BusyTokens(s)) != [] <==> HasFreeCard(s, id)
  {
    var free := FreeTokens(TokensFor(s, id), BusyTokens(s));
    if free != [] {
      assert free[0] in free;
    }
  }

  lemma FreeVehiclesOf(s: State, id: string)
    ensures id in s.depotStations ==>
              (FreeVehicles(s.depotStations[id].vehicles, BusyTokens(s), HeldVehiclesOf(s.depotJourneys)) != [] <==> HasFreeVehicle(s, id))
  {
    if id in s.depotStations {
      var free := FreeVehicles(s.depotStations[id].vehicles, BusyTokens(s), HeldVehiclesOf(s.depotJourneys));
      if free != [] {
        assert free[0] in free;
      }
    }
  }

  /** A due step that is offered and possible is tried: it is sent if the publish works. */
  lemma DueStepIsTried(s: State, i: TickInput, localTimes: LocalTimes)
    requires Consistent(s) && DueIsRight(s, i) && CanAct(s, i, DueOf(s, i))
    ensures var due, attempt := DueOf(s, i), Attempt(s, i, localTimes);
            if due.action in Offered(s, i, due.stationId, due.DepotDue?) && IsPossible(s, due) then
              attempt.Some? && attempt.value.stationId == due.stationId && attempt.value.action == due.action
            else attempt.None?
  {
    var due := DueOf(s, i);
    DueFacts(s, i);
    FreeCards(s, due.stationId);
    FreeVehiclesOf(s, due.stationId);
    SameOffer(s, i, due.stationId, due.DepotDue?);
    if due.action in Offered(s, i, due.stationId, due.DepotDue?) {
      if due.DepotDue? {
        DepotStepTried(s, i.(published := true), due, localTimes);
      } else {
        PublicStepTried(s, i.(published := true), due);
      }
    }
  }

  lemma DepotStepTried(s: State, i: TickInput, due: Due, localTimes: LocalTimes)
    requires i.published && due.DepotDue? && due.action in {PlugIn, StartCharging, StopCharging, Unplug}
    requires due.stationId in s.depotStations
    ensures var c := DepotStep(s, i, due, localTimes).command;
            if IsPossible(s, due) then c.Some? && c.value.stationId == due.stationId && c.value.action == due.action else c.None?
  {
    FreeVehiclesOf(s, due.stationId);
  }

  lemma PublicStepTried(s: State, i: TickInput, due: Due)
    requires i.published && due.PublicDue?
    ensures var c := PublicAction(s, i, due.stationId, due.action).command;
            if IsPossible(s, due) then c.Some? && c.value.stationId == due.stationId && c.value.action == due.action else c.None?
  {
    FreeCards(s, due.stationId);
  }

  // ----- which card, which vehicle -----

  /** A card of the station's fleet when it has one, of the common pool otherwise. */
  predicate IsOfPool(s: State, id: string, idToken: string) {
    exists t :: t in PoolOf(s, id) && t.idToken == idToken
  }

  lemma PublicStartCard(s: State, i: TickInput, at: string)
    ensures var c := PublicAction(s, i, at, StartCharging).command;
            c.Some? ==> c.value.idToken.Some? && IsOfPool(s, at, c.value.idToken.value)
  {
  }

  lemma DepotStartCard(s: State, i: TickInput, due: Due, localTimes: LocalTimes)
    requires due.DepotDue? && due.action == StartCharging
    ensures var c := DepotStep(s, i, due, localTimes).command;
            c.Some? ==> HasVehicle(s, due.stationId) && c.value.idToken == Some(VehicleOf(s, due.stationId).idToken)
  {
  }

  /** A start sent to a depot station for its journey uses the card of the vehicle there, any other start a card of the station's pool. */
  lemma StartCardIsRight(s: State, i: TickInput, localTimes: LocalTimes, id: string)
    requires Consistent(s) && DueIsRight(s, i) && StartsAt(Tick(s, i, localTimes).command, id)
    ensures var card := Tick(s, i, localTimes).command.value.idToken;
            && card.Some?
            && if DueOf(s, i).DepotDue? then HasVehicle(s, id) && card.value == VehicleOf(s, id).idToken
               else IsOfPool(s, id, card.value)
  {
    TickCommand(s, i, localTimes);
    DueFacts(s, i);
    var due, at := DueOf(s, i), StationOf(s, i);
    ActCommand(s, i, due, at, localTimes);
    if due.DepotDue? {
      DepotStartCard(s, i, due, localTimes);
    } else {
      PublicStartCard(s, i, at);
    }
  }

  /** The plug-in brought a vehicle of the depot that was free. */
  ghost predicate Brings(s: State, t: State, id: string) {
    && HasVehicle(t, id) && id in s.depotStations && VehicleOf(t, id) in s.depotStations[id].vehicles
    && VehicleKey(VehicleOf(t, id)) !in HeldVehiclesOf(s.depotJourneys)
    && VehicleOf(t, id).idToken !in BusyTokens(s)
  }

  lemma DepotPlugIn(s: State, i: TickInput, due: Due, localTimes: LocalTimes)
    requires due.DepotDue? && due.action == PlugIn
    ensures DepotStep(s, i, due, localTimes).command.Some? ==> Brings(s, DepotStep(s, i, due, localTimes).state, due.stationId)
  {
  }

  /** A plug-in sent for the journey of a depot station brings one of its vehicles that is free, and the vehicle is there then. */
  lemma PlugInBringsVehicle(s: State, i: TickInput, localTimes: LocalTimes)
    requires Consistent(s) && DueIsRight(s, i) && DueOf(s, i).DepotDue?
    ensures var o := Tick(s, i, localTimes);
            o.command.Some? && o.command.value.action == PlugIn ==> Brings(s, o.state, o.command.value.stationId)
  {
    var due, c := DueOf(s, i), Tick(s, i, localTimes).command;
    if c.Some? && c.value.action == PlugIn {
      TickCommand(s, i, localTimes);
      ActCommand(s, i, due, StationOf(s, i), localTimes);
      DepotPlugIn(s, i, due, localTimes);
    }
  }
}
