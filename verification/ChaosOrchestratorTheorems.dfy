/**
 What the orchestrator's commands mean: which card a start uses, when a depot
 station is sent a session step, and that a session keeps its card to its end
 (packages/css/src/chaos-orchestrator.ts:803-1060).
 */
module ChaosOrchestratorTheorems {
  import opened Basics
  import opened ChaosActions
  import opened DepotJourneyModel
  import opened RandomDraw
  import opened ChaosOrchestratorModel
  import opened ChaosOrchestratorSafety

  /** A station that charges, or has a transaction in the database, is offered no start. */
  lemma NoStartInSession(s: State, i: TickInput, id: string, depotDue: bool)
    requires StartCharging in Offered(s, i, id, depotDue)
    ensures id !in s.chargingStations && !HasTransaction(s, i, id)
  {
    StartIsOfferedExactly(i.actions, StatusOf(s, i, id), ConnectorOf(i));
  }

  /** A session step outside the depot journeys is never offered to a depot station. */
  lemma DepotStepsAreKeptBack(s: State, i: TickInput, id: string, action: Action)
    requires id in s.depotStations && action in Offered(s, i, id, false)
    ensures action !in DEPOT_JOURNEY_ACTIONS
  {
  }

  // ----- starts -----

  /** The card a start command uses was free, or is the card of the station's own vehicle. */
  ghost predicate CardIsFree(s: State, id: string, idToken: string) {
    && (forall x :: x in s.chargingTokenByStation ==> s.chargingTokenByStation[x] != idToken)
    && (forall x :: HasVehicle(s, x) && x != id ==> VehicleOf(s, x).idToken != idToken)
  }

  lemma PublicStart(s: State, i: TickInput, id: string, action: Action)
    requires Safe(s) && PublicAction(s, i, id, action).command.Some? && action == StartCharging
    ensures var o := PublicAction(s, i, id, action);
            && o.command.value.stationId == id && o.command.value.idToken.Some?
            && CardIsFree(s, id, o.command.value.idToken.value)
            && id in o.state.chargingTokenByStation && o.state.chargingTokenByStation[id] == o.command.value.idToken.value
  {
    var free := FreeTokens(TokensFor(s, id), BusyTokens(s));
    NotBusy(s, Pick(free, i.pickCard).idToken);
  }

  lemma DepotStart(s: State, i: TickInput, due: Due, localTimes: LocalTimes)
    requires Safe(s) && due.DepotDue? && DueIsTracked(s, i, due) && due.action == StartCharging
    requires due.stationId !in s.chargingStations && DepotStep(s, i, due, localTimes).command.Some?
    ensures var o := DepotStep(s, i, due, localTimes);
            && o.command.value.stationId == due.stationId && o.command.value.idToken.Some?
            && CardIsFree(s, due.stationId, o.command.value.idToken.value)
            && due.stationId in o.state.chargingTokenByStation
            && o.state.chargingTokenByStation[due.stationId] == o.command.value.idToken.value
  {
    assert HasVehicle(s, due.stationId);
  }

  /** The command is of the due step, or is offered to the station. */
  ghost predicate IsOfAct(s: State, i: TickInput, due: Due, id: string, o: Outcome, c: Command, localTimes: LocalTimes) {
    && c.stationId == id
    && c.action in Offered(s, i, id, due.DepotDue?)
    && (due.DepotDue? ==> c.action == due.action && o == DepotStep(s, i, due, localTimes))
    && (!due.DepotDue? ==> o == PublicAction(s, i, id, c.action))
  }

  lemma ActCommand(s: State, i: TickInput, due: Due, id: string, localTimes: LocalTimes)
    requires !due.NothingDue? ==> due.stationId == id
    ensures var o := Act(s, i, due, id, localTimes);
            o.command.Some? ==> IsOfAct(s, i, due, id, o, o.command.value, localTimes)
  {
  }

  /** The command of a tick brings a station back, cuts it off, or is of its session. */
  lemma TickCommand(s: State, i: TickInput, localTimes: LocalTimes)
    requires DueIsRight(s, i)
    ensures var o := Tick(s, i, localTimes);
            o.command.Some? && o.command.value.action != ComeOnline && o.command.value.action != GoOffline ==>
              s.stationIds != [] && o == Act(s, i, DueOf(s, i), StationOf(s, i), localTimes)
  {
  }

  predicate Charges(s: State, id: string, idToken: string) {
    id in s.chargingTokenByStation && s.chargingTokenByStation[id] == idToken
  }

  /** The start is for a station without a session, with a free card, and the station then charges with it. */
  ghost predicate IsFreeStart(s: State, t: State, c: Command) {
    && c.stationId !in s.chargingStations
    && c.idToken.Some?
    && CardIsFree(s, c.stationId, c.idToken.value)
    && Charges(t, c.stationId, c.idToken.value)
  }

  lemma ActStartIsFree(s: State, i: TickInput, due: Due, id: string, localTimes: LocalTimes)
    requires Safe(s) && DueIsTracked(s, i, due) && (!due.NothingDue? ==> due.stationId == id)
    ensures var o := Act(s, i, due, id, localTimes);
            o.command.Some? && o.command.value.action == StartCharging ==> IsFreeStart(s, o.state, o.command.value)
  {
    var o := Act(s, i, due, id, localTimes);
    if o.command.Some? && o.command.value.action == StartCharging {
      ActCommand(s, i, due, id, localTimes);
      NoStartInSession(s, i, id, due.DepotDue?);
      if due.DepotDue? {
        DepotStart(s, i, due, localTimes);
      } else {
        PublicStart(s, i, id, StartCharging);
      }
    }
  }

  /**
   Every start that is published is for a station without a session, with a card that
   charges nowhere and belongs to no vehicle at another depot station, and the
   station then charges with it.
   */
  lemma StartUsesAFreeCard(s: State, i: TickInput, localTimes: LocalTimes)
    requires Safe(s) && DueIsRight(s, i)
    ensures var o := Tick(s, i, localTimes);
            o.command.Some? && o.command.value.action == StartCharging ==> IsFreeStart(s, o.state, o.command.value)
  {
    TickCommand(s, i, localTimes);
    if s.stationIds != [] {
      DueFacts(s, i);
      ActStartIsFree(s, i, DueOf(s, i), StationOf(s, i), localTimes);
    }
  }

  // ----- depot stations -----

  /** The command is no session step, or not for a depot station, or is the due step of the station's journey. */
  predicate IsDepotStepDue(s: State, i: TickInput, due: Due, c: Command) {
    c.stationId in s.depotStations && c.action in DEPOT_JOURNEY_ACTIONS ==>
      && due.DepotDue? && due.stationId == c.stationId
      && c.stationId in s.depotJourneys && IsDue(s.depotJourneys[c.stationId], c.action, i.now)
  }

  lemma ActDepotCommandIsDue(s: State, i: TickInput, due: Due, id: string, localTimes: LocalTimes)
    requires DueIsTracked(s, i, due) && (!due.NothingDue? ==> due.stationId == id)
    ensures var command := Act(s, i, due, id, localTimes).command;
            command.Some? ==> IsDepotStepDue(s, i, due, command.value)
  {
    var command := Act(s, i, due, id, localTimes).command;
    ActCommand(s, i, due, id, localTimes);
    if command.Some? && id in s.depotStations && !due.DepotDue? {
      DepotStepsAreKeptBack(s, i, id, command.value.action);
    }
  }

  lemma DueDepotIsAsked(s: State, i: TickInput)
    requires DueIsRight(s, i)
    ensures DueOf(s, i).DepotDue? ==> i.depotDue == Some(DueOf(s, i).stationId)
  {
  }

  lemma NoSessionStep(c: Command)
    requires c.action in DEPOT_JOURNEY_ACTIONS
    ensures c.action != ComeOnline && c.action != GoOffline
  {
  }

  /** A depot station is sent a session step only when that step of its overnight journey is due. */
  lemma DepotCommandIsDue(s: State, i: TickInput, localTimes: LocalTimes)
    requires Consistent(s) && DueIsRight(s, i)
    ensures var o := Tick(s, i, localTimes);
            o.command.Some? && o.command.value.stationId in s.depotStations && o.command.value.action in DEPOT_JOURNEY_ACTIONS ==>
              && i.depotDue == Some(o.command.value.stationId)
              && IsDue(s.depotJourneys[o.command.value.stationId], o.command.value.action, i.now)
  {
    TickCommand(s, i, localTimes);
    var command := Tick(s, i, localTimes).command;
    if command.Some? && command.value.action in DEPOT_JOURNEY_ACTIONS {
      NoSessionStep(command.value);
      DueFacts(s, i);
      ActDepotCommandIsDue(s, i, DueOf(s, i), StationOf(s, i), localTimes);
      DueDepotIsAsked(s, i);
    }
  }

  /** The depot event of a due step that is possible: none when its publish failed. */
  function DepotStepEvent(s: State, i: TickInput, due: Due): Option<Event>
    requires due.DepotDue?
  {
    var id := due.stationId;
    var skip := Skip(id, due.action, HasTransaction(s, i, id));
    match due.action
    case PlugIn =>
      var vehicles := if id in s.depotStations then s.depotStations[id].vehicles else [];
      var free := FreeVehicles(vehicles, BusyTokens(s), HeldVehiclesOf(s.depotJourneys));
      if free == [] then Some(skip) else if i.published then Some(Arrive(id, Pick(free, i.pickCard))) else None
    case StartCharging =>
      if id !in s.depotJourneys || s.depotJourneys[id].vehicle.None? then Some(skip)
      else if i.published then Some(Record(id, StartCharging)) else None
    case _ => if i.published then Some(Record(id, due.action)) else None
  }

  /** What a tick does to the depot journeys: at most one event. */
  function TickEvent(s: State, i: TickInput): Option<Event>
    requires DueIsRight(s, i)
  {
    if s.stationIds == [] then None
    else
      var due, id := DueOf(s, i), StationOf(s, i);
      if id in s.offlineStations || (due.NothingDue? && i.outage) then None
      else if i.row.Missing? then Some(Drop(id))
      else if !due.DepotDue? then None
      else if due.action !in Offered(s, i, id, true) then Some(Skip(id, due.action, HasTransaction(s, i, id)))
      else DepotStepEvent(s, i, due)
  }

  /** The depot journeys moved by the event, which was allowed: its step was due. */
  ghost predicate MovedBy(s: State, t: State, e: Option<Event>, i: TickInput, localTimes: LocalTimes) {
    match e
    case None => t.depotJourneys == s.depotJourneys
    case Some(event) =>
      var timed := Timed(event, i.now, i.draws);
      Allowed(s.depotJourneys, timed) && t.depotJourneys == Apply(s.depotJourneys, timed, localTimes)
  }

  lemma DepotPlugInMoves(s: State, i: TickInput, due: Due, localTimes: LocalTimes)
    requires due.DepotDue? && DueIsTracked(s, i, due) && due.action == PlugIn
    ensures MovedBy(s, DepotStep(s, i, due, localTimes).state, DepotStepEvent(s, i, due), i, localTimes)
  {
  }

  lemma DepotSessionMoves(s: State, i: TickInput, due: Due, localTimes: LocalTimes)
    requires due.DepotDue? && DueIsTracked(s, i, due) && due.action != PlugIn
    ensures MovedBy(s, DepotStep(s, i, due, localTimes).state, DepotStepEvent(s, i, due), i, localTimes)
  {
  }

  lemma PublicActionMovesNothing(s: State, i: TickInput, id: string, action: Action)
    ensures PublicAction(s, i, id, action).state.depotJourneys == s.depotJourneys
  {
  }

  lemma PublicActMovesNothing(s: State, i: TickInput, due: Due, id: string, localTimes: LocalTimes)
    requires !due.DepotDue? && (!due.NothingDue? ==> due.stationId == id)
    ensures Act(s, i, due, id, localTimes).state.depotJourneys == s.depotJourneys
  {
    var offered := Offered(s, i, id, false);
    if due.PublicDue? {
      PublicActionMovesNothing(s, i, id, due.action);
    } else if offered != [] {
      PublicActionMovesNothing(s, i, id, Pick(offered, i.pickAction));
    }
  }

  /** What a tick does to the depot journeys when it acts on a due depot step. */
  lemma DepotActMoves(s: State, i: TickInput, due: Due, localTimes: LocalTimes)
    requires due.DepotDue? && DueIsTracked(s, i, due)
    ensures var offered := due.action in Offered(s, i, due.stationId, true);
            var skip := Skip(due.stationId, due.action, HasTransaction(s, i, due.stationId));
            MovedBy(s, Act(s, i, due, due.stationId, localTimes).state,
                    if offered then DepotStepEvent(s, i, due) else Some(skip), i, localTimes)
  {
    if due.action in Offered(s, i, due.stationId, true) {
      if due.action == PlugIn {
        DepotPlugInMoves(s, i, due, localTimes);
      } else {
        DepotSessionMoves(s, i, due, localTimes);
      }
    }
  }

  /** A tick that acts does what its event says. */
  lemma ActMoves(s: State, i: TickInput, localTimes: LocalTimes)
    requires Consistent(s) && DueIsRight(s, i) && s.stationIds != []
    requires var due, id := DueOf(s, i), StationOf(s, i);
             id !in s.offlineStations && !(due.NothingDue? && i.outage) && !i.row.Missing?
    ensures MovedBy(s, Act(s, i, DueOf(s, i), StationOf(s, i), localTimes).state, TickEvent(s, i), i, localTimes)
  {
    var due, id := DueOf(s, i), StationOf(s, i);
    DueFacts(s, i);
    if due.DepotDue? {
      DepotActMoves(s, i, due, localTimes);
    } else {
      PublicActMovesNothing(s, i, due, id, localTimes);
    }
  }

  /** A tick does to the depot journeys at most one thing, and takes a step only when it is due. */
  lemma TickIsDepotMove(s: State, i: TickInput, localTimes: LocalTimes)
    requires Consistent(s) && DueIsRight(s, i)
    ensures MovedBy(s, Tick(s, i, localTimes).state, TickEvent(s, i), i, localTimes)
  {
    if s.stationIds != [] {
      var due, id := DueOf(s, i), StationOf(s, i);
      if id !in s.offlineStations && !(due.NothingDue? && i.outage) && !i.row.Missing? {
        ActMoves(s, i, localTimes);
      }
    }
  }

  // ----- sessions -----

  /** A station that has a card before and after has the same card. */
  ghost predicate SameCards(s: State, t: State) {
    forall id :: id in s.chargingTokenByStation && id in t.chargingTokenByStation ==>
      t.chargingTokenByStation[id] == s.chargingTokenByStation[id]
  }

  lemma PublicActionSameCards(s: State, i: TickInput, id: string, action: Action)
    requires action == StartCharging ==> id !in s.chargingTokenByStation
    ensures SameCards(s, PublicAction(s, i, id, action).state)
  {
  }

  lemma DepotStepSameCards(s: State, i: TickInput, due: Due, localTimes: LocalTimes)
    requires due.DepotDue? && (due.action == StartCharging ==> due.stationId !in s.chargingTokenByStation)
    ensures SameCards(s, DepotStep(s, i, due, localTimes).state)
  {
  }

  lemma ActSameCards(s: State, i: TickInput, due: Due, id: string, localTimes: LocalTimes)
    requires Consistent(s) && (!due.NothingDue? ==> due.stationId == id)
    ensures SameCards(s, Act(s, i, due, id, localTimes).state)
  {
    var offered := Offered(s, i, id, due.DepotDue?);
    if StartCharging in offered {
      NoStartInSession(s, i, id, due.DepotDue?);
    }
    if due.NothingDue? {
      if offered != [] {
        PublicActionSameCards(s, i, id, Pick(offered, i.pickAction));
      }
    } else if due.action in offered {
      if due.DepotDue? {
        DepotStepSameCards(s, i, due, localTimes);
      } else {
        PublicActionSameCards(s, i, id, due.action);
      }
    }
  }

  /** A session keeps its card to its end: no tick and no refresh gives a station that has a card another one. */
  lemma SessionKeepsItsCard(s: State, turn: Turn, localTimes: LocalTimes)
    requires Safe(s) && CanStep(s, turn)
    ensures SameCards(s, Next(s, turn, localTimes))
  {
    if turn.TickStep? && s.stationIds != [] {
      var due, id := DueOf(s, turn.input), StationOf(s, turn.input);
      DueFacts(s, turn.input);
      ActSameCards(s, turn.input, due, id, localTimes);
    }
  }
}
