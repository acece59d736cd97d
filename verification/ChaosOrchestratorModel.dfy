/**
 The chaos orchestrator's bookkeeping (packages/css/src/chaos-orchestrator.ts:559-1060):
 one step is a whole dispatch tick or a whole refresh. What a tick reads from
 outside (the clock, random draws, the station row, whether the publish worked) is
 its input.
 */
module ChaosOrchestratorModel {
  import opened Basics
  import opened ChaosActions
  import opened ChaosJourneysObject
  import opened DepotJourneyModel
  import opened RandomDraw

  datatype Token = Token(idToken: string, tokenType: string)

  datatype DepotStation = DepotStation(timeZone: string, vehicles: seq<Vehicle>)

  datatype State = State(
    stationIds: seq<string>,
    tokens: seq<Token>,
    fleetTokens: map<string, seq<Token>>,
    depotStations: map<string, DepotStation>,
    offlineStations: set<string>,
    chargingStations: set<string>,
    chargingTokenByStation: map<string, string>,
    journeys: map<string, PublicJourney>,
    depotJourneys: map<string, Journey>)

  const INITIAL := State([], [], map[], map[], {}, {}, map[], map[], map[])

  /** The read of the station's row: it failed, found no enabled row, or gave the station's state. */
  datatype RowRead = Failed | Missing | Row(status: StationStatus, connector: Option<string>, hasTransaction: bool)

  /** What a tick finds outside; `actions` are the actions of the station's protocol. */
  datatype TickInput = TickInput(
    now: int,
    journeyTick: bool,
    depotDue: Option<string>,
    publicDue: Option<string>,
    pickStation: Random,
    outage: bool,
    row: RowRead,
    actions: seq<Action>,
    pickAction: Random,
    pickCard: Random,
    published: bool,
    draws: Draws)

  datatype Due = NothingDue | DepotDue(stationId: string, action: Action) | PublicDue(stationId: string, action: Action)

  /** A command on the css_commands channel, with the card a start uses. */
  datatype Command = Command(stationId: string, action: Action, idToken: Option<string>)

  datatype Outcome = Outcome(state: State, command: Option<Command>)

  /**
   On a journey tick the depot journeys are asked which step is due, then the others:
   any due station may be named, and one is when there is one.
   */
  predicate DueIsRight(s: State, i: TickInput) {
    i.journeyTick ==>
      && (i.depotDue.Some? ==> i.depotDue.value in s.depotJourneys && s.depotJourneys[i.depotDue.value].dueAt <= i.now)
      && (i.depotDue.None? ==>
            && (forall id :: id in s.depotJourneys ==> s.depotJourneys[id].dueAt > i.now)
            && (i.publicDue.Some? ==> i.publicDue.value in s.journeys && s.journeys[i.publicDue.value].dueAt <= i.now)
            && (i.publicDue.None? ==> forall id :: id in s.journeys ==> s.journeys[id].dueAt > i.now))
  }

  function DueOf(s: State, i: TickInput): Due
    requires DueIsRight(s, i)
  {
    if !i.journeyTick then NothingDue
    else if i.depotDue.Some? then DepotDue(i.depotDue.value, NextAction(s.depotJourneys[i.depotDue.value].step))
    else if i.publicDue.Some? then PublicDue(i.publicDue.value, NextAction(s.journeys[i.publicDue.value].step))
    else NothingDue
  }

  function TokensFor(s: State, stationId: string): seq<Token> {
    if stationId in s.fleetTokens then s.fleetTokens[stationId] else s.tokens
  }

  /** The cards that charge somewhere or belong to a vehicle at a depot station. */
  function BusyTokens(s: State): set<string> {
    s.chargingTokenByStation.Values + HeldTokensOf(s.depotJourneys)
  }

  function FreeTokens(pool: seq<Token>, busy: set<string>): (free: seq<Token>)
    ensures forall t :: t in free <==> t in pool && t.idToken !in busy
  {
    if pool == [] then []
    else (if pool[0].idToken in busy then [] else [pool[0]]) + FreeTokens(pool[1..], busy)
  }

  function FreeVehicles(vehicles: seq<Vehicle>, busyTokens: set<string>, busyVehicles: set<string>): (free: seq<Vehicle>)
    ensures forall v :: v in free <==> v in vehicles && v.idToken !in busyTokens && VehicleKey(v) !in busyVehicles
  {
    if vehicles == [] then []
    else (if vehicles[0].idToken in busyTokens || VehicleKey(vehicles[0]) in busyVehicles then [] else [vehicles[0]])
         + FreeVehicles(vehicles[1..], busyTokens, busyVehicles)
  }

  // ----- the tick -----

  function HasTransaction(s: State, i: TickInput, stationId: string): bool {
    stationId in s.chargingStations || (i.row.Row? && i.row.hasTransaction)
  }

  function StatusOf(s: State, i: TickInput, stationId: string): StationStatus {
    if HasTransaction(s, i, stationId) then InSession
    else if i.row.Row? then i.row.status
    else Available
  }

  function ConnectorOf(i: TickInput): string {
    if i.row.Row? then i.row.connector.GetOr("Available") else "Available"
  }

  /** The actions that pass every filter of the tick. */
  function Offered(s: State, i: TickInput, stationId: string, depotDue: bool): seq<Action> {
    var inState := FilterChaosActions(i.actions, StatusOf(s, i, stationId), ConnectorOf(i));
    var withCard :=
      if TokensFor(s, stationId) == [] then Keep(inState, (a: Action) => a != Authorize && a != StartCharging) else inState;
    if stationId in s.depotStations && !depotDue then Keep(withCard, (a: Action) => a !in DEPOT_JOURNEY_ACTIONS) else withCard
  }

  function DropStation(s: State, stationId: string): State {
    State(
      Others(s.stationIds, stationId), s.tokens, s.fleetTokens, s.depotStations - {stationId},
      s.offlineStations - {stationId}, s.chargingStations - {stationId}, s.chargingTokenByStation - {stationId},
      s.journeys - {stationId}, s.depotJourneys - {stationId})
  }

  function StartOn(s: State, stationId: string, idToken: string): State {
    s.(chargingStations := s.chargingStations + {stationId},
       chargingTokenByStation := s.chargingTokenByStation[stationId := idToken])
  }

  function StopOn(s: State, stationId: string): State {
    s.(chargingStations := s.chargingStations - {stationId},
       chargingTokenByStation := s.chargingTokenByStation - {stationId})
  }

  function DepotEvent(s: State, e: Event, i: TickInput, localTimes: LocalTimes): State {
    s.(depotJourneys := Apply(s.depotJourneys, Timed(e, i.now, i.draws), localTimes))
  }

  /** The due step is not possible now. */
  function SkipDue(s: State, i: TickInput, due: Due, localTimes: LocalTimes): State
    requires !due.NothingDue?
  {
    var inTransaction := HasTransaction(s, i, due.stationId);
    if due.DepotDue? then
      DepotEvent(s, Skip(due.stationId, due.action, inTransaction), i, localTimes)
    else
      s.(journeys := SkipPublic(s.journeys, due.stationId, due.action, inTransaction, i.now, i.draws))
  }

  /** The step of a depot journey, when nothing was published the journey stays due. */
  function DepotStep(s: State, i: TickInput, due: Due, localTimes: LocalTimes): Outcome
    requires due.DepotDue?
  {
    var id := due.stationId;
    match due.action
    case PlugIn =>
      var vehicles := if id in s.depotStations then s.depotStations[id].vehicles else [];
      var free := FreeVehicles(vehicles, BusyTokens(s), HeldVehiclesOf(s.depotJourneys));
      if free == [] then Outcome(SkipDue(s, i, due, localTimes), None)
      else if !i.published then Outcome(s, None)
      else Outcome(DepotEvent(s, Arrive(id, Pick(free, i.pickCard)), i, localTimes), Some(Command(id, PlugIn, None)))
    case StartCharging =>
      var vehicle := if id in s.depotJourneys then s.depotJourneys[id].vehicle else None;
      if vehicle.None? then Outcome(SkipDue(s, i, due, localTimes), None)
      else if !i.published then Outcome(s, None)
      else
        Outcome(StartOn(DepotEvent(s, Record(id, StartCharging), i, localTimes), id, vehicle.value.idToken),
                Some(Command(id, StartCharging, Some(vehicle.value.idToken))))
    case _ =>
      if !i.published then Outcome(s, None)
      else Outcome(StopOn(DepotEvent(s, Record(id, due.action), i, localTimes), id), Some(Command(id, due.action, None)))
  }

  /** The action is published and, when that worked, recorded. */
  function Publish(s: State, i: TickInput, command: Command): Outcome {
    if i.published then
      Outcome(s.(journeys := RecordPublic(s.journeys, command.stationId, command.action, i.now, i.draws)), Some(command))
    else
      Outcome(s, None)
  }

  /** An action outside the depot journeys. */
  function PublicAction(s: State, i: TickInput, stationId: string, action: Action): Outcome {
    if action == StartCharging then
      var free := FreeTokens(TokensFor(s, stationId), BusyTokens(s));
      if free == [] then Outcome(s, None)
      else
        var idToken := Pick(free, i.pickCard).idToken;
        Publish(StartOn(s, stationId, idToken), i, Command(stationId, action, Some(idToken)))
    else
      Publish(if action == StopCharging || action == Unplug then StopOn(s, stationId) else s, i, Command(stationId, action, None))
  }

  function Act(s: State, i: TickInput, due: Due, stationId: string, localTimes: LocalTimes): Outcome
    requires !due.NothingDue? ==> due.stationId == stationId
  {
    var offered := Offered(s, i, stationId, due.DepotDue?);
    if due.NothingDue? then
      if offered == [] then Outcome(s, None) else PublicAction(s, i, stationId, Pick(offered, i.pickAction))
    else if due.action !in offered then
      Outcome(SkipDue(s, i, due, localTimes), None)
    else if due.DepotDue? then
      DepotStep(s, i, due, localTimes)
    else
      PublicAction(s, i, stationId, due.action)
  }

  function StationOf(s: State, i: TickInput): string
    requires DueIsRight(s, i) && s.stationIds != []
  {
    var due := DueOf(s, i);
    if due.NothingDue? then Pick(s.stationIds, i.pickStation) else due.stationId
  }

  function PublishedIf(i: TickInput, command: Command): Option<Command> {
    if i.published then Some(command) else None
  }

  function Tick(s: State, i: TickInput, localTimes: LocalTimes): Outcome
    requires DueIsRight(s, i)
  {
    if s.stationIds == [] then
      Outcome(s, None)
    else
      var due := DueOf(s, i);
      var id := StationOf(s, i);
      if id in s.offlineStations then
        Outcome(s.(offlineStations := s.offlineStations - {id}), PublishedIf(i, Command(id, ComeOnline, None)))
      else if due.NothingDue? && i.outage then
        Outcome(s.(offlineStations := s.offlineStations + {id},
                   journeys := RecordPublic(s.journeys, id, GoOffline, i.now, i.draws)),
                PublishedIf(i, Command(id, GoOffline, None)))
      else if i.row.Missing? then
        Outcome(DropStation(s, id), None)
      else
        Act(s, i, due, id, localTimes)
  }

  // ----- the refresh -----

  /** What a refresh loads, with its clock and the draws of the stations that are new. */
  datatype Loaded = Loaded(
    stationIds: seq<string>,
    tokens: seq<Token>,
    fleetTokens: map<string, seq<Token>>,
    depotStations: map<string, DepotStation>,
    now: int,
    draws: string -> Draws)

  /** The journey of a depot station after a refresh: known ones go on, a new one waits for its evening. */
  function EnsuredJourney(known: map<string, Journey>, id: string, depot: DepotStation, l: Loaded, localTimes: LocalTimes): Journey {
    if id in known then known[id].(timeZone := depot.timeZone)
    else GoAway(l.now, depot.timeZone, localTimes, l.draws(id))
  }

  /** The journeys after a refresh. */
  function AllJourneys(was: map<string, Journey>, depots: map<string, DepotStation>, l: Loaded, localTimes: LocalTimes)
    : map<string, Journey>
  {
    map id | id in depots :: EnsuredJourney(was, id, depots[id], l, localTimes)
  }

  function Kept(ids: set<string>, live: seq<string>): set<string> {
    set id | id in ids && id in live
  }

  function KeptEntries<V>(entries: map<string, V>, live: seq<string>): map<string, V> {
    map id | id in entries && id in live :: entries[id]
  }

  function LiveDepots(l: Loaded): map<string, DepotStation> {
    KeptEntries(l.depotStations, l.stationIds)
  }

  function Refresh(s: State, l: Loaded, localTimes: LocalTimes): State {
    var depots := LiveDepots(l);
    State(
      l.stationIds, l.tokens, l.fleetTokens, depots,
      Kept(s.offlineStations, l.stationIds), Kept(s.chargingStations, l.stationIds),
      KeptEntries(s.chargingTokenByStation, l.stationIds), KeptEntries(s.journeys, l.stationIds),
      AllJourneys(s.depotJourneys, depots, l, localTimes))
  }

  // ----- runs -----

  datatype Turn = TickStep(input: TickInput) | RefreshStep(loaded: Loaded)

  predicate CanStep(s: State, step: Turn) {
    step.TickStep? ==> DueIsRight(s, step.input)
  }

  function Next(s: State, step: Turn, localTimes: LocalTimes): State
    requires CanStep(s, step)
  {
    match step
    case TickStep(input) => Tick(s, input, localTimes).state
    case RefreshStep(loaded) => Refresh(s, loaded, localTimes)
  }

  ghost predicate IsRun(states: seq<State>, steps: seq<Turn>, localTimes: LocalTimes) {
    && |states| == |steps| + 1 && states[0] == INITIAL
    && forall i :: 0 <= i < |steps| ==> CanStep(states[i], steps[i]) && states[i + 1] == Next(states[i], steps[i], localTimes)
  }
}
