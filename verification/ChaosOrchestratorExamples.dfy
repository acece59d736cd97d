/**
 A short run of the orchestrator: only due steps are spaced. A random pick can start a
 session one second after its plug-in (packages/css/src/chaos-orchestrator.ts:938-976).
 */
module ChaosOrchestratorExamples {
  import opened Basics
  import opened ChaosActions
  import opened ChaosJourneysObject
  import opened DepotJourneyModel
  import opened RandomDraw
  import opened ChaosOrchestratorModel
  import opened ChaosOrchestratorSessions

  const NO_DRAWS := Draws(0.0, 0.0, 0.0, 0.0)
  const CARD := Token("card", "ISO14443")
  const LOADED := Loaded(["A"], [CARD], map[], map[], 0, _ => NO_DRAWS)

  /** A tick that is no journey tick and offers one action to the station. */
  function RandomTick(now: int, connector: string, action: Action): TickInput {
    TickInput(now, false, None, None, 0.0, false, Row(Available, Some(connector), false), [action], 0.0, 0.0, true, NO_DRAWS)
  }

  const PLUG_IN := RandomTick(0, "Available", PlugIn)
  const START := RandomTick(1_000, "Preparing", StartCharging)

  lemma KeepOne(a: Action, keep: Action -> bool)
    requires keep(a)
    ensures Keep([a], keep) == [a]
  {
    assert [a][1..] == [];
  }

  lemma PickOne<T>(x: T, r: Random)
    ensures Pick([x], r) == x
  {
  }

  /** The action is offered to station "A", which is no depot station and has no session. */
  lemma IsOffered(s: State, i: TickInput, a: Action)
    requires s.tokens == [CARD] && s.fleetTokens == map[] && s.depotStations == map[] && "A" !in s.chargingStations
    requires i.row.Row? && !i.row.hasTransaction && i.actions == [a]
    requires a in StateActions(i.row.status, ConnectorOf(i))
    ensures Offered(s, i, "A", false) == [a]
  {
    var valid := StateActions(i.row.status, ConnectorOf(i));
    KeepOne(a, (x: Action) => x.Notification? || x in valid);
  }

  lemma PlugInTick(s: State)
    requires s == Refresh(INITIAL, LOADED, NoCalendar())
    ensures DueIsRight(s, PLUG_IN) && TickMove(s, PLUG_IN) == Some(Took("A", PlugIn))
    ensures var t := Tick(s, PLUG_IN, NoCalendar()).state;
            t == s.(journeys := RecordPublic(s.journeys, "A", PlugIn, 0, NO_DRAWS))
  {
    PickOne("A", 0.0);
    PickOne(PlugIn, 0.0);
    IsOffered(s, PLUG_IN, PlugIn);
  }

  lemma StartTick(s: State)
    requires s.stationIds == ["A"] && s.tokens == [CARD] && s.fleetTokens == map[] && s.depotStations == map[]
    requires s.offlineStations == {} && s.chargingStations == {} && s.chargingTokenByStation == map[] && s.depotJourneys == map[]
    ensures DueIsRight(s, START) && TickMove(s, START) == Some(Took("A", StartCharging))
  {
    PickOne("A", 0.0);
    PickOne(StartCharging, 0.0);
    IsOffered(s, START, StartCharging);
    assert BusyTokens(s) == {};
    assert CARD in FreeTokens([CARD], {});
  }

  function NoCalendar(): LocalTimes {
    (_, _, _) => []
  }

  lemma ThreeTurns(a: State, b: State, c: State, t: Turn, u: Turn, v: Turn, localTimes: LocalTimes) returns (states: seq<State>)
    requires CanStep(INITIAL, t) && a == Next(INITIAL, t, localTimes)
    requires CanStep(a, u) && b == Next(a, u, localTimes)
    requires CanStep(b, v) && c == Next(b, v, localTimes)
    ensures states == [INITIAL, a, b, c] && IsRun(states, [t, u, v], localTimes)
  {
    states := [INITIAL, a, b, c];
    var turns := [t, u, v];
    forall i | 0 <= i < |turns|
      ensures CanStep(states[i], turns[i]) && states[i + 1] == Next(states[i], turns[i], localTimes)
    {
      assert i == 0 || i == 1 || i == 2;
    }
  }

  /** A run in which a station is plugged in and started a second later, both by random picks. */
  lemma RandomStepsAreNotSpaced() returns (states: seq<State>, turns: seq<Turn>)
    ensures IsRun(states, turns, NoCalendar()) && |turns| == 3
    ensures TurnMove(states[1], turns[1]) == Some(Dated(Took("A", PlugIn), 0, NO_DRAWS))
    ensures TurnMove(states[2], turns[2]) == Some(Dated(Took("A", StartCharging), 1_000, NO_DRAWS))
  {
    var loaded := Refresh(INITIAL, LOADED, NoCalendar());
    PlugInTick(loaded);
    var plugged := Tick(loaded, PLUG_IN, NoCalendar()).state;
    StartTick(plugged);
    var started := Tick(plugged, START, NoCalendar()).state;
    turns := [RefreshStep(LOADED), TickStep(PLUG_IN), TickStep(START)];
    states := ThreeTurns(loaded, plugged, started, turns[0], turns[1], turns[2], NoCalendar());
  }
}
