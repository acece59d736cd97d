/** The chaos actions and the filter by station and connector state (packages/css/src/chaos-orchestrator.ts:26-144). */
module ChaosActions {

  /** An action name; `Notification` is any action that changes no connector, transaction or connectivity state. */
  datatype Action =
    | PlugIn | Unplug | Authorize | StartCharging | StopCharging
    | InjectFault | ClearFault | SuspendCharging | ResumeCharging
    | ComeOnline | GoOffline | SendStatusNotification | SendBootNotification
    | Notification(name: string)

  datatype StationStatus = Disconnected | Booting | Available | InSession | Faulted | Unavailable

  /** The session steps a depot station takes only from its overnight journey. */
  const DEPOT_JOURNEY_ACTIONS := {PlugIn, Authorize, StartCharging, StopCharging, Unplug}

  const PLUGGED_STATUSES := {"Preparing", "Occupied", "EVConnected", "SuspendedEV", "SuspendedEVSE", "Finishing"}
  const FINISHING_ACTIONS := {Unplug, GoOffline, InjectFault}
  const RESERVED_ACTIONS := {PlugIn, Authorize, GoOffline, InjectFault}

  function ValidByState(status: StationStatus): set<Action> {
    match status
    case Disconnected => {ComeOnline}
    case Booting => {}
    case Available => {PlugIn, Authorize, GoOffline, InjectFault, SendStatusNotification}
    case InSession => {StopCharging, Unplug, InjectFault, GoOffline, SuspendCharging, ResumeCharging}
    case Faulted => {ClearFault, GoOffline}
    case Unavailable => {ComeOnline, SendStatusNotification}
  }

  /** The state-changing actions that make sense. */
  function StateActions(status: StationStatus, connector: string): set<Action> {
    if connector == "Faulted" then ValidByState(Faulted)
    else if connector == "Finishing" then FINISHING_ACTIONS
    else if connector == "Reserved" then RESERVED_ACTIONS
    else if status == Available && connector in PLUGGED_STATUSES then ValidByState(status) + {StartCharging, Unplug}
    else ValidByState(status)
  }

  function Keep(actions: seq<Action>, keep: Action -> bool): (kept: seq<Action>)
    ensures forall a :: a in kept <==> a in actions && keep(a)
  {
    if actions == [] then []
    else (if keep(actions[0]) then [actions[0]] else []) + Keep(actions[1..], keep)
  }

  function FilterChaosActions(actions: seq<Action>, status: StationStatus, connector: string): seq<Action> {
    var valid := StateActions(status, connector);
    Keep(actions, (a: Action) => a.Notification? || a in valid)
  }

  /** A start is offered exactly to an idle station with a cable connected. */
  lemma StartIsOfferedExactly(actions: seq<Action>, status: StationStatus, connector: string)
    ensures StartCharging in FilterChaosActions(actions, status, connector) <==>
            && StartCharging in actions && status == Available
            && connector in {"Preparing", "Occupied", "EVConnected", "SuspendedEV", "SuspendedEVSE"}
  {
    var valid := StateActions(status, connector);
    assert StartCharging in valid <==>
           (status == Available && connector in {"Preparing", "Occupied", "EVConnected", "SuspendedEV", "SuspendedEVSE"});
  }
}
