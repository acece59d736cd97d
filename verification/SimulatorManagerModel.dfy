/**
 The reconciliation of running simulators with the station rows
 (packages/css/src/simulator-manager.ts:180-440, packages/css/src/simulator-heal.ts).
 One step is a whole sync. What a sync reads of a station (its row, the state of its
 simulator, the TLS probe, whether the simulator starts) is its input.
 */
module SimulatorManagerModel {
  import opened Basics

  const STUCK_GRACE_MS := 45_000
  const MAX_HEAL_PER_TICK := 25
  const MAX_HEAL_ATTEMPTS := 5
  const TLS_PROBE_FAILURE_TTL_MS := 15_000

  datatype BootStatus = Accepted | Pending | Rejected

  /** What the running simulator of a station says. */
  datatype Observation = Observation(ready: bool, notReadyMs: int, bootStatus: Option<BootStatus>, offline: bool)

  /** An enabled station row, with what a sync finds out about it. */
  datatype Row = Row(
    id: string,
    stationId: string,
    targetUrl: string,
    allowedTarget: bool,
    usesTls: bool,
    seen: Observation,
    now: int,
    reachable: bool,
    starts: bool)

  /** The fields of the manager; a simulator is known by the css_stations id it was made for. */
  datatype State = State(
    simulators: map<string, string>,
    registered: set<string>,
    healAttempts: map<string, nat>,
    refusedTargets: set<string>,
    tlsProbeFailures: map<string, int>)

  const INITIAL := State(map[], {}, map[], {}, map[])

  /** What happened to stations, for the bounds on heals. */
  datatype LogEvent = SeenReady(id: string) | Healed(id: string) | Removed(ids: set<string>)

  /** A sync under way: the fields, the heals of this sync so far, and the log. */
  datatype Pass = Pass(state: State, healed: nat, log: seq<LogEvent>)

  function HealsOf(s: State, id: string): nat {
    if id in s.healAttempts then s.healAttempts[id] else 0
  }

  predicate IsStationStuck(seen: Observation, healAttempts: nat) {
    && !seen.ready
    && !seen.offline
    && seen.notReadyMs > STUCK_GRACE_MS
    && seen.bootStatus != Some(Pending) && seen.bootStatus != Some(Rejected)
    && healAttempts < MAX_HEAL_ATTEMPTS
  }

  /** The simulator is stopped and forgotten. */
  function Unload(s: State, id: string): State {
    s.(simulators := s.simulators - {id}, registered := s.registered - {id})
  }

  function Start(s: State, row: Row): State {
    if row.starts then
      s.(simulators := s.simulators[row.stationId := row.id], registered := s.registered + {row.stationId})
    else
      s.(simulators := s.simulators - {row.stationId})
  }

  /** A station without a simulator is started, if its target is allowed and reachable. */
  function Boot(s: State, row: Row): State {
    if !row.allowedTarget then
      s.(refusedTargets := s.refusedTargets + {row.stationId})
    else
      var t := s.(refusedTargets := s.refusedTargets - {row.stationId});
      if !row.usesTls then Start(t, row)
      else if row.targetUrl in t.tlsProbeFailures && t.tlsProbeFailures[row.targetUrl] > row.now then t
      else if !row.reachable then
        t.(tlsProbeFailures := t.tlsProbeFailures[row.targetUrl := row.now + TLS_PROBE_FAILURE_TTL_MS])
      else
        Start(t.(tlsProbeFailures := t.tlsProbeFailures - {row.targetUrl}), row)
  }

  function SyncRow(p: Pass, row: Row): Pass {
    var s, id := p.state, row.stationId;
    if id !in s.simulators then
      p.(state := Boot(s, row))
    else if s.simulators[id] != row.id then
      p.(state := Boot(Unload(s, id), row))
    else if row.seen.ready then
      p.(state := s.(healAttempts := s.healAttempts - {id}), log := p.log + [SeenReady(id)])
    else if p.healed < MAX_HEAL_PER_TICK && IsStationStuck(row.seen, HealsOf(s, id)) then
      var counted := s.(healAttempts := s.healAttempts[id := HealsOf(s, id) + 1]);
      Pass(Boot(Unload(counted, id), row), p.healed + 1, p.log + [Healed(id)])
    else
      p
  }

  function SyncRows(p: Pass, rows: seq<Row>): Pass {
    if rows == [] then p else SyncRow(SyncRows(p, rows[..|rows| - 1]), rows[|rows| - 1])
  }

  function RowIds(rows: seq<Row>): set<string> {
    set row | row in rows :: row.stationId
  }

  /** Stations are stopped and forgotten, with their heal counter. */
  function Forget(s: State, ids: set<string>): State {
    s.(simulators := s.simulators - ids, registered := s.registered - ids, healAttempts := s.healAttempts - ids)
  }

  /** Simulators without a row are forgotten. */
  function Prune(p: Pass, current: set<string>): Pass {
    var gone := p.state.simulators.Keys - current;
    p.(state := Forget(p.state, gone), log := p.log + [Removed(gone)])
  }

  function Sync(s: State, rows: seq<Row>, log: seq<LogEvent>): Pass {
    Prune(SyncRows(Pass(s, 0, log), rows), RowIds(rows))
  }

  /** `stop()` stops every simulator and leaves the registrations. */
  function StopAll(s: State): State {
    s.(simulators := map[])
  }
}
