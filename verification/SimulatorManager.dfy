/**
 The simulator manager object (packages/css/src/simulator-manager.ts:84-440): a sync
 loops over the rows and updates the maps in place. It does exactly the sync of
 SimulatorManagerModel.
 */
module SimulatorManagerObject {
  import opened Basics
  import opened SimulatorManagerModel
  import opened SimulatorManagerTheorems
  import opened ClockAlignedSchedulerObject

  lemma ForgetOne(s: State, ids: set<string>, id: string)
    ensures Forget(Forget(s, ids), {id}) == Forget(s, ids + {id})
  {
    assert (s.simulators - ids) - {id} == s.simulators - (ids + {id});
    assert (s.registered - ids) - {id} == s.registered - (ids + {id});
    assert (s.healAttempts - ids) - {id} == s.healAttempts - (ids + {id});
  }

  lemma ForgetNone(s: State)
    ensures Forget(s, {}) == s
  {
    assert s.simulators - {} == s.simulators;
    assert s.registered - {} == s.registered;
    assert s.healAttempts - {} == s.healAttempts;
  }

  lemma OneLess(gone: set<string>, rest: set<string>, id: string)
    requires id in rest
    ensures gone - (rest - {id}) == if id in gone then gone - rest + {id} else gone - rest
  {
  }

  class SimulatorManager {
    var simulators: map<string, string>
    const clockAlignedScheduler: ClockAlignedScheduler
    var healAttempts: map<string, nat>
    var refusedTargets: set<string>
    var tlsProbeFailureCache: map<string, int>
    var syncing: bool

    function State(): SimulatorManagerModel.State
      reads this, clockAlignedScheduler
    {
      SimulatorManagerModel.State.State(simulators, clockAlignedScheduler.stations.Keys, healAttempts, refusedTargets, tlsProbeFailureCache)
    }

    constructor ()
      ensures State() == INITIAL && !syncing && fresh(clockAlignedScheduler)
    {
      simulators, healAttempts, refusedTargets, tlsProbeFailureCache := map[], map[], {}, map[];
      syncing := false;
      clockAlignedScheduler := new ClockAlignedScheduler();
    }

    /** A simulator is made for the row, and kept only when it starts. */
    method StartSimulator(row: Row)
      modifies this`simulators, clockAlignedScheduler
      ensures State() == Start(old(State()), row)
    {
      simulators := simulators[row.stationId := row.id];
      if row.starts {
        clockAlignedScheduler.Register(row.stationId);
      } else {
        simulators := simulators - {row.stationId};
        assert simulators == old(simulators) - {row.stationId};
      }
    }

    method BootStation(row: Row)
      modifies this, clockAlignedScheduler
      ensures State() == Boot(old(State()), row) && syncing == old(syncing)
    {
      if !row.allowedTarget {
        refusedTargets := refusedTargets + {row.stationId};
        return;
      }
      refusedTargets := refusedTargets - {row.stationId};
      if row.usesTls {
        if row.targetUrl in tlsProbeFailureCache && tlsProbeFailureCache[row.targetUrl] > row.now {
          return;
        }
        if !row.reachable {
          tlsProbeFailureCache := tlsProbeFailureCache[row.targetUrl := row.now + TLS_PROBE_FAILURE_TTL_MS];
          return;
        }
        tlsProbeFailureCache := tlsProbeFailureCache - {row.targetUrl};
      }
      StartSimulator(row);
    }

    method StopSimulator(stationId: string)
      modifies this`simulators, clockAlignedScheduler
      ensures State() == Unload(old(State()), stationId)
    {
      clockAlignedScheduler.Unregister(stationId);
      simulators := simulators - {stationId};
    }

    /** One row of the sync; `p` is the sync so far. */
    method SyncOne(row: Row, healed: nat, ghost log: seq<LogEvent>) returns (healedNow: nat, ghost logNow: seq<LogEvent>)
      modifies this, clockAlignedScheduler
      ensures Pass(State(), healedNow, logNow) == SyncRow(Pass(old(State()), healed, log), row) && syncing == old(syncing)
    {
      var stationId := row.stationId;
      healedNow, logNow := healed, log;
      if stationId in simulators {
        if simulators[stationId] == row.id {
          if row.seen.ready {
            healAttempts := healAttempts - {stationId};
            logNow := log + [SeenReady(stationId)];
            return;
          }
          var attempts := if stationId in healAttempts then healAttempts[stationId] else 0;
          if healed >= MAX_HEAL_PER_TICK || !IsStationStuck(row.seen, attempts) {
            return;
          }
          healedNow := healed + 1;
          healAttempts := healAttempts[stationId := attempts + 1];
          logNow := log + [Healed(stationId)];
        }
        StopSimulator(stationId);
      }
      BootStation(row);
    }

    method ForgetStation(stationId: string)
      modifies this`simulators, this`healAttempts, clockAlignedScheduler
      ensures State() == Forget(old(State()), {stationId})
    {
      StopSimulator(stationId);
      healAttempts := healAttempts - {stationId};
    }

    /** Stops one simulator if its station has no row any more. */
    method ForgetMissing(
        stationId: string, current: set<string>, ghost was: SimulatorManagerModel.State, ghost done: set<string>)
      returns (ghost doneNow: set<string>)
      requires State() == Forget(was, done)
      modifies this`simulators, this`healAttempts, clockAlignedScheduler
      ensures doneNow == if stationId in current then done else done + {stationId}
      ensures State() == Forget(was, doneNow)
    {
      doneNow := done;
      if stationId !in current {
        ForgetOne(was, done, stationId);
        ForgetStation(stationId);
        doneNow := done + {stationId};
      }
    }

    /** Stops the simulators whose station has no row any more. */
    method StopMissing(current: set<string>)
      modifies this`simulators, this`healAttempts, clockAlignedScheduler
      ensures State() == Forget(old(State()), old(simulators).Keys - current)
    {
      ghost var was, done := State(), {};
      var rest := simulators.Keys;
      ForgetNone(was);
      while rest != {}
        invariant rest <= was.simulators.Keys && done == (was.simulators.Keys - current) - rest
        invariant State() == Forget(was, done)
        decreases |rest|
      {
        SomeString(rest);
        var stationId :| stationId in rest;
        OneLess(was.simulators.Keys - current, rest, stationId);
        rest := rest - {stationId};
        done := ForgetMissing(stationId, current, was, done);
      }
      assert done == was.simulators.Keys - current;
    }

    method SyncStationsInner(rows: seq<Row>, ghost log: seq<LogEvent>) returns (ghost logNow: seq<LogEvent>)
      modifies this, clockAlignedScheduler
      ensures State() == Sync(old(State()), rows, log).state && logNow == Sync(old(State()), rows, log).log
      ensures syncing == old(syncing)
    {
      var current: set<string> := {};
      var healed: nat := 0;
      logNow := log;
      for i := 0 to |rows|
        invariant Pass(State(), healed, logNow) == SyncRows(Pass(old(State()), 0, log), rows[..i])
        invariant current == RowIds(rows[..i])
        invariant syncing == old(syncing)
      {
        current := current + {rows[i].stationId};
        healed, logNow := SyncOne(rows[i], healed, logNow);
        assert rows[..i + 1][..i] == rows[..i];
        RowIdsOf(rows[..i + 1]);
      }
      assert rows[..|rows|] == rows;
      logNow := logNow + [Removed(simulators.Keys - current)];
      StopMissing(current);
    }

    /** A sync that is still running is not started again. */
    method SyncStations(rows: seq<Row>, ghost log: seq<LogEvent>) returns (ghost logNow: seq<LogEvent>)
      modifies this, clockAlignedScheduler
      ensures old(syncing) ==> State() == old(State()) && logNow == log
      ensures !old(syncing) ==> State() == Sync(old(State()), rows, log).state && logNow == Sync(old(State()), rows, log).log
      ensures syncing == old(syncing)
    {
      logNow := log;
      if syncing {
        return;
      }
      syncing := true;
      logNow := SyncStationsInner(rows, log);
      syncing := false;
    }

    method Stop()
      modifies this`simulators
      ensures State() == StopAll(old(State()))
    {
      simulators := map[];
    }
  }
}
