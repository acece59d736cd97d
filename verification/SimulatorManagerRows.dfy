/**
 What a sync does to each station, exactly: when it is healed, when it runs afterwards,
 and what a failed TLS probe does (packages/css/src/simulator-manager.ts:278-440,
 packages/css/src/simulator-heal.ts:28-42).
 */
module SimulatorManagerRows {
  import opened SimulatorManagerModel
  import opened SimulatorManagerTheorems

  /** The station's simulator is the one of the row. */
  predicate RunsRow(s: State, row: Row) {
    row.stationId in s.simulators && s.simulators[row.stationId] == row.id
  }

  /**
   A running station is stuck: it has not been ready for more than 45 s although it is not
   offline on purpose and was not told to wait or refused, and healing it was tried less
   than five times; and this sync has healed less than 25 stations.
   */
  predicate MustHeal(p: Pass, row: Row) {
    && RunsRow(p.state, row)
    && !row.seen.ready && !row.seen.offline && row.seen.notReadyMs > 45_000
    && (row.seen.bootStatus.None? || row.seen.bootStatus.value == Accepted)
    && (row.stationId in p.state.healAttempts ==> p.state.healAttempts[row.stationId] < 5)
    && p.healed < 25
  }

  /** A row heals its station exactly when the station is stuck, and sees it ready exactly when it runs and is. */
  lemma HealsExactly(p: Pass, row: Row)
    ensures var q := SyncRow(p, row);
            && (MustHeal(p, row) <==> q.log == p.log + [Healed(row.stationId)])
            && (RunsRow(p.state, row) && row.seen.ready <==> q.log == p.log + [SeenReady(row.stationId)])
            && (!MustHeal(p, row) && !(RunsRow(p.state, row) && row.seen.ready) ==> q.log == p.log)
            && q.healed == p.healed + (if MustHeal(p, row) then 1 else 0)
            && HealsOf(q.state, row.stationId) ==
               if RunsRow(p.state, row) && row.seen.ready then 0
               else HealsOf(p.state, row.stationId) + if MustHeal(p, row) then 1 else 0
  {
    var s, id := p.state, row.stationId;
    if id !in s.simulators {
      BootEffect(s, row);
    } else {
      ReloadEffect(s, row);
      ReloadEffect(s.(healAttempts := s.healAttempts[id := HealsOf(s, id) + 1]), row);
    }
    assert Healed(id) != SeenReady(id);
    LogsDiffer(p.log, Healed(id), SeenReady(id));
  }

  lemma LogsDiffer(log: seq<LogEvent>, d: LogEvent, e: LogEvent)
    ensures |log + [d]| == |log| + 1 && (log + [d])[|log|] == d
    ensures |log + [e]| == |log| + 1 && (log + [e])[|log|] == e
  {
  }

  // ----- what runs afterwards -----

  /** After its row a station runs exactly when it ran for the row and was not healed, or the row can start it. */
  predicate RunsAfter(p: Pass, row: Row) {
    (RunsRow(p.state, row) && !MustHeal(p, row)) || CanStart(p.state, row)
  }

  lemma BootedRuns(s: State, row: Row)
    requires row.stationId !in s.simulators
    ensures row.stationId in Boot(s, row).simulators <==> CanStart(s, row)
  {
  }

  lemma RowRunsExactly(p: Pass, row: Row)
    ensures row.stationId in SyncRow(p, row).state.simulators <==> RunsAfter(p, row)
  {
    var s, id := p.state, row.stationId;
    HealsExactly(p, row);
    if id !in s.simulators {
      BootedRuns(s, row);
    } else {
      BootedRuns(Unload(s, id), row);
      BootedRuns(Unload(s.(healAttempts := s.healAttempts[id := HealsOf(s, id) + 1]), id), row);
    }
  }

  /**
   After a sync over rows with distinct stations a station runs exactly when it has a row
   and, as its row found it, ran for that row and was not healed, or the row could start it.
   */
  lemma RunsExactly(s: State, rows: seq<Row>, log: seq<LogEvent>, id: string)
    requires DistinctStations(rows) && s.simulators.Keys <= s.registered
    ensures id in Sync(s, rows, log).state.simulators <==>
            exists i :: 0 <= i < |rows| && rows[i].stationId == id && RunsAfter(SyncRows(Pass(s, 0, log), rows[..i]), rows[i])
  {
    var p := Pass(s, 0, log);
    SyncMatches(s, rows, log);
    forall i | 0 <= i < |rows| && rows[i].stationId == id
      ensures id in Sync(s, rows, log).state.simulators <==> RunsAfter(SyncRows(p, rows[..i]), rows[i])
    {
      assert rows[i] in rows && id in RowIds(rows);
      LaterRowsKeep(p, rows, i);
      NextRow(p, rows, i);
      RowRunsExactly(SyncRows(p, rows[..i]), rows[i]);
    }
    if id in Sync(s, rows, log).state.simulators {
      assert IsRowOf(rows, id, Sync(s, rows, log).state.simulators[id]);
    }
  }

  /** The rows before its own do not touch a station. */
  lemma FoundAsBefore(s: State, rows: seq<Row>, log: seq<LogEvent>, i: nat)
    requires DistinctStations(rows) && s.simulators.Keys <= s.registered && i < |rows|
    ensures RunsRow(SyncRows(Pass(s, 0, log), rows[..i]).state, rows[i]) <==> RunsRow(s, rows[i])
  {
    RowsLeave(Pass(s, 0, log), rows[..i], rows[i].stationId);
  }

  lemma {:induction false} RowsLeave(p: Pass, rows: seq<Row>, id: string)
    requires forall i :: 0 <= i < |rows| ==> rows[i].stationId != id
    ensures var t := SyncRows(p, rows).state;
            && (id in t.simulators <==> id in p.state.simulators)
            && (id in t.simulators ==> t.simulators[id] == p.state.simulators[id])
    decreases |rows|
  {
    if rows != [] {
      RowsLeave(p, rows[..|rows| - 1], id);
      RowEffect(SyncRows(p, rows[..|rows| - 1]), rows[|rows| - 1]);
    }
  }

  // ----- targets and probes -----

  /** The row makes the manager start its station's simulator: it is not running, or is of another row, or is stuck. */
  predicate Boots(p: Pass, row: Row) {
    !RunsRow(p.state, row) || MustHeal(p, row)
  }

  /** The row has the target probed: it may be used, needs TLS, and no failure of the last 15 s is known. */
  predicate Probes(p: Pass, row: Row) {
    && Boots(p, row) && row.allowedTarget && row.usesTls
    && (row.targetUrl in p.state.tlsProbeFailures ==> p.state.tlsProbeFailures[row.targetUrl] <= row.now)
  }

  lemma BootProbes(s: State, row: Row)
    ensures var t, cached := Boot(s, row), row.targetUrl in s.tlsProbeFailures && s.tlsProbeFailures[row.targetUrl] > row.now;
            && t.tlsProbeFailures ==
               (if !row.allowedTarget || !row.usesTls || cached then s.tlsProbeFailures
                else if row.reachable then s.tlsProbeFailures - {row.targetUrl}
                else s.tlsProbeFailures[row.targetUrl := row.now + 15_000])
            && t.refusedTargets == (if row.allowedTarget then s.refusedTargets - {row.stationId} else s.refusedTargets + {row.stationId})
  {
  }

  /**
   A probe that fails is remembered for 15 s, one that works is forgotten, and nothing else
   is; a target is refused exactly by the last row that started or refused its station.
   */
  lemma ProbesAreCached(p: Pass, row: Row)
    ensures var s, t := p.state, SyncRow(p, row).state;
            && t.tlsProbeFailures ==
               (if !Probes(p, row) then s.tlsProbeFailures
                else if row.reachable then s.tlsProbeFailures - {row.targetUrl}
                else s.tlsProbeFailures[row.targetUrl := row.now + 15_000])
            && t.refusedTargets ==
               (if !Boots(p, row) then s.refusedTargets
                else if row.allowedTarget then s.refusedTargets - {row.stationId} else s.refusedTargets + {row.stationId})
  {
    var s, id := p.state, row.stationId;
    BootProbes(s, row);
    BootProbes(Unload(s, id), row);
    BootProbes(Unload(s.(healAttempts := s.healAttempts[id := HealsOf(s, id) + 1]), id), row);
  }
}
