/**
 What every sync, and every run of syncs and stops, keeps: simulators match the
 rows, registrations match the simulators exactly when none outlived a stop, and
 heals are bounded (packages/css/src/simulator-manager.ts:124-440).
 */
module SimulatorManagerTheorems {
  import opened SimulatorManagerModel

  // ----- one row -----

  ghost predicate Unchanged(s: State, t: State) {
    t.simulators == s.simulators && t.registered == s.registered
  }

  ghost predicate Unloaded(s: State, t: State, id: string) {
    t.simulators == s.simulators - {id} && t.registered == s.registered - {id}
  }

  ghost predicate Started(s: State, t: State, row: Row) {
    t.simulators == s.simulators[row.stationId := row.id] && t.registered == s.registered + {row.stationId}
  }

  lemma BootEffect(s: State, row: Row)
    requires row.stationId !in s.simulators
    ensures Unchanged(s, Boot(s, row)) || Started(s, Boot(s, row), row)
    ensures Boot(s, row).healAttempts == s.healAttempts
  {
    assert s.simulators - {row.stationId} == s.simulators;
  }

  lemma ReloadEffect(s: State, row: Row)
    ensures var t := Boot(Unload(s, row.stationId), row);
            (Unloaded(s, t, row.stationId) || Started(s, t, row)) && t.healAttempts == s.healAttempts
  {
    var u := Unload(s, row.stationId);
    BootEffect(u, row);
    assert u.simulators[row.stationId := row.id] == s.simulators[row.stationId := row.id];
    assert u.registered + {row.stationId} == s.registered + {row.stationId};
  }

  /** A row leaves its station's simulator alone, stops it, or starts one for the row. */
  lemma RowEffect(p: Pass, row: Row)
    ensures var t := SyncRow(p, row).state;
            || (Unchanged(p.state, t) && (row.stationId in p.state.simulators ==> p.state.simulators[row.stationId] == row.id))
            || (Unloaded(p.state, t, row.stationId) && row.stationId in p.state.simulators)
            || Started(p.state, t, row)
  {
    var s, id := p.state, row.stationId;
    if id !in s.simulators {
      BootEffect(s, row);
    } else {
      ReloadEffect(s, row);
      ReloadEffect(s.(healAttempts := s.healAttempts[id := HealsOf(s, id) + 1]), row);
    }
  }

  // ----- one sync -----

  predicate DistinctStations(rows: seq<Row>) {
    forall i, j :: 0 <= i < j < |rows| ==> rows[i].stationId != rows[j].stationId
  }

  /** The registrations that outlived their simulator. */
  function Stale(s: State): set<string> {
    s.registered - s.simulators.Keys
  }

  /** Every running simulator was made for the row with its station id, as far as rows were handled. */
  ghost predicate MatchesRows(t: State, s: State, rows: seq<Row>) {
    && (forall i :: 0 <= i < |rows| && rows[i].stationId in t.simulators ==> t.simulators[rows[i].stationId] == rows[i].id)
    && (forall id :: id !in RowIds(rows) ==>
          && (id in t.simulators <==> id in s.simulators)
          && (id in t.registered <==> id in s.registered))
    && (forall id :: id in t.registered <==> id in t.simulators || (id in Stale(s)))
  }

  lemma RowIdsOf(rows: seq<Row>)
    requires rows != []
    ensures RowIds(rows) == RowIds(rows[..|rows| - 1]) + {rows[|rows| - 1].stationId}
  {
    var init := rows[..|rows| - 1];
    assert rows == init + [rows[|rows| - 1]];
    forall id | id in RowIds(rows)
      ensures id in RowIds(init) + {rows[|rows| - 1].stationId}
    {
      var row :| row in rows && row.stationId == id;
      assert row in init || row == rows[|rows| - 1];
    }
    forall id | id in RowIds(init)
      ensures id in RowIds(rows)
    {
      var row :| row in init && row.stationId == id;
      assert row in rows;
    }
    assert rows[|rows| - 1] in rows;
  }

  lemma LastIsNew(rows: seq<Row>)
    requires rows != [] && DistinctStations(rows)
    ensures rows[|rows| - 1].stationId !in RowIds(rows[..|rows| - 1])
  {
    var init := rows[..|rows| - 1];
    forall row | row in init
      ensures row.stationId != rows[|rows| - 1].stationId
    {
      var i :| 0 <= i < |init| && init[i] == row;
      assert rows[i] == row;
    }
  }

  lemma MatchesNext(t: State, u: State, s: State, rows: seq<Row>)
    requires rows != [] && s.simulators.Keys <= s.registered
    requires rows[|rows| - 1].stationId !in RowIds(rows[..|rows| - 1])
    requires RowIds(rows) == RowIds(rows[..|rows| - 1]) + {rows[|rows| - 1].stationId}
    requires MatchesRows(t, s, rows[..|rows| - 1])
    requires var row := rows[|rows| - 1];
             || (Unchanged(t, u) && (row.stationId in t.simulators ==> t.simulators[row.stationId] == row.id))
             || (Unloaded(t, u, row.stationId) && row.stationId in t.simulators)
             || Started(t, u, row)
    ensures MatchesRows(u, s, rows)
  {
    var init, row := rows[..|rows| - 1], rows[|rows| - 1];
    assert row.stationId in s.simulators <==> row.stationId in t.simulators;
    forall i | 0 <= i < |rows| && rows[i].stationId in u.simulators
      ensures u.simulators[rows[i].stationId] == rows[i].id
    {
      if i < |init| {
        assert init[i] == rows[i] && init[i] in init;
        assert rows[i].stationId in RowIds(init);
      }
    }
  }

  lemma {:induction false} RowsMatch(p: Pass, rows: seq<Row>)
    requires DistinctStations(rows) && p.state.simulators.Keys <= p.state.registered
    ensures MatchesRows(SyncRows(p, rows).state, p.state, rows)
    decreases |rows|
  {
    if rows != [] {
      var init, row := rows[..|rows| - 1], rows[|rows| - 1];
      RowsMatch(p, init);
      RowEffect(SyncRows(p, init), row);
      LastIsNew(rows);
      RowIdsOf(rows);
      MatchesNext(SyncRows(p, init).state, SyncRows(p, rows).state, p.state, rows);
    }
  }

  /** The id of the row of a station. */
  ghost predicate IsRowOf(rows: seq<Row>, stationId: string, id: string) {
    exists i :: 0 <= i < |rows| && rows[i].stationId == stationId && rows[i].id == id
  }

  /**
   After a sync every simulator has a row and was made for exactly that row, and the
   registrations are the simulators plus those that had outlived a `stop()`.
   */
  lemma SyncMatches(s: State, rows: seq<Row>, log: seq<LogEvent>)
    requires DistinctStations(rows) && s.simulators.Keys <= s.registered
    ensures var t := Sync(s, rows, log).state;
            && t.simulators.Keys <= RowIds(rows)
            && (forall id :: id in t.simulators ==> IsRowOf(rows, id, t.simulators[id]))
            && t.registered == t.simulators.Keys + Stale(s)
  {
    var p, t := SyncRows(Pass(s, 0, log), rows), Sync(s, rows, log).state;
    RowsMatch(Pass(s, 0, log), rows);
    forall id | id in t.simulators
      ensures IsRowOf(rows, id, t.simulators[id])
    {
      assert id in RowIds(rows);
      var row :| row in rows && row.stationId == id;
      var i :| 0 <= i < |rows| && rows[i] == row;
      assert p.state.simulators[rows[i].stationId] == rows[i].id;
    }
    forall id
      ensures id in t.registered <==> id in t.simulators.Keys + Stale(s)
    {
      if id in p.state.simulators && id !in RowIds(rows) {
        assert id in s.simulators;
      }
    }
  }

  /** Registrations and simulators are of the same stations. */
  predicate Agrees(s: State) {
    s.registered == s.simulators.Keys
  }

  /**
   A sync leaves registrations and simulators agreeing, whatever the rows, if and only
   if no registration had outlived its simulator before it.
   */
  lemma RegistrationsExactly(s: State, log: seq<LogEvent>)
    requires s.simulators.Keys <= s.registered
    ensures Stale(s) == {} <==> forall rows :: DistinctStations(rows) ==> Agrees(Sync(s, rows, log).state)
  {
    if Stale(s) == {} {
      forall rows | DistinctStations(rows)
        ensures Agrees(Sync(s, rows, log).state)
      {
        SyncMatches(s, rows, log);
      }
    } else {
      var t := Sync(s, [], log).state;
      SyncMatches(s, [], log);
      assert t.simulators.Keys == {} && t.registered == Stale(s);
      assert !Agrees(t);
    }
  }

  // ----- the stations that run again -----

  /** What a row must say for its station to be started: an allowed target, reachable if it uses TLS, and a start that works. */
  predicate CanStart(s: State, row: Row) {
    && row.allowedTarget && row.starts
    && (row.usesTls ==>
          && row.reachable
          && (row.targetUrl in s.tlsProbeFailures ==> s.tlsProbeFailures[row.targetUrl] <= row.now))
  }

  lemma {:induction false} LaterRowsKeep(p: Pass, rows: seq<Row>, i: nat)
    requires DistinctStations(rows) && i < |rows|
    ensures rows[i].stationId in SyncRows(p, rows).state.simulators <==>
            rows[i].stationId in SyncRows(p, rows[..i + 1]).state.simulators
    decreases |rows|
  {
    if i == |rows| - 1 {
      assert rows[..i + 1] == rows;
    } else {
      var init := rows[..|rows| - 1];
      LaterRowsKeep(p, init, i);
      assert init[..i + 1] == rows[..i + 1];
      RowEffect(SyncRows(p, init), rows[|rows| - 1]);
    }
  }

  lemma BootStarts(q: Pass, row: Row)
    requires row.stationId !in q.state.simulators
    ensures row.stationId in SyncRow(q, row).state.simulators <==> CanStart(q.state, row)
  {
  }

  lemma NotYetRunning(s: State, rows: seq<Row>, log: seq<LogEvent>, i: nat)
    requires DistinctStations(rows) && s.simulators.Keys <= s.registered && i < |rows|
    requires rows[i].stationId !in s.simulators
    ensures rows[i].stationId !in SyncRows(Pass(s, 0, log), rows[..i]).state.simulators
  {
    assert rows[..i + 1][..i] == rows[..i];
    LastIsNew(rows[..i + 1]);
    RowsMatch(Pass(s, 0, log), rows[..i]);
  }

  /** A station without a simulator runs after the sync exactly when its row could start it. */
  lemma RowStartsStation(s: State, rows: seq<Row>, log: seq<LogEvent>, i: nat)
    requires DistinctStations(rows) && s.simulators.Keys <= s.registered && i < |rows|
    requires rows[i].stationId !in s.simulators
    ensures rows[i].stationId in SyncRows(Pass(s, 0, log), rows).state.simulators <==>
            CanStart(SyncRows(Pass(s, 0, log), rows[..i]).state, rows[i])
  {
    var p := Pass(s, 0, log);
    LaterRowsKeep(p, rows, i);
    NotYetRunning(s, rows, log, i);
    BootStarts(SyncRows(p, rows[..i]), rows[i]);
    NextRow(p, rows, i);
  }

  lemma NextRow(p: Pass, rows: seq<Row>, i: nat)
    requires i < |rows|
    ensures SyncRows(p, rows[..i + 1]) == SyncRow(SyncRows(p, rows[..i]), rows[i])
  {
    assert rows[..i + 1][..i] == rows[..i];
  }

  /** A row of the sync that can start the station. */
  ghost predicate RunsAgain(s: State, rows: seq<Row>, log: seq<LogEvent>, id: string) {
    exists i :: 0 <= i < |rows| && rows[i].stationId == id && CanStart(SyncRows(Pass(s, 0, log), rows[..i]).state, rows[i])
  }

  /**
   For the rows at hand: after the sync registrations and simulators agree if and only
   if every station whose registration had outlived its simulator has a row that starts it.
   */
  lemma RegistrationsAfterRows(s: State, rows: seq<Row>, log: seq<LogEvent>)
    requires DistinctStations(rows) && s.simulators.Keys <= s.registered
    ensures Agrees(Sync(s, rows, log).state) <==> forall id :: id in Stale(s) ==> RunsAgain(s, rows, log, id)
  {
    var t := Sync(s, rows, log).state;
    SyncMatches(s, rows, log);
    forall id | id in Stale(s)
      ensures id in t.simulators <==> RunsAgain(s, rows, log, id)
    {
      StaleRuns(s, rows, log, id);
    }
  }

  lemma StaleRuns(s: State, rows: seq<Row>, log: seq<LogEvent>, id: string)
    requires DistinctStations(rows) && s.simulators.Keys <= s.registered && id in Stale(s)
    ensures id in Sync(s, rows, log).state.simulators <==> RunsAgain(s, rows, log, id)
  {
    var after := SyncRows(Pass(s, 0, log), rows).state;
    RowsMatch(Pass(s, 0, log), rows);
    forall i | 0 <= i < |rows| && rows[i].stationId == id
      ensures id in RowIds(rows)
      ensures id in after.simulators <==> CanStart(SyncRows(Pass(s, 0, log), rows[..i]).state, rows[i])
    {
      assert rows[i] in rows;
      RowStartsStation(s, rows, log, i);
    }
    if id in Sync(s, rows, log).state.simulators {
      assert id in RowIds(rows);
      var row :| row in rows && row.stationId == id;
      var i :| 0 <= i < |rows| && rows[i] == row;
    }
  }

  // ----- heals -----

  /** The heals of a station since it was last seen ready or removed. */
  function SinceReset(log: seq<LogEvent>, id: string): nat {
    if log == [] then 0
    else
      match log[|log| - 1]
      case Healed(x) => (if x == id then 1 else 0) + SinceReset(log[..|log| - 1], id)
      case SeenReady(x) => if x == id then 0 else SinceReset(log[..|log| - 1], id)
      case Removed(ids) => if id in ids then 0 else SinceReset(log[..|log| - 1], id)
  }

  /** The heals of a station in a log. */
  function HealsIn(log: seq<LogEvent>, id: string): nat {
    if log == [] then 0
    else (if log[|log| - 1] == Healed(id) then 1 else 0) + HealsIn(log[..|log| - 1], id)
  }

  predicate Resets(e: LogEvent, id: string) {
    e == SeenReady(id) || (e.Removed? && id in e.ids)
  }

  /** The heal counters are the heals since the last reset, and no station was ever healed too often. */
  ghost predicate CountsHeals(s: State, log: seq<LogEvent>) {
    && (forall id :: HealsOf(s, id) == SinceReset(log, id))
    && (forall id, n :: 0 <= n <= |log| ==> SinceReset(log[..n], id) <= MAX_HEAL_ATTEMPTS)
  }

  lemma CountsAfter(s: State, log: seq<LogEvent>, t: State, e: LogEvent)
    requires CountsHeals(s, log)
    requires forall id :: HealsOf(t, id) == SinceReset(log + [e], id) <= MAX_HEAL_ATTEMPTS
    ensures CountsHeals(t, log + [e])
  {
    forall id, n | 0 <= n <= |log| + 1
      ensures SinceReset((log + [e])[..n], id) <= MAX_HEAL_ATTEMPTS
    {
      if n <= |log| {
        assert (log + [e])[..n] == log[..n];
      } else {
        assert (log + [e])[..n] == log + [e];
      }
    }
  }

  lemma SinceResetNext(log: seq<LogEvent>, e: LogEvent, id: string)
    ensures SinceReset(log + [e], id) ==
            if Resets(e, id) then 0 else if e == Healed(id) then SinceReset(log, id) + 1 else SinceReset(log, id)
  {
    assert (log + [e])[..|log|] == log;
  }

  /** A row keeps the count: it is reset when the station is seen ready, and counts up, to five at most, when it heals. */
  lemma RowCountsHeals(p: Pass, row: Row)
    requires CountsHeals(p.state, p.log)
    ensures CountsHeals(SyncRow(p, row).state, SyncRow(p, row).log)
  {
    var s, id, q := p.state, row.stationId, SyncRow(p, row);
    if id !in s.simulators {
      BootEffect(s, row);
    } else {
      ReloadEffect(s, row);
      ReloadEffect(s.(healAttempts := s.healAttempts[id := HealsOf(s, id) + 1]), row);
    }
    if q.log != p.log {
      var e := q.log[|q.log| - 1];
      assert q.log == p.log + [e];
      forall x
        ensures HealsOf(q.state, x) == SinceReset(p.log + [e], x) <= MAX_HEAL_ATTEMPTS
      {
        SinceResetNext(p.log, e, x);
        assert SinceReset(p.log[..|p.log|], x) <= MAX_HEAL_ATTEMPTS && p.log[..|p.log|] == p.log;
      }
      CountsAfter(s, p.log, q.state, e);
    }
  }

  lemma {:induction false} RowsCountHeals(p: Pass, rows: seq<Row>)
    requires CountsHeals(p.state, p.log)
    ensures CountsHeals(SyncRows(p, rows).state, SyncRows(p, rows).log)
    decreases |rows|
  {
    if rows != [] {
      RowsCountHeals(p, rows[..|rows| - 1]);
      RowCountsHeals(SyncRows(p, rows[..|rows| - 1]), rows[|rows| - 1]);
    }
  }

  lemma PruneCountsHeals(p: Pass, current: set<string>)
    requires CountsHeals(p.state, p.log)
    ensures CountsHeals(Prune(p, current).state, Prune(p, current).log)
  {
    var q, e := Prune(p, current), Removed(p.state.simulators.Keys - current);
    forall x
      ensures HealsOf(q.state, x) == SinceReset(p.log + [e], x) <= MAX_HEAL_ATTEMPTS
    {
      SinceResetNext(p.log, e, x);
      assert SinceReset(p.log[..|p.log|], x) <= MAX_HEAL_ATTEMPTS && p.log[..|p.log|] == p.log;
    }
    CountsAfter(p.state, p.log, q.state, e);
  }

  lemma SyncCountsHeals(s: State, rows: seq<Row>, log: seq<LogEvent>)
    requires CountsHeals(s, log)
    ensures CountsHeals(Sync(s, rows, log).state, Sync(s, rows, log).log)
  {
    RowsCountHeals(Pass(s, 0, log), rows);
    PruneCountsHeals(SyncRows(Pass(s, 0, log), rows), RowIds(rows));
  }

  /** The heals of all stations in a log. */
  function AllHeals(log: seq<LogEvent>): nat {
    if log == [] then 0 else (if log[|log| - 1].Healed? then 1 else 0) + AllHeals(log[..|log| - 1])
  }

  lemma AllHealsNext(log: seq<LogEvent>, e: LogEvent)
    ensures AllHeals(log + [e]) == AllHeals(log) + (if e.Healed? then 1 else 0)
  {
    assert (log + [e])[..|log|] == log;
  }

  lemma RowHeals(p: Pass, row: Row)
    requires p.healed <= MAX_HEAL_PER_TICK
    ensures var q := SyncRow(p, row);
            && p.healed <= q.healed <= MAX_HEAL_PER_TICK && p.log <= q.log
            && AllHeals(q.log) - AllHeals(p.log) == q.healed - p.healed
  {
    AllHealsNext(p.log, SeenReady(row.stationId));
    AllHealsNext(p.log, Healed(row.stationId));
  }

  /** The rows of one sync add to the log, and heal at most 25 stations. */
  lemma {:induction false} RowsHeal(p: Pass, rows: seq<Row>)
    requires p.healed <= MAX_HEAL_PER_TICK
    ensures var q := SyncRows(p, rows);
            && p.healed <= q.healed <= MAX_HEAL_PER_TICK && p.log <= q.log
            && AllHeals(q.log) - AllHeals(p.log) == q.healed - p.healed
    decreases |rows|
  {
    if rows != [] {
      RowsHeal(p, rows[..|rows| - 1]);
      RowHeals(SyncRows(p, rows[..|rows| - 1]), rows[|rows| - 1]);
    }
  }

  lemma SyncHealsFew(s: State, rows: seq<Row>, log: seq<LogEvent>)
    ensures log <= Sync(s, rows, log).log
    ensures AllHeals(Sync(s, rows, log).log) - AllHeals(log) <= MAX_HEAL_PER_TICK
  {
    RowsHeal(Pass(s, 0, log), rows);
    var p := SyncRows(Pass(s, 0, log), rows);
    AllHealsNext(p.log, Removed(p.state.simulators.Keys - RowIds(rows)));
  }

  // ----- runs -----

  datatype Turn = SyncTurn(rows: seq<Row>) | StopTurn

  function Next(s: State, log: seq<LogEvent>, turn: Turn): (State, seq<LogEvent>) {
    match turn
    case SyncTurn(rows) => (Sync(s, rows, log).state, Sync(s, rows, log).log)
    case StopTurn => (StopAll(s), log)
  }

  ghost predicate IsRun(states: seq<State>, logs: seq<seq<LogEvent>>, turns: seq<Turn>) {
    && |states| == |logs| == |turns| + 1 && states[0] == INITIAL && logs[0] == []
    && forall i :: 0 <= i < |turns| ==>
         && (turns[i].SyncTurn? ==> DistinctStations(turns[i].rows))
         && Next(states[i], logs[i], turns[i]) == (states[i + 1], logs[i + 1])
  }

  lemma {:induction false} RunInv(states: seq<State>, logs: seq<seq<LogEvent>>, turns: seq<Turn>, n: nat)
    requires IsRun(states, logs, turns) && n < |states|
    ensures states[n].simulators.Keys <= states[n].registered && CountsHeals(states[n], logs[n])
  {
    if n > 0 {
      RunInv(states, logs, turns, n - 1);
      var s, log := states[n - 1], logs[n - 1];
      assert Next(s, log, turns[n - 1]) == (states[n], logs[n]);
      match turns[n - 1]
      case SyncTurn(rows) =>
        SyncMatches(s, rows, log);
        SyncCountsHeals(s, rows, log);
      case StopTurn =>
    }
  }

  /** The removals of a station in a log. */
  function RemovalsIn(log: seq<LogEvent>, id: string): nat {
    if log == [] then 0
    else (if log[|log| - 1].Removed? && id in log[|log| - 1].ids then 1 else 0) + RemovalsIn(log[..|log| - 1], id)
  }

  /** A removal is worth five heals; the heals since the last reset are on top. */
  lemma {:induction false} RemovalsPayForHeals(s: State, log: seq<LogEvent>, id: string, lo: nat, hi: nat)
    requires CountsHeals(s, log) && lo <= hi <= |log| && SeenReady(id) !in log[lo..hi]
    ensures HealsIn(log[lo..hi], id) <= MAX_HEAL_ATTEMPTS * RemovalsIn(log[lo..hi], id) + SinceReset(log[..hi], id)
    decreases hi
  {
    if lo < hi {
      var stretch, e := log[lo..hi], log[hi - 1];
      assert stretch[..|stretch| - 1] == log[lo..hi - 1] && stretch[|stretch| - 1] == e;
      assert log[..hi][..hi - 1] == log[..hi - 1];
      assert e in stretch;
      RemovalsPayForHeals(s, log, id, lo, hi - 1);
      assert SinceReset(log[..hi - 1], id) <= MAX_HEAL_ATTEMPTS;
    }
  }

  /**
   Over every run, a station that is not seen ready in between is healed at most five
   times, and five times more for each time it is removed.
   */
  lemma HealsAreBudgeted(
    states: seq<State>, logs: seq<seq<LogEvent>>, turns: seq<Turn>, n: nat, id: string, lo: nat, hi: nat)
    requires IsRun(states, logs, turns) && n < |states| && lo <= hi <= |logs[n]|
    requires SeenReady(id) !in logs[n][lo..hi]
    ensures HealsIn(logs[n][lo..hi], id) <= MAX_HEAL_ATTEMPTS * (1 + RemovalsIn(logs[n][lo..hi], id))
  {
    RunInv(states, logs, turns, n);
    RemovalsPayForHeals(states[n], logs[n], id, lo, hi);
    assert SinceReset(logs[n][..hi], id) <= MAX_HEAL_ATTEMPTS;
  }

  lemma {:induction false} NoRemovals(log: seq<LogEvent>, id: string)
    requires forall k :: 0 <= k < |log| ==> !Resets(log[k], id)
    ensures RemovalsIn(log, id) == 0
  {
    if log != [] {
      NoRemovals(log[..|log| - 1], id);
    }
  }

  /**
   Over every run, a station is healed at most five times between two moments at which
   it is seen ready or removed.
   */
  lemma AtMostFiveHeals(
    states: seq<State>, logs: seq<seq<LogEvent>>, turns: seq<Turn>, n: nat, id: string, lo: nat, hi: nat)
    requires IsRun(states, logs, turns) && n < |states| && lo <= hi <= |logs[n]|
    requires forall k :: lo <= k < hi ==> !Resets(logs[n][k], id)
    ensures HealsIn(logs[n][lo..hi], id) <= MAX_HEAL_ATTEMPTS
  {
    NoRemovals(logs[n][lo..hi], id);
    HealsAreBudgeted(states, logs, turns, n, id, lo, hi);
  }

  /** In every run, after a sync: each simulator has its row, registrations are exact up to the stale ones, heals are few. */
  lemma RunSyncs(states: seq<State>, logs: seq<seq<LogEvent>>, turns: seq<Turn>, n: nat)
    requires IsRun(states, logs, turns) && n < |turns| && turns[n].SyncTurn?
    ensures var rows, t := turns[n].rows, states[n + 1];
            && t.simulators.Keys <= RowIds(rows)
            && (forall id :: id in t.simulators ==> IsRowOf(rows, id, t.simulators[id]))
            && t.registered == t.simulators.Keys + Stale(states[n])
            && logs[n] <= logs[n + 1]
            && AllHeals(logs[n + 1]) - AllHeals(logs[n]) <= MAX_HEAL_PER_TICK
  {
    RunInv(states, logs, turns, n);
    assert Next(states[n], logs[n], turns[n]) == (states[n + 1], logs[n + 1]);
    SyncMatches(states[n], turns[n].rows, logs[n]);
    SyncHealsFew(states[n], turns[n].rows, logs[n]);
  }

  /** Before the first stop, a run has no stale registration: registrations are exactly the simulators. */
  lemma {:induction false} NoneStaleBeforeStop(states: seq<State>, logs: seq<seq<LogEvent>>, turns: seq<Turn>, n: nat)
    requires IsRun(states, logs, turns) && n < |states| && forall i :: 0 <= i < n ==> turns[i].SyncTurn?
    ensures states[n].registered == states[n].simulators.Keys
  {
    if n > 0 {
      NoneStaleBeforeStop(states, logs, turns, n - 1);
      RunSyncs(states, logs, turns, n - 1);
    }
  }
}
