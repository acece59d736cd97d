/**
 Runs of the simulator manager that its documentation does not foresee: a
 registration that outlives its station, and as many heals without a ready station as
 removals allow (packages/css/src/simulator-manager.ts:124-134, 425-437).
 */
module SimulatorManagerRuns {
  import opened Basics
  import opened SimulatorManagerModel
  import opened SimulatorManagerTheorems

  /** A run of the manager ends with these fields and this log. */
  ghost predicate Reaches(s: State, log: seq<LogEvent>) {
    exists states, logs, turns :: IsRun(states, logs, turns) && states[|turns|] == s && logs[|turns|] == log
  }

  lemma ReachesInitial()
    ensures Reaches(INITIAL, [])
  {
    var states, logs, turns: seq<Turn> := [INITIAL], [[]], [];
    assert IsRun(states, logs, turns) && states[|turns|] == INITIAL && logs[|turns|] == [];
  }

  lemma ReachesNext(s: State, log: seq<LogEvent>, turn: Turn)
    requires Reaches(s, log) && (turn.SyncTurn? ==> DistinctStations(turn.rows))
    ensures Reaches(Next(s, log, turn).0, Next(s, log, turn).1)
  {
    var states, logs, turns :| IsRun(states, logs, turns) && states[|turns|] == s && logs[|turns|] == log;
    var next := Next(s, log, turn);
    ExtendRun(states, logs, turns, turn);
    assert (states + [next.0])[|turns| + 1] == next.0 && (logs + [next.1])[|turns| + 1] == next.1;
    assert |turns + [turn]| == |turns| + 1;
  }

  lemma ExtendRun(states: seq<State>, logs: seq<seq<LogEvent>>, turns: seq<Turn>, turn: Turn)
    requires IsRun(states, logs, turns) && (turn.SyncTurn? ==> DistinctStations(turn.rows))
    ensures var next := Next(states[|turns|], logs[|turns|], turn);
            IsRun(states + [next.0], logs + [next.1], turns + [turn])
  {
    var next := Next(states[|turns|], logs[|turns|], turn);
    var states', logs', turns' := states + [next.0], logs + [next.1], turns + [turn];
    forall i | 0 <= i < |turns'|
      ensures turns'[i].SyncTurn? ==> DistinctStations(turns'[i].rows)
      ensures Next(states'[i], logs'[i], turns'[i]) == (states'[i + 1], logs'[i + 1])
    {
      if i < |turns| {
        assert states'[i] == states[i] && logs'[i] == logs[i] && turns'[i] == turns[i];
        assert states'[i + 1] == states[i + 1] && logs'[i + 1] == logs[i + 1];
      }
    }
  }

  const STUCK := Observation(false, 60_000, Some(Accepted), false)
  const ROW := Row("1", "A", "ws://server", true, false, STUCK, 0, true, true)

  /** The log has so many heals and removals of station "A", and never saw it ready. */
  ghost predicate Tally(log: seq<LogEvent>, heals: nat, removals: nat) {
    HealsIn(log, "A") == heals && RemovalsIn(log, "A") == removals && SeenReady("A") !in log
  }

  /** Station "A" runs, was healed `k` times since it last came back and `heals` times in all, and was never ready. */
  ghost predicate Jammed(s: State, log: seq<LogEvent>, k: nat, heals: nat, removals: nat) {
    && Reaches(s, log) && Tally(log, heals, removals)
    && s.simulators == map["A" := "1"] && s.registered == {"A"} && HealsOf(s, "A") == k
  }

  lemma OneRow(p: Pass)
    ensures SyncRows(p, [ROW]) == SyncRow(p, ROW)
    ensures RowIds([ROW]) == {"A"} && DistinctStations([ROW])
  {
    assert [ROW][..0] == [];
    assert SyncRows(p, []) == p;
    assert ROW in [ROW];
  }

  lemma TallyNext(log: seq<LogEvent>, e: LogEvent, heals: nat, removals: nat)
    requires Tally(log, heals, removals) && e != SeenReady("A")
    ensures Tally(log + [e], heals + (if e == Healed("A") then 1 else 0),
                  removals + if e.Removed? && "A" in e.ids then 1 else 0)
  {
    assert (log + [e])[..|log|] == log;
  }

  /** The first sync with its row starts the station. */
  lemma Starts(s: State, log: seq<LogEvent>, heals: nat, removals: nat) returns (t: State, after: seq<LogEvent>)
    requires Reaches(s, log) && s.simulators == map[] && s.registered <= {"A"} && Tally(log, heals, removals)
    ensures Jammed(t, after, HealsOf(s, "A"), heals, removals)
  {
    var p := Pass(s, 0, log);
    OneRow(p);
    ReachesNext(s, log, SyncTurn([ROW]));
    t, after := Sync(s, [ROW], log).state, Sync(s, [ROW], log).log;
    assert SyncRow(p, ROW).log == log;
    TallyNext(log, Removed({}), heals, removals);
    assert t.simulators == map["A" := "1"];
  }

  lemma HealingSync(s: State, log: seq<LogEvent>)
    requires s.simulators == map["A" := "1"] && s.registered == {"A"} && HealsOf(s, "A") < MAX_HEAL_ATTEMPTS
    ensures var p := Sync(s, [ROW], log);
            && p.log == log + [Healed("A")] + [Removed({})]
            && p.state.simulators == map["A" := "1"] && p.state.registered == {"A"}
            && HealsOf(p.state, "A") == HealsOf(s, "A") + 1
  {
    OneRow(Pass(s, 0, log));
    var q := SyncRow(Pass(s, 0, log), ROW);
    assert q.log == log + [Healed("A")];
    assert q.state.simulators == map["A" := "1"];
    assert q.state.simulators.Keys - {"A"} == {};
  }

  /** A sync that finds the station stuck heals it. */
  lemma Heals(s: State, log: seq<LogEvent>, k: nat, heals: nat, removals: nat) returns (t: State, after: seq<LogEvent>)
    requires Jammed(s, log, k, heals, removals) && k < MAX_HEAL_ATTEMPTS
    ensures Jammed(t, after, k + 1, heals + 1, removals)
  {
    HealingSync(s, log);
    OneRow(Pass(s, 0, log));
    ReachesNext(s, log, SyncTurn([ROW]));
    var p := Sync(s, [ROW], log);
    t, after := p.state, p.log;
    TallyNext(log, Healed("A"), heals, removals);
    TallyNext(log + [Healed("A")], Removed({}), heals + 1, removals);
  }

  /** Syncs that find the station stuck again and again use up its whole budget. */
  lemma {:induction false} HealsAll(s: State, log: seq<LogEvent>, k: nat, heals: nat, removals: nat)
    returns (t: State, after: seq<LogEvent>)
    requires Jammed(s, log, k, heals, removals) && k <= MAX_HEAL_ATTEMPTS
    ensures Jammed(t, after, MAX_HEAL_ATTEMPTS, heals + MAX_HEAL_ATTEMPTS - k, removals)
    decreases MAX_HEAL_ATTEMPTS - k
  {
    if k == MAX_HEAL_ATTEMPTS {
      t, after := s, log;
    } else {
      t, after := Heals(s, log, k, heals, removals);
      t, after := HealsAll(t, after, k + 1, heals + 1, removals);
    }
  }

  /** A sync without rows removes the station, and its heal counter. */
  lemma Removes(s: State, log: seq<LogEvent>, k: nat, heals: nat, removals: nat) returns (t: State, after: seq<LogEvent>)
    requires Jammed(s, log, k, heals, removals)
    ensures Reaches(t, after) && t.simulators == map[] && t.registered == {}
    ensures HealsOf(t, "A") == 0 && Tally(after, heals, removals + 1)
  {
    ReachesNext(s, log, SyncTurn([]));
    t, after := Sync(s, [], log).state, Sync(s, [], log).log;
    assert RowIds([]) == {};
    TallyNext(log, Removed({"A"}), heals, removals);
    assert s.simulators.Keys - {} == {"A"};
  }

  /**
   The budget of heals is used up by some run, whatever the number of removals: the row
   of a station that is never ready was gone for that many syncs.
   */
  lemma {:induction false} BudgetIsAttained(removals: nat) returns (s: State, log: seq<LogEvent>)
    ensures Jammed(s, log, MAX_HEAL_ATTEMPTS, MAX_HEAL_ATTEMPTS * (1 + removals), removals)
  {
    if removals == 0 {
      ReachesInitial();
      s, log := Starts(INITIAL, [], 0, 0);
      s, log := HealsAll(s, log, 0, 0, 0);
    } else {
      var heals := MAX_HEAL_ATTEMPTS * removals;
      s, log := BudgetIsAttained(removals - 1);
      s, log := Removes(s, log, MAX_HEAL_ATTEMPTS, heals, removals - 1);
      s, log := Starts(s, log, heals, removals);
      s, log := HealsAll(s, log, 0, heals, removals);
    }
  }

  /** A run ends a sync with a registration and no simulator: the station lost its row after a stop. */
  lemma RegistrationOutlives() returns (s: State, log: seq<LogEvent>)
    ensures Reaches(s, log) && s.registered == {"A"} && s.simulators == map[] && !Agrees(s)
  {
    ReachesInitial();
    s, log := Starts(INITIAL, [], 0, 0);
    ReachesNext(s, log, StopTurn);
    var stopped := StopAll(s);
    ReachesNext(stopped, log, SyncTurn([]));
    assert stopped.simulators.Keys == {};
    s, log := Sync(stopped, [], log).state, Sync(stopped, [], log).log;
  }
}
