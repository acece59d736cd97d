/**
 Public sessions over every run of the orchestrator: when a station's journey ends,
 which step is due after which, how far apart, and where a card that is in use came
 from (packages/css/src/chaos-orchestrator.ts:816-997, packages/css/src/chaos-journey.ts:34-115).
 */
module ChaosOrchestratorSessions {
  import opened Basics
  import opened ChaosActions
  import opened ChaosJourneysObject
  import opened DepotJourneyModel
  import opened RandomDraw
  import opened ChaosOrchestratorModel
  import opened ChaosOrchestratorSafety
  import opened ChaosOrchestratorTheorems

  // ----- moves of the public journeys -----

  /** An action sent and recorded, a due step passed over, a station dropped, a refresh. */
  datatype Move =
    | Took(id: string, action: Action)
    | Passed(id: string, action: Action, inTransaction: bool)
    | Gone(id: string)
    | Kept(ids: seq<string>)

  datatype Dated = Dated(move: Move, now: int, draws: Draws)

  function ApplyMove(journeys: map<string, PublicJourney>, d: Dated): map<string, PublicJourney> {
    match d.move
    case Took(id, action) => RecordPublic(journeys, id, action, d.now, d.draws)
    case Passed(id, action, inTransaction) => SkipPublic(journeys, id, action, inTransaction, d.now, d.draws)
    case Gone(id) => journeys - {id}
    case Kept(ids) => KeptEntries(journeys, ids)
  }

  /** A step is passed over only when it is the next one of a journey. */
  predicate MayMove(journeys: map<string, PublicJourney>, d: Dated) {
    d.move.Passed? ==> d.move.id in journeys && d.move.action == NextAction(journeys[d.move.id].step)
  }

  /** The journeys after the first `n` turns. */
  function JourneysOf(log: seq<Option<Dated>>, n: nat): map<string, PublicJourney>
    requires n <= |log|
  {
    if n == 0 then map[]
    else
      match log[n - 1]
      case None => JourneysOf(log, n - 1)
      case Some(d) => ApplyMove(JourneysOf(log, n - 1), d)
  }

  ghost predicate IsLog(log: seq<Option<Dated>>) {
    forall i :: 0 <= i < |log| && log[i].Some? ==> MayMove(JourneysOf(log, i), log[i].value)
  }

  /** The move sets the next step of the station's journey. */
  predicate Touches(m: Move, id: string) {
    || (m.Took? && m.id == id && StepAfter(m.action).Some?)
    || (m.Passed? && m.id == id)
  }

  predicate TouchesAt(log: seq<Option<Dated>>, k: int, id: string) {
    0 <= k < |log| && log[k].Some? && Touches(log[k].value.move, id)
  }

  /** The action that comes next after a move: the successor, or the one that was passed over. */
  function NextAfter(m: Move): Action
    requires m.Passed? || (m.Took? && StepAfter(m.action).Some?)
  {
    if m.Took? then NextAction(StepAfter(m.action).value)
    else if m.action == StartCharging then StopCharging
    else m.action
  }

  /** The least wait after a move, in milliseconds. */
  function WaitAfter(m: Move): int
    requires m.Took? || m.Passed?
  {
    match m
    case Passed(_, action, _) => if action == StartCharging then 120_000 else 30_000
    case Took(_, action) =>
      if action == StartCharging then 120_000 else if action == StopCharging then 10_000 else 5_000
  }

  /** The wait after a move is shorter than this. */
  function WaitBefore(m: Move): int
    requires m.Took? || m.Passed?
  {
    match m
    case Passed(_, action, _) => if action == StartCharging then 900_000 else 60_000
    case Took(_, action) =>
      if action == StartCharging then 900_000 else if action == StopCharging then 60_000 else 30_000
  }

  /** The journey is as the move left it: its next step, and when it is due. */
  predicate Follows(j: PublicJourney, d: Dated)
    requires d.move.Passed? || (d.move.Took? && StepAfter(d.move.action).Some?)
  {
    NextAction(j.step) == NextAfter(d.move) && d.now + WaitAfter(d.move) <= j.dueAt < d.now + WaitBefore(d.move)
  }

  /** A journey after one move: as it was, or set by the move. */
  lemma MoveEffect(journeys: map<string, PublicJourney>, d: Dated, id: string)
    requires MayMove(journeys, d) && id in ApplyMove(journeys, d)
    ensures Touches(d.move, id) ==> Follows(ApplyMove(journeys, d)[id], d)
    ensures !Touches(d.move, id) ==> id in journeys && ApplyMove(journeys, d)[id] == journeys[id]
  {
  }

  lemma TurnEffect(log: seq<Option<Dated>>, n: nat, id: string)
    requires 0 < n <= |log| && IsLog(log) && id in JourneysOf(log, n)
    ensures TouchesAt(log, n - 1, id) ==> Follows(JourneysOf(log, n)[id], log[n - 1].value)
    ensures !TouchesAt(log, n - 1, id) ==> id in JourneysOf(log, n - 1) && JourneysOf(log, n)[id] == JourneysOf(log, n - 1)[id]
  {
    if log[n - 1].Some? {
      MoveEffect(JourneysOf(log, n - 1), log[n - 1].value, id);
    }
  }

  /** Turn `m` was the last one before `n` to set the next step of the station. */
  ghost predicate IsLastTouch(log: seq<Option<Dated>>, n: nat, id: string, m: nat) {
    m < n <= |log| && TouchesAt(log, m, id) && forall k :: m < k < n ==> !TouchesAt(log, k, id)
  }

  lemma StillLastTouch(log: seq<Option<Dated>>, n: nat, id: string, m: nat)
    requires 0 < n <= |log| && IsLastTouch(log, n - 1, id, m) && !TouchesAt(log, n - 1, id)
    ensures IsLastTouch(log, n, id, m)
  {
  }

  /** Turn `m` was the last one to set the next step, and left the journey as it is. */
  ghost predicate IsLeftBy(log: seq<Option<Dated>>, n: nat, id: string, m: nat, j: PublicJourney) {
    IsLastTouch(log, n, id, m) && Follows(j, log[m].value)
  }

  lemma StillLeftBy(log: seq<Option<Dated>>, n: nat, id: string, m: nat, j: PublicJourney)
    requires 0 < n <= |log| && IsLeftBy(log, n - 1, id, m, j) && !TouchesAt(log, n - 1, id)
    ensures IsLeftBy(log, n, id, m, j)
  {
    StillLastTouch(log, n, id, m);
  }

  ghost predicate JourneyAt(log: seq<Option<Dated>>, n: nat, id: string, j: PublicJourney) {
    n <= |log| && IsLog(log) && id in JourneysOf(log, n) && JourneysOf(log, n)[id] == j
  }

  /** One turn back: the turn left the journey as it is, or it was so before. */
  lemma TurnBack(log: seq<Option<Dated>>, n: nat, id: string, j: PublicJourney)
    requires JourneyAt(log, n, id, j)
    ensures n > 0
    ensures TouchesAt(log, n - 1, id) ==> IsLeftBy(log, n, id, n - 1, j)
    ensures !TouchesAt(log, n - 1, id) ==> JourneyAt(log, n - 1, id, j)
  {
    TurnEffect(log, n, id);
  }

  /** The journey of a station comes from a move that set its next step, and none did since. */
  lemma {:induction false} LastTouch(log: seq<Option<Dated>>, n: nat, id: string, j: PublicJourney) returns (m: nat)
    requires JourneyAt(log, n, id, j)
    ensures IsLeftBy(log, n, id, m, j)
    decreases n
  {
    TurnBack(log, n, id, j);
    if TouchesAt(log, n - 1, id) {
      m := n - 1;
    } else {
      m := LastTouch(log, n - 1, id, j);
      StillLeftBy(log, n, id, m, j);
    }
  }

  // ----- the moves of a run -----

  function PublicMoveOf(s: State, i: TickInput, id: string, action: Action): Option<Move> {
    if !i.published || (action == StartCharging && FreeTokens(TokensFor(s, id), BusyTokens(s)) == []) then None
    else Some(Took(id, action))
  }

  function ActMove(s: State, i: TickInput, due: Due, id: string): Option<Move> {
    var offered := Offered(s, i, id, due.DepotDue?);
    if due.NothingDue? then
      if offered == [] then None else PublicMoveOf(s, i, id, Pick(offered, i.pickAction))
    else if due.DepotDue? then None
    else if due.action !in offered then Some(Passed(id, due.action, HasTransaction(s, i, id)))
    else PublicMoveOf(s, i, id, due.action)
  }

  /** What a tick does to the public journeys: at most one move. */
  function TickMove(s: State, i: TickInput): Option<Move>
    requires DueIsRight(s, i)
  {
    if s.stationIds == [] then None
    else
      var due, id := DueOf(s, i), StationOf(s, i);
      if id in s.offlineStations then None
      else if due.NothingDue? && i.outage then Some(Took(id, GoOffline))
      else if i.row.Missing? then Some(Gone(id))
      else ActMove(s, i, due, id)
  }

  function Dating(m: Option<Move>, i: TickInput): Option<Dated> {
    match m
    case None => None
    case Some(move) => Some(Dated(move, i.now, i.draws))
  }

  function TurnMove(s: State, turn: Turn): Option<Dated>
    requires CanStep(s, turn)
  {
    match turn
    case TickStep(i) => Dating(TickMove(s, i), i)
    case RefreshStep(l) => Some(Dated(Kept(l.stationIds), l.now, l.draws("")))
  }

  ghost predicate Moved(s: State, t: State, d: Option<Dated>) {
    match d
    case None => t.journeys == s.journeys
    case Some(dated) => MayMove(s.journeys, dated) && t.journeys == ApplyMove(s.journeys, dated)
  }

  lemma PublicActionMoves(s: State, i: TickInput, id: string, action: Action)
    ensures Moved(s, PublicAction(s, i, id, action).state, Dating(PublicMoveOf(s, i, id, action), i))
  {
  }

  lemma DepotStepMovesNothing(s: State, i: TickInput, due: Due, localTimes: LocalTimes)
    requires due.DepotDue?
    ensures DepotStep(s, i, due, localTimes).state.journeys == s.journeys
  {
  }

  lemma ActMoves(s: State, i: TickInput, due: Due, id: string, localTimes: LocalTimes)
    requires DueIsTracked(s, i, due) && (!due.NothingDue? ==> due.stationId == id)
    ensures Moved(s, Act(s, i, due, id, localTimes).state, Dating(ActMove(s, i, due, id), i))
  {
    var offered := Offered(s, i, id, due.DepotDue?);
    if due.NothingDue? {
      if offered != [] {
        PublicActionMoves(s, i, id, Pick(offered, i.pickAction));
      }
    } else if due.DepotDue? {
      DepotStepMovesNothing(s, i, due, localTimes);
    } else if due.action in offered {
      PublicActionMoves(s, i, id, due.action);
    }
  }

  lemma QuietMoves(s: State, i: TickInput, localTimes: LocalTimes)
    requires DueIsRight(s, i) && s.stationIds != []
    requires StationOf(s, i) in s.offlineStations || (DueOf(s, i).NothingDue? && i.outage) || i.row.Missing?
    ensures Moved(s, Tick(s, i, localTimes).state, Dating(TickMove(s, i), i))
  {
  }

  lemma TickMoves(s: State, i: TickInput, localTimes: LocalTimes)
    requires Consistent(s) && DueIsRight(s, i) && s.stationIds != []
    ensures Moved(s, Tick(s, i, localTimes).state, Dating(TickMove(s, i), i))
  {
    var due, id := DueOf(s, i), StationOf(s, i);
    if id in s.offlineStations || (due.NothingDue? && i.outage) || i.row.Missing? {
      QuietMoves(s, i, localTimes);
    } else {
      DueFacts(s, i);
      ActMoves(s, i, due, id, localTimes);
      assert TickMove(s, i) == ActMove(s, i, due, id);
    }
  }

  /** A move that took an action is that of the command the tick sent; only going offline may be recorded unsent. */
  predicate IsSent(m: Option<Move>, command: Option<Command>) {
    m.Some? && m.value.Took? && m.value.action != GoOffline ==>
      command.Some? && command.value.stationId == m.value.id && command.value.action == m.value.action
  }

  lemma PublicMoveIsSent(s: State, i: TickInput, id: string, action: Action)
    ensures IsSent(PublicMoveOf(s, i, id, action), PublicAction(s, i, id, action).command)
  {
  }

  lemma ActMoveIsSent(s: State, i: TickInput, due: Due, id: string, localTimes: LocalTimes)
    requires !due.NothingDue? ==> due.stationId == id
    ensures IsSent(ActMove(s, i, due, id), Act(s, i, due, id, localTimes).command)
  {
    var offered := Offered(s, i, id, due.DepotDue?);
    if due.NothingDue? {
      if offered != [] {
        PublicMoveIsSent(s, i, id, Pick(offered, i.pickAction));
      }
    } else if due.action in offered {
      PublicMoveIsSent(s, i, id, due.action);
    }
  }

  /** An action in the log of moves is the one its tick sent to that station. */
  lemma TookIsSent(s: State, i: TickInput, localTimes: LocalTimes)
    requires DueIsRight(s, i)
    ensures IsSent(TickMove(s, i), Tick(s, i, localTimes).command)
  {
    if s.stationIds != [] {
      ActMoveIsSent(s, i, DueOf(s, i), StationOf(s, i), localTimes);
    }
  }

  /** A turn does to the public journeys what its move says. */
  lemma TurnMoves(s: State, turn: Turn, localTimes: LocalTimes)
    requires Consistent(s) && CanStep(s, turn)
    ensures Moved(s, Next(s, turn, localTimes), TurnMove(s, turn))
  {
    if turn.TickStep? && s.stationIds != [] {
      TickMoves(s, turn.input, localTimes);
    }
  }

  /** The moves of a run, turn by turn. */
  ghost function MoveLog(states: seq<State>, turns: seq<Turn>, localTimes: LocalTimes): (log: seq<Option<Dated>>)
    requires IsRun(states, turns, localTimes)
    ensures |log| == |turns|
  {
    seq(|turns|, i requires 0 <= i < |turns| && CanStep(states[i], turns[i]) => TurnMove(states[i], turns[i]))
  }

  lemma {:induction false} RunMoves(states: seq<State>, turns: seq<Turn>, localTimes: LocalTimes, n: nat)
    requires IsRun(states, turns, localTimes) && n < |states|
    ensures JourneysOf(MoveLog(states, turns, localTimes), n) == states[n].journeys
  {
    if n > 0 {
      RunMoves(states, turns, localTimes, n - 1);
      RunIsSafe(states, turns, localTimes, n - 1);
      TurnMoves(states[n - 1], turns[n - 1], localTimes);
      assert MoveLog(states, turns, localTimes)[n - 1] == TurnMove(states[n - 1], turns[n - 1]);
    }
  }

  lemma RunIsLog(states: seq<State>, turns: seq<Turn>, localTimes: LocalTimes)
    requires IsRun(states, turns, localTimes)
    ensures IsLog(MoveLog(states, turns, localTimes))
  {
    var log := MoveLog(states, turns, localTimes);
    forall i | 0 <= i < |log| && log[i].Some?
      ensures MayMove(JourneysOf(log, i), log[i].value)
    {
      RunMoves(states, turns, localTimes, i);
      RunIsSafe(states, turns, localTimes, i);
      TurnMoves(states[i], turns[i], localTimes);
      assert log[i] == TurnMove(states[i], turns[i]);
    }
  }

  // ----- what a run keeps -----

  /** The tick names the station's step as due. */
  predicate NamesDue(s: State, turn: Turn, id: string, action: Action) {
    turn.TickStep? && CanStep(s, turn) && DueOf(s, turn.input) == PublicDue(id, action)
  }

  lemma NamedIsNext(s: State, turn: Turn, id: string, action: Action)
    requires NamesDue(s, turn, id, action)
    ensures id in s.journeys && action == NextAction(s.journeys[id].step) && s.journeys[id].dueAt <= turn.input.now
  {
  }

  /** The turn was a tick, and the action its move took is the one its command sent. */
  predicate WasSent(s: State, turn: Turn, localTimes: LocalTimes, m: Move) {
    && turn.TickStep? && DueIsRight(s, turn.input)
    && (m.Took? ==>
          var command := Tick(s, turn.input, localTimes).command;
          command.Some? && command.value.stationId == m.id && command.value.action == m.action)
  }

  lemma TouchWasSent(s: State, turn: Turn, localTimes: LocalTimes, id: string)
    requires CanStep(s, turn)
    ensures TurnMove(s, turn).Some? && Touches(TurnMove(s, turn).value.move, id) ==>
              WasSent(s, turn, localTimes, TurnMove(s, turn).value.move)
  {
    if turn.TickStep? {
      TookIsSent(s, turn.input, localTimes);
    }
  }

  lemma LoggedWasSent(states: seq<State>, turns: seq<Turn>, localTimes: LocalTimes, id: string, m: nat)
    requires IsRun(states, turns, localTimes) && TouchesAt(MoveLog(states, turns, localTimes), m, id)
    ensures WasSent(states[m], turns[m], localTimes, MoveLog(states, turns, localTimes)[m].value.move)
  {
    TouchWasSent(states[m], turns[m], localTimes, id);
    assert MoveLog(states, turns, localTimes)[m] == TurnMove(states[m], turns[m]);
  }

  lemma NamedJourney(states: seq<State>, turns: seq<Turn>, localTimes: LocalTimes, n: nat, id: string, action: Action)
    returns (j: PublicJourney)
    requires IsRun(states, turns, localTimes) && n < |turns| && NamesDue(states[n], turns[n], id, action)
    ensures JourneyAt(MoveLog(states, turns, localTimes), n, id, j)
    ensures action == NextAction(j.step) && j.dueAt <= turns[n].input.now
  {
    RunIsLog(states, turns, localTimes);
    RunMoves(states, turns, localTimes, n);
    NamedIsNext(states[n], turns[n], id, action);
    j := states[n].journeys[id];
  }

  /**
   In every run a step that is named due follows the last move of its station: it is the
   successor of the action sent, or the step passed over again, and comes at least 5 s
   after an action (2 min after a start, 10 s after a stop) and 30 s after a step passed over.
   */
  lemma DueStepFollowsLastMove(states: seq<State>, turns: seq<Turn>, localTimes: LocalTimes, n: nat, id: string, action: Action)
    returns (m: nat)
    requires IsRun(states, turns, localTimes) && n < |turns| && NamesDue(states[n], turns[n], id, action)
    ensures var log := MoveLog(states, turns, localTimes);
            && IsLastTouch(log, n, id, m)
            && WasSent(states[m], turns[m], localTimes, log[m].value.move)
            && action == NextAfter(log[m].value.move)
            && turns[n].input.now >= log[m].value.now + WaitAfter(log[m].value.move)
            && turns[n].input.now >= log[m].value.now + 5_000
  {
    var j := NamedJourney(states, turns, localTimes, n, id, action);
    m := LastTouch(MoveLog(states, turns, localTimes), n, id, j);
    LoggedWasSent(states, turns, localTimes, id, m);
  }

  /**
   In every run the next step of a public journey is due in time after the last move of its
   station: within 15 min of a start, a minute of a stop, 30 s of a plug-in, a minute of a
   step passed over.
   */
  lemma NextStepIsDueInTime(states: seq<State>, turns: seq<Turn>, localTimes: LocalTimes, n: nat, id: string) returns (m: nat)
    requires IsRun(states, turns, localTimes) && n < |states| && id in states[n].journeys
    ensures var log := MoveLog(states, turns, localTimes);
            && IsLastTouch(log, n, id, m)
            && NextAction(states[n].journeys[id].step) == NextAfter(log[m].value.move)
            && states[n].journeys[id].dueAt < log[m].value.now + WaitBefore(log[m].value.move)
  {
    RunIsLog(states, turns, localTimes);
    RunMoves(states, turns, localTimes, n);
    m := LastTouch(MoveLog(states, turns, localTimes), n, id, states[n].journeys[id]);
  }

  /** What ends the journey of a station that charges or has just stopped. */
  predicate EndsSession(d: Dated, id: string) {
    match d.move
    case Took(x, action) => x == id && action == Unplug
    case Passed(x, _, inTransaction) => x == id && !inTransaction
    case Gone(x) => x == id
    case Kept(ids) => id !in ids
  }

  lemma SessionEnds(journeys: map<string, PublicJourney>, d: Dated, id: string)
    requires MayMove(journeys, d) && id in journeys && journeys[id].step != Plugged
    ensures id !in ApplyMove(journeys, d) <==> EndsSession(d, id)
  {
  }

  /**
   In every run a public journey that charges or has just stopped ends in a turn if and
   only if that turn unplugs the station, passes its due step over without a transaction,
   finds its row gone, or is a refresh that no longer loads it.
   */
  lemma SessionEndsExactly(states: seq<State>, turns: seq<Turn>, localTimes: LocalTimes, n: nat, id: string)
    requires IsRun(states, turns, localTimes) && n < |turns|
    requires id in states[n].journeys && states[n].journeys[id].step != Plugged
    ensures id !in states[n + 1].journeys <==>
            TurnMove(states[n], turns[n]).Some? && EndsSession(TurnMove(states[n], turns[n]).value, id)
  {
    RunIsSafe(states, turns, localTimes, n);
    TurnMoves(states[n], turns[n], localTimes);
    if TurnMove(states[n], turns[n]).Some? {
      SessionEnds(states[n].journeys, TurnMove(states[n], turns[n]).value, id);
    }
  }

  /** What ends the journey of a station that is plugged in and has not started: also a fault or an outage. */
  predicate EndsPlugged(d: Dated, id: string) {
    || EndsSession(d, id)
    || (d.move.Took? && d.move.id == id && (d.move.action == InjectFault || d.move.action == GoOffline))
  }

  lemma PluggedEnds(journeys: map<string, PublicJourney>, d: Dated, id: string)
    requires MayMove(journeys, d) && id in journeys && journeys[id].step == Plugged
    ensures id !in ApplyMove(journeys, d) <==> EndsPlugged(d, id)
  {
  }

  /** In every run a public journey that has not started yet ends in a turn for the same reasons, or by a fault or an outage. */
  lemma PluggedEndsExactly(states: seq<State>, turns: seq<Turn>, localTimes: LocalTimes, n: nat, id: string)
    requires IsRun(states, turns, localTimes) && n < |turns|
    requires id in states[n].journeys && states[n].journeys[id].step == Plugged
    ensures id !in states[n + 1].journeys <==>
            TurnMove(states[n], turns[n]).Some? && EndsPlugged(TurnMove(states[n], turns[n]).value, id)
  {
    RunIsSafe(states, turns, localTimes, n);
    TurnMoves(states[n], turns[n], localTimes);
    if TurnMove(states[n], turns[n]).Some? {
      PluggedEnds(states[n].journeys, TurnMove(states[n], turns[n]).value, id);
    }
  }

  // ----- where a card in use came from -----

  /** The turn took the card for the station, which used none. */
  ghost predicate TakesCard(s: State, t: State, id: string, idToken: string) {
    id !in s.chargingTokenByStation && Charges(t, id, idToken)
  }

  /** The command is the start of the station with the card, sent if the publish worked. */
  predicate IsStartOf(o: Outcome, i: TickInput, id: string, idToken: string) {
    o.command == PublishedIf(i, Command(id, StartCharging, Some(idToken)))
  }

  lemma PublicActionTakes(s: State, i: TickInput, at: string, action: Action, id: string, idToken: string)
    ensures var o := PublicAction(s, i, at, action);
            TakesCard(s, o.state, id, idToken) ==> IsStartOf(o, i, id, idToken)
  {
  }

  lemma DepotStepTakes(s: State, i: TickInput, due: Due, localTimes: LocalTimes, id: string, idToken: string)
    requires due.DepotDue?
    ensures var o := DepotStep(s, i, due, localTimes);
            TakesCard(s, o.state, id, idToken) ==> IsStartOf(o, i, id, idToken)
  {
  }

  lemma ActTakes(s: State, i: TickInput, due: Due, at: string, localTimes: LocalTimes, id: string, idToken: string)
    requires !due.NothingDue? ==> due.stationId == at
    ensures var o := Act(s, i, due, at, localTimes);
            TakesCard(s, o.state, id, idToken) ==> IsStartOf(o, i, id, idToken)
  {
    var offered := Offered(s, i, at, due.DepotDue?);
    if due.NothingDue? {
      if offered != [] {
        PublicActionTakes(s, i, at, Pick(offered, i.pickAction), id, idToken);
      }
    } else if due.action in offered {
      if due.DepotDue? {
        DepotStepTakes(s, i, due, localTimes, id, idToken);
      } else {
        PublicActionTakes(s, i, at, due.action, id, idToken);
      }
    }
  }

  lemma TickTakes(s: State, i: TickInput, localTimes: LocalTimes, id: string, idToken: string)
    requires Consistent(s) && DueIsRight(s, i)
    ensures var o := Tick(s, i, localTimes);
            TakesCard(s, o.state, id, idToken) ==> IsStartOf(o, i, id, idToken)
  {
    if s.stationIds != [] {
      var due, at := DueOf(s, i), StationOf(s, i);
      DueFacts(s, i);
      if at !in s.offlineStations && !(due.NothingDue? && i.outage) && !i.row.Missing? {
        ActTakes(s, i, due, at, localTimes, id, idToken);
      }
    }
  }

  /** A turn that takes a card is a tick whose command, if published, is the start with that card. */
  lemma TurnTakes(s: State, turn: Turn, localTimes: LocalTimes, id: string, idToken: string)
    requires Consistent(s) && CanStep(s, turn)
    ensures TakesCard(s, Next(s, turn, localTimes), id, idToken) ==>
              turn.TickStep? && IsStartOf(Tick(s, turn.input, localTimes), turn.input, id, idToken)
  {
    if turn.TickStep? {
      TickTakes(s, turn.input, localTimes, id, idToken);
    }
  }

  /** Turn `m` took the card that the station has used ever since. */
  ghost predicate TookCard(states: seq<State>, m: nat, n: nat, id: string, idToken: string)
    requires n < |states|
  {
    m < n && TakesCard(states[m], states[m + 1], id, idToken) && forall k :: m < k <= n ==> Charges(states[k], id, idToken)
  }

  lemma CardGoesOn(states: seq<State>, m: nat, n: nat, id: string)
    requires 0 < n < |states| && id in states[n - 1].chargingTokenByStation && id in states[n].chargingTokenByStation
    requires TookCard(states, m, n - 1, id, states[n - 1].chargingTokenByStation[id])
    requires SameCards(states[n - 1], states[n])
    ensures TookCard(states, m, n, id, states[n].chargingTokenByStation[id])
  {
  }

  lemma {:induction false} CardWasTaken(states: seq<State>, turns: seq<Turn>, localTimes: LocalTimes, n: nat, id: string)
    returns (m: nat)
    requires IsRun(states, turns, localTimes) && n < |states| && id in states[n].chargingTokenByStation
    ensures TookCard(states, m, n, id, states[n].chargingTokenByStation[id])
  {
    if n == 0 {
      assert false;
    } else if id in states[n - 1].chargingTokenByStation {
      RunIsSafe(states, turns, localTimes, n - 1);
      SessionKeepsItsCard(states[n - 1], turns[n - 1], localTimes);
      m := CardWasTaken(states, turns, localTimes, n - 1, id);
      CardGoesOn(states, m, n, id);
    } else {
      m := n - 1;
    }
  }

  /**
   In every run a card in use at a station was taken by an earlier tick and used there ever
   since; a start with that card was sent to the station if and only if that tick's publish worked.
   */
  lemma HeldCardWasStarted(states: seq<State>, turns: seq<Turn>, localTimes: LocalTimes, n: nat, id: string)
    returns (m: nat)
    requires IsRun(states, turns, localTimes) && n < |states| && id in states[n].chargingTokenByStation
    ensures TookCard(states, m, n, id, states[n].chargingTokenByStation[id]) && turns[m].TickStep?
    ensures var start := Command(id, StartCharging, Some(states[n].chargingTokenByStation[id]));
            Tick(states[m], turns[m].input, localTimes).command == Some(start) <==> turns[m].input.published
  {
    m := CardWasTaken(states, turns, localTimes, n, id);
    RunIsSafe(states, turns, localTimes, m);
    TurnTakes(states[m], turns[m], localTimes, id, states[n].chargingTokenByStation[id]);
  }
}
