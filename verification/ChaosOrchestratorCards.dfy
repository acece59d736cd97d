/**
 When a card is in use, exactly: what takes it, what gives it back, and what a publish
 that fails does to it (packages/css/src/chaos-orchestrator.ts:805-1059).
 */
module ChaosOrchestratorCards {
  import opened Basics
  import opened ChaosActions
  import opened DepotJourneyModel
  import opened RandomDraw
  import opened ChaosOrchestratorModel
  import opened ChaosOrchestratorSafety
  import opened ChaosOrchestratorTheorems

  /** The command a tick sends if its publish works. */
  function Attempt(s: State, i: TickInput, localTimes: LocalTimes): Option<Command>
    requires DueIsRight(s, i)
  {
    Tick(s, i.(published := true), localTimes).command
  }

  /** The session of the station is to end. */
  predicate EndsAt(c: Option<Command>, id: string) {
    c.Some? && c.value.stationId == id && (c.value.action == StopCharging || c.value.action == Unplug)
  }

  predicate StartsAt(c: Option<Command>, id: string) {
    c.Some? && c.value.stationId == id && c.value.action == StartCharging
  }

  /** An attempt takes effect on the cards: it was published, or is of no depot journey, which is marked before the publish. */
  predicate TakesEffect(s: State, i: TickInput)
    requires DueIsRight(s, i)
  {
    i.published || !DueOf(s, i).DepotDue?
  }

  /** The station of the tick has no row any more. */
  predicate LosesRow(s: State, i: TickInput, id: string)
    requires DueIsRight(s, i)
  {
    && s.stationIds != [] && StationOf(s, i) == id && id !in s.offlineStations
    && !(DueOf(s, i).NothingDue? && i.outage) && i.row.Missing?
  }

  /** The station uses the card it used before, or none as before. */
  predicate SameCard(s: State, t: State, id: string) {
    && (id in t.chargingTokenByStation <==> id in s.chargingTokenByStation)
    && (id in s.chargingTokenByStation ==> Charges(t, id, s.chargingTokenByStation[id]))
  }

  /** Which card the station uses when an attempt takes effect. */
  predicate CardBy(s: State, attempt: Option<Command>, t: State, id: string) {
    if StartsAt(attempt, id) then attempt.value.idToken.Some? && Charges(t, id, attempt.value.idToken.value)
    else if EndsAt(attempt, id) then id !in t.chargingTokenByStation
    else SameCard(s, t, id)
  }

  /** Which card the station uses after the tick. */
  ghost predicate CardAfter(s: State, i: TickInput, attempt: Option<Command>, t: State, id: string)
    requires DueIsRight(s, i)
  {
    if LosesRow(s, i, id) then id !in t.chargingTokenByStation
    else if TakesEffect(s, i) then CardBy(s, attempt, t, id)
    else SameCard(s, t, id)
  }

  predicate IsOf(attempt: Option<Command>, at: string, action: Action) {
    attempt.Some? ==> attempt.value.stationId == at && attempt.value.action == action
  }

  lemma PublicStartCards(s: State, i: TickInput, at: string, id: string)
    ensures var o, attempt := PublicAction(s, i, at, StartCharging), PublicAction(s, i.(published := true), at, StartCharging).command;
            IsOf(attempt, at, StartCharging) && CardBy(s, attempt, o.state, id)
  {
  }

  lemma PublicOtherCards(s: State, i: TickInput, at: string, action: Action, id: string)
    requires action != StartCharging
    ensures var o, attempt := PublicAction(s, i, at, action), PublicAction(s, i.(published := true), at, action).command;
            IsOf(attempt, at, action) && CardBy(s, attempt, o.state, id)
  {
  }

  lemma PublicCards(s: State, i: TickInput, at: string, action: Action, id: string)
    ensures var o, attempt := PublicAction(s, i, at, action), PublicAction(s, i.(published := true), at, action).command;
            IsOf(attempt, at, action) && CardBy(s, attempt, o.state, id)
  {
    if action == StartCharging {
      PublicStartCards(s, i, at, id);
    } else {
      PublicOtherCards(s, i, at, action, id);
    }
  }

  lemma DepotPlugInCards(s: State, i: TickInput, due: Due, localTimes: LocalTimes, id: string)
    requires due.DepotDue? && due.action == PlugIn
    ensures var o, attempt := DepotStep(s, i, due, localTimes), DepotStep(s, i.(published := true), due, localTimes).command;
            && IsOf(attempt, due.stationId, due.action)
            && if i.published then CardBy(s, attempt, o.state, id) else SameCard(s, o.state, id)
  {
  }

  lemma DepotStartCards(s: State, i: TickInput, due: Due, localTimes: LocalTimes, id: string)
    requires due.DepotDue? && due.action == StartCharging
    ensures var o, attempt := DepotStep(s, i, due, localTimes), DepotStep(s, i.(published := true), due, localTimes).command;
            && IsOf(attempt, due.stationId, due.action)
            && if i.published then CardBy(s, attempt, o.state, id) else SameCard(s, o.state, id)
  {
  }

  lemma DepotEndCards(s: State, i: TickInput, due: Due, localTimes: LocalTimes, id: string)
    requires due.DepotDue? && due.action in {StopCharging, Unplug}
    ensures var o, attempt := DepotStep(s, i, due, localTimes), DepotStep(s, i.(published := true), due, localTimes).command;
            && IsOf(attempt, due.stationId, due.action)
            && if i.published then CardBy(s, attempt, o.state, id) else SameCard(s, o.state, id)
  {
  }

  lemma DepotCards(s: State, i: TickInput, due: Due, localTimes: LocalTimes, id: string)
    requires due.DepotDue? && due.action in {PlugIn, StartCharging, StopCharging, Unplug}
    ensures var o, attempt := DepotStep(s, i, due, localTimes), DepotStep(s, i.(published := true), due, localTimes).command;
            && IsOf(attempt, due.stationId, due.action)
            && if i.published then CardBy(s, attempt, o.state, id) else SameCard(s, o.state, id)
  {
    if due.action == PlugIn {
      DepotPlugInCards(s, i, due, localTimes, id);
    } else if due.action == StartCharging {
      DepotStartCards(s, i, due, localTimes, id);
    } else {
      DepotEndCards(s, i, due, localTimes, id);
    }
  }

  lemma SameOffer(s: State, i: TickInput, id: string, depotDue: bool)
    ensures Offered(s, i.(published := true), id, depotDue) == Offered(s, i, id, depotDue)
  {
  }

  lemma ActCards(s: State, i: TickInput, due: Due, at: string, localTimes: LocalTimes, id: string)
    requires DueIsRight(s, i) && due == DueOf(s, i) && (!due.NothingDue? ==> due.stationId == at) && !LosesRow(s, i, id)
    ensures CardAfter(s, i, Act(s, i.(published := true), due, at, localTimes).command, Act(s, i, due, at, localTimes).state, id)
  {
    var offered := Offered(s, i, at, due.DepotDue?);
    SameOffer(s, i, at, due.DepotDue?);
    if due.NothingDue? {
      if offered != [] {
        PublicCards(s, i, at, Pick(offered, i.pickAction), id);
      }
    } else if due.action in offered {
      if due.DepotDue? {
        DepotCards(s, i, due, localTimes, id);
      } else {
        PublicCards(s, i, at, due.action, id);
      }
    }
  }

  /**
   After every tick each station uses the card it used before, unless the tick's attempt
   is for it: a start takes its card, a stop or an unplug gives the card back. For a depot
   journey that happens when the publish works, for any other station even when it fails.
   */
  lemma CardAfterTick(s: State, i: TickInput, localTimes: LocalTimes, id: string)
    requires Consistent(s) && DueIsRight(s, i)
    ensures CardAfter(s, i, Attempt(s, i, localTimes), Tick(s, i, localTimes).state, id)
  {
    if s.stationIds != [] {
      var due, at := DueOf(s, i), StationOf(s, i);
      if at !in s.offlineStations && !(due.NothingDue? && i.outage) && !i.row.Missing? {
        ActCards(s, i, due, at, localTimes, id);
      } else {
        QuietCards(s, i, localTimes, id);
      }
    }
  }

  lemma QuietCards(s: State, i: TickInput, localTimes: LocalTimes, id: string)
    requires DueIsRight(s, i) && s.stationIds != []
    requires StationOf(s, i) in s.offlineStations || (DueOf(s, i).NothingDue? && i.outage) || i.row.Missing?
    ensures CardAfter(s, i, Attempt(s, i, localTimes), Tick(s, i, localTimes).state, id)
  {
  }

  // ----- a stop -----

  lemma PublicSends(s: State, i: TickInput, at: string, action: Action)
    ensures PublicAction(s, i, at, action).command.Some? ==> i.published
  {
  }

  lemma DepotSends(s: State, i: TickInput, due: Due, localTimes: LocalTimes)
    requires due.DepotDue?
    ensures DepotStep(s, i, due, localTimes).command.Some? ==> i.published
  {
  }

  lemma ActSends(s: State, i: TickInput, due: Due, at: string, localTimes: LocalTimes)
    requires !due.NothingDue? ==> due.stationId == at
    ensures Act(s, i, due, at, localTimes).command.Some? ==> i.published
  {
    var offered := Offered(s, i, at, due.DepotDue?);
    if due.NothingDue? {
      if offered != [] {
        PublicSends(s, i, at, Pick(offered, i.pickAction));
      }
    } else if due.action in offered {
      if due.DepotDue? {
        DepotSends(s, i, due, localTimes);
      } else {
        PublicSends(s, i, at, due.action);
      }
    }
  }

  lemma SentIsPublished(s: State, i: TickInput, localTimes: LocalTimes)
    requires DueIsRight(s, i) && Tick(s, i, localTimes).command.Some?
    ensures i.published && Attempt(s, i, localTimes) == Tick(s, i, localTimes).command
  {
    if s.stationIds != [] {
      ActSends(s, i, DueOf(s, i), StationOf(s, i), localTimes);
    }
    assert i == i.(published := true);
  }

  /** The station uses no card, and the one it used before is free unless the vehicle at a depot station has it. */
  ghost predicate IsReleased(s: State, t: State, id: string) {
    && id !in t.chargingStations && id !in t.chargingTokenByStation
    && (id in s.chargingTokenByStation ==>
          (s.chargingTokenByStation[id] in BusyTokens(t) <==> s.chargingTokenByStation[id] in HeldTokensOf(t.depotJourneys)))
  }

  /** After every tick that sends a stop or an unplug, of a depot journey or not, the station and its card are released. */
  lemma StopReleases(s: State, i: TickInput, localTimes: LocalTimes, id: string)
    requires Safe(s) && DueIsRight(s, i) && EndsAt(Tick(s, i, localTimes).command, id)
    ensures IsReleased(s, Tick(s, i, localTimes).state, id)
  {
    SentIsPublished(s, i, localTimes);
    EndReleases(s, i, localTimes, id);
  }

  /** So it is after an attempt that takes effect. */
  lemma EndReleases(s: State, i: TickInput, localTimes: LocalTimes, id: string)
    requires Safe(s) && DueIsRight(s, i) && TakesEffect(s, i) && EndsAt(Attempt(s, i, localTimes), id)
    ensures IsReleased(s, Tick(s, i, localTimes).state, id)
  {
    var t := Tick(s, i, localTimes).state;
    TickKept(s, i, localTimes);
    CardAfterTick(s, i, localTimes, id);
    if id in s.chargingTokenByStation {
      forall x | x in t.chargingTokenByStation
        ensures t.chargingTokenByStation[x] != s.chargingTokenByStation[id]
      {
        CardAfterTick(s, i, localTimes, x);
      }
    }
  }

  lemma FailedPublicEnd(s: State, i: TickInput, at: string, action: Action)
    requires !i.published && (action == StopCharging || action == Unplug)
    ensures PublicAction(s, i, at, action).state ==
            s.(chargingStations := s.chargingStations - {at}, chargingTokenByStation := s.chargingTokenByStation - {at})
  {
  }

  lemma FailedActEnd(s: State, i: TickInput, due: Due, at: string, localTimes: LocalTimes, id: string)
    requires !i.published && (!due.NothingDue? ==> due.stationId == at)
    requires due.DepotDue? ==> due.action in {PlugIn, StartCharging, StopCharging, Unplug}
    requires EndsAt(Act(s, i.(published := true), due, at, localTimes).command, id)
    ensures id == at
    ensures Act(s, i, due, at, localTimes).state ==
            if due.DepotDue? then s
            else s.(chargingStations := s.chargingStations - {at}, chargingTokenByStation := s.chargingTokenByStation - {at})
  {
    var offered := Offered(s, i, at, due.DepotDue?);
    SameOffer(s, i, at, due.DepotDue?);
    if due.NothingDue? {
      if offered != [] {
        FailedPublicEnd(s, i, at, Pick(offered, i.pickAction));
      }
    } else if due.PublicDue? && due.action in offered {
      FailedPublicEnd(s, i, at, due.action);
    }
  }

  /**
   A stop or an unplug whose publish fails is not sent. A due step of a depot journey changes
   nothing then, and stays due; any other releases the station and its card all the same,
   and leaves the journeys as they are.
   */
  lemma FailedEnd(s: State, i: TickInput, localTimes: LocalTimes, id: string)
    requires DueIsRight(s, i) && !i.published && EndsAt(Attempt(s, i, localTimes), id)
    ensures Tick(s, i, localTimes).command.None?
    ensures Tick(s, i, localTimes).state ==
            if DueOf(s, i).DepotDue? then s
            else s.(chargingStations := s.chargingStations - {id}, chargingTokenByStation := s.chargingTokenByStation - {id})
  {
    var due := DueOf(s, i);
    FailedActEnd(s, i, due, StationOf(s, i), localTimes, id);
    if Tick(s, i, localTimes).command.Some? {
      SentIsPublished(s, i, localTimes);
    }
  }

  // ----- over a run -----

  /** The turn takes the card for the station. */
  ghost predicate Takes(s: State, turn: Turn, localTimes: LocalTimes, id: string, idToken: string)
    requires CanStep(s, turn)
  {
    turn.TickStep? && TakesEffect(s, turn.input) &&
    Attempt(s, turn.input, localTimes) == Some(Command(id, StartCharging, Some(idToken)))
  }

  /** The turn ends the session of the station, finds its row gone, or no longer loads it. */
  ghost predicate Frees(s: State, turn: Turn, localTimes: LocalTimes, id: string)
    requires CanStep(s, turn)
  {
    match turn
    case TickStep(i) => LosesRow(s, i, id) || (TakesEffect(s, i) && EndsAt(Attempt(s, i, localTimes), id))
    case RefreshStep(l) => id !in l.stationIds
  }

  /** A start is attempted only for a station without a card. */
  lemma StartNeedsNoCard(s: State, i: TickInput, localTimes: LocalTimes, id: string)
    requires Safe(s) && DueIsRight(s, i) && StartsAt(Attempt(s, i, localTimes), id)
    ensures id !in s.chargingTokenByStation && Attempt(s, i, localTimes).value.idToken.Some? && !LosesRow(s, i, id)
  {
    StartUsesAFreeCard(s, i.(published := true), localTimes);
  }

  /** One turn: a card is in use after it if the turn takes it, or it was in use and the turn does not free it. */
  lemma TurnCards(s: State, turn: Turn, localTimes: LocalTimes, id: string, idToken: string)
    requires Safe(s) && CanStep(s, turn)
    ensures Charges(Next(s, turn, localTimes), id, idToken) <==>
            Takes(s, turn, localTimes, id, idToken) || (Charges(s, id, idToken) && !Frees(s, turn, localTimes, id))
  {
    match turn
    case TickStep(i) =>
      CardAfterTick(s, i, localTimes, id);
      if StartsAt(Attempt(s, i, localTimes), id) {
        StartNeedsNoCard(s, i, localTimes, id);
      }
    case RefreshStep(_) =>
  }

  lemma RunCards(states: seq<State>, turns: seq<Turn>, localTimes: LocalTimes, n: nat, id: string, idToken: string)
    requires IsRun(states, turns, localTimes) && n < |turns|
    ensures Charges(states[n + 1], id, idToken) <==>
            || Takes(states[n], turns[n], localTimes, id, idToken)
            || (Charges(states[n], id, idToken) && !Frees(states[n], turns[n], localTimes, id))
  {
    RunIsSafe(states, turns, localTimes, n);
    TurnCards(states[n], turns[n], localTimes, id, idToken);
  }

  /** Turn `m` took the card for the station, and no turn from then to `n` freed it. */
  ghost predicate InUseSince(states: seq<State>, turns: seq<Turn>, localTimes: LocalTimes, m: nat, n: nat, id: string, idToken: string)
    requires IsRun(states, turns, localTimes)
  {
    && m < n <= |turns| && Takes(states[m], turns[m], localTimes, id, idToken)
    && forall k :: m < k < n ==> !Frees(states[k], turns[k], localTimes, id)
  }

  /** Taken at `m` and not freed from then to `n`. */
  ghost predicate HeldSince(takes: seq<bool>, frees: seq<bool>, m: nat, n: nat) {
    m < n <= |takes| && |frees| == |takes| && takes[m] && forall k :: m < k < n ==> !frees[k]
  }

  ghost predicate Switches(uses: seq<bool>, takes: seq<bool>, frees: seq<bool>) {
    && |uses| == |takes| + 1 == |frees| + 1 && !uses[0]
    && forall n, next :: 0 <= n < |takes| && next == n + 1 ==> uses[next] == (takes[n] || (uses[n] && !frees[n]))
  }

  /** Something that is taken and freed turn by turn is in use when it was taken and not freed since. */
  lemma {:induction false} InUseWhenHeld(uses: seq<bool>, takes: seq<bool>, frees: seq<bool>, n: nat)
    requires Switches(uses, takes, frees) && n < |uses|
    ensures uses[n] <==> exists m: nat :: HeldSince(takes, frees, m, n)
  {
    if n > 0 {
      var before := n - 1;
      InUseWhenHeld(uses, takes, frees, before);
      assert uses[n] == (takes[before] || (uses[before] && !frees[before]));
      if takes[before] {
        assert HeldSince(takes, frees, before, n);
      } else if uses[n] {
        var m: nat :| HeldSince(takes, frees, m, before);
        assert HeldSince(takes, frees, m, n);
      } else if m: nat :| HeldSince(takes, frees, m, n) {
        assert HeldSince(takes, frees, m, before);
      }
    }
  }

  /** A run as what each turn does to one card at one station. */
  ghost function UsesOf(states: seq<State>, id: string, idToken: string): (uses: seq<bool>)
    ensures |uses| == |states| && forall n :: 0 <= n < |states| ==> uses[n] == Charges(states[n], id, idToken)
  {
    seq(|states|, n requires 0 <= n < |states| => Charges(states[n], id, idToken))
  }

  ghost function TakesOf(states: seq<State>, turns: seq<Turn>, localTimes: LocalTimes, id: string, idToken: string): (takes: seq<bool>)
    requires IsRun(states, turns, localTimes)
    ensures |takes| == |turns|
    ensures forall n :: 0 <= n < |turns| ==> takes[n] == Takes(states[n], turns[n], localTimes, id, idToken)
  {
    seq(|turns|, n requires 0 <= n < |turns| && CanStep(states[n], turns[n]) =>
      Takes(states[n], turns[n], localTimes, id, idToken))
  }

  ghost function FreesOf(states: seq<State>, turns: seq<Turn>, localTimes: LocalTimes, id: string): (frees: seq<bool>)
    requires IsRun(states, turns, localTimes)
    ensures |frees| == |turns| && forall n :: 0 <= n < |turns| ==> frees[n] == Frees(states[n], turns[n], localTimes, id)
  {
    seq(|turns|, n requires 0 <= n < |turns| && CanStep(states[n], turns[n]) => Frees(states[n], turns[n], localTimes, id))
  }

  lemma RunSwitches(states: seq<State>, turns: seq<Turn>, localTimes: LocalTimes, id: string, idToken: string)
    requires IsRun(states, turns, localTimes)
    ensures Switches(UsesOf(states, id, idToken), TakesOf(states, turns, localTimes, id, idToken),
                     FreesOf(states, turns, localTimes, id))
  {
    forall n, next | 0 <= n < |turns| && next == n + 1
      ensures UsesOf(states, id, idToken)[next] ==
              (TakesOf(states, turns, localTimes, id, idToken)[n]
               || (UsesOf(states, id, idToken)[n] && !FreesOf(states, turns, localTimes, id)[n]))
    {
      RunCards(states, turns, localTimes, n, id, idToken);
    }
  }

  /**
   In every run a card is in use at a station if and only if a start took it there and
   since then no stop or unplug took effect there, its row did not go, and every refresh
   loaded the station.
   */
  lemma CardInUseExactly(states: seq<State>, turns: seq<Turn>, localTimes: LocalTimes, n: nat, id: string, idToken: string)
    requires IsRun(states, turns, localTimes) && n < |states|
    ensures Charges(states[n], id, idToken) <==> exists m: nat :: InUseSince(states, turns, localTimes, m, n, id, idToken)
  {
    var takes, frees := TakesOf(states, turns, localTimes, id, idToken), FreesOf(states, turns, localTimes, id);
    RunSwitches(states, turns, localTimes, id, idToken);
    InUseWhenHeld(UsesOf(states, id, idToken), takes, frees, n);
    forall m: nat
      ensures HeldSince(takes, frees, m, n) <==> InUseSince(states, turns, localTimes, m, n, id, idToken)
    {
    }
  }

  lemma NotFreedNotEnded(s: State, turn: Turn, localTimes: LocalTimes, id: string)
    requires CanStep(s, turn) && !Frees(s, turn, localTimes, id)
    ensures turn.TickStep? ==> !EndsAt(Tick(s, turn.input, localTimes).command, id)
  {
    if turn.TickStep? && Tick(s, turn.input, localTimes).command.Some? {
      SentIsPublished(s, turn.input, localTimes);
    }
  }

  /** In every run no stop and no unplug was sent to a station since its card in use was taken. */
  lemma NoStopSinceStart(states: seq<State>, turns: seq<Turn>, localTimes: LocalTimes, n: nat, id: string) returns (m: nat)
    requires IsRun(states, turns, localTimes) && n < |states| && id in states[n].chargingTokenByStation
    ensures InUseSince(states, turns, localTimes, m, n, id, states[n].chargingTokenByStation[id])
    ensures forall k :: m < k < n && turns[k].TickStep? ==> !EndsAt(Tick(states[k], turns[k].input, localTimes).command, id)
  {
    CardInUseExactly(states, turns, localTimes, n, id, states[n].chargingTokenByStation[id]);
    m :| InUseSince(states, turns, localTimes, m, n, id, states[n].chargingTokenByStation[id]);
    forall k | m < k < n && turns[k].TickStep?
      ensures !EndsAt(Tick(states[k], turns[k].input, localTimes).command, id)
    {
      NotFreedNotEnded(states[k], turns[k], localTimes, id);
    }
  }
}
