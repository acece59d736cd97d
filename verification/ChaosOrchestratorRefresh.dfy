/**
 A refresh of the orchestrator as events of its depot journeys: the stations that are
 gone are dropped, then each depot station is ensured, one after the other
 (packages/css/src/chaos-orchestrator.ts:743-748).
 */
module ChaosOrchestratorRefresh {
  import opened DepotJourneyModel
  import opened ChaosOrchestratorModel

  /** The stations outside `rest` have their journey, the others theirs from before. */
  ghost predicate PartlyEnsured(
    was: map<string, Journey>, now: map<string, Journey>, depots: map<string, DepotStation>, rest: set<string>,
    l: Loaded, localTimes: LocalTimes)
  {
    && rest <= depots.Keys
    && now.Keys == was.Keys + (depots.Keys - rest)
    && (forall id :: id in was && id in rest ==> now[id] == was[id])
    && (forall id :: id in depots && id !in rest ==> now[id] == EnsuredJourney(was, id, depots[id], l, localTimes))
  }

  lemma EnsureOne(
    was: map<string, Journey>, now: map<string, Journey>, depots: map<string, DepotStation>, rest: set<string>,
    l: Loaded, localTimes: LocalTimes, id: string)
    requires PartlyEnsured(was, now, depots, rest, l, localTimes) && id in rest && was.Keys <= depots.Keys
    ensures PartlyEnsured(
              was, Apply(now, Timed(Event.Ensure(id, depots[id].timeZone), l.now, l.draws(id)), localTimes), depots, rest - {id},
              l, localTimes)
  {
    var next := Apply(now, Timed(Event.Ensure(id, depots[id].timeZone), l.now, l.draws(id)), localTimes);
    assert id in now <==> id in was;
    assert next == now[id := EnsuredJourney(was, id, depots[id], l, localTimes)];
  }

  lemma NoneEnsured(was: map<string, Journey>, depots: map<string, DepotStation>, l: Loaded, localTimes: LocalTimes)
    requires was.Keys <= depots.Keys
    ensures PartlyEnsured(was, was, depots, depots.Keys, l, localTimes)
  {
  }

  lemma AllEnsured(
    was: map<string, Journey>, now: map<string, Journey>, depots: map<string, DepotStation>, l: Loaded, localTimes: LocalTimes)
    requires PartlyEnsured(was, now, depots, {}, l, localTimes) && was.Keys <= depots.Keys
    ensures now == AllJourneys(was, depots, l, localTimes)
  {
    var all := AllJourneys(was, depots, l, localTimes);
    assert now.Keys == all.Keys;
  }

  // ----- the events of a refresh -----

  /** One event after the other. */
  function ApplyAll(journeys: map<string, Journey>, ts: seq<Timed>, localTimes: LocalTimes): map<string, Journey> {
    if ts == [] then journeys else Apply(ApplyAll(journeys, ts[..|ts| - 1], localTimes), ts[|ts| - 1], localTimes)
  }

  function EnsureEvent(l: Loaded, id: string): Timed
    requires id in l.depotStations
  {
    Timed(Event.Ensure(id, l.depotStations[id].timeZone), l.now, l.draws(id))
  }

  function EnsureEvents(l: Loaded, ids: seq<string>): seq<Timed> {
    if ids == [] then []
    else
      var before, id := EnsureEvents(l, ids[..|ids| - 1]), ids[|ids| - 1];
      if id in l.depotStations then before + [EnsureEvent(l, id)] else before
  }

  /** The stations without a depot are dropped, the others ensured in the order they were loaded. */
  function RefreshEvents(l: Loaded): seq<Timed> {
    [Timed(Retain(LiveDepots(l).Keys), l.now, l.draws(""))] + EnsureEvents(l, l.stationIds)
  }

  lemma ApplyAllNext(journeys: map<string, Journey>, ts: seq<Timed>, t: Timed, localTimes: LocalTimes)
    ensures ApplyAll(journeys, ts + [t], localTimes) == Apply(ApplyAll(journeys, ts, localTimes), t, localTimes)
  {
    assert (ts + [t])[..|ts|] == ts;
  }

  lemma {:induction false} ApplyAllAppend(journeys: map<string, Journey>, a: seq<Timed>, b: seq<Timed>, localTimes: LocalTimes)
    ensures ApplyAll(journeys, a + b, localTimes) == ApplyAll(ApplyAll(journeys, a, localTimes), b, localTimes)
    decreases |b|
  {
    if b == [] {
      assert a + b == a;
    } else {
      var init, t := b[..|b| - 1], b[|b| - 1];
      ApplyAllAppend(journeys, a, init, localTimes);
      ApplyAllNext(journeys, a + init, t, localTimes);
      assert a + b == a + init + [t];
    }
  }

  /** A station that is ensured again stays as it is. */
  lemma EnsureAgain(
    was: map<string, Journey>, now: map<string, Journey>, depots: map<string, DepotStation>, rest: set<string>,
    l: Loaded, localTimes: LocalTimes, id: string)
    requires PartlyEnsured(was, now, depots, rest, l, localTimes) && id in depots && id !in rest
    ensures Apply(now, Timed(Event.Ensure(id, depots[id].timeZone), l.now, l.draws(id)), localTimes) == now
  {
    assert now[id].timeZone == depots[id].timeZone;
    assert now[id := now[id]] == now;
  }

  function IdsOf(ids: seq<string>): set<string> {
    set id | id in ids
  }

  lemma {:induction false} EnsuresApply(was: map<string, Journey>, l: Loaded, ids: seq<string>, localTimes: LocalTimes)
    requires was.Keys <= LiveDepots(l).Keys && IdsOf(ids) <= IdsOf(l.stationIds)
    ensures PartlyEnsured(was, ApplyAll(was, EnsureEvents(l, ids), localTimes), LiveDepots(l),
                          LiveDepots(l).Keys - IdsOf(ids), l, localTimes)
    decreases |ids|
  {
    var depots := LiveDepots(l);
    if ids == [] {
      NoneEnsured(was, depots, l, localTimes);
      assert depots.Keys - IdsOf(ids) == depots.Keys;
    } else {
      var init, id := ids[..|ids| - 1], ids[|ids| - 1];
      assert ids == init + [id];
      assert IdsOf(ids) == IdsOf(init) + {id};
      EnsuresApply(was, l, init, localTimes);
      var rest := depots.Keys - IdsOf(init);
      assert depots.Keys - IdsOf(ids) == rest - {id};
      if id in l.depotStations {
        assert id in IdsOf(l.stationIds);
        OneEnsured(was, l, EnsureEvents(l, init), rest, id, localTimes);
      } else {
        assert rest - {id} == rest;
      }
    }
  }

  lemma OneEnsured(was: map<string, Journey>, l: Loaded, ts: seq<Timed>, rest: set<string>, id: string, localTimes: LocalTimes)
    requires was.Keys <= LiveDepots(l).Keys && id in LiveDepots(l)
    requires PartlyEnsured(was, ApplyAll(was, ts, localTimes), LiveDepots(l), rest, l, localTimes)
    ensures PartlyEnsured(was, ApplyAll(was, ts + [EnsureEvent(l, id)], localTimes), LiveDepots(l), rest - {id}, l, localTimes)
  {
    var now, depots := ApplyAll(was, ts, localTimes), LiveDepots(l);
    ApplyAllNext(was, ts, EnsureEvent(l, id), localTimes);
    if id in rest {
      EnsureOne(was, now, depots, rest, l, localTimes, id);
    } else {
      EnsureAgain(was, now, depots, rest, l, localTimes, id);
      assert rest - {id} == rest;
    }
  }

  lemma SameEnsured(
    was: map<string, Journey>, kept: map<string, Journey>, depots: map<string, DepotStation>, l: Loaded, localTimes: LocalTimes)
    requires forall id :: id in depots ==> (id in kept <==> id in was) && (id in was ==> kept[id] == was[id])
    ensures AllJourneys(kept, depots, l, localTimes) == AllJourneys(was, depots, l, localTimes)
  {
    forall id | id in depots
      ensures EnsuredJourney(kept, id, depots[id], l, localTimes) == EnsuredJourney(was, id, depots[id], l, localTimes)
    {
    }
  }

  lemma ApplyAllOne(journeys: map<string, Journey>, t: Timed, localTimes: LocalTimes)
    ensures ApplyAll(journeys, [t], localTimes) == Apply(journeys, t, localTimes)
  {
    assert [t][..0] == [];
  }

  lemma EnsuresAll(kept: map<string, Journey>, l: Loaded, localTimes: LocalTimes)
    requires kept.Keys <= LiveDepots(l).Keys
    ensures ApplyAll(kept, EnsureEvents(l, l.stationIds), localTimes) == AllJourneys(kept, LiveDepots(l), l, localTimes)
  {
    EnsuresApply(kept, l, l.stationIds, localTimes);
    assert LiveDepots(l).Keys - IdsOf(l.stationIds) == {};
    AllEnsured(kept, ApplyAll(kept, EnsureEvents(l, l.stationIds), localTimes), LiveDepots(l), l, localTimes);
  }

  lemma RetainedJourneys(was: map<string, Journey>, depots: map<string, DepotStation>, l: Loaded, localTimes: LocalTimes)
    ensures var kept := Apply(was, Timed(Retain(depots.Keys), l.now, l.draws("")), localTimes);
            && kept.Keys <= depots.Keys
            && AllJourneys(kept, depots, l, localTimes) == AllJourneys(was, depots, l, localTimes)
  {
    SameEnsured(was, Apply(was, Timed(Retain(depots.Keys), l.now, l.draws("")), localTimes), depots, l, localTimes);
  }

  /** The events of a refresh do to the depot journeys exactly what the refresh does. */
  lemma RefreshIsEvents(s: State, l: Loaded, localTimes: LocalTimes)
    ensures ApplyAll(s.depotJourneys, RefreshEvents(l), localTimes) == Refresh(s, l, localTimes).depotJourneys
  {
    var retain := Timed(Retain(LiveDepots(l).Keys), l.now, l.draws(""));
    ApplyAllAppend(s.depotJourneys, [retain], EnsureEvents(l, l.stationIds), localTimes);
    ApplyAllOne(s.depotJourneys, retain, localTimes);
    RetainedJourneys(s.depotJourneys, LiveDepots(l), l, localTimes);
    EnsuresAll(Apply(s.depotJourneys, retain, localTimes), l, localTimes);
  }
}
