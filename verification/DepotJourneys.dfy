/**
 The depot journeys object (packages/css/src/chaos-journey.ts:240-399): a map it
 updates in place. Each method does exactly one event of DepotJourneyModel.
 */
module DepotJourneysObject {
  import opened Basics
  import opened ChaosActions
  import opened DepotJourneyModel

  datatype Due = Due(stationId: string, action: Action)

  class DepotJourneys {
    var journeys: map<string, Journey>
    /** The keys of the map in the order they were first set. */
    var order: seq<string>
    const localTimes: LocalTimes

    constructor (localTimes: LocalTimes)
      ensures journeys == map[] && this.localTimes == localTimes && Valid()
    {
      journeys := map[];
      order := [];
      this.localTimes := localTimes;
    }

    /** The order lists exactly the keys. */
    ghost predicate Valid()
      reads this
    {
      forall id :: id in journeys <==> id in order
    }

    method Ensure(stationId: string, timeZone: string, now: int, draws: Draws)
      requires Valid()
      modifies this
      ensures journeys == Apply(old(journeys), Timed(Event.Ensure(stationId, timeZone), now, draws), localTimes)
      ensures order == WithKey(old(order), stationId) && Valid()
    {
      if stationId in journeys {
        journeys := journeys[stationId := journeys[stationId].(timeZone := timeZone)];
        return;
      }
      order := WithKey(order, stationId);
      journeys := journeys[stationId := GoAway(now, timeZone, localTimes, draws)];
    }

    /** The first station, in the order they were first set, whose next step is due; none exactly when no step is due. */
    method NextDue(now: int) returns (due: Option<Due>)
      requires Valid()
      ensures due.Some? ==> due.value.stationId in journeys && IsDue(journeys[due.value.stationId], due.value.action, now)
      ensures due.Some? ==> exists k :: 0 <= k < |order| && order[k] == due.value.stationId
                                        && forall j :: 0 <= j < k ==> journeys[order[j]].dueAt > now
      ensures due.None? <==> forall id :: id in journeys ==> journeys[id].dueAt > now
    {
      for k := 0 to |order|
        invariant forall j :: 0 <= j < k ==> journeys[order[j]].dueAt > now
      {
        var id := order[k];
        if journeys[id].dueAt <= now {
          return Some(Due(id, NextAction(journeys[id].step)));
        }
      }
      due := None;
    }

    method VehicleAt(stationId: string) returns (vehicle: Option<Vehicle>)
      ensures vehicle == if stationId in journeys then journeys[stationId].vehicle else None
    {
      vehicle := if stationId in journeys then journeys[stationId].vehicle else None;
    }

    /** The cards of the vehicles at a depot station now. */
    method HeldTokens() returns (held: set<string>)
      ensures held == HeldTokensOf(journeys)
    {
      held := {};
      var rest := journeys.Keys;
      while rest != {}
        invariant rest <= journeys.Keys
        invariant held <= HeldTokensOf(journeys)
        invariant forall id :: id in journeys && id !in rest && journeys[id].vehicle.Some? ==>
                    journeys[id].vehicle.value.idToken in held
        decreases |rest|
      {
        SomeString(rest);
        var id :| id in rest;
        if journeys[id].vehicle.Some? {
          held := held + {journeys[id].vehicle.value.idToken};
        }
        rest := rest - {id};
      }
    }

    /** The keys of the vehicles at a depot station now. */
    method HeldVehicles() returns (held: set<string>)
      ensures held == HeldVehiclesOf(journeys)
    {
      held := {};
      var rest := journeys.Keys;
      while rest != {}
        invariant rest <= journeys.Keys
        invariant held <= HeldVehiclesOf(journeys)
        invariant forall id :: id in journeys && id !in rest && journeys[id].vehicle.Some? ==>
                    VehicleKey(journeys[id].vehicle.value) in held
        decreases |rest|
      {
        SomeString(rest);
        var id :| id in rest;
        if journeys[id].vehicle.Some? {
          held := held + {VehicleKey(journeys[id].vehicle.value)};
        }
        rest := rest - {id};
      }
    }

    /** A vehicle plugged in; returns when it leaves. */
    method Arrive(stationId: string, vehicle: Vehicle, now: int, draws: Draws) returns (departureAt: int)
      requires Valid()
      modifies this
      ensures journeys == Apply(old(journeys), Timed(Event.Arrive(stationId, vehicle), now, draws), localTimes)
      ensures departureAt > now && journeys[stationId].departureAt == Some(departureAt)
      ensures order == WithKey(old(order), stationId) && Valid()
    {
      var timeZone := if stationId in journeys then journeys[stationId].timeZone else "UTC";
      departureAt := DepotDepartureAt(now, timeZone, vehicle.nextDepartureMs, localTimes);
      order := WithKey(order, stationId);
      journeys := journeys[stationId :=
        Journey(Plugged, WaitUntil(now, 5_000, 30_000, draws.wait), None, timeZone, Some(vehicle), Some(departureAt))];
    }

    method Record(stationId: string, action: Action, now: int, draws: Draws)
      requires Valid()
      modifies this
      ensures journeys == Apply(old(journeys), Timed(Event.Record(stationId, action), now, draws), localTimes)
      ensures order == old(order) && Valid()
    {
      if stationId !in journeys {
        return;
      }
      var journey := journeys[stationId];
      if action == StartCharging {
        var departure := journey.departureAt.GetOr(now);
        journeys := journeys[stationId := journey.(step := Charging, dueAt := if now > departure then now else departure)];
      } else if action == StopCharging {
        journeys := journeys[stationId := journey.(step := Finishing, dueAt := WaitUntil(now, 10_000, 60_000, draws.wait))];
      } else if action == Unplug {
        Leave(stationId, journey.timeZone, now, draws);
      } else {
        assert journeys == journeys[stationId := journey];
      }
    }

    /** A plug-in that is not possible: a running session is taken over, a blocked bay is waited for until the deadline. */
    method SkipPlugIn(stationId: string, inTransaction: bool, now: int, draws: Draws)
      requires Valid() && stationId in journeys
      modifies this
      ensures journeys == old(journeys)[stationId := Skipped(old(journeys)[stationId], PlugIn, inTransaction, now, localTimes, draws)]
      ensures order == old(order) && Valid()
    {
      var journey := journeys[stationId];
      if inTransaction {
        var departureAt := DepotDepartureAt(now, journey.timeZone, None, localTimes);
        journeys := journeys[stationId := Journey(Charging, departureAt, None, journey.timeZone, None, Some(departureAt))];
        return;
      }
      var retryAt := RetryAt(now, draws);
      if journey.arrivalDeadline.Some? && retryAt > journey.arrivalDeadline.value {
        Leave(stationId, journey.timeZone, now, draws);
      } else {
        journeys := journeys[stationId := journey.(dueAt := retryAt)];
      }
    }

    /** A session step that is not possible: it is put off in a transaction, or the vehicle goes on without it. */
    method SkipSessionStep(stationId: string, action: Action, inTransaction: bool, now: int, draws: Draws)
      requires Valid() && stationId in journeys && action != PlugIn
      modifies this
      ensures journeys == old(journeys)[stationId := Skipped(old(journeys)[stationId], action, inTransaction, now, localTimes, draws)]
      ensures order == old(order) && Valid()
    {
      var journey := journeys[stationId];
      if inTransaction && action != StartCharging {
        journeys := journeys[stationId := journey.(dueAt := RetryAt(now, draws))];
      } else if action == StartCharging && inTransaction {
        Record(stationId, StartCharging, now, draws);
      } else if action == StopCharging {
        journeys := journeys[stationId := journey.(step := Finishing, dueAt := now)];
      } else {
        Leave(stationId, journey.timeZone, now, draws);
      }
    }

    method SkipDue(stationId: string, action: Action, inTransaction: bool, now: int, draws: Draws)
      requires Valid()
      modifies this
      ensures journeys == Apply(old(journeys), Timed(Event.Skip(stationId, action, inTransaction), now, draws), localTimes)
      ensures order == old(order) && Valid()
    {
      if stationId !in journeys {
        return;
      }
      if action == PlugIn {
        SkipPlugIn(stationId, inTransaction, now, draws);
      } else {
        SkipSessionStep(stationId, action, inTransaction, now, draws);
      }
    }

    method Drop(stationId: string)
      requires Valid()
      modifies this
      ensures journeys == old(journeys) - {stationId}
      ensures order == Others(old(order), stationId) && Valid()
    {
      journeys := journeys - {stationId};
      order := Others(order, stationId);
    }

    /** Forgets every station that is not in `liveIds`. */
    method Retain(liveIds: set<string>)
      requires Valid()
      modifies this
      ensures journeys == map id | id in old(journeys) && id in liveIds :: old(journeys)[id]
      ensures order == OnlyIn(old(order), liveIds) && Valid()
    {
      var keys, kept := order, [];
      for k := 0 to |keys|
        invariant kept == OnlyIn(keys[..k], liveIds)
        invariant journeys.Keys == set id | id in old(journeys) && (id in liveIds || id !in keys[..k])
        invariant forall id :: id in journeys ==> journeys[id] == old(journeys)[id]
      {
        assert keys[..k + 1] == keys[..k] + [keys[k]];
        if keys[k] in liveIds {
          kept := kept + [keys[k]];
        } else {
          journeys := journeys - {keys[k]};
        }
        assert keys[..k + 1][..k] == keys[..k];
      }
      assert keys[..|keys|] == keys;
      order := kept;
    }

    method Leave(stationId: string, timeZone: string, now: int, draws: Draws)
      requires Valid()
      modifies this
      ensures journeys == old(journeys)[stationId := GoAway(now, timeZone, localTimes, draws)]
      ensures order == WithKey(old(order), stationId) && Valid()
    {
      order := WithKey(order, stationId);
      journeys := journeys[stationId := GoAway(now, timeZone, localTimes, draws)];
    }
  }
}
