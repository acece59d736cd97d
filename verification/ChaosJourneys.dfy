/**
 The journey of a public station that chaos plugged in
 (packages/css/src/chaos-journey.ts:6-115): which step comes next, and when.
 */
module ChaosJourneysObject {
  import opened Basics
  import opened ChaosActions
  import opened DepotJourneyModel

  datatype PublicJourney = PublicJourney(step: Step, dueAt: int)

  /** The wait before the step after this one. */
  function StepWait(step: Step, now: int, draws: Draws): int {
    match step
    case Charging => WaitUntil(now, 120_000, 900_000, draws.wait)
    case Finishing => WaitUntil(now, 10_000, 60_000, draws.wait)
    case _ => WaitUntil(now, 5_000, 30_000, draws.wait)
  }

  /** The step a station is in after an action, if the action is one of a session. */
  function StepAfter(action: Action): Option<Step> {
    match action
    case PlugIn => Some(Plugged)
    case StartCharging => Some(Charging)
    case StopCharging => Some(Finishing)
    case _ => None
  }

  function RecordPublic(journeys: map<string, PublicJourney>, id: string, action: Action, now: int, draws: Draws)
    : map<string, PublicJourney>
  {
    if action == Unplug then journeys - {id}
    else if action == InjectFault || action == GoOffline then
      if id in journeys && journeys[id].step == Plugged then journeys - {id} else journeys
    else match StepAfter(action)
      case Some(step) => journeys[id := PublicJourney(step, StepWait(step, now, draws))]
      case None => journeys
  }

  function SkipPublic(
      journeys: map<string, PublicJourney>, id: string, action: Action, inTransaction: bool, now: int, draws: Draws)
    : map<string, PublicJourney>
  {
    if inTransaction && action == StartCharging then RecordPublic(journeys, id, StartCharging, now, draws)
    else if inTransaction && id in journeys then journeys[id := journeys[id].(dueAt := RetryAt(now, draws))]
    else journeys - {id}
  }

  /** The order after one station's entry was set or deleted. */
  function KeysAfter(order: seq<string>, journeys: map<string, PublicJourney>, id: string): seq<string> {
    if id in journeys then WithKey(order, id) else Others(order, id)
  }

  class ChaosJourneys {
    var journeys: map<string, PublicJourney>
    /** The keys of the map in the order they were first set. */
    var order: seq<string>

    constructor ()
      ensures journeys == map[] && Valid()
    {
      journeys := map[];
      order := [];
    }

    /** The order lists exactly the keys. */
    ghost predicate Valid()
      reads this
    {
      forall id :: id in journeys <==> id in order
    }

    method Record(stationId: string, action: Action, now: int, draws: Draws)
      requires Valid()
      modifies this
      ensures journeys == RecordPublic(old(journeys), stationId, action, now, draws)
      ensures order == KeysAfter(old(order), journeys, stationId) && Valid()
    {
      if action == Unplug {
        journeys := journeys - {stationId};
        order := Others(order, stationId);
        return;
      }
      if action == InjectFault || action == GoOffline {
        if stationId in journeys && journeys[stationId].step == Plugged {
          journeys := journeys - {stationId};
          order := Others(order, stationId);
        }
        return;
      }
      var step := StepAfter(action);
      if step.Some? {
        order := WithKey(order, stationId);
        journeys := journeys[stationId := PublicJourney(step.value, StepWait(step.value, now, draws))];
      }
    }

    /** The first station, in the order they were first set, whose next step is due; none exactly when no step is due. */
    method NextDue(now: int) returns (due: Option<string>)
      requires Valid()
      ensures due.Some? ==> due.value in journeys && journeys[due.value].dueAt <= now
      ensures due.Some? ==> exists k :: 0 <= k < |order| && order[k] == due.value
                                        && forall j :: 0 <= j < k ==> journeys[order[j]].dueAt > now
      ensures due.None? <==> forall id :: id in journeys ==> journeys[id].dueAt > now
    {
      for k := 0 to |order|
        invariant forall j :: 0 <= j < k ==> journeys[order[j]].dueAt > now
      {
        if journeys[order[k]].dueAt <= now {
          return Some(order[k]);
        }
      }
      due := None;
    }

    method SkipDue(stationId: string, action: Action, inTransaction: bool, now: int, draws: Draws)
      requires Valid()
      modifies this
      ensures journeys == SkipPublic(old(journeys), stationId, action, inTransaction, now, draws)
      ensures order == KeysAfter(old(order), journeys, stationId) && Valid()
    {
      if inTransaction {
        if action == StartCharging {
          Record(stationId, StartCharging, now, draws);
          return;
        }
        if stationId in journeys {
          journeys := journeys[stationId := journeys[stationId].(dueAt := RetryAt(now, draws))];
          return;
        }
      }
      journeys := journeys - {stationId};
      order := Others(order, stationId);
    }

    method Drop(stationId: string)
      requires Valid()
      modifies this
      ensures journeys == old(journeys) - {stationId}
      ensures order == Others(old(order), stationId) && Valid()
    {
      journeys := journeys - {stationId};
      order := Others(order, stationId);
    }

    method Retain(liveIds: set<string>)
      requires Valid()
      modifies this
      ensures journeys == map id | id in old(journeys) && id in liveIds :: old(journeys)[id]
      ensures order == OnlyIn(old(order), liveIds) && Valid()
    {
      var keys, kept := order, [];
      for k := 0 to |keys|
        invariant kept == OnlyIn(keys[..k], liveIds)
        invariant journeys.Keys == set id | id in old(journeys) && (id in liveIds || id !in keys[..k])
        invariant forall id :: id in journeys ==> journeys[id] == old(journeys)[id]
      {
        assert keys[..k + 1] == keys[..k] + [keys[k]];
        if keys[k] in liveIds {
          kept := kept + [keys[k]];
        } else {
          journeys := journeys - {keys[k]};
        }
        assert keys[..k + 1][..k] == keys[..k];
      }
      assert keys[..|keys|] == keys;
      order := kept;
    }
  }
}
