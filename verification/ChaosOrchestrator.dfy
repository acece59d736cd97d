/**
 The orchestrator object (packages/css/src/chaos-orchestrator.ts:559-1060): it keeps
 its caches in fields and the journeys in two objects of its own. A dispatch and a
 refresh do exactly the steps of ChaosOrchestratorModel.
 */
module ChaosOrchestratorObject {
  import opened Basics
  import opened ChaosActions
  import opened ChaosJourneysObject
  import opened DepotJourneyModel
  import opened DepotJourneysObject
  import opened RandomDraw
  import opened ChaosOrchestratorModel
  import opened ChaosOrchestratorSafety
  import opened ChaosOrchestratorRefresh

  class ChaosOrchestrator {
    var stationIds: seq<string>
    var tokens: seq<Token>
    var fleetTokens: map<string, seq<Token>>
    var depotStations: map<string, DepotStation>
    var offlineStations: set<string>
    var chargingStations: set<string>
    var chargingTokenByStation: map<string, string>
    const journeys: ChaosJourneys
    const depotJourneys: DepotJourneys
    const localTimes: LocalTimes

    function State(): ChaosOrchestratorModel.State
      reads this, journeys, depotJourneys
    {
      ChaosOrchestratorModel.State.State(
        stationIds, tokens, fleetTokens, depotStations, offlineStations, chargingStations, chargingTokenByStation,
        journeys.journeys, depotJourneys.journeys)
    }

    /** The two journey objects are in order and share the calendar. */
    ghost predicate JourneysValid()
      reads this, journeys, depotJourneys
    {
      depotJourneys.localTimes == localTimes && journeys.Valid() && depotJourneys.Valid()
    }

    ghost predicate Valid()
      reads this, journeys, depotJourneys
    {
      JourneysValid() && Safe(State())
    }

    constructor (localTimes: LocalTimes)
      ensures Valid() && State() == INITIAL && this.localTimes == localTimes
      ensures fresh(journeys) && fresh(depotJourneys)
    {
      stationIds, tokens, fleetTokens, depotStations := [], [], map[], map[];
      offlineStations, chargingStations, chargingTokenByStation := {}, {}, map[];
      var publicJourneys := new ChaosJourneys();
      var depot := new DepotJourneys(localTimes);
      journeys := publicJourneys;
      depotJourneys := depot;
      this.localTimes := localTimes;
    }

    /** Removes one station from the caches. */
    method DropStation(stationId: string)
      requires JourneysValid()
      modifies this, journeys, depotJourneys
      ensures State() == ChaosOrchestratorModel.DropStation(old(State()), stationId)
      ensures JourneysValid()
    {
      stationIds := Others(stationIds, stationId);
      offlineStations := offlineStations - {stationId};
      chargingStations := chargingStations - {stationId};
      chargingTokenByStation := chargingTokenByStation - {stationId};
      journeys.Drop(stationId);
      depotStations := depotStations - {stationId};
      depotJourneys.Drop(stationId);
    }

    /** The step due on a journey tick. */
    method FindDue(i: TickInput) returns (due: ChaosOrchestratorModel.Due, asked: TickInput)
      requires JourneysValid()
      ensures asked == i.(depotDue := asked.depotDue, publicDue := asked.publicDue)
      ensures DueIsRight(State(), asked) && due == DueOf(State(), asked)
    {
      asked := i.(depotDue := None, publicDue := None);
      if !i.journeyTick {
        return NothingDue, asked;
      }
      var depot := depotJourneys.NextDue(i.now);
      if depot.Some? {
        return DepotDue(depot.value.stationId, depot.value.action), asked.(depotDue := Some(depot.value.stationId));
      }
      var other := journeys.NextDue(i.now);
      asked := asked.(publicDue := other);
      due := if other.Some? then PublicDue(other.value, NextAction(journeys.journeys[other.value].step)) else NothingDue;
    }

    method SkipStep(i: TickInput, due: ChaosOrchestratorModel.Due)
      requires !due.NothingDue? && JourneysValid()
      modifies journeys, depotJourneys
      ensures State() == SkipDue(old(State()), i, due, localTimes)
      ensures JourneysValid()
    {
      var inTransaction := due.stationId in chargingStations || (i.row.Row? && i.row.hasTransaction);
      if due.DepotDue? {
        depotJourneys.SkipDue(due.stationId, due.action, inTransaction, i.now, i.draws);
      } else {
        journeys.SkipDue(due.stationId, due.action, inTransaction, i.now, i.draws);
      }
    }

    /** The cards that charge somewhere or belong to a vehicle at a depot station. */
    method Busy() returns (busy: set<string>)
      ensures busy == BusyTokens(State())
    {
      var held := depotJourneys.HeldTokens();
      busy := chargingTokenByStation.Values + held;
    }

    method TakeDepotStep(i: TickInput, due: ChaosOrchestratorModel.Due) returns (command: Option<Command>)
      requires due.DepotDue? && JourneysValid()
      modifies this, journeys, depotJourneys
      ensures Outcome(State(), command) == DepotStep(old(State()), i, due, localTimes)
      ensures JourneysValid()
    {
      var id := due.stationId;
      command := None;
      if due.action == PlugIn {
        var busy := Busy();
        var busyVehicles := depotJourneys.HeldVehicles();
        var free := FreeVehicles(if id in depotStations then depotStations[id].vehicles else [], busy, busyVehicles);
        if free == [] {
          SkipStep(i, due);
        } else if i.published {
          var _ := depotJourneys.Arrive(id, Pick(free, i.pickCard), i.now, i.draws);
          command := Some(Command(id, PlugIn, None));
        }
      } else if due.action == StartCharging {
        var vehicle := depotJourneys.VehicleAt(id);
        if vehicle.None? {
          SkipStep(i, due);
        } else if i.published {
          chargingStations := chargingStations + {id};
          chargingTokenByStation := chargingTokenByStation[id := vehicle.value.idToken];
          depotJourneys.Record(id, StartCharging, i.now, i.draws);
          command := Some(Command(id, StartCharging, Some(vehicle.value.idToken)));
        }
      } else if i.published {
        chargingStations := chargingStations - {id};
        chargingTokenByStation := chargingTokenByStation - {id};
        depotJourneys.Record(id, due.action, i.now, i.draws);
        command := Some(Command(id, due.action, None));
      }
    }

    method PublishAndRecord(i: TickInput, c: Command) returns (command: Option<Command>)
      requires JourneysValid()
      modifies journeys
      ensures Outcome(State(), command) == Publish(old(State()), i, c)
      ensures JourneysValid()
    {
      command := None;
      if i.published {
        journeys.Record(c.stationId, c.action, i.now, i.draws);
        command := Some(c);
      }
    }

    method TakePublicAction(i: TickInput, id: string, action: Action) returns (command: Option<Command>)
      requires JourneysValid()
      modifies this, journeys
      ensures Outcome(State(), command) == PublicAction(old(State()), i, id, action)
      ensures JourneysValid()
    {
      if action == StartCharging {
        var busy := Busy();
        var free := FreeTokens(if id in fleetTokens then fleetTokens[id] else tokens, busy);
        if free == [] {
          return None;
        }
        var idToken := Pick(free, i.pickCard).idToken;
        chargingStations := chargingStations + {id};
        chargingTokenByStation := chargingTokenByStation[id := idToken];
        command := PublishAndRecord(i, Command(id, action, Some(idToken)));
      } else {
        if action == StopCharging || action == Unplug {
          chargingStations := chargingStations - {id};
          chargingTokenByStation := chargingTokenByStation - {id};
        }
        command := PublishAndRecord(i, Command(id, action, None));
      }
    }

    method ActOn(i: TickInput, due: ChaosOrchestratorModel.Due, id: string) returns (command: Option<Command>)
      requires (!due.NothingDue? ==> due.stationId == id) && JourneysValid()
      modifies this, journeys, depotJourneys
      ensures Outcome(State(), command) == Act(old(State()), i, due, id, localTimes)
      ensures JourneysValid()
    {
      var offered := Offered(State(), i, id, due.DepotDue?);
      command := None;
      if due.NothingDue? {
        if offered != [] {
          command := TakePublicAction(i, id, Pick(offered, i.pickAction));
        }
      } else if due.action !in offered {
        SkipStep(i, due);
      } else if due.DepotDue? {
        command := TakeDepotStep(i, due);
      } else {
        command := TakePublicAction(i, id, due.action);
      }
    }

    /** The tick once it is known which step is due. */
    method Dispatch(i: TickInput, due: ChaosOrchestratorModel.Due) returns (command: Option<Command>)
      requires DueIsRight(State(), i) && due == DueOf(State(), i) && JourneysValid()
      modifies this, journeys, depotJourneys
      ensures Outcome(State(), command) == Tick(old(State()), i, localTimes)
      ensures JourneysValid()
    {
      command := None;
      if stationIds == [] {
        return;
      }
      var id := if due.NothingDue? then Pick(stationIds, i.pickStation) else due.stationId;
      if id in offlineStations {
        offlineStations := offlineStations - {id};
        command := PublishedIf(i, Command(id, ComeOnline, None));
      } else if due.NothingDue? && i.outage {
        offlineStations := offlineStations + {id};
        journeys.Record(id, GoOffline, i.now, i.draws);
        command := PublishedIf(i, Command(id, GoOffline, None));
      } else if i.row.Missing? {
        DropStation(id);
      } else {
        command := ActOn(i, due, id);
      }
    }

    /** One dispatch tick; `asked` is its input with the due steps the journeys named. */
    method DispatchRandomAction(i: TickInput) returns (command: Option<Command>, asked: TickInput)
      requires Valid()
      modifies this, journeys, depotJourneys
      ensures asked == i.(depotDue := asked.depotDue, publicDue := asked.publicDue)
      ensures DueIsRight(old(State()), asked)
      ensures Outcome(State(), command) == Tick(old(State()), asked, localTimes)
      ensures Valid()
    {
      var due;
      due, asked := FindDue(i);
      TickKept(State(), asked, localTimes);
      command := Dispatch(asked, due);
    }

    // ----- the refresh -----

    static method KeepLive(ids: set<string>, live: seq<string>) returns (kept: set<string>)
      ensures kept == Kept(ids, live)
    {
      kept := ids;
      var rest := ids;
      while rest != {}
        invariant rest <= ids
        invariant kept == set id | id in ids && (id in rest || id in live)
        decreases |rest|
      {
        SomeString(rest);
        var id :| id in rest;
        if id !in live {
          kept := kept - {id};
        }
        rest := rest - {id};
      }
    }

    static method KeepLiveCards(cards: map<string, string>, live: seq<string>) returns (kept: map<string, string>)
      ensures kept == KeptEntries(cards, live)
    {
      kept := cards;
      var rest := cards.Keys;
      while rest != {}
        invariant rest <= cards.Keys
        invariant kept == map id | id in cards && (id in rest || id in live) :: cards[id]
        decreases |rest|
      {
        SomeString(rest);
        var id :| id in rest;
        if id !in live {
          kept := kept - {id};
        }
        rest := rest - {id};
      }
    }

    /** Every depot station is tracked, a new one from its next evening on. */
    method EnsureDepots(l: Loaded)
      requires JourneysValid() && depotJourneys.journeys.Keys <= depotStations.Keys
      modifies depotJourneys
      ensures depotJourneys.journeys == AllJourneys(old(depotJourneys.journeys), depotStations, l, localTimes)
      ensures JourneysValid()
    {
      var rest := depotStations.Keys;
      ghost var was := depotJourneys.journeys;
      NoneEnsured(was, depotStations, l, localTimes);
      while rest != {}
        invariant PartlyEnsured(was, depotJourneys.journeys, depotStations, rest, l, localTimes)
        invariant JourneysValid()
        decreases |rest|
      {
        SomeString(rest);
        var id :| id in rest;
        EnsureOne(was, depotJourneys.journeys, depotStations, rest, l, localTimes, id);
        depotJourneys.Ensure(id, depotStations[id].timeZone, l.now, l.draws(id));
        rest := rest - {id};
      }
      AllEnsured(was, depotJourneys.journeys, depotStations, l, localTimes);
    }

    /** The depot stations that are live, each with its journey. */
    method ApplyDepots(l: Loaded, live: set<string>)
      requires JourneysValid() && live == set id | id in l.stationIds
      modifies this`depotStations, depotJourneys
      ensures depotStations == LiveDepots(l)
      ensures depotJourneys.journeys == AllJourneys(old(depotJourneys.journeys), depotStations, l, localTimes)
      ensures JourneysValid()
    {
      ghost var was := depotJourneys.journeys;
      depotStations := map id | id in l.depotStations && id in live :: l.depotStations[id];
      assert depotStations == LiveDepots(l);
      depotJourneys.Retain(depotStations.Keys);
      SameEnsured(was, depotJourneys.journeys, depotStations, l, localTimes);
      EnsureDepots(l);
    }

    /** The caches are replaced by what was loaded, the markers of stations that are gone are dropped. */
    method ReplaceCaches(l: Loaded)
      requires JourneysValid()
      modifies this, journeys, depotJourneys
      ensures State() == Refresh(old(State()), l, localTimes)
      ensures JourneysValid()
    {
      var live := set id | id in l.stationIds;
      stationIds := l.stationIds;
      offlineStations := KeepLive(offlineStations, l.stationIds);
      chargingStations := KeepLive(chargingStations, l.stationIds);
      chargingTokenByStation := KeepLiveCards(chargingTokenByStation, l.stationIds);
      journeys.Retain(live);
      assert journeys.journeys == KeptEntries(old(journeys.journeys), l.stationIds);
      tokens := l.tokens;
      fleetTokens := l.fleetTokens;
      ApplyDepots(l, live);
    }

    method ApplyLoaded(l: Loaded)
      requires Valid()
      modifies this, journeys, depotJourneys
      ensures State() == Refresh(old(State()), l, localTimes)
      ensures Valid()
    {
      RefreshKept(State(), l, localTimes);
      ReplaceCaches(l);
    }
  }
}
