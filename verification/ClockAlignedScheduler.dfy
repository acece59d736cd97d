/** The scheduler object (packages/css/src/clock-aligned-scheduler.ts:17-87): one tick goes over all stations in place. */
module ClockAlignedSchedulerObject {
  import opened Basics
  import opened ClockAlignedModel

  class ClockAlignedScheduler {
    var stations: map<string, Station>

    constructor ()
      ensures stations == map[]
    {
      stations := map[];
    }

    method Register(stationId: string)
      modifies this
      ensures stations == old(stations)[stationId := REGISTERED]
    {
      stations := stations[stationId := REGISTERED];
    }

    method Unregister(stationId: string)
      modifies this
      ensures stations == old(stations) - {stationId}
    {
      stations := stations - {stationId};
    }

    /** Every station takes its tick, once; `fired` are the stations that send their values. */
    method TickAll(ticks: string -> Tick) returns (fired: set<string>)
      modifies this
      ensures stations == map id | id in old(stations) :: AfterTick(old(stations)[id], ticks(id)).0
      ensures fired == set id | id in old(stations) && AfterTick(old(stations)[id], ticks(id)).1
    {
      fired := {};
      var rest := stations.Keys;
      while rest != {}
        invariant rest <= old(stations).Keys && stations.Keys == old(stations).Keys
        invariant forall id :: id in rest ==> stations[id] == old(stations)[id]
        invariant forall id :: id in old(stations) && id !in rest ==> stations[id] == AfterTick(old(stations)[id], ticks(id)).0
        invariant fired == set id | id in old(stations) && id !in rest && AfterTick(old(stations)[id], ticks(id)).1
        decreases |rest|
      {
        SomeString(rest);
        var id :| id in rest;
        var (after, fires) := AfterTick(stations[id], ticks(id));
        stations := stations[id := after];
        if fires {
          fired := fired + {id};
        }
        rest := rest - {id};
      }
    }
  }
}
