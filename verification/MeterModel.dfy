/**
 The simulated energy meter (packages/css/src/meter-value-generator.ts:91-215): power,
 the register in whole Wh with its fraction, and the battery of the session. Amounts
 are reals: what is proved holds up to the rounding of the source's floating point.
 */
module MeterModel {
  import opened Basics
  import opened RandomDraw

  const DEFAULT_BATTERY_KWH := 60.0
  const MAX_BATTERY_KWH := 2000.0

  datatype Connector = Ac | Dc

  datatype Profile = Profile(connector: Connector, maxPowerW: real)

  datatype Meter = Meter(meterWh: int, fractionWh: real, powerW: real, soc: real, capacityKwh: real)

  const INITIAL := Meter(0, 0.0, 0.0, 20.0, DEFAULT_BATTERY_KWH)

  datatype Event =
    | Tick(idle: bool, limitW: Option<real>, draw: Random)
    | Reset(capacityKwh: Option<real>, startSocPercent: Option<real>, draw: Random)

  function Min(a: real, b: real): real {
    if a <= b then a else b
  }

  /** The share of its maximum a connector gives: a DC station tapers from 95 % at 80 % SoC down to 20 % at 100 %. */
  function PowerShare(connector: Connector, soc: real): real {
    match connector
    case Ac => 0.95
    case Dc => if soc < 80.0 then 0.95 else 0.95 - (soc - 80.0) / 20.0 * 0.75
  }

  function Variation(connector: Connector, draw: Random): real {
    match connector
    case Ac => 0.9 + draw * 0.1
    case Dc => 0.95 + draw * 0.1
  }

  /** A share of a share of the maximum: never negative, never above it. */
  function PartOf(max: real, share: real, variation: real): (power: real)
    ensures max >= 0.0 && 0.2 <= share <= 0.95 && 0.9 <= variation <= 1.05 ==> 0.0 <= power <= max
  {
    PartIsBounded(max, share, variation);
    max * share * variation
  }

  lemma Product(a: real, b: real)
    requires a >= 0.0 && b >= 0.0
    ensures a * b >= 0.0
  {
  }

  lemma PartIsBounded(max: real, share: real, variation: real)
    ensures max >= 0.0 && 0.2 <= share <= 0.95 && 0.9 <= variation <= 1.05 ==> 0.0 <= max * share * variation <= max
  {
    if max >= 0.0 && 0.2 <= share <= 0.95 && 0.9 <= variation <= 1.05 {
      var p := share * variation;
      Product(share, variation);
      Product(0.95 - share, variation);
      assert 0.0 <= p <= 1.0;
      Product(max, p);
      Product(max, 1.0 - p);
      assert max * share * variation == max * p;
    }
  }

  /** The power of a tick, before the battery is asked. */
  function OfferedW(profile: Profile, soc: real, limitW: Option<real>, draw: Random): real {
    var power := PartOf(profile.maxPowerW, PowerShare(profile.connector, soc), Variation(profile.connector, draw)).Floor as real;
    match limitW
    case Some(limit) => Min(power, limit)
    case None => power
  }

  /** Energy in Wh of one 10 s tick at this power. */
  function TickWh(powerW: real): real {
    powerW * 10.0 / 3600.0
  }

  /** A battery has a size. */
  predicate HasBattery(m: Meter) {
    m.capacityKwh > 0.0
  }

  /** The register takes the whole Wh, the fraction carries on; the battery fills. */
  function AddEnergy(m: Meter): Meter
    requires HasBattery(m)
  {
    var exact := TickWh(m.powerW);
    var total := m.fractionWh + exact;
    m.(meterWh := m.meterWh + total.Floor,
       fractionWh := total - total.Floor as real,
       soc := Min(100.0, m.soc + exact / (m.capacityKwh * 10.0)))
  }

  function TickPower(m: Meter, profile: Profile, e: Event): real
    requires e.Tick?
  {
    if e.idle || m.soc >= 100.0 then 0.0 else OfferedW(profile, m.soc, e.limitW, e.draw)
  }

  function After(m: Meter, profile: Profile, e: Event): Meter
    requires HasBattery(m)
  {
    match e
    case Tick(idle, _, _) =>
      var powered := m.(powerW := TickPower(m, profile, e));
      if idle then powered else AddEnergy(powered)
    case Reset(capacity, start, draw) =>
      m.(capacityKwh := if capacity.Some? && 0.0 < capacity.value <= MAX_BATTERY_KWH then capacity.value else DEFAULT_BATTERY_KWH,
         soc := if start.Some? && 0.0 <= start.value <= 100.0 then start.value else 15.0 + draw * 15.0,
         powerW := 0.0)
  }

  /** What its callers give a meter: a maximum that is not negative, and limits that are not. */
  predicate Fair(profile: Profile, e: Event) {
    profile.maxPowerW >= 0.0 && (e.Tick? && e.limitW.Some? ==> e.limitW.value >= 0.0)
  }

  // ----- one event -----

  lemma ShareAndVariation(connector: Connector, soc: real, draw: Random)
    requires 0.0 <= soc <= 100.0
    ensures 0.2 <= PowerShare(connector, soc) <= 0.95 && 0.9 <= Variation(connector, draw) <= 1.05
  {
  }

  /** Power is never negative, never above the connector's maximum or the limit, and zero on a full battery. */
  lemma PowerIsBounded(m: Meter, profile: Profile, e: Event)
    requires e.Tick? && Fair(profile, e) && 0.0 <= m.soc <= 100.0
    ensures 0.0 <= TickPower(m, profile, e) <= profile.maxPowerW
    ensures e.limitW.Some? ==> TickPower(m, profile, e) <= e.limitW.value
    ensures m.soc == 100.0 || e.idle ==> TickPower(m, profile, e) == 0.0
  {
    ShareAndVariation(profile.connector, m.soc, e.draw);
  }

  // ----- a whole life -----

  /** The meter after a list of events, with what the events were worth. */
  datatype Life = Life(meter: Meter, totalWh: real, sessionWh: real, startSoc: real)

  function Live(profile: Profile, events: seq<Event>): (life: Life)
    ensures HasBattery(life.meter)
    decreases |events|
  {
    if events == [] then Life(INITIAL, 0.0, 0.0, INITIAL.soc)
    else
      var before, e := Live(profile, events[..|events| - 1]), events[|events| - 1];
      var after := After(before.meter, profile, e);
      if e.Reset? then Life(after, before.totalWh, 0.0, after.soc)
      else
        var wh := TickWh(TickPower(before.meter, profile, e));
        Life(after, before.totalWh + wh, before.sessionWh + wh, before.startSoc)
  }

  predicate AllFair(profile: Profile, events: seq<Event>) {
    forall e :: e in events ==> Fair(profile, e)
  }

  /** What a life satisfies at every moment. */
  ghost predicate LifeInv(profile: Profile, life: Life) {
    var m := life.meter;
    && m.meterWh as real + m.fractionWh == life.totalWh
    && 0.0 <= m.fractionWh < 1.0
    && 0.0 <= m.powerW <= profile.maxPowerW
    && 0.0 <= life.startSoc <= 100.0 && life.sessionWh >= 0.0 && m.capacityKwh > 0.0
    && m.soc == Min(100.0, life.startSoc + life.sessionWh / (m.capacityKwh * 10.0))
    && life.sessionWh <= (100.0 - life.startSoc) * (m.capacityKwh * 10.0) + TickWh(profile.maxPowerW)
  }

  /** Filling up step by step is filling up at once. */
  lemma FillsUp(start: real, had: real, wh: real, unit: real)
    requires unit > 0.0 && had >= 0.0 && wh >= 0.0
    ensures Min(100.0, Min(100.0, start + had / unit) + wh / unit) == Min(100.0, start + (had + wh) / unit)
  {
    assert (had + wh) / unit == had / unit + wh / unit;
    assert wh / unit >= 0.0;
  }

  /** A battery that is not full has room left. */
  lemma RoomLeft(start: real, had: real, unit: real)
    requires unit > 0.0 && start + had / unit < 100.0
    ensures had <= (100.0 - start) * unit
  {
    var share := had / unit;
    assert had == share * unit;
    Product(100.0 - start - share, unit);
    assert (100.0 - start - share) * unit == (100.0 - start) * unit - share * unit;
  }

  /** A tick's energy: not negative, at most a full tick, and none into a full battery. */
  lemma TickEnergy(m: Meter, profile: Profile, e: Event)
    requires e.Tick? && Fair(profile, e) && 0.0 <= m.soc <= 100.0
    ensures 0.0 <= TickWh(TickPower(m, profile, e)) <= TickWh(profile.maxPowerW)
    ensures TickWh(TickPower(m, profile, e)) > 0.0 ==> m.soc < 100.0
  {
    PowerIsBounded(m, profile, e);
  }

  /** The register and its fraction take exactly the energy of the tick. */
  lemma RegisterTakes(m: Meter, profile: Profile, e: Event)
    requires HasBattery(m) && e.Tick? && Fair(profile, e) && 0.0 <= m.soc <= 100.0 && 0.0 <= m.fractionWh < 1.0
    ensures var after, wh := After(m, profile, e), TickWh(TickPower(m, profile, e));
            && after.meterWh as real + after.fractionWh == m.meterWh as real + m.fractionWh + wh
            && 0.0 <= after.fractionWh < 1.0 && after.meterWh >= m.meterWh
            && after.capacityKwh == m.capacityKwh && 0.0 <= after.powerW <= profile.maxPowerW
            && after.soc == Min(100.0, m.soc + wh / (m.capacityKwh * 10.0))
  {
    PowerIsBounded(m, profile, e);
    if e.idle {
      assert 0.0 / (m.capacityKwh * 10.0) == 0.0;
    }
  }

  lemma SessionTakes(start: real, had: real, wh: real, unit: real, full: real, soc: real)
    requires unit > 0.0 && had >= 0.0 && 0.0 <= wh <= full && soc == Min(100.0, start + had / unit)
    requires had <= (100.0 - start) * unit + full && (wh > 0.0 ==> soc < 100.0)
    ensures Min(100.0, soc + wh / unit) == Min(100.0, start + (had + wh) / unit)
    ensures had + wh <= (100.0 - start) * unit + full
  {
    FillsUp(start, had, wh, unit);
    if wh > 0.0 {
      RoomLeft(start, had, unit);
    }
  }

  lemma LifeGoesOn(profile: Profile, before: Life, after: Meter, wh: real)
    requires LifeInv(profile, before) && 0.0 <= wh <= TickWh(profile.maxPowerW) && (wh > 0.0 ==> before.meter.soc < 100.0)
    requires after.meterWh as real + after.fractionWh == before.meter.meterWh as real + before.meter.fractionWh + wh
    requires 0.0 <= after.fractionWh < 1.0 && 0.0 <= after.powerW <= profile.maxPowerW
    requires after.capacityKwh == before.meter.capacityKwh
    requires after.soc == Min(100.0, before.meter.soc + wh / (after.capacityKwh * 10.0))
    ensures LifeInv(profile, Life(after, before.totalWh + wh, before.sessionWh + wh, before.startSoc))
  {
    SessionTakes(before.startSoc, before.sessionWh, wh, after.capacityKwh * 10.0, TickWh(profile.maxPowerW), before.meter.soc);
  }

  lemma TickKeepsLife(profile: Profile, before: Life, e: Event)
    requires HasBattery(before.meter) && LifeInv(profile, before) && Fair(profile, e) && e.Tick?
    ensures var wh := TickWh(TickPower(before.meter, profile, e));
            LifeInv(profile, Life(After(before.meter, profile, e), before.totalWh + wh, before.sessionWh + wh, before.startSoc))
  {
    SocInRange(profile, before);
    TickEnergy(before.meter, profile, e);
    RegisterTakes(before.meter, profile, e);
    LifeGoesOn(profile, before, After(before.meter, profile, e), TickWh(TickPower(before.meter, profile, e)));
  }

  lemma ResetKeepsLife(profile: Profile, before: Life, e: Event)
    requires HasBattery(before.meter) && LifeInv(profile, before) && Fair(profile, e) && e.Reset?
    ensures var after := After(before.meter, profile, e);
            LifeInv(profile, Life(after, before.totalWh, 0.0, after.soc))
  {
    var after := After(before.meter, profile, e);
    assert 0.0 <= after.soc <= 100.0;
    assert 0.0 / (after.capacityKwh * 10.0) == 0.0;
    Product(100.0 - after.soc, after.capacityKwh * 10.0);
  }

  /**
   Energy is conserved over every run of ticks and resets: the register and its
   fraction are exactly the energy of all ticks, and the state of charge is the start
   plus the session's energy over the battery size.
   */
  lemma {:induction false} EnergyIsConserved(profile: Profile, events: seq<Event>)
    requires profile.maxPowerW >= 0.0 && AllFair(profile, events)
    ensures LifeInv(profile, Live(profile, events))
    decreases |events|
  {
    if events != [] {
      var init, e := events[..|events| - 1], events[|events| - 1];
      EnergyIsConserved(profile, init);
      assert e in events;
      if e.Tick? {
        TickKeepsLife(profile, Live(profile, init), e);
      } else {
        ResetKeepsLife(profile, Live(profile, init), e);
      }
    }
  }

  /** The register never goes back. */
  lemma {:induction false} RegisterNeverFalls(profile: Profile, events: seq<Event>, n: nat)
    requires profile.maxPowerW >= 0.0 && AllFair(profile, events) && n <= |events|
    ensures Live(profile, events[..n]).meter.meterWh <= Live(profile, events).meter.meterWh
    decreases |events|
  {
    if n == |events| {
      assert events[..n] == events;
    } else {
      var init, e := events[..|events| - 1], events[|events| - 1];
      RegisterNeverFalls(profile, init, n);
      assert init[..n] == events[..n];
      EnergyIsConserved(profile, init);
      assert e in events;
      if e.Tick? {
        SocInRange(profile, Live(profile, init));
        RegisterTakes(Live(profile, init).meter, profile, e);
      }
    }
  }

  lemma SocInRange(profile: Profile, life: Life)
    requires LifeInv(profile, life)
    ensures 0.0 <= life.meter.soc <= 100.0
  {
    assert life.sessionWh / (life.meter.capacityKwh * 10.0) >= 0.0;
  }
}
