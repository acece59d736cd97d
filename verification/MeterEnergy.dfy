/**
 What the meter's power means: the register is power times time, and the power is a
 share of the connector's maximum that no limit and no battery is needed to explain
 (packages/css/src/meter-value-generator.ts:108-215).
 */
module MeterEnergy {
  import opened Basics
  import opened RandomDraw
  import opened MeterModel

  const TICK_S := 10.0
  const HOUR_S := 3600.0

  /** The sum of the powers that the meter shows after its ticks. */
  function ShownPower(profile: Profile, events: seq<Event>): real
    decreases |events|
  {
    if events == [] then 0.0
    else
      ShownPower(profile, events[..|events| - 1])
      + if events[|events| - 1].Tick? then Live(profile, events).meter.powerW else 0.0
  }

  /** The same since the last reset. */
  function SessionPower(profile: Profile, events: seq<Event>): real
    decreases |events|
  {
    if events == [] || events[|events| - 1].Reset? then 0.0
    else SessionPower(profile, events[..|events| - 1]) + Live(profile, events).meter.powerW
  }

  /** Over every life a register counts in Wh what the shown powers give in ticks of 10 s. */
  lemma {:induction false} RegisterIsPowerTimesTime(profile: Profile, events: seq<Event>)
    requires profile.maxPowerW >= 0.0 && AllFair(profile, events)
    ensures var m := Live(profile, events).meter;
            HOUR_S * (m.meterWh as real + m.fractionWh) == TICK_S * ShownPower(profile, events)
    decreases |events|
  {
    if events != [] {
      var init, e := events[..|events| - 1], events[|events| - 1];
      var before := Live(profile, init);
      RegisterIsPowerTimesTime(profile, init);
      EnergyIsConserved(profile, init);
      SocInRange(profile, before);
      assert e in events;
      if e.Tick? {
        RegisterTakes(before.meter, profile, e);
        PowerIsShown(before.meter, profile, e);
      }
    }
  }

  /** The shown power is the one the tick's energy comes from. */
  lemma PowerIsShown(m: Meter, profile: Profile, e: Event)
    requires HasBattery(m) && e.Tick?
    ensures After(m, profile, e).powerW == TickPower(m, profile, e)
    ensures HOUR_S * TickWh(TickPower(m, profile, e)) == TICK_S * After(m, profile, e).powerW
  {
  }

  lemma {:induction false} SessionIsPowerTimesTime(profile: Profile, events: seq<Event>)
    ensures HOUR_S * Live(profile, events).sessionWh == TICK_S * SessionPower(profile, events)
    decreases |events|
  {
    if events != [] && events[|events| - 1].Tick? {
      var init := events[..|events| - 1];
      SessionIsPowerTimesTime(profile, init);
      PowerIsShown(Live(profile, init).meter, profile, events[|events| - 1]);
    }
  }

  /** A hundredth of the battery in Wh. */
  function PercentWh(m: Meter): real {
    m.capacityKwh * 1000.0 / 100.0
  }

  /**
   Over every life the state of charge is the start of the session and the percentage
   of the battery that the session's shown powers fill in ticks of 10 s, up to 100 %.
   */
  lemma ChargeIsPowerTimesTime(profile: Profile, events: seq<Event>)
    requires profile.maxPowerW >= 0.0 && AllFair(profile, events)
    ensures var life := Live(profile, events);
            HasBattery(life.meter) &&
            life.meter.soc
            == Min(100.0, life.startSoc + TICK_S * SessionPower(profile, events) / HOUR_S / PercentWh(life.meter))
  {
    EnergyIsConserved(profile, events);
    SessionIsPowerTimesTime(profile, events);
    var life := Live(profile, events);
    assert life.sessionWh == TICK_S * SessionPower(profile, events) / HOUR_S;
    assert PercentWh(life.meter) == life.meter.capacityKwh * 10.0;
  }

  // ----- the power of one tick -----

  /** The nominal share: flat on AC; on DC flat to 80 % SoC, then linear down to 0.2 at 100 %. */
  ghost predicate IsNominal(connector: Connector, soc: real, share: real) {
    if connector == Ac || soc < 80.0 then share == 0.95
    else (share - 0.2) * (100.0 - 80.0) == (0.95 - 0.2) * (100.0 - soc)
  }

  lemma NominalIsShare(connector: Connector, soc: real, share: real)
    requires IsNominal(connector, soc, share)
    ensures share == PowerShare(connector, soc)
  {
  }

  lemma Scale(max: real, share: real, low: real, variation: real, high: real)
    requires max >= 0.0 && share >= 0.0 && low <= variation <= high
    ensures low * (share * max) <= PartOf(max, share, variation) <= high * (share * max)
  {
    var p := share * max;
    Product(share, max);
    Product(p, variation - low);
    Product(p, high - variation);
    assert max * share * variation == p * variation;
    assert PartOf(max, share, variation) == max * share * variation;
    assert p * (variation - low) == p * variation - low * p;
    assert p * (high - variation) == high * p - p * variation;
  }

  /** How far a tick may be from the nominal share: at most 10 % below it on AC, 5 % around it on DC. */
  function Low(connector: Connector): real {
    if connector == Ac then 0.9 else 0.95
  }

  function High(connector: Connector): real {
    if connector == Ac then 1.0 else 1.05
  }

  lemma VariationBounds(connector: Connector, draw: Random)
    ensures Low(connector) <= Variation(connector, draw) <= High(connector)
  {
  }

  /** Into a battery that is not full a tick without a limit gives the nominal share, in whole watts. */
  lemma FreePower(m: Meter, profile: Profile, e: Event, share: real)
    requires e.Tick? && !e.idle && e.limitW.None? && 0.0 <= m.soc < 100.0 && profile.maxPowerW >= 0.0
    requires IsNominal(profile.connector, m.soc, share)
    ensures Low(profile.connector) * (share * profile.maxPowerW) - 1.0 < TickPower(m, profile, e)
            <= High(profile.connector) * (share * profile.maxPowerW)
  {
    var variation := Variation(profile.connector, e.draw);
    NominalIsShare(profile.connector, m.soc, share);
    ShareAndVariation(profile.connector, m.soc, e.draw);
    VariationBounds(profile.connector, e.draw);
    Scale(profile.maxPowerW, share, Low(profile.connector), variation, High(profile.connector));
    WholeWatts(m, profile, e, share, variation);
  }

  lemma WholeWatts(m: Meter, profile: Profile, e: Event, share: real, variation: real)
    requires e.Tick? && !e.idle && e.limitW.None? && 0.0 <= m.soc < 100.0
    requires share == PowerShare(profile.connector, m.soc) && variation == Variation(profile.connector, e.draw)
    ensures var exact := PartOf(profile.maxPowerW, share, variation); exact - 1.0 < TickPower(m, profile, e) <= exact
  {
    assert TickPower(m, profile, e) == PartOf(profile.maxPowerW, share, variation).Floor as real;
    Floored(PartOf(profile.maxPowerW, share, variation));
  }

  lemma Floored(x: real)
    ensures x - 1.0 < x.Floor as real <= x
  {
  }

  /** A limit takes the least of itself and what the tick gives without it. */
  lemma LimitedPower(m: Meter, profile: Profile, e: Event)
    requires e.Tick? && e.limitW.Some? && Fair(profile, e) && 0.0 <= m.soc <= 100.0
    ensures var limited, free := TickPower(m, profile, e), TickPower(m, profile, e.(limitW := None));
            limited <= e.limitW.value && limited <= free && (limited == e.limitW.value || limited == free)
  {
    PowerIsBounded(m, profile, e);
  }

  /** A session starts with the battery it was given when that is one, else with 60 kWh and 15 to 30 %. */
  lemma SessionStarts(m: Meter, profile: Profile, e: Event)
    requires HasBattery(m) && e.Reset?
    ensures var after := After(m, profile, e);
            && 0.0 < after.capacityKwh <= 2000.0 && 0.0 <= after.soc <= 100.0 && after.powerW == 0.0
            && (Some(after.capacityKwh) == e.capacityKwh || after.capacityKwh == 60.0)
            && (e.capacityKwh.Some? && 0.0 < e.capacityKwh.value <= 2000.0 ==> after.capacityKwh == e.capacityKwh.value)
            && (Some(after.soc) == e.startSocPercent || 15.0 <= after.soc < 30.0)
            && (e.startSocPercent.Some? && 0.0 <= e.startSocPercent.value <= 100.0 ==> after.soc == e.startSocPercent.value)
  {
  }
}
