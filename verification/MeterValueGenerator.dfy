/** The meter object (packages/css/src/meter-value-generator.ts:91-215), updated in place tick by tick. */
module MeterValueGeneratorObject {
  import opened Basics
  import opened MeterModel
  import opened RandomDraw

  class MeterValueGenerator {
    var meterWh: int
    var fractionWh: real
    var powerW: real
    var soc: real
    var capacityKwh: real
    const profile: Profile

    function State(): Meter
      reads this
    {
      Meter(meterWh, fractionWh, powerW, soc, capacityKwh)
    }

    constructor (profile: Profile)
      ensures State() == INITIAL && this.profile == profile
    {
      meterWh, fractionWh, powerW, soc, capacityKwh := 0, 0.0, 0.0, 20.0, DEFAULT_BATTERY_KWH;
      this.profile := profile;
    }

    method AddEnergy()
      requires HasBattery(State())
      modifies this`meterWh, this`fractionWh, this`soc
      ensures State() == MeterModel.AddEnergy(old(State()))
    {
      var exactWh := powerW * 10.0 / 3600.0;
      var total := fractionWh + exactWh;
      var deltaWh := total.Floor;
      fractionWh := total - deltaWh as real;
      meterWh := meterWh + deltaWh;
      soc := Min(100.0, soc + exactWh / (capacityKwh * 10.0));
    }

    /** One meter interval. */
    method TickOnce(idle: bool, powerLimitW: Option<real>, draw: Random)
      requires HasBattery(State())
      modifies this
      ensures State() == After(old(State()), profile, Tick(idle, powerLimitW, draw))
    {
      if idle {
        powerW := 0.0;
      } else if profile.connector == Dc {
        TickDc(powerLimitW, draw);
      } else {
        TickAc(powerLimitW, draw);
      }
    }

    /** A flat power. */
    method TickAc(powerLimitW: Option<real>, draw: Random)
      requires HasBattery(State()) && profile.connector == Ac
      modifies this
      ensures State() == After(old(State()), profile, Tick(false, powerLimitW, draw))
    {
      var power := PartOf(profile.maxPowerW, 0.95, 0.9 + draw * 0.1).Floor as real;
      if powerLimitW.Some? {
        power := Min(power, powerLimitW.value);
      }
      powerW := if soc >= 100.0 then 0.0 else power;
      AddEnergy();
    }

    /** Constant power to 80 % SoC, then a linear taper. */
    method TickDc(powerLimitW: Option<real>, draw: Random)
      requires HasBattery(State()) && profile.connector == Dc
      modifies this
      ensures State() == After(old(State()), profile, Tick(false, powerLimitW, draw))
    {
      var powerFraction := 0.95;
      if soc >= 80.0 {
        var taperProgress := (soc - 80.0) / 20.0;
        powerFraction := 0.95 - taperProgress * 0.75;
      }
      var power := PartOf(profile.maxPowerW, powerFraction, 0.95 + draw * 0.1).Floor as real;
      if powerLimitW.Some? {
        power := Min(power, powerLimitW.value);
      }
      powerW := if soc >= 100.0 then 0.0 else power;
      AddEnergy();
    }

    /** A new session's battery; the energy goes on. */
    method ResetSession(capacity: Option<real>, start: Option<real>, draw: Random)
      requires HasBattery(State())
      modifies this
      ensures State() == After(old(State()), profile, Reset(capacity, start, draw))
      ensures HasBattery(State()) && meterWh == old(meterWh) && fractionWh == old(fractionWh)
    {
      if capacity.Some? && capacity.value > 0.0 && capacity.value <= MAX_BATTERY_KWH {
        capacityKwh := capacity.value;
      } else {
        capacityKwh := DEFAULT_BATTERY_KWH;
      }
      if start.Some? && 0.0 <= start.value <= 100.0 {
        soc := start.value;
      } else {
        soc := 15.0 + draw * 15.0;
      }
      powerW := 0.0;
    }
  }
}
