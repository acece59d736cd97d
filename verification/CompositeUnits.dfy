/**
 Amperes and watts: what the conversion keeps, and why the composite in amperes
 of a set of watt profiles is the rounding of the composite in watts.
 */
module CompositeUnits {
  import opened Basics
  import opened CompositeModel
  import opened CompositeRefinement

  // ----- one limit -----

  lemma RoundMonotone(x: real, y: real)
    requires x <= y
    ensures Round(x) <= Round(y)
  {
  }

  lemma RoundInteger(n: int)
    ensures Round(n as real) == n
  {
  }

  lemma RoundClose(x: real)
    ensures Round(x) as real - 0.5 <= x < Round(x) as real + 0.5
  {
  }

  lemma DivisionMonotone(x: real, y: real, factor: real)
    requires factor > 0.0 && x <= y
    ensures x / factor <= y / factor
  {
    var a, b := x / factor, y / factor;
    assert a * factor == x && b * factor == y;
    if a > b {
      ProductMonotone(b, a, factor);
    }
  }

  lemma ProductMonotone(x: real, y: real, factor: real)
    requires factor > 0.0 && x < y
    ensures x * factor < y * factor
  {
    assert (y - x) * factor > 0.0;
  }

  /** The inputs that ask the same question in amperes and in watts. */
  function Amps(input: CompositeInput): CompositeInput {
    input.(unit := A)
  }

  function Watts(input: CompositeInput): CompositeInput {
    input.(unit := W)
  }

  lemma SameFactor(phases: int, input: CompositeInput)
    ensures Factor(phases, Amps(input)) == Factor(phases, input) == Factor(phases, Watts(input))
  {
  }

  /** Watts to amperes, to one decimal. */
  function ToAmps(watts: real, factor: real): real
    requires factor > 0.0
  {
    Round(watts / factor * 10.0) as real / 10.0
  }

  lemma ToAmpsMonotone(x: real, y: real, factor: real)
    requires factor > 0.0 && x <= y
    ensures ToAmps(x, factor) <= ToAmps(y, factor)
  {
    DivisionMonotone(x, y, factor);
    RoundMonotone(x / factor * 10.0, y / factor * 10.0);
  }

  /** An ampere limit with one decimal survives the trip through watts. */
  lemma AmpsRoundTrip(tenths: int, phases: int, input: CompositeInput)
    ensures var amps := tenths as real / 10.0;
            InUnit(InUnit(amps, Some(A), phases, Watts(input)), Some(W), phases, Amps(input)) == amps
  {
    SameFactor(phases, input);
    var amps := tenths as real / 10.0;
    var factor := Factor(phases, input);
    var back := InUnit(amps, Some(A), phases, Watts(input));
    assert back == amps * factor;
    assert back / factor * 10.0 == tenths as real;
    RoundInteger(tenths);
  }

  /** A watt limit comes back from amperes within a twentieth of the factor. */
  lemma WattsRoundTrip(watts: real, phases: int, input: CompositeInput)
    ensures var back := InUnit(InUnit(watts, Some(W), phases, Amps(input)), Some(A), phases, Watts(input));
            var factor := Factor(phases, input);
            -factor / 20.0 <= back - watts <= factor / 20.0
  {
    SameFactor(phases, input);
    var factor := Factor(phases, input);
    var exact := watts / factor;
    var amps := ToAmps(watts, factor);
    RoundClose(exact * 10.0);
    assert -0.05 <= amps - exact <= 0.05;
    assert exact * factor == watts;
    ScaledBound(amps - exact, factor);
    assert (amps - exact) * factor == amps * factor - exact * factor;
  }

  lemma ScaledBound(error: real, factor: real)
    requires factor > 0.0 && -0.05 <= error <= 0.05
    ensures -factor / 20.0 <= error * factor <= factor / 20.0
  {
    assert (0.05 - error) * factor >= 0.0;
    assert (error + 0.05) * factor >= 0.0;
  }

  // ----- the composite -----

  /** Every applicable profile is in watts and its periods use `phases` phases. */
  ghost predicate AllInWatts(input: CompositeInput, phases: int) {
    forall p :: p in input.profiles && AppliesTo(p, input) && ScheduleOf(p).Some? ==>
      && ScheduleOf(p).value.rateUnit == Some(W)
      && forall i :: 0 <= i < |ScheduleOf(p).value.periods| ==>
           ScheduleOf(p).value.periods[i].numberPhases.GetOr(input.numberPhases) == phases
  }

  function PeriodToAmps(period: Option<SchedulePeriod>, factor: real): Option<SchedulePeriod>
    requires factor > 0.0
  {
    match period
    case None => None
    case Some(p) => Some(p.(limit := ToAmps(p.limit, factor)))
  }

  function LimitToAmps(limit: Limit, factor: real): Limit
    requires factor > 0.0
  {
    match limit
    case Unlimited => Unlimited
    case Finite(watts) => Finite(ToAmps(watts, factor))
  }

  lemma {:induction false} LastStartedListed(periods: seq<SchedulePeriod>, offsetMs: int)
    ensures LastStarted(periods, offsetMs).Some? ==> LastStarted(periods, offsetMs).value in periods
  {
    if periods != [] {
      LastStartedListed(periods[..|periods| - 1], offsetMs);
    }
  }

  lemma ActiveInAmps(p: Profile, input: CompositeInput, phases: int, t: int)
    requires AllInWatts(input, phases) && p in input.profiles && AppliesTo(p, input)
    ensures ActiveAt(p, Amps(input), t) == PeriodToAmps(ActiveAt(p, Watts(input), t), Factor(phases, input))
  {
    SameFactor(phases, input);
    if ScheduleOf(p).Some? {
      LastStartedListed(ScheduleOf(p).value.periods, t - ScheduleStartAt(p, input, t));
      assert ScheduleStartAt(p, input, t) == ScheduleStartAt(p, Amps(input), t) == ScheduleStartAt(p, Watts(input), t);
    }
  }

  lemma PurposeInAmps(group: seq<Profile>, input: CompositeInput, phases: int, t: int)
    requires AllInWatts(input, phases)
    requires forall p :: p in group ==> p in input.profiles && AppliesTo(p, input)
    ensures PurposeAt(group, Amps(input), t) == PeriodToAmps(PurposeAt(group, Watts(input), t), Factor(phases, input))
  {
    forall i | 0 <= i < |group|
      ensures ActiveAt(group[i], Amps(input), t) == PeriodToAmps(ActiveAt(group[i], Watts(input), t), Factor(phases, input))
    {
      ActiveInAmps(group[i], input, phases, t);
    }
    SameWinners(group, input, t);
    if i: nat :| Wins(group, |group|, Watts(input), t, i) {
      PurposeIsWinner(group, Watts(input), t, i);
      PurposeIsWinner(group, Amps(input), t, i);
    }
  }

  lemma SameWinners(group: seq<Profile>, input: CompositeInput, t: int)
    requires forall i :: 0 <= i < |group| ==> IsActive(group[i], Amps(input), t) == IsActive(group[i], Watts(input), t)
    ensures forall i: nat :: Wins(group, |group|, Amps(input), t, i) == Wins(group, |group|, Watts(input), t, i)
  {
  }

  /** Monotone rounding commutes with taking the lower limit. */
  lemma CapInAmps(limit: Limit, period: Option<SchedulePeriod>, factor: real)
    requires factor > 0.0
    ensures Cap(LimitToAmps(limit, factor), PeriodToAmps(period, factor)) == LimitToAmps(Cap(limit, period), factor)
  {
    if period.Some? && limit.Finite? {
      if period.value.limit < limit.amount {
        ToAmpsMonotone(period.value.limit, limit.amount, factor);
      } else {
        ToAmpsMonotone(limit.amount, period.value.limit, factor);
      }
    }
  }

  lemma {:induction false} RelevantInAmps(profiles: seq<Profile>, input: CompositeInput)
    ensures Relevant(profiles, Amps(input)) == Relevant(profiles, Watts(input)) == Relevant(profiles, input)
  {
    if profiles != [] {
      RelevantInAmps(profiles[1..], input);
    }
  }

  /**
   For watt profiles of uniform phases the level in amperes is, at every
   instant, the rounding of the level in watts.
   */
  lemma LevelInAmps(input: CompositeInput, phases: int, t: int)
    requires AllInWatts(input, phases)
    ensures var factor := Factor(phases, input);
            var watts := LevelAt(Watts(input), t);
            LevelAt(Amps(input).(localLimit := LimitToAmps(input.localLimit, factor)), t)
            == Level(LimitToAmps(watts.limit, factor), watts.numberPhases)
  {
    var factor := Factor(phases, input);
    var amps := Amps(input).(localLimit := LimitToAmps(input.localLimit, factor));
    RelevantInAmps(input.profiles, input);
    LocalLimitIgnored(input.profiles, Amps(input), amps.localLimit);
    forall purpose
      ensures PurposeAt(Group(amps, purpose), amps, t) == PeriodToAmps(PurposeAt(Group(Watts(input), purpose), Watts(input), t), factor)
    {
      var group := Group(input, purpose);
      PurposeInAmps(group, input, phases, t);
      forall p
        ensures ActiveAt(p, Amps(input), t) == ActiveAt(p, amps, t)
      {
        ActiveIgnoresLocalLimit(p, Amps(input), amps.localLimit, t);
      }
      PurposeCongruent(group, Amps(input), t, amps, t);
    }
    var station := PurposeAt(Group(Watts(input), StationMax), Watts(input), t);
    var external := PurposeAt(Group(Watts(input), ExternalConstraints), Watts(input), t);
    CapInAmps(input.localLimit, station, factor);
    CapInAmps(Cap(input.localLimit, station), external, factor);
    CapInAmps(Cap(Cap(input.localLimit, station), external), TransactionAt(Watts(input), t), factor);
  }

  lemma {:induction false} LocalLimitIgnored(profiles: seq<Profile>, input: CompositeInput, limit: Limit)
    ensures Relevant(profiles, input.(localLimit := limit)) == Relevant(profiles, input)
  {
    if profiles != [] {
      LocalLimitIgnored(profiles[1..], input, limit);
    }
  }

  lemma ActiveIgnoresLocalLimit(p: Profile, input: CompositeInput, limit: Limit, t: int)
    ensures ActiveAt(p, input, t) == ActiveAt(p, input.(localLimit := limit), t)
  {
    var other := input.(localLimit := limit);
    forall period: SchedulePeriod, s: Schedule
      ensures Converted(period, s, input) == Converted(period, s, other)
    {
      var phases := period.numberPhases.GetOr(input.numberPhases);
      assert Factor(phases, input) == Factor(phases, other);
    }
  }

  // ----- the emitted composites -----

  /** The question in amperes that goes with a question in watts. */
  function InAmps(input: CompositeInput, phases: int): CompositeInput {
    Amps(input).(localLimit := LimitToAmps(input.localLimit, Factor(phases, input)))
  }

  lemma InForceInAmps(p: Profile, input: CompositeInput, phases: int, o: int)
    requires AllInWatts(input, phases) && p in input.profiles && AppliesTo(p, input) && ScheduleOf(p).Some?
    ensures InForce(ScheduleOf(p).value, InAmps(input, phases), o)
            == PeriodToAmps(InForce(ScheduleOf(p).value, Watts(input), o), Factor(phases, input))
  {
    var amps := InAmps(input, phases);
    SameFactor(phases, input);
    assert Factor(phases, amps) == Factor(phases, input);
    LastStartedListed(ScheduleOf(p).value.periods, o);
  }

  /** A boundary that is harmless in watts is harmless in amperes. */
  lemma SeamlessInAmps(input: CompositeInput, phases: int)
    requires AllInWatts(input, phases) && AllSeamless(Watts(input))
    ensures AllSeamless(InAmps(input, phases))
  {
    var amps := InAmps(input, phases);
    forall p | p in amps.profiles && AppliesTo(p, amps)
      ensures Seamless(p, amps)
    {
      assert AppliesTo(p, input) && AppliesTo(p, Watts(input)) && Seamless(p, Watts(input));
      assert CrossesStart(p, amps) == CrossesStart(p, Watts(input));
      if ScheduleOf(p).Some? {
        InForceInAmps(p, input, phases, 0);
        InForceInAmps(p, input, phases, RecurrencyMs(p) - 1);
      }
    }
  }

  /** The two emitted schedules: at every instant the one in amperes is the rounding of the one in watts. */
  ghost predicate RoundsTo(
    watts: seq<CompositePeriod>, wattTimes: seq<int>, amps: seq<CompositePeriod>, ampTimes: seq<int>, end: int, factor: real)
    requires factor > 0.0
  {
    && |watts| == |wattTimes| && |amps| == |ampTimes|
    && forall k: nat, j: nat, t: int :: InForceAt(wattTimes, k, t) && InForceAt(ampTimes, j, t) && t < end ==>
         LevelOf(amps[j]) == Level(LimitToAmps(LevelOf(watts[k]).limit, factor), LevelOf(watts[k]).numberPhases)
  }

  /**
   The composite emitted in amperes is, at every instant of the window, the rounding of
   the composite emitted in watts.
   */
  lemma CompositeInAmps(input: CompositeInput, phases: int, watts: seq<CompositePeriod>, wattTimes: seq<int>,
                        amps: seq<CompositePeriod>, ampTimes: seq<int>)
    requires AllInWatts(input, phases) && AllSeamless(Watts(input))
    requires IsComposite(Watts(input), watts, wattTimes) && IsComposite(InAmps(input, phases), amps, ampTimes)
    ensures RoundsTo(watts, wattTimes, amps, ampTimes, input.End(), Factor(phases, input))
  {
    SeamlessInAmps(input, phases);
    CompositeRefines(Watts(input), watts, wattTimes);
    CompositeRefines(InAmps(input, phases), amps, ampTimes);
    DenotedInAmps(input, phases, watts, wattTimes, amps, ampTimes);
  }

  lemma DenotedInAmps(input: CompositeInput, phases: int, watts: seq<CompositePeriod>, wattTimes: seq<int>,
                      amps: seq<CompositePeriod>, ampTimes: seq<int>)
    requires AllInWatts(input, phases)
    requires Denotes(Watts(input), watts, wattTimes) && Denotes(InAmps(input, phases), amps, ampTimes)
    ensures RoundsTo(watts, wattTimes, amps, ampTimes, input.End(), Factor(phases, input))
  {
    var factor := Factor(phases, input);
    forall k: nat, j: nat, t: int | InForceAt(wattTimes, k, t) && InForceAt(ampTimes, j, t) && t < input.End()
      ensures LevelOf(amps[j]) == Level(LimitToAmps(LevelOf(watts[k]).limit, factor), LevelOf(watts[k]).numberPhases)
    {
      LevelInAmps(input, phases, t);
      assert LevelOf(watts[k]) == LevelAt(Watts(input), t);
      assert LevelOf(amps[j]) == LevelAt(InAmps(input, phases), t);
    }
  }
}
