/**
 Exactly when the composite schedule says the level of every instant: every input has
 a composite schedule, and that of a single profile is right in every window if and
 only if the profile is seamless.
 */
module CompositeExactness {
  import opened Basics
  import opened Sorting
  import opened CompositeModel
  import opened CompositeRefinement
  import opened CompositeTheorems

  // ----- every input has a composite schedule -----

  /** `periods` are the merged levels of the breakpoints from `now` to before `e`. */
  ghost predicate MergesTo(
    isPoint: int -> bool, level: int -> Level, now: int, periods: seq<CompositePeriod>, times: seq<int>, e: int)
  {
    && |periods| == |times| > 0
    && times[0] == now && times[|times| - 1] < e
    && Increasing(times)
    && (forall k :: 0 <= k < |times| ==>
          && isPoint(times[k])
          && periods[k].startPeriod == RoundSeconds(times[k] - now)
          && LevelOf(periods[k]) == level(times[k]))
    && NoRepeat(periods)
    && (forall b, k: nat :: b < e && isPoint(b) && InForceAt(times, k, b) ==> LevelOf(periods[k]) == level(b))
  }

  /** The instant `e` is no breakpoint, or has the level of the last period. */
  lemma NothingNew(
    isPoint: int -> bool, level: int -> Level, now: int, periods: seq<CompositePeriod>, times: seq<int>, e: int)
    requires MergesTo(isPoint, level, now, periods, times, e)
    requires isPoint(e) ==> level(e) == LevelOf(periods[|periods| - 1])
    ensures MergesTo(isPoint, level, now, periods, times, e + 1)
  {
    forall b, k: nat | b < e + 1 && isPoint(b) && InForceAt(times, k, b)
      ensures LevelOf(periods[k]) == level(b)
    {
      LastInForce(times, k, b);
    }
  }

  lemma LastInForce(times: seq<int>, k: nat, b: int)
    requires times != [] && Increasing(times) && InForceAt(times, k, b)
    ensures times[|times| - 1] < b ==> k == |times| - 1
  {
  }

  lemma Extended(times: seq<int>, e: int, k: nat, b: int)
    requires times != [] && Increasing(times) && times[|times| - 1] < e
    requires InForceAt(times + [e], k, b)
    ensures b < e ==> InForceAt(times, k, b)
    ensures b == e ==> k == |times|
  {
    var more := times + [e];
    if k < |times| {
      assert more[k] == times[k];
      if k + 1 < |times| {
        assert more[k + 1] == times[k + 1];
      }
    }
  }

  /** The instant `e` is a breakpoint with another level. */
  lemma NewPeriod(
    isPoint: int -> bool, level: int -> Level, now: int, periods: seq<CompositePeriod>, times: seq<int>, e: int,
    period: CompositePeriod)
    requires MergesTo(isPoint, level, now, periods, times, e)
    requires isPoint(e) && level(e) != LevelOf(periods[|periods| - 1])
    requires LevelOf(period) == level(e) && period.startPeriod == RoundSeconds(e - now)
    ensures MergesTo(isPoint, level, now, periods + [period], times + [e], e + 1)
  {
    forall b, k: nat | b < e + 1 && isPoint(b) && InForceAt(times + [e], k, b)
      ensures LevelOf((periods + [period])[k]) == level(b)
    {
      Extended(times, e, k, b);
    }
  }

  lemma {:induction false} MergeExists(isPoint: int -> bool, level: int -> Level, now: int, e: int)
    returns (periods: seq<CompositePeriod>, times: seq<int>)
    requires e > now && isPoint(now) && forall b :: isPoint(b) ==> now <= b
    ensures MergesTo(isPoint, level, now, periods, times, e)
    decreases e - now
  {
    if e == now + 1 {
      periods, times := [CompositePeriod(RoundSeconds(0), level(now).limit, level(now).numberPhases)], [now];
    } else {
      periods, times := MergeExists(isPoint, level, now, e - 1);
      var here := level(e - 1);
      if isPoint(e - 1) && here != LevelOf(periods[|periods| - 1]) {
        var period := CompositePeriod(RoundSeconds(e - 1 - now), here.limit, here.numberPhases);
        NewPeriod(isPoint, level, now, periods, times, e - 1, period);
        periods, times := periods + [period], times + [e - 1];
      } else {
        NothingNew(isPoint, level, now, periods, times, e - 1);
      }
    }
  }

  /** Every input has a composite schedule. */
  lemma CompositeExists(input: CompositeInput) returns (periods: seq<CompositePeriod>, times: seq<int>)
    ensures IsComposite(input, periods, times)
  {
    var e := if input.End() > input.now then input.End() else input.now + 1;
    var isPoint := (b: int) => IsPoint(Relevant(input.profiles, input), input, b);
    var level := (t: int) => LevelAt(input, t);
    periods, times := MergeExists(isPoint, level, input.now, e);
    MergeIsComposite(input, isPoint, level, periods, times, e);
  }

  lemma MergeIsComposite(
    input: CompositeInput, isPoint: int -> bool, level: int -> Level,
    periods: seq<CompositePeriod>, times: seq<int>, e: int)
    requires e > input.now && e >= input.End() && MergesTo(isPoint, level, input.now, periods, times, e)
    requires forall b :: isPoint(b) == IsPoint(Relevant(input.profiles, input), input, b)
    requires forall t :: level(t) == LevelAt(input, t)
    ensures IsComposite(input, periods, times)
  {
    forall b, k: nat | IsPoint(Relevant(input.profiles, input), input, b) && InForceAt(times, k, b)
      ensures LevelOf(periods[k]) == LevelAt(input, b)
    {
      assert isPoint(b) && b < e;
      assert LevelOf(periods[k]) == level(b);
    }
    forall k | 0 <= k < |times|
      ensures IsPoint(Relevant(input.profiles, input), input, times[k]) && LevelOf(periods[k]) == LevelAt(input, times[k])
    {
      assert isPoint(times[k]) && LevelOf(periods[k]) == level(times[k]);
    }
  }

  // ----- one profile on its own -----

  /** The question about one profile alone, without a local limit. */
  function Alone(p: Profile, input: CompositeInput, now: int, durationS: int): CompositeInput {
    input.(profiles := [p], localLimit := Unlimited, now := now, durationS := durationS)
  }

  lemma GroupAlone(p: Profile, input: CompositeInput, purpose: Purpose)
    requires input.profiles == [p] && AppliesTo(p, input)
    ensures Group(input, purpose) == if p.purpose == purpose then [p] else []
  {
    assert [p][1..] == [];
    assert Relevant([p], input) == [p];
    assert OfPurpose([p], purpose) == if p.purpose == purpose then [p] else [];
  }

  lemma PurposeAlone(p: Profile, input: CompositeInput, t: int)
    ensures PurposeAt([p], input, t) == ActiveAt(p, input, t)
    ensures PurposeAt([], input, t) == None
  {
    if IsActive(p, input, t) {
      assert Wins([p], 1, input, t, 0);
    }
  }

  /** A profile of a purpose that counts limits its lone composite exactly while it is active. */
  lemma LevelAlone(p: Profile, input: CompositeInput, t: int)
    requires input.profiles == [p] && AppliesTo(p, input) && p.purpose != OtherPurpose && input.localLimit == Unlimited
    ensures LevelAt(input, t).limit ==
            match ActiveAt(p, input, t)
            case Some(period) => Finite(period.limit)
            case None => Unlimited
  {
    GroupAlone(p, input, StationMax);
    GroupAlone(p, input, ExternalConstraints);
    GroupAlone(p, input, Tx);
    GroupAlone(p, input, TxDefault);
    PurposeAlone(p, input, t);
  }

  ghost predicate StartsNotNegative(p: Profile) {
    ScheduleOf(p).Some? ==>
      forall i :: 0 <= i < |ScheduleOf(p).value.periods| ==> ScheduleOf(p).value.periods[i].startPeriod >= 0
  }

  /** A start that is crossed and does harm ends a limit. */
  lemma HarmfulStart(p: Profile, input: CompositeInput)
    requires Anchored(p, input) && StartsNotNegative(p) && !Seamless(p, input)
    ensures var b := OpenStart(p, input);
            ActiveAt(p, WindowBefore(input, b), b - 1).Some? && ActiveAt(p, WindowBefore(input, b), b) == None
  {
    AroundStart(p, input);
    var schedule := ScheduleOf(p).value;
    assert forall i :: 0 <= i < |schedule.periods| && schedule.periods[i].startPeriod == 0 ==> ListsOffset(schedule, 0);
    NoneStarted(schedule.periods);
  }

  /** The first period lasts past an instant that is no breakpoint, a millisecond after the start. */
  lemma FirstLasts(input: CompositeInput, periods: seq<CompositePeriod>, times: seq<int>, t: int)
    requires IsComposite(input, periods, times) && t == input.now + 1
    requires !IsPoint(Relevant(input.profiles, input), input, t)
    ensures InForceAt(times, 0, t - 1) && InForceAt(times, 0, t)
  {
    CompositeShape(input, periods, times);
    if |times| > 1 {
      PointOfPeriod(input, periods, times, 1);
      SecondStartIsLater(input, times, t);
    }
  }

  lemma SecondStartIsLater(input: CompositeInput, times: seq<int>, t: int)
    requires |times| > 1 && times[0] == input.now && Increasing(times) && t == input.now + 1
    requires IsPoint(Relevant(input.profiles, input), input, times[1])
    requires !IsPoint(Relevant(input.profiles, input), input, t)
    ensures t < times[1]
  {
  }

  /** The window before a harmful start: its composite is wrong on the start. */
  lemma HarmIsEmitted(p: Profile, input: CompositeInput, periods: seq<CompositePeriod>, times: seq<int>)
    requires Anchored(p, input) && AppliesTo(p, input) && p.purpose != OtherPurpose
    requires StartsNotNegative(p) && !Seamless(p, input)
    requires IsComposite(Alone(p, input, OpenStart(p, input) - 1, 1), periods, times)
    ensures !Denotes(Alone(p, input, OpenStart(p, input) - 1, 1), periods, times)
  {
    var b := OpenStart(p, input);
    var lone := Alone(p, input, b - 1, 1);
    BoundaryUnseen(p, input);
    HarmfulStart(p, input);
    SameProfile(p, WindowBefore(input, b), lone, b - 1);
    SameProfile(p, WindowBefore(input, b), lone, b);
    assert !Candidate(p, lone, b);
    assert !IsPoint(Relevant(lone.profiles, lone), lone, b);
    FirstLasts(lone, periods, times, b);
    LevelAlone(p, lone, b - 1);
    LevelAlone(p, lone, b);
  }

  /** What a profile says does not depend on the other profiles or the local limit. */
  lemma SameProfile(p: Profile, input: CompositeInput, other: CompositeInput, t: int)
    requires other == input.(profiles := other.profiles, localLimit := other.localLimit)
    ensures ActiveAt(p, input, t) == ActiveAt(p, other, t)
    ensures Candidate(p, input, t) == Candidate(p, other, t)
    ensures Seamless(p, input) == Seamless(p, other)
  {
    SameStarts(p, input, other);
    if ScheduleOf(p).Some? {
      var schedule := ScheduleOf(p).value;
      SameInForce(schedule, input, other, t - ScheduleStartAt(p, input, t));
      SameInForce(schedule, input, other, 0);
      SameInForce(schedule, input, other, RecurrencyMs(p) - 1);
    }
  }

  lemma SameStarts(p: Profile, input: CompositeInput, other: CompositeInput)
    requires other == input.(profiles := other.profiles, localLimit := other.localLimit)
    ensures forall s :: IsStart(p, input, s) == IsStart(p, other, s)
    ensures CrossesStart(p, input) == CrossesStart(p, other)
  {
  }

  lemma SameInForce(schedule: Schedule, input: CompositeInput, other: CompositeInput, o: int)
    requires other == input.(profiles := other.profiles, localLimit := other.localLimit)
    ensures InForce(schedule, input, o) == InForce(schedule, other, o)
  {
    forall period: SchedulePeriod
      ensures Converted(period, schedule, input) == Converted(period, schedule, other)
    {
      var phases := period.numberPhases.GetOr(input.numberPhases);
      assert Factor(phases, input) == Factor(phases, other);
    }
  }

  /** The composite of the profile alone is right in every window. */
  ghost predicate AlwaysRightAlone(p: Profile, input: CompositeInput) {
    forall now, durationS, periods, times :: IsComposite(Alone(p, input, now, durationS), periods, times) ==>
      Denotes(Alone(p, input, now, durationS), periods, times)
  }

  /**
   The code meets its specification exactly on seamless profiles: with anchored,
   non-negative starts, the composite of the profile alone says the level of every
   instant of every window if and only if the profile is seamless.
   */
  lemma OutputIsExact(p: Profile, input: CompositeInput)
    requires Anchored(p, input) && AppliesTo(p, input) && p.purpose != OtherPurpose && StartsNotNegative(p)
    ensures AlwaysRightAlone(p, input) <==> Seamless(p, input)
  {
    if Seamless(p, input) {
      forall now, durationS, periods, times | IsComposite(Alone(p, input, now, durationS), periods, times)
        ensures Denotes(Alone(p, input, now, durationS), periods, times)
      {
        var lone := Alone(p, input, now, durationS);
        SeamlessIgnoresWindow(p, input, now, durationS);
        SameProfile(p, input.(now := now, durationS := durationS), lone, now);
        assert AllSeamless(lone);
        CompositeRefines(lone, periods, times);
      }
    } else {
      var lone := Alone(p, input, OpenStart(p, input) - 1, 1);
      var periods, times := CompositeExists(lone);
      HarmIsEmitted(p, input, periods, times);
    }
  }
}
