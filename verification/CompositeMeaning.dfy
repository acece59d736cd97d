/**
 What a composite says in terms of the stored profiles: which profiles matter, when a
 profile says what, and how that bounds the limit
 (packages/css/src/composite-schedule.ts:71-166, 195-223).
 */
module CompositeMeaning {
  import opened Basics
  import opened CompositeModel
  import opened CompositeRefinement
  import opened CompositeProgram
  import opened CompositeTheorems

  // ----- which profiles matter -----

  /** The profile is set for another EVSE; asked for EVSE 0, every EVSE is another one. */
  predicate IsElsewhere(p: Profile, input: CompositeInput) {
    p.evseId.Some? && p.evseId.value != 0 && p.evseId.value != input.evseId
  }

  /** A TxProfile of another transaction, or of one while none runs. EVSE 0 has no transaction and is asked for none. */
  predicate IsOfOtherTransaction(p: Profile, input: CompositeInput) {
    && p.purpose == Tx && input.evseId != 0
    && (input.transactionId.None? || (p.transactionId.Some? && p.transactionId.value != input.transactionId.value))
  }

  predicate Matters(p: Profile, input: CompositeInput) {
    !p.invalidated && !IsElsewhere(p, input) && !IsOfOtherTransaction(p, input)
  }

  /** The list without the profiles that are invalidated, elsewhere or of another transaction. */
  function Mattering(profiles: seq<Profile>, input: CompositeInput): (r: seq<Profile>)
    ensures forall p :: p in r <==> p in profiles && Matters(p, input)
  {
    if profiles == [] then []
    else (if Matters(profiles[0], input) then [profiles[0]] else []) + Mattering(profiles[1..], input)
  }

  lemma AppliesExactly(p: Profile, input: CompositeInput)
    ensures AppliesTo(p, input) <==> Matters(p, input)
  {
  }

  lemma {:induction false} RelevantIsMattering(profiles: seq<Profile>, input: CompositeInput)
    ensures Relevant(profiles, input) == Mattering(profiles, input)
  {
    if profiles != [] {
      AppliesExactly(profiles[0], input);
      RelevantIsMattering(profiles[1..], input);
    }
  }

  lemma {:induction false} SameMattering(profiles: seq<Profile>, input: CompositeInput, others: seq<Profile>)
    ensures Mattering(profiles, input.(profiles := others)) == Mattering(profiles, input)
  {
    if profiles != [] {
      SameMattering(profiles[1..], input, others);
    }
  }

  lemma {:induction false} MatteringTwice(profiles: seq<Profile>, input: CompositeInput)
    ensures Mattering(Mattering(profiles, input), input) == Mattering(profiles, input)
  {
    if profiles != [] {
      var rest := Mattering(profiles[1..], input);
      MatteringTwice(profiles[1..], input);
      if Matters(profiles[0], input) {
        assert ([profiles[0]] + rest)[1..] == rest;
      } else {
        assert Mattering(profiles, input) == rest;
      }
    }
  }

  /** The same profiles matter in both inputs. */
  lemma SameRelevant(input: CompositeInput, profiles: seq<Profile>)
    requires Mattering(profiles, input) == Mattering(input.profiles, input)
    ensures var other := input.(profiles := profiles);
            && Relevant(profiles, other) == Relevant(input.profiles, input)
            && forall purpose :: Group(other, purpose) == Group(input, purpose)
  {
    var other := input.(profiles := profiles);
    RelevantIsMattering(profiles, other);
    RelevantIsMattering(input.profiles, input);
    SameMattering(profiles, input, profiles);
  }

  lemma SameLevel(input: CompositeInput, profiles: seq<Profile>, t: int)
    requires Mattering(profiles, input) == Mattering(input.profiles, input)
    ensures LevelAt(input.(profiles := profiles), t) == LevelAt(input, t)
  {
    var other := input.(profiles := profiles);
    SameRelevant(input, profiles);
    forall p: Profile
      ensures ActiveAt(p, input, t) == ActiveAt(p, other, t)
    {
      ActiveIgnoresProfiles(p, input, profiles, t);
    }
    LevelCongruent(input, t, other, t);
  }

  lemma SamePoints(input: CompositeInput, profiles: seq<Profile>, b: int)
    requires Mattering(profiles, input) == Mattering(input.profiles, input)
    ensures var other := input.(profiles := profiles);
            IsPoint(Relevant(profiles, other), other, b) <==> IsPoint(Relevant(input.profiles, input), input, b)
  {
    var other := input.(profiles := profiles);
    SameRelevant(input, profiles);
    assert other.(profiles := input.profiles) == input;
    forall p: Profile
      ensures Candidate(p, input, b) <==> Candidate(p, other, b)
    {
      if Candidate(p, input, b) {
        CandidateIgnoresProfiles(p, input, profiles, b);
      }
      if Candidate(p, other, b) {
        CandidateIgnoresProfiles(p, other, input.profiles, b);
      }
    }
  }

  lemma SameComposite(input: CompositeInput, profiles: seq<Profile>, periods: seq<CompositePeriod>, times: seq<int>)
    requires Mattering(profiles, input) == Mattering(input.profiles, input) && IsComposite(input, periods, times)
    ensures IsComposite(input.(profiles := profiles), periods, times)
  {
    var other := input.(profiles := profiles);
    CompositeShape(input, periods, times);
    forall k | 0 <= k < |times|
      ensures IsPoint(Relevant(profiles, other), other, times[k])
      ensures periods[k].startPeriod == RoundSeconds(times[k] - other.now)
      ensures LevelOf(periods[k]) == LevelAt(other, times[k])
    {
      PointOfPeriod(input, periods, times, k);
      LevelOfStart(input, periods, times, k);
      SamePoints(input, profiles, times[k]);
      SameLevel(input, profiles, times[k]);
    }
    forall b, k: nat | IsPoint(Relevant(profiles, other), other, b) && InForceAt(times, k, b)
      ensures LevelOf(periods[k]) == LevelAt(other, b)
    {
      SamePoints(input, profiles, b);
      LevelAtPoint(input, periods, times, k, b);
      SameLevel(input, profiles, b);
    }
  }

  /**
   Profiles that are invalidated, set for another EVSE or for another transaction do not
   matter: whichever of them are removed, added or altered, every level and the emitted
   composite stay what they are.
   */
  lemma OthersDoNotMatter(input: CompositeInput, profiles: seq<Profile>, periods: seq<CompositePeriod>, times: seq<int>, t: int)
    requires Mattering(profiles, input) == Mattering(input.profiles, input)
    ensures LevelAt(input.(profiles := profiles), t) == LevelAt(input, t)
    ensures IsComposite(input.(profiles := profiles), periods, times) <==> IsComposite(input, periods, times)
  {
    var other := input.(profiles := profiles);
    SameLevel(input, profiles, t);
    if IsComposite(input, periods, times) {
      SameComposite(input, profiles, periods, times);
    }
    if IsComposite(other, periods, times) {
      SameMattering(profiles, input, profiles);
      SameMattering(input.profiles, input, profiles);
      assert other.(profiles := input.profiles) == input;
      SameComposite(other, input.profiles, periods, times);
    }
  }

  /** So they can all be left out. */
  lemma OthersCanBeRemoved(input: CompositeInput, periods: seq<CompositePeriod>, times: seq<int>, t: int)
    ensures var only := input.(profiles := Mattering(input.profiles, input));
            && LevelAt(only, t) == LevelAt(input, t)
            && (IsComposite(only, periods, times) <==> IsComposite(input, periods, times))
  {
    MatteringTwice(input.profiles, input);
    OthersDoNotMatter(input, Mattering(input.profiles, input), periods, times, t);
  }

  // ----- what a profile says -----

  /** Where the schedule is anchored: a Relative one at the transaction, any other at its start, when it was set, or now. */
  function AnchorOf(p: Profile, input: CompositeInput): int
    requires p.schedules != []
  {
    if p.kind == Relative then
      if input.transactionStart.Some? then input.transactionStart.value else input.now
    else if p.schedules[0].startSchedule.Some? then p.schedules[0].startSchedule.value
    else if p.setAt.Some? then p.setAt.value
    else input.now
  }

  function PeriodMs(p: Profile): int {
    (if p.recurrency == Some(Weekly) then 7 * 24 else 24) * 60 * 60 * 1000
  }

  /** The occurrence of the schedule that starts at `s` is the one for `t`. */
  predicate IsOccurrenceFor(p: Profile, input: CompositeInput, s: int, t: int)
    requires p.schedules != []
  {
    if p.kind == Recurring then s <= t < s + PeriodMs(p) && (s - AnchorOf(p, input)) % PeriodMs(p) == 0
    else s == AnchorOf(p, input)
  }

  /** Of the periods that have started after `offsetMs`, `i` is listed last. */
  predicate IsLastStarted(periods: seq<SchedulePeriod>, i: int, offsetMs: int) {
    && 0 <= i < |periods| && periods[i].startPeriod * 1000 <= offsetMs
    && forall j :: i < j < |periods| ==> periods[j].startPeriod * 1000 > offsetMs
  }

  /** `x` is the limit in the unit asked for: in watts exactly, in amperes to the nearest tenth, halves up. */
  ghost predicate IsInUnit(x: real, limit: real, from: Option<RateUnit>, phases: int, input: CompositeInput) {
    var watts := input.voltage * (if phases > 1 then phases as real else 1.0);
    if from.None? || from.value == input.unit then x == limit
    else if input.unit == W then x == limit * watts
    else (x * 10.0).Floor as real == x * 10.0 && -0.05 * watts < x * watts - limit <= 0.05 * watts
  }

  /** The profile says `x` at `t`: it is valid, an occurrence covers `t`, and `x` is its last started period in the unit asked for. */
  ghost predicate Says(p: Profile, input: CompositeInput, t: int, x: SchedulePeriod) {
    && p.schedules != []
    && (p.validFrom.Some? ==> p.validFrom.value <= t)
    && (p.validTo.Some? ==> t < p.validTo.value)
    && exists s, i :: SaysFrom(p, input, t, x, s, i)
  }

  ghost predicate SaysFrom(p: Profile, input: CompositeInput, t: int, x: SchedulePeriod, s: int, i: int)
    requires p.schedules != []
  {
    var schedule := p.schedules[0];
    && IsOccurrenceFor(p, input, s, t) && s <= t
    && (schedule.duration.Some? ==> t < s + schedule.duration.value * 1000)
    && IsLastStarted(schedule.periods, i, t - s)
    && x == schedule.periods[i].(limit := x.limit)
    && IsInUnit(x.limit, schedule.periods[i].limit, schedule.rateUnit,
                if x.numberPhases.Some? then x.numberPhases.value else input.numberPhases, input)
  }

  lemma OccurrenceIs(p: Profile, input: CompositeInput, s: int, t: int)
    requires p.schedules != []
    ensures IsOccurrenceFor(p, input, s, t) <==> s == ScheduleStartAt(p, input, t)
  {
    if p.kind == Recurring {
      var base, period := BaseOf(p, input), RecurrencyMs(p);
      FloorStep(t - base, period);
      FloorOf(t - base, period);
      if IsOccurrenceFor(p, input, s, t) {
        SameOccurrence(s - base, t - base, period);
      }
    }
  }

  lemma SameOccurrence(s: int, t: int, m: int)
    requires m == 86_400_000 || m == 604_800_000
    requires s <= t < s + m && s % m == 0
    ensures t / m * m == s
  {
    if m == 86_400_000 {
    } else {
    }
  }

  lemma {:induction false} LastStartedIs(periods: seq<SchedulePeriod>, o: int)
    ensures match LastStarted(periods, o)
            case Some(x) => exists i :: IsLastStarted(periods, i, o) && periods[i] == x
            case None => forall i :: 0 <= i < |periods| ==> periods[i].startPeriod * 1000 > o
  {
    if periods != [] {
      var init, n := periods[..|periods| - 1], |periods| - 1;
      LastStartedIs(init, o);
      if periods[n].startPeriod * 1000 <= o {
        assert IsLastStarted(periods, n, o);
      } else if LastStarted(init, o).Some? {
        var i :| IsLastStarted(init, i, o) && init[i] == LastStarted(init, o).value;
        assert IsLastStarted(periods, i, o);
      }
    }
  }

  lemma LastStartedFrom(periods: seq<SchedulePeriod>, i: int, o: int)
    requires IsLastStarted(periods, i, o)
    ensures LastStarted(periods, o) == Some(periods[i])
  {
    LastStartedIs(periods, o);
    assert LastStarted(periods, o).Some?;
    var j :| IsLastStarted(periods, j, o) && periods[j] == LastStarted(periods, o).value;
    assert i == j;
  }

  /** Rounding to tenths is going to the nearest tenth, halves up. */
  lemma NearestTenth(exact: real, x: real)
    ensures x == Round(exact * 10.0) as real / 10.0 <==> (x * 10.0).Floor as real == x * 10.0 && -0.05 < x - exact <= 0.05
  {
    var k := Round(exact * 10.0);
    if (x * 10.0).Floor as real == x * 10.0 && -0.05 < x - exact <= 0.05 {
      assert (x * 10.0).Floor == k;
    }
  }

  lemma TimesFactor(exact: real, x: real, factor: real, limit: real)
    requires factor > 0.0 && exact == limit / factor
    ensures -0.05 < x - exact <= 0.05 <==> -0.05 * factor < x * factor - limit <= 0.05 * factor
  {
    var d := x - exact;
    assert limit == exact * factor;
    assert d * factor == x * factor - limit;
    Ordered(-0.05, d, factor);
    Ordered(d, 0.05, factor);
  }

  lemma Ordered(a: real, b: real, factor: real)
    requires factor > 0.0
    ensures a < b <==> a * factor < b * factor
    ensures a <= b <==> a * factor <= b * factor
  {
    assert (b - a) * factor == b * factor - a * factor;
    if a < b {
      assert (b - a) * factor > 0.0;
    } else {
      assert (a - b) * factor >= 0.0;
    }
  }

  lemma UnitIs(x: real, limit: real, from: Option<RateUnit>, phases: int, input: CompositeInput)
    ensures IsInUnit(x, limit, from, phases, input) <==> x == InUnit(limit, from, phases, input)
  {
    var factor := Factor(phases, input);
    assert factor == input.voltage * (if phases > 1 then phases as real else 1.0);
    NearestTenth(limit / factor, x);
    TimesFactor(limit / factor, x, factor, limit);
  }

  lemma ConvertedIs(p: SchedulePeriod, x: SchedulePeriod, schedule: Schedule, input: CompositeInput)
    requires x == p.(limit := x.limit)
    ensures x == Converted(p, schedule, input) <==>
            IsInUnit(x.limit, p.limit, schedule.rateUnit,
                     if x.numberPhases.Some? then x.numberPhases.value else input.numberPhases, input)
  {
    UnitIs(x.limit, p.limit, schedule.rateUnit, x.numberPhases.GetOr(input.numberPhases), input);
  }

  lemma InForceSays(p: Profile, input: CompositeInput, t: int, s: int) returns (i: int)
    requires p.schedules != [] && s == ScheduleStartAt(p, input, t) && InForce(p.schedules[0], input, t - s).Some?
    ensures SaysFrom(p, input, t, InForce(p.schedules[0], input, t - s).value, s, i)
  {
    var schedule := p.schedules[0];
    OccurrenceIs(p, input, s, t);
    LastStartedIs(schedule.periods, t - s);
    i :| IsLastStarted(schedule.periods, i, t - s) && schedule.periods[i] == LastStarted(schedule.periods, t - s).value;
    ConvertedIs(schedule.periods[i], InForce(schedule, input, t - s).value, schedule, input);
  }

  lemma SaysInForce(p: Profile, input: CompositeInput, t: int, x: SchedulePeriod, s: int, i: int)
    requires p.schedules != [] && SaysFrom(p, input, t, x, s, i)
    ensures s == ScheduleStartAt(p, input, t) && InForce(p.schedules[0], input, t - s) == Some(x)
  {
    var schedule := p.schedules[0];
    OccurrenceIs(p, input, s, t);
    LastStartedFrom(schedule.periods, i, t - s);
    ConvertedIs(schedule.periods[i], x, schedule, input);
  }

  /** A profile is active with a period exactly when its fields say so. */
  lemma ActiveExactly(p: Profile, input: CompositeInput, t: int, x: SchedulePeriod)
    ensures ActiveAt(p, input, t) == Some(x) <==> Says(p, input, t, x)
  {
    if p.schedules != [] {
      if ActiveAt(p, input, t) == Some(x) {
        var i := InForceSays(p, input, t, ScheduleStartAt(p, input, t));
      }
      if s, i :| SaysFrom(p, input, t, x, s, i) {
        SaysInForce(p, input, t, x, s, i);
      }
    }
  }

  // ----- what bounds the limit -----

  /** A higher stack level, or the same one and set for an EVSE against set for all. */
  predicate IsAbove(p: Profile, q: Profile) {
    var a := if p.stackLevel.Some? then p.stackLevel.value else 0;
    var b := if q.stackLevel.Some? then q.stackLevel.value else 0;
    || a > b
    || (a == b && p.evseId.Some? && p.evseId.value != 0 && (q.evseId.None? || q.evseId.value == 0))
  }

  /** The profile is among those asked for, matters, and says something at `t`. */
  ghost predicate Speaks(p: Profile, input: CompositeInput, t: int) {
    p in input.profiles && Matters(p, input) && exists x :: Says(p, input, t, x)
  }

  /** The purposes that limit: a TxDefaultProfile only while no TxProfile speaks. */
  ghost predicate Limits(purpose: Purpose, input: CompositeInput, t: int) {
    || purpose == StationMax || purpose == ExternalConstraints || purpose == Tx
    || (purpose == TxDefault && forall q :: Speaks(q, input, t) ==> q.purpose != Tx)
  }

  /** No profile of the same purpose that speaks is above. */
  ghost predicate IsTop(p: Profile, input: CompositeInput, t: int) {
    Speaks(p, input, t) && forall q :: Speaks(q, input, t) && q.purpose == p.purpose ==> !IsAbove(q, p)
  }

  /** Every other profile of the same purpose that speaks is below. */
  ghost predicate IsSoleTop(p: Profile, input: CompositeInput, t: int) {
    Speaks(p, input, t) && forall q :: Speaks(q, input, t) && q.purpose == p.purpose && q != p ==> IsAbove(p, q)
  }

  lemma SpeaksExactly(p: Profile, input: CompositeInput, t: int)
    ensures Speaks(p, input, t) <==> p in Group(input, p.purpose) && IsActive(p, input, t)
  {
    AppliesExactly(p, input);
    if IsActive(p, input, t) {
      ActiveExactly(p, input, t, ActiveAt(p, input, t).value);
    }
    if x :| Says(p, input, t, x) {
      ActiveExactly(p, input, t, x);
    }
  }

  lemma AboveIsOutranks(p: Profile, q: Profile)
    ensures IsAbove(p, q) <==> Outranks(p, q)
  {
  }

  /** The period of a purpose is what one of its top profiles says. */
  lemma PurposeIsTop(input: CompositeInput, purpose: Purpose, t: int) returns (p: Profile)
    requires PurposeAt(Group(input, purpose), input, t).Some?
    ensures p.purpose == purpose && IsTop(p, input, t)
    ensures Says(p, input, t, PurposeAt(Group(input, purpose), input, t).value)
  {
    var group := Group(input, purpose);
    PurposeHasLimit(group, input, t);
    var q :| q in group && IsActive(q, input, t);
    var i := WinnerOf(group, input, t, q);
    PurposeIsWinner(group, input, t, i);
    p := group[i];
    SpeaksExactly(p, input, t);
    ActiveExactly(p, input, t, ActiveAt(p, input, t).value);
    forall other | Speaks(other, input, t) && other.purpose == purpose
      ensures !IsAbove(other, p)
    {
      SpeaksExactly(other, input, t);
      AboveIsOutranks(other, p);
      if other != p {
        WinnerOutranks(group, input, t, i, other);
      }
    }
  }

  lemma TwoSay(p: Profile, input: CompositeInput, t: int, x: SchedulePeriod, y: SchedulePeriod)
    requires Says(p, input, t, x) && Says(p, input, t, y)
    ensures x == y
  {
    ActiveExactly(p, input, t, x);
    ActiveExactly(p, input, t, y);
  }

  /** A profile that is alone at the top of its purpose gives its period. */
  lemma SoleTopGives(p: Profile, input: CompositeInput, t: int, x: SchedulePeriod)
    requires IsSoleTop(p, input, t) && Says(p, input, t, x)
    ensures PurposeAt(Group(input, p.purpose), input, t) == Some(x)
  {
    SpeaksExactly(p, input, t);
    PurposeHasLimit(Group(input, p.purpose), input, t);
    var top := PurposeIsTop(input, p.purpose, t);
    assert top == p;
    TwoSay(p, input, t, x, PurposeAt(Group(input, p.purpose), input, t).value);
  }

  lemma LimitsExactly(purpose: Purpose, input: CompositeInput, t: int)
    requires PurposeAt(Group(input, purpose), input, t).Some?
    ensures Limits(purpose, input, t) <==> Counts(input, purpose, t)
  {
    TransactionSpeaks(input, t);
  }

  lemma TransactionSpeaks(input: CompositeInput, t: int)
    ensures PurposeAt(Group(input, Tx), input, t).Some? <==> exists q :: Speaks(q, input, t) && q.purpose == Tx
  {
    PurposeHasLimit(Group(input, Tx), input, t);
    if p :| Speaks(p, input, t) && p.purpose == Tx {
      SpeaksExactly(p, input, t);
    }
    if p :| p in Group(input, Tx) && IsActive(p, input, t) {
      SpeaksExactly(p, input, t);
    }
  }

  /**
   A profile alone at the top of a purpose that limits bounds the limit from above: one for
   the whole station or for external constraints, a TxProfile of the running transaction or
   of any, and a TxDefaultProfile while no such TxProfile speaks.
   */
  lemma ProfileBounds(p: Profile, input: CompositeInput, t: int, x: SchedulePeriod)
    requires IsSoleTop(p, input, t) && Says(p, input, t, x) && Limits(p.purpose, input, t)
    ensures AtMost(LevelAt(input, t).limit, Finite(x.limit))
    ensures p.purpose == Tx || p.purpose == TxDefault ==>
              LevelAt(input, t).numberPhases == (if x.numberPhases.Some? then x.numberPhases.value else input.numberPhases)
  {
    SoleTopGives(p, input, t, x);
    LimitsExactly(p.purpose, input, t);
    LevelIsMinimum(input, t);
  }

  /** And nothing else limits: a limit below the local one is what a top profile of a purpose that limits says. */
  lemma LimitHasCause(input: CompositeInput, t: int) returns (p: Profile, x: SchedulePeriod)
    requires LevelAt(input, t).limit != input.localLimit
    ensures IsTop(p, input, t) && Says(p, input, t, x) && Limits(p.purpose, input, t)
    ensures LevelAt(input, t).limit == Finite(x.limit)
  {
    LevelIsMinimum(input, t);
    var purpose :| Counts(input, purpose, t) && LevelAt(input, t).limit == Finite(PurposeAt(Group(input, purpose), input, t).value.limit);
    LimitsExactly(purpose, input, t);
    p := PurposeIsTop(input, purpose, t);
    x := PurposeAt(Group(input, purpose), input, t).value;
  }

  /** The limit that is answered in watts: none for no limit, else the limit itself, or zero when that asks for discharging. */
  lemma AnswerIsClamped(level: Level)
    ensures LimitW(level).None? <==> level.limit.Unlimited?
    ensures level.limit.Finite? ==>
              var x := LimitW(level).value;
              x >= 0.0 && x >= level.limit.amount && (x == level.limit.amount || x == 0.0)
  {
  }

  /** So over every input the answer is never negative, and never above what a profile alone at the top of its purpose says. */
  lemma AnswerIsBounded(p: Profile, input: CompositeInput, t: int, x: SchedulePeriod)
    requires IsSoleTop(p, input, t) && Says(p, input, t, x) && Limits(p.purpose, input, t)
    ensures LimitW(LevelAt(input, t)).Some? && LimitW(LevelAt(input, t)).value >= 0.0
    ensures x.limit >= 0.0 ==> LimitW(LevelAt(input, t)).value <= x.limit
    ensures x.limit < 0.0 ==> LimitW(LevelAt(input, t)).value == 0.0
  {
    ProfileBounds(p, input, t, x);
    AnswerIsClamped(LevelAt(input, t));
  }
}
