/**
 The loops of packages/css/src/composite-schedule.ts: the active period scan,
 the stacking scan, the breakpoint collection and the merging loop. Each is
 proved against the pointwise meaning in CompositeModel.
 */
module CompositeProgram {
  import opened Basics
  import opened Sorting
  import opened CompositeModel
  import opened CompositeRefinement

  // ----- one profile, one purpose -----

  method ActivePeriod(profile: Profile, input: CompositeInput, t: int) returns (period: Option<SchedulePeriod>)
    ensures period == ActiveAt(profile, input, t)
  {
    if !IsValidAt(profile, t) || ScheduleOf(profile).None? {
      return None;
    }
    var schedule := ScheduleOf(profile).value;
    var offsetMs := t - ScheduleStartAt(profile, input, t);
    if offsetMs < 0 || (schedule.duration.Some? && offsetMs >= schedule.duration.value * 1000) {
      return None;
    }
    var found: Option<SchedulePeriod> := None;
    for i := 0 to |schedule.periods|
      invariant found == LastStarted(schedule.periods[..i], offsetMs)
    {
      assert schedule.periods[..i + 1][..i] == schedule.periods[..i];
      if schedule.periods[i].startPeriod * 1000 <= offsetMs {
        found := Some(schedule.periods[i]);
      }
    }
    assert schedule.periods[..|schedule.periods|] == schedule.periods;
    if found.None? {
      return None;
    }
    return Some(Converted(found.value, schedule, input));
  }

  /** The best profile seen so far. */
  datatype Best = Best(stack: int, specific: bool, period: SchedulePeriod)

  method PurposeLimit(group: seq<Profile>, input: CompositeInput, t: int) returns (period: Option<SchedulePeriod>)
    ensures period == PurposeAt(group, input, t)
  {
    var best: Option<Best> := None;
    ghost var winner: nat := 0;
    for n := 0 to |group|
      invariant best.None? ==> forall j :: 0 <= j < n ==> !IsActive(group[j], input, t)
      invariant best.Some? ==>
        && Wins(group, n, input, t, winner)
        && best.value.stack == Stack(group[winner])
        && best.value.specific == Specific(group[winner])
        && Some(best.value.period) == ActiveAt(group[winner], input, t)
    {
      var active := ActivePeriod(group[n], input, t);
      if best.Some? {
        ExtendWinner(group, n, input, t, winner);
      }
      if active.Some? {
        var stack, specific := Stack(group[n]), Specific(group[n]);
        if best.None? || stack > best.value.stack
           || (stack == best.value.stack && specific && !best.value.specific) {
          best := Some(Best(stack, specific, active.value));
          winner := n;
        }
      }
    }
    if best.None? {
      assert forall i: nat :: !Wins(group, |group|, input, t, i);
      return None;
    }
    PurposeIsWinner(group, input, t, winner);
    return Some(best.value.period);
  }

  // ----- breakpoints -----

  function Within(input: CompositeInput, t: Option<int>): (r: set<int>)
    ensures forall b :: b in r <==> t == Some(b) && input.now < b < input.End()
  {
    if t.Some? && input.now < t.value < input.End() then {t.value} else {}
  }

  /** `s` is `first` or a whole number of recurrences after it. */
  predicate Recurs(first: int, period: int, s: int)
    requires period > 0
  {
    s >= first && (s - first) % period == 0
  }

  lemma NextOccurrence(first: int, period: int, s: int)
    requires period == 86_400_000 || period == 604_800_000
    requires Recurs(first, period, s)
    ensures Recurs(first, period, s + period)
    ensures forall x :: s < x < s + period ==> !Recurs(first, period, x)
  {
    if period == 86_400_000 {
    } else {
    }
  }

  method Starts(profile: Profile, input: CompositeInput) returns (starts: seq<int>)
    ensures forall s :: s in starts <==> IsStart(profile, input, s)
  {
    var first := ScheduleStartAt(profile, input, input.now);
    starts := [first];
    if profile.kind == Recurring {
      var period := RecurrencyMs(profile);
      var s := first + period;
      assert Recurs(first, period, first);
      NextOccurrence(first, period, first);
      while s < input.End()
        invariant first < s && Recurs(first, period, s)
        invariant forall x :: x in starts <==>
          x == first || (first < x < s && x < input.End() && Recurs(first, period, x))
        decreases input.End() - s
      {
        NextOccurrence(first, period, s);
        starts := starts + [s];
        s := s + period;
      }
      assert forall x :: first < x ==> Recurs(first, period, x) == ((x - first) % period == 0);
    }
  }

  method OffsetPoints(schedule: Schedule, s: int, input: CompositeInput) returns (points: set<int>)
    ensures forall b :: b in points <==> input.now < b < input.End() && ListsOffset(schedule, b - s)
  {
    points := {};
    for i := 0 to |schedule.periods|
      invariant forall b :: b in points <==>
        (input.now < b < input.End() && exists j :: 0 <= j < i && schedule.periods[j].startPeriod * 1000 == b - s)
    {
      points := points + Within(input, Some(s + schedule.periods[i].startPeriod * 1000));
    }
    if schedule.duration.Some? {
      points := points + Within(input, Some(s + schedule.duration.value * 1000));
    }
  }

  method ProfilePoints(profile: Profile, input: CompositeInput) returns (points: set<int>)
    ensures forall b :: b in points <==> input.now < b < input.End() && Candidate(profile, input, b)
  {
    points := Within(input, profile.validFrom) + Within(input, profile.validTo);
    var schedule := ScheduleOf(profile);
    if schedule.None? {
      return;
    }
    ghost var validity := points;
    var starts := Starts(profile, input);
    for i := 0 to |starts|
      invariant forall b :: b in points <==>
        b in validity || (input.now < b < input.End() && exists j :: 0 <= j < i && ListsOffset(schedule.value, b - starts[j]))
    {
      var more := OffsetPoints(schedule.value, starts[i], input);
      points := points + more;
    }
    forall b: int {:trigger b in points}
      ensures (exists j :: 0 <= j < |starts| && ListsOffset(schedule.value, b - starts[j])) <==>
              (exists s :: IsStart(profile, input, s) && ListsOffset(schedule.value, b - s))
    {
      if j :| 0 <= j < |starts| && ListsOffset(schedule.value, b - starts[j]) {
        assert starts[j] in starts;
      }
      if s :| IsStart(profile, input, s) && ListsOffset(schedule.value, b - s) {
        assert s in starts;
      }
    }
  }

  method Breakpoints(profiles: seq<Profile>, input: CompositeInput) returns (sorted: seq<int>)
    ensures Increasing(sorted)
    ensures forall b :: b in sorted <==> IsPoint(profiles, input, b)
  {
    var points := {input.now};
    for i := 0 to |profiles|
      invariant forall b :: b in points <==> IsPoint(profiles[..i], input, b)
    {
      var more := ProfilePoints(profiles[i], input);
      assert profiles[..i + 1] == profiles[..i] + [profiles[i]];
      points := points + more;
    }
    assert profiles[..|profiles|] == profiles;
    sorted := SortAscending(points);
  }

  // ----- the composite -----

  method LevelNow(input: CompositeInput, max: seq<Profile>, external: seq<Profile>,
                  txDefault: seq<Profile>, tx: seq<Profile>, t: int)
    returns (limit: Limit, numberPhases: int)
    requires max == Group(input, StationMax) && external == Group(input, ExternalConstraints)
    requires txDefault == Group(input, TxDefault) && tx == Group(input, Tx)
    ensures Level(limit, numberPhases) == LevelAt(input, t)
  {
    limit, numberPhases := input.localLimit, input.numberPhases;
    var groups := [max, external];
    for i := 0 to |groups|
      invariant i == 0 ==> limit == input.localLimit
      invariant i == 1 ==> limit == Cap(input.localLimit, PurposeAt(max, input, t))
      invariant i == 2 ==> limit == Cap(Cap(input.localLimit, PurposeAt(max, input, t)), PurposeAt(external, input, t))
    {
      var p := PurposeLimit(groups[i], input, t);
      if p.Some? && Below(p.value.limit, limit) {
        limit := Finite(p.value.limit);
      }
    }
    var txPeriod := PurposeLimit(tx, input, t);
    if txPeriod.None? {
      txPeriod := PurposeLimit(txDefault, input, t);
    }
    if txPeriod.Some? {
      if Below(txPeriod.value.limit, limit) {
        limit := Finite(txPeriod.value.limit);
      }
      if txPeriod.value.numberPhases.Some? {
        numberPhases := txPeriod.value.numberPhases.value;
      }
    }
  }

  /**
   What the merging loop has built from the breakpoints `points[..i]`, whose
   levels are `levels[..i]`.
   */
  ghost predicate Merged(now: int, points: seq<int>, levels: seq<Level>, i: nat,
                         periods: seq<CompositePeriod>, times: seq<int>)
    requires i <= |points| && i <= |levels|
  {
    && |periods| == |times|
    && (i > 0 ==> |times| > 0 && times[0] == points[0])
    && Increasing(times)
    && (forall k :: 0 <= k < |times| ==>
          times[k] in points[..i] && periods[k].startPeriod == RoundSeconds(times[k] - now))
    && NoRepeat(periods)
    && (forall j, k: nat :: 0 <= j < i && InForceAt(times, k, points[j]) ==> LevelOf(periods[k]) == levels[j])
  }

  /** Period starts lie among the breakpoints seen so far, so before the next one. */
  lemma StartsBefore(points: seq<int>, i: nat, times: seq<int>)
    requires i < |points| && Increasing(points)
    requires forall k :: 0 <= k < |times| ==> times[k] in points[..i]
    ensures forall k :: 0 <= k < |times| ==> times[k] < points[i]
  {
  }

  lemma Merge(now: int, points: seq<int>, levels: seq<Level>, i: nat,
              periods: seq<CompositePeriod>, times: seq<int>)
    requires 0 < i < |points| && i < |levels| && Increasing(points)
    requires Merged(now, points, levels, i, periods, times)
    requires LevelOf(periods[|periods| - 1]) == levels[i]
    ensures Merged(now, points, levels, i + 1, periods, times)
  {
    StartsBefore(points, i, times);
    assert forall k: nat :: InForceAt(times, k, points[i]) ==> k == |times| - 1;
  }

  /** `period` is the one to append for `points[i]`. */
  ghost predicate IsNext(now: int, points: seq<int>, levels: seq<Level>, i: nat,
                         periods: seq<CompositePeriod>, times: seq<int>, period: CompositePeriod)
  {
    && i < |points| && i < |levels| && Increasing(points)
    && Merged(now, points, levels, i, periods, times)
    && (if i == 0 then times == [] else LevelOf(periods[|periods| - 1]) != levels[i])
    && LevelOf(period) == levels[i]
    && period.startPeriod == RoundSeconds(points[i] - now)
  }

  lemma PushTimes(points: seq<int>, i: nat, times: seq<int>)
    requires i < |points| && Increasing(points) && Increasing(times)
    requires forall k :: 0 <= k < |times| ==> times[k] in points[..i]
    ensures Increasing(times + [points[i]])
    ensures forall k :: 0 <= k < |times| + 1 ==> (times + [points[i]])[k] in points[..i + 1]
  {
    StartsBefore(points, i, times);
    assert points[..i + 1] == points[..i] + [points[i]];
  }

  lemma PushOffsets(now: int, points: seq<int>, levels: seq<Level>, i: nat,
                    periods: seq<CompositePeriod>, times: seq<int>, period: CompositePeriod)
    requires IsNext(now, points, levels, i, periods, times, period)
    ensures NoRepeat(periods + [period])
    ensures forall k :: 0 <= k < |times| + 1 ==>
              (periods + [period])[k].startPeriod == RoundSeconds((times + [points[i]])[k] - now)
  {
  }

  /** An earlier instant keeps its period after a later start is appended. */
  lemma PushLookup(points: seq<int>, i: nat, times: seq<int>, j: nat, k: nat)
    requires j <= i < |points| && Increasing(points)
    requires forall k :: 0 <= k < |times| ==> times[k] < points[i]
    requires InForceAt(times + [points[i]], k, points[j])
    ensures if j < i then InForceAt(times, k, points[j]) else k == |times|
  {
    var times' := times + [points[i]];
    assert k + 1 < |times'| ==> times'[k + 1] <= points[i];
  }

  lemma PushLevels(now: int, points: seq<int>, levels: seq<Level>, i: nat,
                   periods: seq<CompositePeriod>, times: seq<int>, period: CompositePeriod)
    requires IsNext(now, points, levels, i, periods, times, period)
    ensures forall j, k: nat :: 0 <= j < i + 1 && InForceAt(times + [points[i]], k, points[j]) ==>
              LevelOf((periods + [period])[k]) == levels[j]
  {
    StartsBefore(points, i, times);
    forall j: nat, k: nat | j < i + 1 && InForceAt(times + [points[i]], k, points[j])
      ensures LevelOf((periods + [period])[k]) == levels[j]
    {
      PushLookup(points, i, times, j, k);
    }
  }

  lemma Push(now: int, points: seq<int>, levels: seq<Level>, i: nat,
             periods: seq<CompositePeriod>, times: seq<int>, period: CompositePeriod)
    requires IsNext(now, points, levels, i, periods, times, period)
    ensures Merged(now, points, levels, i + 1, periods + [period], times + [points[i]])
  {
    PushTimes(points, i, times);
    PushOffsets(now, points, levels, i, periods, times, period);
    PushLevels(now, points, levels, i, periods, times, period);
  }

  lemma MergedIsComposite(input: CompositeInput, points: seq<int>, levels: seq<Level>,
                          periods: seq<CompositePeriod>, times: seq<int>)
    requires Increasing(points) && |levels| == |points|
    requires forall b :: b in points <==> IsPoint(Relevant(input.profiles, input), input, b)
    requires forall j :: 0 <= j < |points| ==> levels[j] == LevelAt(input, points[j])
    requires Merged(input.now, points, levels, |points|, periods, times)
    ensures IsComposite(input, periods, times)
  {
    assert points[..|points|] == points;
    assert input.now in points;
    assert IsPoint(Relevant(input.profiles, input), input, points[0]);
    forall b, k: nat | IsPoint(Relevant(input.profiles, input), input, b) && InForceAt(times, k, b)
      ensures LevelOf(periods[k]) == LevelAt(input, b)
    {
      assert b in points;
      var j :| 0 <= j < |points| && points[j] == b;
    }
    forall k | 0 <= k < |times|
      ensures IsPoint(Relevant(input.profiles, input), input, times[k])
      ensures LevelOf(periods[k]) == LevelAt(input, times[k])
    {
      assert times[k] in points;
      assert InForceAt(times, k, times[k]);
    }
  }

  /** The composite schedule, with the exact instants its periods start (milliseconds). */
  method ComputeCompositeSchedule(input: CompositeInput)
    returns (periods: seq<CompositePeriod>, ghost times: seq<int>)
    ensures |periods| > 0 && periods[0].startPeriod == 0
    ensures IsScheduleOf(input, periods)
    ensures IsComposite(input, periods, times)
  {
    var relevant := Relevant(input.profiles, input);
    var max := OfPurpose(relevant, StationMax);
    var external := OfPurpose(relevant, ExternalConstraints);
    var txDefault := OfPurpose(relevant, TxDefault);
    var tx := OfPurpose(relevant, Tx);
    var points := Breakpoints(relevant, input);
    ghost var levels := seq(|points|, j requires 0 <= j < |points| => LevelAt(input, points[j]));
    periods, times := [], [];
    for i := 0 to |points|
      invariant i == 0 ==> times == []
      invariant Merged(input.now, points, levels, i, periods, times)
    {
      var t := points[i];
      var limit, numberPhases := LevelNow(input, max, external, txDefault, tx, t);
      assert levels[i] == Level(limit, numberPhases);
      if i > 0 && periods[|periods| - 1].limit == limit && periods[|periods| - 1].numberPhases == numberPhases {
        Merge(input.now, points, levels, i, periods, times);
      } else {
        var period := CompositePeriod(RoundSeconds(t - input.now), limit, numberPhases);
        Push(input.now, points, levels, i, periods, times, period);
        periods, times := periods + [period], times + [t];
      }
    }
    MergedIsComposite(input, points, levels, periods, times);
  }

  /** The composite limit in W at `now`, or none when no profile limits it. */
  method LimitNowW(profiles: seq<Profile>, evseId: int, now: int, voltage: Voltage, phases: int,
                   transactionId: Option<string>, transactionStart: Option<int>)
    returns (limit: Option<real>)
    ensures limit == LimitW(LevelAt(NowInput(profiles, evseId, now, voltage, phases, transactionId, transactionStart), now))
  {
    var periods, times := ComputeCompositeSchedule(
      NowInput(profiles, evseId, now, voltage, phases, transactionId, transactionStart));
    if periods[0].limit.Unlimited? {
      return None;
    }
    var amount := periods[0].limit.amount;
    return Some(if amount > 0.0 then amount else 0.0);
  }

  /** The one-second look at `now`, in W and without a local limit. */
  function NowInput(profiles: seq<Profile>, evseId: int, now: int, voltage: Voltage, phases: int,
                    transactionId: Option<string>, transactionStart: Option<int>): CompositeInput
  {
    CompositeInput(profiles, evseId, now, 1, Unlimited, W, voltage, phases, transactionId, transactionStart)
  }

  /** What the meter uses of a level: no limit, or the limit clamped at 0. */
  function LimitW(level: Level): Option<real> {
    match level.limit
    case Unlimited => None
    case Finite(amount) => Some(if amount > 0.0 then amount else 0.0)
  }
}
