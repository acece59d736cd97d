/**
 What the composite schedule promises as a whole: it is unique, canonical and
 never above the local limit, it does not depend on the order of the profiles,
 it can be computed window by window, and the meter's limit agrees with it.
 */
module CompositeTheorems {
  import opened Basics
  import opened Sorting
  import opened CompositeModel
  import opened CompositeRefinement
  import opened CompositeProgram

  // ----- uniqueness -----

  lemma PeriodsDiffer(periods: seq<CompositePeriod>, k: nat)
    requires NoRepeat(periods) && k + 1 < |periods|
    ensures LevelOf(periods[k]) != LevelOf(periods[k + 1])
  {
  }

  lemma PointOfPeriod(input: CompositeInput, periods: seq<CompositePeriod>, times: seq<int>, k: nat)
    requires IsComposite(input, periods, times) && k < |times|
    ensures IsPoint(Relevant(input.profiles, input), input, times[k])
  {
  }

  lemma LevelOfStart(input: CompositeInput, periods: seq<CompositePeriod>, times: seq<int>, k: nat)
    requires IsComposite(input, periods, times) && k < |times|
    ensures LevelOf(periods[k]) == LevelAt(input, times[k])
    ensures periods[k].startPeriod == RoundSeconds(times[k] - input.now)
  {
  }

  /** A period starts where the level is no longer that of the period before. */
  lemma LevelChanges(input: CompositeInput, periods: seq<CompositePeriod>, times: seq<int>, k: nat)
    requires IsComposite(input, periods, times) && 0 < k < |times|
    ensures times[k - 1] < times[k]
    ensures LevelAt(input, times[k]) != LevelOf(periods[k - 1])
  {
    LevelOfStart(input, periods, times, k);
    PeriodsDiffer(periods, k - 1);
  }

  /** A period is not in force at a breakpoint with another level. */
  lemma NotInForce(input: CompositeInput, periods: seq<CompositePeriod>, times: seq<int>, k: nat, t: int)
    requires IsComposite(input, periods, times) && k < |times|
    requires IsPoint(Relevant(input.profiles, input), input, t) && LevelAt(input, t) != LevelOf(periods[k])
    ensures !InForceAt(times, k, t)
  {
  }

  /** Where one composite starts a period, another that agreed so far starts the same one. */
  lemma SameStart(input: CompositeInput, p: seq<CompositePeriod>, s: seq<int>,
                  q: seq<CompositePeriod>, u: seq<int>, n: nat)
    requires IsComposite(input, p, s) && IsComposite(input, q, u)
    requires 0 < n < |s| && n <= |u| && s[n - 1] == u[n - 1] && LevelOf(p[n - 1]) == LevelOf(q[n - 1])
    ensures n < |u| && u[n] <= s[n]
  {
    LevelChanges(input, p, s, n);
    PointOfPeriod(input, p, s, n);
    NotInForce(input, q, u, n - 1, s[n]);
  }

  lemma SamePeriod(input: CompositeInput, p: seq<CompositePeriod>, s: seq<int>,
                   q: seq<CompositePeriod>, u: seq<int>, k: nat)
    requires IsComposite(input, p, s) && IsComposite(input, q, u)
    requires k < |s| && k < |u| && s[k] == u[k]
    ensures p[k] == q[k]
  {
    LevelOfStart(input, p, s, k);
    LevelOfStart(input, q, u, k);
  }

  lemma {:induction false} SamePrefix(input: CompositeInput, p: seq<CompositePeriod>, s: seq<int>,
                                      q: seq<CompositePeriod>, u: seq<int>, n: nat)
    requires IsComposite(input, p, s) && IsComposite(input, q, u) && n < |s|
    ensures n < |u| && s[n] == u[n] && p[n] == q[n]
  {
    if n > 0 {
      SamePrefix(input, p, s, q, u, n - 1);
      SameStart(input, p, s, q, u, n);
      SameStart(input, q, u, p, s, n);
    }
    SamePeriod(input, p, s, q, u, n);
  }

  /** An input has one composite schedule. */
  lemma CompositeUnique(input: CompositeInput, p: seq<CompositePeriod>, s: seq<int>,
                        q: seq<CompositePeriod>, u: seq<int>)
    requires IsComposite(input, p, s) && IsComposite(input, q, u)
    ensures p == q && s == u
  {
    SamePrefix(input, p, s, q, u, |s| - 1);
    SamePrefix(input, q, u, p, s, |u| - 1);
    forall n | 0 <= n < |s|
      ensures s[n] == u[n] && p[n] == q[n]
    {
      SamePrefix(input, p, s, q, u, n);
    }
  }

  // ----- the limit is the minimum -----

  /** The purposes whose limit counts at `t`: a TxProfile hides the TxDefaultProfile. */
  ghost predicate Counts(input: CompositeInput, purpose: Purpose, t: int) {
    && purpose != OtherPurpose
    && PurposeAt(Group(input, purpose), input, t).Some?
    && (purpose == TxDefault ==> PurposeAt(Group(input, Tx), input, t).None?)
  }

  /** The composite limit is the least of the local limit and the limits that count. */
  lemma LevelIsMinimum(input: CompositeInput, t: int)
    ensures var limit := LevelAt(input, t).limit;
            && AtMost(limit, input.localLimit)
            && (forall purpose :: Counts(input, purpose, t) ==>
                  AtMost(limit, Finite(PurposeAt(Group(input, purpose), input, t).value.limit)))
            && (limit == input.localLimit ||
                exists purpose :: Counts(input, purpose, t) &&
                  limit == Finite(PurposeAt(Group(input, purpose), input, t).value.limit))
  {
    var station := PurposeAt(Group(input, StationMax), input, t);
    var external := PurposeAt(Group(input, ExternalConstraints), input, t);
    var transaction := TransactionAt(input, t);
    var limit := LevelAt(input, t).limit;
    var l1 := Cap(input.localLimit, station);
    var l2 := Cap(l1, external);
    if limit != l2 {
      assert Counts(input, Tx, t) || Counts(input, TxDefault, t);
    } else if l2 != l1 {
      assert Counts(input, ExternalConstraints, t);
    } else if l1 != input.localLimit {
      assert Counts(input, StationMax, t);
    }
  }

  // ----- canonical output -----

  /** Rounding to seconds moves a start by at most half a second and keeps the order. */
  lemma RoundSecondsClose(a: int, b: int)
    requires a <= b
    ensures RoundSeconds(a) <= RoundSeconds(b)
    ensures -500 < RoundSeconds(a) * 1000 - a <= 500
    ensures RoundSeconds(a) * 1000 == a <==> a % 1000 == 0
  {
  }

  /**
   The output starts at 0, has no two adjacent periods that say the same, never
   exceeds the local limit; starts never decrease and are within half a second
   of the exact instant, which lies in the window.
   */
  lemma CompositeIsCanonical(input: CompositeInput, periods: seq<CompositePeriod>, times: seq<int>)
    requires IsComposite(input, periods, times)
    ensures |periods| > 0 && periods[0].startPeriod == 0 && NoRepeat(periods)
    ensures forall k :: 0 <= k < |periods| ==>
              && AtMost(periods[k].limit, input.localLimit)
              && -500 < periods[k].startPeriod * 1000 - (times[k] - input.now) <= 500
              && (k > 0 ==> times[k] < input.End())
    ensures forall i, j :: 0 <= i < j < |periods| ==> periods[i].startPeriod <= periods[j].startPeriod
  {
    forall k | 0 <= k < |periods|
      ensures && AtMost(periods[k].limit, input.localLimit)
              && -500 < periods[k].startPeriod * 1000 - (times[k] - input.now) <= 500
              && (k > 0 ==> times[k] < input.End())
    {
      LevelOfStart(input, periods, times, k);
      LevelIsMinimum(input, times[k]);
      PointOfPeriod(input, periods, times, k);
      if k > 0 { StartsIncrease(input, periods, times, 0, k); }
    }
    forall i, j | 0 <= i < j < |periods|
      ensures periods[i].startPeriod <= periods[j].startPeriod
    {
      LevelOfStart(input, periods, times, i);
      LevelOfStart(input, periods, times, j);
      StartsIncrease(input, periods, times, i, j);
      RoundSecondsClose(times[i] - input.now, times[j] - input.now);
    }
    LevelOfStart(input, periods, times, 0);
  }

  lemma StartsIncrease(input: CompositeInput, periods: seq<CompositePeriod>, times: seq<int>, i: nat, j: nat)
    requires IsComposite(input, periods, times) && i < j < |times|
    ensures times[0] == input.now && times[i] < times[j]
  {
  }

  predicate WholeSecond(input: CompositeInput, t: Option<int>) {
    t.Some? ==> (t.value - input.now) % 1000 == 0
  }

  /** Every anchor and validity bound is a whole number of seconds from the start of the window. */
  ghost predicate WholeSeconds(input: CompositeInput) {
    forall p :: p in input.profiles && AppliesTo(p, input) ==>
      && WholeSecond(input, p.validFrom)
      && WholeSecond(input, p.validTo)
      && WholeSecond(input, Some(ScheduleStartAt(p, input, input.now)))
  }

  lemma WholeOffset(first: int, s: int, period: int, now: int) returns (k: int)
    requires period == 86_400_000 || period == 604_800_000
    requires (first - now) % 1000 == 0 && (s - first) % period == 0
    ensures s - now == 1000 * k
  {
    var days, offset := (s - first) / period, (first - now) / 1000;
    k := offset + days * (if period == 86_400_000 then 86_400 else 604_800);
  }

  lemma WholeStart(p: Profile, input: CompositeInput, s: int) returns (k: int)
    requires WholeSecond(input, Some(ScheduleStartAt(p, input, input.now)))
    requires IsStart(p, input, s)
    ensures s - input.now == 1000 * k
  {
    var first := ScheduleStartAt(p, input, input.now);
    if s != first {
      k := WholeOffset(first, s, RecurrencyMs(p), input.now);
    } else {
      k := (first - input.now) / 1000;
    }
  }

  lemma WholeListed(schedule: Schedule, offsetMs: int) returns (k: int)
    requires ListsOffset(schedule, offsetMs)
    ensures offsetMs == 1000 * k
  {
    k := offsetMs / 1000;
  }

  lemma WholeCandidate(p: Profile, input: CompositeInput, b: int) returns (k: int)
    requires WholeSecond(input, p.validFrom) && WholeSecond(input, p.validTo)
    requires WholeSecond(input, Some(ScheduleStartAt(p, input, input.now)))
    requires Candidate(p, input, b)
    ensures b - input.now == 1000 * k
  {
    if p.validFrom == Some(b) || p.validTo == Some(b) {
      k := (b - input.now) / 1000;
    } else {
      var s :| IsStart(p, input, s) && ListsOffset(ScheduleOf(p).value, b - s);
      var i := WholeStart(p, input, s);
      var j := WholeListed(ScheduleOf(p).value, b - s);
      k := i + j;
    }
  }

  lemma WholePoint(input: CompositeInput, b: int) returns (k: int)
    requires IsPoint(Relevant(input.profiles, input), input, b) && WholeSeconds(input)
    ensures b - input.now == 1000 * k
  {
    if b == input.now {
      k := 0;
    } else {
      var p :| p in Relevant(input.profiles, input) && Candidate(p, input, b);
      k := WholeCandidate(p, input, b);
    }
  }

  lemma WholeRounds(ms: int, k: int)
    requires ms == 1000 * k
    ensures RoundSeconds(ms) == k
  {
  }

  lemma WholeTime(input: CompositeInput, periods: seq<CompositePeriod>, times: seq<int>, k: nat) returns (seconds: int)
    requires IsComposite(input, periods, times) && WholeSeconds(input) && k < |times|
    ensures times[k] - input.now == 1000 * seconds
  {
    PointOfPeriod(input, periods, times, k);
    seconds := WholePoint(input, times[k]);
  }

  lemma StartOf(input: CompositeInput, periods: seq<CompositePeriod>, times: seq<int>, k: nat) returns (ms: int)
    requires IsComposite(input, periods, times) && k < |periods|
    ensures k < |times| && ms == times[k] - input.now && periods[k].startPeriod == RoundSeconds(ms)
  {
    LevelOfStart(input, periods, times, k);
    ms := times[k] - input.now;
  }

  /** With whole-second anchors the output alone says when each period starts. */
  lemma WholeSecondStart(input: CompositeInput, periods: seq<CompositePeriod>, times: seq<int>, k: nat)
    requires IsComposite(input, periods, times) && WholeSeconds(input) && k < |periods|
    ensures k < |times| && periods[k].startPeriod * 1000 == times[k] - input.now
  {
    var ms := StartOf(input, periods, times, k);
    var seconds := WholeTime(input, periods, times, k);
    WholeRounds(ms, seconds);
  }

  /** With whole-second anchors the starts strictly increase and stay below the duration. */
  lemma WholeSecondsIncrease(input: CompositeInput, periods: seq<CompositePeriod>, times: seq<int>, i: nat, j: nat)
    requires IsComposite(input, periods, times) && WholeSeconds(input) && i < j < |periods|
    ensures periods[i].startPeriod < periods[j].startPeriod < input.durationS
  {
    WholeSecondStart(input, periods, times, i);
    WholeSecondStart(input, periods, times, j);
    StartsIncrease(input, periods, times, i, j);
    StartsIncrease(input, periods, times, 0, j);
    PointOfPeriod(input, periods, times, j);
  }

  /** Period `k` of the output is the last one that starts at or before `offsetMs`. */
  predicate CoversOffset(periods: seq<CompositePeriod>, k: nat, offsetMs: int) {
    && k < |periods| && periods[k].startPeriod * 1000 <= offsetMs
    && (k + 1 < |periods| ==> offsetMs < periods[k + 1].startPeriod * 1000)
  }

  /** The rounded starts of the output are the exact ones. */
  ghost predicate ExactStarts(input: CompositeInput, periods: seq<CompositePeriod>, times: seq<int>)
    requires |periods| == |times|
  {
    forall k :: 0 <= k < |periods| ==> periods[k].startPeriod * 1000 == times[k] - input.now
  }

  lemma WholeSecondsAreExact(input: CompositeInput, periods: seq<CompositePeriod>, times: seq<int>)
    requires IsComposite(input, periods, times) && WholeSeconds(input)
    ensures ExactStarts(input, periods, times)
  {
    forall k: nat | k < |periods|
      ensures periods[k].startPeriod * 1000 == times[k] - input.now
    {
      WholeSecondStart(input, periods, times, k);
    }
  }

  lemma CoversInForce(input: CompositeInput, periods: seq<CompositePeriod>, times: seq<int>, k: nat, t: int)
    requires |periods| == |times| && ExactStarts(input, periods, times)
    requires CoversOffset(periods, k, t - input.now)
    ensures InForceAt(times, k, t)
  {
  }

  /** What the output says, read without the exact instants, is the level of every instant of the window. */
  ghost predicate OutputDenotes(input: CompositeInput, periods: seq<CompositePeriod>) {
    forall k: nat, t: int :: CoversOffset(periods, k, t - input.now) && t < input.End() ==>
      LevelOf(periods[k]) == LevelAt(input, t)
  }

  /** The refinement in terms of the output alone. */
  lemma OutputRefines(input: CompositeInput, periods: seq<CompositePeriod>, times: seq<int>)
    requires |periods| == |times| && ExactStarts(input, periods, times)
    requires IsComposite(input, periods, times) && AllSeamless(input)
    ensures OutputDenotes(input, periods)
  {
    CompositeRefines(input, periods, times);
    forall k: nat, t: int | CoversOffset(periods, k, t - input.now) && t < input.End()
      ensures LevelOf(periods[k]) == LevelAt(input, t)
    {
      CoversInForce(input, periods, times, k, t);
    }
  }

  /** With whole-second anchors and bounds, which a caller can check, the output alone is enough. */
  lemma WholeSecondOutputRefines(input: CompositeInput, periods: seq<CompositePeriod>, times: seq<int>)
    requires IsComposite(input, periods, times) && AllSeamless(input) && WholeSeconds(input)
    ensures OutputDenotes(input, periods)
  {
    WholeSecondsAreExact(input, periods, times);
    CompositeShape(input, periods, times);
    OutputRefines(input, periods, times);
  }

  // ----- order of the profiles -----

  /** No two applicable profiles of one purpose have the same stack level and EVSE-specificity. */
  ghost predicate DistinctRanks(input: CompositeInput) {
    forall p, q ::
      (p in input.profiles && q in input.profiles && p != q && p.purpose == q.purpose &&
       AppliesTo(p, input) && AppliesTo(q, input)) ==> !SameRank(p, q)
  }

  ghost predicate SameMembers(a: seq<Profile>, b: seq<Profile>) {
    forall p :: p in a <==> p in b
  }

  lemma LevelReorder(input: CompositeInput, profiles: seq<Profile>, t: int)
    requires SameMembers(input.profiles, profiles) && DistinctRanks(input)
    ensures LevelAt(input, t) == LevelAt(input.(profiles := profiles), t)
  {
    var other := input.(profiles := profiles);
    forall purpose
      ensures PurposeAt(Group(input, purpose), input, t) == PurposeAt(Group(other, purpose), other, t)
    {
      PurposeReorder(Group(input, purpose), Group(other, purpose), input, t);
      forall p
        ensures ActiveAt(p, input, t) == ActiveAt(p, other, t)
      {
        ActiveIgnoresProfiles(p, input, profiles, t);
      }
      PurposeCongruent(Group(other, purpose), input, t, other, t);
    }
  }

  lemma ActiveIgnoresProfiles(p: Profile, input: CompositeInput, profiles: seq<Profile>, t: int)
    ensures ActiveAt(p, input, t) == ActiveAt(p, input.(profiles := profiles), t)
  {
    var other := input.(profiles := profiles);
    forall period: SchedulePeriod, s: Schedule
      ensures Converted(period, s, input) == Converted(period, s, other)
    {
      var phases := period.numberPhases.GetOr(input.numberPhases);
      assert Factor(phases, input) == Factor(phases, other);
    }
  }

  lemma CandidateIgnoresProfiles(p: Profile, input: CompositeInput, profiles: seq<Profile>, b: int)
    requires Candidate(p, input, b)
    ensures Candidate(p, input.(profiles := profiles), b)
  {
    var other := input.(profiles := profiles);
    if p.validFrom != Some(b) && p.validTo != Some(b) {
      var s :| IsStart(p, input, s) && ListsOffset(ScheduleOf(p).value, b - s);
      assert IsStart(p, other, s);
    }
  }

  lemma PointReorder(input: CompositeInput, profiles: seq<Profile>, b: int)
    requires SameMembers(input.profiles, profiles)
    requires IsPoint(Relevant(input.profiles, input), input, b)
    ensures IsPoint(Relevant(profiles, input.(profiles := profiles)), input.(profiles := profiles), b)
  {
    if b != input.now {
      var p :| p in Relevant(input.profiles, input) && Candidate(p, input, b);
      CandidateIgnoresProfiles(p, input, profiles, b);
      assert p in Relevant(profiles, input.(profiles := profiles));
    }
  }

  /** The composite schedule does not depend on the order of the profiles. */
  lemma CompositeReorder(input: CompositeInput, profiles: seq<Profile>,
                         periods: seq<CompositePeriod>, times: seq<int>)
    requires SameMembers(input.profiles, profiles) && DistinctRanks(input)
    requires IsComposite(input, periods, times)
    ensures IsComposite(input.(profiles := profiles), periods, times)
  {
    var other := input.(profiles := profiles);
    forall k | 0 <= k < |times|
      ensures IsPoint(Relevant(profiles, other), other, times[k])
      ensures periods[k].startPeriod == RoundSeconds(times[k] - other.now)
      ensures LevelOf(periods[k]) == LevelAt(other, times[k])
    {
      PointOfPeriod(input, periods, times, k);
      LevelOfStart(input, periods, times, k);
      PointReorder(input, profiles, times[k]);
      LevelReorder(input, profiles, times[k]);
    }
    forall b, k: nat | IsPoint(Relevant(profiles, other), other, b) && InForceAt(times, k, b)
      ensures LevelOf(periods[k]) == LevelAt(other, b)
    {
      assert other.(profiles := input.profiles) == input;
      PointReorder(other, input.profiles, b);
      LevelAtPoint(input, periods, times, k, b);
      LevelReorder(input, profiles, b);
    }
    CompositeShape(input, periods, times);
  }

  lemma CompositeShape(input: CompositeInput, periods: seq<CompositePeriod>, times: seq<int>)
    requires IsComposite(input, periods, times)
    ensures |periods| == |times| > 0 && times[0] == input.now && Increasing(times) && NoRepeat(periods)
  {
  }

  // ----- moving and splitting the window -----

  ghost predicate AllAnchored(input: CompositeInput) {
    forall p :: p in input.profiles && AppliesTo(p, input) ==> Anchored(p, input)
  }

  function Window(input: CompositeInput, now: int, durationS: int): CompositeInput {
    input.(now := now, durationS := durationS)
  }

  lemma {:induction false} RelevantInWindow(profiles: seq<Profile>, input: CompositeInput, now: int, durationS: int)
    ensures Relevant(profiles, Window(input, now, durationS)) == Relevant(profiles, input)
  {
    if profiles != [] {
      RelevantInWindow(profiles[1..], input, now, durationS);
    }
  }

  lemma ActiveInWindow(p: Profile, input: CompositeInput, now: int, durationS: int, t: int)
    requires Anchored(p, input)
    ensures ActiveAt(p, Window(input, now, durationS), t) == ActiveAt(p, input, t)
  {
    AnchoredStart(p, input, now, durationS, t);
    if ScheduleOf(p).Some? {
      InForceIgnoresWindow(ScheduleOf(p).value, input, now, durationS, t - ScheduleStartAt(p, input, t));
    }
  }

  /** With anchors that do not fall back to `now`, the level at an instant is the same from any window. */
  lemma LevelInWindow(input: CompositeInput, now: int, durationS: int, t: int)
    requires AllAnchored(input)
    ensures LevelAt(Window(input, now, durationS), t) == LevelAt(input, t)
  {
    RelevantInWindow(input.profiles, input, now, durationS);
    forall p | p in input.profiles && AppliesTo(p, input)
      ensures ActiveAt(p, input, t) == ActiveAt(p, Window(input, now, durationS), t)
    {
      ActiveInWindow(p, input, now, durationS, t);
    }
    LevelCongruent(input, t, Window(input, now, durationS), t);
  }

  lemma SeamlessInWindow(input: CompositeInput, now: int, durationS: int)
    requires AllAnchored(input) && AllSeamless(input)
    ensures AllSeamless(Window(input, now, durationS))
  {
    forall p | p in input.profiles && AppliesTo(p, Window(input, now, durationS))
      ensures Seamless(p, Window(input, now, durationS))
    {
      SeamlessIgnoresWindow(p, input, now, durationS);
    }
  }

  /** The periods say at each instant of the window the level of the instant, in the terms of `of`. */
  ghost predicate DenotesLevels(of: CompositeInput, end: int, periods: seq<CompositePeriod>, times: seq<int>) {
    |periods| == |times| &&
    forall k: nat, t: int :: InForceAt(times, k, t) && t < end ==> LevelOf(periods[k]) == LevelAt(of, t)
  }

  /** A composite asked for any window says, at each of its instants, the level of the instant. */
  lemma WindowDenotesLevel(input: CompositeInput, now: int, durationS: int, periods: seq<CompositePeriod>, times: seq<int>)
    requires AllAnchored(input) && AllSeamless(input)
    requires IsComposite(Window(input, now, durationS), periods, times)
    ensures DenotesLevels(input, now + durationS * 1000, periods, times)
  {
    SeamlessInWindow(input, now, durationS);
    CompositeRefines(Window(input, now, durationS), periods, times);
    forall k: nat, t: int | InForceAt(times, k, t) && t < now + durationS * 1000
      ensures LevelOf(periods[k]) == LevelAt(input, t)
    {
      LevelInWindow(input, now, durationS, t);
    }
  }

  /** Two schedules say the same at every instant that is in both their windows. */
  ghost predicate AgreeWhereBoth(
    periods: seq<CompositePeriod>, times: seq<int>, end: int, periods': seq<CompositePeriod>, times': seq<int>, end': int)
  {
    |periods| == |times| && |periods'| == |times'| &&
    forall k: nat, k': nat, t: int :: InForceAt(times, k, t) && InForceAt(times', k', t) && t < end && t < end' ==>
      LevelOf(periods[k]) == LevelOf(periods'[k'])
  }

  /**
   Composites asked for two windows agree wherever the windows overlap. So the
   schedule for `d1 + d2` seconds is the one for `d1` seconds followed by the one
   asked `d1` seconds later for `d2` seconds.
   */
  lemma WindowsAgree(input: CompositeInput,
                     now: int, durationS: int, periods: seq<CompositePeriod>, times: seq<int>,
                     now': int, durationS': int, periods': seq<CompositePeriod>, times': seq<int>)
    requires AllAnchored(input) && AllSeamless(input)
    requires IsComposite(Window(input, now, durationS), periods, times)
    requires IsComposite(Window(input, now', durationS'), periods', times')
    ensures AgreeWhereBoth(periods, times, now + durationS * 1000, periods', times', now' + durationS' * 1000)
  {
    WindowDenotesLevel(input, now, durationS, periods, times);
    WindowDenotesLevel(input, now', durationS', periods', times');
  }

  /** The limit in W that is asked for at `t` alone. */
  ghost function LimitAskedAt(ahead: CompositeInput, t: int): Option<real> {
    LimitW(LevelAt(NowInput(ahead.profiles, ahead.evseId, t, ahead.voltage, ahead.numberPhases,
                            ahead.transactionId, ahead.transactionStart), t))
  }

  /** A later question for the limit in W agrees with an earlier look-ahead. */
  lemma LookAheadAgrees(ahead: CompositeInput, periods: seq<CompositePeriod>, times: seq<int>)
    requires ahead.unit == W && ahead.localLimit == Unlimited
    requires AllAnchored(ahead) && AllSeamless(ahead) && IsComposite(ahead, periods, times)
    ensures forall k: nat, t: int :: InForceAt(times, k, t) && t < ahead.End() ==>
              LimitAskedAt(ahead, t) == LimitW(LevelOf(periods[k]))
  {
    CompositeRefines(ahead, periods, times);
    forall k: nat, t: int | InForceAt(times, k, t) && t < ahead.End()
      ensures LimitAskedAt(ahead, t) == LimitW(LevelOf(periods[k]))
    {
      assert NowInput(ahead.profiles, ahead.evseId, t, ahead.voltage, ahead.numberPhases,
                      ahead.transactionId, ahead.transactionStart) == Window(ahead, t, 1);
      LevelInWindow(ahead, t, 1, t);
    }
  }

  /** Without a local limit the answer is "no limit" exactly when no profile limits the EVSE. */
  lemma NoLimitExactly(input: CompositeInput, t: int)
    requires input.localLimit == Unlimited
    ensures LimitW(LevelAt(input, t)).None? <==>
            forall p :: p in input.profiles && AppliesTo(p, input) && IsActive(p, input, t) ==> p.purpose == OtherPurpose
  {
    forall purpose
      ensures PurposeAt(Group(input, purpose), input, t).Some? <==>
              exists p :: p in Group(input, purpose) && IsActive(p, input, t)
    {
      PurposeHasLimit(Group(input, purpose), input, t);
    }
    if LimitW(LevelAt(input, t)).None? {
      forall p | p in input.profiles && AppliesTo(p, input) && IsActive(p, input, t)
        ensures p.purpose == OtherPurpose
      {
        assert p in Group(input, p.purpose);
      }
    }
  }

  // ----- an unlisted boundary is missed -----

  /** A daily profile whose only period starts an hour after midnight. */
  const GAP_PROFILE := Profile(
    TxDefault, Recurring, Some(Daily), None, Some(1), None, false, None, None, None,
    [Schedule(Some(A), Some(0), None, [SchedulePeriod(3600, 10.0, None)])])

  /** The ten seconds from one second before midnight. */
  const GAP_INPUT := CompositeInput([GAP_PROFILE], 1, 86_399_000, 10, Finite(32.0), A, 230.0, 3, None, None)

  lemma GapGroups()
    ensures Group(GAP_INPUT, TxDefault) == [GAP_PROFILE]
    ensures Group(GAP_INPUT, Tx) == [] && Group(GAP_INPUT, StationMax) == []
    ensures Group(GAP_INPUT, ExternalConstraints) == []
  {
    assert Relevant([GAP_PROFILE], GAP_INPUT) == [GAP_PROFILE];
    assert OfPurpose([GAP_PROFILE], TxDefault) == [GAP_PROFILE];
    forall purpose | purpose != TxDefault
      ensures OfPurpose([GAP_PROFILE], purpose) == []
    {
      assert [GAP_PROFILE][1..] == [];
    }
  }

  lemma GapActive()
    ensures ActiveAt(GAP_PROFILE, GAP_INPUT, 86_399_000) == Some(SchedulePeriod(3600, 10.0, None))
    ensures ActiveAt(GAP_PROFILE, GAP_INPUT, 86_400_000) == None
  {
    var schedule := GAP_PROFILE.schedules[0];
    assert LastStarted(schedule.periods, 86_399_000) == Some(schedule.periods[0]);
    assert LastStarted(schedule.periods[..0], 0) == None;
    assert LastStarted(schedule.periods, 0) == None;
  }

  /**
   Without a period at 0 the composite keeps the 10 A of the evening past
   midnight, where the profile no longer limits anything.
   */
  lemma UnlistedBoundaryIsMissed(periods: seq<CompositePeriod>, times: seq<int>)
    requires IsComposite(GAP_INPUT, periods, times)
    ensures InForceAt(times, 0, 86_400_000) && LevelOf(periods[0]) == Level(Finite(10.0), 3)
    ensures LevelAt(GAP_INPUT, 86_400_000) == Level(Finite(32.0), 3)
    ensures !Seamless(GAP_PROFILE, GAP_INPUT)
  {
    GapGroups();
    GapActive();
    var g := [GAP_PROFILE];
    assert Wins(g, 1, GAP_INPUT, 86_399_000, 0);
    PurposeIsWinner(g, GAP_INPUT, 86_399_000, 0);
    LevelOfStart(GAP_INPUT, periods, times, 0);
    if |times| > 1 {
      PointOfPeriod(GAP_INPUT, periods, times, 1);
      StartsIncrease(GAP_INPUT, periods, times, 0, 1);
      GapHasNoPoint(times[1]);
    }
    var schedule := GAP_PROFILE.schedules[0];
    assert LastStarted(schedule.periods, 86_399_999) == Some(schedule.periods[0]);
    assert !ListsOffset(schedule, 0) && !ListsOffset(schedule, 86_400_000);
  }

  lemma GapHasNoPoint(b: int)
    requires GAP_INPUT.now < b < GAP_INPUT.End()
    ensures !IsPoint(Relevant(GAP_INPUT.profiles, GAP_INPUT), GAP_INPUT, b)
  {
    assert Relevant([GAP_PROFILE], GAP_INPUT) == [GAP_PROFILE];
    forall s | IsStart(GAP_PROFILE, GAP_INPUT, s)
      ensures !ListsOffset(GAP_PROFILE.schedules[0], b - s)
    {
      assert s == 0 || s == 86_400_000;
    }
  }
}
