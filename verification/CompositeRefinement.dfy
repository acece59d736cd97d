/**
 Why it is enough to look at the breakpoints: between two of them no profile
 changes, so the merged periods denote the pointwise limit at every
 millisecond of the window. `Seamless` is the exact condition.
 */
module CompositeRefinement {
  import opened Basics
  import opened CompositeModel

  // ----- the exact condition on one profile -----

  /** An occurrence start is itself a breakpoint: a period or the duration falls on it. */
  predicate StartIsListed(profile: Profile, schedule: Schedule) {
    || ListsOffset(schedule, 0)
    || (profile.kind == Recurring && ListsOffset(schedule, RecurrencyMs(profile)))
  }

  /** What is in force in the last millisecond before an occurrence starts. */
  function BeforeStart(profile: Profile, schedule: Schedule, input: CompositeInput): Option<SchedulePeriod> {
    if profile.kind == Recurring then InForce(schedule, input, RecurrencyMs(profile) - 1) else None
  }

  /** The schedule start does not move with the requested window. */
  predicate Anchored(profile: Profile, input: CompositeInput) {
    if profile.kind == Relative then
      input.transactionStart.Some?
    else
      profile.setAt.Some? || (ScheduleOf(profile).Some? && ScheduleOf(profile).value.startSchedule.Some?)
  }

  /**
   An occurrence start changes nothing that is not looked at: it is a
   breakpoint, or what is in force just before it is what is in force on it, or
   it can only be the start of the window.
   */
  predicate StartIsHarmless(profile: Profile, input: CompositeInput) {
    match ScheduleOf(profile)
    case None => true
    case Some(s) =>
      || StartIsListed(profile, s)
      || BeforeStart(profile, s, input) == InForce(s, input, 0)
      || (profile.kind != Recurring && !Anchored(profile, input))
  }

  /** An occurrence of the schedule starts at `b`. */
  predicate IsOccurrence(profile: Profile, input: CompositeInput, b: int) {
    if profile.kind == Recurring then (b - BaseOf(profile, input)) % RecurrencyMs(profile) == 0
    else b == ScheduleStartAt(profile, input, input.now)
  }

  /**
   The occurrence start that is inside the validity bounds on both sides, if one is:
   the first one after `validFrom`, or the last one before `validTo`, or any.
   */
  function OpenStart(profile: Profile, input: CompositeInput): int {
    var base, period := BaseOf(profile, input), RecurrencyMs(profile);
    if profile.kind != Recurring then ScheduleStartAt(profile, input, input.now)
    else if profile.validFrom.Some? then base + ((profile.validFrom.value - base) / period + 1) * period
    else if profile.validTo.Some? then base + (profile.validTo.value - 1 - base) / period * period
    else base + period
  }

  /** The profile is valid just before an occurrence start, and on it. */
  predicate CrossesStart(profile: Profile, input: CompositeInput) {
    IsValidAt(profile, OpenStart(profile, input) - 1) && IsValidAt(profile, OpenStart(profile, input))
  }

  /** No occurrence start that is not looked at can change the profile. */
  predicate Seamless(profile: Profile, input: CompositeInput) {
    StartIsHarmless(profile, input) || !CrossesStart(profile, input)
  }

  /** Between two breakpoints of the window the profile's active period does not change. */
  ghost predicate StableOver(profile: Profile, input: CompositeInput) {
    forall b, t :: input.now <= b <= t < input.End() && (forall c :: b < c <= t ==> !Candidate(profile, input, c)) ==>
      ActiveAt(profile, input, b) == ActiveAt(profile, input, t)
  }

  // ----- one profile, one millisecond -----

  lemma {:induction false} LastStartedStep(periods: seq<SchedulePeriod>, o: int)
    requires forall i :: 0 <= i < |periods| ==> periods[i].startPeriod * 1000 != o + 1
    ensures LastStarted(periods, o) == LastStarted(periods, o + 1)
  {
    if periods != [] {
      LastStartedStep(periods[..|periods| - 1], o);
    }
  }

  lemma InForceStep(schedule: Schedule, input: CompositeInput, o: int)
    requires o + 1 != 0
    requires !ListsOffset(schedule, o + 1)
    ensures InForce(schedule, input, o) == InForce(schedule, input, o + 1)
  {
    LastStartedStep(schedule.periods, o);
  }

  /** Flooring to a recurrence, one millisecond later. */
  lemma FloorStep(a: int, m: int)
    requires m == 86_400_000 || m == 604_800_000
    ensures a / m * m <= a < a / m * m + m
    ensures (a + 1) / m * m == a / m * m || (a + 1) / m * m == a / m * m + m == a + 1
  {
    if m == 86_400_000 {
    } else {
    }
  }

  lemma FloorGap(a: int, b: int, m: int)
    requires m == 86_400_000 || m == 604_800_000
    requires a <= b
    ensures a / m * m <= b / m * m
    ensures (b / m * m - a / m * m) % m == 0
  {
    if m == 86_400_000 {
    } else {
    }
  }

  lemma FloorOf(a: int, m: int)
    requires m == 86_400_000 || m == 604_800_000
    ensures a / m * m % m == 0 && (a / m + 1) * m % m == 0
    ensures a % m == 0 ==> a / m * m == a && (a - 1) / m * m == a - m
    ensures a < (a / m + 1) * m
  {
    if m == 86_400_000 {
    } else {
    }
  }

  /** The first multiple after `a` is at most any multiple after it, the last one up to `a` at least any up to it. */
  lemma NearestMultiple(a: int, d: int, m: int)
    requires m == 86_400_000 || m == 604_800_000
    requires d % m == 0
    ensures a < d ==> (a / m + 1) * m <= d
    ensures d <= a ==> d <= a / m * m <= a
  {
    if m == 86_400_000 {
    } else {
    }
  }

  lemma OpenStartIsOccurrence(profile: Profile, input: CompositeInput)
    ensures IsOccurrence(profile, input, OpenStart(profile, input))
  {
    if profile.kind == Recurring {
      var base, period := BaseOf(profile, input), RecurrencyMs(profile);
      if profile.validFrom.Some? {
        FloorOf(profile.validFrom.value - base, period);
      } else if profile.validTo.Some? {
        FloorOf(profile.validTo.value - 1 - base, period);
      }
    }
  }

  /** The check on one occurrence start decides whether there is any such start. */
  lemma CrossesStartExactly(profile: Profile, input: CompositeInput)
    ensures CrossesStart(profile, input) <==>
            exists b :: IsOccurrence(profile, input, b) && IsValidAt(profile, b - 1) && IsValidAt(profile, b)
  {
    OpenStartIsOccurrence(profile, input);
    forall b | IsOccurrence(profile, input, b) && IsValidAt(profile, b - 1) && IsValidAt(profile, b)
      ensures CrossesStart(profile, input)
    {
      ValidStartCrosses(profile, input, b);
    }
  }

  lemma ValidStartCrosses(profile: Profile, input: CompositeInput, b: int)
    requires IsOccurrence(profile, input, b) && IsValidAt(profile, b - 1) && IsValidAt(profile, b)
    ensures CrossesStart(profile, input)
  {
    if profile.kind == Recurring {
      var base, period := BaseOf(profile, input), RecurrencyMs(profile);
      var from, to := profile.validFrom.GetOr(0) - base, profile.validTo.GetOr(0) - 1 - base;
      FloorOf(from, period);
      NearestMultiple(from, b - base, period);
      NearestMultiple(to, b - base, period);
    }
  }

  /** The occurrence start one millisecond later: the same one, or the next on its boundary. */
  lemma StartStep(profile: Profile, input: CompositeInput, t: int)
    requires profile.kind == Recurring
    ensures var s := ScheduleStartAt(profile, input, t);
            var s' := ScheduleStartAt(profile, input, t + 1);
            var period := RecurrencyMs(profile);
            && s <= t < s + period
            && (s' == s || (s' == s + period == t + 1))
  {
    FloorStep(t - BaseOf(profile, input), RecurrencyMs(profile));
  }

  /** Occurrences inside the window are whole recurrences after the first. */
  lemma StartInWindow(profile: Profile, input: CompositeInput, t: int)
    requires input.now <= t < input.End()
    ensures IsStart(profile, input, ScheduleStartAt(profile, input, t))
  {
    if profile.kind == Recurring {
      FloorGap(input.now - BaseOf(profile, input), t - BaseOf(profile, input), RecurrencyMs(profile));
      FloorStep(t - BaseOf(profile, input), RecurrencyMs(profile));
    }
  }

  /** A schedule that starts an occurrence while the profile is valid crosses that start. */
  lemma StartIsCrossed(profile: Profile, input: CompositeInput, t: int)
    requires ScheduleStartAt(profile, input, t + 1) == t + 1
    ensures IsValidAt(profile, t) && IsValidAt(profile, t + 1) ==> CrossesStart(profile, input)
  {
    if IsValidAt(profile, t) && IsValidAt(profile, t + 1) {
      if profile.kind == Recurring {
        FloorOf(t + 1 - BaseOf(profile, input), RecurrencyMs(profile));
      }
      ValidStartCrosses(profile, input, t + 1);
    }
  }

  /** One millisecond that is not a breakpoint changes nothing. */
  lemma ActiveStep(profile: Profile, input: CompositeInput, t: int)
    requires input.now <= t && t + 1 < input.End()
    requires !Candidate(profile, input, t + 1)
    requires Seamless(profile, input)
    ensures ActiveAt(profile, input, t) == ActiveAt(profile, input, t + 1)
  {
    assert IsValidAt(profile, t) == IsValidAt(profile, t + 1);
    if ScheduleOf(profile).Some? {
      var schedule := ScheduleOf(profile).value;
      var s, s' := ScheduleStartAt(profile, input, t), ScheduleStartAt(profile, input, t + 1);
      StartInWindow(profile, input, t);
      StartInWindow(profile, input, t + 1);
      assert !ListsOffset(schedule, t + 1 - s);
      assert !ListsOffset(schedule, t + 1 - s');
      if profile.kind == Recurring {
        StartStep(profile, input, t);
      }
      if s == s' && t + 1 != s {
        InForceStep(schedule, input, t - s);
      } else {
        StartIsCrossed(profile, input, t);
      }
    }
  }

  lemma {:induction false} ActiveBetween(profile: Profile, input: CompositeInput, b: int, t: int)
    requires input.now <= b <= t < input.End()
    requires forall c :: b < c <= t ==> !Candidate(profile, input, c)
    requires Seamless(profile, input)
    ensures ActiveAt(profile, input, b) == ActiveAt(profile, input, t)
    decreases t - b
  {
    if b < t {
      ActiveBetween(profile, input, b, t - 1);
      ActiveStep(profile, input, t - 1);
    }
  }

  // ----- the condition is exact -----

  /** The window of one second that opens a millisecond before the occurrence start at `boundary`. */
  function WindowBefore(input: CompositeInput, boundary: int): CompositeInput {
    input.(now := boundary - 1, durationS := 1)
  }

  lemma AnchoredStart(profile: Profile, input: CompositeInput, now: int, durationS: int, t: int)
    requires Anchored(profile, input)
    ensures ScheduleStartAt(profile, input.(now := now, durationS := durationS), t) == ScheduleStartAt(profile, input, t)
    ensures profile.kind == Relative || BaseOf(profile, input.(now := now, durationS := durationS)) == BaseOf(profile, input)
  {
  }

  /** In the window before an occurrence start one occurrence starts on it, or one recurrence before it. */
  lemma StartsAtBoundary(profile: Profile, input: CompositeInput, b: int, s: int)
    requires Anchored(profile, input) && IsOccurrence(profile, input, b)
    requires IsStart(profile, WindowBefore(input, b), s)
    ensures b - s == 0 || (profile.kind == Recurring && b - s == RecurrencyMs(profile))
  {
    AnchoredStart(profile, input, b - 1, 1, b - 1);
    if profile.kind == Recurring {
      var base, period := BaseOf(profile, input), RecurrencyMs(profile);
      FloorOf(b - base, period);
      if s != b - period {
        StartIsPeriod(s - (b - period), period);
      }
    }
  }

  /** The window before a harmful start looks at no offset on it. */
  lemma BoundaryUnseen(profile: Profile, input: CompositeInput)
    requires Anchored(profile, input) && !Seamless(profile, input)
    ensures var b := OpenStart(profile, input); !Candidate(profile, WindowBefore(input, b), b)
  {
    var b := OpenStart(profile, input);
    OpenStartIsOccurrence(profile, input);
    forall s | IsStart(profile, WindowBefore(input, b), s)
      ensures !ListsOffset(ScheduleOf(profile).value, b - s)
    {
      StartsAtBoundary(profile, input, b, s);
    }
  }

  /** What is in force around a start that is crossed. */
  lemma AroundStart(profile: Profile, input: CompositeInput)
    requires Anchored(profile, input) && CrossesStart(profile, input) && ScheduleOf(profile).Some?
    ensures var b := OpenStart(profile, input);
            var window := WindowBefore(input, b);
            && ActiveAt(profile, window, b - 1) == BeforeStart(profile, ScheduleOf(profile).value, input)
            && ActiveAt(profile, window, b) == InForce(ScheduleOf(profile).value, input, 0)
  {
    var b, schedule := OpenStart(profile, input), ScheduleOf(profile).value;
    OpenStartIsOccurrence(profile, input);
    AnchoredStart(profile, input, b - 1, 1, b - 1);
    AnchoredStart(profile, input, b - 1, 1, b);
    if profile.kind == Recurring {
      FloorOf(b - BaseOf(profile, input), RecurrencyMs(profile));
    }
    InForceIgnoresWindow(schedule, input, b - 1, 1, 0);
    InForceIgnoresWindow(schedule, input, b - 1, 1, RecurrencyMs(profile) - 1);
  }

  lemma NotSeamlessNotStable(profile: Profile, input: CompositeInput)
    requires Anchored(profile, input) && !Seamless(profile, input)
    ensures !StableOver(profile, WindowBefore(input, OpenStart(profile, input)))
  {
    BoundaryUnseen(profile, input);
    AroundStart(profile, input);
    var b := OpenStart(profile, input);
    var window := WindowBefore(input, b);
    assert window.now <= b - 1 <= b < window.End();
  }

  lemma StartIsPeriod(d: int, m: int)
    requires m == 86_400_000 || m == 604_800_000
    requires 0 < d < m + 999 && d % m == 0
    ensures d == m
  {
    if m == 86_400_000 {
    } else {
    }
  }

  lemma InForceIgnoresWindow(schedule: Schedule, input: CompositeInput, now: int, durationS: int, o: int)
    ensures InForce(schedule, input.(now := now, durationS := durationS), o) == InForce(schedule, input, o)
  {
    var window := input.(now := now, durationS := durationS);
    forall p: SchedulePeriod
      ensures Converted(p, schedule, window) == Converted(p, schedule, input)
    {
      var phases := p.numberPhases.GetOr(input.numberPhases);
      assert Factor(phases, window) == Factor(phases, input);
    }
  }

  /** Being seamless does not depend on the window. */
  lemma SeamlessIgnoresWindow(profile: Profile, input: CompositeInput, now: int, durationS: int)
    requires Anchored(profile, input)
    ensures Seamless(profile, input.(now := now, durationS := durationS)) == Seamless(profile, input)
  {
    AnchoredStart(profile, input, now, durationS, now);
    AnchoredStart(profile, input, now, durationS, input.now);
    if ScheduleOf(profile).Some? {
      InForceIgnoresWindow(ScheduleOf(profile).value, input, now, durationS, 0);
      InForceIgnoresWindow(ScheduleOf(profile).value, input, now, durationS, RecurrencyMs(profile) - 1);
    }
  }

  /** For an anchored profile, `Seamless` holds exactly when no window ever has a change between two breakpoints. */
  lemma SeamlessIsExact(profile: Profile, input: CompositeInput)
    requires Anchored(profile, input)
    ensures Seamless(profile, input) <==>
            forall now, durationS :: StableOver(profile, input.(now := now, durationS := durationS))
  {
    if Seamless(profile, input) {
      forall now, durationS
        ensures StableOver(profile, input.(now := now, durationS := durationS))
      {
        var window := input.(now := now, durationS := durationS);
        SeamlessIgnoresWindow(profile, input, now, durationS);
        forall b, t | window.now <= b <= t < window.End() && forall c :: b < c <= t ==> !Candidate(profile, window, c)
          ensures ActiveAt(profile, window, b) == ActiveAt(profile, window, t)
        {
          ActiveBetween(profile, window, b, t);
        }
      }
    } else {
      NotSeamlessNotStable(profile, input);
      var b := OpenStart(profile, input);
      assert WindowBefore(input, b) == input.(now := b - 1, durationS := 1);
    }
  }

  /** A start of 0 or more on every period, and one on 0 when the schedule recurs, is enough. */
  lemma StartsAtZeroIsSeamless(profile: Profile, input: CompositeInput)
    requires ScheduleOf(profile).Some?
    requires forall i :: 0 <= i < |ScheduleOf(profile).value.periods| ==>
               ScheduleOf(profile).value.periods[i].startPeriod >= 0
    requires profile.kind == Recurring && ScheduleOf(profile).value.periods != [] ==>
               exists i :: 0 <= i < |ScheduleOf(profile).value.periods| && ScheduleOf(profile).value.periods[i].startPeriod == 0
    ensures Seamless(profile, input)
  {
    var s := ScheduleOf(profile).value;
    if !ListsOffset(s, 0) {
      NoneStarted(s.periods);
      assert s.periods == [] || profile.kind != Recurring;
    }
  }

  lemma {:induction false} NoneStarted(periods: seq<SchedulePeriod>)
    requires forall i :: 0 <= i < |periods| ==> periods[i].startPeriod > 0
    ensures LastStarted(periods, 0).None?
  {
    if periods != [] {
      NoneStarted(periods[..|periods| - 1]);
    }
  }

  // ----- stacking -----

  lemma WinsUnique(group: seq<Profile>, n: nat, input: CompositeInput, t: int, i: nat, j: nat)
    requires n <= |group| && Wins(group, n, input, t, i) && Wins(group, n, input, t, j)
    ensures i == j
  {
  }

  /** `PurposeAt` is the winner's period. */
  lemma PurposeIsWinner(group: seq<Profile>, input: CompositeInput, t: int, i: nat)
    requires Wins(group, |group|, input, t, i)
    ensures PurposeAt(group, input, t) == ActiveAt(group[i], input, t)
  {
    var j: nat :| Wins(group, |group|, input, t, j) && PurposeAt(group, input, t) == ActiveAt(group[j], input, t);
    WinsUnique(group, |group|, input, t, i, j);
  }

  /** The earlier of the best so far and the next profile, when one of them outranks the other. */
  lemma ExtendWinner(group: seq<Profile>, n: nat, input: CompositeInput, t: int, i: nat)
    requires n < |group| && Wins(group, n, input, t, i)
    ensures var wins := IsActive(group[n], input, t) && Outranks(group[n], group[i]);
            Wins(group, n + 1, input, t, if wins then n else i)
  {
  }

  /** There is a winner as soon as one profile is active. */
  lemma {:induction false} WinnerExists(group: seq<Profile>, n: nat, input: CompositeInput, t: int)
    requires n <= |group|
    requires exists j :: 0 <= j < n && IsActive(group[j], input, t)
    ensures exists i: nat :: Wins(group, n, input, t, i)
  {
    if j :| 0 <= j < n - 1 && IsActive(group[j], input, t) {
      WinnerExists(group, n - 1, input, t);
      var i: nat :| Wins(group, n - 1, input, t, i);
      ExtendWinner(group, n - 1, input, t, i);
    } else {
      assert Wins(group, n, input, t, n - 1);
    }
  }

  /** A purpose has a limit exactly when one of its profiles is active. */
  lemma PurposeHasLimit(group: seq<Profile>, input: CompositeInput, t: int)
    ensures PurposeAt(group, input, t).Some? <==> exists p :: p in group && IsActive(p, input, t)
  {
    if exists p :: p in group && IsActive(p, input, t) {
      var p :| p in group && IsActive(p, input, t);
      var j :| 0 <= j < |group| && group[j] == p;
      WinnerExists(group, |group|, input, t);
      var i: nat :| Wins(group, |group|, input, t, i);
      PurposeIsWinner(group, input, t, i);
    } else if exists i: nat :: Wins(group, |group|, input, t, i) {
      var i: nat :| Wins(group, |group|, input, t, i);
      assert group[i] in group;
    }
  }

  /** The purpose limit depends only on what its profiles say. */
  lemma PurposeCongruent(group: seq<Profile>, a: CompositeInput, t: int, b: CompositeInput, u: int)
    requires forall p :: p in group ==> ActiveAt(p, a, t) == ActiveAt(p, b, u)
    ensures PurposeAt(group, a, t) == PurposeAt(group, b, u)
  {
    forall i: nat
      ensures Wins(group, |group|, a, t, i) <==> Wins(group, |group|, b, u, i)
    {
      assert forall j :: 0 <= j < |group| ==> IsActive(group[j], a, t) == IsActive(group[j], b, u);
    }
    if exists i: nat :: Wins(group, |group|, a, t, i) {
      var i: nat :| Wins(group, |group|, a, t, i);
      PurposeIsWinner(group, a, t, i);
      PurposeIsWinner(group, b, u, i);
    }
  }

  ghost function WinnerOf(group: seq<Profile>, input: CompositeInput, t: int, p: Profile): (i: nat)
    requires p in group && IsActive(p, input, t)
    ensures Wins(group, |group|, input, t, i)
  {
    WinnerExists(group, |group|, input, t);
    var i: nat :| Wins(group, |group|, input, t, i);
    i
  }

  lemma WinnerOutranks(group: seq<Profile>, input: CompositeInput, t: int, i: nat, q: Profile)
    requires Wins(group, |group|, input, t, i)
    requires q in group && IsActive(q, input, t) && q != group[i]
    ensures Outranks(group[i], q) || SameRank(group[i], q)
  {
  }

  /** Two lists of the same profiles give the same limit when no two of them have the same rank. */
  lemma PurposeReorder(g: seq<Profile>, h: seq<Profile>, input: CompositeInput, t: int)
    requires forall p :: p in g <==> p in h
    requires forall p, q :: p in g && q in g && p != q ==> !SameRank(p, q)
    ensures PurposeAt(g, input, t) == PurposeAt(h, input, t)
  {
    PurposeHasLimit(g, input, t);
    PurposeHasLimit(h, input, t);
    if p :| p in g && IsActive(p, input, t) {
      var i, j := WinnerOf(g, input, t, p), WinnerOf(h, input, t, p);
      assert g[i] in h && h[j] in g;
      if g[i] != h[j] {
        WinnerOutranks(g, input, t, i, h[j]);
        WinnerOutranks(h, input, t, j, g[i]);
      }
      PurposeIsWinner(g, input, t, i);
      PurposeIsWinner(h, input, t, j);
    }
  }

  // ----- the composite level -----

  lemma LevelCongruent(a: CompositeInput, t: int, b: CompositeInput, u: int)
    requires a.localLimit == b.localLimit && a.numberPhases == b.numberPhases
    requires forall purpose :: Group(a, purpose) == Group(b, purpose)
    requires forall p :: p in a.profiles && AppliesTo(p, a) ==> ActiveAt(p, a, t) == ActiveAt(p, b, u)
    ensures LevelAt(a, t) == LevelAt(b, u)
  {
    PurposeCongruent(Group(a, StationMax), a, t, b, u);
    PurposeCongruent(Group(a, ExternalConstraints), a, t, b, u);
    PurposeCongruent(Group(a, Tx), a, t, b, u);
    PurposeCongruent(Group(a, TxDefault), a, t, b, u);
  }

  ghost predicate AllSeamless(input: CompositeInput) {
    forall p :: p in input.profiles && AppliesTo(p, input) ==> Seamless(p, input)
  }

  /** The instant `t` is not a breakpoint of any profile: the level does not move onto it. */
  lemma LevelStep(input: CompositeInput, t: int)
    requires AllSeamless(input)
    requires input.now <= t && t + 1 < input.End()
    requires !IsPoint(Relevant(input.profiles, input), input, t + 1)
    ensures LevelAt(input, t) == LevelAt(input, t + 1)
  {
    forall p | p in input.profiles && AppliesTo(p, input)
      ensures ActiveAt(p, input, t) == ActiveAt(p, input, t + 1)
    {
      assert p in Relevant(input.profiles, input);
      ActiveStep(p, input, t);
    }
    LevelCongruent(input, t, input, t + 1);
  }

  lemma PeriodAfterNow(input: CompositeInput, periods: seq<CompositePeriod>, times: seq<int>, k: nat)
    requires IsComposite(input, periods, times) && k < |times|
    ensures input.now <= times[k]
  {
  }

  lemma LevelAtPoint(input: CompositeInput, periods: seq<CompositePeriod>, times: seq<int>, k: nat, t: int)
    requires IsComposite(input, periods, times)
    requires InForceAt(times, k, t) && IsPoint(Relevant(input.profiles, input), input, t)
    ensures LevelOf(periods[k]) == LevelAt(input, t)
  {
  }

  lemma LevelOffPoint(input: CompositeInput, period: CompositePeriod, t: int)
    requires AllSeamless(input)
    requires input.now < t < input.End()
    requires !IsPoint(Relevant(input.profiles, input), input, t)
    requires LevelOf(period) == LevelAt(input, t - 1)
    ensures LevelOf(period) == LevelAt(input, t)
  {
    LevelStep(input, t - 1);
  }

  lemma StepRefines(input: CompositeInput, periods: seq<CompositePeriod>, times: seq<int>, k: nat, t: int)
    requires IsComposite(input, periods, times) && AllSeamless(input)
    requires InForceAt(times, k, t) && times[k] < t < input.End()
    requires LevelOf(periods[k]) == LevelAt(input, t - 1)
    ensures LevelOf(periods[k]) == LevelAt(input, t)
  {
    PeriodAfterNow(input, periods, times, k);
    if IsPoint(Relevant(input.profiles, input), input, t) {
      LevelAtPoint(input, periods, times, k, t);
    } else {
      LevelOffPoint(input, periods[k], t);
    }
  }

  lemma {:induction false} CompositeRefinesAt(
    input: CompositeInput, periods: seq<CompositePeriod>, times: seq<int>, k: nat, t: int)
    requires IsComposite(input, periods, times) && AllSeamless(input)
    requires InForceAt(times, k, t) && t < input.End()
    ensures LevelOf(periods[k]) == LevelAt(input, t)
    decreases t - times[k]
  {
    if times[k] < t {
      assert InForceAt(times, k, t - 1);
      CompositeRefinesAt(input, periods, times, k, t - 1);
      StepRefines(input, periods, times, k, t);
    }
  }

  /**
   Refinement: at every instant of the window the period in force carries
   exactly the pointwise level.
   */
  lemma CompositeRefines(input: CompositeInput, periods: seq<CompositePeriod>, times: seq<int>)
    requires IsComposite(input, periods, times) && AllSeamless(input)
    ensures Denotes(input, periods, times)
  {
    forall k: nat, t: int | InForceAt(times, k, t) && t < input.End()
      ensures LevelOf(periods[k]) == LevelAt(input, t)
    {
      CompositeRefinesAt(input, periods, times, k, t);
    }
  }
}
