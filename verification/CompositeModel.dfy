/**
 Charging profiles and what they mean, instant by instant
 (packages/css/src/composite-schedule.ts). Times are integer milliseconds,
 period offsets and durations are integer seconds, limits are reals.
 `LevelAt` is the specification of the composite schedule: the limit and the
 phases in force at one instant.
 */
module CompositeModel {
  import opened Basics
  import opened Sorting

  datatype RateUnit = A | W
  datatype Kind = Absolute | Recurring | Relative | Dynamic
  datatype Recurrency = Daily | Weekly
  datatype Purpose = StationMax | ExternalConstraints | TxDefault | Tx | OtherPurpose

  /** A limit that may be absent: `Unlimited` is the source's positive infinity. */
  datatype Limit = Finite(amount: real) | Unlimited

  type Voltage = v: real | v > 0.0 witness 1.0

  datatype SchedulePeriod = SchedulePeriod(startPeriod: int, limit: real, numberPhases: Option<int>)

  datatype Schedule = Schedule(
    rateUnit: Option<RateUnit>,
    startSchedule: Option<int>,
    duration: Option<int>,
    periods: seq<SchedulePeriod>)

  /** A stored profile; an absent or unparsable time is `None`. */
  datatype Profile = Profile(
    purpose: Purpose,
    kind: Kind,
    recurrency: Option<Recurrency>,
    stackLevel: Option<int>,
    evseId: Option<int>,
    transactionId: Option<string>,
    invalidated: bool,
    setAt: Option<int>,
    validFrom: Option<int>,
    validTo: Option<int>,
    schedules: seq<Schedule>)

  datatype CompositeInput = CompositeInput(
    profiles: seq<Profile>,
    evseId: int,
    now: int,
    durationS: int,
    localLimit: Limit,
    unit: RateUnit,
    voltage: Voltage,
    numberPhases: int,
    transactionId: Option<string>,
    transactionStart: Option<int>)
  {
    /** End (exclusive) of the requested window. */
    function End(): int { now + durationS * 1000 }
  }

  datatype CompositePeriod = CompositePeriod(startPeriod: int, limit: Limit, numberPhases: int)

  /** What a composite period says: a limit and a number of phases. */
  datatype Level = Level(limit: Limit, numberPhases: int)

  // ----- anchors and validity -----

  function ScheduleOf(profile: Profile): Option<Schedule> {
    if |profile.schedules| > 0 then Some(profile.schedules[0]) else None
  }

  function RecurrencyMs(profile: Profile): (ms: int)
    ensures ms > 0 && ms % 1000 == 0
  {
    match profile.recurrency
    case Some(Weekly) => 604_800_000
    case _ => 86_400_000
  }

  /** The anchor of an Absolute, Dynamic or Recurring schedule. */
  function BaseOf(profile: Profile, input: CompositeInput): int {
    var start := match ScheduleOf(profile)
      case Some(s) => s.startSchedule
      case None => None;
    start.OrElse(profile.setAt).GetOr(input.now)
  }

  /** Start of the schedule occurrence that covers `t`. */
  function ScheduleStartAt(profile: Profile, input: CompositeInput, t: int): int {
    if profile.kind == Relative then
      input.transactionStart.GetOr(input.now)
    else
      var base := BaseOf(profile, input);
      if profile.kind == Recurring then
        var period := RecurrencyMs(profile);
        base + (t - base) / period * period
      else
        base
  }

  predicate IsValidAt(profile: Profile, t: int) {
    && (profile.validFrom.Some? ==> profile.validFrom.value <= t)
    && (profile.validTo.Some? ==> t < profile.validTo.value)
  }

  predicate AppliesTo(profile: Profile, input: CompositeInput) {
    var profileEvse := profile.evseId.GetOr(0);
    && !profile.invalidated
    && if input.evseId == 0 then
         profileEvse == 0
       else
         && (profileEvse == 0 || profileEvse == input.evseId)
         && (profile.purpose == Tx ==>
               && input.transactionId.Some?
               && (profile.transactionId.None? || profile.transactionId == input.transactionId))
  }

  // ----- units -----

  /** `Math.round`: halves go up. */
  function Round(x: real): int {
    (x + 0.5).Floor
  }

  function Factor(phases: int, input: CompositeInput): (factor: real)
    ensures factor > 0.0
  {
    var n := if phases > 1 then phases else 1;
    assert n as real >= 1.0;
    input.voltage * n as real
  }

  /** A limit in the requested unit (W = A x voltage x phases; amperes to one decimal). */
  function InUnit(limit: real, from: Option<RateUnit>, phases: int, input: CompositeInput): real {
    if from.None? || from.value == input.unit then
      limit
    else if input.unit == W then
      limit * Factor(phases, input)
    else
      Round(limit / Factor(phases, input) * 10.0) as real / 10.0
  }

  // ----- one profile at one instant -----

  /** The last listed period that starts at or before `offsetMs`. */
  function LastStarted(periods: seq<SchedulePeriod>, offsetMs: int): Option<SchedulePeriod> {
    if periods == [] then None
    else
      var last := periods[|periods| - 1];
      if last.startPeriod * 1000 <= offsetMs then Some(last)
      else LastStarted(periods[..|periods| - 1], offsetMs)
  }

  function Converted(period: SchedulePeriod, schedule: Schedule, input: CompositeInput): SchedulePeriod {
    period.(limit := InUnit(period.limit, schedule.rateUnit,
                            period.numberPhases.GetOr(input.numberPhases), input))
  }

  /** The period in force `offsetMs` after the start of a schedule occurrence. */
  function InForce(schedule: Schedule, input: CompositeInput, offsetMs: int): Option<SchedulePeriod> {
    if offsetMs < 0 then None
    else if schedule.duration.Some? && offsetMs >= schedule.duration.value * 1000 then None
    else match LastStarted(schedule.periods, offsetMs)
      case None => None
      case Some(p) => Some(Converted(p, schedule, input))
  }

  /** The period of a profile in force at `t`, in the requested unit. */
  function ActiveAt(profile: Profile, input: CompositeInput, t: int): Option<SchedulePeriod> {
    if !IsValidAt(profile, t) then None
    else match ScheduleOf(profile)
      case None => None
      case Some(s) => InForce(s, input, t - ScheduleStartAt(profile, input, t))
  }

  // ----- stacking -----

  function Stack(profile: Profile): int {
    profile.stackLevel.GetOr(0)
  }

  predicate Specific(profile: Profile) {
    profile.evseId.GetOr(0) != 0
  }

  predicate SameRank(p: Profile, q: Profile) {
    Stack(p) == Stack(q) && Specific(p) == Specific(q)
  }

  /** `p` is strictly above `q`: higher stack level, then EVSE-specific before EVSE 0. */
  predicate Outranks(p: Profile, q: Profile) {
    Stack(p) > Stack(q) || (Stack(p) == Stack(q) && Specific(p) && !Specific(q))
  }

  predicate IsActive(profile: Profile, input: CompositeInput, t: int) {
    ActiveAt(profile, input, t).Some?
  }

  /** Among the first `n` profiles, `i` is the active one of highest rank, the earliest on a tie. */
  ghost predicate Wins(group: seq<Profile>, n: nat, input: CompositeInput, t: int, i: nat)
    requires n <= |group|
  {
    && i < n
    && IsActive(group[i], input, t)
    && forall j :: 0 <= j < n && j != i && IsActive(group[j], input, t) ==>
         Outranks(group[i], group[j]) || (SameRank(group[i], group[j]) && i < j)
  }

  /** The limit of one purpose at `t`: the period of the winner, or none. */
  ghost function PurposeAt(group: seq<Profile>, input: CompositeInput, t: int): Option<SchedulePeriod> {
    if exists i: nat :: Wins(group, |group|, input, t, i) then
      var i: nat :| Wins(group, |group|, input, t, i);
      ActiveAt(group[i], input, t)
    else
      None
  }

  // ----- the composite at one instant -----

  function Relevant(profiles: seq<Profile>, input: CompositeInput): (r: seq<Profile>)
    ensures forall p :: p in r <==> p in profiles && AppliesTo(p, input)
  {
    if profiles == [] then []
    else (if AppliesTo(profiles[0], input) then [profiles[0]] else []) + Relevant(profiles[1..], input)
  }

  function OfPurpose(profiles: seq<Profile>, purpose: Purpose): (r: seq<Profile>)
    ensures forall p :: p in r <==> p in profiles && p.purpose == purpose
  {
    if profiles == [] then []
    else (if profiles[0].purpose == purpose then [profiles[0]] else []) + OfPurpose(profiles[1..], purpose)
  }

  function Group(input: CompositeInput, purpose: Purpose): (r: seq<Profile>)
    ensures forall p :: p in r <==> p in input.profiles && AppliesTo(p, input) && p.purpose == purpose
  {
    OfPurpose(Relevant(input.profiles, input), purpose)
  }

  predicate Below(x: real, limit: Limit) {
    limit.Unlimited? || x < limit.amount
  }

  predicate AtMost(x: Limit, y: Limit) {
    y.Unlimited? || (x.Finite? && x.amount <= y.amount)
  }

  function Cap(limit: Limit, period: Option<SchedulePeriod>): Limit {
    if period.Some? && Below(period.value.limit, limit) then Finite(period.value.limit) else limit
  }

  /** The transaction limit at `t`: a TxProfile replaces the TxDefaultProfile. */
  ghost function TransactionAt(input: CompositeInput, t: int): Option<SchedulePeriod> {
    PurposeAt(Group(input, Tx), input, t).OrElse(PurposeAt(Group(input, TxDefault), input, t))
  }

  /** The composite limit and phases in force at instant `t`. */
  ghost function LevelAt(input: CompositeInput, t: int): Level {
    var station := PurposeAt(Group(input, StationMax), input, t);
    var external := PurposeAt(Group(input, ExternalConstraints), input, t);
    var transaction := TransactionAt(input, t);
    Level(
      Cap(Cap(Cap(input.localLimit, station), external), transaction),
      if transaction.Some? then transaction.value.numberPhases.GetOr(input.numberPhases)
      else input.numberPhases)
  }

  // ----- the instants where a profile may change -----

  /** An offset listed by the schedule: a period start or the duration. */
  predicate ListsOffset(schedule: Schedule, offsetMs: int) {
    || (exists i :: 0 <= i < |schedule.periods| && schedule.periods[i].startPeriod * 1000 == offsetMs)
    || (schedule.duration.Some? && schedule.duration.value * 1000 == offsetMs)
  }

  /** `s` starts an occurrence of the profile's schedule that the window looks at. */
  predicate IsStart(profile: Profile, input: CompositeInput, s: int) {
    var first := ScheduleStartAt(profile, input, input.now);
    || s == first
    || (profile.kind == Recurring && first < s < input.End() && (s - first) % RecurrencyMs(profile) == 0)
  }

  /** A time at which the profile is looked at, if it falls in the window. */
  ghost predicate Candidate(profile: Profile, input: CompositeInput, b: int) {
    || profile.validFrom == Some(b)
    || profile.validTo == Some(b)
    || (ScheduleOf(profile).Some? &&
        exists s :: IsStart(profile, input, s) && ListsOffset(ScheduleOf(profile).value, b - s))
  }

  ghost predicate IsPoint(profiles: seq<Profile>, input: CompositeInput, b: int) {
    || b == input.now
    || (input.now < b < input.End() && exists p :: p in profiles && Candidate(p, input, b))
  }

  // ----- the composite over a window -----

  function LevelOf(period: CompositePeriod): Level {
    Level(period.limit, period.numberPhases)
  }

  /** No two adjacent periods say the same. */
  ghost predicate NoRepeat(periods: seq<CompositePeriod>) {
    forall j, k :: 0 <= j < k < |periods| && k == j + 1 ==> LevelOf(periods[j]) != LevelOf(periods[k])
  }

  /** `Math.round` of milliseconds to seconds. */
  function RoundSeconds(ms: int): int {
    (ms + 500) / 1000
  }

  /** Period `k` is the last one that starts at or before `t`. */
  predicate InForceAt(times: seq<int>, k: nat, t: int) {
    k < |times| && times[k] <= t && (k + 1 < |times| ==> t < times[k + 1])
  }

  /** `periods` is the composite schedule of `input`; `times` are the exact instants its periods start. */
  ghost predicate IsComposite(input: CompositeInput, periods: seq<CompositePeriod>, times: seq<int>) {
    && |periods| == |times| > 0
    && times[0] == input.now
    && Increasing(times)
    && (forall k :: 0 <= k < |times| ==>
          && IsPoint(Relevant(input.profiles, input), input, times[k])
          && periods[k].startPeriod == RoundSeconds(times[k] - input.now)
          && LevelOf(periods[k]) == LevelAt(input, times[k]))
    && NoRepeat(periods)
    && (forall b, k: nat :: IsPoint(Relevant(input.profiles, input), input, b) && InForceAt(times, k, b) ==>
          LevelOf(periods[k]) == LevelAt(input, b))
  }

  /** `periods` is the composite schedule of `input`. */
  ghost predicate IsScheduleOf(input: CompositeInput, periods: seq<CompositePeriod>) {
    exists times :: IsComposite(input, periods, times)
  }

  /** At every instant of the window the period in force carries exactly the level of the instant. */
  ghost predicate Denotes(input: CompositeInput, periods: seq<CompositePeriod>, times: seq<int>) {
    |periods| == |times| &&
    forall k: nat, t: int :: InForceAt(times, k, t) && t < input.End() ==> LevelOf(periods[k]) == LevelAt(input, t)
  }
}
