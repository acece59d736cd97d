/**
 Clock-aligned meter values of one station (packages/css/src/clock-aligned-scheduler.ts):
 once an interval, at a fixed offset from the clock's boundaries, instants being
 integer milliseconds.
 */
module ClockAlignedModel {
  import opened RandomDraw

  /** When the station fires next and its offset in the interval; 0 is "not set yet". */
  datatype Station = Station(nextFireMs: int, jitterMs: int)

  const REGISTERED := Station(0, 0)

  /** What a tick reads: the clock, whether the station is connected, its interval and a random draw. */
  datatype Tick = Tick(now: int, connected: bool, intervalSecs: int, draw: Random)

  /** `Math.ceil(now / interval) * interval`: the boundary at or after `now`. */
  function NextBoundary(now: int, interval: int): (boundary: int)
    requires interval > 0
    ensures now <= boundary < now + interval && boundary % interval == 0
  {
    var k := -((-now) / interval);
    BoundaryFacts(now, interval, k);
    k * interval
  }

  lemma BoundaryFacts(now: int, interval: int, k: int)
    requires interval > 0 && k == -((-now) / interval)
    ensures now <= k * interval < now + interval && k * interval % interval == 0
  {
    var q := (-now) / interval;
    assert -now == q * interval + (-now) % interval;
    assert k * interval == -(q * interval);
    MultipleIsAligned(k, interval);
  }

  lemma MultipleIsAligned(k: int, interval: int)
    requires interval > 0
    ensures k * interval % interval == 0
  {
    SameRemainder(k * interval, interval, k, 0);
  }

  /** A quotient and a remainder in range are the quotient and the remainder. */
  lemma SameRemainder(n: int, interval: int, q: int, r: int)
    requires interval > 0 && n == q * interval + r && 0 <= r < interval
    ensures n % interval == r && n / interval == q
  {
    var d := n / interval - q;
    assert d * interval == r - n % interval;
    Multiple(d, interval);
  }

  lemma Multiple(d: int, interval: int)
    requires interval > 0
    ensures d >= 1 ==> d * interval >= interval
    ensures d <= 0 ==> d * interval <= 0
    ensures d <= -1 ==> d * interval <= -interval
  {
  }

  /** The offset, drawn once, over nine tenths of the interval. */
  function SettledJitter(station: Station, interval: int, draw: Random): int
    requires interval > 0
  {
    if station.jitterMs == 0 then (draw * interval as real * 0.9).Floor else station.jitterMs
  }

  /** The station after a tick, and whether it fires. */
  function AfterTick(station: Station, tick: Tick): (Station, bool) {
    if !tick.connected || tick.intervalSecs <= 0 then (station, false)
    else
      var interval := tick.intervalSecs * 1000;
      var jitter := SettledJitter(station, interval, tick.draw);
      var next := if station.nextFireMs == 0 then NextBoundary(tick.now, interval) + jitter else station.nextFireMs;
      if tick.now < next then (Station(next, jitter), false)
      else
        var again := NextBoundary(tick.now, interval) + jitter;
        (Station(if again <= tick.now then again + interval else again, jitter), true)
  }

  // ----- one tick -----

  /** A draw settles the offset below the interval, whatever the interval. */
  lemma JitterIsBelowInterval(interval: int, draw: Random)
    requires interval > 0
    ensures 0 <= SettledJitter(REGISTERED, interval, draw) < interval
  {
    var x := draw * interval as real;
    ShareBounds(draw, interval as real);
    assert 0.0 <= x * 0.9 < interval as real;
  }

  /** Offsets are spread over nine tenths of the interval: none is beyond, and each is what some draw gives. */
  lemma OffsetsAreSpread(interval: int, draw: Random, k: int)
    requires interval > 0 && 0 <= k && k as real < interval as real * 0.9
    ensures SettledJitter(REGISTERED, interval, draw) as real <= interval as real * 0.9
    ensures exists d: Random :: SettledJitter(REGISTERED, interval, d) == k
  {
    var range := interval as real * 0.9;
    ShareBounds(draw, range);
    JitterIsShare(interval, draw, range);
    ShareOf(k as real, range);
    JitterIsShare(interval, k as real / range, range);
  }

  lemma JitterIsShare(interval: int, draw: Random, range: real)
    requires interval > 0 && range == interval as real * 0.9
    ensures SettledJitter(REGISTERED, interval, draw) == (draw * range).Floor
  {
    assert draw * interval as real * 0.9 == draw * (interval as real * 0.9);
  }

  /** The station has its offset, and its next fire, once set, is at that offset. */
  predicate IsAligned(station: Station, interval: int) {
    0 < station.jitterMs < interval && (station.nextFireMs == 0 || station.nextFireMs % interval == station.jitterMs)
  }

  lemma Offset(boundary: int, interval: int, jitter: int)
    requires interval > 0 && boundary % interval == 0 && 0 <= jitter < interval
    ensures (boundary + jitter) % interval == jitter
  {
    var q := boundary / interval;
    assert boundary == q * interval;
    SameRemainder(boundary + jitter, interval, q, jitter);
  }

  /** After a tick the next fire is in the future, at the station's offset from a boundary. */
  lemma NextFireIsAligned(station: Station, tick: Tick)
    requires tick.connected && tick.intervalSecs > 0 && IsAligned(station, tick.intervalSecs * 1000)
    ensures var t := AfterTick(station, tick).0;
            && t.nextFireMs > tick.now
            && t.jitterMs == station.jitterMs
            && t.nextFireMs % (tick.intervalSecs * 1000) == t.jitterMs
  {
    var interval := tick.intervalSecs * 1000;
    Offset(NextBoundary(tick.now, interval), interval, station.jitterMs);
  }

  /** Whatever the offset, zero included, a tick of a connected station leaves the next fire in the future. */
  lemma NextFireIsInTheFuture(station: Station, tick: Tick)
    requires tick.connected && tick.intervalSecs > 0 && station.jitterMs >= 0
    ensures AfterTick(station, tick).0.nextFireMs > tick.now
  {
    JitterIsBelowInterval(tick.intervalSecs * 1000, tick.draw);
  }

  /** The first tick of a registered station sets its offset and its first fire, and does not fire, unless it draws a zero. */
  lemma FirstTickSettles(tick: Tick)
    requires tick.connected && tick.intervalSecs > 0
    requires SettledJitter(REGISTERED, tick.intervalSecs * 1000, tick.draw) != 0
    ensures IsAligned(AfterTick(REGISTERED, tick).0, tick.intervalSecs * 1000) && !AfterTick(REGISTERED, tick).1
  {
    var interval := tick.intervalSecs * 1000;
    var jitter := SettledJitter(REGISTERED, interval, tick.draw);
    JitterIsBelowInterval(interval, tick.draw);
    Offset(NextBoundary(tick.now, interval), interval, jitter);
  }

  /** A station that is connected and has an interval fires exactly when its next fire is due, and is left alone otherwise. */
  lemma FiresExactly(station: Station, tick: Tick)
    requires station.nextFireMs != 0
    ensures AfterTick(station, tick).1 <==> tick.connected && tick.intervalSecs > 0 && station.nextFireMs <= tick.now
    ensures !tick.connected || tick.intervalSecs <= 0 ==> AfterTick(station, tick).0 == station
    ensures tick.now < station.nextFireMs ==> AfterTick(station, tick).0.nextFireMs == station.nextFireMs
  {
  }

  /** A fire is never before its slot, and skips to a later slot. */
  lemma FireMovesOn(station: Station, tick: Tick)
    requires tick.intervalSecs > 0 && IsAligned(station, tick.intervalSecs * 1000) && AfterTick(station, tick).1
    ensures station.nextFireMs != 0 && station.nextFireMs <= tick.now < AfterTick(station, tick).0.nextFireMs
    ensures var interval := tick.intervalSecs * 1000;
            var step := AfterTick(station, tick).0.nextFireMs - station.nextFireMs;
            step >= interval && step % interval == 0
    ensures AfterTick(station, tick).0.nextFireMs == station.nextFireMs + tick.intervalSecs * 1000 <==>
            tick.now - station.nextFireMs <= tick.intervalSecs * 1000 - station.jitterMs
  {
    var interval := tick.intervalSecs * 1000;
    NextFireIsAligned(station, tick);
    var a, b := station.nextFireMs, AfterTick(station, tick).0.nextFireMs;
    AlignedGap(a, b, interval, station.jitterMs);
    NextSlot(a, tick.now, interval, station.jitterMs);
  }

  /** Two instants at the same offset differ by whole intervals. */
  lemma AlignedGap(a: int, b: int, interval: int, jitter: int)
    requires interval > 0 && a % interval == jitter && b % interval == jitter && a < b
    ensures b - a >= interval && (b - a) % interval == 0
  {
    var d := b / interval - a / interval;
    assert b - a == d * interval;
    MultipleIsAligned(d, interval);
    Multiple(d, interval);
  }

  /** The slot after `a` is the next one exactly when `now` is not past the boundary after `a`. */
  lemma NextSlot(a: int, now: int, interval: int, jitter: int)
    requires interval > 0 && 0 < jitter < interval && a % interval == jitter && a <= now
    ensures NextBoundary(now, interval) + jitter == a + interval <==> now - a <= interval - jitter
  {
    var q, boundary := a / interval, NextBoundary(now, interval);
    assert a == q * interval + jitter;
    var k := boundary / interval;
    assert boundary == k * interval;
    if now - a <= interval - jitter {
      assert now <= (q + 1) * interval;
      assert q * interval < k * interval < (q + 2) * interval;
      Between(q, k, interval);
    } else {
      assert k * interval >= now > (q + 1) * interval;
    }
  }

  lemma Between(q: int, k: int, interval: int)
    requires interval > 0 && q * interval < k * interval < (q + 2) * interval
    ensures k == q + 1
  {
    Multiple(k - q, interval);
    Multiple(k - q - 2, interval);
  }

  // ----- runs -----

  /** The instants at which a station fired, and the slots it fired for. */
  datatype Fires = Fires(station: Station, times: seq<int>, slots: seq<int>)

  function Ticked(f: Fires, tick: Tick): Fires {
    var (after, fired) := AfterTick(f.station, tick);
    if fired then Fires(after, f.times + [tick.now], f.slots + [f.station.nextFireMs]) else f.(station := after)
  }

  function Run(station: Station, ticks: seq<Tick>): Fires {
    if ticks == [] then Fires(station, [], []) else Ticked(Run(station, ticks[..|ticks| - 1]), ticks[|ticks| - 1])
  }

  /** The tick comes before the slot, or finds the station away. */
  predicate Passes(tick: Tick, slot: int) {
    !tick.connected || tick.now < slot
  }

  /** Before its slot, and while it is away, a station does not fire and keeps the slot. */
  lemma {:induction false} SlotIsKept(station: Station, ticks: seq<Tick>)
    requires station.nextFireMs != 0 && station.jitterMs != 0
    requires forall tick :: tick in ticks ==> Passes(tick, station.nextFireMs)
    ensures Run(station, ticks) == Fires(station, [], [])
    decreases |ticks|
  {
    if ticks != [] {
      var init, tick := ticks[..|ticks| - 1], ticks[|ticks| - 1];
      assert tick in ticks;
      SlotIsKept(station, init);
      FiresExactly(station, tick);
    }
  }

  /** No slot is missed: a station fires once for it, at the first tick at or after it that finds the station connected. */
  lemma SlotIsFired(station: Station, ticks: seq<Tick>, last: Tick)
    requires station.nextFireMs != 0 && station.jitterMs != 0
    requires forall tick :: tick in ticks ==> Passes(tick, station.nextFireMs)
    requires last.connected && last.intervalSecs > 0 && station.nextFireMs <= last.now
    ensures var fires := Run(station, ticks + [last]);
            fires.times == [last.now] && fires.slots == [station.nextFireMs]
  {
    SlotIsKept(station, ticks);
    FiresExactly(station, last);
    assert (ticks + [last])[..|ticks|] == ticks;
  }

  predicate SameInterval(ticks: seq<Tick>, intervalSecs: int) {
    forall i :: 0 <= i < |ticks| ==> ticks[i].intervalSecs == intervalSecs
  }

  /** Every fire is in its slot or late, before the next slot, and slots are whole intervals apart. */
  ghost predicate SlotsAreApart(f: Fires, interval: int) {
    && |f.times| == |f.slots|
    && (forall i :: 0 <= i < |f.slots| ==> f.slots[i] <= f.times[i])
    && (f.slots != [] ==>
          && f.station.nextFireMs != 0
          && f.times[|f.slots| - 1] < f.station.nextFireMs
          && f.slots[|f.slots| - 1] + interval <= f.station.nextFireMs)
    && (forall i, j :: 0 <= i < |f.slots| && j == i + 1 && j < |f.slots| ==> f.times[i] < f.slots[j] && f.slots[i] + interval <= f.slots[j])
  }

  lemma Fired(before: Fires, after: Station, now: int, interval: int)
    requires SlotsAreApart(before, interval) && before.station.nextFireMs <= now < after.nextFireMs
    requires before.station.nextFireMs + interval <= after.nextFireMs && after.nextFireMs != 0
    ensures SlotsAreApart(Fires(after, before.times + [now], before.slots + [before.station.nextFireMs]), interval)
  {
  }

  /** A tick of a connected station: the station is aligned and set to a later slot, a whole interval later when it fires. */
  lemma TickAdvances(station: Station, tick: Tick, interval: int)
    requires tick.connected && tick.intervalSecs > 0 && interval == tick.intervalSecs * 1000 && IsAligned(station, interval)
    ensures var (after, fired) := AfterTick(station, tick);
            && IsAligned(after, interval) && after.nextFireMs != 0 && tick.now < after.nextFireMs
            && (fired ==> station.nextFireMs <= tick.now && station.nextFireMs + interval <= after.nextFireMs)
            && (!fired && station.nextFireMs != 0 ==> after.nextFireMs == station.nextFireMs)
  {
    AfterIsAligned(station, tick, interval);
    if AfterTick(station, tick).1 {
      FireAdvances(station, tick, interval);
    } else if station.nextFireMs != 0 {
      FiresExactly(station, tick);
    }
  }

  lemma AfterIsAligned(station: Station, tick: Tick, interval: int)
    requires tick.connected && tick.intervalSecs > 0 && interval == tick.intervalSecs * 1000 && IsAligned(station, interval)
    ensures var after := AfterTick(station, tick).0;
            IsAligned(after, interval) && after.nextFireMs != 0 && tick.now < after.nextFireMs
  {
    NextFireIsAligned(station, tick);
    AlignedIsSet(AfterTick(station, tick).0.nextFireMs, interval, station.jitterMs);
  }

  lemma AlignedIsSet(next: int, interval: int, jitter: int)
    requires interval > 0 && next % interval == jitter && jitter != 0
    ensures next != 0
  {
  }

  lemma FireAdvances(station: Station, tick: Tick, interval: int)
    requires tick.intervalSecs > 0 && interval == tick.intervalSecs * 1000 && IsAligned(station, interval)
    requires AfterTick(station, tick).1
    ensures station.nextFireMs <= tick.now && station.nextFireMs + interval <= AfterTick(station, tick).0.nextFireMs
  {
    FireMovesOn(station, tick);
  }

  lemma TickKeepsApart(f: Fires, tick: Tick, interval: int)
    requires tick.intervalSecs > 0 && interval == tick.intervalSecs * 1000
    requires IsAligned(f.station, interval) && SlotsAreApart(f, interval)
    ensures IsAligned(Ticked(f, tick).station, interval) && SlotsAreApart(Ticked(f, tick), interval)
  {
    if tick.connected {
      var (after, fired) := AfterTick(f.station, tick);
      TickAdvances(f.station, tick, interval);
      if fired {
        Fired(f, after, tick.now, interval);
      } else {
        NotFired(f, after, interval);
      }
    }
  }

  lemma NotFired(f: Fires, after: Station, interval: int)
    requires SlotsAreApart(f, interval)
    requires after.nextFireMs != 0 && (f.station.nextFireMs != 0 ==> after.nextFireMs == f.station.nextFireMs)
    ensures SlotsAreApart(f.(station := after), interval)
  {
  }

  lemma {:induction false} RunIsAligned(station: Station, ticks: seq<Tick>, intervalSecs: int)
    requires intervalSecs > 0 && IsAligned(station, intervalSecs * 1000) && SameInterval(ticks, intervalSecs)
    ensures IsAligned(Run(station, ticks).station, intervalSecs * 1000) && SlotsAreApart(Run(station, ticks), intervalSecs * 1000)
    decreases |ticks|
  {
    if ticks != [] {
      RunIsAligned(station, ticks[..|ticks| - 1], intervalSecs);
      TickKeepsApart(Run(station, ticks[..|ticks| - 1]), ticks[|ticks| - 1], intervalSecs * 1000);
    }
  }

  lemma {:induction false} SlotsGrow(f: Fires, interval: int, m: nat, n: nat)
    requires SlotsAreApart(f, interval) && m <= n < |f.slots|
    ensures f.slots[n] >= f.slots[m] + (n - m) * interval
    decreases n - m
  {
    if m < n {
      SlotsGrow(f, interval, m, n - 1);
      var before := n - 1;
      assert f.slots[before] + interval <= f.slots[n];
      assert (n - m) * interval == (n - 1 - m) * interval + interval;
    }
  }

  /**
   Missed intervals are not made up for: a station that fires n times in a span has
   n - 2 whole intervals in it.
   */
  lemma FiresAreRare(station: Station, ticks: seq<Tick>, intervalSecs: int, m: nat, n: nat)
    requires intervalSecs > 0 && IsAligned(station, intervalSecs * 1000) && SameInterval(ticks, intervalSecs)
    requires m < n < |Run(station, ticks).times|
    ensures |Run(station, ticks).times| == |Run(station, ticks).slots|
    ensures (n - m - 1) * (intervalSecs * 1000) < Run(station, ticks).times[n] - Run(station, ticks).times[m]
  {
    var f, interval := Run(station, ticks), intervalSecs * 1000;
    RunIsAligned(station, ticks, intervalSecs);
    var next := m + 1;
    SlotsGrow(f, interval, next, n);
    assert f.times[m] < f.slots[next];
    assert n - next == n - m - 1;
  }
}
