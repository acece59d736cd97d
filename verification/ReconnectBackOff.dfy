/**
 How long the client waits before a reconnect attempt
 (packages/css/src/ocpp-client.ts, section 5.4 of OCPP 2.1 Part 4). Waits are
 reals in milliseconds; a random draw is a real in [0, 1).
 */
module ReconnectBackOff {
  import opened Basics

  datatype BackOff = BackOff(waitMinimumMs: real, randomRangeMs: real, repeatTimes: int)

  /** What one attempt reads: the back-off of the device model and two random draws. */
  datatype Draw = Draw(backOff: Option<BackOff>, first: real, second: real)

  const BASE_RECONNECT_DELAY_MS := 2000.0
  const MAX_RECONNECT_DELAY_MS := 300_000.0

  function Pow2(n: nat): (p: real)
    ensures p >= 1.0
  {
    if n == 0 then 1.0 else 2.0 * Pow2(n - 1)
  }

  function Doublings(backOff: BackOff, attempt: nat): nat {
    var most := if backOff.repeatTimes > 0 then backOff.repeatTimes else 0;
    if attempt < most then attempt else most
  }

  function OwnDelay(attempt: nat): real {
    var delay := BASE_RECONNECT_DELAY_MS * Pow2(attempt);
    if delay < MAX_RECONNECT_DELAY_MS then delay else MAX_RECONNECT_DELAY_MS
  }

  function ReconnectWaitMs(attempt: nat, spreadMs: real, draw: Draw): real {
    match draw.backOff
    case Some(b) => b.waitMinimumMs * Pow2(Doublings(b, attempt)) + draw.first * b.randomRangeMs
    case None => Jittered(OwnDelay(attempt), draw.first) + FirstSpread(attempt, spreadMs, draw.second)
  }

  /** The spread of the first attempt. */
  function FirstSpread(attempt: nat, spreadMs: real, x: real): (spread: real)
    ensures 0.0 <= x < 1.0 && spreadMs >= 0.0 ==> 0.0 <= spread <= if attempt == 0 then spreadMs else 0.0
  {
    SpreadBounds(spreadMs, x);
    if attempt == 0 then x * spreadMs else 0.0
  }

  /** A delay with up to a fifth of it on top. */
  function Jittered(delay: real, x: real): (wait: real)
    ensures 0.0 <= x < 1.0 && delay >= 0.0 ==> delay <= wait <= 1.2 * delay
  {
    JitterBounds(delay, x);
    delay + x * delay * 0.2
  }

  lemma SpreadBounds(spreadMs: real, x: real)
    ensures 0.0 <= x < 1.0 && spreadMs >= 0.0 ==> 0.0 <= x * spreadMs <= spreadMs
  {
    if 0.0 <= x < 1.0 && spreadMs >= 0.0 {
      Scaled(x, spreadMs);
    }
  }

  lemma JitterBounds(delay: real, x: real)
    ensures 0.0 <= x < 1.0 && delay >= 0.0 ==> 0.0 <= x * delay * 0.2 <= 0.2 * delay
  {
    if 0.0 <= x < 1.0 && delay >= 0.0 {
      Scaled(x, delay);
    }
  }

  predicate IsDraw(draw: Draw) {
    && 0.0 <= draw.first < 1.0 && 0.0 <= draw.second < 1.0
    && (draw.backOff.Some? ==> draw.backOff.value.waitMinimumMs >= 0.0 && draw.backOff.value.randomRangeMs >= 0.0)
  }

  lemma Scaled(x: real, range: real)
    requires 0.0 <= x < 1.0 && range >= 0.0
    ensures 0.0 <= x * range <= range
  {
    assert (1.0 - x) * range >= 0.0;
  }

  lemma Spread(low: real, wait: real, x: real, range: real)
    requires 0.0 <= x < 1.0 && range >= 0.0 && wait == low + x * range
    ensures low <= wait <= low + range
  {
    Scaled(x, range);
  }

  /** The minimum wait doubled for the attempt. */
  function DoubledMinimum(b: BackOff, attempt: nat): real {
    b.waitMinimumMs * Pow2(Doublings(b, attempt))
  }

  lemma WaitParts(b: BackOff, attempt: nat, spreadMs: real, draw: Draw)
    requires draw.backOff == Some(b)
    ensures ReconnectWaitMs(attempt, spreadMs, draw) == DoubledMinimum(b, attempt) + draw.first * b.randomRangeMs
  {
  }

  lemma {:induction false} Pow2Grows(m: nat, n: nat)
    requires m <= n
    ensures Pow2(m) <= Pow2(n)
  {
    if m < n { Pow2Grows(m, n - 1); }
  }

  lemma {:induction false} Pow2Adds(m: nat, n: nat)
    ensures Pow2(m + n) == Pow2(m) * Pow2(n)
  {
    if n > 0 { Pow2Adds(m, n - 1); }
  }

  /** The n-th back-off wait (n from 0) lies between the doubled minimum and that plus the random range. */
  lemma BackOffWaitBounds(b: BackOff, attempt: nat, spreadMs: real, draw: Draw)
    requires IsDraw(draw) && draw.backOff == Some(b)
    ensures DoubledMinimum(b, attempt) <= ReconnectWaitMs(attempt, spreadMs, draw)
            <= DoubledMinimum(b, attempt) + b.randomRangeMs
  {
    WaitParts(b, attempt, spreadMs, draw);
    WaitSpread(b, attempt, spreadMs, draw, DoubledMinimum(b, attempt));
  }

  lemma WaitSpread(b: BackOff, attempt: nat, spreadMs: real, draw: Draw, low: real)
    requires IsDraw(draw) && draw.backOff == Some(b)
    requires ReconnectWaitMs(attempt, spreadMs, draw) == low + draw.first * b.randomRangeMs
    ensures low <= ReconnectWaitMs(attempt, spreadMs, draw) <= low + b.randomRangeMs
  {
    Spread(low, ReconnectWaitMs(attempt, spreadMs, draw), draw.first, b.randomRangeMs);
  }

  lemma OwnDelayBounds(attempt: nat)
    ensures BASE_RECONNECT_DELAY_MS <= OwnDelay(attempt) <= MAX_RECONNECT_DELAY_MS
  {
  }

  /** Without a back-off a wait is the doubled delay and up to a fifth of it, plus the spread on the first attempt. */
  lemma OwnWaitBounds(attempt: nat, spreadMs: real, draw: Draw)
    requires IsDraw(draw) && draw.backOff.None? && spreadMs >= 0.0
    ensures OwnDelay(attempt) <= ReconnectWaitMs(attempt, spreadMs, draw)
            <= 1.2 * OwnDelay(attempt) + (if attempt == 0 then spreadMs else 0.0)
    ensures BASE_RECONNECT_DELAY_MS <= ReconnectWaitMs(attempt, spreadMs, draw)
            <= 1.2 * MAX_RECONNECT_DELAY_MS + (if attempt == 0 then spreadMs else 0.0)
  {
    OwnDelayBounds(attempt);
    OwnWaitAround(attempt, spreadMs, draw, OwnDelay(attempt));
  }

  lemma OwnWaitAround(attempt: nat, spreadMs: real, draw: Draw, delay: real)
    requires IsDraw(draw) && draw.backOff.None? && spreadMs >= 0.0 && delay == OwnDelay(attempt) >= 0.0
    ensures delay <= ReconnectWaitMs(attempt, spreadMs, draw) <= 1.2 * delay + (if attempt == 0 then spreadMs else 0.0)
  {
    var wait, spread := Jittered(delay, draw.first), FirstSpread(attempt, spreadMs, draw.second);
    assert ReconnectWaitMs(attempt, spreadMs, draw) == wait + spread;
  }

  /** Without a back-off the wait before jitter doubles, and stays at 5 minutes from the eighth doubling on. */
  lemma OwnDelayDoubles(attempt: nat)
    ensures attempt < 8 ==> OwnDelay(attempt) == 2000.0 * Pow2(attempt)
    ensures attempt >= 8 ==> OwnDelay(attempt) == 300_000.0
  {
    assert Pow2(8) == 256.0 by { assert Pow2(4) == 16.0; Pow2Adds(4, 4); }
    assert Pow2(7) == 128.0;
    if attempt < 8 { Pow2Grows(attempt, 7); } else { Pow2Grows(8, attempt); }
  }

  // ----- the total over a connection loss -----

  function Total(waits: seq<real>): real {
    if waits == [] then 0.0 else Total(waits[..|waits| - 1]) + waits[|waits| - 1]
  }

  /** The wait was drawn for this back-off attempt, of the given back-off if one is given. */
  ghost predicate IsDrawn(wait: real, attempt: nat, spreadMs: real, backOff: Option<BackOff>) {
    exists draw: Draw ::
      && IsDraw(draw) && (backOff.Some? ==> draw.backOff == backOff)
      && wait == ReconnectWaitMs(attempt, spreadMs, draw)
  }

  /** 1 + 2 + 4 + ..., at most `repeatTimes` doublings. */
  function GeometricSum(b: BackOff, n: nat): real {
    if n == 0 then 0.0 else GeometricSum(b, n - 1) + Pow2(Doublings(b, n - 1))
  }

  /** While the back-off still doubles, n attempts take 2^n - 1 minimum waits; after that each takes 2^repeats more. */
  lemma {:induction false} GeometricClosedForm(b: BackOff, n: nat)
    requires b.repeatTimes >= 0
    ensures n <= b.repeatTimes + 1 ==> GeometricSum(b, n) == Pow2(n) - 1.0
    ensures n > b.repeatTimes + 1 ==>
              GeometricSum(b, n) == Pow2(b.repeatTimes + 1) - 1.0 + (n - b.repeatTimes - 1) as real * Pow2(b.repeatTimes)
  {
    if n > 0 {
      GeometricClosedForm(b, n - 1);
      if n > b.repeatTimes + 1 {
        var k := (n - b.repeatTimes - 2) as real;
        assert (k + 1.0) * Pow2(b.repeatTimes) == k * Pow2(b.repeatTimes) + Pow2(b.repeatTimes);
        assert (n - b.repeatTimes - 1) as real == k + 1.0;
      }
    }
  }

  /** The doubled minima of the first `n` attempts, and the random ranges on top of them. */
  function LeastTotal(b: BackOff, n: nat): real {
    if n == 0 then 0.0 else LeastTotal(b, n - 1) + DoubledMinimum(b, n - 1)
  }

  function RangeTotal(b: BackOff, n: nat): real {
    if n == 0 then 0.0 else RangeTotal(b, n - 1) + b.randomRangeMs
  }

  lemma Multiply(a: real, x: real, y: real)
    ensures a * (x + y) == a * x + a * y
  {
  }

  lemma {:induction false} LeastTotalIsGeometric(b: BackOff, n: nat)
    ensures LeastTotal(b, n) == b.waitMinimumMs * GeometricSum(b, n)
    ensures RangeTotal(b, n) == n as real * b.randomRangeMs
  {
    if n > 0 {
      LeastTotalIsGeometric(b, n - 1);
      Multiply(b.waitMinimumMs, GeometricSum(b, n - 1), Pow2(Doublings(b, n - 1)));
      Multiply(b.randomRangeMs, (n - 1) as real, 1.0);
    }
  }

  /**
   After n failed attempts of a constant back-off the client has waited at
   least n doubled minima, which is the geometric sum of the minimum wait, and
   at most that plus n random ranges.
   */
  lemma {:induction false} TotalWaitBounds(b: BackOff, spreadMs: real, waits: seq<real>)
    requires forall k :: 0 <= k < |waits| ==> IsDrawn(waits[k], k, spreadMs, Some(b))
    ensures LeastTotal(b, |waits|) <= Total(waits) <= LeastTotal(b, |waits|) + RangeTotal(b, |waits|)
  {
    if waits != [] {
      var n := |waits| - 1;
      TotalWaitBounds(b, spreadMs, waits[..n]);
      assert IsDrawn(waits[n], n, spreadMs, Some(b));
      var draw: Draw :| IsDraw(draw) && draw.backOff == Some(b) && waits[n] == ReconnectWaitMs(n, spreadMs, draw);
      BackOffWaitBounds(b, n, spreadMs, draw);
    }
  }
}
