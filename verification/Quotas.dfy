/** How many permits a limiter may have handed out after a given time. Times are integer
    nanoseconds; quotas are exact, so the source's doubles become rationals rounded here. */
module Quotas {
  const NANOS_PER_SECOND: int := 1_000_000_000

  // std::round of n/d for a non-negative n/d (halves round up).
  function RoundDiv(n: int, d: int): int
    requires d > 0
  {
    (2 * n + d) / (2 * d)
  }

  // LinearRateLimiter: floor((elapsed + interval/2) / interval) with interval = 1/hz seconds.
  function LinearQuota(elapsed: int, hz: int): int {
    RoundDiv(elapsed * hz, NANOS_PER_SECOND)
  }

  // LinearRampingRateLimiterImpl: a parabola up to the end of the ramp, then a line.
  function RampQuota(elapsed: int, rampTime: int, hz: int): int
    requires rampTime > 0
  {
    if elapsed < rampTime then
      RoundDiv(elapsed * elapsed * hz, 2 * NANOS_PER_SECOND * rampTime)
    else
      RoundDiv(rampTime * hz, 2 * NANOS_PER_SECOND) + RoundDiv((elapsed - rampTime) * hz, NANOS_PER_SECOND)
  }

  // The momentary rate (per nanosecond) that the ramp promises.
  function RampRate(elapsed: int, rampTime: int, hz: int): real
    requires rampTime > 0
  {
    var full := hz as real / NANOS_PER_SECOND as real;
    if elapsed < rampTime then full * elapsed as real / rampTime as real else full
  }

  // The area under RampRate from 0 to elapsed.
  function RampIntegral(elapsed: int, rampTime: int, hz: int): real
    requires rampTime > 0
  {
    var t, ramp := elapsed as real, rampTime as real;
    var full := hz as real / NANOS_PER_SECOND as real;
    if elapsed < rampTime then full * t * t / (2.0 * ramp) else full * ramp / 2.0 + full * (t - ramp)
  }

  lemma MulLe(a: int, b: int, c: int)
    requires a <= b && c >= 0
    ensures a * c <= b * c
  {
  }

  lemma MulCancel(a: int, b: int, c: int)
    requires c > 0 && a * c < b * c
    ensures a < b
  {
  }

  /** RoundDiv is the only integer within half of n/d, halves going up. */
  lemma RoundDivIsNearest(n: int, d: int, r: int)
    requires d > 0
    ensures r == RoundDiv(n, d) <==> 2 * d * r <= 2 * n + d < 2 * d * (r + 1)
  {
    var a, b := 2 * n + d, 2 * d;
    var q := a / b;
    assert q * b <= a < (q + 1) * b;
    if b * r <= a < b * (r + 1) {
      MulCancel(r, q + 1, b);
      MulCancel(q, r + 1, b);
    }
  }

  lemma QuotasStartAtZero(hz: int, rampTime: int)
    requires rampTime > 0
    ensures LinearQuota(0, hz) == 0 && RampQuota(0, rampTime, hz) == 0
  {
    RoundDivIsNearest(0, NANOS_PER_SECOND, 0);
    RoundDivIsNearest(0, 2 * NANOS_PER_SECOND * rampTime, 0);
  }

  // Two roundings to r1 and r2, brought to the common denominator dd.
  lemma RoundingOrder(n1: int, d1: int, r1: int, n2: int, d2: int, r2: int, dd: int)
    requires d1 > 0 && d2 > 0 && n1 * d2 <= n2 * d1 && dd == d1 * d2
    requires 2 * d1 * r1 <= 2 * n1 + d1 && 2 * n2 + d2 < 2 * d2 * (r2 + 1)
    ensures r1 * (2 * dd) < (r2 + 1) * (2 * dd)
  {
    MulLe(2 * d1 * r1, 2 * n1 + d1, d2);
    MulLe(2 * n2 + d2 + 1, 2 * d2 * (r2 + 1), d1);
    assert (2 * d1 * r1) * d2 == r1 * (2 * dd);
    assert (2 * n1 + d1) * d2 == 2 * (n1 * d2) + dd;
    assert (2 * n2 + d2 + 1) * d1 == 2 * (n2 * d1) + dd + d1;
    assert (2 * d2 * (r2 + 1)) * d1 == (r2 + 1) * (2 * dd);
  }

  /** Rounding respects the order of fractions, even over different denominators. */
  lemma RoundDivIsMonotone(n1: int, d1: int, n2: int, d2: int)
    requires d1 > 0 && d2 > 0 && n1 * d2 <= n2 * d1
    ensures RoundDiv(n1, d1) <= RoundDiv(n2, d2)
  {
    var r1, r2 := RoundDiv(n1, d1), RoundDiv(n2, d2);
    RoundDivIsNearest(n1, d1, r1);
    RoundDivIsNearest(n2, d2, r2);
    hide RoundDiv;
    var dd := d1 * d2;
    RoundingOrder(n1, d1, r1, n2, d2, r2, dd);
    MulCancel(r1, r2 + 1, 2 * dd);
  }

  lemma LinearQuotaIsMonotone(t1: int, t2: int, hz: int)
    requires t1 <= t2 && hz >= 0
    ensures LinearQuota(t1, hz) <= LinearQuota(t2, hz)
  {
    MulLe(t1, t2, hz);
    RoundDivIsMonotone(t1 * hz, NANOS_PER_SECOND, t2 * hz, NANOS_PER_SECOND);
  }

  /** The k-th permit becomes available exactly half an interval after k-1 intervals: at three per
      second the first ones fall at 1/6, 1/2 and 5/6 of a second. */
  lemma LinearReleaseTimes(elapsed: int, hz: int, k: int)
    ensures k <= LinearQuota(elapsed, hz) <==> (2 * k - 1) * 1_000_000_000 <= 2 * elapsed * hz
  {
    RoundDivReaches(elapsed * hz, NANOS_PER_SECOND, k);
  }

  lemma RoundDivReaches(n: int, d: int, k: int)
    requires d > 0
    ensures k <= RoundDiv(n, d) <==> (2 * k - 1) * d <= 2 * n
  {
    var q := RoundDiv(n, d);
    RoundDivIsNearest(n, d, q);
    hide RoundDiv;
    assert 2 * d * k == (2 * k - 1) * d + d;
    if k <= q { MulLe(k, q, 2 * d); } else { MulLe(q + 1, k, 2 * d); }
  }

  /** While the rate rises, the k-th permit becomes available once the area under it reaches k - 1/2. */
  lemma RampReleaseTimes(elapsed: int, rampTime: int, hz: int, k: int)
    requires elapsed < rampTime && rampTime > 0
    ensures k <= RampQuota(elapsed, rampTime, hz) <==> (2 * k - 1) * (1_000_000_000 * rampTime) <= elapsed * elapsed * hz
  {
    hide RoundDiv;
    var d, x := NANOS_PER_SECOND * rampTime, elapsed * elapsed * hz;
    RoundDivReaches(x, 2 * d, k);
    assert (2 * k - 1) * (2 * d) == 2 * ((2 * k - 1) * d);
  }

  /** Once the ramp is over its own permits and those of the time since are counted apart, each to the
      nearest whole one. */
  lemma PlateauReleaseTimes(elapsed: int, rampTime: int, hz: int, k: int)
    requires 0 < rampTime <= elapsed
    ensures k <= RampQuota(rampTime, rampTime, hz) <==> (2 * k - 1) * 1_000_000_000 <= rampTime * hz
    ensures k <= RampQuota(elapsed, rampTime, hz) - RampQuota(rampTime, rampTime, hz) <==>
            (2 * k - 1) * 1_000_000_000 <= 2 * (elapsed - rampTime) * hz
  {
    RoundDivIsNearest(0, NANOS_PER_SECOND, 0);
    hide RoundDiv;
    var x, y := rampTime * hz, (elapsed - rampTime) * hz;
    RoundDivReaches(x, 2 * NANOS_PER_SECOND, k);
    RoundDivReaches(y, NANOS_PER_SECOND, k);
  }

  /** Shared shape of the ramp's two comparisons: x/(2NR) against y/(2N) when x <= y*R. */
  lemma RampPieceOrder(x: int, y: int, rampTime: int)
    requires rampTime > 0 && x <= y * rampTime
    ensures RoundDiv(x, 2 * NANOS_PER_SECOND * rampTime) <= RoundDiv(y, 2 * NANOS_PER_SECOND)
  {
    var n := 2 * NANOS_PER_SECOND;
    MulLe(x, y * rampTime, n);
    assert y * rampTime * n == y * (n * rampTime);
    RoundDivIsMonotone(x, n * rampTime, y, n);
  }

  lemma SquareLe(a: int, b: int, c: int)
    requires 0 <= a <= b && c >= 0
    ensures a * a * c <= b * b * c
  {
    MulLe(a, b, a);
    MulLe(a, b, b);
    MulLe(a * a, b * b, c);
  }

  /** The ramp's quota never steps back, not even where the parabola meets the line. This is what
      keeps the limiter's stored count from going negative, where its truth test would grant. */
  lemma RampQuotaIsMonotone(t1: int, t2: int, rampTime: int, hz: int)
    requires 0 <= t1 <= t2 && rampTime > 0 && hz >= 0
    ensures RampQuota(t1, rampTime, hz) <= RampQuota(t2, rampTime, hz)
  {
    if t2 < rampTime {
      var d := 2 * NANOS_PER_SECOND * rampTime;
      SquareLe(t1, t2, hz);
      MulLe(t1 * t1 * hz, t2 * t2 * hz, d);
      RoundDivIsMonotone(t1 * t1 * hz, d, t2 * t2 * hz, d);
    } else if rampTime <= t1 {
      LinearQuotaIsMonotone(t1 - rampTime, t2 - rampTime, hz);
    } else {
      SquareLe(t1, rampTime, hz);
      SquareIsProduct(rampTime, hz);
      RampPieceOrder(t1 * t1 * hz, rampTime * hz, rampTime);
      LinearQuotaIsMonotone(0, t2 - rampTime, hz);
    }
  }

  lemma SquareIsProduct(r: int, c: int)
    ensures r * r * c == r * c * r
  {
  }

  // Fractions ay/y and cy/y, by their values a and c.
  lemma RealCancel(a: real, c: real, y: real, ay: real, cy: real)
    requires y > 0.0 && ay == a * y && cy == c * y
    ensures ay <= cy <==> a <= c
  {
    assert cy - ay == (c - a) * y;
  }

  // The products that round r up or down to n/d, over the common factor d.
  lemma NearestProducts(n: int, d: int, r: int, f: real)
    requires d > 0 && f * d as real == n as real
    ensures (2 * d * r) as real == (2.0 * r as real) * d as real
    ensures (2 * n + d) as real == (2.0 * f + 1.0) * d as real
  {
    CastProduct(2 * d, r);
    var x, y := r as real, d as real;
    assert (2.0 * y) * x == (2.0 * x) * y;
    assert (2.0 * f + 1.0) * y == 2.0 * (f * y) + y;
  }

  // r within half of n/d, as reals.
  lemma NearestAsReals(n: int, d: int, r: int, f: real)
    requires d > 0 && f * d as real == n as real
    requires 2 * d * r <= 2 * n + d < 2 * d * (r + 1)
    ensures -0.5 < r as real - f <= 0.5
  {
    var low, mid, high := 2.0 * r as real, 2.0 * f + 1.0, 2.0 * (r + 1) as real;
    var a, b, c := 2 * d * r, 2 * n + d, 2 * d * (r + 1);
    NearestProducts(n, d, r, f);
    NearestProducts(n, d, r + 1, f);
    RealCancel(low, mid, d as real, a as real, b as real);
    RealCancel(high, mid, d as real, c as real, b as real);
    assert low <= mid && !(high <= mid);
  }

  lemma RoundDivError(n: int, d: int)
    requires d > 0
    ensures -0.5 < RoundDiv(n, d) as real - n as real / d as real <= 0.5
  {
    hide RoundDiv;
    var r, f := RoundDiv(n, d), n as real / d as real;
    RoundDivIsNearest(n, d, r);
    assert f * d as real == n as real;
    NearestAsReals(n, d, r, f);
  }

  lemma CastProduct(a: int, b: int)
    ensures (a * b) as real == a as real * b as real
  {
  }

  lemma RampIntegralAsFraction(t: int, rampTime: int, hz: int)
    requires rampTime > 0 && t < rampTime
    ensures RampIntegral(t, rampTime, hz) == (t * t * hz) as real / (2 * NANOS_PER_SECOND * rampTime) as real
  {
    var x, r, h, n := t as real, rampTime as real, hz as real, NANOS_PER_SECOND as real;
    CastProduct(t, t);
    CastProduct(t * t, hz);
    CastProduct(2 * NANOS_PER_SECOND, rampTime);
    calc {
      h / n * x * x / (2.0 * r);
      (x * x * h) / n / (2.0 * r);
      (x * x * h) / (2.0 * n * r);
    }
  }

  lemma TailIntegralAsFractions(t: int, rampTime: int, hz: int)
    requires rampTime > 0 && t >= rampTime
    ensures RampIntegral(t, rampTime, hz) ==
            (rampTime * hz) as real / (2 * NANOS_PER_SECOND) as real + ((t - rampTime) * hz) as real / NANOS_PER_SECOND as real
  {
    var r, h, n := rampTime as real, hz as real, NANOS_PER_SECOND as real;
    CastProduct(rampTime, hz);
    CastProduct(t - rampTime, hz);
    assert h / n * r / 2.0 == (r * h) / (2.0 * n);
    assert h / n * (t - rampTime) as real == ((t - rampTime) as real * h) / n;
  }

  /** The rounded ramp quota stays within one permit of the exact area under the ramping rate. */
  lemma RampQuotaTracksIntegral(t: int, rampTime: int, hz: int)
    requires t >= 0 && rampTime > 0 && hz >= 0
    ensures -1.0 < RampQuota(t, rampTime, hz) as real - RampIntegral(t, rampTime, hz) <= 1.0
  {
    if t < rampTime {
      RampIntegralAsFraction(t, rampTime, hz);
      RoundDivError(t * t * hz, 2 * NANOS_PER_SECOND * rampTime);
    } else {
      TailIntegralAsFractions(t, rampTime, hz);
      RoundDivError(rampTime * hz, 2 * NANOS_PER_SECOND);
      RoundDivError((t - rampTime) * hz, NANOS_PER_SECOND);
    }
  }

  /** RampIntegral is the integral of RampRate: between two instants on the same side of the ramp's
      end it grows by the trapezoid under the rate, and the two sides meet at the ramp's end. */
  lemma RampIntegralIsArea(t1: int, t2: int, rampTime: int, hz: int)
    requires rampTime > 0 && t1 <= t2 && (t2 <= rampTime || rampTime <= t1)
    ensures RampIntegral(t2, rampTime, hz) - RampIntegral(t1, rampTime, hz) ==
            (RampRate(t1, rampTime, hz) + RampRate(t2, rampTime, hz)) / 2.0 * (t2 - t1) as real
  {
    var x, y, r := t1 as real, t2 as real, rampTime as real;
    var full := hz as real / NANOS_PER_SECOND as real;
    if rampTime <= t1 {
      assert full * (y - r) - full * (x - r) == full * (y - x);
    } else {
      RampPieces(t1, rampTime, hz);
      RampPieces(t2, rampTime, hz);
      var k := full / (2.0 * r);
      assert k * y * y - k * x * x == (k * x + k * y) * (y - x);
      assert 2.0 * k == full / r;
    }
  }

  lemma RampPieces(t: int, rampTime: int, hz: int)
    requires rampTime > 0 && t <= rampTime
    ensures var k := hz as real / NANOS_PER_SECOND as real / (2.0 * rampTime as real);
            RampIntegral(t, rampTime, hz) == k * t as real * t as real && RampRate(t, rampTime, hz) == 2.0 * k * t as real
  {
    var x, r := t as real, rampTime as real;
    var full := hz as real / NANOS_PER_SECOND as real;
    assert full * x * x / (2.0 * r) == full / (2.0 * r) * x * x;
    assert full * x / r == 2.0 * (full / (2.0 * r)) * x;
    if t == rampTime {
      assert full / (2.0 * r) * r == full / 2.0;
    }
  }
}
