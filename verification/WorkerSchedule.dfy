/** Workers start at staggered times so that together they release requests evenly. */
module WorkerSchedule {
  import opened Quotas
  import opened LimiterSpec

  // computeInterWorkerDelay: 1/rps/concurrency, cut down to whole nanoseconds.
  function InterWorkerDelay(concurrency: nat, rps: nat): nat
    requires concurrency > 0 && rps > 0
  {
    NANOS_PER_SECOND / (rps * concurrency)
  }

  method CreateWorkers(concurrency: nat, firstStart: int, rps: nat) returns (starts: seq<int>)
    requires rps > 0
    ensures |starts| == concurrency
    ensures forall i :: 0 <= i < concurrency ==> starts[i] == firstStart + InterWorkerDelay(concurrency, rps) * i
  {
    starts := [];
    if concurrency == 0 {
      return;
    }
    var delay := InterWorkerDelay(concurrency, rps);
    var worker := 0;
    while |starts| < concurrency
      invariant worker == |starts| <= concurrency
      invariant forall i :: 0 <= i < worker ==> starts[i] == firstStart + delay * i
    {
      starts := starts + [firstStart + delay * worker];
      worker := worker + 1;
    }
  }

  // What worker i may have released t nanoseconds after the first worker's start.
  function WorkerQuota(t: int, i: nat, concurrency: nat, rps: nat): int
    requires concurrency > 0 && rps > 0
  {
    var elapsed := t - InterWorkerDelay(concurrency, rps) * i;
    if elapsed < 0 then 0 else LinearQuota(elapsed, rps)
  }

  function TotalQuota(t: int, workers: nat, concurrency: nat, rps: nat): int
    requires concurrency > 0 && rps > 0
  {
    if workers == 0 then 0
    else TotalQuota(t, workers - 1, concurrency, rps) + WorkerQuota(t, workers - 1, concurrency, rps)
  }

  // One pacer at the combined rate: floor(c*r*t + 1 - c/2) with t in seconds.
  function CombinedQuota(t: int, concurrency: nat, rps: nat): int {
    (2 * (concurrency * rps * t) + (2 - concurrency) * NANOS_PER_SECOND) / (2 * NANOS_PER_SECOND)
  }

  // ---------- Hermite's identity ----------

  // The sum of (n + k) / c over k < terms, rounding down.
  function FloorSum(n: int, c: nat, terms: nat): int
    requires c > 0
  {
    if terms == 0 then 0 else FloorSum(n, c, terms - 1) + (n + (terms - 1)) / c
  }

  lemma {:induction false} FloorSumShifts(n: int, c: nat, terms: nat)
    requires c > 0
    ensures FloorSum(n + 1, c, terms) == FloorSum(n, c, terms) + (n + terms) / c - n / c
  {
    if terms > 0 {
      FloorSumShifts(n, c, terms - 1);
      assert n + 1 + (terms - 1) == n + terms;
    }
  }

  lemma {:induction false} FloorSumOfZero(c: nat, terms: nat)
    requires terms <= c && c > 0
    ensures FloorSum(0, c, terms) == 0
  {
    if terms > 0 {
      FloorSumOfZero(c, terms - 1);
      RemainderIsUnique(terms - 1, c, 0, terms - 1);
    }
  }

  lemma FloorSumGrowsByOne(n: int, c: nat)
    requires c > 0
    ensures FloorSum(n + 1, c, c) == FloorSum(n, c, c) + 1
  {
    FloorSumShifts(n, c, c);
    RemainderIsUnique(n + c, c, n / c + 1, n % c);
  }

  /** Hermite's identity for integers: the c shifted quotients of n add up to n. */
  lemma {:induction false} HermiteIdentity(n: int, c: nat)
    requires c > 0
    ensures FloorSum(n, c, c) == n
    decreases if n < 0 then -n else n
  {
    if n == 0 {
      FloorSumOfZero(c, c);
    } else if n > 0 {
      HermiteIdentity(n - 1, c);
      FloorSumGrowsByOne(n - 1, c);
    } else {
      HermiteIdentity(n + 1, c);
      FloorSumGrowsByOne(n, c);
    }
  }

  // ---------- Exactly staggered workers ----------

  // Worker i's quota if its start were exactly i/(r*c) seconds after the first.
  function ExactQuota(t: int, i: nat, concurrency: nat, rps: nat): int
    requires concurrency > 0
  {
    (2 * (concurrency * rps * t) + (concurrency - 2 * i) * NANOS_PER_SECOND) / (2 * NANOS_PER_SECOND * concurrency)
  }

  function ExactTotal(t: int, workers: nat, concurrency: nat, rps: nat): int
    requires concurrency > 0
  {
    if workers == 0 then 0
    else ExactTotal(t, workers - 1, concurrency, rps) + ExactQuota(t, workers - 1, concurrency, rps)
  }

  lemma FloorIsQuotient(a: int, b: int, x: real, xb: real)
    requires b > 0 && xb == x * b as real == a as real
    ensures x.Floor == a / b
  {
    var q := a / b;
    assert q * b <= a < q * b + b;
    CastMul(q, b);
    var rest := x - q as real;
    assert rest * b as real == a as real - (q * b) as real;
    if rest < 0.0 { assert false; }
    if rest >= 1.0 { assert false; }
  }

  lemma CastMul(a: int, b: int)
    ensures (a * b) as real == a as real * b as real
  {
  }

  // r*(T - i/(r*c)) + 1/2 times 2*c*N, with t == T*N.
  lemma StaggeredNumerator(t: real, i: real, c: real, r: real, n: real, seconds: real, lag: real, x: real)
    requires c > 0.0 && r > 0.0 && n > 0.0 && seconds == t / n && lag == i / (r * c) && x == r * (seconds - lag) + 0.5
    ensures x * (2.0 * n * c) == 2.0 * (c * r * t) + (c - 2.0 * i) * n
  {
    var rc := r * c;
    assert seconds * n == t && lag * rc == i;
    assert x * (2.0 * n * c) == 2.0 * (rc * (seconds * n)) - 2.0 * ((rc * lag) * n) + c * n;
  }

  lemma StaggeredCast(t: int, i: int, c: int, r: int, n: int)
    ensures (2 * (c * r * t) + (c - 2 * i) * n) as real ==
            2.0 * (c as real * r as real * t as real) + (c as real - 2.0 * i as real) * n as real
    ensures (2 * n * c) as real == 2.0 * n as real * c as real
  {
    CastMul(c, r);
    CastMul(c * r, t);
    CastMul(c - 2 * i, n);
    CastMul(2 * n, c);
  }

  lemma StaggeredFloor(t: int, i: int, c: int, r: int, n: int, seconds: real, lag: real, x: real)
    requires c > 0 && r > 0 && n > 0 && seconds == t as real / n as real && lag == i as real / (r as real * c as real)
    requires x == r as real * (seconds - lag) + 0.5
    ensures 2 * n * c > 0 && x.Floor == (2 * (c * r * t) + (c - 2 * i) * n) / (2 * n * c)
  {
    assert 2 * n * c > 0;
    var a, b := 2 * (c * r * t) + (c - 2 * i) * n, 2 * n * c;
    assert x * b as real == a as real by {
      StaggeredNumerator(t as real, i as real, c as real, r as real, n as real, seconds, lag, x);
      StaggeredCast(t, i, c, r, n);
    }
    FloorIsQuotient(a, b, x, x * b as real);
  }

  /** The exact quota is what the linear limiter's formula gives a worker that started i/(r*c) seconds
      late: floor(r * elapsed + 1/2). */
  lemma ExactQuotaIsLinear(t: int, i: nat, concurrency: nat, rps: nat)
    requires concurrency > 0 && rps > 0
    ensures var elapsed := t as real / NANOS_PER_SECOND as real - i as real / (rps as real * concurrency as real);
            ExactQuota(t, i, concurrency, rps) == (rps as real * elapsed + 0.5).Floor
  {
    var n, c, r := NANOS_PER_SECOND as real, concurrency as real, rps as real;
    var seconds, lag := t as real / n, i as real / (r * c);
    var x := r * (seconds - lag) + 0.5;
    StaggeredFloor(t, i, concurrency, rps, NANOS_PER_SECOND, seconds, lag, x);
  }

  lemma FloorOfFloor(a: int, b: int, c: int)
    requires b > 0 && c > 0
    ensures a / (b * c) == (a / b) / c
  {
    var q, r := a / b, a % b;
    var p, s := q / c, q % c;
    calc {
      a;
      b * q + r;
      b * (c * p + s) + r;
      b * (c * p) + b * s + r;
      (b * c) * p + (b * s + r);
    }
    MulLe(s, c - 1, b);
    assert b * s + r < b * c by {
      assert (c - 1) * b + b == b * c;
      assert s * b == b * s;
    }
    assert 0 <= b * s;
    RemainderIsUnique(a, b * c, p, b * s + r);
  }

  // The exact quotas are shifted quotients of one number.
  lemma ExactQuotaIsQuotient(t: int, i: nat, concurrency: nat, rps: nat)
    requires concurrency > 0
    ensures var n := (2 * (concurrency * rps * t) + concurrency * NANOS_PER_SECOND) / (2 * NANOS_PER_SECOND);
            ExactQuota(t, i, concurrency, rps) == (n - i) / concurrency
  {
    var b := 2 * NANOS_PER_SECOND;
    var a := 2 * (concurrency * rps * t) + concurrency * NANOS_PER_SECOND;
    FloorOfFloor(a - b * i, b, concurrency);
    RemainderIsUnique(a - b * i, b, a / b - i, a % b);
  }

  lemma {:induction false} ExactTotalIsFloorSum(t: int, workers: nat, concurrency: nat, rps: nat)
    requires 0 < concurrency && workers <= concurrency
    ensures var n := (2 * (concurrency * rps * t) + concurrency * NANOS_PER_SECOND) / (2 * NANOS_PER_SECOND);
            ExactTotal(t, workers, concurrency, rps) ==
            FloorSum(n - concurrency + 1, concurrency, concurrency) - FloorSum(n - concurrency + 1, concurrency, concurrency - workers)
  {
    if workers > 0 {
      ExactTotalIsFloorSum(t, workers - 1, concurrency, rps);
      ExactQuotaIsQuotient(t, workers - 1, concurrency, rps);
    }
  }

  /** Exactly staggered workers add up to one evenly spaced pacer at the combined rate. */
  lemma ExactWorkersInterleave(t: int, concurrency: nat, rps: nat)
    requires concurrency > 0
    ensures ExactTotal(t, concurrency, concurrency, rps) == CombinedQuota(t, concurrency, rps)
  {
    var b := 2 * NANOS_PER_SECOND;
    var a := 2 * (concurrency * rps * t) + concurrency * NANOS_PER_SECOND;
    ExactTotalIsFloorSum(t, concurrency, concurrency, rps);
    HermiteIdentity(a / b - concurrency + 1, concurrency);
    RemainderIsUnique(a - b * (concurrency - 1), b, a / b - concurrency + 1, a % b);
  }

  /** The combined pacer releases its k-th request exactly at (k - 1 + c/2) / (c*r) seconds. */
  lemma CombinedReleaseTimes(t: int, concurrency: nat, rps: nat, k: int)
    ensures k <= CombinedQuota(t, concurrency, rps) <==>
            (2 * k - 2 + concurrency) * NANOS_PER_SECOND <= 2 * (concurrency * rps * t)
  {
  }

  // ---------- The workers as started ----------

  lemma QuotientMonotone(a: int, b: int, d: int)
    requires a <= b && d > 0
    ensures a / d <= b / d
  {
    assert (a / d) * d <= a <= b < (b / d + 1) * d;
    MulCancel(a / d, b / d + 1, d);
  }

  /** A start cut down to whole nanoseconds is early by less than i nanoseconds. */
  lemma WorkerQuotaIsNearExact(t: int, i: nat, concurrency: nat, rps: nat)
    requires rps > 0 && i < concurrency && t >= InterWorkerDelay(concurrency, rps) * i
    ensures ExactQuota(t, i, concurrency, rps) <= WorkerQuota(t, i, concurrency, rps)
                                               <= ExactQuota(t + (concurrency - 1), i, concurrency, rps)
    ensures NANOS_PER_SECOND % (rps * concurrency) == 0 ==>
              ExactQuota(t, i, concurrency, rps) == WorkerQuota(t, i, concurrency, rps)
  {
    var m := rps * concurrency;
    var d, left := NANOS_PER_SECOND / m, NANOS_PER_SECOND % m;
    var den := 2 * NANOS_PER_SECOND;
    var num := 2 * ((t - d * i) * rps) + NANOS_PER_SECOND;
    var low := 2 * (concurrency * rps * t) + (concurrency - 2 * i) * NANOS_PER_SECOND;
    var high := 2 * (concurrency * rps * (t + (concurrency - 1))) + (concurrency - 2 * i) * NANOS_PER_SECOND;
    ScaledNumerator(t, i, concurrency, rps);
    assert 0 <= left < m && NANOS_PER_SECOND == m * d + left;
    assert num * concurrency == low + 2 * (i * left);
    assert 0 <= i * left;
    MulLe(left, m, i);
    MulLe(i, concurrency - 1, m);
    assert high == low + 2 * ((concurrency - 1) * m) by { HighNumerator(t, concurrency, rps); }
    QuotientMonotone(low, num * concurrency, den * concurrency);
    QuotientMonotone(num * concurrency, high, den * concurrency);
    CancelFactor(num, den, concurrency);
  }

  lemma ScaledNumerator(t: int, i: nat, concurrency: nat, rps: nat)
    requires rps > 0 && concurrency > 0
    ensures var m := rps * concurrency; var d, left := NANOS_PER_SECOND / m, NANOS_PER_SECOND % m;
            (2 * ((t - d * i) * rps) + NANOS_PER_SECOND) * concurrency ==
            2 * (concurrency * rps * t) + (concurrency - 2 * i) * NANOS_PER_SECOND + 2 * (i * left)
  {
    var m := rps * concurrency;
    var d, left := NANOS_PER_SECOND / m, NANOS_PER_SECOND % m;
    calc {
      (2 * ((t - d * i) * rps) + NANOS_PER_SECOND) * concurrency;
      2 * ((t - d * i) * m) + NANOS_PER_SECOND * concurrency;
      2 * (t * m) - 2 * (i * (m * d)) + NANOS_PER_SECOND * concurrency;
      2 * (t * m) - 2 * (i * (NANOS_PER_SECOND - left)) + NANOS_PER_SECOND * concurrency;
      2 * (concurrency * rps * t) + (concurrency - 2 * i) * NANOS_PER_SECOND + 2 * (i * left);
    }
  }

  lemma HighNumerator(t: int, c: int, rps: int)
    ensures c * rps * (t + (c - 1)) == c * rps * t + (c - 1) * (rps * c)
  {
  }

  lemma CancelFactor(a: int, b: int, c: int)
    requires b > 0 && c > 0
    ensures (a * c) / (b * c) == a / b
  {
    var q, r := a / b, a % b;
    assert a * c == (b * c) * q + r * c;
    MulLe(r, b - 1, c);
    assert r * c < b * c;
    RemainderIsUnique(a * c, b * c, q, r * c);
  }

  lemma EarlierStart(t: int, i: nat, concurrency: nat, rps: nat)
    requires rps > 0 && i < concurrency && t >= InterWorkerDelay(concurrency, rps) * (concurrency - 1)
    ensures t >= InterWorkerDelay(concurrency, rps) * i
  {
    var d := InterWorkerDelay(concurrency, rps);
    MulLe(i, concurrency - 1, d);
  }

  lemma {:induction false} TotalIsNearExact(t: int, workers: nat, concurrency: nat, rps: nat)
    requires rps > 0 && 0 < concurrency && workers <= concurrency
    requires t >= InterWorkerDelay(concurrency, rps) * (concurrency - 1)
    ensures ExactTotal(t, workers, concurrency, rps) <= TotalQuota(t, workers, concurrency, rps)
                                                     <= ExactTotal(t + (concurrency - 1), workers, concurrency, rps)
    ensures NANOS_PER_SECOND % (rps * concurrency) == 0 ==>
              ExactTotal(t, workers, concurrency, rps) == TotalQuota(t, workers, concurrency, rps)
  {
    if workers > 0 {
      TotalIsNearExact(t, workers - 1, concurrency, rps);
      EarlierStart(t, workers - 1, concurrency, rps);
      WorkerQuotaIsNearExact(t, workers - 1, concurrency, rps);
    }
  }

  /** Once all workers have started, their quotas add up to the combined pacer's, never less and at
      most concurrency - 1 nanoseconds ahead of it; exactly it when the stagger is a whole number
      of nanoseconds. */
  lemma WorkersInterleave(t: int, concurrency: nat, rps: nat)
    requires rps > 0 && concurrency > 0 && t >= InterWorkerDelay(concurrency, rps) * (concurrency - 1)
    ensures CombinedQuota(t, concurrency, rps) <= TotalQuota(t, concurrency, concurrency, rps)
                                               <= CombinedQuota(t + (concurrency - 1), concurrency, rps)
    ensures NANOS_PER_SECOND % (rps * concurrency) == 0 ==>
              TotalQuota(t, concurrency, concurrency, rps) == CombinedQuota(t, concurrency, rps)
  {
    TotalIsNearExact(t, concurrency, concurrency, rps);
    ExactWorkersInterleave(t, concurrency, rps);
    ExactWorkersInterleave(t + (concurrency - 1), concurrency, rps);
  }
}
