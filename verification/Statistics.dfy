/** Online statistics: the streaming (Welford) form, the two-sum form and the stored samples, and
    how the statistics of several workers are combined. Doubles are exact reals, plus NaN. */
module Statistics {
  const UINT64_MAX: nat := 18446744073709551615

  datatype Double = NaN | Num(v: real)

  // Products and quotients by name, so that proofs may treat them as unknowns.
  function Times(a: real, b: real): real { a * b }

  function Over(a: real, b: real): real
    requires b != 0.0
  {
    a / b
  }

  function Square(x: real): real { Times(x, x) }

  function Add(a: Double, b: Double): Double { if a.Num? && b.Num? then Num(a.v + b.v) else NaN }
  function Sub(a: Double, b: Double): Double { if a.Num? && b.Num? then Num(a.v - b.v) else NaN }
  function Mul(a: Double, b: Double): Double { if a.Num? && b.Num? then Num(Times(a.v, b.v)) else NaN }
  // The only division by zero the code performs is 0/0.
  function Div(a: Double, b: Double): Double { if a.Num? && b.Num? && b.v != 0.0 then Num(Over(a.v, b.v)) else NaN }
  function OfNat(n: nat): Double { Num(n as real) }

  function Min(a: nat, b: nat): nat { if a < b then a else b }
  function Max(a: nat, b: nat): nat { if a < b then b else a }

  // ---------- What the numbers mean ----------

  // What matters about a collection of samples.
  datatype Summary = Summary(count: nat, sum: real, squares: real, least: nat, greatest: nat)

  const Nothing := Summary(0, 0.0, 0.0, UINT64_MAX, 0)

  function One(x: nat): Summary {
    Summary(1, x as real, Square(x as real), x, x)
  }

  function Join(a: Summary, b: Summary): Summary {
    Summary(a.count + b.count, a.sum + b.sum, a.squares + b.squares, Min(a.least, b.least), Max(a.greatest, b.greatest))
  }

  function Summarize(xs: seq<nat>): Summary {
    if xs == [] then Nothing else Join(Summarize(xs[..|xs| - 1]), One(xs[|xs| - 1]))
  }

  function TrueMean(xs: seq<nat>): real
    requires xs != []
  {
    Over(Summarize(xs).sum, |xs| as real)
  }

  // The sum of squared distances from m.
  function Deviation(xs: seq<nat>, m: real): real {
    if xs == [] then 0.0
    else Deviation(xs[..|xs| - 1], m) + Square(xs[|xs| - 1] as real - m)
  }

  function TrueVariance(xs: seq<nat>): real
    requires xs != []
  {
    Over(Deviation(xs, TrueMean(xs)), |xs| as real)
  }

  // ---------- How summaries compose ----------

  lemma SummarizeSnoc(xs: seq<nat>, x: nat)
    ensures Summarize(xs + [x]) == Join(Summarize(xs), One(x))
  {
    assert (xs + [x])[..|xs + [x]| - 1] == xs;
  }

  lemma {:induction false} SummarizeCounts(xs: seq<nat>)
    ensures Summarize(xs).count == |xs| && Summarize(xs).least <= UINT64_MAX
  {
    if xs != [] { SummarizeCounts(xs[..|xs| - 1]); }
  }

  // Between what the type allows, 2^64 - 1 standing for a minimum not yet seen.
  ghost predicate Uint64s(xs: seq<nat>) {
    forall i :: 0 <= i < |xs| ==> xs[i] <= 18446744073709551615
  }

  /** The least and the greatest are samples, and every sample lies between them. */
  lemma {:induction false} ExtremesAreSamples(xs: seq<nat>)
    requires Uint64s(xs)
    ensures var s := Summarize(xs);
      if xs == [] then s.least == 18446744073709551615 && s.greatest == 0
      else s.least in xs && s.greatest in xs && forall i :: 0 <= i < |xs| ==> s.least <= xs[i] <= s.greatest
  {
    if xs != [] {
      var init, x := xs[..|xs| - 1], xs[|xs| - 1];
      ExtremesAreSamples(init);
      assert x in xs && forall y | y in init :: y in xs;
    }
  }

  lemma JoinRegroups(a: Summary, b: Summary, c: Summary)
    ensures Join(Join(a, b), c) == Join(a, Join(b, c)) == Join(Join(a, c), b)
  {
  }

  lemma {:induction false} SummarizeConcat(xs: seq<nat>, ys: seq<nat>)
    ensures Summarize(xs + ys) == Join(Summarize(xs), Summarize(ys))
  {
    if ys == [] {
      assert xs + ys == xs;
      SummarizeCounts(xs);
    } else {
      var init, y := ys[..|ys| - 1], ys[|ys| - 1];
      assert xs + ys == (xs + init) + [y];
      SummarizeConcat(xs, init);
      SummarizeSnoc(xs + init, y);
      JoinRegroups(Summarize(xs), Summarize(init), One(y));
    }
  }

  lemma RemoveOne(xs: seq<nat>, i: nat)
    requires i < |xs|
    ensures Summarize(xs) == Join(Summarize(xs[..i] + xs[i + 1..]), One(xs[i]))
  {
    hide Summarize, One, Join;
    var left, x, right := xs[..i], xs[i], xs[i + 1..];
    assert xs == (left + [x]) + right;
    SummarizeConcat(left + [x], right);
    SummarizeSnoc(left, x);
    SummarizeConcat(left, right);
    JoinRegroups(Summarize(left), One(x), Summarize(right));
  }

  lemma RemoveSame(xs: seq<nat>, i: nat, ys: seq<nat>, j: nat)
    requires multiset(xs) == multiset(ys) && i < |xs| && j < |ys| && xs[i] == ys[j]
    ensures multiset(xs[..i] + xs[i + 1..]) == multiset(ys[..j] + ys[j + 1..])
  {
    assert xs == xs[..i] + [xs[i]] + xs[i + 1..];
    assert ys == ys[..j] + [ys[j]] + ys[j + 1..];
    assert multiset(xs) - multiset{xs[i]} == multiset(xs[..i] + xs[i + 1..]);
    assert multiset(ys) - multiset{ys[j]} == multiset(ys[..j] + ys[j + 1..]);
  }

  /** A summary is a function of the multiset of samples. */
  lemma {:induction false} SummarizeIgnoresOrder(xs: seq<nat>, ys: seq<nat>)
    requires multiset(xs) == multiset(ys)
    ensures |xs| == |ys| && Summarize(xs) == Summarize(ys)
    decreases |xs|
  {
    hide Summarize, One, Join;
    assert |multiset(xs)| == |xs| && |multiset(ys)| == |ys|;
    if xs != [] {
      assert xs[0] in multiset(ys);
      var j :| 0 <= j < |ys| && ys[j] == xs[0];
      RemoveOne(xs, 0);
      RemoveOne(ys, j);
      RemoveSame(xs, 0, ys, j);
      SummarizeIgnoresOrder(xs[..0] + xs[1..], ys[..j] + ys[j + 1..]);
    }
  }

  // ---------- StreamingStatistic ----------

  datatype Streaming = Streaming(count: nat, min: nat, max: nat, mean: Double, accumulated: Double)

  const EmptyStreaming := Streaming(0, UINT64_MAX, 0, Num(0.0), Num(0.0))

  function AddSample(s: Streaming, x: nat): Streaming {
    var count := s.count + 1;
    var delta := Sub(OfNat(x), s.mean);
    var deltaN := Div(delta, OfNat(count));
    Streaming(count, Min(s.min, x), Max(s.max, x), Add(s.mean, deltaN),
              Add(s.accumulated, Mul(Mul(delta, deltaN), Sub(OfNat(count), Num(1.0)))))
  }

  function MeanOf(s: Streaming): Double { if s.count == 0 then NaN else s.mean }

  function PVarianceOf(s: Streaming): Double { if s.count == 0 then NaN else Div(s.accumulated, OfNat(s.count)) }

  // combine() reads an empty side's mean as zero, but not its accumulated variance.
  function MeanOrZero(s: Streaming): Double { if MeanOf(s).NaN? then Num(0.0) else MeanOf(s) }

  function Combine(a: Streaming, b: Streaming): Streaming {
    var count := a.count + b.count;
    var (p, q) := (MeanOrZero(a), MeanOrZero(b));
    var gap := Sub(p, q);
    Streaming(count, Min(a.min, b.min), Max(a.max, b.max),
              Div(Add(Mul(OfNat(a.count), p), Mul(OfNat(b.count), q)), OfNat(count)),
              Add(Add(a.accumulated, b.accumulated),
                  Div(Mul(Mul(Mul(gap, gap), OfNat(a.count)), OfNat(b.count)), OfNat(count))))
  }

  function AddAll(s: Streaming, xs: seq<nat>): Streaming {
    if xs == [] then s else AddSample(AddAll(s, xs[..|xs| - 1]), xs[|xs| - 1])
  }

  // ---------- Moments ----------

  // n samples with sum s and sum of squares q have mean m and sum of squared deviations v.
  ghost predicate Moments(n: real, s: real, q: real, m: real, v: real) {
    Times(n, m) == s && v == q - Times(s, m)
  }

  // The sum d of squared distances from m of n samples with sum s and sum of squares q.
  ghost predicate Spread(d: real, n: real, s: real, q: real, m: real) {
    d == q - 2.0 * Times(m, s) + Times(n, Square(m))
  }

  lemma SpreadStep(d: real, n: real, s: real, q: real, m: real, x: real)
    requires Spread(d, n, s, q, m)
    ensures Spread(d + Square(x - m), n + 1.0, s + x, q + Square(x), m)
  {
  }

  /** Deviation by its definition equals a difference of sums. */
  lemma {:induction false} DeviationFromSums(xs: seq<nat>, m: real)
    ensures Spread(Deviation(xs, m), |xs| as real, Summarize(xs).sum, Summarize(xs).squares, m)
  {
    if xs != [] {
      var init, x := xs[..|xs| - 1], xs[|xs| - 1];
      assert xs == init + [x];
      assert Deviation(xs, m) == Deviation(init, m) + Square(x as real - m);
      hide Deviation, Summarize, Spread, Square;
      DeviationFromSums(init, m);
      SummarizeSnoc(init, x);
      SpreadStep(Deviation(init, m), |init| as real, Summarize(init).sum, Summarize(init).squares, m, x as real);
    }
  }

  // The moments of samples with a given mean and sum of squared deviations.
  ghost predicate SampleMoments(xs: seq<nat>, m: real, v: real) {
    Moments(|xs| as real, Summarize(xs).sum, Summarize(xs).squares, m, v)
  }

  lemma SpreadAboutMean(d: real, n: real, s: real, q: real, m: real)
    requires n > 0.0 && m == Over(s, n) && Spread(d, n, s, q, m)
    ensures Moments(n, s, q, m, d)
  {
    assert n * m == s;
    assert n * (m * m) == (n * m) * m;
  }

  lemma MomentsOfSamples(xs: seq<nat>)
    requires xs != []
    ensures SampleMoments(xs, TrueMean(xs), Deviation(xs, TrueMean(xs)))
  {
    var n, s, m := |xs| as real, Summarize(xs).sum, TrueMean(xs);
    hide Summarize, Deviation, Square;
    DeviationFromSums(xs, m);
    SpreadAboutMean(Deviation(xs, m), n, s, Summarize(xs).squares, m);
  }

  lemma MomentsAreUnique(n: real, s: real, q: real, m: real, v: real, m': real, v': real)
    requires n > 0.0 && Moments(n, s, q, m, v) && Moments(n, s, q, m', v')
    ensures m == m' && v == v'
  {
    ScaledEqual(n, m, m');
  }

  // Welford's update, with k == n + 1, s == n*m, x == m + k*dn and d == k*dn.
  lemma WelfordSum(n: real, k: real, s: real, m: real, x: real, dn: real)
    requires k == n + 1.0 && s == Times(n, m) && x == m + Times(k, dn)
    ensures Times(k, m + dn) == s + x
  {
  }

  lemma WelfordSquares(n: real, k: real, m: real, x: real, dn: real)
    requires k == n + 1.0 && x == m + Times(k, dn)
    ensures Square(x) - Times(k, Square(m + dn)) == Times(Times(k, n), Square(dn)) - Times(n, Square(m))
  {
    var mm, md, dd := m * m, m * dn, dn * dn;
    assert x * x == mm + 2.0 * (k * md) + k * k * dd;
    assert (m + dn) * (m + dn) == mm + 2.0 * md + dd;
    assert k * (mm + 2.0 * md + dd) == k * mm + 2.0 * (k * md) + k * dd;
    assert k * mm == n * mm + mm;
    assert k * k * dd == k * n * dd + k * dd;
  }

  lemma WelfordGain(n: real, k: real, d: real, dn: real)
    requires d == Times(k, dn)
    ensures Times(Times(d, dn), n) == Times(Times(k, n), Square(dn))
  {
  }

  lemma Regroup(a: real, b: real, ab: real)
    requires ab == Times(a, b)
    ensures Times(ab, b) == Times(a, Square(b))
  {
  }

  lemma WelfordMoments(n: real, k: real, s: real, q: real, m: real, v: real, x: real, d: real, dn: real)
    requires k == n + 1.0 && Moments(n, s, q, m, v) && d == x - m && Times(k, dn) == d
    ensures Moments(k, s + x, q + Square(x), m + dn, v + Times(Times(d, dn), n))
  {
    hide Times, Square;
    WelfordSum(n, k, s, m, x, dn);
    Regroup(k, m + dn, s + x);
    WelfordSquares(n, k, m, x, dn);
    WelfordGain(n, k, d, dn);
    Regroup(n, m, s);
  }

  // Both sides of the combined deviation, scaled by the combined count t.
  lemma CombinedSquares(n: real, m: real, k: real, p: real, t: real)
    requires t == n + k
    ensures Times(t, Times(n, Square(m))) + Times(t, Times(k, Square(p))) ==
            Square(Times(n, m) + Times(k, p)) + Times(Times(Square(m - p), n), k)
  {
    var a, b, ab := n * m, k * p, (n * m) * (k * p);
    assert t * (n * (m * m)) == a * a + k * (n * (m * m));
    assert t * (k * (p * p)) == b * b + n * (k * (p * p));
    assert (a + b) * (a + b) == a * a + 2.0 * ab + b * b;
    GapProduct(n, m, k, p);
  }

  lemma GapProduct(n: real, m: real, k: real, p: real)
    ensures Times(Times(Square(m - p), n), k) == k * (n * (m * m)) - 2.0 * ((n * m) * (k * p)) + n * (k * (p * p))
  {
    assert (m - p) * (m - p) == m * m - 2.0 * (m * p) + p * p;
    assert ((m * m - 2.0 * (m * p) + p * p) * n) * k == k * (n * (m * m)) - 2.0 * ((n * m) * (k * p)) + n * (k * (p * p));
  }

  lemma Distribute(t: real, a: real, b: real, c: real)
    ensures Times(t, a + b + c) == Times(t, a) + Times(t, b) + Times(t, c)
    ensures Times(t, a - b) == Times(t, a) - Times(t, b)
  {
  }

  lemma ScaledProduct(t: real, mean: real, r: real)
    requires Times(t, mean) == r
    ensures Times(t, Times(r, mean)) == Square(r)
  {
  }

  lemma CombinedMoments(n: real, s: real, q: real, m: real, v: real, k: real, r: real, u: real, p: real, w: real,
                        t: real, mean: real, extra: real)
    requires t == n + k && t > 0.0 && Moments(n, s, q, m, v) && Moments(k, r, u, p, w)
    requires Times(t, mean) == s + r
    requires Times(t, extra) == Times(Times(Square(m - p), n), k)
    ensures Moments(t, s + r, q + u, mean, v + w + extra)
  {
    hide Times, Square;
    var lhs, rhs := v + w + extra, q + u - Times(s + r, mean);
    Regroup(n, m, s);
    Regroup(k, p, r);
    CombinedSquares(n, m, k, p, t);
    ScaledProduct(t, mean, s + r);
    Distribute(t, v, w, extra);
    Distribute(t, q, Times(s, m), 0.0);
    Distribute(t, u, Times(r, p), 0.0);
    Distribute(t, q + u, Times(s + r, mean), 0.0);
    Distribute(t, q, u, 0.0);
    TimesZero(t);
    assert Times(t, lhs) == Times(t, rhs);
    ScaledEqual(t, lhs, rhs);
  }

  lemma TimesZero(t: real)
    ensures Times(t, 0.0) == 0.0
  {
  }

  lemma ScaledEqual(t: real, a: real, b: real)
    requires t > 0.0 && Times(t, a) == Times(t, b)
    ensures a == b
  {
    assert t * (a - b) == 0.0;
  }

  // ---------- Welford's form refines the definition ----------

  // The statistic is exactly what the definitions say of these samples.
  ghost predicate Represents(s: Streaming, xs: seq<nat>) {
    && s.count == |xs| && s.min == Summarize(xs).least && s.max == Summarize(xs).greatest
    && (if xs == [] then s.mean == Num(0.0) && s.accumulated == Num(0.0)
        else s.mean == Num(TrueMean(xs)) && s.accumulated == Num(Deviation(xs, TrueMean(xs))))
  }

  // The statistic's own numbers as moments; an empty one counts as mean zero.
  lemma RepresentsMoments(s: Streaming, xs: seq<nat>)
    requires Represents(s, xs)
    ensures s.mean.Num? && s.accumulated.Num? && SampleMoments(xs, s.mean.v, s.accumulated.v)
  {
    if xs != [] { MomentsOfSamples(xs); }
  }

  lemma MomentsRepresent(s: Streaming, xs: seq<nat>, m: real, v: real)
    requires xs != [] && SampleMoments(xs, m, v) && s.mean == Num(m) && s.accumulated == Num(v)
    requires s.count == |xs| && s.min == Summarize(xs).least && s.max == Summarize(xs).greatest
    ensures Represents(s, xs)
  {
    MomentsOfSamples(xs);
    MomentsAreUnique(|xs| as real, Summarize(xs).sum, Summarize(xs).squares, m, v, TrueMean(xs), Deviation(xs, TrueMean(xs)));
  }

  lemma AddSampleNumbers(s: Streaming, x: nat, n: real, m: real, v: real, d: real, dn: real)
    requires s.mean == Num(m) && s.accumulated == Num(v) && n == s.count as real
    requires d == x as real - m && dn == Over(d, n + 1.0)
    ensures AddSample(s, x).mean == Num(m + dn) && AddSample(s, x).accumulated == Num(v + Times(Times(d, dn), n))
  {
    hide Times, Over;
    assert (s.count + 1) as real == n + 1.0;
  }

  lemma OverTimes(a: real, b: real)
    requires b != 0.0
    ensures Times(b, Over(a, b)) == a
  {
  }

  lemma WelfordSampleMoments(xs: seq<nat>, x: nat, m: real, v: real, d: real, dn: real)
    requires SampleMoments(xs, m, v) && d == x as real - m && dn == Over(d, |xs| as real + 1.0)
    ensures SampleMoments(xs + [x], m + dn, v + Times(Times(d, dn), |xs| as real))
  {
    hide Summarize, Times, Over, Square, Moments;
    SummarizeSnoc(xs, x);
    OverTimes(d, |xs| as real + 1.0);
    WelfordMoments(|xs| as real, |xs| as real + 1.0, Summarize(xs).sum, Summarize(xs).squares, m, v, x as real, d, dn);
  }

  /** One update keeps the streaming statistic equal to the definitions. */
  lemma AddSampleRepresents(s: Streaming, xs: seq<nat>, x: nat)
    requires Represents(s, xs)
    ensures Represents(AddSample(s, x), xs + [x])
  {
    hide Summarize, Deviation, SampleMoments, TrueMean, Times, Over;
    RepresentsMoments(s, xs);
    SummarizeSnoc(xs, x);
    var n, m, v, d := |xs| as real, s.mean.v, s.accumulated.v, x as real - s.mean.v;
    var dn := Over(d, n + 1.0);
    AddSampleNumbers(s, x, n, m, v, d, dn);
    WelfordSampleMoments(xs, x, m, v, d, dn);
    MomentsRepresent(AddSample(s, x), xs + [x], m + dn, v + Times(Times(d, dn), n));
  }

  /** After any samples: the count, the least and the greatest of them, the mean, and the sum of squared
      distances from it. */
  lemma {:induction false} StreamingIsExact(xs: seq<nat>)
    ensures Represents(AddAll(EmptyStreaming, xs), xs)
    ensures var s := AddAll(EmptyStreaming, xs);
      && s.count == |xs|
      && (Uint64s(xs) && xs != [] ==> s.min in xs && s.max in xs && forall i :: 0 <= i < |xs| ==> s.min <= xs[i] <= s.max)
  {
    if Uint64s(xs) { ExtremesAreSamples(xs); }
    if xs != [] {
      StreamingIsExact(xs[..|xs| - 1]);
      AddSampleRepresents(AddAll(EmptyStreaming, xs[..|xs| - 1]), xs[..|xs| - 1], xs[|xs| - 1]);
      assert xs[..|xs| - 1] + [xs[|xs| - 1]] == xs;
    }
  }

  /** What the accessors report: NaN when empty, the true mean and population variance otherwise. */
  lemma ReportedMoments(s: Streaming, xs: seq<nat>)
    requires Represents(s, xs)
    ensures if xs == [] then MeanOf(s) == NaN && PVarianceOf(s) == NaN
            else MeanOf(s) == Num(TrueMean(xs)) && PVarianceOf(s) == Num(TrueVariance(xs))
  {
  }

  // ---------- Combining ----------

  // The mean of n samples of mean m with k of mean p, and what the gap between the means adds.
  function PooledMean(n: real, m: real, k: real, p: real): real
    requires n + k > 0.0
  {
    Over(Times(n, m) + Times(k, p), n + k)
  }

  function PooledGap(n: real, m: real, k: real, p: real): real
    requires n + k > 0.0
  {
    Over(Times(Times(Square(m - p), n), k), n + k)
  }

  lemma CombineNumbers(a: Streaming, b: Streaming, m: real, p: real)
    requires a.count + b.count > 0
    requires MeanOrZero(a) == Num(m) && MeanOrZero(b) == Num(p) && a.accumulated.Num? && b.accumulated.Num?
    ensures var (n, k) := (a.count as real, b.count as real);
            && Combine(a, b).mean == Num(PooledMean(n, m, k, p))
            && Combine(a, b).accumulated == Num(a.accumulated.v + b.accumulated.v + PooledGap(n, m, k, p))
  {
    hide Times, Over;
    assert (a.count + b.count) as real == a.count as real + b.count as real;
  }

  lemma PooledMoments(n: real, s: real, q: real, m: real, v: real, k: real, r: real, u: real, p: real, w: real)
    requires n >= 0.0 && k >= 0.0 && n + k > 0.0 && Moments(n, s, q, m, v) && Moments(k, r, u, p, w)
    ensures Moments(n + k, s + r, q + u, PooledMean(n, m, k, p), v + w + PooledGap(n, m, k, p))
  {
    hide Times, Over, Square;
    OverTimes(Times(n, m) + Times(k, p), n + k);
    OverTimes(Times(Times(Square(m - p), n), k), n + k);
    CombinedMoments(n, s, q, m, v, k, r, u, p, w, n + k, PooledMean(n, m, k, p), PooledGap(n, m, k, p));
  }

  lemma CombinedSampleMoments(xs: seq<nat>, m: real, v: real, ys: seq<nat>, p: real, w: real)
    requires SampleMoments(xs, m, v) && SampleMoments(ys, p, w) && xs + ys != []
    ensures var (n, k) := (|xs| as real, |ys| as real);
            SampleMoments(xs + ys, PooledMean(n, m, k, p), v + w + PooledGap(n, m, k, p))
  {
    hide Summarize, Moments, PooledMean, PooledGap;
    SummarizeConcat(xs, ys);
    PooledMoments(|xs| as real, Summarize(xs).sum, Summarize(xs).squares, m, v,
                  |ys| as real, Summarize(ys).sum, Summarize(ys).squares, p, w);
  }

  /** Combining two statistics gives the statistic of all their samples, if there are any. */
  lemma CombineRepresents(a: Streaming, xs: seq<nat>, b: Streaming, ys: seq<nat>)
    requires Represents(a, xs) && Represents(b, ys) && xs + ys != []
    ensures Represents(Combine(a, b), xs + ys)
  {
    hide Summarize, Deviation, SampleMoments, TrueMean, PooledMean, PooledGap;
    RepresentsMoments(a, xs);
    RepresentsMoments(b, ys);
    SummarizeConcat(xs, ys);
    var n, k, m, p := |xs| as real, |ys| as real, a.mean.v, b.mean.v;
    CombineNumbers(a, b, m, p);
    CombinedSampleMoments(xs, m, a.accumulated.v, ys, p, b.accumulated.v);
    assert Combine(a, b).count == |xs + ys|;
    hide Combine;
    MomentsRepresent(Combine(a, b), xs + ys, PooledMean(n, m, k, p), a.accumulated.v + b.accumulated.v + PooledGap(n, m, k, p));
  }

  lemma EmptyRepresentsNothing()
    ensures Represents(EmptyStreaming, [])
  {
  }

  lemma NothingOverNothing(a: Streaming, b: Streaming)
    requires a.accumulated.NaN? || a.count + b.count == 0
    ensures Combine(a, b).accumulated == NaN && Combine(a, b).count == a.count + b.count
  {
  }

  /** Cloning, as done by combining with a fresh instance, is the identity exactly on statistics with
      samples; the clone of one without holds NaN inside, but reports the same. */
  lemma CloneIsIdentityIff(s: Streaming, xs: seq<nat>)
    requires Represents(s, xs)
    ensures Combine(EmptyStreaming, s) == s <==> xs != []
    ensures MeanOf(Combine(EmptyStreaming, s)) == MeanOf(s) && PVarianceOf(Combine(EmptyStreaming, s)) == PVarianceOf(s)
  {
    hide Combine, Summarize, TrueMean, Deviation;
    if xs == [] {
      NothingOverNothing(EmptyStreaming, s);
    } else {
      EmptyRepresentsNothing();
      CombineRepresents(EmptyStreaming, [], s, xs);
      assert [] + xs == xs;
    }
  }

  // mergeWorkerStatistics, for one position of the workers' statistics.
  function Merge(workers: seq<Streaming>): Streaming {
    if workers == [] then EmptyStreaming else Combine(Merge(workers[..|workers| - 1]), workers[|workers| - 1])
  }

  function Flatten(samples: seq<seq<nat>>): seq<nat> {
    if samples == [] then [] else Flatten(samples[..|samples| - 1]) + samples[|samples| - 1]
  }

  ghost predicate AllRepresent(workers: seq<Streaming>, samples: seq<seq<nat>>) {
    |workers| == |samples| && forall i :: 0 <= i < |workers| ==> Represents(workers[i], samples[i])
  }

  lemma {:induction false} FlattenKeepsFirst(samples: seq<seq<nat>>)
    requires samples != [] && samples[0] != []
    ensures Flatten(samples) != []
  {
    if |samples| > 1 { FlattenKeepsFirst(samples[..|samples| - 1]); }
  }

  /** Merging workers of which the first has samples: the statistic of everybody's samples. */
  lemma {:induction false} MergeRepresents(workers: seq<Streaming>, samples: seq<seq<nat>>)
    requires AllRepresent(workers, samples) && workers != [] && samples[0] != []
    ensures Represents(Merge(workers), Flatten(samples))
  {
    var w, xs := workers[..|workers| - 1], samples[..|samples| - 1];
    FlattenKeepsFirst(samples);
    if w == [] {
      assert Merge(w) == EmptyStreaming && Flatten(xs) == [];
    } else {
      MergeRepresents(w, xs);
    }
    CombineRepresents(Merge(w), Flatten(xs), workers[|workers| - 1], samples[|samples| - 1]);
  }

  /** If the first worker has no samples, 0/0 enters the accumulated variance and never leaves. */
  lemma {:induction false} EmptyFirstWorkerPoisons(workers: seq<Streaming>, samples: seq<seq<nat>>)
    requires AllRepresent(workers, samples) && workers != [] && samples[0] == []
    ensures Merge(workers).accumulated == NaN && Merge(workers).count == |Flatten(samples)|
  {
    hide Combine, Summarize, Deviation, TrueMean;
    var w, xs := workers[..|workers| - 1], samples[..|samples| - 1];
    if w != [] {
      EmptyFirstWorkerPoisons(w, xs);
    }
    NothingOverNothing(Merge(w), workers[|workers| - 1]);
  }

  /** The merged variance is right exactly when the first worker has samples. */
  lemma MergedVarianceIsRightIff(workers: seq<Streaming>, samples: seq<seq<nat>>)
    requires AllRepresent(workers, samples) && workers != [] && Flatten(samples) != []
    ensures PVarianceOf(Merge(workers)) == Num(TrueVariance(Flatten(samples))) <==> samples[0] != []
  {
    if samples[0] != [] {
      MergeRepresents(workers, samples);
    } else {
      EmptyFirstWorkerPoisons(workers, samples);
    }
  }

  // Everything but the variance is what the definitions say of these samples.
  ghost predicate Centred(s: Streaming, xs: seq<nat>) {
    && s.count == |xs| && s.min == Summarize(xs).least && s.max == Summarize(xs).greatest
    && (xs != [] ==> s.mean == Num(TrueMean(xs)))
  }

  lemma CentredSum(s: Streaming, xs: seq<nat>)
    requires Centred(s, xs)
    ensures MeanOrZero(s).Num? && Times(|xs| as real, MeanOrZero(s).v) == Summarize(xs).sum
  {
    if xs != [] { OverTimes(Summarize(xs).sum, |xs| as real); }
  }

  lemma CombinedMean(a: Streaming, b: Streaming, m: real, p: real)
    requires a.count + b.count > 0 && MeanOrZero(a) == Num(m) && MeanOrZero(b) == Num(p)
    ensures Combine(a, b).mean == Num(PooledMean(a.count as real, m, b.count as real, p))
  {
    hide Times, Over;
    assert (a.count + b.count) as real == a.count as real + b.count as real;
  }

  lemma CombineCentres(a: Streaming, xs: seq<nat>, b: Streaming, ys: seq<nat>)
    requires Centred(a, xs) && Centred(b, ys)
    ensures Centred(Combine(a, b), xs + ys)
  {
    hide Summarize, Times, Over, MeanOrZero;
    CentredSum(a, xs);
    CentredSum(b, ys);
    SummarizeConcat(xs, ys);
    if xs + ys != [] {
      CombinedMean(a, b, MeanOrZero(a).v, MeanOrZero(b).v);
      assert |xs + ys| as real == |xs| as real + |ys| as real;
    }
  }

  /** Count, least, greatest and mean of a merge are right for every split, empty workers included:
      the variance is all that an empty first worker costs. */
  lemma {:induction false} MergedMeanIsRight(workers: seq<Streaming>, samples: seq<seq<nat>>)
    requires AllRepresent(workers, samples)
    ensures Centred(Merge(workers), Flatten(samples))
    ensures MeanOf(Merge(workers)) == if Flatten(samples) == [] then NaN else Num(TrueMean(Flatten(samples)))
  {
    if workers != [] {
      hide Combine, Summarize, Deviation, TrueMean;
      MergedMeanIsRight(workers[..|workers| - 1], samples[..|samples| - 1]);
      CombineCentres(Merge(workers[..|workers| - 1]), Flatten(samples[..|samples| - 1]),
                     workers[|workers| - 1], samples[|samples| - 1]);
    }
  }

  // ---------- Order does not matter ----------

  lemma RepresentsIsDeterminedByMultiset(a: Streaming, xs: seq<nat>, b: Streaming, ys: seq<nat>)
    requires Represents(a, xs) && Represents(b, ys) && multiset(xs) == multiset(ys)
    ensures a == b
  {
    SummarizeIgnoresOrder(xs, ys);
    if xs != [] {
      RepresentsMoments(b, ys);
      MomentsRepresent(b, xs, b.mean.v, b.accumulated.v);
    }
  }

  /** Merge independence: however the samples are split over workers, and in whatever order each saw
      them, the merged statistic equals, in every field, one statistic fed all the samples in any
      order, provided the first worker has samples. */
  lemma MergeIsOneStatistic(samples: seq<seq<nat>>, all: seq<nat>)
    requires samples != [] && samples[0] != [] && multiset(all) == multiset(Flatten(samples))
    ensures Merge(seq(|samples|, i requires 0 <= i < |samples| => AddAll(EmptyStreaming, samples[i]))) == AddAll(EmptyStreaming, all)
  {
    var workers := seq(|samples|, i requires 0 <= i < |samples| => AddAll(EmptyStreaming, samples[i]));
    forall i | 0 <= i < |workers| ensures Represents(workers[i], samples[i]) {
      StreamingIsExact(samples[i]);
    }
    MergeRepresents(workers, samples);
    StreamingIsExact(all);
    RepresentsIsDeterminedByMultiset(Merge(workers), Flatten(samples), AddAll(EmptyStreaming, all), all);
  }

  // ---------- SimpleStatistic ----------

  datatype Simple = Simple(count: nat, min: nat, max: nat, sumX: real, sumX2: real)

  const EmptySimple := Simple(0, UINT64_MAX, 0, 0.0, 0.0)

  function AddToSimple(s: Simple, x: nat): Simple {
    Simple(s.count + 1, Min(s.min, x), Max(s.max, x), s.sumX + x as real, s.sumX2 + 1.0 * x as real * x as real)
  }

  function CombineSimple(a: Simple, b: Simple): Simple {
    Simple(a.count + b.count, Min(a.min, b.min), Max(a.max, b.max), a.sumX + b.sumX, a.sumX2 + b.sumX2)
  }

  function SimpleMean(s: Simple): Double { Div(Num(s.sumX), OfNat(s.count)) }

  function SimplePVariance(s: Simple): Double {
    Sub(Div(Num(s.sumX2), OfNat(s.count)), Mul(SimpleMean(s), SimpleMean(s)))
  }

  ghost predicate SimpleOf(s: Simple, xs: seq<nat>) {
    Summary(s.count, s.sumX, s.sumX2, s.min, s.max) == Summarize(xs)
  }

  lemma SimpleTracksSamples(s: Simple, xs: seq<nat>, x: nat, t: Simple, ys: seq<nat>)
    requires SimpleOf(s, xs) && SimpleOf(t, ys)
    ensures SimpleOf(AddToSimple(s, x), xs + [x]) && SimpleOf(CombineSimple(s, t), xs + ys)
  {
    hide Summarize;
    SummarizeSnoc(xs, x);
    SummarizeConcat(xs, ys);
  }

  function MergeSimple(workers: seq<Simple>): Simple {
    if workers == [] then EmptySimple else CombineSimple(MergeSimple(workers[..|workers| - 1]), workers[|workers| - 1])
  }

  /** The two-sum form has no such exception: merging is right for every split, empty workers included. */
  lemma {:induction false} MergeSimpleIsExact(workers: seq<Simple>, samples: seq<seq<nat>>)
    requires |workers| == |samples| && forall i :: 0 <= i < |workers| ==> SimpleOf(workers[i], samples[i])
    ensures SimpleOf(MergeSimple(workers), Flatten(samples))
  {
    if workers != [] {
      var w, xs := workers[..|workers| - 1], samples[..|samples| - 1];
      MergeSimpleIsExact(w, xs);
      hide SimpleOf, CombineSimple, Summarize;
      SimpleTracksSamples(MergeSimple(w), Flatten(xs), 0, workers[|workers| - 1], samples[|samples| - 1]);
    }
  }

  /** The two-sum form and the streaming form agree on every sequence of samples. */
  lemma SimpleAgreesWithStreaming(s: Simple, t: Streaming, xs: seq<nat>)
    requires SimpleOf(s, xs) && Represents(t, xs)
    ensures SimpleMean(s) == MeanOf(t) && SimplePVariance(s) == PVarianceOf(t)
  {
    SummarizeCounts(xs);
    if xs != [] {
      RepresentsMoments(t, xs);
      VarianceFromSums(|xs| as real, Summarize(xs).sum, Summarize(xs).squares, t.mean.v, t.accumulated.v);
    }
  }

  lemma VarianceFromSums(n: real, s: real, q: real, m: real, v: real)
    requires n > 0.0 && Moments(n, s, q, m, v)
    ensures Over(s, n) == m && Over(q, n) - Times(m, m) == Over(v, n)
  {
    hide Times, Over, Square;
    OverTimes(s, n);
    OverTimes(q, n);
    OverTimes(v, n);
    ScaledEqual(n, Over(s, n), m);
    Regroup(n, m, s);
    Distribute(n, Over(q, n), Square(m), 0.0);
    SquareIsTimes(m);
    ScaledEqual(n, Over(q, n) - Square(m), Over(v, n));
  }

  lemma SquareIsTimes(m: real)
    ensures Square(m) == Times(m, m)
  {
  }

  // ---------- InMemoryStatistic ----------

  datatype InMemory = InMemory(samples: seq<nat>, count: nat, min: nat, max: nat, streaming: Streaming)

  const EmptyInMemory := InMemory([], 0, UINT64_MAX, 0, EmptyStreaming)

  function AddToInMemory(s: InMemory, x: nat): InMemory {
    InMemory(s.samples + [x], s.count + 1, Min(s.min, x), Max(s.max, x), AddSample(s.streaming, x))
  }

  function CombineInMemory(a: InMemory, b: InMemory): InMemory {
    var samples := a.samples + b.samples;
    InMemory(samples, |samples|, Min(a.min, b.min), Max(a.max, b.max), Combine(a.streaming, b.streaming))
  }

  // Everything such a statistic reports describes the samples it stores.
  ghost predicate DescribesItself(s: InMemory) {
    && s.count == |s.samples| && s.min == Summarize(s.samples).least && s.max == Summarize(s.samples).greatest
    && Represents(s.streaming, s.samples)
  }

  /** Adding and combining keep the stored samples and the reported numbers in step. */
  lemma InMemoryDescribesItself(s: InMemory, x: nat, t: InMemory)
    requires DescribesItself(s) && DescribesItself(t)
    ensures DescribesItself(EmptyInMemory) && DescribesItself(AddToInMemory(s, x))
    ensures s.samples + t.samples != [] ==> DescribesItself(CombineInMemory(s, t))
  {
    hide Summarize, Combine, AddSample, TrueMean, Deviation;
    assert DescribesItself(EmptyInMemory) by { EmptyDescribesItself(); }
    SummarizeSnoc(s.samples, x);
    AddSampleRepresents(s.streaming, s.samples, x);
    if s.samples + t.samples != [] {
      SummarizeConcat(s.samples, t.samples);
      CombineRepresents(s.streaming, s.samples, t.streaming, t.samples);
    }
  }

  lemma EmptyDescribesItself()
    ensures DescribesItself(EmptyInMemory)
  {
  }
}
