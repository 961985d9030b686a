/** ExponentialSearchStepController: raise the load by a factor until it is too much, then bisect. */
module StepController {
  import opened Wrappers

  const MAX_UINT32: real := 4294967295.0

  datatype Phase = RangeFinding | Searching(bottom: real, top: real)

  // The loads that start out as NaN in the source are absent here until they are set.
  datatype Controller = Controller(phase: Phase, factor: real, previous: Option<real>, current: real, doomed: bool)

  function EffectiveFactor(configured: real): real {
    if configured > 0.0 then configured else 2.0
  }

  function Fresh(initial: real, configured: real): Controller {
    Controller(RangeFinding, EffectiveFactor(configured), None, initial, false)
  }

  function Update(c: Controller, pass: bool): Controller {
    match c.phase
    case RangeFinding =>
      if pass then c.(previous := Some(c.current), current := c.current * c.factor)
      else if c.previous.None? then c.(doomed := true)
      else Bracket(c, c.previous.value, c.current)
    case Searching(bottom, top) =>
      if pass then Bracket(c, c.current, top) else Bracket(c, bottom, c.current)
  }

  function Bracket(c: Controller, bottom: real, top: real): Controller {
    c.(phase := Searching(bottom, top), previous := Some(c.current), current := (bottom + top) / 2.0)
  }

  function Abs(x: real): real { if x < 0.0 then -x else x }

  // A quotient by zero is infinite or NaN and never below 0.01.
  predicate Converged(c: Controller) {
    && !c.doomed && c.phase.Searching? && c.previous.Some? && c.previous.value != 0.0
    && Abs(c.current / c.previous.value - 1.0) < 0.01
  }

  // RequestsPerSecondInputVariableSetter refuses loads that do not fit an unsigned 32-bit integer.
  predicate InRange(load: real) {
    0.0 <= load <= MAX_UINT32
  }

  // ---------- Runs against an arbitrary stream of scores ----------

  function AfterScores(c: Controller, scores: nat -> bool, n: nat): Controller {
    if n == 0 then c else Update(AfterScores(c, scores, n - 1), scores(n - 1))
  }

  // The adjusting stage leaves its loop in such a state: converged, doomed, or the next load is refused.
  predicate Halted(c: Controller) {
    Converged(c) || c.doomed || !InRange(c.current)
  }

  // ---------- Powers and quotients ----------

  function Pow(b: real, n: nat): real {
    if n == 0 then 1.0 else b * Pow(b, n - 1)
  }

  lemma Product(a: real, b: real)
    requires a >= 0.0 && b >= 0.0
    ensures a * b >= 0.0
    ensures a > 0.0 && b > 0.0 ==> a * b > 0.0
  {
  }

  lemma {:induction false} PowIsLarge(b: real, n: nat)
    requires b >= 1.0
    ensures Pow(b, n) >= 1.0 + n as real * (b - 1.0) >= 1.0
  {
    Product(n as real, b - 1.0);
    if n > 0 {
      PowIsLarge(b, n - 1);
      var p, x := Pow(b, n - 1), (n - 1) as real;
      Product(b - 1.0, p - 1.0);
      assert (b - 1.0) * (p - 1.0) == b * p - p - (b - 1.0);
      assert n as real * (b - 1.0) == x * (b - 1.0) + (b - 1.0);
    }
  }

  lemma {:induction false} PowGrows(b: real, m: nat, n: nat)
    requires b >= 1.0 && m <= n
    ensures Pow(b, m) <= Pow(b, n)
    decreases n
  {
    if m < n {
      PowGrows(b, m, n - 1);
      PowIsLarge(b, n - 1);
      Product(b - 1.0, Pow(b, n - 1));
      assert (b - 1.0) * Pow(b, n - 1) == Pow(b, n) - Pow(b, n - 1);
    }
  }

  lemma {:induction false} PowIsSmall(b: real, n: nat)
    requires 0.0 < b <= 1.0
    ensures 0.0 < Pow(b, n) <= 1.0
  {
    if n > 0 {
      PowIsSmall(b, n - 1);
      var p := Pow(b, n - 1);
      Product(b, p);
      Product(1.0 - b, p);
      assert (1.0 - b) * p == p - b * p;
    }
  }

  lemma RealCancelLt(a: real, b: real, y: real)
    requires y > 0.0 && a * y < b * y
    ensures a < b
  {
  }

  lemma ScaleLt(a: real, b: real, y: real)
    requires y > 0.0 && a < b
    ensures a * y < b * y
  {
  }

  lemma FactorRaises(x: real, factor: real, raised: real)
    requires x > 0.0 && factor > 1.0 && raised == x * factor
    ensures x < raised
  {
    var more := factor - 1.0;
    Product(x, more);
    assert x * factor == x + x * more;
  }

  lemma ScaleOnePercent(a: real, y: real, m: real, percent: real)
    requires y > 0.0 && m == a * y && percent == 0.01 * y
    ensures a < 0.01 <==> m < percent
  {
  }

  /** The convergence test without its division. */
  lemma QuotientNearOne(x: real, y: real)
    requires y > 0.0
    ensures Abs(x / y - 1.0) < 0.01 <==> Abs(x - y) < 0.01 * y
  {
    var d, percent := x / y - 1.0, 0.01 * y;
    AbsScales(d, y, x - y);
    ScaleOnePercent(Abs(d), y, Abs(x - y), percent);
  }

  lemma AbsScales(a: real, y: real, e: real)
    requires y > 0.0 && e == a * y
    ensures Abs(e) == Abs(a) * y
  {
    if a < 0.0 { Product(-a, y); assert (-a) * y == -(a * y); } else { Product(a, y); }
  }

  // ---------- How long the search can take ----------

  // The load after n passes in a row.
  function Load(initial: real, factor: real, n: nat): real {
    if n == 0 then initial else Load(initial, factor, n - 1) * factor
  }

  lemma {:induction false} LoadGrows(initial: real, factor: real, m: nat, n: nat)
    requires initial > 0.0 && factor > 1.0 && m <= n
    ensures 0.0 < Load(initial, factor, m) <= Load(initial, factor, n)
    decreases n
  {
    if n > 0 {
      LoadGrows(initial, factor, if m < n then m else m - 1, n - 1);
      var x := Load(initial, factor, n - 1);
      Product(x, factor - 1.0);
      assert x * (factor - 1.0) == x * factor - x;
    }
  }

  lemma {:induction false} LoadIsPower(initial: real, factor: real, n: nat)
    ensures Load(initial, factor, n) == initial * Pow(factor, n)
  {
    if n > 0 {
      LoadIsPower(initial, factor, n - 1);
      assert initial * Pow(factor, n - 1) * factor == initial * (factor * Pow(factor, n - 1));
    }
  }

  // After `ups` passes in a row the load no longer fits; after `cuts` halvings the search converges.
  predicate Bounds(initial: real, factor: real, ups: nat, cuts: nat) {
    Load(initial, factor, ups) > MAX_UINT32 && Pow(2.0, cuts + 1) > 100.0 * (factor - 1.0)
  }

  lemma UpsExist(initial: real, factor: real) returns (ups: nat)
    requires initial > 0.0 && factor > 1.0
    ensures initial * Pow(factor, ups) > MAX_UINT32
  {
    var step := (factor - 1.0) * initial;
    Product(factor - 1.0, initial);
    var quotient := MAX_UINT32 / step;
    ups := quotient.Floor + 1;
    var u := ups as real;
    ScaleLt(quotient, u, step);
    assert quotient * step == MAX_UINT32;
    PowIsLarge(factor, ups);
    var pow := Pow(factor, ups);
    assert u * step == (u * (factor - 1.0)) * initial;
    ScaleLt(u * (factor - 1.0), pow, initial);
  }

  /** Both bounds exist, by Bernoulli's inequality. */
  lemma BoundsExist(initial: real, factor: real) returns (ups: nat, cuts: nat)
    requires initial > 0.0 && factor > 1.0
    ensures Bounds(initial, factor, ups, cuts)
  {
    ups := UpsExist(initial, factor);
    LoadIsPower(initial, factor, ups);
    cuts := (100.0 * (factor - 1.0)).Floor;
    PowIsLarge(2.0, cuts + 1);
  }

  // Where a run stands: n passes in a row, or a failure after `ups` of them and `cuts` halvings since,
  // or a failure at the very first load.
  datatype Position = Rising(n: nat) | Bisecting(ups: nat, cuts: nat) | Dead

  function Move(at: Position, pass: bool): Position {
    match at
    case Rising(m) => if pass then Rising(m + 1) else if m == 0 then Dead else Bisecting(m, 0)
    case Bisecting(ups, cuts) => Bisecting(ups, cuts + 1)
    case Dead => Dead
  }

  function PositionAfter(scores: nat -> bool, n: nat): Position {
    if n == 0 then Rising(0) else Move(PositionAfter(scores, n - 1), scores(n - 1))
  }

  lemma {:induction false} PositionCounts(scores: nat -> bool, n: nat)
    ensures match PositionAfter(scores, n)
            case Rising(m) => m == n
            case Bisecting(ups, cuts) => 0 < ups && ups + 1 + cuts == n && PositionAfter(scores, ups) == Rising(ups)
            case Dead => true
  {
    if n > 0 { PositionCounts(scores, n - 1); }
  }

  // The bracket after `cuts` halvings of one that spanned from p to p*factor.
  ghost predicate InBracket(c: Controller, p: real, factor: real, cuts: nat) {
    && c.phase.Searching? && !c.doomed && p > 0.0
    && p <= c.phase.bottom < c.phase.top
    && (c.phase.top - c.phase.bottom) * Pow(2.0, cuts) == p * (factor - 1.0)
    && c.current == (c.phase.bottom + c.phase.top) / 2.0
    && c.previous.Some? && (c.previous.value == c.phase.bottom || c.previous.value == c.phase.top)
  }

  ghost predicate Stands(c: Controller, initial: real, factor: real, at: Position) {
    && c.factor == factor
    && match at
       case Rising(n) =>
         && c.phase.RangeFinding? && !c.doomed && c.current == Load(initial, factor, n)
         && c.previous == (if n == 0 then None else Some(Load(initial, factor, n - 1)))
       case Bisecting(ups, cuts) => ups > 0 && InBracket(c, Load(initial, factor, ups - 1), factor, cuts)
       case Dead => c.doomed
  }

  lemma BracketOpens(c: Controller, initial: real, factor: real, n: nat)
    requires initial > 0.0 && factor > 1.0 && n > 0 && Stands(c, initial, factor, Rising(n))
    ensures InBracket(Update(c, false), Load(initial, factor, n - 1), factor, 0)
  {
    LoadGrows(initial, factor, n - 1, n);
    var p := Load(initial, factor, n - 1);
    FactorRaises(p, factor, c.current);
    assert c.current == p * factor;
    assert p * factor - p == p * (factor - 1.0);
    assert Pow(2.0, 0) == 1.0;
  }

  lemma BracketHalves(c: Controller, p: real, factor: real, cuts: nat, pass: bool)
    requires InBracket(c, p, factor, cuts)
    ensures InBracket(Update(c, pass), p, factor, cuts + 1)
  {
    var w := c.phase.top - c.phase.bottom;
    assert (w / 2.0) * (2.0 * Pow(2.0, cuts)) == w * Pow(2.0, cuts);
  }

  lemma UpdateStands(c: Controller, initial: real, factor: real, at: Position, pass: bool)
    requires initial > 0.0 && factor > 1.0 && Stands(c, initial, factor, at)
    ensures Stands(Update(c, pass), initial, factor, Move(at, pass))
  {
    match at
    case Rising(m) =>
      if pass {
      } else if m > 0 {
        BracketOpens(c, initial, factor, m);
      }
    case Bisecting(ups, cuts) => BracketHalves(c, Load(initial, factor, ups - 1), factor, cuts, pass);
    case Dead =>
  }

  lemma {:induction false} RunStands(initial: real, factor: real, scores: nat -> bool, n: nat)
    requires initial > 0.0 && factor > 1.0
    ensures Stands(AfterScores(Fresh(initial, factor), scores, n), initial, factor, PositionAfter(scores, n))
  {
    if n > 0 {
      RunStands(initial, factor, scores, n - 1);
      UpdateStands(AfterScores(Fresh(initial, factor), scores, n - 1), initial, factor, PositionAfter(scores, n - 1), scores(n - 1));
    }
  }

  lemma NarrowBracket(w: real, p: real, factor: real, two: real)
    requires p > 0.0 && two > 0.0 && w * two == p * (factor - 1.0) && 2.0 * two > 100.0 * (factor - 1.0)
    ensures w / 2.0 < 0.01 * p
  {
    var more, left, right := factor - 1.0, 100.0 * w, 2.0 * p;
    ScaleLt(100.0 * more, 2.0 * two, p);
    assert left * two == (100.0 * more) * p by {
      assert left * two == 100.0 * (w * two);
      assert 100.0 * (p * more) == (100.0 * more) * p;
    }
    assert right * two == (2.0 * two) * p;
    RealCancelLt(left, right, two);
  }

  /** The distance to the previous load is always half the bracket, so enough halvings converge. */
  lemma EnoughCutsConverge(c: Controller, p: real, factor: real, cuts: nat)
    requires InBracket(c, p, factor, cuts) && Pow(2.0, cuts + 1) > 100.0 * (factor - 1.0)
    ensures Converged(c)
  {
    var w, prev, two := c.phase.top - c.phase.bottom, c.previous.value, Pow(2.0, cuts);
    PowIsLarge(2.0, cuts);
    NarrowBracket(w, p, factor, two);
    assert Abs(c.current - prev) == w / 2.0;
    QuotientNearOne(c.current, prev);
  }

  predicate HaltedAt(initial: real, factor: real, scores: nat -> bool, n: nat) {
    Halted(AfterScores(Fresh(initial, factor), scores, n))
  }

  lemma HaltedByPosition(c: Controller, initial: real, factor: real, at: Position, ups: nat, cuts: nat)
    requires initial > 0.0 && factor > 1.0 && Bounds(initial, factor, ups, cuts) && Stands(c, initial, factor, at)
    requires match at case Rising(m) => m >= ups case Bisecting(_, k) => k >= cuts case Dead => true
    ensures Halted(c)
  {
    match at
    case Dead =>
    case Rising(m) => LoadGrows(initial, factor, ups, m);
    case Bisecting(j, k) =>
      PowGrows(2.0, cuts + 1, k + 1);
      EnoughCutsConverge(c, Load(initial, factor, j - 1), factor, k);
  }

  /** The adjusting stage always stops: whatever the scores, it has converged, is doomed or has left
      the range of loads within ups + cuts benchmarks. */
  lemma HaltsWithinBounds(initial: real, factor: real, scores: nat -> bool, ups: nat, cuts: nat) returns (n: nat)
    requires initial > 0.0 && factor > 1.0 && Bounds(initial, factor, ups, cuts)
    ensures n <= ups + cuts && HaltedAt(initial, factor, scores, n)
  {
    n := ups + cuts;
    PositionCounts(scores, n);
    var at := PositionAfter(scores, n);
    if at.Bisecting? && at.ups >= ups {
      n := at.ups;
    }
    RunStands(initial, factor, scores, n);
    HaltedByPosition(AfterScores(Fresh(initial, factor), scores, n), initial, factor, PositionAfter(scores, n), ups, cuts);
  }

  predicate AlwaysPass(n: nat) { true }

  /** Without a factor above one, or from a load of zero, benchmarks that always pass never end. */
  lemma {:induction false} NeverHaltsOnPasses(initial: real, factor: real, n: nat)
    requires InRange(initial) && factor > 0.0 && (initial == 0.0 || factor <= 1.0)
    ensures var c := AfterScores(Fresh(initial, factor), AlwaysPass, n);
            c.factor == factor && c.phase.RangeFinding? && !c.doomed && 0.0 <= c.current <= initial && !Halted(c)
  {
    if n > 0 {
      NeverHaltsOnPasses(initial, factor, n - 1);
      var c := AfterScores(Fresh(initial, factor), AlwaysPass, n - 1);
      Product(c.current, factor);
      if factor <= 1.0 {
        Product(c.current, 1.0 - factor);
        assert c.current * (1.0 - factor) == c.current - c.current * factor;
      }
    }
  }

  ghost predicate EventuallyHalts(initial: real, factor: real, scores: nat -> bool) {
    exists n: nat :: HaltedAt(initial, factor, scores, n)
  }

  /** Exactly when the adjusting stage is sure to stop without its deadline: the initial load does not fit an
      unsigned 32-bit integer already, or it is positive and the factor exceeds one or is not set. */
  lemma StopsExactlyWhen(initial: real, factor: real)
    ensures (forall scores: nat -> bool :: EventuallyHalts(initial, factor, scores)) <==>
            initial < 0.0 || initial > 4294967295.0 || (initial > 0.0 && (factor > 1.0 || factor <= 0.0))
  {
    var effective := EffectiveFactor(factor);
    assert forall scores, n :: HaltedAt(initial, factor, scores, n) == HaltedAt(initial, effective, scores, n);
    if !InRange(initial) {
      forall scores: nat -> bool ensures EventuallyHalts(initial, factor, scores) {
        assert HaltedAt(initial, factor, scores, 0);
      }
    } else if initial > 0.0 && effective > 1.0 {
      var ups, cuts := BoundsExist(initial, effective);
      forall scores: nat -> bool ensures EventuallyHalts(initial, factor, scores) {
        var n := HaltsWithinBounds(initial, effective, scores, ups, cuts);
        assert HaltedAt(initial, factor, scores, n);
      }
    } else {
      forall n: nat ensures !HaltedAt(initial, factor, AlwaysPass, n) {
        NeverHaltsOnPasses(initial, effective, n);
      }
      assert !EventuallyHalts(initial, factor, AlwaysPass);
    }
  }

  /** As long as every benchmark passes, each one multiplies the load by the configured factor, or doubles it
      when none is set. */
  lemma {:induction false} PassesRaiseTheLoad(initial: real, configured: real, n: nat)
    ensures var c := AfterScores(Fresh(initial, configured), AlwaysPass, n);
      && c.phase.RangeFinding? && !c.doomed
      && c.current == initial * Pow(if configured > 0.0 then configured else 2.0, n)
      && c.factor == if configured > 0.0 then configured else 2.0
  {
    if n > 0 {
      PassesRaiseTheLoad(initial, configured, n - 1);
      var factor := if configured > 0.0 then configured else 2.0;
      assert initial * Pow(factor, n - 1) * factor == initial * (factor * Pow(factor, n - 1));
    }
  }

  // ---------- Accuracy ----------

  // Loads pass up to a threshold and fail beyond it; at the threshold itself either may happen.
  ghost predicate Threshold(passes: real -> bool, t: real) {
    forall load: real :: (load < t ==> passes(load)) && (load > t ==> !passes(load))
  }

  function AfterLoads(c: Controller, passes: real -> bool, n: nat): Controller {
    if n == 0 then c else Update(AfterLoads(c, passes, n - 1), passes(AfterLoads(c, passes, n - 1).current))
  }

  // Every load measured so far lies on the right side of the threshold.
  ghost predicate Straddles(c: Controller, passes: real -> bool, t: real) {
    && (c.previous.Some? && c.phase.RangeFinding? ==> passes(c.previous.value) && 0.0 < c.previous.value < c.current)
    && (c.phase.Searching? ==>
          && passes(c.phase.bottom) && !passes(c.phase.top)
          && 0.0 < c.phase.bottom <= t <= c.phase.top && c.phase.bottom < c.phase.top
          && c.current == (c.phase.bottom + c.phase.top) / 2.0
          && c.previous.Some? && (c.previous.value == c.phase.bottom || c.previous.value == c.phase.top))
  }

  lemma UpdateStraddles(c: Controller, passes: real -> bool, t: real)
    requires Threshold(passes, t) && Straddles(c, passes, t) && c.factor > 1.0 && c.current > 0.0
    ensures var c' := Update(c, passes(c.current)); Straddles(c', passes, t) && c'.factor > 1.0 && c'.current > 0.0
  {
    if c.phase.RangeFinding? {
      FactorRaises(c.current, c.factor, Update(c, true).current);
    }
  }

  /** Throughout the search the bracket holds the threshold, its bottom was measured passing and its
      top failing; once converged, the load handed to the testing stage is within one percent of the
      previous load from the threshold. */
  lemma {:induction false} SearchFindsThreshold(initial: real, factor: real, passes: real -> bool, t: real, n: nat)
    requires initial > 0.0 && factor > 1.0 && Threshold(passes, t)
    ensures var c := AfterLoads(Fresh(initial, factor), passes, n);
            && Straddles(c, passes, t) && c.factor > 1.0 && c.current > 0.0
            && (Converged(c) ==> Abs(c.current - t) < 0.01 * c.previous.value)
  {
    var c0 := Fresh(initial, factor);
    if n > 0 {
      SearchFindsThreshold(initial, factor, passes, t, n - 1);
      UpdateStraddles(AfterLoads(c0, passes, n - 1), passes, t);
    }
    var c := AfterLoads(c0, passes, n);
    if Converged(c) {
      QuotientNearOne(c.current, c.previous.value);
    }
  }

  // SetInputVariable casts the load to an unsigned integer, which drops its fraction.
  function AppliedRps(load: real): int {
    load.Floor
  }

  // A system under test that copes with up to `most` whole requests per second.
  function Copes(most: int): real -> bool {
    (load: real) => AppliedRps(load) <= most
  }

  /** The loads seen by the search have the threshold of such a system at most + 1. */
  lemma WholeRpsThreshold(most: int)
    ensures Threshold(Copes(most), most as real + 1.0)
  {
    forall load: real
      ensures load < most as real + 1.0 ==> Copes(most)(load)
      ensures load > most as real + 1.0 ==> !Copes(most)(load)
    {
    }
  }
}
