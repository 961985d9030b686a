/** The step controller as an object, and the session that drives it against benchmark runs. */
module AdaptiveLoad {
  import opened Wrappers
  import opened StepController

  datatype MetricEvaluation = MetricEvaluation(weight: real, thresholdScore: real)

  predicate WithinThresholds(evaluations: seq<MetricEvaluation>) {
    forall i :: 0 <= i < |evaluations| ==> evaluations[i].weight > 0.0 ==> evaluations[i].thresholdScore >= 0.0
  }

  method TotalScore(evaluations: seq<MetricEvaluation>) returns (score: real)
    ensures score == if WithinThresholds(evaluations) then 1.0 else -1.0
  {
    for i := 0 to |evaluations|
      invariant WithinThresholds(evaluations[..i])
    {
      if evaluations[i].weight > 0.0 && evaluations[i].thresholdScore < 0.0 {
        return -1.0;
      }
      assert evaluations[..i + 1] == evaluations[..i] + [evaluations[i]];
    }
    assert evaluations[..|evaluations|] == evaluations;
    return 1.0;
  }

  class ExponentialSearchStepController {
    const exponentialFactor: real
    var isRangeFindingPhase: bool
    var previousLoadValue: Option<real>
    var currentLoadValue: real
    var bottomLoadValue: Option<real>
    var topLoadValue: Option<real>
    var doomReason: string

    ghost predicate Valid()
      reads this
    {
      isRangeFindingPhase || (bottomLoadValue.Some? && topLoadValue.Some?)
    }

    ghost function Model(): Controller
      requires Valid()
      reads this
    {
      Controller(if isRangeFindingPhase then RangeFinding else Searching(bottomLoadValue.value, topLoadValue.value),
                 exponentialFactor, previousLoadValue, currentLoadValue, doomReason != "")
    }

    constructor (initialValue: real, configuredFactor: real)
      ensures Valid() && Model() == Fresh(initialValue, configuredFactor)
    {
      exponentialFactor := if configuredFactor > 0.0 then configuredFactor else 2.0;
      currentLoadValue, isRangeFindingPhase, doomReason := initialValue, true, "";
      previousLoadValue, bottomLoadValue, topLoadValue := None, None, None;
    }

    method UpdateAndRecompute(evaluations: seq<MetricEvaluation>)
      requires Valid()
      modifies this
      ensures Valid() && Model() == Update(old(Model()), WithinThresholds(evaluations))
    {
      var score := TotalScore(evaluations);
      if isRangeFindingPhase {
        IterateRangeFindingPhase(score);
      } else {
        IterateBinarySearchPhase(score);
      }
    }

    method IterateRangeFindingPhase(score: real)
      requires Valid() && isRangeFindingPhase
      modifies this
      ensures Valid() && Model() == Update(old(Model()), score > 0.0)
    {
      if score > 0.0 {
        previousLoadValue := Some(currentLoadValue);
        currentLoadValue := currentLoadValue * exponentialFactor;
      } else {
        if previousLoadValue.None? {
          doomReason := "the metrics exceed their thresholds with the initial load";
          return;
        }
        isRangeFindingPhase := false;
        bottomLoadValue := previousLoadValue;
        topLoadValue := Some(currentLoadValue);
        previousLoadValue := Some(currentLoadValue);
        currentLoadValue := (bottomLoadValue.value + topLoadValue.value) / 2.0;
      }
    }

    method IterateBinarySearchPhase(score: real)
      requires Valid() && !isRangeFindingPhase
      modifies this
      ensures Valid() && Model() == Update(old(Model()), score > 0.0)
    {
      if score > 0.0 {
        bottomLoadValue := Some(currentLoadValue);
      } else {
        topLoadValue := Some(currentLoadValue);
      }
      previousLoadValue := Some(currentLoadValue);
      currentLoadValue := (bottomLoadValue.value + topLoadValue.value) / 2.0;
    }

    // The load to request next, as a whole number per second, if it fits.
    method GetRequestsPerSecond() returns (rps: Option<int>)
      requires Valid()
      ensures rps.Some? <==> InRange(Model().current)
      ensures rps.Some? ==> rps.value == AppliedRps(Model().current)
    {
      if currentLoadValue < 0.0 || currentLoadValue > MAX_UINT32 {
        return None;
      }
      return Some(currentLoadValue.Floor);
    }

    method IsConverged() returns (b: bool)
      requires Valid()
      ensures b == Converged(Model())
    {
      b := doomReason == "" && !isRangeFindingPhase && previousLoadValue.Some? && previousLoadValue.value != 0.0
           && Abs(currentLoadValue / previousLoadValue.value - 1.0) < 0.01;
    }
  }

  // ---------- The session ----------

  // One benchmark: its evaluations, or the service's or the scorer's error, and the time then passed.
  datatype Benchmark = Benchmark(evaluations: Result<seq<MetricEvaluation>, string>, elapsed: int)

  datatype Session =
    | LoadRefused
    | BenchmarkFailed(error: string)
    | DeadlineExceeded
    | Aborted
    | Completed(adjusting: seq<seq<MetricEvaluation>>, testing: seq<MetricEvaluation>)

  function Scores(benchmarks: nat -> Benchmark): nat -> bool {
    (i: nat) => benchmarks(i).evaluations.Success? && WithinThresholds(benchmarks(i).evaluations.value)
  }

  // The controller after the adjusting stage has seen n benchmarks.
  function Adjusted(initial: real, configuredFactor: real, benchmarks: nat -> Benchmark, n: nat): Controller {
    AfterScores(Fresh(initial, configuredFactor), Scores(benchmarks), n)
  }

  predicate SureToStop(initial: real, configuredFactor: real) {
    !InRange(initial) || (initial > 0.0 && EffectiveFactor(configuredFactor) > 1.0)
  }

  // Every benchmark takes some time.
  ghost predicate ClockAdvances(benchmarks: nat -> Benchmark) {
    forall i: nat, j: nat | i < j :: benchmarks(i).elapsed < benchmarks(j).elapsed
  }

  // The first n benchmarks all ran, in time, and none of the states between them ended the loop.
  ghost predicate AdjustedSoFar(initial: real, configuredFactor: real, deadline: int, benchmarks: nat -> Benchmark,
                                results: seq<seq<MetricEvaluation>>) {
    && (forall m: nat | m < |results| :: !Halted(Adjusted(initial, configuredFactor, benchmarks, m)))
    && (forall i: nat | i < |results| :: benchmarks(i).evaluations == Success(results[i]))
    && (forall i: nat | i < |results| - 1 :: benchmarks(i).elapsed <= deadline)
  }

  // What the outcome of the adjusting stage says about the controller it leaves.
  ghost predicate StageEnded(end: StageEnd, c: Controller, benchmark: nat -> Benchmark, n: nat, deadline: int) {
    && (end == TooLate <==> n > 0 && benchmark(n - 1).elapsed > deadline)
    && match end
       case HasConverged => n > 0 && Converged(c)
       case IsDoomed => n > 0 && c.doomed
       case TooLate => true
       case Refused => !Converged(c) && !c.doomed && !InRange(c.current)
       case Failed(error) => !Halted(c) && benchmark(n).evaluations == Failure(error)
  }

  datatype StageEnd = HasConverged | IsDoomed | TooLate | Refused | Failed(error: string)

  /** The adjusting loop ends whatever the benchmarks report; each way of ending says what state the
      controller is in. */
  method AdjustLoad(controller: ExponentialSearchStepController, initial: real, configuredFactor: real, deadline: int,
                    benchmarks: nat -> Benchmark)
    returns (end: StageEnd, results: seq<seq<MetricEvaluation>>)
    requires controller.Valid() && controller.Model() == Fresh(initial, configuredFactor)
    requires SureToStop(initial, configuredFactor) || ClockAdvances(benchmarks)
    modifies controller
    ensures controller.Valid() && controller.Model() == Adjusted(initial, configuredFactor, benchmarks, |results|)
    ensures AdjustedSoFar(initial, configuredFactor, deadline, benchmarks, results)
    ensures StageEnded(end, controller.Model(), benchmarks, |results|, deadline)
  {
    hide Adjusted, AdjustedSoFar, Fresh, Update, SureToStop, ClockAdvances, Converged, WithinThresholds;
    ghost var last := StageIsFinite(initial, configuredFactor, deadline, benchmarks);
    results := [];
    NothingAdjusted(initial, configuredFactor, deadline, benchmarks);
    while true
      invariant controller.Valid() && controller.Model() == Adjusted(initial, configuredFactor, benchmarks, |results|)
      invariant AdjustedSoFar(initial, configuredFactor, deadline, benchmarks, results)
      invariant !Converged(controller.Model()) && !controller.Model().doomed
      invariant results != [] ==> benchmarks(|results| - 1).elapsed <= deadline
      decreases last - |results|
    {
      ghost var before := controller.Model();
      var rps := controller.GetRequestsPerSecond();
      if rps.None? {
        return Refused, results;
      }
      var benchmark := benchmarks(|results|);
      if benchmark.evaluations.Failure? {
        return Failed(benchmark.evaluations.error), results;
      }
      assert !Halted(before) && |results| < last;
      AdjustedOneMore(initial, configuredFactor, deadline, benchmarks, results, benchmark.evaluations.value);
      controller.UpdateAndRecompute(benchmark.evaluations.value);
      results := results + [benchmark.evaluations.value];
      if benchmark.elapsed > deadline {
        return TooLate, results;
      }
      var converged := controller.IsConverged();
      if converged {
        return HasConverged, results;
      }
      if controller.doomReason != "" {
        return IsDoomed, results;
      }
    }
  }

  /** A session that completes converged in its adjusting stage and ran its testing stage at the load
      it converged to; the other outcomes name what stopped it. It is the deadline exactly when the last
      benchmark of the adjusting stage ended after it, whatever that benchmark showed. No session takes
      more benchmarks to adjust than the bounds allow. */
  method PerformAdaptiveLoadSession(initial: real, configuredFactor: real, deadline: int, benchmarks: nat -> Benchmark)
    returns (r: Session, results: seq<seq<MetricEvaluation>>)
    requires SureToStop(initial, configuredFactor) || ClockAdvances(benchmarks)
    ensures AdjustedSoFar(initial, configuredFactor, deadline, benchmarks, results)
    ensures r == DeadlineExceeded <==> results != [] && benchmarks(|results| - 1).elapsed > deadline
    ensures var c := Adjusted(initial, configuredFactor, benchmarks, |results|);
            match r
            case Completed(adjusting, testing) =>
              && results != [] && benchmarks(|results| - 1).elapsed <= deadline && Converged(c) && InRange(c.current)
              && adjusting == results && benchmarks(|results|).evaluations == Success(testing)
            case Aborted => results != [] && benchmarks(|results| - 1).elapsed <= deadline && c.doomed
            case DeadlineExceeded => true
            case LoadRefused => !c.doomed && !InRange(c.current)
            case BenchmarkFailed(error) => !c.doomed && InRange(c.current) && benchmarks(|results|).evaluations == Failure(error)
    ensures forall ups: nat, cuts: nat |
              SureToStop(initial, configuredFactor) && InRange(initial) &&
              Bounds(initial, EffectiveFactor(configuredFactor), ups, cuts) :: |results| <= ups + cuts
  {
    var controller := new ExponentialSearchStepController(initial, configuredFactor);
    var end;
    end, results := AdjustLoad(controller, initial, configuredFactor, deadline, benchmarks);
    if SureToStop(initial, configuredFactor) {
      AdjustingIsBounded(initial, configuredFactor, deadline, benchmarks, results);
    }
    match end
    case Refused => return LoadRefused, results;
    case Failed(error) => return BenchmarkFailed(error), results;
    case TooLate => return DeadlineExceeded, results;
    case IsDoomed => return Aborted, results;
    case HasConverged =>
      var rps := controller.GetRequestsPerSecond();
      if rps.None? {
        return LoadRefused, results;
      }
      var benchmark := benchmarks(|results|);
      if benchmark.evaluations.Failure? {
        return BenchmarkFailed(benchmark.evaluations.error), results;
      }
      controller.UpdateAndRecompute(benchmark.evaluations.value);
      return Completed(results, benchmark.evaluations.value), results;
  }

  // The number of benchmarks that can be over by the deadline, and one more.
  ghost function LastInTime(benchmarks: nat -> Benchmark, deadline: int): nat {
    if benchmarks(0).elapsed > deadline then 1 else deadline - benchmarks(0).elapsed + 2
  }

  lemma {:induction false} TimeAddsUp(benchmarks: nat -> Benchmark, n: nat)
    requires ClockAdvances(benchmarks)
    ensures benchmarks(n).elapsed >= benchmarks(0).elapsed + n
  {
    if n > 0 { TimeAddsUp(benchmarks, n - 1); }
  }

  lemma TimeRunsOut(benchmarks: nat -> Benchmark, deadline: int, n: nat)
    requires ClockAdvances(benchmarks) && (n > 0 ==> benchmarks(n - 1).elapsed <= deadline)
    ensures n < LastInTime(benchmarks, deadline)
  {
    if n > 0 { TimeAddsUp(benchmarks, n - 1); }
  }

  // Some benchmark count by which the adjusting loop has ended.
  lemma LastBenchmark(initial: real, configuredFactor: real, benchmarks: nat -> Benchmark) returns (last: nat)
    requires SureToStop(initial, configuredFactor)
    ensures Halted(Adjusted(initial, configuredFactor, benchmarks, last))
    ensures forall results, deadline ::
              AdjustedSoFar(initial, configuredFactor, deadline, benchmarks, results) ==> |results| <= last
  {
    var factor := EffectiveFactor(configuredFactor);
    assert Fresh(initial, factor) == Fresh(initial, configuredFactor);
    if !InRange(initial) {
      last := 0;
    } else {
      var ups, cuts := BoundsExist(initial, factor);
      last := HaltsWithinBounds(initial, factor, Scores(benchmarks), ups, cuts);
      assert HaltedAt(initial, factor, Scores(benchmarks), last);
    }
  }

  /** Either the scores or the clock end the stage: some number of benchmarks is never exceeded. */
  lemma StageIsFinite(initial: real, configuredFactor: real, deadline: int, benchmarks: nat -> Benchmark) returns (last: nat)
    requires SureToStop(initial, configuredFactor) || ClockAdvances(benchmarks)
    ensures forall results |
              && AdjustedSoFar(initial, configuredFactor, deadline, benchmarks, results)
              && !Halted(Adjusted(initial, configuredFactor, benchmarks, |results|))
              && (results != [] ==> benchmarks(|results| - 1).elapsed <= deadline) :: |results| < last
  {
    if SureToStop(initial, configuredFactor) {
      last := LastBenchmark(initial, configuredFactor, benchmarks);
    } else {
      last := LastInTime(benchmarks, deadline);
      forall results: seq<seq<MetricEvaluation>> | results != [] ==> benchmarks(|results| - 1).elapsed <= deadline
        ensures |results| < last
      {
        TimeRunsOut(benchmarks, deadline, |results|);
      }
    }
  }

  lemma NothingAdjusted(initial: real, configuredFactor: real, deadline: int, benchmarks: nat -> Benchmark)
    ensures AdjustedSoFar(initial, configuredFactor, deadline, benchmarks, [])
    ensures Adjusted(initial, configuredFactor, benchmarks, 0) == Fresh(initial, configuredFactor)
    ensures !Converged(Fresh(initial, configuredFactor)) && !Fresh(initial, configuredFactor).doomed
  {
  }

  lemma AdjustedOneMore(initial: real, configuredFactor: real, deadline: int, benchmarks: nat -> Benchmark,
                        results: seq<seq<MetricEvaluation>>, evaluations: seq<MetricEvaluation>)
    requires AdjustedSoFar(initial, configuredFactor, deadline, benchmarks, results)
    requires !Halted(Adjusted(initial, configuredFactor, benchmarks, |results|))
    requires benchmarks(|results|).evaluations == Success(evaluations)
    requires results != [] ==> benchmarks(|results| - 1).elapsed <= deadline
    ensures AdjustedSoFar(initial, configuredFactor, deadline, benchmarks, results + [evaluations])
    ensures Adjusted(initial, configuredFactor, benchmarks, |results| + 1) ==
            Update(Adjusted(initial, configuredFactor, benchmarks, |results|), WithinThresholds(evaluations))
  {
    hide Update, Halted;
  }

  lemma AdjustingIsBounded(initial: real, configuredFactor: real, deadline: int, benchmarks: nat -> Benchmark,
                           results: seq<seq<MetricEvaluation>>)
    requires SureToStop(initial, configuredFactor)
    requires AdjustedSoFar(initial, configuredFactor, deadline, benchmarks, results)
    ensures forall ups: nat, cuts: nat |
              InRange(initial) && Bounds(initial, EffectiveFactor(configuredFactor), ups, cuts) :: |results| <= ups + cuts
  {
    var factor := EffectiveFactor(configuredFactor);
    assert Fresh(initial, factor) == Fresh(initial, configuredFactor);
    forall ups: nat, cuts: nat | InRange(initial) && Bounds(initial, factor, ups, cuts)
      ensures |results| <= ups + cuts
    {
      var n := HaltsWithinBounds(initial, factor, Scores(benchmarks), ups, cuts);
      assert Halted(Adjusted(initial, configuredFactor, benchmarks, n));
    }
  }

  // ---------- Accuracy of a session ----------

  // The first n benchmarks pass or fail as the system under test does at the loads they were run at.
  ghost predicate Answers(initial: real, configuredFactor: real, benchmarks: nat -> Benchmark, passes: real -> bool, n: nat) {
    forall i: nat | i < n :: Scores(benchmarks)(i) == passes(Adjusted(initial, configuredFactor, benchmarks, i).current)
  }

  // One step of both ways to count, so that proofs need not unfold them further.
  lemma OneMoreLoad(c: Controller, scores: nat -> bool, passes: real -> bool, n: nat)
    ensures AfterScores(c, scores, n + 1) == Update(AfterScores(c, scores, n), scores(n))
    ensures AfterLoads(c, passes, n + 1) == Update(AfterLoads(c, passes, n), passes(AfterLoads(c, passes, n).current))
  {
    hide Update;
  }

  lemma {:induction false} AnswersDecideLoads(initial: real, configuredFactor: real, benchmarks: nat -> Benchmark,
                                              passes: real -> bool, n: nat)
    requires Answers(initial, configuredFactor, benchmarks, passes, n)
    ensures Adjusted(initial, configuredFactor, benchmarks, n) == AfterLoads(Fresh(initial, configuredFactor), passes, n)
  {
    var c := Fresh(initial, configuredFactor);
    if n == 0 {
      assert AfterScores(c, Scores(benchmarks), 0) == c == AfterLoads(c, passes, 0);
    } else {
      hide Update, Fresh, AfterScores, AfterLoads, Scores;
      AnswersDecideLoads(initial, configuredFactor, benchmarks, passes, n - 1);
      OneMoreLoad(c, Scores(benchmarks), passes, n - 1);
    }
  }

  /** The load a session hands to its testing stage, once converged, against any system with a
      threshold: less than one percent of the previous load away from it. */
  lemma SessionFindsThreshold(initial: real, configuredFactor: real, benchmarks: nat -> Benchmark,
                              passes: real -> bool, t: real, n: nat)
    requires initial > 0.0 && EffectiveFactor(configuredFactor) > 1.0
    requires Threshold(passes, t) && Answers(initial, configuredFactor, benchmarks, passes, n)
    ensures var c := Adjusted(initial, configuredFactor, benchmarks, n);
            Straddles(c, passes, t) && (Converged(c) ==> Abs(c.current - t) < 0.01 * c.previous.value)
  {
    hide Update, Threshold, Straddles, Converged, Answers, Adjusted, AfterLoads;
    var factor := EffectiveFactor(configuredFactor);
    assert Fresh(initial, factor) == Fresh(initial, configuredFactor);
    AnswersDecideLoads(initial, configuredFactor, benchmarks, passes, n);
    SearchFindsThreshold(initial, factor, passes, t, n);
  }

  /** In whole requests per second: the rate applied in the testing stage exceeds the most the system
      copes with by less than one plus one percent of the previous load, and falls short of it by less
      than that one percent. */
  lemma SessionFindsMostRps(initial: real, configuredFactor: real, benchmarks: nat -> Benchmark, most: int, n: nat)
    requires initial > 0.0 && EffectiveFactor(configuredFactor) > 1.0
    requires Answers(initial, configuredFactor, benchmarks, Copes(most), n)
    ensures var c := Adjusted(initial, configuredFactor, benchmarks, n);
            Converged(c) ==>
              var percent := 0.01 * c.previous.value;
              -percent < AppliedRps(c.current) as real - most as real < 1.0 + percent
  {
    WholeRpsThreshold(most);
    hide Copes, Threshold, Straddles, Answers, Adjusted;
    SessionFindsThreshold(initial, configuredFactor, benchmarks, Copes(most), most as real + 1.0, n);
  }
}
