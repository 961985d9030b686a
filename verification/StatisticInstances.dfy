/** The statistic objects that workers update in place, and the merging of the workers' vectors. */
module StatisticInstances {
  import opened Statistics

  class StreamingStatistic {
    var min: nat
    var max: nat
    var count: nat
    var mean: Double
    var accumulatedVariance: Double

    constructor ()
      ensures Model() == EmptyStreaming
    {
      min, max, count, mean, accumulatedVariance := UINT64_MAX, 0, 0, Num(0.0), Num(0.0);
    }

    function Model(): Streaming
      reads this
    {
      Streaming(count, min, max, mean, accumulatedVariance)
    }

    method AddValue(value: nat)
      modifies this
      ensures Model() == AddSample(old(Model()), value)
    {
      min := Min(min, value);
      max := Max(max, value);
      count := count + 1;
      var delta := Sub(OfNat(value), mean);
      var deltaN := Div(delta, OfNat(count));
      mean := Add(mean, deltaN);
      accumulatedVariance := Add(accumulatedVariance, Mul(Mul(delta, deltaN), Sub(OfNat(count), Num(1.0))));
    }

    /** The mean and population variance of whatever samples this statistic has seen. */
    method Report(ghost samples: seq<nat>) returns (m: Double, v: Double)
      requires Represents(Model(), samples)
      ensures if samples == [] then m == NaN && v == NaN else m == Num(TrueMean(samples)) && v == Num(TrueVariance(samples))
    {
      ReportedMoments(Model(), samples);
      m := MeanOf(Model());
      v := PVarianceOf(Model());
    }

    /** A new statistic; neither operand changes. */
    method CombineWith(b: StreamingStatistic) returns (combined: StreamingStatistic)
      ensures fresh(combined) && combined.Model() == Combine(Model(), b.Model())
    {
      hide Add, Sub, Mul, Div, MeanOrZero;
      combined := new StreamingStatistic();
      combined.min := Min(min, b.min);
      combined.max := Max(max, b.max);
      combined.count := count + b.count;
      var aMean, bMean := MeanOrZero(Model()), MeanOrZero(b.Model());
      combined.mean := Div(Add(Mul(OfNat(count), aMean), Mul(OfNat(b.count), bMean)), OfNat(combined.count));
      var gap := Sub(aMean, bMean);
      combined.accumulatedVariance := Add(Add(accumulatedVariance, b.accumulatedVariance),
                                          Div(Mul(Mul(Mul(gap, gap), OfNat(count)), OfNat(b.count)), OfNat(combined.count)));
    }
  }

  class SimpleStatistic {
    var min: nat
    var max: nat
    var count: nat
    var sumX: real
    var sumX2: real

    constructor ()
      ensures Model() == EmptySimple
    {
      min, max, count, sumX, sumX2 := UINT64_MAX, 0, 0, 0.0, 0.0;
    }

    function Model(): Simple
      reads this
    {
      Simple(count, min, max, sumX, sumX2)
    }

    method AddValue(value: nat)
      modifies this
      ensures Model() == AddToSimple(old(Model()), value)
    {
      min := Min(min, value);
      max := Max(max, value);
      count := count + 1;
      sumX := sumX + value as real;
      sumX2 := sumX2 + 1.0 * value as real * value as real;
    }

    method CombineWith(b: SimpleStatistic) returns (combined: SimpleStatistic)
      ensures fresh(combined) && combined.Model() == CombineSimple(Model(), b.Model())
    {
      combined := new SimpleStatistic();
      combined.min := Min(min, b.min);
      combined.max := Max(max, b.max);
      combined.count := count + b.count;
      combined.sumX := sumX + b.sumX;
      combined.sumX2 := sumX2 + b.sumX2;
    }
  }

  class InMemoryStatistic {
    var min: nat
    var max: nat
    var count: nat
    var samples: seq<nat>
    var streamingStats: StreamingStatistic

    constructor ()
      ensures fresh(streamingStats) && Model() == EmptyInMemory
    {
      min, max, count, samples := UINT64_MAX, 0, 0, [];
      streamingStats := new StreamingStatistic();
    }

    function Model(): InMemory
      reads this, streamingStats
    {
      InMemory(samples, count, min, max, streamingStats.Model())
    }

    method AddValue(value: nat)
      modifies this, streamingStats
      ensures streamingStats == old(streamingStats) && Model() == AddToInMemory(old(Model()), value)
    {
      hide AddSample;
      min := Min(min, value);
      max := Max(max, value);
      count := count + 1;
      samples := samples + [value];
      streamingStats.AddValue(value);
    }

    method CombineWith(b: InMemoryStatistic) returns (combined: InMemoryStatistic)
      ensures fresh(combined) && fresh(combined.streamingStats)
      ensures combined.Model() == CombineInMemory(Model(), b.Model())
    {
      hide Combine;
      combined := new InMemoryStatistic();
      combined.min := Min(min, b.min);
      combined.max := Max(max, b.max);
      combined.samples := combined.samples + samples;
      combined.samples := combined.samples + b.samples;
      combined.streamingStats := streamingStats.CombineWith(b.streamingStats);
      combined.count := |combined.samples|;
    }
  }

  // ---------- One worker's statistics ----------

  type Worker = seq<StreamingStatistic>

  /** vectorizeStatisticPtrMap: clones that report what the originals report, and equal those that have
      samples; the originals stay as they are. */
  method VectorizeStatistics(statistics: Worker, ghost samples: seq<seq<nat>>) returns (v: seq<StreamingStatistic>)
    requires |samples| == |statistics| && forall i :: 0 <= i < |statistics| ==> Represents(statistics[i].Model(), samples[i])
    ensures |v| == |statistics| && forall i :: 0 <= i < |v| ==> fresh(v[i])
    ensures forall i :: 0 <= i < |v| ==> (v[i].Model() == statistics[i].Model() <==> samples[i] != [])
    ensures forall i :: 0 <= i < |v| ==>
              MeanOf(v[i].Model()) == MeanOf(statistics[i].Model()) && PVarianceOf(v[i].Model()) == PVarianceOf(statistics[i].Model())
  {
    hide Combine, MeanOf, PVarianceOf, Represents;
    v := [];
    for i := 0 to |statistics|
      invariant |v| == i && forall j :: 0 <= j < i ==> fresh(v[j]) && v[j].Model() == Combine(EmptyStreaming, statistics[j].Model())
    {
      var empty := new StreamingStatistic();
      var clone := empty.CombineWith(statistics[i]);
      v := v + [clone];
    }
    forall i | 0 <= i < |v|
      ensures v[i].Model() == statistics[i].Model() <==> samples[i] != []
      ensures MeanOf(v[i].Model()) == MeanOf(statistics[i].Model()) && PVarianceOf(v[i].Model()) == PVarianceOf(statistics[i].Model())
    {
      CloneIsIdentityIff(statistics[i].Model(), samples[i]);
    }
  }

  // ---------- Merging the workers ----------

  // Every worker has as many statistics as the first.
  predicate Aligned(workers: seq<Worker>) {
    forall w :: 0 <= w < |workers| ==> |workers[w]| == |workers[0]|
  }

  // The workers' statistics as values.
  ghost predicate Hold(workers: seq<Worker>, models: seq<seq<Streaming>>)
    reads set w, j | 0 <= w < |workers| && 0 <= j < |workers[w]| :: workers[w][j]
  {
    && |models| == |workers|
    && forall w :: 0 <= w < |workers| ==>
      |models[w]| == |workers[w]| && forall j :: 0 <= j < |models[w]| ==> models[w][j] == workers[w][j].Model()
  }

  // What the workers report at position i.
  ghost function Column(models: seq<seq<Streaming>>, i: nat): seq<Streaming>
    requires forall w :: 0 <= w < |models| ==> i < |models[w]|
  {
    seq(|models|, w requires 0 <= w < |models| => models[w][i])
  }

  lemma MergeOneMoreWorker(models: seq<seq<Streaming>>, w: nat, i: nat)
    requires w < |models| && forall v :: 0 <= v < |models| ==> i < |models[v]|
    ensures Merge(Column(models[..w + 1], i)) == Combine(Merge(Column(models[..w], i)), models[w][i])
  {
    var column := Column(models[..w + 1], i);
    assert column[..|column| - 1] == Column(models[..w], i);
  }

  /** Each merged statistic is the merge of the workers' statistics at its position; no worker's
      statistic changes. */
  method MergeWorkerStatistics(workers: seq<Worker>, ghost models: seq<seq<Streaming>>)
    returns (merged: seq<StreamingStatistic>)
    requires Aligned(workers) && Hold(workers, models)
    ensures |merged| == if workers == [] then 0 else |workers[0]|
    ensures forall i :: 0 <= i < |merged| ==> fresh(merged[i]) && merged[i].Model() == Merge(Column(models, i))
  {
    hide Combine;
    merged := [];
    var size := if workers == [] then 0 else |workers[0]|;
    while |merged| < size
      invariant |merged| <= size
      invariant forall i :: 0 <= i < |merged| ==> fresh(merged[i]) && merged[i].Model() == EmptyStreaming
    {
      var statistic := new StreamingStatistic();
      merged := merged + [statistic];
    }
    for w := 0 to |workers|
      invariant |merged| == size
      invariant forall i :: 0 <= i < size ==> fresh(merged[i]) && merged[i].Model() == Merge(Column(models[..w], i))
    {
      merged := MergeOneWorker(workers[w], merged, models, w);
    }
    assert models[..|workers|] == models;
  }

  method MergeOneWorker(worker: Worker, before: seq<StreamingStatistic>, ghost models: seq<seq<Streaming>>, ghost w: nat)
    returns (merged: seq<StreamingStatistic>)
    requires w < |models| && |models[w]| == |worker| == |before|
    requires forall v :: 0 <= v < |models| ==> |models[v]| == |worker|
    requires forall j :: 0 <= j < |worker| ==> worker[j].Model() == models[w][j]
    requires forall j :: 0 <= j < |before| ==> before[j].Model() == Merge(Column(models[..w], j))
    ensures |merged| == |before|
    ensures forall j :: 0 <= j < |merged| ==> fresh(merged[j]) && merged[j].Model() == Merge(Column(models[..w + 1], j))
  {
    hide Combine, Merge, Column;
    merged := before;
    for i := 0 to |worker|
      invariant |merged| == |before|
      invariant forall j :: 0 <= j < i ==> fresh(merged[j]) && merged[j].Model() == Merge(Column(models[..w + 1], j))
      invariant forall j :: i <= j < |merged| ==> merged[j] == before[j]
    {
      var combined := merged[i].CombineWith(worker[i]);
      MergeOneMoreWorker(models, w, i);
      merged := merged[i := combined];
    }
  }
}
