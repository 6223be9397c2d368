/** Per-stage statistics: the `TransformerStatistics` constructor rolls the per-worker
    `ThreadStatistics` samples of one stage into totals, minima, maxima and averages.
    Durations are `TimeSpan` values; the model keeps their tick counts as integers.
    `(long)` of an `Average` and C#'s `long / int` both truncate toward zero, written out
    as `Quot`; the `double` average of the transform counts is a `real`. */
module Statistics {
  import opened Errors

  /** One worker's record: how many items it transformed and four durations in ticks. */
  datatype ThreadStatistics = ThreadStatistics(
    transformCount: int,
    timeTotal: int,
    timeBufferWait: int,
    timeToFirstTransform: int,
    timeTransforming: int)

  /** Total, minimum, maximum and average of one duration over a stage's workers. */
  datatype TimeMetric = TimeMetric(total: int, min: int, max: int, avg: int)

  /** The stage aggregate, linked to the upstream stage's own aggregate. */
  datatype TransformerStatistics = TransformerStatistics(
    dependent: Option<TransformerStatistics>,
    threadCount: int,
    threadStatistics: seq<ThreadStatistics>,
    transformCountTotal: int,
    transformCountMin: int,
    transformCountMax: int,
    transformCountAvg: real,
    timeTotal: TimeMetric,
    timeBufferWait: TimeMetric,
    timeToFirstTransform: TimeMetric,
    timeTransforming: TimeMetric,
    individualTransformTimeAvg: int,
    timeIdleAfterFirstTransformAvg: int)

  function Sum(xs: seq<int>): int
  {
    if xs == [] then 0 else xs[0] + Sum(xs[1..])
  }

  /** LINQ `Min` over a non-empty sequence. */
  function Minimum(xs: seq<int>): (m: int)
    requires |xs| > 0
    ensures m in xs
    ensures forall i :: 0 <= i < |xs| ==> m <= xs[i]
  {
    if |xs| == 1 then xs[0]
    else
      var rest := Minimum(xs[1..]);
      if xs[0] <= rest then xs[0] else rest
  }

  /** LINQ `Max` over a non-empty sequence. */
  function Maximum(xs: seq<int>): (m: int)
    requires |xs| > 0
    ensures m in xs
    ensures forall i :: 0 <= i < |xs| ==> xs[i] <= m
  {
    if |xs| == 1 then xs[0]
    else
      var rest := Maximum(xs[1..]);
      if xs[0] >= rest then xs[0] else rest
  }

  function Abs(a: int): nat
  {
    if a < 0 then -a else a
  }

  /** C# integer division, which truncates toward zero (Dafny's `/` is Euclidean). */
  function Quot(a: int, b: int): (r: int)
    requires b != 0
    ensures Abs(r) == Abs(a) / Abs(b)
    ensures r < 0 ==> (a < 0) != (b < 0)
    ensures r > 0 ==> (a < 0) == (b < 0)
  {
    DivNonneg(Abs(a), Abs(b));
    var q := Abs(a) / Abs(b);
    if (a < 0) == (b < 0) then q else -q
  }

  /** `(long) xs.Average()`: the mean, truncated toward zero to a whole tick. */
  function TruncatedMean(xs: seq<int>): int
    requires |xs| > 0
  {
    Quot(Sum(xs), |xs|)
  }

  /** One field of every worker record, in sample order. */
  function Column(samples: seq<ThreadStatistics>, field: ThreadStatistics -> int): (xs: seq<int>)
    ensures |xs| == |samples|
    ensures forall i :: 0 <= i < |samples| ==> xs[i] == field(samples[i])
  {
    seq(|samples|, i requires 0 <= i < |samples| => field(samples[i]))
  }

  function Counts(samples: seq<ThreadStatistics>): seq<int>
  {
    Column(samples, (s: ThreadStatistics) => s.transformCount)
  }

  /** Every element lowered by the same amount. */
  function Shift(xs: seq<int>, c: int): (ys: seq<int>)
    ensures |ys| == |xs|
    ensures forall i :: 0 <= i < |xs| ==> ys[i] == xs[i] - c
  {
    seq(|xs|, i requires 0 <= i < |xs| => xs[i] - c)
  }

  lemma {:induction false} SumBounds(xs: seq<int>, lo: int, hi: int)
    requires forall i :: 0 <= i < |xs| ==> lo <= xs[i] <= hi
    ensures |xs| * lo <= Sum(xs) <= |xs| * hi
    decreases |xs|
  {
    if xs != [] {
      SumBounds(xs[1..], lo, hi);
      assert |xs| * lo == lo + |xs[1..]| * lo;
      assert |xs| * hi == hi + |xs[1..]| * hi;
    }
  }

  lemma {:induction false} SumShift(xs: seq<int>, c: int)
    ensures Sum(Shift(xs, c)) == Sum(xs) - |xs| * c
    decreases |xs|
  {
    if xs != [] {
      assert Shift(xs, c)[1..] == Shift(xs[1..], c);
      SumShift(xs[1..], c);
      assert |xs| * c == c + |xs[1..]| * c;
    }
  }

  lemma FloorDivBounds(a: int, n: int, lo: int, hi: int)
    requires n > 0 && n * lo <= a <= n * hi
    ensures lo <= a / n <= hi
  {
    var q, r := a / n, a % n;
    assert a == n * q + r && 0 <= r < n;
    if q < lo {
      assert n * (q + 1) <= n * lo by { MulMono(n, q + 1, lo); }
    }
    if q > hi {
      assert n * hi + n <= n * q by { MulMono(n, hi + 1, q); }
    }
  }

  lemma DivNonneg(m: int, n: int)
    requires m >= 0 && n > 0
    ensures m / n >= 0
  {
    var q, r := m / n, m % n;
    assert m == n * q + r;
    if q < 0 {
      MulMono(n, q, -1);
    }
  }

  lemma MulMono(n: int, a: int, b: int)
    requires n > 0 && a <= b
    ensures n * a <= n * b
  {
  }

  /** A truncated quotient of a value between n*lo and n*hi lies between lo and hi. */
  lemma QuotBetween(s: int, n: int, lo: int, hi: int)
    requires n > 0 && n * lo <= s <= n * hi
    ensures lo <= Quot(s, n) <= hi
  {
    if s >= 0 {
      FloorDivBounds(s, n, lo, hi);
    } else {
      FloorDivBounds(-s, n, -hi, -lo);
    }
  }

  /** The truncated mean never leaves the range of the samples. */
  lemma MeanBetween(xs: seq<int>)
    requires |xs| > 0
    ensures Minimum(xs) <= TruncatedMean(xs) <= Maximum(xs)
  {
    SumBounds(xs, Minimum(xs), Maximum(xs));
    QuotBetween(Sum(xs), |xs|, Minimum(xs), Maximum(xs));
  }

  /** Total, minimum, maximum and truncated mean of one duration column. */
  function Summarize(ticks: seq<int>): (m: TimeMetric)
    requires |ticks| > 0
    ensures m.total == Sum(ticks)
    ensures m.min in ticks && m.max in ticks
    ensures forall i :: 0 <= i < |ticks| ==> m.min <= ticks[i] <= m.max
    ensures m.avg == TruncatedMean(ticks)
    ensures m.min <= m.avg <= m.max
  {
    MeanBetween(ticks);
    TimeMetric(Sum(ticks), Minimum(ticks), Maximum(ticks), TruncatedMean(ticks))
  }

  /** What every aggregate built from `samples` states, whichever way the two
      transform-count bounds and the per-transform average are filled in. */
  ghost predicate SnapshotLaws(samples: seq<ThreadStatistics>, dependent: Option<TransformerStatistics>,
                               st: TransformerStatistics)
    requires |samples| > 0
  {
    var n := |samples|;
    && st.dependent == dependent
    && st.threadCount == n
    && st.threadStatistics == samples
    && st.transformCountTotal == Sum(Counts(samples))
    && st.transformCountAvg == Sum(Counts(samples)) as real / n as real
    && st.timeTotal == Summarize(Column(samples, (s: ThreadStatistics) => s.timeTotal))
    && st.timeBufferWait == Summarize(Column(samples, (s: ThreadStatistics) => s.timeBufferWait))
    && st.timeToFirstTransform == Summarize(Column(samples, (s: ThreadStatistics) => s.timeToFirstTransform))
    && st.timeTransforming == Summarize(Column(samples, (s: ThreadStatistics) => s.timeTransforming))
    // the truncated mean, over workers, of buffer wait minus the earliest first transform
    && st.timeIdleAfterFirstTransformAvg
         == Quot(st.timeBufferWait.total - n * st.timeToFirstTransform.min, n)
  }

  /** The aggregate with the two transform-count fields and the per-transform average
      supplied by the caller; everything else is computed as the constructor does. */
  function Snapshot(samples: seq<ThreadStatistics>, dependent: Option<TransformerStatistics>,
                    countMin: int, countMax: int, individualAvg: int): (st: TransformerStatistics)
    requires |samples| > 0
    ensures SnapshotLaws(samples, dependent, st)
    ensures st.transformCountMin == countMin && st.transformCountMax == countMax
    ensures st.individualTransformTimeAvg == individualAvg
  {
    var counts := Counts(samples);
    var bufferWait := Column(samples, (s: ThreadStatistics) => s.timeBufferWait);
    var toFirst := Summarize(Column(samples, (s: ThreadStatistics) => s.timeToFirstTransform));
    SumShift(bufferWait, toFirst.min);
    TransformerStatistics(
      dependent, |samples|, samples,
      Sum(counts), countMin, countMax, Sum(counts) as real / |samples| as real,
      Summarize(Column(samples, (s: ThreadStatistics) => s.timeTotal)),
      Summarize(bufferWait),
      toFirst,
      Summarize(Column(samples, (s: ThreadStatistics) => s.timeTransforming)),
      individualAvg,
      TruncatedMean(Shift(bufferWait, toFirst.min)))
  }

  /** The constructor as written: `TransformCountMin` takes the LINQ `Max` and
      `TransformCountMax` the LINQ `Min`, and the per-transform average divides by the
      total transform count even when it is zero. `Max` over no samples throws first. */
  function AggregateAsWritten(samples: seq<ThreadStatistics>, dependent: Option<TransformerStatistics>)
    : (r: Result<TransformerStatistics>)
    ensures |samples| == 0 ==> r == Failure(InvalidOperation)
    ensures |samples| > 0 && Sum(Counts(samples)) == 0 ==> r == Failure(DivideByZero)
    ensures r.Success? <==> |samples| > 0 && Sum(Counts(samples)) != 0
    ensures r.Success? ==>
              && SnapshotLaws(samples, dependent, r.value)
              && r.value.transformCountMin == Maximum(Counts(samples))
              && r.value.transformCountMax == Minimum(Counts(samples))
              && r.value.individualTransformTimeAvg
                   == Quot(r.value.timeTransforming.total, r.value.transformCountTotal)
  {
    if |samples| == 0 then Failure(InvalidOperation)
    else
      var counts := Counts(samples);
      var total := Sum(counts);
      if total == 0 then Failure(DivideByZero)
      else
        var transforming := Sum(Column(samples, (s: ThreadStatistics) => s.timeTransforming));
        Success(Snapshot(samples, dependent, Maximum(counts), Minimum(counts), Quot(transforming, total)))
  }

  /** The constructor as evidently intended: the count bounds the right way round, and
      a stage that transformed nothing reports a zero per-transform average. */
  function Aggregate(samples: seq<ThreadStatistics>, dependent: Option<TransformerStatistics>)
    : (r: Result<TransformerStatistics>)
    ensures |samples| == 0 ==> r == Failure(InvalidOperation)
    ensures r.Success? <==> |samples| > 0
    ensures r.Success? ==>
              && SnapshotLaws(samples, dependent, r.value)
              && r.value.transformCountMin in Counts(samples)
              && r.value.transformCountMax in Counts(samples)
              && (forall i :: 0 <= i < |samples| ==>
                    r.value.transformCountMin <= samples[i].transformCount <= r.value.transformCountMax)
              && r.value.individualTransformTimeAvg
                   == (if r.value.transformCountTotal == 0 then 0
                       else Quot(r.value.timeTransforming.total, r.value.transformCountTotal))
  {
    if |samples| == 0 then Failure(InvalidOperation)
    else
      var counts := Counts(samples);
      var total := Sum(counts);
      var transforming := Sum(Column(samples, (s: ThreadStatistics) => s.timeTransforming));
      Success(Snapshot(samples, dependent, Minimum(counts), Maximum(counts),
                       if total == 0 then 0 else Quot(transforming, total)))
  }

  /** Whenever the constructor as written succeeds, its result is the intended one
      with the two transform-count bounds exchanged, so its "minimum" is never below
      its "maximum". */
  lemma AsWrittenSwapsCountBounds(samples: seq<ThreadStatistics>, dependent: Option<TransformerStatistics>)
    requires AggregateAsWritten(samples, dependent).Success?
    ensures var w, c := AggregateAsWritten(samples, dependent).value, Aggregate(samples, dependent).value;
            && w == c.(transformCountMin := c.transformCountMax, transformCountMax := c.transformCountMin)
            && w.transformCountMin >= w.transformCountMax
  {
    var counts := Counts(samples);
    assert Minimum(counts) <= counts[0] <= Maximum(counts);
  }

  /** Two workers that transformed one and two items: the constructor as written
      reports a minimum of 2 and a maximum of 1. */
  lemma SwappedCountBoundsWitness()
    ensures var samples := [ThreadStatistics(1, 0, 0, 0, 0), ThreadStatistics(2, 0, 0, 0, 0)];
            && AggregateAsWritten(samples, None).Success?
            && AggregateAsWritten(samples, None).value.transformCountMin == 2
            && AggregateAsWritten(samples, None).value.transformCountMax == 1
            && Aggregate(samples, None).value.transformCountMin == 1
            && Aggregate(samples, None).value.transformCountMax == 2
  {
    var samples := [ThreadStatistics(1, 0, 0, 0, 0), ThreadStatistics(2, 0, 0, 0, 0)];
    var counts := Counts(samples);
    assert counts == [1, 2];
    assert counts[1..] == [2];
    assert Sum(counts) == 3;
  }

  /** One all-zero worker record (a stage that transformed nothing): the constructor as
      written throws DivideByZeroException, while the intended one succeeds with a
      zero per-transform average. */
  lemma ZeroTransformsWitness()
    ensures var samples := [ThreadStatistics(0, 0, 0, 0, 0)];
            && AggregateAsWritten(samples, None) == Failure(DivideByZero)
            && Aggregate(samples, None).Success?
            && Aggregate(samples, None).value.individualTransformTimeAvg == 0
            && Aggregate(samples, None).value.transformCountTotal == 0
  {
    var samples := [ThreadStatistics(0, 0, 0, 0, 0)];
    assert Counts(samples) == [0];
    assert Sum(Counts(samples)) == 0;
  }
}
