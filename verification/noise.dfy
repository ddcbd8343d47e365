/** The body of one sampling iteration: from the reused buffer of 16-bit samples
    and the count the device reported, the mean absolute amplitude (the level that
    is delivered to the consumer) and the peak absolute amplitude. */
module Noise {
  import opened Wrappers
  import opened KotlinInt

  /** A 16-bit PCM sample (a Kotlin `Short`). */
  type Sample = x: int | -0x8000 <= x <= 0x7fff

  /** The largest absolute value a sample widened to `Int` can have. */
  const MaxAmplitude: int := 0x8000

  /** The largest read count for which the running sum provably stays within `Int`. */
  const MaxExactRead: int := 0xffff

  /** `Math.abs(sample.toInt())`: the sample is widened before `abs`, so
      -32768 maps to 32768 without overflow. */
  function Abs(x: Sample): (r: int)
    ensures 0 <= r <= MaxAmplitude
    ensures r == x as int || r == -(x as int)
  {
    var v: int := x;
    if v < 0 then -v else v
  }

  function Max(a: int, b: int): int
  {
    if a < b then b else a
  }

  /** The exact sum of absolute amplitudes, accumulated from the left. */
  function AbsSum(s: seq<Sample>): (r: int)
    ensures 0 <= r <= |s| * MaxAmplitude
  {
    if |s| == 0 then 0 else AbsSum(s[..|s| - 1]) + Abs(s[|s| - 1])
  }

  /** The same sum as the Kotlin `Int` accumulator computes it: every addition wraps. */
  function WrappedAbsSum(s: seq<Sample>): Int32
  {
    if |s| == 0 then 0 else Add(WrappedAbsSum(s[..|s| - 1]), Abs(s[|s| - 1]))
  }

  /** The largest absolute amplitude, starting from 0 as `max_noise` does. */
  function Peak(s: seq<Sample>): (r: int)
    ensures 0 <= r <= MaxAmplitude
  {
    if |s| == 0 then 0 else Max(Peak(s[..|s| - 1]), Abs(s[|s| - 1]))
  }

  /** What one pass through the loop body does with a read result. */
  datatype Iteration =
    | Reported(average: int, peak: int)  // n_read > 0: the callback receives `average`
    | ReadError(code: int)               // n_read <= 0: logged and skipped
    | Failed                             // an exception caught by the loop's handler

  /** The functional reference for one iteration: a non-positive count is an
      error code; a count past the end of the buffer makes `buffer.get` throw
      inside the `try`; otherwise the truncated mean and the peak of the first
      `nRead` samples. */
  function Measure(buffer: seq<Sample>, nRead: int): Iteration
  {
    if nRead <= 0 then ReadError(nRead)
    else if nRead > |buffer| then Failed
    else Reported(TruncDiv(WrappedAbsSum(buffer[..nRead]), nRead), Peak(buffer[..nRead]))
  }

  /** The level handed to the callback, if any. */
  function Delivered(it: Iteration): Option<int>
  {
    if it.Reported? then Some(it.average) else None
  }

  /** The loop body as written: accumulate `|buffer[i]|` into a wrapping `Int`
      and keep the running maximum, then divide by the count. */
  method MeasureRead(buffer: seq<Sample>, nRead: int) returns (it: Iteration)
    ensures it.ReadError? <==> nRead <= 0
    ensures it.ReadError? ==> it.code == nRead
    ensures it.Failed? <==> nRead > |buffer|
    ensures it.Reported? ==> 0 < nRead <= |buffer|
    ensures it.Reported? ==> it.average == TruncDiv(WrappedAbsSum(buffer[..nRead]), nRead)
    ensures it.Reported? ==> forall i :: 0 <= i < nRead ==> Abs(buffer[i]) <= it.peak
    ensures it.Reported? ==> exists i :: 0 <= i < nRead && it.peak == Abs(buffer[i])
    ensures it == Measure(buffer, nRead)
  {
    if nRead <= 0 {
      return ReadError(nRead);
    }
    var sum: Int32 := 0;
    var peak := 0;
    var i := 0;
    while i < nRead
      invariant 0 <= i <= nRead && i <= |buffer|
      invariant sum == WrappedAbsSum(buffer[..i])
      invariant peak == Peak(buffer[..i])
    {
      if i == |buffer| {
        // `buffer.get(i)` throws; the handler at the end of the loop body catches it
        return Failed;
      }
      var value := Abs(buffer[i]);
      assert buffer[..i + 1][..i] == buffer[..i];
      sum := Add(sum, value);
      peak := Max(peak, value);
      i := i + 1;
    }
    PeakIsMaximum(buffer[..nRead]);
    it := Reported(TruncDiv(sum, nRead), peak);
  }

  /** `max_noise` bounds every inspected amplitude and, for a non-empty window,
      is one of them. */
  lemma {:induction false} PeakIsMaximum(s: seq<Sample>)
    ensures forall i :: 0 <= i < |s| ==> Abs(s[i]) <= Peak(s)
    ensures |s| > 0 ==> exists i :: 0 <= i < |s| && Peak(s) == Abs(s[i])
  {
    if |s| > 0 {
      var p := s[..|s| - 1];
      PeakIsMaximum(p);
      assert forall i :: 0 <= i < |p| ==> s[i] == p[i];
      if Peak(p) < Abs(s[|s| - 1]) || |p| == 0 {
        assert Peak(s) == Abs(s[|s| - 1]);
      } else {
        var j :| 0 <= j < |p| && Peak(p) == Abs(p[j]);
        assert Peak(s) == Abs(s[j]);
      }
    }
  }

  /** While at most `MaxExactRead` samples are summed, the wrapping accumulator
      never wraps and holds the exact sum. */
  lemma {:induction false} NoWrapForShortReads(s: seq<Sample>)
    requires |s| <= MaxExactRead
    ensures WrappedAbsSum(s) == AbsSum(s)
  {
    if |s| > 0 {
      NoWrapForShortReads(s[..|s| - 1]);
    }
  }

  /** The sum of the window is at most its length times its peak. */
  lemma {:induction false} SumAtMostCountTimesPeak(s: seq<Sample>)
    ensures AbsSum(s) <= |s| * Peak(s)
  {
    if |s| > 0 {
      var p := s[..|s| - 1];
      SumAtMostCountTimesPeak(p);
      SumStep(AbsSum(p), |p|, Peak(p), Peak(s), Abs(s[|s| - 1]));
    }
  }

  /** One step of the induction above, kept free of sequences. */
  lemma SumStep(sum: int, k: nat, p: int, q: int, x: int)
    requires sum <= k * p && p <= q && x <= q
    ensures sum + x <= (k + 1) * q
  {
    assert k * p <= k * q by {
      MulMonotone(k, p, q);
    }
    assert (k + 1) * q == k * q + q;
  }

  lemma MulMonotone(k: nat, a: int, b: int)
    requires a <= b
    ensures k * a <= k * b
  {
  }

  /** For a read the accumulator survives, the delivered level is the floor of
      the mean absolute amplitude of the first `nRead` samples. */
  lemma LevelIsFlooredMean(buffer: seq<Sample>, nRead: int)
    requires 0 < nRead <= |buffer| && nRead <= MaxExactRead
    ensures Measure(buffer, nRead).Reported?
    ensures Measure(buffer, nRead).average == AbsSum(buffer[..nRead]) / nRead
  {
    NoWrapForShortReads(buffer[..nRead]);
  }

  /** The delivered level is never negative and never above the peak, which is
      itself at most 32768. */
  lemma LevelBetweenZeroAndPeak(buffer: seq<Sample>, nRead: int)
    requires 0 < nRead <= |buffer| && nRead <= MaxExactRead
    ensures 0 <= Measure(buffer, nRead).average <= Measure(buffer, nRead).peak <= MaxAmplitude
  {
    var w := buffer[..nRead];
    NoWrapForShortReads(w);
    SumAtMostCountTimesPeak(w);
    MeanWithinPeak(AbsSum(w), nRead, Peak(w));
  }

  lemma MeanWithinPeak(sum: int, n: int, peak: int)
    requires n > 0 && 0 <= sum <= n * peak
    ensures 0 <= TruncDiv(sum, n) <= peak
  {
    assert TruncDiv(sum, n) == sum / n;
  }

  /** Samples at or past `nRead` (stale data left in the reused buffer by an
      earlier read) do not change what the iteration does. */
  lemma StaleSamplesIgnored(b1: seq<Sample>, b2: seq<Sample>, nRead: int)
    requires |b1| == |b2|
    requires forall i :: 0 <= i < nRead && i < |b1| ==> b1[i] == b2[i]
    ensures Measure(b1, nRead) == Measure(b2, nRead)
  {
    if 0 < nRead <= |b1| {
      assert b1[..nRead] == b2[..nRead];
    }
  }

  /** A read whose first `nRead` samples all have amplitude `c` delivers level `c`,
      with peak `c`. */
  lemma UniformReadLevel(buffer: seq<Sample>, nRead: int, c: int)
    requires 0 < nRead <= |buffer| && nRead <= MaxExactRead
    requires forall i :: 0 <= i < nRead ==> Abs(buffer[i]) == c
    ensures Measure(buffer, nRead) == Reported(c, c)
  {
    var w := buffer[..nRead];
    UniformSum(w, c);
    UniformPeak(w, c);
    NoWrapForShortReads(w);
    assert c == Abs(buffer[0]);
    ExactQuotient(nRead, c);
  }

  lemma ExactQuotient(n: int, c: int)
    requires n > 0 && c >= 0
    ensures TruncDiv(n * c, n) == c
  {
    assert n * c >= 0;
    assert (n * c) / n == c;
  }

  /** Past `MaxExactRead` the bound is tight: 65536 samples of -32768 sum to
      2^31, which wraps to `Int.MIN_VALUE`, and the level delivered is -32768. */
  lemma FullScaleReadWraps(buffer: seq<Sample>)
    requires |buffer| >= MaxExactRead + 1
    requires forall i :: 0 <= i <= MaxExactRead ==> buffer[i] == -0x8000
    ensures Measure(buffer, MaxExactRead + 1) == Reported(-0x8000, MaxAmplitude)
  {
    var w := buffer[..MaxExactRead + 1];
    var p := w[..MaxExactRead];
    UniformSum(p, MaxAmplitude);
    NoWrapForShortReads(p);
    assert WrappedAbsSum(w) == IntMin;
    UniformPeak(w, MaxAmplitude);
  }

  lemma {:induction false} UniformSum(s: seq<Sample>, c: int)
    requires forall i :: 0 <= i < |s| ==> Abs(s[i]) == c
    ensures AbsSum(s) == |s| * c
  {
    if |s| > 0 {
      UniformSum(s[..|s| - 1], c);
      assert (|s| - 1) * c + c == |s| * c;
    }
  }

  lemma {:induction false} UniformPeak(s: seq<Sample>, c: int)
    requires |s| > 0
    requires forall i :: 0 <= i < |s| ==> Abs(s[i]) == c
    ensures Peak(s) == c
  {
    if |s| > 1 {
      UniformPeak(s[..|s| - 1], c);
    }
  }
}
