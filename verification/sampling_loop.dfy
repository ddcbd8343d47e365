/** The sampling thread's `while (is_running)` loop seen from the consumer: a run
    of device reads turned into the sequence of levels passed to `onAudio`. */
module SamplingLoop {
  import opened Wrappers
  import opened Noise

  /** What one call of `ar.read(buffer, 0, buffer_size)` produced. */
  datatype ReadResult =
    | Returned(nRead: int, buffer: seq<Sample>)  // the count, and the whole reused buffer after the call
    | Threw                                       // the read itself threw; the handler catches it

  /** One iteration of the loop body, including its exception handler. */
  function Iterate(r: ReadResult): Iteration
  {
    match r
    case Returned(n, b) => Measure(b, n)
    case Threw => Failed
  }

  /** The level passed to the callback by this read, if any. */
  function Level(r: ReadResult): Option<int>
  {
    Delivered(Iterate(r))
  }

  function Emit(r: ReadResult): seq<int>
  {
    OptionToSeq(Level(r))
  }

  /** The callback arguments produced by a run of reads, in call order. */
  function Callbacks(results: seq<ReadResult>): seq<int>
  {
    if |results| == 0 then [] else Callbacks(results[..|results| - 1]) + Emit(results[|results| - 1])
  }

  /** The positions of the reads that invoke the callback, in ascending order. */
  function Deliveries(results: seq<ReadResult>): (idx: seq<nat>)
    ensures forall k :: 0 <= k < |idx| ==> idx[k] < |results| && Level(results[idx[k]]).Some?
    ensures forall k, l :: 0 <= k < l < |idx| ==> idx[k] < idx[l]
    ensures forall i :: 0 <= i < |results| && Level(results[i]).Some? ==> i in idx
  {
    if |results| == 0 then []
    else
      var p := results[..|results| - 1];
      assert forall i :: 0 <= i < |p| ==> p[i] == results[i];
      Deliveries(p) + (if Level(results[|results| - 1]).Some? then [|results| - 1] else [])
  }

  /** A read invokes the callback exactly when it returned a positive count
      that fits in the buffer. */
  lemma CallbackIffPositiveRead(r: ReadResult)
    ensures Level(r).Some? <==> r.Returned? && 0 < r.nRead <= |r.buffer|
    ensures |Emit(r)| == (if Level(r).Some? then 1 else 0)
  {
  }

  /** Callbacks over consecutive runs of reads are the concatenation of the
      callbacks of each run: the loop carries nothing from one read to the next. */
  lemma {:induction false} CallbacksAppend(a: seq<ReadResult>, b: seq<ReadResult>)
    ensures Callbacks(a + b) == Callbacks(a) + Callbacks(b)
    decreases |b|
  {
    if |b| == 0 {
      assert a + b == a;
    } else {
      var b' := b[..|b| - 1];
      assert (a + b)[..|a + b| - 1] == a + b';
      CallbacksAppend(a, b');
    }
  }

  /** A non-positive count or a thrown read produces no callback, and the loop
      carries on with the next read. */
  lemma ErrorReadIsSkipped(before: seq<ReadResult>, r: ReadResult, after: seq<ReadResult>)
    requires r.Threw? || r.nRead <= 0
    ensures Callbacks(before + [r] + after) == Callbacks(before) + Callbacks(after)
  {
    CallbacksAppend(before + [r], after);
    assert (before + [r])[..|before + [r]| - 1] == before;
    CallbackIffPositiveRead(r);
    assert Callbacks(before + [r]) == Callbacks(before) + Emit(r) == Callbacks(before);
  }

  /** The k-th callback carries the level of the k-th delivering read: one
      callback per delivering read, in read order. */
  lemma {:induction false} CallbacksFollowReads(results: seq<ReadResult>)
    ensures |Callbacks(results)| == |Deliveries(results)|
    ensures forall k :: 0 <= k < |Deliveries(results)| ==>
              Callbacks(results)[k] == Level(results[Deliveries(results)[k]]).value
  {
    if |results| > 0 {
      var p := results[..|results| - 1];
      CallbacksFollowReads(p);
      assert forall i :: 0 <= i < |p| ==> p[i] == results[i];
    }
  }

  /** `level` is the floored mean absolute amplitude of read `r`, within [0, 32768]. */
  predicate IsMeanLevel(r: ReadResult, level: int)
  {
    && r.Returned? && 0 < r.nRead <= |r.buffer|
    && level == AbsSum(r.buffer[..r.nRead]) / r.nRead
    && 0 <= level <= MaxAmplitude
  }

  /** No read returned more than `MaxExactRead` samples. */
  predicate AllReadsShort(results: seq<ReadResult>)
  {
    forall i :: 0 <= i < |results| && results[i].Returned? ==> results[i].nRead <= MaxExactRead
  }

  /** Every level the consumer receives lies in [0, 32768], as long as no read
      exceeds `MaxExactRead`. */
  lemma {:induction false} CallbackLevelsInRange(results: seq<ReadResult>)
    requires AllReadsShort(results)
    ensures forall k :: 0 <= k < |Callbacks(results)| ==> 0 <= Callbacks(results)[k] <= MaxAmplitude
  {
    if |results| > 0 {
      var p := results[..|results| - 1];
      var r := results[|results| - 1];
      assert forall i :: 0 <= i < |p| ==> p[i] == results[i];
      CallbackLevelsInRange(p);
      if Level(r).Some? {
        LevelBetweenZeroAndPeak(r.buffer, r.nRead);
      }
    }
  }

  /** Every delivered level is the floored mean absolute amplitude of its read,
      and lies between 0 and 32768, as long as no read exceeds `MaxExactRead`. */
  lemma {:induction false} DeliveredLevelsAreMeans(results: seq<ReadResult>)
    requires AllReadsShort(results)
    ensures |Callbacks(results)| == |Deliveries(results)|
    ensures forall k :: 0 <= k < |Deliveries(results)| ==>
              IsMeanLevel(results[Deliveries(results)[k]], Callbacks(results)[k])
  {
    CallbacksFollowReads(results);
    forall k | 0 <= k < |Deliveries(results)|
      ensures IsMeanLevel(results[Deliveries(results)[k]], Callbacks(results)[k])
    {
      var r := results[Deliveries(results)[k]];
      LevelIsFlooredMean(r.buffer, r.nRead);
      LevelBetweenZeroAndPeak(r.buffer, r.nRead);
    }
  }
}
