# AudioListener: a Dafny model of the noise-level monitor

`AudioListener` (in the CameraX sample app) opens the microphone through Android's
`AudioRecord`, runs a background thread that repeatedly reads a buffer of 16-bit PCM
samples, and passes the mean absolute amplitude of each read to an `onAudio(level)`
callback. The owner constructs it, checks `status()`, calls `start()`, and later
`release(wait_until_done)`.

This project models, sequentially, the two parts of that class that are pure logic:

- **The per-read noise computation** (module `Noise`, on top of `KotlinInt`):
  `MeasureRead` is the loop body as written. It uses a Kotlin `Int` accumulator that
  wraps at 32 bits, `Math.abs` applied after widening, a running maximum, and a
  division that truncates toward zero. `Measure` is its functional reference.
  `SamplingLoop` lifts one read to a run of reads and gives the sequence of callback
  arguments.
- **The lifecycle** (modules `Lifecycle` and `Session`): a `Monitor` value holds
  `is_running`, the owner's `thread` reference, the optional recorder `ar`,
  `buffer_size`, and the phase of the thread object. Pure transition functions model
  construction, `start()`, `release()` and one turn of the sampling thread.
  `Session` replays any interleaving of these atomic steps and records the status
  answers, the callback levels and the recorder releases.

Foreign calls are parameters. The answers of `getMinBufferSize`, the `AudioRecord`
constructor, the `state` check and `startRecording` form a `Device` value. Each
`read` is a `ReadResult` input: the count returned and the whole reused buffer after
the call, or an exception.

## The code as written, where it differs from its own comments

The source makes three promises in comments and commented-out code. The `@return`
comment of `status()` (line 23) says it reports whether the recorder was created. The
`wait_until_done` comment (line 41) says `release` blocks until the resource is freed.
The commented-out `return` at line 101 suggests construction was meant to stop on a bad
buffer size. The model follows the code, which differs in these places:

- A failed construction does not produce a monitor whose `status()` is false.
  - If creating the recorder throws, `ar` stays null and the initialisation check
    dereferences it (line 121).
  - If the recorder fails the check, it is released and cleared. Then either
    `ShortArray(buffer_size)` throws for a negative size (line 134), or `ar!!`
    throws at line 135.
  - `Construct` returns `Err` on all these paths. No `Ok` monitor has status false.
- A non-positive `buffer_size` does not abort construction, because the `return` at
  line 101 is commented out. Only a negative size makes the allocation throw. A
  Kotlin array of size 0 is legal, so a zero size with a working recorder still
  yields a monitor.
- When construction fails after the recorder passed its check (negative size, or
  `startRecording` throws), that recorder is never released. `ConstructError.leaked`
  records it.
- `release(true)` blocks until the resource is freed only if the sampling thread
  wins a race. It clears `is_running` without the lock (line 48), then takes the
  lock (line 52).
  - If the sampling thread's teardown (lines 180-185) runs in between, the wait loop
    finds `ar` null and returns.
  - If the owner takes the lock first with `ar` present, it spins for good. Its body
    changes nothing (`wait()` is commented out), and the teardown needs the same lock.
  - The model takes the lock in a separate step (`ReleaseTakesLock`), so both
    outcomes are reachable.
- A `release` before `start()` drops the only reference to the unstarted thread. The
  recorder is then never released: `status()` stays true, and a later
  `release(true)` spins.
- Calling `start()` twice while the owner still holds the thread throws, because
  `Thread.start` throws on a thread that was already started.
- A read count of 65536 or more can wrap the `Int` accumulator. The delivered level
  can then be negative (`FullScaleReadWraps`). Below that bound the level is the
  floored mean and lies in [0, 32768].

## Model

| member | source | states |
|---|---|---|
| KotlinInt.Add | app/src/main/java/com/android/example/cameraxbasic/utils/AudioListener.kt:155 | Kotlin `Int` addition: the exact sum when it fits in 32 bits, otherwise the sum shifted by 2^32 back into range |
| KotlinInt.TruncDiv | app/src/main/java/com/android/example/cameraxbasic/utils/AudioListener.kt:158 | `average_noise /= n_read` rounds toward zero: the quotient brackets the dividend from below for non-negative and from above for negative dividends |
| Noise.Abs | app/src/main/java/com/android/example/cameraxbasic/utils/AudioListener.kt:154 | a sample widened to `Int` before `abs` has amplitude in [0, 32768] and equals the sample or its negation |
| Noise.MeasureRead | app/src/main/java/com/android/example/cameraxbasic/utils/AudioListener.kt:148-177 | the loop body: a non-positive count is an error and is skipped; a count past the buffer throws and is caught; otherwise the level is the wrapped sum of the first n amplitudes divided toward zero by n, and the peak bounds every inspected amplitude and equals one of them |
| Noise.PeakIsMaximum | app/src/main/java/com/android/example/cameraxbasic/utils/AudioListener.kt:152-156 | `max_noise` is at least every inspected amplitude and, for a non-empty window, equal to one of them |
| Noise.NoWrapForShortReads | app/src/main/java/com/android/example/cameraxbasic/utils/AudioListener.kt:151-155 | with at most 65535 samples the wrapping accumulator holds the exact sum of amplitudes |
| Noise.LevelIsFlooredMean | app/src/main/java/com/android/example/cameraxbasic/utils/AudioListener.kt:150-158 | for 0 < n_read <= 65535 within the buffer, the delivered level is the sum of the first n_read amplitudes divided by n_read, rounded down |
| Noise.LevelBetweenZeroAndPeak | app/src/main/java/com/android/example/cameraxbasic/utils/AudioListener.kt:151-158 | for the same reads, 0 <= average <= max_noise <= 32768 |
| Noise.StaleSamplesIgnored | app/src/main/java/com/android/example/cameraxbasic/utils/AudioListener.kt:149-157 | buffers of the same size that agree on their first n_read samples give the same iteration result, so stale data left by earlier reads is ignored |
| Noise.UniformReadLevel | app/src/main/java/com/android/example/cameraxbasic/utils/AudioListener.kt:153-158 | for 0 < n_read <= 65535, a read whose inspected samples all have amplitude c delivers level c with peak c |
| Noise.FullScaleReadWraps | app/src/main/java/com/android/example/cameraxbasic/utils/AudioListener.kt:151-158 | 65536 samples of -32768 wrap the accumulator to Int.MIN_VALUE, so the delivered level is -32768 |
| SamplingLoop.CallbackIffPositiveRead | app/src/main/java/com/android/example/cameraxbasic/utils/AudioListener.kt:148-177 | a read leads to a callback exactly when it returned a positive count that fits the buffer, and then to exactly one |
| SamplingLoop.CallbacksAppend | app/src/main/java/com/android/example/cameraxbasic/utils/AudioListener.kt:141-178 | the callbacks of two consecutive runs of reads are the callbacks of the first followed by those of the second |
| SamplingLoop.ErrorReadIsSkipped | app/src/main/java/com/android/example/cameraxbasic/utils/AudioListener.kt:164-177 | a read with a non-positive count, or one that throws, contributes no callback and the loop continues with the next read |
| SamplingLoop.CallbacksFollowReads | app/src/main/java/com/android/example/cameraxbasic/utils/AudioListener.kt:141-178 | the k-th callback carries the level of the k-th delivering read, so callbacks come in read order |
| SamplingLoop.CallbackLevelsInRange | app/src/main/java/com/android/example/cameraxbasic/utils/AudioListener.kt:151-163 | when no read exceeds 65535 samples, every level passed to the callback lies in [0, 32768] |
| SamplingLoop.DeliveredLevelsAreMeans | app/src/main/java/com/android/example/cameraxbasic/utils/AudioListener.kt:148-163 | when no read exceeds 65535 samples, every delivered level is the floored mean amplitude of its read and lies in [0, 32768] |
| Lifecycle.Construct | app/src/main/java/com/android/example/cameraxbasic/utils/AudioListener.kt:80-135 | construction succeeds iff the recorder was created, initialised, the buffer size is non-negative and recording starts; success gives a running, unstarted monitor whose status is true; each failure raises the exception the code reaches and reports the recorder it leaves open |
| Lifecycle.Start | app/src/main/java/com/android/example/cameraxbasic/utils/AudioListener.kt:33-38 | without a thread reference `start()` changes nothing; otherwise it starts an unstarted thread, throws on a started one, and changes nothing else |
| Lifecycle.Release | app/src/main/java/com/android/example/cameraxbasic/utils/AudioListener.kt:43-50 | `release` clears the stop flag and the thread reference whatever `wait` says and leaves the recorder alone; it returns at once without `wait`, and otherwise goes on to take the lock |
| Lifecycle.AwaitFreed | app/src/main/java/com/android/example/cameraxbasic/utils/AudioListener.kt:52-67 | once the lock is held, the wait loop returns exactly when `ar` is null and otherwise spins for good |
| Lifecycle.WorkerTurn | app/src/main/java/com/android/example/cameraxbasic/utils/AudioListener.kt:141-185 | the recorder is cleared only by a looping thread that observed the stop flag false, after which status is false and the thread has exited; a callback happens only while running, with the read's level; nothing else changes |
| Lifecycle.StartAfterReleaseIsNoop | app/src/main/java/com/android/example/cameraxbasic/utils/AudioListener.kt:35-49 | after `release`, `start()` changes nothing because the thread reference is gone |
| Session.RecorderReleasedAtMostOnce | app/src/main/java/com/android/example/cameraxbasic/utils/AudioListener.kt:180-185 | from any valid state every interleaving keeps the state valid, never replaces the recorder, and moves it from present to absent at most once |
| Session.SessionReleasesRecorderOnce | app/src/main/java/com/android/example/cameraxbasic/utils/AudioListener.kt:141-185 | after a successful construction the recorder is released at most once, status is false exactly when it has been, and by then the stop flag is clear and the thread has exited |
| Session.NoCallbacksAfterStop | app/src/main/java/com/android/example/cameraxbasic/utils/AudioListener.kt:48-49 | once the stop flag is cleared no later step delivers a callback or sets the flag again |
| Session.StatusIsReadOnly | app/src/main/java/com/android/example/cameraxbasic/utils/AudioListener.kt:25-29 | `status()` answers whether the recorder is present and changes nothing else |
| Session.TurnsFollowSamplingLoop | app/src/main/java/com/android/example/cameraxbasic/utils/AudioListener.kt:141-178 | while running, the thread's turns leave the state unchanged and deliver exactly the sampling loop's callbacks for the same reads |
| Session.WaitingReleaseReturnsOnlyWhenFreed | app/src/main/java/com/android/example/cameraxbasic/utils/AudioListener.kt:50-70 | once `release(true)` has passed its unlocked writes, whatever steps follow, it returns only with the recorder cleared, so `status()` is then false |
| Session.WaitingReleaseRaceAfterStart | app/src/main/java/com/android/example/cameraxbasic/utils/AudioListener.kt:48-67 | after `start()`, `release(true)` returns with status false and one recorder release if the teardown runs before it takes the lock, and spins for good with the recorder still open if it takes the lock first |
| Session.ReleaseBeforeStartKeepsRecorder | app/src/main/java/com/android/example/cameraxbasic/utils/AudioListener.kt:43-68 | after a release before start, no sequence of steps starts the thread, delivers a callback or releases the recorder, and a later `release(true)` never returns |
| Session.ThreeReadSession | app/src/main/java/com/android/example/cameraxbasic/utils/AudioListener.kt:80-185 | with buffer size 160, reads whose amplitude sums are 1600, 3200 and 0 deliver 10, 20 and 0 in order; a release without waiting and one more thread turn leave status false after one recorder release |

## Left out

- The Android calls (`getMinBufferSize`, the `AudioRecord` constructor, `state`, `startRecording`, `read`, `release`) are foreign APIs. Their answers are inputs (`Device`, `ReadResult`). The model does not assume what the real recorder does with a non-positive buffer size.
- Logging and the `MyDebug.LOG` flag only write text to a sink, so they are not modelled.
- `@Volatile`, `synchronized` and the `Thread` object are replaced by atomic steps over one value.
- Session.NoCallbacksAfterStop: holds for atomic steps only. In the threaded code, an iteration already past the `is_running` check when `release` runs can still deliver one more level.
- The waiting loop of `release(true)` (lines 52-67) appears only as its outcome once the lock is taken: it returns, or it spins for good. Interruption and the commented-out `wait()`/`notifyAll()` calls are not modelled.
- The commented-out sleep and sample-delay code (lines 138-147) is not modelled.
- The consumer's `onAudio` is an external callback. The model records the levels it receives. Whatever the callback throws is caught by the same handler as a failed read, which leaves the delivered sequence unchanged.
- Noise.LevelIsFlooredMean: requires n_read <= 65535, because above that the `Int` accumulator can wrap (FullScaleReadWraps shows the level that is delivered then).
- Noise.LevelBetweenZeroAndPeak: requires n_read <= 65535 for the same reason.
- Noise.UniformReadLevel: requires n_read <= 65535 for the same reason; FullScaleReadWraps shows that 65536 samples of -32768 deliver -32768.
- SamplingLoop.CallbackLevelsInRange: requires every read count to be at most 65535 for the same reason.
- SamplingLoop.DeliveredLevelsAreMeans: requires every read count to be at most 65535 for the same reason.
