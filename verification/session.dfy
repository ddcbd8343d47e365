/** Whole sessions as sequences of atomic steps: the owner's calls to `status()`,
    `start()` and `release()` interleaved with turns of the sampling thread. */
module Session {
  import opened Wrappers
  import opened Lifecycle
  import SamplingLoop
  import Noise

  datatype Event =
    | StatusCall
    | StartCall
    | ReleaseCall(wait: bool)
    | ReleaseTakesLock  // a waiting `release(true)` enters `synchronized` before its wait loop
    | SamplerTurn(read: SamplingLoop.ReadResult)

  /** Where the owner thread is. */
  datatype Owner =
    | Idle          // free to call the monitor
    | WaitingForLock  // inside `release(true)`, past the unlocked writes, before the lock
    | Blocked         // inside the wait loop of `release(true)` for good

  /** What a session has produced so far. */
  datatype Trace = Trace(
    monitor: Monitor,
    statuses: seq<bool>,  // the answers of `status()`, in call order
    callbacks: seq<int>,  // the levels passed to `onAudio`, in call order
    startErrors: nat,     // `start()` calls that threw
    clears: nat,          // steps that moved the recorder from present to absent
    owner: Owner)

  function Initial(m: Monitor): Trace
  {
    Trace(m, [], [], 0, 0, Idle)
  }

  /** One atomic step. The owner's calls wait while it is inside `release(true)`;
      the sampling thread keeps running, so its teardown can clear the recorder
      between the unlocked writes and the lock. Once the owner spins in the wait
      loop it holds the lock that the teardown needs, and the sampling thread,
      which only has the teardown left, waits for it: nothing changes any more. */
  function Step(t: Trace, e: Event): Trace
  {
    if t.owner == Blocked then t
    else
      match e
      case StatusCall =>
        if t.owner != Idle then t else t.(statuses := t.statuses + [Status(t.monitor)])
      case StartCall =>
        if t.owner != Idle then t
        else
          (match Start(t.monitor)
           case Ok(m) => t.(monitor := m)
           case Err(_) => t.(startErrors := t.startErrors + 1))
      case ReleaseCall(wait) =>
        if t.owner != Idle then t
        else
          var o := Release(t.monitor, wait);
          t.(monitor := o.monitor, owner := if o.AwaitingLock? then WaitingForLock else Idle)
      case ReleaseTakesLock =>
        if t.owner != WaitingForLock then t
        else t.(owner := if AwaitFreed(t.monitor).Spinning? then Blocked else Idle)
      case SamplerTurn(read) =>
        var turn := WorkerTurn(t.monitor, read);
        t.(monitor := turn.monitor,
           callbacks := t.callbacks + OptionToSeq(turn.callback),
           clears := t.clears + (if Status(t.monitor) && !Status(turn.monitor) then 1 else 0))
  }

  function Replay(t: Trace, events: seq<Event>): Trace
  {
    if |events| == 0 then t else Step(Replay(t, events[..|events| - 1]), events[|events| - 1])
  }

  function Run(m: Monitor, events: seq<Event>): Trace
  {
    Replay(Initial(m), events)
  }

  /** The sampling thread's turns for a run of reads. */
  function Turns(results: seq<SamplingLoop.ReadResult>): seq<Event>
  {
    seq(|results|, i requires 0 <= i < |results| => SamplerTurn(results[i]))
  }

  /** From any valid state the invariant survives every step, the recorder is
      never replaced, and a present recorder becomes absent at most once:
      `clears` plus presence is conserved. */
  lemma {:induction false} RecorderReleasedAtMostOnce(t: Trace, events: seq<Event>)
    requires Valid(t.monitor)
    ensures var f := Replay(t, events);
            && Valid(f.monitor)
            && f.clears + (if Status(f.monitor) then 1 else 0) == t.clears + (if Status(t.monitor) then 1 else 0)
            && (Status(f.monitor) ==> f.monitor.handle == t.monitor.handle)
  {
    if |events| > 0 {
      RecorderReleasedAtMostOnce(t, events[..|events| - 1]);
    }
  }

  /** Over a session that starts from a successful construction the recorder is
      released exactly once by the time `status()` turns false, only by the
      sampling thread's teardown, and only after the stop flag was cleared. */
  lemma SessionReleasesRecorderOnce(d: Device, events: seq<Event>)
    requires Construct(d).Ok?
    ensures var f := Run(Construct(d).value, events);
            && f.clears <= 1
            && (f.clears == 1 <==> !Status(f.monitor))
            && (f.clears == 1 ==> !f.monitor.running && f.monitor.phase == Finished)
  {
    RecorderReleasedAtMostOnce(Initial(Construct(d).value), events);
  }

  /** After the stop flag is cleared no further level reaches the callback. */
  lemma {:induction false} NoCallbacksAfterStop(t: Trace, events: seq<Event>)
    requires !t.monitor.running
    ensures !Replay(t, events).monitor.running
    ensures Replay(t, events).callbacks == t.callbacks
  {
    if |events| > 0 {
      NoCallbacksAfterStop(t, events[..|events| - 1]);
    }
  }

  /** `status()` reports whether the recorder is present and changes nothing else.
      This holds by construction of `Step`: the call only reads `ar`. */
  lemma StatusIsReadOnly(t: Trace, events: seq<Event>)
    ensures var before := Replay(t, events);
            var after := Replay(t, events + [StatusCall]);
            && after.(statuses := before.statuses) == before
            && (before.owner == Idle ==> after.statuses == before.statuses + [before.monitor.handle.Some?])
  {
  }

  /** While the monitor runs, the sampling thread's turns deliver exactly the
      callbacks of the sampling loop over the same reads, and change no state. */
  lemma {:induction false} TurnsFollowSamplingLoop(t: Trace, results: seq<SamplingLoop.ReadResult>)
    requires t.owner != Blocked && t.monitor.running && t.monitor.phase == Looping && Status(t.monitor)
    ensures Replay(t, Turns(results)) == t.(callbacks := t.callbacks + SamplingLoop.Callbacks(results))
  {
    if |results| > 0 {
      var p := results[..|results| - 1];
      assert Turns(results)[..|results| - 1] == Turns(p);
      TurnsFollowSamplingLoop(t, p);
    }
  }

  /** A release before the thread was ever started drops the only reference to
      it, so nothing will release the recorder: `status()` stays true for the
      rest of the session and a later `release(true)` never returns. */
  lemma {:induction false} ReleaseBeforeStartKeepsRecorder(t: Trace, events: seq<Event>)
    requires !t.monitor.holdsThread && t.monitor.phase == Unstarted && Status(t.monitor)
    ensures var f := Replay(t, events);
            && !f.monitor.holdsThread
            && f.monitor.phase == Unstarted
            && f.monitor.handle == t.monitor.handle
            && f.callbacks == t.callbacks
            && Step(Step(f, ReleaseCall(true)), ReleaseTakesLock).owner == Blocked
  {
    if |events| > 0 {
      ReleaseBeforeStartKeepsRecorder(t, events[..|events| - 1]);
    }
  }

  /** A waiting `release(true)` returns only once the recorder is gone: from the
      moment it passes its unlocked writes, whatever steps follow, an owner that
      is free again sees `status()` false. */
  lemma {:induction false} WaitingReleaseReturnsOnlyWhenFreed(t: Trace, events: seq<Event>)
    requires t.owner == WaitingForLock
    ensures Replay(t, events).owner == Idle ==> !Status(Replay(t, events).monitor)
  {
    if |events| > 0 {
      WaitingReleaseReturnsOnlyWhenFreed(t, events[..|events| - 1]);
    }
  }

  /** After `start()` the outcome of `release(true)` depends on the interleaving.
      If the sampling thread's teardown runs between the unlocked writes and the
      lock, the wait loop finds `ar` null and returns with status false. If the
      owner takes the lock first, it spins for good and the recorder stays open. */
  lemma WaitingReleaseRaceAfterStart(t: Trace, read: SamplingLoop.ReadResult)
    requires t.owner == Idle && Valid(t.monitor) && t.monitor.running && t.monitor.phase == Looping
    ensures var freed := Replay(t, [ReleaseCall(true), SamplerTurn(read), ReleaseTakesLock]);
            && freed.owner == Idle && !Status(freed.monitor)
            && freed.clears == t.clears + 1 && freed.callbacks == t.callbacks
    ensures var blocked := Replay(t, [ReleaseCall(true), ReleaseTakesLock]);
            && blocked.owner == Blocked && blocked.monitor.handle == t.monitor.handle
            && blocked.clears == t.clears
  {
    var freedEvents := [ReleaseCall(true), SamplerTurn(read), ReleaseTakesLock];
    ReplayExtends(t, freedEvents, 0);
    ReplayExtends(t, freedEvents, 1);
    ReplayExtends(t, freedEvents, 2);
    assert freedEvents[..3] == freedEvents;
    var blockedEvents := [ReleaseCall(true), ReleaseTakesLock];
    ReplayExtends(t, blockedEvents, 0);
    ReplayExtends(t, blockedEvents, 1);
    assert blockedEvents[..2] == blockedEvents;
  }

  /** A whole session on a recorder with buffer size 160: three full reads
      whose absolute amplitudes sum to 1600, 3200 and 0, then a release without
      waiting and the thread's last turn. The callback receives 10, 20 and 0 in
      that order, and `status()` is true before the session and false after it. */
  lemma ThreeReadSession(h: Handle)
    ensures Construct(Device(160, Some(h), true, false)).Ok?
    ensures var quiet: seq<Noise.Sample> := seq(160, i => 10);
            var loud: seq<Noise.Sample> := seq(160, i => if i % 2 == 0 then 20 else -20);
            var silent: seq<Noise.Sample> := seq(160, i => 0);
            var f := Run(Construct(Device(160, Some(h), true, false)).value,
                         [StatusCall, StartCall,
                          SamplerTurn(SamplingLoop.Returned(160, quiet)),
                          SamplerTurn(SamplingLoop.Returned(160, loud)),
                          SamplerTurn(SamplingLoop.Returned(160, silent)),
                          ReleaseCall(false), SamplerTurn(SamplingLoop.Threw), StatusCall]);
            f.callbacks == [10, 20, 0] && f.statuses == [true, false] && f.clears == 1 && f.owner == Idle
  {
    var quiet: seq<Noise.Sample> := seq(160, i => 10);
    var loud: seq<Noise.Sample> := seq(160, i => if i % 2 == 0 then 20 else -20);
    var silent: seq<Noise.Sample> := seq(160, i => 0);
    Noise.UniformReadLevel(quiet, 160, 10);
    Noise.UniformReadLevel(loud, 160, 20);
    Noise.UniformReadLevel(silent, 160, 0);
    var m := Construct(Device(160, Some(h), true, false)).value;
    var events := [StatusCall, StartCall,
                   SamplerTurn(SamplingLoop.Returned(160, quiet)),
                   SamplerTurn(SamplingLoop.Returned(160, loud)),
                   SamplerTurn(SamplingLoop.Returned(160, silent)),
                   ReleaseCall(false), SamplerTurn(SamplingLoop.Threw), StatusCall];
    var t := Initial(m);
    var looping := m.(phase := Looping);
    ReplayExtends(t, events, 0);
    ReplayExtends(t, events, 1);
    assert Replay(t, events[..2]) == t.(monitor := looping, statuses := [true]);
    ReplayExtends(t, events, 2);
    ReplayExtends(t, events, 3);
    ReplayExtends(t, events, 4);
    assert Replay(t, events[..5]) == t.(monitor := looping, statuses := [true], callbacks := [10, 20, 0]);
    ReplayExtends(t, events, 5);
    ReplayExtends(t, events, 6);
    ReplayExtends(t, events, 7);
    assert events[..8] == events;
  }

  lemma ReplayExtends(t: Trace, events: seq<Event>, k: nat)
    requires k < |events|
    ensures Replay(t, events[..k + 1]) == Step(Replay(t, events[..k]), events[k])
  {
    assert events[..k + 1][..k] == events[..k];
  }
}
