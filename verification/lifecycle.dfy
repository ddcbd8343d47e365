/** The monitor's shared state and the atomic steps that change it: construction,
    `status()`, `start()`, `release(wait_until_done)`, and one turn of the sampling
    thread (an iteration of the loop, or its teardown once `is_running` is false). */
module Lifecycle {
  import opened Wrappers
  import SamplingLoop

  /** An open `AudioRecord`, treated as an opaque token. */
  datatype Handle = Handle(id: nat)

  /** Where the sampling thread object is, whether or not the owner still holds it. */
  datatype Phase =
    | Unstarted  // created by the constructor, `Thread.start()` not yet called
    | Looping    // inside `while (is_running)`
    | Finished   // past the teardown; the thread has exited

  datatype Monitor = Monitor(
    running: bool,           // `is_running`
    holdsThread: bool,       // `thread != null`
    handle: Option<Handle>,  // `ar`
    bufferSize: int,         // `buffer_size`
    phase: Phase)

  /** `status()`: whether the recorder is present. Reading it changes nothing. */
  function Status(m: Monitor): bool
  {
    m.handle.Some?
  }

  /** The relations between the fields that every reachable monitor keeps:
      the stop flag and the owner's thread reference are cleared together,
      the handle is absent exactly when the thread has exited, and an exited
      thread was stopped. */
  predicate Valid(m: Monitor)
  {
    && m.running == m.holdsThread
    && (m.handle.None? <==> m.phase == Finished)
    && (m.phase == Finished ==> !m.running)
    && m.bufferSize >= 0
  }

  /** What the device collaborators answer during construction. */
  datatype Device = Device(
    minBufferSize: int,       // `AudioRecord.getMinBufferSize(...)`
    created: Option<Handle>,  // the new `AudioRecord`, or None when its constructor throws
    initialised: bool,        // `state == STATE_INITIALIZED`
    startThrows: bool)        // `startRecording()` throws

  /** The exception that escapes the constructor. */
  datatype ConstructFailure =
    | NullAtInitCheck       // `ar!!` in the initialisation check after creation threw
    | NegativeBufferSize    // `ShortArray(buffer_size)` with a negative size
    | NullAtStartRecording  // `ar!!.startRecording()` after a failed check cleared `ar`
    | StartRecordingThrew   // `startRecording()` itself threw

  /** A failed construction, with the recorder it leaves open and unreleased, if any. */
  datatype ConstructError = ConstructError(failure: ConstructFailure, leaked: Option<Handle>)

  /** The `init` block. A non-positive buffer size is only logged; an exception
      from creating the recorder is caught and leaves `ar` null, so the
      initialisation check then dereferences null; a recorder that fails the
      check is released and cleared, so the buffer allocation or
      `startRecording()` then throws. No path yields a monitor whose status is false. */
  function Construct(d: Device): (r: Result<Monitor, ConstructError>)
    ensures r.Ok? <==> d.created.Some? && d.initialised && d.minBufferSize >= 0 && !d.startThrows
    ensures r.Ok? ==> Status(r.value) && Valid(r.value) && r.value.handle == d.created
    ensures r.Ok? ==> r.value.running && r.value.holdsThread && r.value.phase == Unstarted
    ensures r.Ok? ==> r.value.bufferSize == d.minBufferSize
    ensures d.created.None? ==> r == Err(ConstructError(NullAtInitCheck, None))
    ensures d.created.Some? && !d.initialised ==>
              r.Err? && r.error.leaked.None? &&
              r.error.failure == (if d.minBufferSize < 0 then NegativeBufferSize else NullAtStartRecording)
    ensures d.created.Some? && d.initialised && r.Err? ==>
              r.error.failure == (if d.minBufferSize < 0 then NegativeBufferSize else StartRecordingThrew)
    ensures r.Err? ==> (r.error.leaked.Some? <==> d.created.Some? && d.initialised)
    ensures r.Err? && r.error.leaked.Some? ==> r.error.leaked == d.created
  {
    var bufferSize := d.minBufferSize;
    match d.created
    case None => Err(ConstructError(NullAtInitCheck, None))
    case Some(h) =>
      var ar := if d.initialised then Some(h) else None;
      if bufferSize < 0 then Err(ConstructError(NegativeBufferSize, ar))
      else if ar.None? then Err(ConstructError(NullAtStartRecording, None))
      else if d.startThrows then Err(ConstructError(StartRecordingThrew, ar))
      else Ok(Monitor(true, true, ar, bufferSize, Unstarted))
  }

  /** `Thread.start()` on a thread that was already started throws. */
  datatype StartError = IllegalThreadState

  /** `start()`: starts the thread if the owner still holds it; otherwise does nothing. */
  function Start(m: Monitor): (r: Result<Monitor, StartError>)
    ensures !m.holdsThread ==> r == Ok(m)
    ensures r.Err? <==> m.holdsThread && m.phase != Unstarted
    ensures r.Ok? && m.holdsThread ==> r.value.phase == Looping
    ensures r.Ok? ==> r.value.(phase := m.phase) == m
    ensures Valid(m) && r.Ok? ==> Valid(r.value)
  {
    if !m.holdsThread then Ok(m)
    else if m.phase == Unstarted then Ok(m.(phase := Looping))
    else Err(IllegalThreadState)
  }

  /** Where `release(wait_until_done)` stands after its two unlocked writes: it has
      returned, or, when asked to wait, it goes on to take the monitor's lock. */
  datatype ReleaseOutcome = Returned(monitor: Monitor) | AwaitingLock(monitor: Monitor)

  /** `release(wait_until_done)` up to the lock: clears the stop flag and drops
      the thread reference whatever `wait` says, and leaves the recorder alone. */
  function Release(m: Monitor, wait: bool): (r: ReleaseOutcome)
    ensures !r.monitor.running && !r.monitor.holdsThread
    ensures r.monitor.handle == m.handle && r.monitor.phase == m.phase
    ensures r.monitor.bufferSize == m.bufferSize
    ensures r.AwaitingLock? <==> wait
    ensures Valid(m) ==> Valid(r.monitor)
  {
    var m' := m.(running := false, holdsThread := false);
    if wait then AwaitingLock(m') else Returned(m')
  }

  /** How the wait loop of `release(true)` ends once it holds the lock. */
  datatype WaitOutcome = Freed | Spinning

  /** The wait loop: with `ar` already null it exits at once. Otherwise it spins
      forever, because its body changes nothing and the teardown that would
      clear `ar` needs the lock the loop holds. */
  function AwaitFreed(m: Monitor): (w: WaitOutcome)
    ensures w.Freed? <==> !Status(m)
  {
    if m.handle.Some? then Spinning else Freed
  }

  /** The state after one turn of the sampling thread and the level, if any,
      it passed to the callback. */
  datatype Turn = Turn(monitor: Monitor, callback: Option<int>)

  /** One turn of the sampling thread. A thread that is not looping does nothing.
      A looping thread that finds `is_running` false leaves the loop, releases the
      recorder and clears `ar`, then exits. Otherwise it performs one iteration
      with the given read result. */
  function WorkerTurn(m: Monitor, read: SamplingLoop.ReadResult): (t: Turn)
    ensures m.phase != Looping ==> t == Turn(m, None)
    ensures m.running ==> t.monitor == m
    ensures t.monitor.running == m.running && t.monitor.holdsThread == m.holdsThread
    ensures t.monitor.bufferSize == m.bufferSize
    ensures Status(t.monitor) ==> t.monitor.handle == m.handle
    ensures Status(m) && !Status(t.monitor) ==> m.phase == Looping && !m.running
    ensures m.phase == Looping && !m.running ==> !Status(t.monitor) && t.monitor.phase == Finished
    ensures t.callback.Some? ==>
              m.running && m.phase == Looping && t.monitor == m && t.callback == SamplingLoop.Level(read)
    ensures m.running && m.phase == Looping && Status(m) ==> t.callback == SamplingLoop.Level(read)
    ensures Valid(m) ==> Valid(t.monitor)
  {
    if m.phase != Looping then Turn(m, None)
    // loop exit and teardown; with `ar` already null, `ar!!` would end the thread the same way
    else if !m.running then Turn(m.(handle := None, phase := Finished), None)
    // `ar!!.read` on a null recorder throws inside the `try`, and the handler swallows it
    else if m.handle.None? then Turn(m, None)
    else Turn(m, SamplingLoop.Level(read))
  }

  /** Once released, the owner holds no thread, so a later `start()` changes nothing. */
  lemma StartAfterReleaseIsNoop(m: Monitor, wait: bool)
    ensures Start(Release(m, wait).monitor) == Ok(Release(m, wait).monitor)
  {
  }
}
