/**
 * The real-time pipeline as a state machine: a capture thread, a processing thread and whoever calls
 * start, pause, resume and stop. Each thread has a program counter; an atomic access or a critical
 * section is one step.
 */
module Pipeline {
  import opened Outcomes
  import opened Bytes
  import opened ResultPacket
  import opened LatestQueues
  import FramePools

  datatype PipelineState = Stopped | Starting | Running | Paused | Stopping | Faulted

  /** A pool buffer holding the frame that was captured as the `number`-th, counted from 1. */
  datatype Frame = Frame(buffer: nat, number: nat)

  datatype CapturePc =
    | CaptureAbsent
    | CaptureTop
    | CaptureAcquire
    | CaptureGrab(buffer: nat)
    | CaptureTimedOut(buffer: nat)
    | CaptureCount(buffer: nat)
    | CapturePush(frame: Frame)
    | CaptureDropped(dropped: nat)
    | CaptureUnwind(buffer: nat)
    | CaptureFault
    | CaptureFaultStop
    | CaptureFaultReport
    | CaptureEnded

  datatype ProcessingPc =
    | ProcessingAbsent
    | ProcessingTop
    | ProcessingPop
    | GateLock(frame: Frame, skipped: nat)
    | GateTestStop(frame: Frame, skipped: nat)
    | GateTestPaused(frame: Frame, skipped: nat)
    | GateWaiting(frame: Frame, skipped: nat)
    | GateCheck(frame: Frame, skipped: nat)
    | GateActivate(frame: Frame, skipped: nat)
    | GateUnlock(frame: Frame, skipped: nat)
    | BreakUnlock(frame: Frame)
    | BreakRelease(frame: Frame)
    | CountSkipped(frame: Frame, skipped: nat)
    | TakeReference(frame: Frame)
    | ReferenceTaken(frame: Frame)
    | RunEngine(frame: Frame)
    | CountProcessed(frame: Frame, result: DicResult)
    | Deliver(frame: Frame, result: DicResult)
    | Callbacks(frame: Frame)
    | Deactivate(frame: Frame)
    | ReleaseFrame(frame: Frame)
    | Unwind(frame: Frame)
    | UnwindInactive
    | ProcessingFault
    | ProcessingFaultStop
    | ProcessingFaultReport
    | ProcessingEnded

  /** Where the calling thread is inside start, pause, resume or stop. */
  datatype ControlPc =
    | ControlIdle
    | StartPrepare
    | StartCapture
    | StartProcessing
    | StartDone
    | StartFailed
    | StartFaulted
    | PauseFlag
    | PauseLock
    | PauseTest
    | PauseUnlock
    | ResumeFlag
    | StopMark(wasFaulted: bool)
    | StopRequest
    | StopUnpause
    | StopQueue
    | StopPool
    | StopJoinCapture
    | StopJoinProcessing
    | StopDone

  datatype Owner = Free | ByProcessing | ByControl

  /** What a step shows outside the pipeline. */
  datatype Event = Silent | Accepted(result: DicResult) | Rejected(result: DicResult) | FaultReported

  /** The atomic flags and the owner of the pause mutex. */
  datatype Gate = Gate(state: PipelineState, stopRequested: bool, paused: bool, active: bool, mutex: Owner)

  datatype Pool = Pool(available: seq<nat>, closed: bool)

  datatype Queue = Queue(items: seq<Frame>, closed: bool)

  datatype Counts = Counts(captured: nat, processed: nat, dropped: nat)

  /** The number of the reference frame (0 if there is none), of the frame popped last, and of those processed. */
  datatype Order = Order(reference: nat, popped: nat, numbers: seq<nat>)

  /** History: the results counted as processed, those the callback accepted, and whether it refused one. */
  datatype Delivery = Delivery(results: seq<DicResult>, accepted: seq<DicResult>, refused: bool)

  /** History: frames that went uncounted when the queue was closed, at a push, and in the processing thread. */
  datatype Losses = Losses(atClose: nat, atPush: nat, inProcessing: nat)

  datatype State = State(
    capacity: Positive, poolSize: nat,
    gate: Gate, pool: Pool, queue: Queue, counts: Counts, order: Order, delivery: Delivery, losses: Losses,
    capture: CapturePc, processing: ProcessingPc, control: ControlPc, outcome: CallOutcome)

  function Buffers(queue: seq<Frame>): seq<nat> {
    if queue == [] then [] else [queue[0].buffer] + Buffers(queue[1..])
  }

  const NO_COUNTS: Counts := Counts(0, 0, 0)
  const NO_ORDER: Order := Order(0, 0, [])
  const NO_DELIVERY: Delivery := Delivery([], [], false)
  const NO_LOSSES: Losses := Losses(0, 0, 0)

  /** A pipeline as constructed: stopped, no threads, every buffer in the pool. */
  ghost predicate Fresh(p: State) {
    && p.poolSize >= p.capacity + 3
    && p.gate == Gate(Stopped, false, false, false, Free)
    && multiset(p.pool.available) == FramePools.AllBuffers(p.poolSize) && !p.pool.closed
    && p.queue == Queue([], false)
    && p.counts == NO_COUNTS && p.order == NO_ORDER && p.delivery == NO_DELIVERY && p.losses == NO_LOSSES
    && p.capture == CaptureAbsent && p.processing == ProcessingAbsent && p.control == ControlIdle
  }

  function Request(g: Gate): Gate { g.(stopRequested := true) }

  function Fail(g: Gate): Gate { g.(state := Faulted) }

  function Release(pool: Pool, buffers: seq<nat>): Pool { pool.(available := pool.available + buffers) }

  // The capture thread. Grabbing may succeed, time out or throw; other calls may throw as well.

  ghost predicate CaptureStep(p: State, q: State, e: Event) {
    match p.capture
    case CaptureAbsent => false
    case CaptureTop =>
      e == Silent && q == p.(capture := if p.gate.stopRequested then CaptureEnded else CaptureAcquire)
    case CaptureAcquire =>
      && e == Silent
      && (|| q == p.(capture := CaptureFault)
          || q == if p.pool.closed || p.pool.available == [] then p.(capture := CaptureTop)
                  else
                    var last := |p.pool.available| - 1;
                    p.(pool := p.pool.(available := p.pool.available[..last]),
                       capture := CaptureGrab(p.pool.available[last])))
    case CaptureGrab(buffer) =>
      && e == Silent
      && (|| q == p.(capture := CaptureCount(buffer))
          || q == p.(capture := CaptureTimedOut(buffer))
          || q == p.(capture := CaptureUnwind(buffer)))
    case CaptureTimedOut(buffer) =>
      e == Silent && q == p.(pool := Release(p.pool, [buffer]), capture := CaptureTop)
    case CaptureCount(buffer) =>
      var number := p.counts.captured + 1;
      e == Silent && q == p.(counts := p.counts.(captured := number), capture := CapturePush(Frame(buffer, number)))
    case CapturePush(frame) =>
      var lost := p.losses.(atPush := p.losses.atPush + 1);
      && e == Silent
      && (|| q == p.(capture := CaptureUnwind(frame.buffer), losses := lost)
          || q == if p.queue.closed then
                    p.(pool := Release(p.pool, [frame.buffer]), capture := CaptureDropped(0), losses := lost)
                  else
                    var kept := LastItems(p.queue.items + [frame], p.capacity);
                    var dropped := |p.queue.items| + 1 - |kept|;
                    p.(queue := Queue(kept, false), pool := Release(p.pool, Buffers(p.queue.items[..dropped])),
                       capture := CaptureDropped(dropped)))
    case CaptureDropped(n) =>
      e == Silent && q == p.(counts := p.counts.(dropped := p.counts.dropped + n), capture := CaptureTop)
    case CaptureUnwind(buffer) =>
      e == Silent && q == p.(pool := Release(p.pool, [buffer]), capture := CaptureFault)
    case CaptureFault =>
      e == Silent && q == p.(gate := Fail(p.gate), capture := CaptureFaultStop)
    case CaptureFaultStop =>
      e == Silent && q == p.(gate := Request(p.gate), capture := CaptureFaultReport)
    case CaptureFaultReport =>
      e == FaultReported && q == p.(capture := CaptureEnded)
    case CaptureEnded => false
  }

  // The processing thread: first the gate, then the work.

  ghost predicate GateStep(p: State, q: State) {
    match p.processing
    case ProcessingTop =>
      q == p.(processing := if p.gate.stopRequested then ProcessingEnded else ProcessingPop)
    case ProcessingPop =>
      q == if p.queue.items == [] then p.(processing := ProcessingTop)
           else
             var last := |p.queue.items| - 1;
             var newest := p.queue.items[last];
             p.(queue := p.queue.(items := []), pool := Release(p.pool, Buffers(p.queue.items[..last])),
                processing := GateLock(newest, last), order := p.order.(popped := newest.number))
    case GateLock(frame, skipped) =>
      && p.gate.mutex == Free
      && q == p.(gate := p.gate.(mutex := ByProcessing), processing := GateTestStop(frame, skipped))
    case GateTestStop(frame, skipped) =>
      q == p.(processing := if p.gate.stopRequested then GateCheck(frame, skipped) else GateTestPaused(frame, skipped))
    case GateTestPaused(frame, skipped) =>
      q == if p.gate.paused then p.(gate := p.gate.(mutex := Free), processing := GateWaiting(frame, skipped))
           else p.(processing := GateCheck(frame, skipped))
    case GateWaiting(frame, skipped) =>
      && p.gate.mutex == Free
      && q == p.(gate := p.gate.(mutex := ByProcessing), processing := GateTestStop(frame, skipped))
    case GateCheck(frame, skipped) =>
      q == if p.gate.stopRequested then
             p.(processing := BreakUnlock(frame),
                losses := p.losses.(inProcessing := p.losses.inProcessing + 1 + skipped))
           else p.(processing := GateActivate(frame, skipped))
    case GateActivate(frame, skipped) =>
      q == p.(gate := p.gate.(active := true), processing := GateUnlock(frame, skipped))
    case GateUnlock(frame, skipped) =>
      q == p.(gate := p.gate.(mutex := Free), processing := CountSkipped(frame, skipped))
    case BreakUnlock(frame) =>
      q == p.(gate := p.gate.(mutex := Free), processing := BreakRelease(frame))
    case BreakRelease(frame) =>
      q == p.(pool := Release(p.pool, [frame.buffer]), processing := ProcessingEnded)
    case _ => false
  }

  ghost predicate WorkStep(p: State, q: State, e: Event) {
    match p.processing
    case CountSkipped(frame, skipped) =>
      && e == Silent
      && q == p.(counts := p.counts.(dropped := p.counts.dropped + skipped),
                 processing := if p.order.reference == 0 then TakeReference(frame) else RunEngine(frame))
    case TakeReference(frame) =>
      && e == Silent
      && (|| q == p.(processing := Unwind(frame), losses := p.losses.(inProcessing := p.losses.inProcessing + 1))
          || q == p.(order := p.order.(reference := frame.number), processing := ReferenceTaken(frame)))
    case ReferenceTaken(frame) =>
      e == Silent && q == p.(gate := p.gate.(active := false), processing := ReleaseFrame(frame))
    case RunEngine(frame) =>
      && e == Silent
      && (|| q == p.(processing := Unwind(frame), losses := p.losses.(inProcessing := p.losses.inProcessing + 1))
          || exists result :: q == p.(processing := CountProcessed(frame, result)))
    case CountProcessed(frame, result) =>
      && e == Silent
      && q == p.(counts := p.counts.(processed := p.counts.processed + 1),
                 delivery := p.delivery.(results := p.delivery.results + [result]),
                 order := p.order.(numbers := p.order.numbers + [frame.number]),
                 processing := Deliver(frame, result))
    case Deliver(frame, result) =>
      || (e == Accepted(result) &&
          q == p.(delivery := p.delivery.(accepted := p.delivery.accepted + [result]), processing := Callbacks(frame)))
      || (e == Rejected(result) && q == p.(delivery := p.delivery.(refused := true), processing := Unwind(frame)))
    case Callbacks(frame) =>
      && e == Silent
      && (|| q == p.(processing := Deactivate(frame))
          || q == p.(processing := Unwind(frame)))
    case Deactivate(frame) =>
      e == Silent && q == p.(gate := p.gate.(active := false), processing := ReleaseFrame(frame))
    case ReleaseFrame(frame) =>
      e == Silent && q == p.(pool := Release(p.pool, [frame.buffer]), processing := ProcessingTop)
    case Unwind(frame) =>
      e == Silent && q == p.(pool := Release(p.pool, [frame.buffer]), processing := UnwindInactive)
    case UnwindInactive =>
      e == Silent && q == p.(gate := p.gate.(active := false), processing := ProcessingFault)
    case ProcessingFault =>
      e == Silent && q == p.(gate := Fail(p.gate), processing := ProcessingFaultStop)
    case ProcessingFaultStop =>
      e == Silent && q == p.(gate := Request(p.gate), processing := ProcessingFaultReport)
    case ProcessingFaultReport =>
      e == FaultReported && q == p.(processing := ProcessingEnded)
    case _ => false
  }

  ghost predicate ProcessingStep(p: State, q: State, e: Event) {
    (e == Silent && GateStep(p, q)) || WorkStep(p, q, e)
  }

  // The calls. At most one is in progress: callers hold the command mutex.

  ghost predicate BeginStart(p: State, q: State) {
    && p.control == ControlIdle
    && q == if p.gate.state == Stopped then p.(gate := p.gate.(state := Starting), control := StartPrepare)
            else p.(outcome := Thrown)
  }

  ghost predicate BeginPause(p: State, q: State) {
    && p.control == ControlIdle
    && q == if p.gate.state == Running then p.(gate := p.gate.(state := Paused), control := PauseFlag)
            else p.(outcome := Thrown)
  }

  ghost predicate BeginResume(p: State, q: State) {
    && p.control == ControlIdle
    && q == if p.gate.state == Paused then p.(gate := p.gate.(state := Running), control := ResumeFlag)
            else p.(outcome := Thrown)
  }

  ghost predicate BeginStop(p: State, q: State) {
    && p.control == ControlIdle
    && q == if p.gate.state == Stopped then p.(outcome := Returned)
            else p.(control := StopMark(p.gate.state == Faulted))
  }

  ghost predicate BeginCall(p: State, q: State) {
    BeginStart(p, q) || BeginPause(p, q) || BeginResume(p, q) || BeginStop(p, q)
  }

  /** The state in which the threads of a new run find the pipeline. */
  function Prepared(p: State): State {
    p.(gate := p.gate.(stopRequested := false, paused := false, active := false),
       pool := p.pool.(closed := false), queue := Queue([], false),
       counts := NO_COUNTS, order := NO_ORDER, delivery := NO_DELIVERY, losses := NO_LOSSES, control := StartCapture)
  }

  ghost predicate StartStep(p: State, q: State) {
    match p.control
    case StartPrepare =>
      if |p.pool.available| == p.poolSize then
        q == Prepared(p) || q == Prepared(p).(control := StartFailed)  // opening the camera may throw
      else
        q == p.(gate := p.gate.(stopRequested := false, paused := false, active := false), control := StartFailed)
    case StartCapture =>
      q == p.(capture := CaptureTop, control := StartProcessing) || q == p.(control := StartFailed)
    case StartProcessing =>
      q == p.(processing := ProcessingTop, control := StartDone) || q == p.(control := StartFailed)
    case StartDone =>
      q == p.(gate := p.gate.(state := Running), control := ControlIdle, outcome := Returned)
    case StartFailed =>
      q == p.(gate := Request(p.gate), control := StartFaulted)
    case StartFaulted =>
      q == p.(gate := Fail(p.gate), control := ControlIdle, outcome := Thrown)
    case _ => false
  }

  ghost predicate PauseStep(p: State, q: State) {
    match p.control
    case PauseFlag =>
      q == p.(gate := p.gate.(paused := true), control := PauseLock)
    case PauseLock =>
      p.gate.mutex == Free && q == p.(gate := p.gate.(mutex := ByControl), control := PauseTest)
    case PauseTest =>
      q == if p.gate.active then p.(gate := p.gate.(mutex := Free), control := PauseLock)
          else p.(control := PauseUnlock)
    case PauseUnlock =>
      q == p.(gate := p.gate.(mutex := Free), control := ControlIdle, outcome := Returned)
    case ResumeFlag =>
      q == p.(gate := p.gate.(paused := false), control := ControlIdle, outcome := Returned)
    case _ => false
  }

  ghost predicate StopStep(p: State, q: State) {
    match p.control
    case StopMark(wasFaulted) =>
      q == p.(gate := p.gate.(state := if wasFaulted then p.gate.state else Stopping), control := StopRequest)
    case StopRequest =>
      q == p.(gate := Request(p.gate), control := StopUnpause)
    case StopUnpause =>
      q == p.(gate := p.gate.(paused := false), control := StopQueue)
    case StopQueue =>
      q == p.(queue := Queue([], true), pool := Release(p.pool, Buffers(p.queue.items)),
              losses := p.losses.(atClose := p.losses.atClose + |p.queue.items|), control := StopPool)
    case StopPool =>
      q == p.(pool := p.pool.(closed := true), control := StopJoinCapture)
    case StopJoinCapture =>
      && (p.capture.CaptureAbsent? || p.capture.CaptureEnded?)
      && q == p.(capture := CaptureAbsent, control := StopJoinProcessing)
    case StopJoinProcessing =>
      && (p.processing.ProcessingAbsent? || p.processing.ProcessingEnded?)
      && q == p.(processing := ProcessingAbsent, control := StopDone)
    case StopDone =>
      q == p.(gate := p.gate.(state := Stopped), control := ControlIdle, outcome := Returned)
    case _ => false
  }

  ghost predicate ControlStep(p: State, q: State) {
    StartStep(p, q) || PauseStep(p, q) || StopStep(p, q)
  }

  ghost predicate Next(p: State, q: State) {
    || (exists e :: CaptureStep(p, q, e))
    || (exists e :: ProcessingStep(p, q, e))
    || ControlStep(p, q)
    || BeginCall(p, q)
  }

  ghost predicate Run(run: seq<State>) {
    && run != [] && Fresh(run[0])
    && forall i :: 0 <= i < |run| - 1 ==> Next(run[i], run[i + 1])
  }
}
