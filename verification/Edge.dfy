/**
 * The Edge: the pipeline, the writer and the state machine behind the command handler. Commands run one at
 * a time, each as a sequence of steps that interleave with the capture, processing and writer threads.
 */
module Edge {
  import opened Outcomes
  import opened ResultPacket
  import opened SessionBinary
  import opened RuntimeConfigs
  import opened EdgeStates
  import P = Pipeline
  import W = AsyncWriter

  /** Which of its calls into the pipeline the handler makes; StopFailed is the stop after a failed START. */
  datatype PipelineCall =
    | StartPipeline | PausePipeline | ResumePipeline | StopPipeline | StopFailed | StopReset | StopShutdown

  /** Why the handler closes the writer. */
  datatype CloseCause = AfterStop | AfterFailure | AfterReset | AfterShutdown

  /** CONFIG works on a candidate; only MovePipeline and MoveConfig replace what is in use. */
  datatype Handler =
    | Ready
    | ApplySettings(candidate: RuntimeConfig)
    | ValidateCandidate(candidate: RuntimeConfig)
    | MakePipeline(candidate: RuntimeConfig)
    | MovePipeline(candidate: RuntimeConfig, replacement: P.State)
    | MoveConfig(candidate: RuntimeConfig)
    | AttachResult
    | AttachFault
    | OpenWriter
    | MarkMeasuring
    | BeginPipeline(call: PipelineCall)
    | AwaitPipeline(call: PipelineCall)
    | BeginClose(cause: CloseCause)
    | AwaitClose(cause: CloseCause)
    | MarkStopped
    | MarkFailed
    | MarkPaused
    | MarkResumed
    | MarkReset
    | Dead

  datatype Reply = NoReply | Started | Stopped | PausedReply | Resumed | Reset | Configured | ErrorReply

  /** Which callbacks the live pipeline has. */
  datatype Callbacks = Callbacks(result: bool, fault: bool)

  const ATTACHED: Callbacks := Callbacks(true, true)
  const UNATTACHED: Callbacks := Callbacks(false, false)

  /** `built` is history: the configuration from which the live pipeline was made. */
  datatype State = State(
    p: P.State, w: W.State, edge: EdgeState, config: RuntimeConfig, built: RuntimeConfig, callbacks: Callbacks,
    handler: Handler, reply: Reply)

  predicate Stops(call: PipelineCall) {
    call.StopPipeline? || call.StopFailed? || call.StopReset? || call.StopShutdown?
  }

  /** make_pipeline: what it builds from a configuration it accepts. */
  ghost predicate Makes(c: RuntimeConfig, p: P.State) {
    Valid(c) && p.capacity == c.captureQueueSize && p.poolSize == c.framePoolSize && P.Fresh(p)
  }

  /** After the boot: everything is made from a configuration whose pool size check did not wrap. */
  ghost predicate Booted(e: State) {
    && PoolFits(e.config) && e.built == e.config && Makes(e.config, e.p)
    && W.Fresh(e.w) && e.edge == Idle && e.callbacks == ATTACHED && e.handler == Ready && e.reply == NoReply
  }

  function Faulty(edge: EdgeState, faultReported: bool): EdgeState {
    if faultReported then After(Fault, edge) else edge
  }

  // The threads. A fault of the pipeline reaches the Edge only through its fault callback.

  ghost predicate CaptureMove(e: State, f: State) {
    exists event ::
      && P.CaptureStep(e.p, f.p, event)
      && f == e.(p := f.p, edge := Faulty(e.edge, event.FaultReported? && e.callbacks.fault))
  }

  /** The result callback enqueues each result, and throws if the writer does not take it. */
  ghost predicate Delivered(e: State, f: State, event: P.Event) {
    match event
    case Accepted(result) =>
      if e.callbacks.result then W.EnqueueStep(e.w, f.w, result, W.Taken) else f.w == e.w
    case Rejected(result) =>
      && e.callbacks.result
      && (f.w == e.w || W.EnqueueStep(e.w, f.w, result, W.Full) || W.EnqueueStep(e.w, f.w, result, W.Refused))
    case _ => f.w == e.w
  }

  ghost predicate ProcessingMove(e: State, f: State) {
    exists event ::
      && P.ProcessingStep(e.p, f.p, event) && Delivered(e, f, event)
      && f == e.(p := f.p, w := f.w, edge := Faulty(e.edge, event.FaultReported? && e.callbacks.fault))
  }

  ghost predicate WorkerMove(e: State, f: State) {
    exists reported :: W.WorkerStep(e.w, f.w, reported) && f == e.(w := f.w, edge := Faulty(e.edge, reported))
  }

  ghost predicate DiskMove(e: State, f: State) { W.DiskStep(e.w, f.w) && f == e.(w := f.w) }

  // The commands.

  function Failed(e: State): State { e.(handler := Ready, reply := ErrorReply) }

  /** A command either begins or is refused because of the Edge state. */
  function Begun(e: State, allowed: bool, handler: Handler): State {
    if allowed then e.(handler := handler) else Failed(e)
  }

  ghost predicate Command(e: State, f: State) {
    && e.handler == Ready
    && (|| f == Begun(e, e.edge == Idle, ApplySettings(e.config))  // CONFIG
        || f == Begun(e, e.edge == Idle, OpenWriter)  // START
        || f == Begun(e, e.edge == Measuring || e.edge == Paused, BeginPipeline(StopPipeline))
        || f == Begun(e, e.edge == Measuring, BeginPipeline(PausePipeline))
        || f == Begun(e, e.edge == Paused, BeginPipeline(ResumePipeline))
        || f == Begun(e, e.edge == Faulted, BeginPipeline(StopReset))
        || f == e.(edge := After(Shutdown, e.edge), handler := BeginPipeline(StopShutdown))
        || f == Failed(e))  // a START without session, unknown commands
  }

  /** The settings that CONFIG can change leave the sizes of pool and queue alone. */
  predicate SamePool(c: RuntimeConfig, d: RuntimeConfig) {
    c.framePoolSize == d.framePoolSize && c.captureQueueSize == d.captureQueueSize
  }

  /** CONFIG, one throw point after the other; an exception answers with an error and leaves all as it is by then. */
  ghost predicate ConfigMove(e: State, f: State) {
    match e.handler
    case ApplySettings(candidate) =>
      || f == Failed(e)
      || f == e.(handler := ValidateCandidate(candidate))
      || exists c :: SamePool(c, candidate) && f == e.(handler := ApplySettings(c))
    case ValidateCandidate(candidate) =>
      f == Failed(e) || (Valid(candidate) && f == e.(handler := MakePipeline(candidate)))
    case MakePipeline(candidate) =>
      || f == Failed(e)
      || exists replacement ::
           Makes(candidate, replacement) && f == e.(handler := MovePipeline(candidate, replacement))
    case MovePipeline(candidate, replacement) =>
      f == e.(p := replacement, built := candidate, callbacks := UNATTACHED, handler := MoveConfig(candidate))
    case MoveConfig(candidate) =>
      f == e.(config := candidate, handler := AttachResult)
    case AttachResult =>
      f == Failed(e) || f == e.(callbacks := e.callbacks.(result := true), handler := AttachFault)
    case AttachFault =>
      || f == Failed(e)
      || f == e.(callbacks := e.callbacks.(fault := true), handler := Ready, reply := Configured)
    case _ => false
  }

  function AfterOpen(e: State): State {
    e.(handler := if e.w.outcome == Returned then MarkMeasuring else BeginPipeline(StopFailed))
  }

  /** START's arguments may be refused before the writer is opened; that is handled like a failed open. */
  ghost predicate OpenMove(e: State, f: State) {
    && e.handler == OpenWriter
    && (|| f == e.(handler := BeginPipeline(StopFailed))
        || exists info: SessionInfo ::
             && info.width == e.config.width && info.height == e.config.height
             && W.OpenStep(e.w, f.w, info)
             && f == AfterOpen(e.(w := f.w)))
  }

  ghost predicate BeginMove(e: State, f: State) {
    && e.handler.BeginPipeline?
    && f == e.(p := f.p, handler := AwaitPipeline(e.handler.call))
    && match e.handler.call {
         case StartPipeline => P.BeginStart(e.p, f.p)
         case PausePipeline => P.BeginPause(e.p, f.p)
         case ResumePipeline => P.BeginResume(e.p, f.p)
         case _ => P.BeginStop(e.p, f.p)
       }
  }

  ghost predicate CallMove(e: State, f: State) { P.ControlStep(e.p, f.p) && f == e.(p := f.p) }

  /** What the handler does when a call into the pipeline is over. */
  function AfterCall(call: PipelineCall, outcome: CallOutcome, e: State): State {
    match call
    case StartPipeline =>
      if outcome == Returned then e.(handler := Ready, reply := Started) else e.(handler := BeginPipeline(StopFailed))
    case PausePipeline => if outcome == Returned then e.(handler := MarkPaused) else Failed(e)
    case ResumePipeline => if outcome == Returned then e.(handler := MarkResumed) else Failed(e)
    case StopPipeline => e.(handler := BeginClose(AfterStop))
    case StopFailed => e.(handler := if e.w.shared.open then BeginClose(AfterFailure) else MarkFailed)
    case StopReset => e.(handler := if e.w.shared.open then BeginClose(AfterReset) else MarkReset)
    case StopShutdown => e.(handler := if e.w.shared.open then BeginClose(AfterShutdown) else Dead)
  }

  ghost predicate CallEnds(e: State, f: State) {
    && e.handler.AwaitPipeline? && e.p.control == P.ControlIdle
    && f == AfterCall(e.handler.call, e.p.outcome, e)
  }

  function FinalStatus(cause: CloseCause): W.Status {
    match cause
    case AfterStop => W.Complete
    case AfterShutdown => W.Interrupted
    case _ => W.FaultedStatus
  }

  ghost predicate BeginCloseMove(e: State, f: State) {
    && e.handler.BeginClose?
    && W.BeginClose(e.w, f.w, FinalStatus(e.handler.cause))
    && f == e.(w := f.w, handler := AwaitClose(e.handler.cause))
  }

  ghost predicate CloseMove(e: State, f: State) { W.CloseStep(e.w, f.w) && f == e.(w := f.w) }

  function AfterClose(cause: CloseCause, outcome: CallOutcome, e: State): State {
    match cause
    case AfterStop => e.(handler := if outcome == Returned then MarkStopped else MarkFailed)
    case AfterFailure => e.(handler := MarkFailed)
    case AfterReset => if outcome == Returned then e.(handler := MarkReset) else Failed(e)
    case AfterShutdown => e.(handler := Dead)
  }

  ghost predicate CloseEnds(e: State, f: State) {
    && e.handler.AwaitClose? && e.w.closing.pc == W.NotClosing
    && f == AfterClose(e.handler.cause, e.w.outcome, e)
  }

  /** A transition of the state machine, and what the handler does if it throws. */
  function Marked(e: State, t: Transition, next: Handler, reply: Reply, onThrow: Handler): State {
    if Allowed(t, e.edge) then e.(edge := Target(t, e.edge), handler := next, reply := reply)
    else e.(handler := onThrow, reply := if onThrow == Ready then ErrorReply else e.reply)
  }

  ghost predicate MarkMove(e: State, f: State) {
    match e.handler
    case MarkMeasuring =>
      f == Marked(e, StartMeasurement, BeginPipeline(StartPipeline), e.reply, BeginPipeline(StopFailed))
    case MarkStopped => f == Marked(e, StopMeasurement, Ready, Stopped, MarkFailed)
    case MarkFailed => f == Marked(e, Fault, Ready, ErrorReply, Ready)
    case MarkPaused => f == Marked(e, PauseMeasurement, Ready, PausedReply, Ready)
    case MarkResumed => f == Marked(e, ResumeMeasurement, Ready, Resumed, Ready)
    case MarkReset => f == Marked(e, ResetFault, Ready, Reset, Ready)
    case _ => false
  }

  ghost predicate ThreadMove(e: State, f: State) {
    CaptureMove(e, f) || ProcessingMove(e, f) || WorkerMove(e, f) || DiskMove(e, f)
  }

  ghost predicate HandlerMove(e: State, f: State) {
    || Command(e, f) || ConfigMove(e, f) || OpenMove(e, f) || BeginMove(e, f) || CallMove(e, f) || CallEnds(e, f)
    || BeginCloseMove(e, f) || CloseMove(e, f) || CloseEnds(e, f) || MarkMove(e, f)
  }

  ghost predicate Next(e: State, f: State) { ThreadMove(e, f) || HandlerMove(e, f) }

  ghost predicate Run(run: seq<State>) {
    && run != [] && Booted(run[0])
    && forall i :: 0 <= i < |run| - 1 ==> Next(run[i], run[i + 1])
  }
}
