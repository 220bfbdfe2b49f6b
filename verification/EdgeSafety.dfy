/** What every step of the Edge keeps, and what its replies mean. */
module EdgeSafety {
  import opened Outcomes
  import opened ResultPacket
  import opened SessionBinary
  import opened RuntimeConfigs
  import opened EdgeStates
  import opened Edge
  import P = Pipeline
  import W = AsyncWriter
  import FramePools
  import PS = PipelineSafety
  import WS = AsyncWriterSafety

  predicate InSession(edge: EdgeState) { edge == Measuring || edge == Paused }

  // Calls: which handler steps have a call into the pipeline or the writer in progress, and when the pipeline is
  // stopped.

  predicate Belongs(c: P.ControlPc, call: PipelineCall) {
    match call
    case StartPipeline =>
      || c.StartPrepare? || c.StartCapture? || c.StartProcessing? || c.StartDone? || c.StartFailed?
      || c.StartFaulted?
    case PausePipeline => c.PauseFlag? || c.PauseLock? || c.PauseTest? || c.PauseUnlock?
    case ResumePipeline => c.ResumeFlag?
    case _ =>
      || c.StopMark? || c.StopRequest? || c.StopUnpause? || c.StopQueue? || c.StopPool? || c.StopJoinCapture?
      || c.StopJoinProcessing? || c.StopDone?
  }

  predicate Halting(h: Handler, edge: EdgeState, control: P.ControlPc) {
    || edge == Idle
    || h.OpenWriter? || h.MarkMeasuring? || h == BeginPipeline(StartPipeline)
    || h.BeginClose? || h.AwaitClose? || h.MarkStopped? || h.MarkFailed? || h.MarkReset? || h.Dead?
    || (h.AwaitPipeline? && Stops(h.call) && control.ControlIdle?)
  }

  ghost predicate InvCalls(e: State) {
    && (!e.p.control.ControlIdle? ==> e.handler.AwaitPipeline? && Belongs(e.p.control, e.handler.call))
    && (!e.w.closing.pc.NotClosing? ==> e.handler.AwaitClose?)
    && (Halting(e.handler, e.edge, e.p.control) ==> e.p.gate.state == P.Stopped)
  }

  /** The edge states in which each handler step can be. */
  predicate EdgeFits(h: Handler, edge: EdgeState) {
    match h
    case Ready => InSession(edge) || edge == Idle || edge == Faulted
    case OpenWriter => edge == Idle
    case MarkMeasuring => edge == Idle
    case ApplySettings(_) => edge == Idle
    case ValidateCandidate(_) => edge == Idle
    case MakePipeline(_) => edge == Idle
    case MovePipeline(_, _) => edge == Idle
    case MoveConfig(_) => edge == Idle
    case AttachResult => edge == Idle
    case AttachFault => edge == Idle
    case BeginPipeline(c) => CallFits(c, edge)
    case AwaitPipeline(c) => CallFits(c, edge) && (c == StartPipeline ==> edge != Idle)
    case BeginClose(c) => CloseFits(c, edge)
    case AwaitClose(c) => CloseFits(c, edge)
    case MarkFailed => InSession(edge) || edge == Idle || edge == Faulted
    case MarkReset => edge == Faulted
    case Dead => edge == ShuttingDown
    case _ => InSession(edge) || edge == Faulted
  }

  predicate CallFits(c: PipelineCall, edge: EdgeState) {
    match c
    case StopFailed => InSession(edge) || edge == Idle || edge == Faulted
    case StopReset => edge == Faulted
    case StopShutdown => edge == ShuttingDown
    case _ => InSession(edge) || edge == Faulted
  }

  predicate CloseFits(c: CloseCause, edge: EdgeState) {
    match c
    case AfterReset => edge == Faulted
    case AfterShutdown => edge == ShuttingDown
    case _ => InSession(edge) || edge == Faulted
  }

  // The writer: when its session is open, and what a finished close means.

  predicate NeedsOpen(h: Handler, edge: EdgeState) {
    || h.MarkMeasuring? || h.MarkPaused? || h.MarkResumed? || h == BeginClose(AfterStop)
    || ((h.BeginPipeline? || h.AwaitPipeline?)
          && (h.call.StartPipeline? || h.call.PausePipeline? || h.call.ResumePipeline? || h.call.StopPipeline?))
    || (h.Ready? && InSession(edge))
  }

  predicate NeedsClosed(h: Handler, edge: EdgeState) {
    h.OpenWriter? || h.MarkStopped? || h.MarkReset? || (edge == Idle && !h.MarkMeasuring?)
  }

  /** Every accepted result is recorded, counted and on disk. */
  ghost predicate Whole(w: W.State) {
    && w.history.recorded == w.history.accepted
    && w.counters.enqueued == w.counters.written == |w.history.accepted|
    && w.disk.durable == |w.disk.stream.bytes| && !w.disk.open
    && w.disk.stream.bytes == File(w.disk.info, w.history.accepted)
    && AllEncodable(w.history.accepted)
  }

  ghost predicate InvWriter(e: State) {
    && (NeedsOpen(e.handler, e.edge) ==> e.w.shared.open && !e.w.shared.stopRequested)
    && (NeedsClosed(e.handler, e.edge) ==> !e.w.shared.open)
    && (e.handler.BeginClose? ==> e.w.shared.open)
    && (e.handler == AwaitClose(AfterStop) ==>
          if e.w.closing.pc.NotClosing? then e.w.outcome == Returned ==> Whole(e.w) && !e.w.shared.open
          else e.w.closing.foundOpen)
    && (e.handler == AwaitClose(AfterReset) && e.w.closing.pc.NotClosing? && e.w.outcome == Returned ==>
          !e.w.shared.open)
    && (e.handler.MarkStopped? ==> Whole(e.w))
    && (e.handler.MarkMeasuring? ==> e.w.worker == W.WorkerWait(0) && e.w.shared.queue == [])
  }

  // The link: what the pipeline delivered is what the writer accepted.

  predicate BeforePrepare(h: Handler, control: P.ControlPc) {
    || h.MarkMeasuring? || h == BeginPipeline(StartPipeline)
    || (h == AwaitPipeline(StartPipeline) && control.StartPrepare?)
  }

  predicate Linked(h: Handler, edge: EdgeState, control: P.ControlPc) {
    || h.MarkPaused? || h.MarkResumed? || h == BeginClose(AfterStop) || h == AwaitClose(AfterStop) || h.MarkStopped?
    || ((h.BeginPipeline? || h.AwaitPipeline?)
          && (h.call.PausePipeline? || h.call.ResumePipeline? || h.call.StopPipeline?))
    || (h == AwaitPipeline(StartPipeline) && !control.StartPrepare?)
    || (h.Ready? && InSession(edge))
  }

  ghost predicate InvLink(e: State) {
    && (BeforePrepare(e.handler, e.p.control) ==> e.w.history.begun && e.w.history.accepted == [])
    && (Linked(e.handler, e.edge, e.p.control) ==>
          && e.w.history.begun
          && e.w.history.accepted == (if e.callbacks.result then e.p.delivery.accepted else [])
          && (e.callbacks.fault && e.p.delivery.refused && InSession(e.edge) ==>
                !e.p.processing.ProcessingEnded? && !e.p.processing.ProcessingAbsent?))
  }

  /** What each step of CONFIG knows about its candidate. */
  ghost predicate CandidateFits(h: Handler, config: RuntimeConfig, built: RuntimeConfig) {
    match h
    case ApplySettings(c) => SamePool(c, config) && built == config
    case ValidateCandidate(c) => SamePool(c, config) && built == config
    case MakePipeline(c) => SamePool(c, config) && Valid(c) && built == config
    case MovePipeline(c, replacement) => SamePool(c, config) && Makes(c, replacement) && built == config
    case MoveConfig(c) => SamePool(c, config) && built == c
    case _ => built == config
  }

  ghost predicate InvConfig(e: State) {
    && CandidateFits(e.handler, e.config, e.built)
    && Valid(e.config) && PoolFits(e.config) && Valid(e.built) && SamePool(e.built, e.config)
    && e.p.capacity == e.built.captureQueueSize && e.p.poolSize == e.built.framePoolSize
    && (e.handler.AttachFault? ==> e.callbacks.result)
    && (e.callbacks.fault ==> e.callbacks.result)
    && (e.w.history.begun ==> e.w.disk.info.width >= 64 && e.w.disk.info.height >= 64)
  }

  ghost predicate Inv(e: State) {
    && PS.Inv(e.p) && WS.Inv(e.w)
    && InvCalls(e) && EdgeFits(e.handler, e.edge) && InvWriter(e) && InvLink(e) && InvConfig(e)
  }

  lemma InvParts(e: State)
    ensures Inv(e) <==>
            && PS.Inv(e.p) && WS.Inv(e.w)
            && InvCalls(e) && EdgeFits(e.handler, e.edge) && InvWriter(e) && InvLink(e) && InvConfig(e)
  {
    hide PS.Inv;
    hide WS.Inv;
    hide InvCalls;
    hide EdgeFits;
    hide InvWriter;
    hide InvLink;
    hide InvConfig;
  }

  // What the steps of the parts do to the fields that matter here.

  predicate MayFail(s: P.PipelineState, t: P.PipelineState) { s != P.Stopped && (t == s || t == P.Faulted) }

  lemma CaptureEffects(p: P.State, q: P.State, event: P.Event)
    requires PS.InvThreads(p) && P.CaptureStep(p, q, event)
    ensures q.control == p.control && !p.control.StartPrepare? && MayFail(p.gate.state, q.gate.state)
    ensures q.delivery == p.delivery
    ensures q.capacity == p.capacity && q.poolSize == p.poolSize && q.processing == p.processing
  {
    hide P.Buffers;
  }

  lemma GateEffects(p: P.State, q: P.State)
    requires PS.InvThreads(p) && PS.InvDelivery(p) && P.GateStep(p, q)
    ensures q.control == p.control && !p.control.StartPrepare? && MayFail(p.gate.state, q.gate.state)
    ensures q.delivery == p.delivery
    ensures q.capacity == p.capacity && q.poolSize == p.poolSize
    ensures !p.delivery.refused
  {
    hide P.Buffers;
  }

  lemma WorkEffects(p: P.State, q: P.State, event: P.Event)
    requires PS.InvThreads(p) && P.WorkStep(p, q, event)
    ensures q.control == p.control && !p.control.StartPrepare? && MayFail(p.gate.state, q.gate.state)
    ensures q.capacity == p.capacity && q.poolSize == p.poolSize
    ensures q.processing.ProcessingEnded? ==> event.FaultReported?
    ensures !q.processing.ProcessingAbsent?
    ensures q.delivery.accepted == if event.Accepted? then p.delivery.accepted + [event.result] else p.delivery.accepted
  {
    hide P.Buffers;
  }

  lemma {:induction false} ProcessingEffects(p: P.State, q: P.State, event: P.Event)
    requires PS.Inv(p) && P.ProcessingStep(p, q, event)
    ensures q.control == p.control && !p.control.StartPrepare? && MayFail(p.gate.state, q.gate.state)
    ensures q.capacity == p.capacity && q.poolSize == p.poolSize
    ensures q.delivery.refused && (q.processing.ProcessingEnded? || q.processing.ProcessingAbsent?) ==>
            event.FaultReported?
    ensures q.delivery.accepted == if event.Accepted? then p.delivery.accepted + [event.result] else p.delivery.accepted
  {
    PS.InvParts(p);
    hide PS.Inv;
    hide PS.InvThreads;
    hide PS.InvDelivery;
    hide P.GateStep;
    hide P.WorkStep;
    if P.WorkStep(p, q, event) {
      WorkEffects(p, q, event);
    } else {
      GateEffects(p, q);
    }
  }

  /** What enqueuing, the worker and the disk leave alone. */
  predicate SameSession(w: W.State, v: W.State) {
    && v.shared.open == w.shared.open && v.shared.stopRequested == w.shared.stopRequested
    && v.closing == w.closing && v.outcome == w.outcome
    && v.history.begun == w.history.begun && v.disk.info == w.disk.info && v.disk.open == w.disk.open
  }

  lemma EnqueueEffects(w: W.State, v: W.State, result: DicResult, answer: W.Enqueued)
    requires W.EnqueueStep(w, v, result, answer)
    ensures SameSession(w, v) && v.worker == w.worker
    ensures v.history.accepted == if answer == W.Taken then w.history.accepted + [result] else w.history.accepted
    ensures !w.shared.open ==> v == w
  {
  }

  lemma WorkerEffects(w: W.State, v: W.State, reported: bool)
    requires W.WorkerStep(w, v, reported)
    ensures SameSession(w, v) && v.history.accepted == w.history.accepted && !w.worker.WorkerAbsent?
    ensures !(w.worker == W.WorkerWait(0) && w.shared.queue == [] && !w.shared.stopRequested)
  {
    hide Put;
    hide Record;
  }

  // The threads.

  predicate SameHandler(e: State, f: State) {
    && f.handler == e.handler && f.reply == e.reply && f.config == e.config && f.built == e.built
    && f.callbacks == e.callbacks
    && (f.edge == e.edge || f.edge == After(Fault, e.edge))
  }

  /** A thread of the pipeline moved: the pipeline is not stopped, and no call advances. */
  ghost predicate PipelineMoved(e: State, f: State) {
    && SameHandler(e, f) && SameSession(e.w, f.w)
    && f.p.control == e.p.control && !e.p.control.StartPrepare? && MayFail(e.p.gate.state, f.p.gate.state)
    && f.p.capacity == e.p.capacity && f.p.poolSize == e.p.poolSize
    && (|| (f.p.delivery.accepted == e.p.delivery.accepted && f.w.history.accepted == e.w.history.accepted)
        || (exists r ::
              && f.p.delivery.accepted == e.p.delivery.accepted + [r]
              && f.w.history.accepted == e.w.history.accepted + if e.callbacks.result then [r] else []))
    && (e.callbacks.fault && f.p.delivery.refused
          && (f.p.processing.ProcessingEnded? || f.p.processing.ProcessingAbsent?) ==>
          f.edge == After(Fault, e.edge) || (f.p.delivery == e.p.delivery && f.p.processing == e.p.processing))
  }

  /** The worker or the disk moved: that needs an open session or an open file, and a worker with something to do. */
  ghost predicate StorageMoved(e: State, f: State) {
    && SameHandler(e, f) && SameSession(e.w, f.w) && f.p == e.p
    && f.w.history.accepted == e.w.history.accepted
    && (!e.w.shared.open ==> f.edge == e.edge)
    && (!e.w.shared.open && !e.w.disk.open ==> f.w == e.w)
    && (e.w.worker.WorkerAbsent? ==> f.edge == e.edge && f.w.shared == e.w.shared && f.w.worker == e.w.worker)
    && (e.w.worker == W.WorkerWait(0) && e.w.shared.queue == [] && !e.w.shared.stopRequested ==>
          f.edge == e.edge && f.w.worker == e.w.worker && f.w.shared == e.w.shared)
  }

  lemma CaptureMoves(e: State, f: State)
    requires PS.Inv(e.p) && CaptureMove(e, f)
    ensures PipelineMoved(e, f)
  {
    var event :|
      && P.CaptureStep(e.p, f.p, event)
      && f == e.(p := f.p, edge := Faulty(e.edge, event.FaultReported? && e.callbacks.fault));
    PS.InvParts(e.p);
    CaptureEffects(e.p, f.p, event);
    hide PS.Inv;
    hide P.CaptureStep;
    hide PS.InvThreads;
  }

  lemma ProcessingMoves(e: State, f: State)
    requires PS.Inv(e.p) && ProcessingMove(e, f)
    ensures PipelineMoved(e, f)
  {
    hide PS.Inv;
    hide P.ProcessingStep;
    hide W.EnqueueStep;
    var event :|
      && P.ProcessingStep(e.p, f.p, event) && Delivered(e, f, event)
      && f == e.(p := f.p, w := f.w, edge := Faulty(e.edge, event.FaultReported? && e.callbacks.fault));
    ProcessingEffects(e.p, f.p, event);
    forall result, answer | W.EnqueueStep(e.w, f.w, result, answer)
      ensures SameSession(e.w, f.w)
      ensures f.w.history.accepted
              == if answer == W.Taken then e.w.history.accepted + [result] else e.w.history.accepted
      ensures !e.w.shared.open ==> f.w == e.w
    {
      EnqueueEffects(e.w, f.w, result, answer);
    }
  }

  lemma StorageMoves(e: State, f: State)
    requires WS.Inv(e.w) && (WorkerMove(e, f) || DiskMove(e, f))
    ensures StorageMoved(e, f)
  {
    WS.InvParts(e.w);
    hide WS.Inv;
    hide W.WorkerStep;
    if reported :| W.WorkerStep(e.w, f.w, reported) && f == e.(w := f.w, edge := Faulty(e.edge, reported)) {
      WorkerEffects(e.w, f.w, reported);
    }
  }

  lemma PipelineMovedKeeps(e: State, f: State)
    requires InvCalls(e) && EdgeFits(e.handler, e.edge) && InvWriter(e) && InvConfig(e) && PipelineMoved(e, f)
    ensures InvCalls(f) && EdgeFits(f.handler, f.edge) && InvConfig(f)
  {
  }

  lemma PipelineMovedKeepsWriter(e: State, f: State)
    requires InvCalls(e) && EdgeFits(e.handler, e.edge) && InvWriter(e) && PipelineMoved(e, f)
    ensures InvWriter(f)
  {
    hide Whole;
    hide EdgeFits;
    assert !Halting(e.handler, e.edge, e.p.control);
  }

  lemma PipelineMovedKeepsLink(e: State, f: State)
    requires InvCalls(e) && InvLink(e) && PipelineMoved(e, f)
    ensures InvLink(f)
  {
    assert !Halting(e.handler, e.edge, e.p.control);
  }

  lemma StorageMovedKeeps(e: State, f: State)
    requires WS.Inv(e.w) && InvCalls(e) && EdgeFits(e.handler, e.edge) && InvWriter(e) && InvConfig(e)
    requires StorageMoved(e, f)
    ensures InvCalls(f)
    ensures EdgeFits(f.handler, f.edge)
    ensures InvConfig(f)
  {
    hide WS.Inv;
    hide Whole;
  }

  lemma StorageMovedKeepsWriter(e: State, f: State)
    requires InvCalls(e) && EdgeFits(e.handler, e.edge) && InvWriter(e) && StorageMoved(e, f)
    ensures InvWriter(f)
  {
    assert Whole(e.w) && !e.w.shared.open ==> f.w == e.w;
    assert NeedsOpen(f.handler, f.edge) ==> NeedsOpen(e.handler, e.edge);
    assert NeedsClosed(f.handler, f.edge) ==> NeedsClosed(e.handler, e.edge);
    assert f.handler == e.handler && SameSession(e.w, f.w);
    assert e.handler.MarkMeasuring? ==> f.w.worker == e.w.worker && f.w.shared == e.w.shared;
    hide *;
    SameSessionKeepsWriter(e, f);
  }

  lemma SameSessionKeepsWriter(e: State, f: State)
    requires InvWriter(e) && f.handler == e.handler && SameSession(e.w, f.w)
    requires Whole(e.w) && !e.w.shared.open ==> f.w == e.w
    requires NeedsOpen(f.handler, f.edge) ==> NeedsOpen(e.handler, e.edge)
    requires NeedsClosed(f.handler, f.edge) ==> NeedsClosed(e.handler, e.edge)
    requires e.handler.MarkMeasuring? ==> f.w.worker == e.w.worker && f.w.shared == e.w.shared
    ensures InvWriter(f)
  {
    assert e.handler.MarkStopped? ==> NeedsClosed(e.handler, e.edge);
    hide Whole;
    hide NeedsOpen;
    hide NeedsClosed;
  }

  lemma StorageMovedKeepsLink(e: State, f: State)
    requires InvLink(e) && StorageMoved(e, f)
    ensures InvLink(f)
  {
  }

  lemma ThreadKeepsInv(e: State, f: State)
    requires Inv(e) && ThreadMove(e, f) && PS.Inv(f.p) && WS.Inv(f.w)
    ensures Inv(f)
  {
    ThreadMoves(e, f);
    hide *;
    InvParts(e);
    if PipelineMoved(e, f) {
      PipelineMovedKeeps(e, f);
      PipelineMovedKeepsWriter(e, f);
      PipelineMovedKeepsLink(e, f);
    } else {
      StorageMovedKeeps(e, f);
      StorageMovedKeepsWriter(e, f);
      StorageMovedKeepsLink(e, f);
    }
    InvParts(f);
  }

  lemma ThreadMoves(e: State, f: State)
    requires Inv(e) && ThreadMove(e, f)
    ensures PipelineMoved(e, f) || StorageMoved(e, f)
  {
    InvParts(e);
    hide Inv;
    hide PS.Inv;
    hide WS.Inv;
    hide CaptureMove;
    hide ProcessingMove;
    hide WorkerMove;
    hide DiskMove;
    if CaptureMove(e, f) {
      CaptureMoves(e, f);
    } else if ProcessingMove(e, f) {
      ProcessingMoves(e, f);
    } else {
      StorageMoves(e, f);
    }
  }

  // The handler.

  lemma CommandKeepsInv(e: State, f: State)
    requires Inv(e) && Command(e, f) && PS.Inv(f.p) && WS.Inv(f.w)
    ensures Inv(f)
  {
    hide *;
    InvParts(e);
    CommandKeepsCalls(e, f);
    CommandKeepsConfig(e, f);
    CommandKeepsWriter(e, f);
    CommandKeepsLink(e, f);
    InvParts(f);
  }

  lemma CommandKeepsCalls(e: State, f: State)
    requires InvCalls(e) && EdgeFits(e.handler, e.edge) && Command(e, f)
    ensures InvCalls(f) && EdgeFits(f.handler, f.edge)
  {
  }

  lemma CommandKeepsConfig(e: State, f: State)
    requires InvConfig(e) && Command(e, f)
    ensures InvConfig(f)
  {
    hide Makes;
  }

  lemma CommandKeepsWriter(e: State, f: State)
    requires InvWriter(e) && Command(e, f)
    ensures InvWriter(f)
  {
    hide Whole;
  }

  lemma CommandKeepsLink(e: State, f: State)
    requires InvLink(e) && Command(e, f)
    ensures InvLink(f)
  {
    CommandMoves(e, f);
    hide *;
    LinkStays(e, f);
  }

  /** A command begins with what a session knows, or with nothing. */
  lemma CommandMoves(e: State, f: State)
    requires Command(e, f)
    ensures f.p == e.p && f.w == e.w && f.callbacks == e.callbacks && (InSession(f.edge) ==> InSession(e.edge))
    ensures !BeforePrepare(f.handler, f.p.control)
    ensures Linked(f.handler, f.edge, f.p.control) ==> Linked(e.handler, e.edge, e.p.control)
  {
  }

  lemma LinkStays(e: State, f: State)
    requires InvLink(e)
    requires f.p == e.p && f.w == e.w && f.callbacks == e.callbacks && (InSession(f.edge) ==> InSession(e.edge))
    requires !BeforePrepare(f.handler, f.p.control)
    requires Linked(f.handler, f.edge, f.p.control) ==> Linked(e.handler, e.edge, e.p.control)
    ensures InvLink(f)
  {
    hide BeforePrepare;
    hide Linked;
  }

  lemma FreshPipeline(p: P.State)
    ensures P.Fresh(p) ==> p.gate.state == P.Stopped && p.control.ControlIdle?
  {
    hide FramePools.AllBuffers;
  }

  lemma ConfigKeepsInv(e: State, f: State)
    requires Inv(e) && ConfigMove(e, f) && PS.Inv(f.p) && WS.Inv(f.w)
    ensures Inv(f)
  {
    hide *;
    InvParts(e);
    ConfigKeepsCalls(e, f);
    ConfigKeepsConfig(e, f);
    ConfigKeepsRest(e, f);
    InvParts(f);
  }

  lemma ConfigKeepsCalls(e: State, f: State)
    requires InvCalls(e) && EdgeFits(e.handler, e.edge) && InvConfig(e) && ConfigMove(e, f)
    ensures InvCalls(f) && EdgeFits(f.handler, f.edge)
  {
    if e.handler.MovePipeline? {
      FreshPipeline(e.handler.replacement);
    }
    hide P.Fresh;
  }

  lemma ConfigKeepsConfig(e: State, f: State)
    requires InvConfig(e) && ConfigMove(e, f)
    ensures InvConfig(f)
  {
    hide P.Fresh;
  }

  lemma ConfigKeepsRest(e: State, f: State)
    requires EdgeFits(e.handler, e.edge) && InvWriter(e) && InvLink(e) && ConfigMove(e, f)
    ensures InvWriter(f) && InvLink(f)
  {
    hide Whole;
    hide Makes;
  }

  lemma OpenEffects(w: W.State, v: W.State, info: SessionInfo)
    requires W.OpenStep(w, v, info) && !w.shared.open
    ensures v.closing.pc.NotClosing?
    ensures v.history.begun ==> v.disk.info == info || (v.disk.info == w.disk.info && w.history.begun)
    ensures v.outcome == Returned ==>
              && v.shared.open && !v.shared.stopRequested && v.worker == W.WorkerWait(0) && v.shared.queue == []
              && v.history.begun && v.history.accepted == []
    ensures v.outcome == Thrown ==> !v.shared.open
  {
    hide Put;
    hide FileHeader;
  }

  lemma OpenKeepsInv(e: State, f: State)
    requires Inv(e) && OpenMove(e, f) && PS.Inv(f.p) && WS.Inv(f.w)
    ensures Inv(f)
  {
    InvParts(e);
    hide Inv;
    hide PS.Inv;
    hide WS.Inv;
    hide Whole;
    hide W.OpenStep;
    hide Makes;
    if info: SessionInfo :|
      info.width == e.config.width && info.height == e.config.height && W.OpenStep(e.w, f.w, info)
          && f == AfterOpen(e.(w := f.w))
    {
      OpenEffects(e.w, f.w, info);
    }
    InvParts(f);
  }

  lemma BeginEffects(p: P.State, q: P.State)
    requires P.BeginCall(p, q)
    ensures p.control.ControlIdle? && q.delivery == p.delivery && q.processing == p.processing
    ensures q.capacity == p.capacity && q.poolSize == p.poolSize
    ensures P.BeginStart(p, q) && p.gate.state == P.Stopped ==> q.control.StartPrepare?
    ensures P.BeginStart(p, q) ==> q.control.ControlIdle? || Belongs(q.control, StartPipeline)
    ensures P.BeginPause(p, q) ==> q.control.ControlIdle? || Belongs(q.control, PausePipeline)
    ensures P.BeginResume(p, q) ==> q.control.ControlIdle? || Belongs(q.control, ResumePipeline)
    ensures P.BeginStop(p, q) ==>
              if p.gate.state == P.Stopped then q.control.ControlIdle? && q.gate == p.gate else q.control.StopMark?
  {
  }

  lemma BeginKeepsInv(e: State, f: State)
    requires Inv(e) && BeginMove(e, f) && PS.Inv(f.p) && WS.Inv(f.w)
    ensures Inv(f)
  {
    hide *;
    InvParts(e);
    BeginKeepsCalls(e, f);
    BeginKeepsRest(e, f);
    InvParts(f);
  }

  lemma BeginKeepsCalls(e: State, f: State)
    requires InvCalls(e) && EdgeFits(e.handler, e.edge) && BeginMove(e, f)
    ensures InvCalls(f) && EdgeFits(f.handler, f.edge)
    ensures e.p.control.ControlIdle? && f.p.delivery == e.p.delivery && f.p.processing == e.p.processing
    ensures f.p.capacity == e.p.capacity && f.p.poolSize == e.p.poolSize
    ensures f.handler == AwaitPipeline(StartPipeline) ==> f.p.control.StartPrepare?
  {
    BeginEffects(e.p, f.p);
    hide P.BeginStart;
    hide P.BeginPause;
    hide P.BeginResume;
    hide P.BeginStop;
  }

  lemma BeginKeepsRest(e: State, f: State)
    requires BeginMove(e, f) && InvWriter(e) && InvLink(e) && InvConfig(e)
    requires e.p.control.ControlIdle? && f.p.delivery == e.p.delivery && f.p.processing == e.p.processing
    requires f.p.capacity == e.p.capacity && f.p.poolSize == e.p.poolSize
    requires f.handler == AwaitPipeline(StartPipeline) ==> f.p.control.StartPrepare?
    ensures InvWriter(f) && InvLink(f) && InvConfig(f)
  {
    hide P.BeginStart;
    hide P.BeginPause;
    hide P.BeginResume;
    hide P.BeginStop;
    hide Whole;
  }

  lemma StartEffects(p: P.State, q: P.State, call: PipelineCall)
    requires P.StartStep(p, q) && Belongs(p.control, call)
    requires p.control.StartPrepare? ==> |p.pool.available| == p.poolSize
    ensures q.capacity == p.capacity && q.poolSize == p.poolSize
    ensures (q.control.ControlIdle? || Belongs(q.control, call)) && !q.control.StartPrepare? && !Stops(call)
    ensures q.delivery == if p.control.StartPrepare? then P.NO_DELIVERY else p.delivery
    ensures q.processing == p.processing || p.control.StartProcessing?
  {
  }

  lemma PauseEffects(p: P.State, q: P.State, call: PipelineCall)
    requires P.PauseStep(p, q) && Belongs(p.control, call)
    ensures q.capacity == p.capacity && q.poolSize == p.poolSize
    ensures (q.control.ControlIdle? || Belongs(q.control, call)) && !q.control.StartPrepare? && !Stops(call)
    ensures q.delivery == p.delivery && q.processing == p.processing && !p.control.StartPrepare?
  {
  }

  lemma StopEffects(p: P.State, q: P.State, call: PipelineCall)
    requires P.StopStep(p, q) && Belongs(p.control, call)
    ensures q.capacity == p.capacity && q.poolSize == p.poolSize
    ensures (q.control.ControlIdle? || Belongs(q.control, call)) && !q.control.StartPrepare? && !p.control.StartPrepare?
    ensures q.control.ControlIdle? ==> q.gate.state == P.Stopped
    ensures q.delivery == p.delivery
    ensures q.processing == p.processing || p.processing.ProcessingEnded? || p.processing.ProcessingAbsent?
  {
    hide P.Buffers;
  }

  /** What a step of a call into the pipeline does. */
  ghost predicate CallMoved(p: P.State, q: P.State, call: PipelineCall) {
    && q.capacity == p.capacity && q.poolSize == p.poolSize && p.gate.state != P.Stopped && !p.control.ControlIdle?
    && (q.control.ControlIdle? || Belongs(q.control, call)) && !q.control.StartPrepare?
    && (Stops(call) && q.control.ControlIdle? ==> q.gate.state == P.Stopped)
    && q.delivery == (if p.control.StartPrepare? then P.NO_DELIVERY else p.delivery)
    && (q.processing == p.processing || p.processing.ProcessingEnded? || p.processing.ProcessingAbsent?
        || (p.control.StartProcessing? && !p.delivery.refused))
  }

  lemma ControlEffects(p: P.State, q: P.State, call: PipelineCall)
    requires PS.Inv(p) && P.ControlStep(p, q) && Belongs(p.control, call)
    ensures CallMoved(p, q, call)
  {
    PS.InvParts(p);
    assert PS.InvThreads(p) && PS.InvDelivery(p);
    if p.control.StartPrepare? {
      PS.AllBackWhenStopped(p);
    }
    assert p.gate.state != P.Stopped && (p.control.StartProcessing? ==> !p.delivery.refused);
    hide PS.Inv;
    hide PS.InvThreads;
    hide PS.InvDelivery;
    hide P.StartStep;
    hide P.PauseStep;
    hide P.StopStep;
    if P.StartStep(p, q) {
      StartEffects(p, q, call);
    } else if P.PauseStep(p, q) {
      PauseEffects(p, q, call);
    } else {
      StopEffects(p, q, call);
    }
  }

  lemma CallMoveKeepsInv(e: State, f: State)
    requires Inv(e) && CallMove(e, f) && PS.Inv(f.p) && WS.Inv(f.w)
    ensures Inv(f)
  {
    assert P.ControlStep(e.p, f.p) && f == e.(p := f.p);
    hide *;
    InvParts(e);
    CallBelongs(e, f);
    ControlEffects(e.p, f.p, e.handler.call);
    CallMovedKeeps(e, f);
    CallMovedKeepsLink(e, f);
    InvParts(f);
  }

  lemma CallBelongs(e: State, f: State)
    requires InvCalls(e) && P.ControlStep(e.p, f.p)
    ensures e.handler.AwaitPipeline? && Belongs(e.p.control, e.handler.call)
    ensures e.p.control.StartPrepare? || e.p.control.StartProcessing? ==> e.handler.call == StartPipeline
  {
    assert !e.p.control.ControlIdle?;
  }

  lemma CallMovedKeeps(e: State, f: State)
    requires e.handler.AwaitPipeline? && f == e.(p := f.p) && CallMoved(e.p, f.p, e.handler.call)
    requires InvCalls(e) && EdgeFits(e.handler, e.edge) && InvWriter(e) && InvConfig(e)
    ensures InvCalls(f) && EdgeFits(f.handler, f.edge) && InvWriter(f) && InvConfig(f)
  {
    hide Belongs;
    hide Whole;
  }

  lemma CallMovedKeepsLink(e: State, f: State)
    requires e.handler.AwaitPipeline? && f == e.(p := f.p) && CallMoved(e.p, f.p, e.handler.call) && InvLink(e)
    requires e.p.control.StartPrepare? || e.p.control.StartProcessing? ==> e.handler.call == StartPipeline
    ensures InvLink(f)
  {
    hide Belongs;
    if e.p.control.StartPrepare? {
      assert f.p.delivery.accepted == [] && !f.p.delivery.refused;
    }
  }

  lemma CallEndsKeepsInv(e: State, f: State)
    requires Inv(e) && CallEnds(e, f)
    ensures Inv(f)
  {
    CallEndsMoves(e, f);
    hide *;
    InvParts(e);
    CallEndsKeepsCalls(e, f);
    CallEndsKeepsRest(e, f);
    CallEndsKeepsConfig(e, f);
    CallEndsKeepsLink(e, f);
    InvParts(f);
  }

  lemma CallEndsMoves(e: State, f: State)
    requires CallEnds(e, f)
    ensures f.p == e.p && f.w == e.w
  {
  }

  lemma CallEndsKeepsCalls(e: State, f: State)
    requires InvCalls(e) && EdgeFits(e.handler, e.edge) && InvWriter(e) && CallEnds(e, f)
    ensures InvCalls(f) && EdgeFits(f.handler, f.edge)
  {
    hide Whole;
  }

  lemma CallEndsKeepsRest(e: State, f: State)
    requires InvCalls(e) && EdgeFits(e.handler, e.edge) && InvWriter(e) && CallEnds(e, f)
    ensures InvWriter(f)
  {
    hide Whole;
  }

  lemma CallEndsKeepsConfig(e: State, f: State)
    requires InvConfig(e) && CallEnds(e, f)
    ensures InvConfig(f)
  {
  }

  lemma CallEndsKeepsLink(e: State, f: State)
    requires EdgeFits(e.handler, e.edge) && InvLink(e) && CallEnds(e, f)
    ensures InvLink(f)
  {
  }

  // Closing.

  lemma BeginCloseKeepsInv(e: State, f: State)
    requires Inv(e) && BeginCloseMove(e, f) && PS.Inv(f.p) && WS.Inv(f.w)
    ensures Inv(f)
  {
    hide *;
    InvParts(e);
    WS.InvParts(e.w);
    BeginCloseKeeps(e, f);
    InvParts(f);
  }

  lemma BeginCloseEffects(w: W.State, v: W.State, status: W.Status)
    requires W.BeginClose(w, v, status) && w.shared.open
    ensures v.closing.pc.CloseJoin? && v.closing.foundOpen == w.disk.open
    ensures v.history == w.history && v.disk == w.disk
  {
  }

  lemma BeginCloseKeeps(e: State, f: State)
    requires WS.InvFlags(e.w) && BeginCloseMove(e, f)
    requires InvCalls(e) && EdgeFits(e.handler, e.edge) && InvWriter(e) && InvLink(e) && InvConfig(e)
    ensures InvCalls(f) && EdgeFits(f.handler, f.edge) && InvWriter(f) && InvLink(f) && InvConfig(f)
  {
    BeginCloseEffects(e.w, f.w, FinalStatus(e.handler.cause));
    assert e.w.shared.open && !e.w.shared.stopRequested ==> e.w.disk.open;
    hide WS.InvFlags;
    hide W.BeginClose;
    hide Whole;
  }

  lemma CloseEffects(w: W.State, v: W.State)
    requires WS.Inv(w) && W.CloseStep(w, v)
    ensures !w.closing.pc.NotClosing? && v.history.accepted == w.history.accepted && v.history.begun == w.history.begun
    ensures v.disk.info == w.disk.info
    ensures !v.closing.pc.NotClosing? ==> v.closing.foundOpen == w.closing.foundOpen
    ensures v.closing.pc.NotClosing? && v.outcome == Returned ==> !v.shared.open && (w.closing.foundOpen ==> Whole(v))
  {
    hide WS.Inv;
    hide Whole;
    if v.closing.pc.NotClosing? && v.outcome == Returned && w.closing.foundOpen {
      CloseMakesWhole(w, v);
    }
  }

  lemma CloseMakesWhole(w: W.State, v: W.State)
    requires WS.Inv(w) && W.CloseStep(w, v) && v.closing.pc.NotClosing? && v.outcome == Returned && w.closing.foundOpen
    ensures Whole(v)
  {
    hide W.CloseStep;
    hide WS.Inv;
    hide File;
    hide AllEncodable;
    FinishFacts(w, v);
    WS.FinishReturns(w, v);
    WS.WholeAtFinish(w);
  }

  lemma FinishFacts(w: W.State, v: W.State)
    requires W.CloseStep(w, v) && v.closing.pc.NotClosing? && v.outcome == Returned
    ensures w.closing.pc.CloseFinish? && !w.closing.error && v.disk == w.disk
  {
  }

  lemma CloseMoveKeepsInv(e: State, f: State)
    requires Inv(e) && CloseMove(e, f) && PS.Inv(f.p) && WS.Inv(f.w)
    ensures Inv(f)
  {
    InvParts(e);
    CloseEffects(e.w, f.w);
    hide Inv;
    hide PS.Inv;
    hide WS.Inv;
    hide Whole;
    hide W.CloseStep;
    InvParts(f);
  }

  lemma CloseEndsKeepsInv(e: State, f: State)
    requires Inv(e) && CloseEnds(e, f)
    ensures Inv(f)
  {
    InvParts(e);
    hide Inv;
    hide PS.Inv;
    hide WS.Inv;
    hide Whole;
    InvParts(f);
  }

  lemma MarkKeepsInv(e: State, f: State)
    requires Inv(e) && MarkMove(e, f)
    ensures Inv(f)
  {
    MarkMovesEdge(e, f);
    hide *;
    InvParts(e);
    MarkKeepsCalls(e, f);
    MarkKeepsRest(e, f);
    MarkKeepsConfig(e, f);
    MarkKeepsLink(e, f);
    InvParts(f);
  }

  lemma MarkMovesEdge(e: State, f: State)
    requires MarkMove(e, f)
    ensures f.p == e.p && f.w == e.w
  {
  }

  lemma MarkKeepsCalls(e: State, f: State)
    requires InvCalls(e) && EdgeFits(e.handler, e.edge) && MarkMove(e, f)
    ensures InvCalls(f) && EdgeFits(f.handler, f.edge)
  {
  }

  lemma MarkKeepsRest(e: State, f: State)
    requires EdgeFits(e.handler, e.edge) && MarkMove(e, f) && InvWriter(e)
    ensures InvWriter(f)
  {
    hide Whole;
  }

  lemma MarkKeepsConfig(e: State, f: State)
    requires MarkMove(e, f) && InvConfig(e)
    ensures InvConfig(f)
  {
  }

  lemma MarkKeepsLink(e: State, f: State)
    requires EdgeFits(e.handler, e.edge) && MarkMove(e, f) && InvWriter(e) && InvLink(e)
    ensures InvLink(f)
  {
    hide Whole;
  }

  // All of it, for every reachable state.

  lemma PartsKeepInv(e: State, f: State)
    requires PS.Inv(e.p) && WS.Inv(e.w) && InvConfig(e) && Next(e, f)
    ensures PS.Inv(f.p) && WS.Inv(f.w)
  {
    hide PS.Inv;
    hide WS.Inv;
    hide InvConfig;
    hide ThreadMove;
    hide HandlerMove;
    if ThreadMove(e, f) {
      ThreadMoveKeepsParts(e, f);
    } else {
      HandlerMoveKeepsParts(e, f);
    }
  }

  lemma PipelineParts(p: P.State, q: P.State)
    requires PS.Inv(p)
    requires q == p || P.Fresh(q) || (exists event :: P.CaptureStep(p, q, event))
             || (exists event :: P.ProcessingStep(p, q, event))
             || P.ControlStep(p, q) || P.BeginCall(p, q)
    ensures PS.Inv(q)
  {
    hide PS.Inv;
    hide P.Fresh;
    hide P.CaptureStep;
    hide P.ProcessingStep;
    hide P.ControlStep;
    hide P.BeginCall;
    if P.Fresh(q) {
      PS.FreshIsInv(q);
    } else if q != p {
      PS.NextKeepsInv(p, q);
    }
  }

  lemma WriterParts(w: W.State, v: W.State)
    requires WS.Inv(w) && (v == w || W.Next(w, v))
    ensures WS.Inv(v)
  {
    hide WS.Inv;
    hide W.Next;
    if v != w {
      WS.NextKeepsInv(w, v);
    }
  }

  lemma ThreadMoveKeepsParts(e: State, f: State)
    requires PS.Inv(e.p) && WS.Inv(e.w) && ThreadMove(e, f)
    ensures PS.Inv(f.p) && WS.Inv(f.w)
  {
    hide PS.Inv;
    hide WS.Inv;
    hide P.CaptureStep;
    hide P.ProcessingStep;
    hide W.EnqueueStep;
    hide W.WorkerStep;
    hide W.DiskStep;
    PipelineParts(e.p, f.p);
    WriterParts(e.w, f.w);
  }

  lemma HandlerMoveKeepsParts(e: State, f: State)
    requires PS.Inv(e.p) && WS.Inv(e.w) && InvConfig(e) && HandlerMove(e, f)
    ensures PS.Inv(f.p) && WS.Inv(f.w)
  {
    HandlerMovesParts(e, f);
    hide *;
    PipelineParts(e.p, f.p);
    WriterParts(e.w, f.w);
  }

  lemma HandlerMovesParts(e: State, f: State)
    requires InvConfig(e) && HandlerMove(e, f)
    ensures f.p == e.p || P.Fresh(f.p) || P.ControlStep(e.p, f.p) || P.BeginCall(e.p, f.p)
    ensures f.w == e.w || W.Next(e.w, f.w)
  {
    hide P.Fresh;
    hide P.BeginStart;
    hide P.BeginPause;
    hide P.BeginResume;
    hide P.BeginStop;
    hide P.ControlStep;
    hide W.OpenStep;
    hide W.BeginClose;
    hide W.CloseStep;
  }

  lemma NextKeepsInv(e: State, f: State)
    requires Inv(e) && Next(e, f)
    ensures Inv(f)
  {
    assert ThreadMove(e, f) || HandlerMove(e, f);
    hide *;
    InvParts(e);
    PartsKeepInv(e, f);
    if ThreadMove(e, f) {
      ThreadKeepsInv(e, f);
    } else {
      HandlerKeepsInv(e, f);
    }
  }

  lemma HandlerKeepsInv(e: State, f: State)
    requires Inv(e) && HandlerMove(e, f) && PS.Inv(f.p) && WS.Inv(f.w)
    ensures Inv(f)
  {
    assert || Command(e, f) || ConfigMove(e, f) || OpenMove(e, f) || BeginMove(e, f) || CallMove(e, f) || CallEnds(e, f)
           || BeginCloseMove(e, f) || CloseMove(e, f) || CloseEnds(e, f) || MarkMove(e, f);
    hide *;
    if Command(e, f) {
      CommandKeepsInv(e, f);
    } else if ConfigMove(e, f) {
      ConfigKeepsInv(e, f);
    } else if OpenMove(e, f) {
      OpenKeepsInv(e, f);
    } else if BeginMove(e, f) {
      BeginKeepsInv(e, f);
    } else if CallMove(e, f) {
      CallMoveKeepsInv(e, f);
    } else if CallEnds(e, f) {
      CallEndsKeepsInv(e, f);
    } else if BeginCloseMove(e, f) {
      BeginCloseKeepsInv(e, f);
    } else if CloseMove(e, f) {
      CloseMoveKeepsInv(e, f);
    } else if CloseEnds(e, f) {
      CloseEndsKeepsInv(e, f);
    } else {
      MarkKeepsInv(e, f);
    }
  }

  lemma BootedIsInv(e: State)
    requires Booted(e)
    ensures Inv(e)
  {
    BootedParts(e);
    hide *;
    PS.FreshIsInv(e.p);
    WS.FreshIsInv(e.w);
    BootedIsReady(e);
    InvParts(e);
  }

  lemma BootedParts(e: State)
    requires Booted(e)
    ensures P.Fresh(e.p) && W.Fresh(e.w)
    ensures PoolFits(e.config) && e.built == e.config && Valid(e.config) && e.edge == Idle && e.handler == Ready
    ensures e.callbacks == ATTACHED
    ensures e.p.capacity == e.config.captureQueueSize && e.p.poolSize == e.config.framePoolSize
  {
    hide P.Fresh;
    hide W.Fresh;
  }

  lemma BootedIsReady(e: State)
    requires P.Fresh(e.p) && W.Fresh(e.w)
    requires PoolFits(e.config) && e.built == e.config && Valid(e.config) && e.edge == Idle && e.handler == Ready
    requires e.callbacks == ATTACHED
    requires e.p.capacity == e.config.captureQueueSize && e.p.poolSize == e.config.framePoolSize
    ensures InvCalls(e) && EdgeFits(e.handler, e.edge) && InvWriter(e) && InvLink(e) && InvConfig(e)
  {
    FreshPipeline(e.p);
    assert !e.w.history.begun && !e.w.shared.open && e.w.closing.pc.NotClosing?;
    hide P.Fresh;
    hide W.Fresh;
    hide Whole;
  }

  lemma {:induction false} RunKeepsInv(run: seq<State>, i: nat)
    requires Run(run) && i < |run|
    ensures Inv(run[i])
    decreases i
  {
    hide Inv;
    hide Next;
    hide Booted;
    if i == 0 {
      BootedIsInv(run[0]);
    } else {
      RunKeepsInv(run, i - 1);
      NextKeepsInv(run[i - 1], run[i]);
    }
  }

  // What the replies mean.

  /** A command ends here, with this reply. */
  predicate Answers(e: State, f: State, reply: Reply) { e.handler != Ready && f.handler == Ready && f.reply == reply }

  lemma {:induction false} OnlyMarkStoppedAnswers(e: State, f: State)
    requires Next(e, f) && Answers(e, f, Stopped)
    ensures e.handler == MarkStopped && InSession(e.edge) && f == e.(edge := Idle, handler := Ready, reply := Stopped)
  {
    hide P.CaptureStep;
    hide P.ProcessingStep;
    hide W.EnqueueStep;
    hide W.WorkerStep;
    hide W.DiskStep;
    hide P.Fresh;
    hide P.BeginStart;
    hide P.BeginPause;
    hide P.BeginResume;
    hide P.BeginStop;
    hide P.ControlStep;
    hide W.OpenStep;
    hide W.BeginClose;
    hide W.CloseStep;
  }

  /** The session file on disk scans clean to what the writer accepted, all of it enqueued and written. */
  ghost predicate Stored(w: W.State) {
    && w.counters.enqueued == w.counters.written == |w.history.accepted|
    && w.history.recorded == w.history.accepted
    && w.disk.durable == |w.disk.stream.bytes|
    && ScanFile(w.disk.stream.bytes) == Done(Scan(w.disk.info, w.history.accepted, w.disk.durable, false))
  }

  /** The results that the pipeline delivered: all of them, but the last if it was refused. */
  function Delivery(d: P.Delivery): seq<DicResult> {
    if d.refused && d.results != [] then d.results[..|d.results| - 1] else d.results
  }

  /** The writer got what the pipeline delivered, if the pipeline has a callback to deliver to. */
  predicate DeliveredTo(p: P.State, w: W.State, callbacks: Callbacks) {
    && p.counts.processed == |p.delivery.results|
    && w.history.accepted == (if callbacks.result then Delivery(p.delivery) else [])
    && (p.delivery.refused ==> p.counts.processed > 0)
    && (callbacks.fault ==> !p.delivery.refused)
  }

  /**
   * OK STOPPED, whichever callbacks are attached: what the writer accepted is stored. It is all that was processed
   * exactly if the live pipeline has its result callback and no result was refused, or if nothing was processed;
   * with a fault callback no result was refused.
   */
  lemma {:induction false} StoppedStoresExactly(run: seq<State>, i: nat)
    requires Run(run) && i + 1 < |run| && Answers(run[i], run[i + 1], Stopped)
    ensures var f := run[i + 1]; Stored(f.w) && DeliveredTo(f.p, f.w, f.callbacks)
    ensures var f := run[i + 1];
            f.w.history.accepted == f.p.delivery.results
            <==> (f.callbacks.result && !f.p.delivery.refused) || f.p.counts.processed == 0
    ensures var f := run[i + 1];
            f.edge == Idle && f.p.gate.state == P.Stopped && PS.NoThreads(f.p) && !f.w.shared.open
  {
    RunKeepsInv(run, i);
    assert Next(run[i], run[i + 1]);
    hide *;
    OnlyMarkStoppedAnswers(run[i], run[i + 1]);
    StoredWhenMarked(run[i]);
    DeliveredWhenStopped(run[i]);
    AllDelivered(run[i]);
  }

  lemma AllDelivered(e: State)
    requires DeliveredTo(e.p, e.w, e.callbacks)
    ensures e.w.history.accepted == e.p.delivery.results
            <==> (e.callbacks.result && !e.p.delivery.refused) || e.p.counts.processed == 0
  {
  }

  /**
   * OK STOPPED with both callbacks attached: the results processed, enqueued and written are the same, and the
   * session file on disk scans clean to exactly those results, in order, however the threads interleave.
   */
  lemma {:induction false} StoppedMeansStored(run: seq<State>, i: nat)
    requires Run(run) && i + 1 < |run| && Answers(run[i], run[i + 1], Stopped) && run[i + 1].callbacks == ATTACHED
    ensures var f := run[i + 1]; var results := f.p.delivery.results;
            && f.p.counts.processed == f.w.counters.enqueued == f.w.counters.written == |results|
            && f.w.history.accepted == f.w.history.recorded == results
            && f.w.disk.durable == |f.w.disk.stream.bytes|
            && ScanFile(f.w.disk.stream.bytes) == Done(Scan(f.w.disk.info, results, f.w.disk.durable, false))
  {
    StoppedStoresExactly(run, i);
    hide Run;
    hide Answers;
    hide ScanFile;
  }

  lemma StoredWhenMarked(e: State)
    requires Inv(e) && e.handler == MarkStopped && InSession(e.edge)
    ensures Stored(e.w) && e.p.gate.state == P.Stopped && !e.w.shared.open
  {
    InvParts(e);
    assert Whole(e.w) && !e.w.shared.open && e.w.history.begun && e.p.gate.state == P.Stopped;
    assert e.w.disk.info.width > 0 && e.w.disk.info.height > 0;
    hide *;
    WholeScansClean(e.w);
  }

  lemma WholeScansClean(w: W.State)
    requires Whole(w) && w.disk.info.width > 0 && w.disk.info.height > 0
    ensures Stored(w)
  {
    ScanOfWritten(w.disk.info, w.history.accepted);
    hide File;
    hide ScanFile;
  }

  /** What was delivered when STOP is about to be acknowledged, and to whom. */
  lemma {:induction false} DeliveredWhenStopped(e: State)
    requires Inv(e) && e.handler == MarkStopped && InSession(e.edge)
    ensures PS.NoThreads(e.p) && DeliveredTo(e.p, e.w, e.callbacks)
  {
    MarkStoppedLink(e);
    InvParts(e);
    NothingInDelivery(e.p);
    hide PS.Inv;
    hide WS.Inv;
    hide Inv;
  }

  lemma MarkStoppedLink(e: State)
    requires Inv(e) && e.handler == MarkStopped && InSession(e.edge)
    ensures e.p.gate.state == P.Stopped
    ensures e.w.history.accepted == (if e.callbacks.result then e.p.delivery.accepted else [])
    ensures e.callbacks.fault && e.p.delivery.refused ==>
              !e.p.processing.ProcessingEnded? && !e.p.processing.ProcessingAbsent?
  {
    hide PS.Inv;
    hide WS.Inv;
    hide InvWriter;
    hide InvConfig;
  }

  lemma NothingInDelivery(p: P.State)
    requires PS.Inv(p) && p.gate.state == P.Stopped
    ensures PS.NoThreads(p) && p.processing.ProcessingAbsent? && p.counts.processed == |p.delivery.results|
    ensures p.delivery.accepted == Delivery(p.delivery) && (p.delivery.refused ==> p.delivery.results != [])
  {
    PS.InvParts(p);
    hide PS.Inv;
    hide PS.InvGate;
    hide PS.InvQueue;
    hide PS.InvQueueOrder;
    hide PS.InvAccount;
    hide PS.Placed;
  }

  /**
   * Between commands: idle means a stopped pipeline with every buffer back, no thread and no open session; a
   * measurement, running or paused, has its session open; the pipeline is the one of the current configuration.
   */
  lemma {:induction false} BetweenCommands(run: seq<State>, i: nat)
    requires Run(run) && i < |run| && run[i].handler == Ready
    ensures var e := run[i]; e.edge == Idle || e.edge == Faulted || InSession(e.edge)
    ensures var e := run[i];
            e.edge == Idle ==>
              && e.p.gate.state == P.Stopped && PS.NoThreads(e.p) && |e.p.pool.available| == e.p.poolSize
              && !e.w.shared.open && e.w.worker.WorkerAbsent?
    ensures var e := run[i]; InSession(e.edge) ==> e.w.shared.open && !e.w.shared.stopRequested && e.w.disk.open
    ensures var e := run[i];
            InSession(e.edge) ==> e.w.history.accepted == if e.callbacks.result then e.p.delivery.accepted else []
    ensures var e := run[i];
            && e.built == e.config && Valid(e.config)
            && e.p.capacity == e.config.captureQueueSize && e.p.poolSize == e.config.framePoolSize
  {
    RunKeepsInv(run, i);
    hide *;
    ReadyFacts(run[i]);
  }

  lemma ReadyFacts(e: State)
    requires Inv(e) && e.handler == Ready
    ensures e.edge == Idle || e.edge == Faulted || InSession(e.edge)
    ensures e.edge == Idle ==>
              && e.p.gate.state == P.Stopped && PS.NoThreads(e.p) && |e.p.pool.available| == e.p.poolSize
              && !e.w.shared.open && e.w.worker.WorkerAbsent?
    ensures InSession(e.edge) ==> e.w.shared.open && !e.w.shared.stopRequested && e.w.disk.open
    ensures InSession(e.edge) ==> e.w.history.accepted == if e.callbacks.result then e.p.delivery.accepted else []
    ensures e.built == e.config && Valid(e.config)
    ensures e.p.capacity == e.config.captureQueueSize && e.p.poolSize == e.config.framePoolSize
  {
    InvParts(e);
    PS.InvParts(e.p);
    WS.InvParts(e.w);
    if e.edge == Idle {
      PS.AllBackWhenStopped(e.p);
      assert PS.InvThreads(e.p);
    }
    assert WS.InvFlags(e.w);
    hide Inv;
    hide PS.Inv;
    hide WS.Inv;
    hide Whole;
  }

  // Replies and states over whole runs.

  /** Shutting down is for good; a fault stays until a reset finishes or a shutdown begins. */
  lemma {:induction false} EdgeMoves(e: State, f: State)
    requires Next(e, f)
    ensures e.edge == ShuttingDown ==> f.edge == ShuttingDown
    ensures e.edge == Faulted && f.edge != Faulted ==> Answers(e, f, Reset) || f.edge == ShuttingDown
  {
    hide P.CaptureStep;
    hide P.ProcessingStep;
    hide P.Fresh;
    hide P.BeginStart;
    hide P.BeginPause;
    hide P.BeginResume;
    hide P.BeginStop;
    hide P.ControlStep;
    hide W.EnqueueStep;
    hide W.WorkerStep;
    hide W.DiskStep;
    hide W.OpenStep;
    hide W.BeginClose;
    hide W.CloseStep;
  }

  lemma {:induction false} ShuttingDownIsFinal(run: seq<State>, i: nat, j: nat)
    requires Run(run) && i <= j < |run| && run[i].edge == ShuttingDown
    ensures run[j].edge == ShuttingDown
    decreases j
  {
    hide Next;
    hide Booted;
    if i < j {
      ShuttingDownIsFinal(run, i, j - 1);
      assert Next(run[j - 1], run[j - 1 + 1]);
      EdgeMoves(run[j - 1], run[j]);
    }
  }

  /** From a fault on, no command is answered with OK STOPPED before a reset has been answered. */
  lemma {:induction false} FaultIsNotAcknowledged(run: seq<State>, i: nat, j: nat)
    requires Run(run) && i <= j && j + 1 < |run| && run[i].edge == Faulted
    requires forall k :: i <= k < j ==> !Answers(run[k], run[k + 1], Reset)
    ensures !Answers(run[j], run[j + 1], Stopped)
  {
    hide Next;
    hide Booted;
    FaultStays(run, i, j);
    assert Next(run[j], run[j + 1]);
    if Answers(run[j], run[j + 1], Stopped) {
      OnlyMarkStoppedAnswers(run[j], run[j + 1]);
    }
  }

  lemma {:induction false} FaultStays(run: seq<State>, i: nat, j: nat)
    requires Run(run) && i <= j < |run| && run[i].edge == Faulted
    requires forall k :: i <= k < j ==> !Answers(run[k], run[k + 1], Reset)
    ensures run[j].edge == Faulted || run[j].edge == ShuttingDown
    decreases j
  {
    hide Next;
    hide Booted;
    if i < j {
      FaultStays(run, i, j - 1);
      var e, f := run[j - 1], run[j - 1 + 1];
      assert Next(e, f);
      EdgeMoves(e, f);
    }
  }
}
