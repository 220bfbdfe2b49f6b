/** A fault of a thread reaches the Edge state, and nothing else looks like one. */
module EdgeFaults {
  import opened Outcomes
  import opened ResultPacket
  import opened EdgeStates
  import opened Edge
  import opened EdgeSafety
  import opened EdgeReplies
  import EdgeSessions
  import P = Pipeline
  import W = AsyncWriter
  import PS = PipelineSafety
  import PC = PipelineCalls
  import WS = AsyncWriterSafety

  /** A thread of the pipeline has failed and is about to report it. */
  predicate Reporting(p: P.State) { p.capture.CaptureFaultReport? || p.processing.ProcessingFaultReport? }

  /** In a measurement the threads are asked to stop only by a failure that is not reported yet. */
  predicate Healthy(p: P.State) { p.gate.stopRequested ==> Reporting(p) }

  predicate WriterHealthy(w: W.State) { w.shared.faulted ==> w.worker.WorkerReport? }

  /** The handler steps in which the pipeline of a measurement runs. */
  predicate Watching(h: Handler, p: P.State) {
    match h
    case Ready => true
    case MarkPaused => true
    case MarkResumed => true
    case BeginPipeline(call) => call != StartPipeline && call != StopFailed
    case AwaitPipeline(call) =>
      if call == StartPipeline then PC.Starting(p.control) || (p.control == P.ControlIdle && p.outcome == Returned)
      else call == PausePipeline || call == ResumePipeline
    case _ => false
  }

  ghost predicate InvHealth(e: State) {
    InSession(e.edge) ==>
      && WriterHealthy(e.w)
      && (e.callbacks.fault && Watching(e.handler, e.p) ==> Healthy(e.p))
  }

  // The threads.

  lemma CaptureReports(p: P.State, q: P.State, event: P.Event)
    requires P.CaptureStep(p, q, event) && Healthy(p)
    ensures q.control == p.control && q.outcome == p.outcome && (Healthy(q) || event.FaultReported?)
    ensures event.FaultReported? ==> Reporting(p)
  {
    hide P.Buffers;
  }

  lemma GateIsSilent(p: P.State, q: P.State)
    requires P.GateStep(p, q) && Healthy(p)
    ensures q.control == p.control && q.outcome == p.outcome && Healthy(q)
  {
    hide P.Buffers;
  }

  lemma WorkReports(p: P.State, q: P.State, event: P.Event)
    requires P.WorkStep(p, q, event) && Healthy(p)
    ensures q.control == p.control && q.outcome == p.outcome && (Healthy(q) || event.FaultReported?)
    ensures event.FaultReported? ==> Reporting(p)
  {
    hide P.Buffers;
  }

  lemma ProcessingReports(p: P.State, q: P.State, event: P.Event)
    requires P.ProcessingStep(p, q, event) && Healthy(p)
    ensures q.control == p.control && q.outcome == p.outcome && (Healthy(q) || event.FaultReported?)
    ensures event.FaultReported? ==> Reporting(p)
  {
    hide P.GateStep;
    hide P.WorkStep;
    hide Healthy;
    hide Reporting;
    if P.WorkStep(p, q, event) {
      WorkReports(p, q, event);
    } else {
      GateIsSilent(p, q);
    }
  }

  lemma WorkerReports(w: W.State, v: W.State, reported: bool)
    requires W.WorkerStep(w, v, reported) && WriterHealthy(w)
    ensures WriterHealthy(v) || reported
    ensures reported ==> w.worker.WorkerReport?
  {
  }

  lemma EnqueueIsHealthy(w: W.State, v: W.State, result: DicResult, answer: W.Enqueued)
    requires W.EnqueueStep(w, v, result, answer) && WriterHealthy(w)
    ensures WriterHealthy(v)
  {
  }

  lemma CaptureKeepsHealth(e: State, f: State)
    requires CaptureMove(e, f) && InvHealth(e)
    ensures InvHealth(f)
  {
    hide P.CaptureStep;
    hide Healthy;
    hide WriterHealthy;
    var event :|
      && P.CaptureStep(e.p, f.p, event)
      && f == e.(p := f.p, edge := Faulty(e.edge, event.FaultReported? && e.callbacks.fault));
    if Healthy(e.p) {
      CaptureReports(e.p, f.p, event);
    }
    if InSession(f.edge) && f.callbacks.fault && Watching(f.handler, f.p) {
      CaptureKeepsControl(e.p, f.p, event);
    }
  }

  lemma CaptureKeepsControl(p: P.State, q: P.State, event: P.Event)
    requires P.CaptureStep(p, q, event)
    ensures q.control == p.control && q.outcome == p.outcome
  {
    hide P.Buffers;
  }

  lemma ProcessingKeepsControl(p: P.State, q: P.State, event: P.Event)
    requires P.ProcessingStep(p, q, event)
    ensures q.control == p.control && q.outcome == p.outcome
  {
    hide P.Buffers;
  }

  lemma ProcessingKeepsHealth(e: State, f: State)
    requires ProcessingMove(e, f) && InvHealth(e)
    ensures InvHealth(f)
  {
    hide P.ProcessingStep;
    hide W.EnqueueStep;
    hide Healthy;
    hide WriterHealthy;
    var event :|
      && P.ProcessingStep(e.p, f.p, event) && Delivered(e, f, event)
      && f == e.(p := f.p, w := f.w, edge := Faulty(e.edge, event.FaultReported? && e.callbacks.fault));
    if Healthy(e.p) {
      ProcessingReports(e.p, f.p, event);
    }
    if InSession(f.edge) {
      ProcessingKeepsControl(e.p, f.p, event);
      if result, answer :| W.EnqueueStep(e.w, f.w, result, answer) {
        EnqueueIsHealthy(e.w, f.w, result, answer);
      }
    }
  }

  lemma StorageKeepsHealth(e: State, f: State)
    requires (WorkerMove(e, f) || DiskMove(e, f)) && InvHealth(e)
    ensures InvHealth(f)
  {
    hide W.WorkerStep;
    hide Healthy;
    if reported :| W.WorkerStep(e.w, f.w, reported) && f == e.(w := f.w, edge := Faulty(e.edge, reported)) {
      if WriterHealthy(e.w) {
        WorkerReports(e.w, f.w, reported);
      }
    }
  }

  lemma ThreadsKeepHealth(e: State, f: State)
    requires ThreadMove(e, f) && InvHealth(e)
    ensures InvHealth(f)
  {
    hide InvHealth;
    hide CaptureMove;
    hide ProcessingMove;
    hide WorkerMove;
    hide DiskMove;
    if CaptureMove(e, f) {
      CaptureKeepsHealth(e, f);
    } else if ProcessingMove(e, f) {
      ProcessingKeepsHealth(e, f);
    } else {
      StorageKeepsHealth(e, f);
    }
  }

  // The handler.

  lemma CallsKeepHealth(e: State, f: State)
    requires (BeginMove(e, f) || CallEnds(e, f)) && InvHealth(e)
    ensures InvHealth(f)
  {
  }

  lemma CallMoveKeepsHealth(e: State, f: State)
    requires CallMove(e, f) && InvHealth(e) && e.handler.AwaitPipeline? && Belongs(e.p.control, e.handler.call)
    requires PS.InvThreads(e.p)
    ensures InvHealth(f)
  {
    hide P.Buffers;
  }

  lemma OthersKeepHealth(e: State, f: State)
    requires Command(e, f) || ConfigMove(e, f) || OpenMove(e, f) || BeginCloseMove(e, f) || CloseEnds(e, f)
    requires InvHealth(e) && EdgeFits(e.handler, e.edge)
    ensures InvHealth(f)
  {
    hide Makes;
    hide W.OpenStep;
    hide Healthy;
  }

  lemma CloseKeepsHealth(e: State, f: State)
    requires CloseMove(e, f) && InvHealth(e) && e.handler.AwaitClose?
    ensures InvHealth(f)
  {
    hide W.Finalised;
    hide W.Flushed;
    hide Healthy;
  }

  lemma MarkKeepsHealth(e: State, f: State)
    requires MarkMove(e, f) && InvHealth(e) && InvWriter(e) && WS.InvFlags(e.w) && EdgeFits(e.handler, e.edge)
    ensures InvHealth(f)
  {
    hide Whole;
    hide Healthy;
  }

  lemma HandlerKeepsHealth(e: State, f: State)
    requires Inv(e) && HandlerMove(e, f) && InvHealth(e)
    ensures InvHealth(f)
  {
    assert || Command(e, f) || ConfigMove(e, f) || OpenMove(e, f) || BeginMove(e, f) || CallMove(e, f) || CallEnds(e, f)
           || BeginCloseMove(e, f) || CloseMove(e, f) || CloseEnds(e, f) || MarkMove(e, f);
    InvParts(e);
    hide *;
    if BeginMove(e, f) || CallEnds(e, f) {
      CallsKeepHealth(e, f);
    } else if CallMove(e, f) {
      CallInProgress(e, f);
      PS.InvParts(e.p);
      CallMoveKeepsHealth(e, f);
    } else if CloseMove(e, f) {
      CloseInProgress(e, f);
      CloseKeepsHealth(e, f);
    } else if MarkMove(e, f) {
      WS.InvParts(e.w);
      MarkKeepsHealth(e, f);
    } else {
      OthersKeepHealth(e, f);
    }
  }

  lemma CallInProgress(e: State, f: State)
    requires InvCalls(e) && CallMove(e, f)
    ensures e.handler.AwaitPipeline? && Belongs(e.p.control, e.handler.call)
  {
    CallBelongs(e, f);
  }

  lemma CloseInProgress(e: State, f: State)
    requires InvCalls(e) && CloseMove(e, f)
    ensures e.handler.AwaitClose?
  {
    hide Belongs;
  }

  lemma NextKeepsHealth(e: State, f: State)
    requires Inv(e) && Next(e, f) && InvHealth(e)
    ensures InvHealth(f)
  {
    assert ThreadMove(e, f) || HandlerMove(e, f);
    hide *;
    if HandlerMove(e, f) {
      HandlerKeepsHealth(e, f);
    } else {
      ThreadsKeepHealth(e, f);
    }
  }

  lemma BootedIsHealthy(e: State)
    requires Booted(e)
    ensures InvHealth(e)
  {
    BootedParts(e);
    hide Booted;
  }

  lemma {:induction false} RunKeepsHealth(run: seq<State>, i: nat)
    requires Run(run) && i < |run|
    ensures InvHealth(run[i])
    decreases i
  {
    hide *;
    if i == 0 {
      EdgeSessions.FirstIsBooted(run);
      BootedIsHealthy(run[0]);
    } else {
      RunKeepsHealth(run, i - 1);
      RunKeepsInv(run, i - 1);
      StepOfRun(run, i - 1);
      NextKeepsHealth(run[i - 1], run[i]);
    }
  }

  // What follows.

  /**
   * While the Edge says that it measures or pauses, no fault has gone by: a failed storage worker is about to report
   * it, and between commands, with a fault callback, so is a failed thread of the pipeline.
   */
  lemma {:induction false} FaultsAreReported(run: seq<State>, i: nat)
    requires Run(run) && i < |run| && InSession(run[i].edge)
    ensures run[i].w.shared.faulted ==> run[i].w.worker.WorkerReport?
    ensures run[i].handler == Ready && run[i].callbacks.fault && run[i].p.gate.stopRequested ==> Reporting(run[i].p)
  {
    RunKeepsHealth(run, i);
    hide Run;
  }

  /** The Edge becomes faulted only by such a report, or by a START or STOP that fails. */
  lemma {:induction false} FaultHasCause(e: State, f: State)
    requires Next(e, f) && e.edge != Faulted && f.edge == Faulted
    ensures || (e.handler.MarkFailed? && f.reply == ErrorReply)
            || (e.callbacks.fault && Reporting(e.p) && f.w == e.w)
            || (e.w.worker.WorkerReport? && f.p == e.p)
  {
    assert ThreadMove(e, f) || HandlerMove(e, f);
    if CaptureMove(e, f) {
      CaptureCause(e, f);
    } else if ProcessingMove(e, f) {
      ProcessingCause(e, f);
    } else if WorkerMove(e, f) {
      WorkerCause(e, f);
    } else {
      HandlerCause(e, f);
    }
    hide *;
  }

  lemma CaptureCause(e: State, f: State)
    requires CaptureMove(e, f) && e.edge != Faulted && f.edge == Faulted
    ensures e.callbacks.fault && Reporting(e.p) && f.w == e.w
  {
    hide P.Buffers;
  }

  lemma ProcessingCause(e: State, f: State)
    requires ProcessingMove(e, f) && e.edge != Faulted && f.edge == Faulted
    ensures e.callbacks.fault && Reporting(e.p) && f.w == e.w
  {
    hide P.GateStep;
    hide W.EnqueueStep;
    hide P.Buffers;
  }

  lemma WorkerCause(e: State, f: State)
    requires WorkerMove(e, f) && e.edge != Faulted && f.edge == Faulted
    ensures e.w.worker.WorkerReport? && f.p == e.p
  {
  }

  lemma HandlerCause(e: State, f: State)
    requires (DiskMove(e, f) || HandlerMove(e, f)) && e.edge != Faulted && f.edge == Faulted
    ensures e.handler.MarkFailed? && f.reply == ErrorReply
  {
    hide P.ControlStep;
    hide P.BeginStart;
    hide P.BeginPause;
    hide P.BeginResume;
    hide P.BeginStop;
    hide W.OpenStep;
    hide W.BeginClose;
    hide W.CloseStep;
    hide W.DiskStep;
    hide Makes;
  }
}
