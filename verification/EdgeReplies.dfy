/** What decides the answers of CONFIG, START and RESET, over whole runs. */
module EdgeReplies {
  import opened Outcomes
  import opened RuntimeConfigs
  import opened EdgeStates
  import opened Edge
  import opened EdgeSafety
  import P = Pipeline
  import W = AsyncWriter
  import PS = PipelineSafety
  import WS = AsyncWriterSafety
  import WC = AsyncWriterCalls

  // Which move the handler can make.

  predicate Configuring(h: Handler) {
    || h.ApplySettings? || h.ValidateCandidate? || h.MakePipeline? || h.MovePipeline? || h.MoveConfig?
    || h.AttachResult? || h.AttachFault?
  }

  predicate Marking(h: Handler) {
    || h.MarkMeasuring? || h.MarkStopped? || h.MarkFailed? || h.MarkPaused? || h.MarkResumed? || h.MarkReset?
  }

  lemma Dispatch(e: State, f: State)
    requires InvCalls(e) && HandlerMove(e, f)
    ensures e.handler == Ready ==> Command(e, f)
    ensures Configuring(e.handler) ==> ConfigMove(e, f)
    ensures e.handler.OpenWriter? ==> OpenMove(e, f)
    ensures e.handler.BeginPipeline? ==> BeginMove(e, f)
    ensures e.handler.AwaitPipeline? ==> if e.p.control.ControlIdle? then CallEnds(e, f) else CallMove(e, f)
    ensures e.handler.BeginClose? ==> BeginCloseMove(e, f)
    ensures e.handler.AwaitClose? ==> if e.w.closing.pc.NotClosing? then CloseEnds(e, f) else CloseMove(e, f)
    ensures Marking(e.handler) ==> MarkMove(e, f)
  {
    assert P.ControlStep(e.p, f.p) ==> !e.p.control.ControlIdle?;
    assert W.CloseStep(e.w, f.w) ==> !e.w.closing.pc.NotClosing?;
    hide P.BeginStart;
    hide P.BeginPause;
    hide P.BeginResume;
    hide P.BeginStop;
    hide P.ControlStep;
    hide W.OpenStep;
    hide W.BeginClose;
    hide W.CloseStep;
    hide Makes;
    hide Belongs;
  }

  /** A stopped pipeline is left alone by the threads, and without a worker so is all of the writer but its disk. */
  lemma QuietThreads(e: State, f: State)
    requires Inv(e) && ThreadMove(e, f) && e.p.gate.state == P.Stopped
    ensures StorageMoved(e, f)
  {
    ThreadMoves(e, f);
    hide *;
    if PipelineMoved(e, f) {
      MovedIsRunning(e, f);
    }
  }

  lemma MovedIsRunning(e: State, f: State)
    requires PipelineMoved(e, f)
    ensures e.p.gate.state != P.Stopped
  {
  }

  lemma WriterMoves(e: State, f: State)
    requires Inv(e) && Next(e, f)
    ensures f.w == e.w || W.Next(e.w, f.w)
  {
    assert ThreadMove(e, f) || HandlerMove(e, f);
    InvParts(e);
    hide *;
    if HandlerMove(e, f) {
      HandlerMovesParts(e, f);
    } else {
      ThreadsMoveWriter(e, f);
    }
  }

  lemma ThreadsMoveWriter(e: State, f: State)
    requires ThreadMove(e, f)
    ensures f.w == e.w || W.Next(e.w, f.w)
  {
    hide P.CaptureStep;
    hide P.ProcessingStep;
    hide W.EnqueueStep;
    hide W.WorkerStep;
    hide W.DiskStep;
  }

  lemma StepOfRun(run: seq<State>, k: nat)
    requires Run(run) && k + 1 < |run|
    ensures Next(run[k], run[k + 1])
  {
    hide Next;
    hide Booted;
  }

  // START: a session file that can never be closed.

  lemma WedgedStep(e: State, f: State)
    requires Inv(e) && Next(e, f) && WS.Wedged(e.w)
    ensures WS.Wedged(f.w)
  {
    hide *;
    InvParts(e);
    WriterMoves(e, f);
    if f.w != e.w {
      WC.WedgedStays(e.w, f.w);
    }
  }

  lemma {:induction false} WedgedEdge(run: seq<State>, i: nat, j: nat)
    requires Run(run) && i <= j < |run| && WS.Wedged(run[i].w)
    ensures WS.Wedged(run[j].w)
    decreases j
  {
    hide *;
    if i < j {
      WedgedEdge(run, i, j - 1);
      RunKeepsInv(run, j - 1);
      StepOfRun(run, j - 1);
      WedgedStep(run[j - 1], run[j]);
    }
  }

  lemma StartedNeedsOpen(e: State, f: State)
    requires Inv(e) && Next(e, f) && Answers(e, f, Started)
    ensures e.w.shared.open
  {
    InvParts(e);
    assert ThreadMove(e, f) || HandlerMove(e, f);
    hide *;
    if HandlerMove(e, f) {
      Dispatch(e, f);
      OnlyCallEndsStarts(e, f);
    } else {
      ThreadMoves(e, f);
      ThreadsDoNotAnswer(e, f);
    }
  }

  lemma ThreadsDoNotAnswer(e: State, f: State)
    requires PipelineMoved(e, f) || StorageMoved(e, f)
    ensures f.handler == e.handler && f.reply == e.reply
  {
  }

  lemma OnlyCallEndsStarts(e: State, f: State)
    requires InvWriter(e) && HandlerMove(e, f) && f.handler == Ready && f.reply == Started && e.handler != Ready
    ensures e.w.shared.open
  {
    hide P.BeginStart;
    hide P.BeginPause;
    hide P.BeginResume;
    hide P.BeginStop;
    hide P.ControlStep;
    hide W.OpenStep;
    hide W.BeginClose;
    hide W.CloseStep;
    hide Makes;
    hide Whole;
  }

  lemma WedgedIsClosed(w: W.State)
    ensures WS.Wedged(w) ==> !w.shared.open
  {
  }

  /** Once a session header could not be written, no START is answered with OK STARTED any more. */
  lemma {:induction false} WedgedNeverStarts(run: seq<State>, i: nat, j: nat)
    requires Run(run) && i <= j && j + 1 < |run| && WS.Wedged(run[i].w)
    ensures !Answers(run[j], run[j + 1], Started)
  {
    hide *;
    WedgedEdge(run, i, j);
    RunKeepsInv(run, j);
    StepOfRun(run, j);
    if Answers(run[j], run[j + 1], Started) {
      StartedNeedsOpen(run[j], run[j + 1]);
      WedgedIsClosed(run[j].w);
    }
  }

  // RESET: whether the session could be closed.

  /**
   * RESET, from the end of its stop in state s until its answer: it marks the reset at once if there is no session
   * to close, and otherwise only after a close in which nothing failed.
   */
  ghost predicate ResetStage(s: State, e: State) {
    && e.edge == Faulted
    && if !s.w.shared.open then e.handler.MarkReset?
       else
         && (s.w.shared.faulted ==> e.w.shared.faulted)
         && match e.handler {
              case BeginClose(cause) => cause == AfterReset
              case AwaitClose(cause) => cause == AfterReset && (e.w.closing.pc.NotClosing? ==> CloseOver(e.w))
              case MarkReset => WC.CloseSucceeded(e.w)
              case _ => false
            }
  }

  ghost predicate CloseOver(w: W.State) {
    && w.worker.WorkerAbsent?
    && (w.outcome == Returned <==> WC.CloseSucceeded(w))
    && (w.shared.open <==> w.closing.manifestFailed)
  }

  /** The answer that RESET gives with the step from e to f. */
  predicate ResetAnswer(s: State, e: State, f: State) {
    if !s.w.shared.open || WC.CloseSucceeded(e.w) then f.reply == Reset && f.edge == Idle && !f.w.shared.open
    else f.reply == ErrorReply && f.edge == Faulted && (f.w.shared.open <==> f.w.closing.manifestFailed)
  }

  lemma ResetBegins(s: State, e: State)
    requires s.handler == AwaitPipeline(StopReset) && s.edge == Faulted && CallEnds(s, e)
    ensures ResetStage(s, e)
  {
  }

  lemma ResetThreads(s: State, e: State, f: State)
    requires Inv(e) && ResetStage(s, e) && ThreadMove(e, f)
    ensures ResetStage(s, f)
  {
    InvParts(e);
    assert InvCalls(e) && InvWriter(e) && WS.Inv(e.w);
    WorkerAbsentWhenClosed(e.w);
    assert e.p.gate.state == P.Stopped;
    assert e.handler.MarkReset? ==> !e.w.shared.open;
    QuietThreads(e, f);
    FaultedStays(e, f);
    hide *;
    ResetStorage(s, e, f);
  }

  lemma WorkerAbsentWhenClosed(w: W.State)
    requires WS.Inv(w)
    ensures !w.shared.open ==> w.worker.WorkerAbsent?
  {
    WS.InvParts(w);
  }

  lemma FaultedStays(e: State, f: State)
    requires ThreadMove(e, f)
    ensures e.w.shared.faulted ==> f.w.shared.faulted
  {
    hide P.CaptureStep;
    hide P.ProcessingStep;
  }

  lemma ResetStorage(s: State, e: State, f: State)
    requires ResetStage(s, e) && StorageMoved(e, f) && (e.w.shared.faulted ==> f.w.shared.faulted)
    requires e.handler.MarkReset? ==> e.w.worker.WorkerAbsent?
    ensures ResetStage(s, f)
  {
  }

  lemma ResetHandler(s: State, e: State, f: State)
    requires Inv(e) && ResetStage(s, e) && HandlerMove(e, f)
    ensures if f.handler == Ready then ResetAnswer(s, e, f) else ResetStage(s, f)
  {
    InvParts(e);
    Dispatch(e, f);
    assert e.handler.BeginClose? || e.handler.AwaitClose? || e.handler.MarkReset?;
    hide *;
    match e.handler {
      case BeginClose(_) =>
        ResetCloseBegins(s, e, f);
      case AwaitClose(_) =>
        if e.w.closing.pc.NotClosing? {
          ResetCloseEnds(s, e, f);
        } else {
          ResetCloses(s, e, f);
        }
      case MarkReset =>
        ResetMarks(s, e, f);
    }
  }

  lemma ResetCloseBegins(s: State, e: State, f: State)
    requires ResetStage(s, e) && InvWriter(e) && BeginCloseMove(e, f)
    ensures f.handler != Ready && ResetStage(s, f)
  {
    hide Whole;
  }

  lemma ResetCloses(s: State, e: State, f: State)
    requires Inv(e) && ResetStage(s, e) && CloseMove(e, f)
    ensures f.handler != Ready && ResetStage(s, f)
  {
    InvParts(e);
    assert WS.Inv(e.w) && W.CloseStep(e.w, f.w) && f == e.(w := f.w) && !e.w.closing.pc.NotClosing?;
    hide *;
    CloseKeepsFault(e.w, f.w);
    if f.w.closing.pc.NotClosing? {
      WC.CloseOutcome(e.w, f.w);
      CloseLeavesNoWorker(e.w, f.w);
    }
    ResetClosing(s, e, f);
  }

  lemma CloseKeepsFault(w: W.State, v: W.State)
    requires W.CloseStep(w, v)
    ensures v.shared.faulted == w.shared.faulted
  {
    hide W.Finalised;
    hide W.Flushed;
  }

  lemma CloseLeavesNoWorker(w: W.State, v: W.State)
    requires WS.Inv(w) && W.CloseStep(w, v) && v.closing.pc.NotClosing?
    ensures v.worker.WorkerAbsent?
  {
    hide *;
    WS.InvParts(w);
    EndOfClose(w, v);
    JoinedHasNoWorker(w);
  }

  lemma JoinedHasNoWorker(w: W.State)
    requires WS.InvFlags(w) && (w.closing.pc.CloseManifest? || w.closing.pc.CloseFinish?)
    ensures w.worker.WorkerAbsent?
  {
  }

  lemma EndOfClose(w: W.State, v: W.State)
    requires W.CloseStep(w, v) && v.closing.pc.NotClosing?
    ensures (w.closing.pc.CloseManifest? || w.closing.pc.CloseFinish?) && v.worker == w.worker
  {
    hide W.Finalised;
    hide W.Flushed;
  }

  lemma ResetClosing(s: State, e: State, f: State)
    requires ResetStage(s, e) && e.handler.AwaitClose? && f == e.(w := f.w)
    requires f.w.shared.faulted == e.w.shared.faulted && (f.w.closing.pc.NotClosing? ==> CloseOver(f.w))
    ensures f.handler != Ready && ResetStage(s, f)
  {
  }

  lemma ResetCloseEnds(s: State, e: State, f: State)
    requires ResetStage(s, e) && e.handler.AwaitClose? && InvWriter(e) && CloseEnds(e, f)
    ensures if f.handler == Ready then ResetAnswer(s, e, f) else ResetStage(s, f)
  {
    hide Whole;
  }

  lemma ResetMarks(s: State, e: State, f: State)
    requires ResetStage(s, e) && e.handler.MarkReset? && InvWriter(e) && MarkMove(e, f)
    ensures f.handler == Ready && ResetAnswer(s, e, f)
  {
    hide Whole;
  }

  /** From the step that ends the stop of a RESET to the step that answers it, the handler is busy with it. */
  ghost predicate Resets(run: seq<State>, i: nat, j: nat)
    requires i < j && j + 1 < |run|
  {
    && run[i].handler == AwaitPipeline(StopReset) && CallEnds(run[i], run[i + 1])
    && (forall k :: i < k <= j ==> run[k].handler != Ready)
    && run[j + 1].handler == Ready
  }

  lemma ResetStart(run: seq<State>, i: nat, j: nat)
    requires i < j && j + 1 < |run| && Resets(run, i, j) && Inv(run[i])
    ensures ResetStage(run[i], run[i + 1])
  {
    InvParts(run[i]);
    assert EdgeFits(run[i].handler, run[i].edge);
    assert run[i].handler == AwaitPipeline(StopReset) && CallEnds(run[i], run[i + 1]);
    hide Inv;
    hide WS.Inv;
    hide PS.Inv;
    ResetBegins(run[i], run[i + 1]);
  }

  lemma ResetIsBusy(run: seq<State>, i: nat, j: nat, k: nat)
    requires i < j && j + 1 < |run| && Resets(run, i, j) && i < k <= j + 1
    ensures run[k].handler != Ready <==> k <= j
  {
    hide CallEnds;
  }

  lemma {:induction false} ResetSteps(run: seq<State>, i: nat, j: nat, k: nat)
    requires Run(run) && i < j && j + 1 < |run| && Resets(run, i, j) && i < k <= j
    ensures ResetStage(run[i], run[k])
    decreases k
  {
    hide *;
    RunKeepsInv(run, k - 1);
    if k == i + 1 {
      ResetStart(run, i, j);
    } else {
      ResetSteps(run, i, j, k - 1);
      StepOfRun(run, k - 1);
      ResetIsBusy(run, i, j, k);
      ResetStep(run[i], run[k - 1], run[k]);
    }
  }

  lemma ResetStep(s: State, e: State, f: State)
    requires Inv(e) && ResetStage(s, e) && Next(e, f)
    ensures if f.handler == Ready then ResetAnswer(s, e, f) else ResetStage(s, f)
  {
    assert ThreadMove(e, f) || HandlerMove(e, f);
    hide *;
    if HandlerMove(e, f) {
      ResetHandler(s, e, f);
    } else {
      ResetThreads(s, e, f);
      StageIsBusy(s, f);
    }
  }

  lemma StageIsBusy(s: State, e: State)
    requires ResetStage(s, e)
    ensures e.handler != Ready
  {
  }

  /**
   * RESET is answered with OK RESET exactly if no session was open when its stop had ended, or if nothing failed:
   * no worker fault, and neither the flush nor the manifest's close threw. Otherwise it is answered with an error,
   * and the session stays open, for the next RESET to close, exactly if it was the manifest that failed.
   */
  lemma {:induction false} ResetAnswered(run: seq<State>, i: nat, j: nat)
    requires Run(run) && i < j && j + 1 < |run| && Resets(run, i, j)
    ensures Answers(run[j], run[j + 1], Reset) <==> !run[i].w.shared.open || WC.CloseSucceeded(run[j].w)
    ensures Answers(run[j], run[j + 1], Reset) <==> run[j + 1].edge == Idle
    ensures !Answers(run[j], run[j + 1], Reset) ==>
              && Answers(run[j], run[j + 1], ErrorReply) && run[j + 1].edge == Faulted
              && (run[j + 1].w.shared.open <==> run[j + 1].w.closing.manifestFailed)
  {
    hide *;
    ResetIsBusy(run, i, j, j);
    ResetIsBusy(run, i, j, j + 1);
    ResetSteps(run, i, j, j);
    RunKeepsInv(run, j);
    StepOfRun(run, j);
    ResetStep(run[i], run[j], run[j + 1]);
    AnswersReset(run[i], run[j], run[j + 1]);
  }

  lemma AnswersReset(s: State, e: State, f: State)
    requires e.handler != Ready && f.handler == Ready && ResetAnswer(s, e, f)
    ensures Answers(e, f, Reset) <==> !s.w.shared.open || WC.CloseSucceeded(e.w)
    ensures Answers(e, f, Reset) <==> f.edge == Idle
    ensures !Answers(e, f, Reset) ==>
              && Answers(e, f, ErrorReply) && f.edge == Faulted
              && (f.w.shared.open <==> f.w.closing.manifestFailed)
  {
    hide WC.CloseSucceeded;
  }

  /** A RESET that has to close a session with a worker fault is answered with an error. */
  lemma {:induction false} FaultedResetFails(run: seq<State>, i: nat, j: nat)
    requires Run(run) && i < j && j + 1 < |run| && Resets(run, i, j)
    requires run[i].w.shared.open && run[i].w.shared.faulted
    ensures Answers(run[j], run[j + 1], ErrorReply)
  {
    hide *;
    ResetAnswered(run, i, j);
    ResetSteps(run, i, j, j);
    StageKeepsFault(run[i], run[j]);
  }

  lemma StageKeepsFault(s: State, e: State)
    requires ResetStage(s, e) && s.w.shared.open && s.w.shared.faulted
    ensures !WC.CloseSucceeded(e.w)
  {
  }

  // CONFIG: what an error leaves behind.

  predicate Untouched(s: State, e: State) {
    e.config == s.config && e.built == s.built && e.p == s.p && e.callbacks == s.callbacks
  }

  /** The live pipeline is as made from this configuration, and has these callbacks. */
  ghost predicate Replaced(e: State, config: RuntimeConfig, callbacks: Callbacks) {
    e.built == config && Makes(config, e.p) && e.callbacks == callbacks
  }

  /** CONFIG, begun in state s. */
  ghost predicate ConfigStage(s: State, e: State) {
    && e.edge == Idle
    && match e.handler {
         case ApplySettings(_) => Untouched(s, e)
         case ValidateCandidate(_) => Untouched(s, e)
         case MakePipeline(_) => Untouched(s, e)
         case MovePipeline(c, replacement) => Untouched(s, e) && Makes(c, replacement)
         case MoveConfig(c) => Replaced(e, c, UNATTACHED) && e.config == s.config
         case AttachResult => Replaced(e, e.config, UNATTACHED)
         case AttachFault => Replaced(e, e.config, Callbacks(true, false))
         case _ => false
       }
  }

  predicate Building(h: Handler) { h.ApplySettings? || h.ValidateCandidate? || h.MakePipeline? }

  /** The answer that CONFIG gives with the step from e to f. */
  ghost predicate ConfigAnswer(s: State, e: State, f: State) {
    && f.edge == Idle
    && if Building(e.handler) then f.reply == ErrorReply && Untouched(s, f)
       else if e.handler.AttachResult? then f.reply == ErrorReply && Replaced(f, f.config, UNATTACHED)
       else
         && e.handler.AttachFault?
         && (|| (f.reply == Configured && Replaced(f, f.config, ATTACHED))
             || (f.reply == ErrorReply && Replaced(f, f.config, Callbacks(true, false))))
  }

  lemma ConfigThreads(s: State, e: State, f: State)
    requires Inv(e) && ConfigStage(s, e) && ThreadMove(e, f)
    ensures ConfigStage(s, f) && f.handler == e.handler
  {
    InvParts(e);
    assert InvCalls(e) && InvWriter(e) && WS.Inv(e.w);
    WorkerAbsentWhenClosed(e.w);
    assert e.edge == Idle;
    assert e.p.gate.state == P.Stopped;
    QuietThreads(e, f);
    assert !e.w.shared.open;
    hide *;
    ConfigStorage(s, e, f);
  }

  lemma ConfigStorage(s: State, e: State, f: State)
    requires ConfigStage(s, e) && StorageMoved(e, f) && e.w.worker.WorkerAbsent?
    ensures ConfigStage(s, f) && f.handler == e.handler
  {
    hide Makes;
  }

  lemma ConfigHandler(s: State, e: State, f: State)
    requires InvCalls(e) && ConfigStage(s, e) && HandlerMove(e, f)
    ensures if f.handler == Ready then ConfigAnswer(s, e, f) else ConfigStage(s, f)
  {
    Dispatch(e, f);
    assert Configuring(e.handler);
    hide *;
    ConfigMoves(s, e, f);
  }

  lemma ConfigMoves(s: State, e: State, f: State)
    requires ConfigStage(s, e) && ConfigMove(e, f)
    ensures if f.handler == Ready then ConfigAnswer(s, e, f) else ConfigStage(s, f)
  {
    hide Makes;
  }

  lemma ConfigStep(s: State, e: State, f: State)
    requires Inv(e) && ConfigStage(s, e) && Next(e, f)
    ensures if f.handler == Ready then ConfigAnswer(s, e, f) else ConfigStage(s, f)
  {
    assert ThreadMove(e, f) || HandlerMove(e, f);
    assert e.handler != Ready;
    InvParts(e);
    hide *;
    if HandlerMove(e, f) {
      ConfigHandler(s, e, f);
    } else {
      ConfigThreads(s, e, f);
    }
  }

  /** From the CONFIG command to the step that answers it, the handler is busy with it. */
  ghost predicate Configures(run: seq<State>, i: nat, j: nat)
    requires i < j && j + 1 < |run|
  {
    && run[i].handler == Ready && run[i].edge == Idle
    && run[i + 1] == Begun(run[i], true, ApplySettings(run[i].config))
    && (forall k :: i < k <= j ==> run[k].handler != Ready)
    && run[j + 1].handler == Ready
  }

  lemma ConfigStart(run: seq<State>, i: nat, j: nat)
    requires i < j && j + 1 < |run| && Configures(run, i, j)
    ensures ConfigStage(run[i], run[i + 1])
  {
  }

  lemma ConfigIsBusy(run: seq<State>, i: nat, j: nat, k: nat)
    requires i < j && j + 1 < |run| && Configures(run, i, j) && i < k <= j + 1
    ensures run[k].handler != Ready <==> k <= j
  {
  }

  lemma {:induction false} ConfigSteps(run: seq<State>, i: nat, j: nat, k: nat)
    requires Run(run) && i < j && j + 1 < |run| && Configures(run, i, j) && i < k <= j
    ensures ConfigStage(run[i], run[k])
    decreases k
  {
    hide *;
    if k == i + 1 {
      ConfigStart(run, i, j);
    } else {
      RunKeepsInv(run, k - 1);
      ConfigSteps(run, i, j, k - 1);
      StepOfRun(run, k - 1);
      ConfigIsBusy(run, i, j, k);
      ConfigStep(run[i], run[k - 1], run[k]);
    }
  }

  /**
   * CONFIG: an exception up to the making of the new pipeline leaves configuration, pipeline and callbacks as they
   * were. One while callbacks are attached answers with an error as well, but leaves the new configuration and a
   * new pipeline in use, without the callbacks not attached by then. OK CONFIGURED means all of it was done.
   */
  lemma {:induction false} ConfigAnswered(run: seq<State>, i: nat, j: nat)
    requires Run(run) && i < j && j + 1 < |run| && Configures(run, i, j)
    ensures var e, f := run[j], run[j + 1];
            && f.edge == Idle
            && (Answers(e, f, Configured) || Answers(e, f, ErrorReply))
            && (Building(e.handler) ==> Answers(e, f, ErrorReply) && Untouched(run[i], f))
            && (!Building(e.handler) ==> e.handler.AttachResult? || e.handler.AttachFault?)
    ensures var e, f := run[j], run[j + 1];
            !Building(e.handler) ==>
              && f.built == f.config && Makes(f.config, f.p)
              && f.callbacks == (if Answers(e, f, Configured) then ATTACHED
                                 else Callbacks(e.handler.AttachFault?, false))
  {
    hide *;
    ConfigSteps(run, i, j, j);
    ConfigIsBusy(run, i, j, j);
    ConfigIsBusy(run, i, j, j + 1);
    RunKeepsInv(run, j);
    StepOfRun(run, j);
    ConfigStep(run[i], run[j], run[j + 1]);
    AnswersConfig(run[i], run[j], run[j + 1]);
  }

  lemma AnswersConfig(s: State, e: State, f: State)
    requires e.handler != Ready && f.handler == Ready && ConfigAnswer(s, e, f)
    ensures && f.edge == Idle
            && (Answers(e, f, Configured) || Answers(e, f, ErrorReply))
            && (Building(e.handler) ==> Answers(e, f, ErrorReply) && Untouched(s, f))
            && (!Building(e.handler) ==> e.handler.AttachResult? || e.handler.AttachFault?)
    ensures !Building(e.handler) ==>
              && f.built == f.config && Makes(f.config, f.p)
              && f.callbacks == (if Answers(e, f, Configured) then ATTACHED
                                 else Callbacks(e.handler.AttachFault?, false))
  {
    hide Makes;
  }

  // The callbacks over a whole run.

  predicate AttachThrows(e: State, f: State) {
    (e.handler.AttachResult? || e.handler.AttachFault?) && Answers(e, f, ErrorReply)
  }

  /** Of the CONFIGs that replaced the pipeline so far, the last one threw while attaching the callbacks. */
  predicate LastAttachThrew(run: seq<State>, i: nat)
    requires i < |run|
  {
    if i == 0 then false
    else if AttachThrows(run[i - 1], run[i]) then true
    else if Answers(run[i - 1], run[i], Configured) then false
    else LastAttachThrew(run, i - 1)
  }

  /** The callbacks that a handler step finds, if an earlier CONFIG did or did not throw while attaching. */
  predicate Attached(e: State, threw: bool) {
    match e.handler
    case MoveConfig(_) => e.callbacks == UNATTACHED
    case AttachResult => e.callbacks == UNATTACHED
    case AttachFault => e.callbacks == Callbacks(true, false)
    case _ => e.callbacks == ATTACHED <==> !threw
  }

  lemma AttachedStep(e: State, f: State, threw: bool)
    requires Inv(e) && Next(e, f) && Attached(e, threw)
    ensures Attached(f, if AttachThrows(e, f) then true else if Answers(e, f, Configured) then false else threw)
  {
    InvParts(e);
    assert ThreadMove(e, f) || HandlerMove(e, f);
    hide *;
    if HandlerMove(e, f) {
      Dispatch(e, f);
      AttachedHandler(e, f, threw);
    } else {
      ThreadMoves(e, f);
      AttachedThreads(e, f, threw);
    }
  }

  lemma AttachedThreads(e: State, f: State, threw: bool)
    requires (PipelineMoved(e, f) || StorageMoved(e, f)) && Attached(e, threw)
    ensures Attached(f, threw) && f.handler == e.handler
    ensures !AttachThrows(e, f) && !Answers(e, f, Configured)
  {
  }

  lemma AttachedHandler(e: State, f: State, threw: bool)
    requires HandlerMove(e, f) && Attached(e, threw)
    requires Configuring(e.handler) ==> ConfigMove(e, f)
    ensures Attached(f, if AttachThrows(e, f) then true else if Answers(e, f, Configured) then false else threw)
  {
    hide *;
    if Configuring(e.handler) {
      AttachedConfig(e, f, threw);
    } else {
      OthersKeepCallbacks(e, f);
      AttachedOthers(e, f, threw);
    }
  }

  lemma AttachedConfig(e: State, f: State, threw: bool)
    requires ConfigMove(e, f) && Attached(e, threw)
    ensures Attached(f, if AttachThrows(e, f) then true else if Answers(e, f, Configured) then false else threw)
  {
    hide Makes;
  }

  lemma AttachedOthers(e: State, f: State, threw: bool)
    requires Attached(e, threw) && !Configuring(e.handler) && f.callbacks == e.callbacks && !Answers(e, f, Configured)
    requires Configuring(f.handler) ==> f.handler.ApplySettings?
    ensures Attached(f, if AttachThrows(e, f) then true else if Answers(e, f, Configured) then false else threw)
  {
  }

  lemma OthersKeepCallbacks(e: State, f: State)
    requires HandlerMove(e, f) && !Configuring(e.handler)
    ensures f.callbacks == e.callbacks && !Answers(e, f, Configured)
    ensures Configuring(f.handler) ==> f.handler.ApplySettings?
  {
    hide P.BeginStart;
    hide P.BeginPause;
    hide P.BeginResume;
    hide P.BeginStop;
    hide P.ControlStep;
    hide W.OpenStep;
    hide W.BeginClose;
    hide W.CloseStep;
    hide Makes;
  }

  /** Between commands both callbacks are attached, unless the last CONFIG to replace the pipeline threw afterwards. */
  lemma {:induction false} AttachedExactly(run: seq<State>, i: nat)
    requires Run(run) && i < |run|
    ensures Attached(run[i], LastAttachThrew(run, i))
    decreases i
  {
    hide *;
    AttachThrewIs(run, i);
    if i == 0 {
      AttachedAtBoot(run);
    } else {
      AttachedExactly(run, i - 1);
      RunKeepsInv(run, i - 1);
      StepOfRun(run, i - 1);
      AttachedStep(run[i - 1], run[i], LastAttachThrew(run, i - 1));
    }
  }

  lemma AttachThrewIs(run: seq<State>, i: nat)
    requires i < |run|
    ensures LastAttachThrew(run, i) <==>
            i > 0 &&
            if AttachThrows(run[i - 1], run[i]) then true
            else if Answers(run[i - 1], run[i], Configured) then false else LastAttachThrew(run, i - 1)
  {
    hide AttachThrows;
    hide Answers;
  }

  lemma AttachedAtBoot(run: seq<State>)
    requires Run(run)
    ensures Attached(run[0], false)
  {
    hide Next;
    hide Makes;
    hide W.Fresh;
  }
}
