/** What start, pause, resume and stop have achieved when they return. */
module PipelineCalls {
  import opened Outcomes
  import opened ResultPacket
  import opened FramePools
  import opened Pipeline
  import opened PipelineSafety

  predicate Starting(c: ControlPc) { c.StartCapture? || c.StartProcessing? || c.StartDone? }

  predicate Failing(c: ControlPc) { c.StartFailed? || c.StartFaulted? }

  predicate Pausing(c: ControlPc) { c.PauseFlag? || c.PauseLock? || c.PauseTest? || c.PauseUnlock? }

  predicate Unpaused(c: ControlPc) {
    c.StopQueue? || c.StopPool? || c.StopJoinCapture? || c.StopJoinProcessing? || c.StopDone?
  }

  predicate CaptureDown(pc: CapturePc) { pc.CaptureFaultReport? || pc.CaptureEnded? }

  predicate ProcessingDown(pc: ProcessingPc) { pc.ProcessingFaultReport? || pc.ProcessingEnded? }

  /** The flag says what the state says, apart from the steps of pause and resume that bring them together. */
  ghost predicate InvPause(p: State) {
    && (p.gate.state == Running ==> !p.gate.paused || p.control.ResumeFlag?)
    && (p.gate.state == Paused ==> p.gate.paused || p.control.PauseFlag?)
    && (p.gate.state == Stopped || p.control.StartPrepare? || Starting(p.control) || Failing(p.control) ==>
          !p.gate.paused)
    && (Unpaused(p.control) ==> !p.gate.paused)
    && (Pausing(p.control) ==> p.gate.state != Running)
    && (p.control.PauseLock? || p.control.PauseTest? || p.control.PauseUnlock? ==> p.gate.paused)
  }

  /** The calls and states in which both threads are wanted, or about to be. */
  predicate Up(p: State) {
    || Starting(p.control)
    || ((p.control.ControlIdle? || Pausing(p.control) || p.control.ResumeFlag?)
        && (p.gate.state == Running || p.gate.state == Paused))
  }

  /** The states that a call can find once it has begun; a fault of a thread may come at any time. */
  predicate StateFits(c: ControlPc, state: PipelineState) {
    match c
    case ControlIdle => state == Stopped || state == Running || state == Paused || state == Faulted
    case PauseFlag => state == Paused || state == Faulted
    case PauseLock => state == Paused || state == Faulted
    case PauseTest => state == Paused || state == Faulted
    case PauseUnlock => state == Paused || state == Faulted
    case ResumeFlag => state == Running || state == Faulted
    case StopMark(wasFaulted) =>
      if wasFaulted then state == Faulted else state == Running || state == Paused || state == Faulted
    case _ => state == (if Starting(c) || Failing(c) || c.StartPrepare? then STARTING else Stopping) || state == Faulted
  }

  const STARTING: PipelineState := PipelineState.Starting

  /** Such a pipeline has its threads, and is asked to stop only by one of them that has failed. */
  ghost predicate InvUp(p: State) {
    && StateFits(p.control, p.gate.state)
    && (p.control.StartProcessing? || p.control.StartDone? ==> !p.capture.CaptureAbsent?)
    && (p.control.StartDone? ==> !p.processing.ProcessingAbsent?)
    && (p.gate.state == Running || p.gate.state == Paused ==>
          !p.capture.CaptureAbsent? && !p.processing.ProcessingAbsent?)
    && (Up(p) && p.gate.stopRequested ==> CaptureDown(p.capture) || ProcessingDown(p.processing))
  }

  /** A step of a thread: it may fail, and is asked to stop then. */
  ghost predicate ThreadMoved(p: State, q: State) {
    && q.control == p.control && q.outcome == p.outcome && q.gate.paused == p.gate.paused
    && (q.gate.state == p.gate.state || q.gate.state == Faulted)
    && (p.gate.state == Stopped ==> q.gate.state == Stopped)
    && (p.capture.CaptureAbsent? <==> q.capture.CaptureAbsent?)
    && (p.processing.ProcessingAbsent? <==> q.processing.ProcessingAbsent?)
    && (CaptureDown(p.capture) ==> CaptureDown(q.capture))
    && (ProcessingDown(p.processing) ==> ProcessingDown(q.processing))
    && (q.gate.stopRequested ==>
          p.gate.stopRequested || CaptureDown(q.capture) || ProcessingDown(q.processing))
  }

  lemma CaptureMoved(p: State, q: State, e: Event)
    requires InvThreads(p) && CaptureStep(p, q, e)
    ensures ThreadMoved(p, q)
  {
    hide Buffers;
  }

  lemma GateMoved(p: State, q: State)
    requires InvThreads(p) && GateStep(p, q)
    ensures ThreadMoved(p, q)
  {
    hide Buffers;
  }

  lemma WorkMoved(p: State, q: State, e: Event)
    requires InvThreads(p) && WorkStep(p, q, e)
    ensures ThreadMoved(p, q)
  {
    hide Buffers;
  }

  lemma ThreadKeeps(p: State, q: State)
    requires InvPause(p) && InvUp(p) && ThreadMoved(p, q)
    ensures InvPause(q) && InvUp(q)
  {
  }

  lemma StartKeeps(p: State, q: State)
    requires InvThreads(p) && InvPause(p) && InvUp(p) && StartStep(p, q)
    ensures InvPause(q) && InvUp(q)
  {
  }

  lemma PauseKeeps(p: State, q: State)
    requires InvThreads(p) && InvPause(p) && InvUp(p) && PauseStep(p, q)
    ensures InvPause(q) && InvUp(q)
  {
  }

  lemma StopKeeps(p: State, q: State)
    requires InvThreads(p) && InvPause(p) && InvUp(p) && StopStep(p, q)
    ensures InvPause(q) && InvUp(q)
  {
    hide Buffers;
  }

  lemma BeginKeeps(p: State, q: State)
    requires InvThreads(p) && InvPause(p) && InvUp(p) && BeginCall(p, q)
    ensures InvPause(q) && InvUp(q)
  {
  }

  lemma ThreadsMove(p: State, q: State, e: Event)
    requires InvThreads(p) && (CaptureStep(p, q, e) || ProcessingStep(p, q, e))
    ensures ThreadMoved(p, q)
  {
    hide InvThreads;
    hide CaptureStep;
    hide GateStep;
    hide WorkStep;
    hide ThreadMoved;
    if CaptureStep(p, q, e) {
      CaptureMoved(p, q, e);
    } else if WorkStep(p, q, e) {
      WorkMoved(p, q, e);
    } else {
      GateMoved(p, q);
    }
  }

  lemma CallsKeep(p: State, q: State)
    requires InvThreads(p) && InvPause(p) && InvUp(p) && (ControlStep(p, q) || BeginCall(p, q))
    ensures InvPause(q) && InvUp(q)
  {
    hide InvThreads;
    hide InvPause;
    hide InvUp;
    hide StartStep;
    hide PauseStep;
    hide StopStep;
    hide BeginCall;
    if StartStep(p, q) {
      StartKeeps(p, q);
    } else if PauseStep(p, q) {
      PauseKeeps(p, q);
    } else if StopStep(p, q) {
      StopKeeps(p, q);
    } else {
      BeginKeeps(p, q);
    }
  }

  /** The state of the pipeline, its pause flag, its stop request and its threads fit together. */
  ghost predicate InvState(p: State) { Inv(p) && InvPause(p) && InvUp(p) }

  lemma NextKeeps(p: State, q: State)
    requires InvState(p) && Next(p, q)
    ensures InvState(q)
  {
    NextKeepsInv(p, q);
    InvParts(p);
    hide Inv;
    hide InvThreads;
    hide InvPause;
    hide InvUp;
    hide CaptureStep;
    hide ProcessingStep;
    hide ControlStep;
    hide BeginCall;
    if e :| CaptureStep(p, q, e) || ProcessingStep(p, q, e) {
      ThreadsMove(p, q, e);
      ThreadKeeps(p, q);
    } else {
      CallsKeep(p, q);
    }
  }

  lemma FreshHasState(p: State)
    requires Fresh(p)
    ensures InvState(p)
  {
    hide *;
    FreshIsInv(p);
    FreshIsIdle(p);
    StateParts(p);
  }

  lemma StateParts(p: State)
    ensures InvState(p) <==> Inv(p) && InvPause(p) && InvUp(p)
  {
    hide Inv;
    hide InvPause;
    hide InvUp;
  }

  lemma FreshIsIdle(p: State)
    requires Fresh(p)
    ensures InvPause(p) && InvUp(p)
  {
    hide AllBuffers;
  }

  lemma {:induction false} RunKeepsState(run: seq<State>, i: nat)
    requires Run(run) && i < |run|
    ensures InvState(run[i])
    decreases i
  {
    hide InvState;
    hide Next;
    hide Fresh;
    if i == 0 {
      FreshHasState(run[0]);
    } else {
      RunKeepsState(run, i - 1);
      NextKeeps(run[i - 1], run[i]);
    }
  }

  // The calls.

  /** A start that returns leaves a running pipeline: both threads, not paused, stopped by nothing but a failure. */
  lemma {:induction false} StartReturns(run: seq<State>, i: nat)
    requires Run(run) && i + 1 < |run| && StartStep(run[i], run[i + 1]) && run[i + 1].control == ControlIdle
    requires run[i + 1].outcome == Returned
    ensures var p := run[i + 1];
            && p.gate.state == Running && !p.gate.paused
            && !p.capture.CaptureAbsent? && !p.processing.ProcessingAbsent?
            && (p.gate.stopRequested ==> CaptureDown(p.capture) || ProcessingDown(p.processing))
  {
    RunKeepsState(run, i);
    hide Run;
    hide Inv;
  }

  /** A resume that returns leaves a pipeline that is not paused, whatever the threads do meanwhile. */
  lemma {:induction false} ResumeReturns(run: seq<State>, i: nat)
    requires Run(run) && i + 1 < |run| && run[i].control.ResumeFlag? && PauseStep(run[i], run[i + 1])
    ensures var p := run[i + 1]; p.control == ControlIdle && p.outcome == Returned
    ensures var p := run[i + 1]; !p.gate.paused && (p.gate.state == Running || p.gate.state == Faulted)
  {
    RunKeepsState(run, i);
    hide Run;
    hide Inv;
  }

  /** Between calls the pause flag is set in the paused state, and in no other but after a fault. */
  lemma {:induction false} PausedExactly(run: seq<State>, i: nat)
    requires Run(run) && i < |run| && run[i].control == ControlIdle && run[i].gate.state != Faulted
    ensures run[i].gate.paused <==> run[i].gate.state == Paused
    ensures run[i].gate.state == Paused || run[i].gate.state == Running <==> !NoThreads(run[i])
  {
    RunKeepsState(run, i);
    InvParts(run[i]);
    hide Run;
    hide Inv;
  }

  /** A stop that returns leaves everything as a start wants to find it. */
  lemma {:induction false} StopReturns(run: seq<State>, i: nat)
    requires Run(run) && i + 1 < |run| && StopStep(run[i], run[i + 1]) && run[i + 1].control == ControlIdle
    ensures var p := run[i + 1];
            && p.gate.state == Stopped && !p.gate.paused && p.outcome == Returned && NoThreads(p)
            && |p.pool.available| == p.poolSize && p.queue.items == []
  {
    hide *;
    StopEnds(run[i], run[i + 1]);
    RunKeepsState(run, i + 1);
    StateParts(run[i + 1]);
    InvParts(run[i + 1]);
    StoppedIsIdle(run[i + 1]);
    AllBackWhenStopped(run[i + 1]);
  }

  lemma StopEnds(p: State, q: State)
    requires StopStep(p, q) && q.control == ControlIdle
    ensures q.gate.state == Stopped && q.outcome == Returned
  {
    hide Buffers;
  }

  lemma StoppedIsIdle(p: State)
    requires InvThreads(p) && InvPause(p) && p.gate.state == Stopped
    ensures NoThreads(p) && !p.gate.paused
  {
  }

  // Faults.

  /** The steps that overwrite the faulted state: the ends of start and stop, and a stop that missed the fault. */
  predicate Overwrites(c: ControlPc) { c.StartDone? || c.StopDone? || c == StopMark(false) }

  lemma CallsKeepFault(p: State, q: State)
    requires (ControlStep(p, q) || BeginCall(p, q)) && InvUp(p) && p.gate.state == Faulted && !Overwrites(p.control)
    ensures q.gate.state == Faulted
  {
    hide Buffers;
  }

  lemma FaultKept(p: State, q: State)
    requires InvState(p) && Next(p, q) && p.gate.state == Faulted && !Overwrites(p.control)
    ensures q.gate.state == Faulted
  {
    StateParts(p);
    InvParts(p);
    hide *;
    NextCases(p, q);
    if e :| CaptureStep(p, q, e) || ProcessingStep(p, q, e) {
      ThreadsMove(p, q, e);
      MovedKeepsFault(p, q);
    } else {
      CallsKeepFault(p, q);
    }
  }

  lemma NextCases(p: State, q: State)
    requires Next(p, q)
    ensures (exists e :: CaptureStep(p, q, e) || ProcessingStep(p, q, e)) || ControlStep(p, q) || BeginCall(p, q)
  {
    hide CaptureStep;
    hide ProcessingStep;
    hide ControlStep;
    hide BeginCall;
  }

  lemma MovedKeepsFault(p: State, q: State)
    requires ThreadMoved(p, q) && p.gate.state == Faulted
    ensures q.gate.state == Faulted
  {
  }

  /** A thread reports a fault: its first step is to mark the pipeline as faulted. */
  ghost predicate Faults(p: State, q: State) {
    exists e ::
      || (p.capture.CaptureFault? && CaptureStep(p, q, e))
      || (p.processing.ProcessingFault? && ProcessingStep(p, q, e))
  }

  lemma FaultMarks(p: State, q: State)
    requires Faults(p, q)
    ensures q.gate.state == Faulted
  {
    hide Buffers;
  }

  /** A fault of either thread marks the pipeline as faulted, until a call overwrites that. */
  lemma {:induction false} FaultSticks(run: seq<State>, i: nat, j: nat)
    requires Run(run) && i < j < |run| && Faults(run[i], run[i + 1])
    requires forall k :: i < k < j ==> !Overwrites(run[k].control)
    ensures run[j].gate.state == Faulted
    decreases j
  {
    hide Next;
    hide Fresh;
    hide Faults;
    hide Overwrites;
    if j == i + 1 {
      FaultMarks(run[i], run[j]);
    } else {
      FaultSticks(run, i, j - 1);
      RunKeepsState(run, j - 1);
      assert Next(run[j - 1], run[j - 1 + 1]);
      FaultKept(run[j - 1], run[j]);
    }
  }
}
