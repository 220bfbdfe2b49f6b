/** What OK STARTED, OK PAUSED and OK RESUMED say about the pipeline, for as long as the Edge state stays. */
module EdgeSessions {
  import opened Outcomes
  import opened EdgeStates
  import opened Edge
  import opened EdgeSafety
  import opened EdgeReplies
  import P = Pipeline
  import W = AsyncWriter
  import PS = PipelineSafety
  import PC = PipelineCalls
  import WS = AsyncWriterSafety

  /** Both threads are there, and only a failure of one of them can have asked them to stop. */
  predicate Present(p: P.State) {
    && !p.capture.CaptureAbsent? && !p.processing.ProcessingAbsent?
    && (p.gate.stopRequested ==> PC.CaptureDown(p.capture) || PC.ProcessingDown(p.processing))
  }

  predicate Measures(p: P.State) { Present(p) && !p.gate.paused }

  ghost predicate Rests(p: P.State) { Present(p) && PS.Quiet(p) }

  /** The pipeline does what the Edge state says. */
  ghost predicate SessionFits(edge: EdgeState, p: P.State) {
    (edge == Measuring ==> Measures(p)) && (edge == EdgeState.Paused ==> Rests(p))
  }

  /** What each handler step of a session knows about the pipeline. */
  ghost predicate Expected(h: Handler, edge: EdgeState, p: P.State) {
    match h
    case Ready => SessionFits(edge, p)
    case BeginPipeline(call) =>
      if call == StartPipeline then edge != EdgeState.Paused else call == StopFailed || SessionFits(edge, p)
    case AwaitPipeline(call) => CallExpected(call, edge, p)
    case MarkPaused => InSession(edge) ==> Rests(p)
    case MarkResumed => InSession(edge) ==> Measures(p)
    case _ => true
  }

  /** A call that throws changes nothing; one that returns has done its work. */
  ghost predicate CallExpected(call: PipelineCall, edge: EdgeState, p: P.State) {
    match call
    case StartPipeline =>
      edge != EdgeState.Paused && (p.control == P.ControlIdle && p.outcome == Returned ==> Measures(p))
    case PausePipeline =>
      if p.control != P.ControlIdle then InSession(edge) ==> Present(p)
      else if p.outcome == Returned then InSession(edge) ==> Rests(p) else SessionFits(edge, p)
    case ResumePipeline =>
      if p.control != P.ControlIdle then InSession(edge) ==> Present(p)
      else if p.outcome == Returned then InSession(edge) ==> Measures(p) else SessionFits(edge, p)
    case _ => true
  }

  ghost predicate InvSession(e: State) { PC.InvState(e.p) && Expected(e.handler, e.edge, e.p) }

  // The pipeline's own invariants.

  lemma ThreadsMovePipeline(e: State, f: State)
    requires ThreadMove(e, f)
    ensures f.p == e.p || exists event :: P.CaptureStep(e.p, f.p, event) || P.ProcessingStep(e.p, f.p, event)
    ensures f.handler == e.handler && f.reply == e.reply && (f.edge == e.edge || f.edge == After(Fault, e.edge))
  {
    hide P.CaptureStep;
    hide P.ProcessingStep;
    hide W.EnqueueStep;
    hide W.WorkerStep;
    hide W.DiskStep;
  }

  lemma StepKeepsState(p: P.State, q: P.State)
    requires PC.InvState(p)
    requires || q == p || P.Fresh(q) || P.ControlStep(p, q) || P.BeginCall(p, q)
             || exists event :: P.CaptureStep(p, q, event) || P.ProcessingStep(p, q, event)
    ensures PC.InvState(q)
  {
    hide *;
    if P.Fresh(q) {
      PC.FreshHasState(q);
    } else if q != p {
      IsNext(p, q);
      PC.NextKeeps(p, q);
    }
  }

  lemma IsNext(p: P.State, q: P.State)
    requires || P.ControlStep(p, q) || P.BeginCall(p, q)
             || exists event :: P.CaptureStep(p, q, event) || P.ProcessingStep(p, q, event)
    ensures P.Next(p, q)
  {
    hide P.CaptureStep;
    hide P.ProcessingStep;
    hide P.ControlStep;
    hide P.BeginCall;
  }

  lemma KeepsState(e: State, f: State)
    requires Inv(e) && Next(e, f) && PC.InvState(e.p)
    ensures PC.InvState(f.p)
  {
    assert ThreadMove(e, f) || HandlerMove(e, f);
    hide *;
    InvParts(e);
    if HandlerMove(e, f) {
      HandlerMovesParts(e, f);
    } else {
      ThreadsMovePipeline(e, f);
    }
    StepKeepsState(e.p, f.p);
  }

  // The threads.

  lemma MoveKeepsPresent(p: P.State, q: P.State)
    requires PC.ThreadMoved(p, q) && Present(p)
    ensures Present(q) && q.gate.paused == p.gate.paused
  {
  }

  lemma ThreadKeepsSession(p: P.State, q: P.State, event: P.Event, h: Handler, edge: EdgeState)
    requires PS.InvThreads(p) && (P.CaptureStep(p, q, event) || P.ProcessingStep(p, q, event)) && Expected(h, edge, p)
    ensures Expected(h, edge, q) && Expected(h, After(Fault, edge), q)
  {
    hide P.CaptureStep;
    hide P.ProcessingStep;
    hide PS.InvThreads;
    PC.ThreadsMove(p, q, event);
    assert q.control == p.control && q.outcome == p.outcome;
    if Present(p) {
      MoveKeepsPresent(p, q);
    }
    if PS.Quiet(p) {
      if P.CaptureStep(p, q, event) {
        PS.CaptureKeepsQuiet(p, q, event);
      } else {
        PS.ProcessingKeepsQuiet(p, q, event);
      }
    }
    hide PC.ThreadMoved;
    hide Present;
    hide PS.Quiet;
  }

  lemma ThreadsKeepSession(e: State, f: State)
    requires Inv(e) && ThreadMove(e, f) && InvSession(e)
    ensures Expected(f.handler, f.edge, f.p)
  {
    InvParts(e);
    ThreadsMovePipeline(e, f);
    assert PC.InvState(e.p) && Expected(e.handler, e.edge, e.p);
    hide *;
    PS.InvParts(e.p);
    if event :| P.CaptureStep(e.p, f.p, event) || P.ProcessingStep(e.p, f.p, event) {
      ThreadKeepsSession(e.p, f.p, event, e.handler, e.edge);
    } else {
      FaultFits(e.handler, e.edge, e.p);
    }
  }

  lemma FaultFits(h: Handler, edge: EdgeState, p: P.State)
    requires Expected(h, edge, p)
    ensures Expected(h, After(Fault, edge), p)
  {
    hide Present;
    hide PS.Quiet;
  }

  // The handler.

  lemma BeginKeepsSession(e: State, f: State)
    requires BeginMove(e, f) && Expected(e.handler, e.edge, e.p)
    ensures Expected(f.handler, f.edge, f.p)
  {
  }

  lemma PauseKeepsSession(e: State, f: State)
    requires P.PauseStep(e.p, f.p) && Expected(e.handler, e.edge, e.p) && Expected(e.handler, e.edge, e.p)
    requires e.handler.AwaitPipeline? && Belongs(e.p.control, e.handler.call)
    requires PS.InvGate(e.p)
    ensures Expected(e.handler, e.edge, f.p)
  {
    if e.p.control.PauseUnlock? {
      PS.PauseReturnsQuiet(e.p, f.p);
    }
    hide PS.InvGate;
    hide PS.Quiet;
  }

  lemma StartKeepsSession(e: State, f: State)
    requires P.StartStep(e.p, f.p) && Expected(e.handler, e.edge, e.p)
    requires e.handler.AwaitPipeline? && Belongs(e.p.control, e.handler.call)
    requires PC.InvPause(e.p) && PC.InvUp(e.p)
    ensures Expected(e.handler, e.edge, f.p)
  {
    hide PS.Quiet;
  }

  lemma StopKeepsSession(e: State, f: State)
    requires P.StopStep(e.p, f.p)
    requires e.handler.AwaitPipeline? && Belongs(e.p.control, e.handler.call)
    ensures Expected(e.handler, e.edge, f.p)
  {
    hide P.Buffers;
    assert Stops(e.handler.call);
  }

  lemma CallKeepsSession(e: State, f: State)
    requires CallMove(e, f) && Expected(e.handler, e.edge, e.p) && InvCalls(e)
    requires PS.InvGate(e.p) && PC.InvPause(e.p) && PC.InvUp(e.p)
    ensures Expected(f.handler, f.edge, f.p)
  {
    CallBelongs(e, f);
    assert P.StartStep(e.p, f.p) || P.PauseStep(e.p, f.p) || P.StopStep(e.p, f.p);
    assert f == e.(p := f.p);
    hide *;
    if P.StartStep(e.p, f.p) {
      StartKeepsSession(e, f);
    } else if P.PauseStep(e.p, f.p) {
      PauseKeepsSession(e, f);
    } else {
      StopKeepsSession(e, f);
    }
  }

  lemma CallEndsSession(e: State, f: State)
    requires CallEnds(e, f) && Expected(e.handler, e.edge, e.p)
    ensures Expected(f.handler, f.edge, f.p)
  {
    hide Present;
    hide PS.Quiet;
  }

  lemma MarkKeepsSession(e: State, f: State)
    requires MarkMove(e, f) && Expected(e.handler, e.edge, e.p) && EdgeFits(e.handler, e.edge)
    ensures Expected(f.handler, f.edge, f.p)
  {
    hide Present;
    hide PS.Quiet;
  }

  /** The other moves, most of which leave a session alone or have none. */
  lemma OthersKeepSession(e: State, f: State)
    requires Command(e, f) || ConfigMove(e, f) || OpenMove(e, f) || BeginCloseMove(e, f) || CloseMove(e, f)
             || CloseEnds(e, f)
    requires Expected(e.handler, e.edge, e.p) && EdgeFits(e.handler, e.edge)
    ensures Expected(f.handler, f.edge, f.p)
  {
    hide Present;
    hide PS.Quiet;
    hide Makes;
    hide W.OpenStep;
    hide W.BeginClose;
    hide W.CloseStep;
  }

  lemma HandlerKeepsSession(e: State, f: State)
    requires Inv(e) && HandlerMove(e, f) && InvSession(e)
    ensures Expected(f.handler, f.edge, f.p)
  {
    InvParts(e);
    assert PC.InvState(e.p) && Expected(e.handler, e.edge, e.p);
    assert || Command(e, f) || ConfigMove(e, f) || OpenMove(e, f) || BeginMove(e, f) || CallMove(e, f) || CallEnds(e, f)
           || BeginCloseMove(e, f) || CloseMove(e, f) || CloseEnds(e, f) || MarkMove(e, f);
    hide *;
    if BeginMove(e, f) {
      BeginKeepsSession(e, f);
    } else if CallMove(e, f) {
      PC.StateParts(e.p);
      PS.InvParts(e.p);
      CallKeepsSession(e, f);
    } else if CallEnds(e, f) {
      CallEndsSession(e, f);
    } else if MarkMove(e, f) {
      MarkKeepsSession(e, f);
    } else {
      OthersKeepSession(e, f);
    }
  }

  lemma SessionParts(e: State)
    ensures InvSession(e) <==> PC.InvState(e.p) && Expected(e.handler, e.edge, e.p)
  {
    hide PC.InvState;
    hide Expected;
  }

  lemma NextKeepsSession(e: State, f: State)
    requires Inv(e) && Next(e, f) && InvSession(e)
    ensures InvSession(f)
  {
    assert ThreadMove(e, f) || HandlerMove(e, f);
    hide *;
    SessionParts(e);
    KeepsState(e, f);
    if HandlerMove(e, f) {
      HandlerKeepsSession(e, f);
    } else {
      ThreadsKeepSession(e, f);
    }
    SessionParts(f);
  }

  lemma BootedSession(e: State)
    requires Booted(e)
    ensures InvSession(e)
  {
    hide *;
    BootedParts(e);
    PC.FreshHasState(e.p);
    IdleIsExpected(e.p);
    SessionParts(e);
  }

  lemma IdleIsExpected(p: P.State)
    ensures Expected(Ready, Idle, p)
  {
  }

  lemma {:induction false} RunKeepsSession(run: seq<State>, i: nat)
    requires Run(run) && i < |run|
    ensures InvSession(run[i])
    decreases i
  {
    hide *;
    if i == 0 {
      FirstIsBooted(run);
      BootedSession(run[0]);
    } else {
      RunKeepsSession(run, i - 1);
      RunKeepsInv(run, i - 1);
      StepOfRun(run, i - 1);
      NextKeepsSession(run[i - 1], run[i]);
    }
  }

  lemma FirstIsBooted(run: seq<State>)
    requires Run(run)
    ensures Booted(run[0])
  {
    hide Booted;
    hide Next;
  }

  // What follows for the answers.

  /**
   * Whenever no command is in progress: while the Edge measures, both threads are there and the pipeline is not
   * paused; while it is paused, so is the pipeline, and the processing thread is outside its active region.
   */
  lemma {:induction false} SessionsFit(run: seq<State>, i: nat)
    requires Run(run) && i < |run| && run[i].handler == Ready
    ensures run[i].edge == Measuring ==> Measures(run[i].p)
    ensures run[i].edge == EdgeState.Paused ==> Rests(run[i].p)
  {
    RunKeepsSession(run, i);
    hide Run;
    hide PC.InvState;
    hide Present;
    hide PS.Quiet;
  }

  lemma MarksAnswer(e: State, f: State)
    requires Next(e, f) && e.handler != Ready && f.handler == Ready
    ensures f.reply == PausedReply ==> e.handler == MarkPaused && f.edge == EdgeState.Paused && f.p == e.p && f.w == e.w
    ensures f.reply == Resumed ==> e.handler == MarkResumed && f.edge == Measuring && f.p == e.p && f.w == e.w
    ensures f.reply == Started ==>
            e.handler == AwaitPipeline(StartPipeline) && f.p == e.p && f.w == e.w && f.edge == e.edge
  {
    hide P.CaptureStep;
    hide P.ProcessingStep;
    hide P.BeginStart;
    hide P.BeginPause;
    hide P.BeginResume;
    hide P.BeginStop;
    hide P.ControlStep;
    hide W.EnqueueStep;
    hide W.WorkerStep;
    hide W.DiskStep;
    hide W.OpenStep;
    hide W.BeginClose;
    hide W.CloseStep;
    hide Makes;
    hide Delivered;
  }

  /**
   * OK STARTED, OK PAUSED and OK RESUMED: a started or resumed pipeline has both threads and is not paused; a paused
   * one has its processing thread outside its active region.
   */
  lemma {:induction false} AnswersMean(run: seq<State>, i: nat)
    requires Run(run) && i + 1 < |run|
    ensures var f := run[i + 1]; Answers(run[i], f, Started) ==> Measures(f.p)
    ensures var f := run[i + 1]; Answers(run[i], f, Resumed) ==> Measures(f.p) && f.edge == Measuring
    ensures var f := run[i + 1]; Answers(run[i], f, PausedReply) ==> Rests(f.p) && f.edge == EdgeState.Paused
  {
    hide *;
    var e, f := run[i], run[i + 1];
    RunKeepsSession(run, i);
    RunKeepsInv(run, i);
    StepOfRun(run, i);
    SessionParts(e);
    InvParts(e);
    if AnswersOneOf(e, f) {
      AnswerEnds(e, f);
      MarksAnswer(e, f);
      StartedMeans(e, f);
      RunKeepsSession(run, i + 1);
      SessionParts(f);
      ReadyMeans(f);
    }
    NoAnswer(e, f);
  }

  predicate AnswersOneOf(e: State, f: State) {
    Answers(e, f, Started) || Answers(e, f, Resumed) || Answers(e, f, PausedReply)
  }

  lemma NoAnswer(e: State, f: State)
    ensures Answers(e, f, Started) || Answers(e, f, Resumed) || Answers(e, f, PausedReply) ==> AnswersOneOf(e, f)
  {
  }

  lemma AnswerEnds(e: State, f: State)
    requires AnswersOneOf(e, f)
    ensures e.handler != Ready && f.handler == Ready
    ensures Answers(e, f, Started) <==> f.reply == Started
    ensures Answers(e, f, Resumed) <==> f.reply == Resumed
    ensures Answers(e, f, PausedReply) <==> f.reply == PausedReply
  {
  }

  /** Also when a fault has been reported in the meantime. */
  lemma StartedMeans(e: State, f: State)
    requires e.handler != Ready && f.handler == Ready && Next(e, f) && InvCalls(e)
    requires Expected(e.handler, e.edge, e.p) && (f.reply == Started ==> e.handler == AwaitPipeline(StartPipeline))
    ensures f.reply == Started ==> Measures(e.p)
  {
    assert ThreadMove(e, f) || HandlerMove(e, f);
    if f.reply == Started {
      StartedByCallEnds(e, f);
    }
  }

  lemma StartedByCallEnds(e: State, f: State)
    requires Next(e, f) && f.handler == Ready && f.reply == Started && e.handler == AwaitPipeline(StartPipeline)
    ensures e.p.control == P.ControlIdle && e.p.outcome == Returned
  {
    assert ThreadMove(e, f) || HandlerMove(e, f);
    if ThreadMove(e, f) {
      ThreadsMovePipeline(e, f);
    }
    hide ThreadMove;
    hide P.ControlStep;
    hide W.CloseStep;
    hide Makes;
    hide W.OpenStep;
    hide W.BeginClose;
  }

  lemma ReadyMeans(e: State)
    requires Expected(e.handler, e.edge, e.p) && e.handler == Ready
    ensures e.edge == Measuring ==> Measures(e.p)
    ensures e.edge == EdgeState.Paused ==> Rests(e.p)
  {
  }

  // The pause, from its answer to the next call into the pipeline.

  /** Since state s nothing has been processed, and nothing is. */
  ghost predicate Kept(s: State, e: State) {
    PS.Quiet(e.p) && e.p.counts.processed == s.p.counts.processed && e.p.delivery == s.p.delivery
  }

  /** A pause that nobody ends: at most a command that will is about to make its call. */
  ghost predicate Resting(s: State, e: State) {
    && Kept(s, e) && e.p.control == P.ControlIdle
    && (e.handler == Ready || e.handler.BeginPipeline?)
    && (e.edge == EdgeState.Paused || e.edge == Faulted || e.edge == ShuttingDown)
  }

  lemma ThreadKeepsQuiet(p: P.State, q: P.State, event: P.Event)
    requires PS.InvThreads(p) && PS.Quiet(p) && (P.CaptureStep(p, q, event) || P.ProcessingStep(p, q, event))
    ensures PS.Quiet(q) && q.counts.processed == p.counts.processed && q.delivery == p.delivery
    ensures q.control == p.control
  {
    PC.ThreadsMove(p, q, event);
    hide P.CaptureStep;
    hide P.ProcessingStep;
    hide PS.Quiet;
    if P.CaptureStep(p, q, event) {
      PS.CaptureKeepsQuiet(p, q, event);
    } else {
      PS.ProcessingKeepsQuiet(p, q, event);
    }
  }

  lemma ThreadRests(s: State, e: State, f: State)
    requires PS.InvThreads(e.p) && Resting(s, e) && ThreadMove(e, f)
    ensures Resting(s, f)
  {
    ThreadsMovePipeline(e, f);
    hide ThreadMove;
    hide P.CaptureStep;
    hide P.ProcessingStep;
    hide PS.InvThreads;
    hide PS.Quiet;
    if event :| P.CaptureStep(e.p, f.p, event) || P.ProcessingStep(e.p, f.p, event) {
      ThreadKeepsQuiet(e.p, f.p, event);
    }
  }

  lemma CommandRests(s: State, e: State, f: State)
    requires Resting(s, e) && Command(e, f)
    ensures Resting(s, f)
  {
    hide PS.Quiet;
  }

  lemma BeginRests(s: State, e: State, f: State)
    requires Resting(s, e) && BeginMove(e, f)
    ensures Kept(s, f) && f.handler.AwaitPipeline?
  {
    assert P.BeginCall(e.p, f.p);
    assert PS.NotEnding(e.p.control);
    PS.CallsKeepQuiet(e.p, f.p);
    hide PS.Quiet;
  }

  lemma StepRests(s: State, e: State, f: State)
    requires Inv(e) && Resting(s, e) && Next(e, f)
    ensures Kept(s, f) && (!f.handler.AwaitPipeline? ==> Resting(s, f))
  {
    assert ThreadMove(e, f) || HandlerMove(e, f);
    assert e.handler == Ready || e.handler.BeginPipeline?;
    InvParts(e);
    hide *;
    PS.InvParts(e.p);
    if HandlerMove(e, f) {
      Dispatch(e, f);
      if e.handler == Ready {
        CommandRests(s, e, f);
        RestingKeeps(s, f);
      } else {
        BeginRests(s, e, f);
      }
    } else {
      ThreadRests(s, e, f);
      RestingKeeps(s, f);
    }
  }

  lemma RestingKeeps(s: State, e: State)
    ensures Resting(s, e) ==> Kept(s, e)
  {
    hide Kept;
  }

  /** No call into the pipeline has begun strictly between the steps i and j. */
  predicate NoCalls(run: seq<State>, i: nat, j: nat)
    requires j <= |run|
  {
    forall k :: i < k < j ==> !run[k].handler.AwaitPipeline?
  }

  lemma {:induction false} RestingFrom(run: seq<State>, i: nat, j: nat)
    requires Run(run) && i + 1 < j < |run| && Answers(run[i], run[i + 1], PausedReply) && NoCalls(run, i, j)
    ensures Resting(run[i + 1], run[j - 1])
    decreases j
  {
    hide *;
    if j == i + 2 {
      PauseBegins(run, i);
    } else {
      FewerCalls(run, i, j);
      RestingFrom(run, i, j - 1);
      RunKeepsInv(run, j - 2);
      StepOfRun(run, j - 2);
      StepRests(run[i + 1], run[j - 2], run[j - 1]);
    }
  }

  lemma FewerCalls(run: seq<State>, i: nat, j: nat)
    requires i + 2 < j <= |run| && NoCalls(run, i, j)
    ensures NoCalls(run, i, j - 1) && !run[j - 1].handler.AwaitPipeline?
  {
  }

  lemma PauseBegins(run: seq<State>, i: nat)
    requires Run(run) && i + 1 < |run| && Answers(run[i], run[i + 1], PausedReply)
    ensures Resting(run[i + 1], run[i + 1])
  {
    hide *;
    AnswersMean(run, i);
    RunKeepsInv(run, i + 1);
    InvParts(run[i + 1]);
    PausedRests(run[i], run[i + 1]);
  }

  lemma PausedRests(e: State, f: State)
    requires Answers(e, f, PausedReply) && InvCalls(f) && Rests(f.p) && f.edge == EdgeState.Paused
    ensures Resting(f, f)
  {
    hide PS.Quiet;
  }

  /**
   * From OK PAUSED until a later command makes its call into the pipeline, however long that takes and
   * whatever the threads do: nothing is processed and nothing delivered.
   */
  lemma {:induction false} PausedStaysQuiet(run: seq<State>, i: nat, j: nat)
    requires Run(run) && i + 1 < j < |run| && Answers(run[i], run[i + 1], PausedReply) && NoCalls(run, i, j)
    ensures PS.Quiet(run[j].p)
    ensures run[j].p.counts.processed == run[i + 1].p.counts.processed && run[j].p.delivery == run[i + 1].p.delivery
  {
    hide *;
    RestingFrom(run, i, j);
    RunKeepsInv(run, j - 1);
    StepOfRun(run, j - 1);
    StepRests(run[i + 1], run[j - 1], run[j]);
    KeptMeans(run[i + 1], run[j]);
  }

  lemma KeptMeans(s: State, e: State)
    requires Kept(s, e)
    ensures PS.Quiet(e.p) && e.p.counts.processed == s.p.counts.processed && e.p.delivery == s.p.delivery
  {
  }
}
