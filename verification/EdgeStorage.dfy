/** What the Edge leaves on disk: after a crash, after each close, and when it is dead. */
module EdgeStorage {
  import opened Outcomes
  import opened ResultPacket
  import opened SessionBinary
  import opened RuntimeConfigs
  import opened EdgeStates
  import opened Edge
  import opened EdgeSafety
  import opened EdgeReplies
  import EdgeSessions
  import P = Pipeline
  import W = AsyncWriter
  import PS = PipelineSafety
  import WS = AsyncWriterSafety
  import WC = AsyncWriterCalls
  import WD = AsyncWriterDisk

  /** A close is over: the session is closed and its manifest final, or the manifest's close threw. */
  predicate ClosedAs(w: W.State, status: W.Status) {
    && (w.shared.open <==> w.closing.manifestFailed) && (w.outcome == Returned ==> !w.closing.manifestFailed)
    && (w.closing.foundOpen && !w.closing.manifestFailed ==>
          w.manifest.status == if w.outcome == Returned then status else W.FaultedStatus)
  }

  /** The handler steps that have a session of the current configuration. */
  predicate HasSession(h: Handler, edge: EdgeState) {
    NeedsOpen(h, edge) || h == AwaitClose(AfterStop) || h.MarkStopped?
  }

  predicate StoreFits(h: Handler, w: W.State) {
    match h
    case AwaitClose(cause) =>
      && (if w.closing.pc == W.NotClosing then ClosedAs(w, FinalStatus(cause))
          else w.closing.status == FinalStatus(cause))
      && (cause == AfterStop ==> w.closing.foundOpen)
    case MarkStopped => w.manifest.status == W.Complete
    case MarkFailed => w.shared.open ==> w.closing.manifestFailed
    case Dead => w.shared.open ==> w.closing.manifestFailed
    case _ => true
  }

  predicate SameSize(info: SessionInfo, c: RuntimeConfig) { info.width == c.width && info.height == c.height }

  ghost predicate InvStore(e: State) {
    && WD.InvDisk(e.w) && StoreFits(e.handler, e.w)
    && (HasSession(e.handler, e.edge) ==> SameSize(e.w.disk.info, e.config))
  }

  lemma StoreParts(e: State)
    ensures InvStore(e) <==> WD.InvDisk(e.w) && StoreFits(e.handler, e.w)
                             && (HasSession(e.handler, e.edge) ==> SameSize(e.w.disk.info, e.config))
  {
    hide WD.InvDisk;
    hide StoreFits;
    hide HasSession;
  }

  lemma KeepsDisk(e: State, f: State)
    requires Inv(e) && Next(e, f) && WD.InvDisk(e.w)
    ensures WD.InvDisk(f.w)
  {
    hide *;
    InvParts(e);
    WriterMoves(e, f);
    if f.w != e.w {
      WD.NextKeepsDisk(e.w, f.w);
    }
  }

  // The threads.

  lemma ThreadsKeepManifest(e: State, f: State)
    requires ThreadMove(e, f)
    ensures f.w.manifest == e.w.manifest
  {
    hide P.CaptureStep;
    hide P.ProcessingStep;
    hide Put;
    hide Record;
  }

  lemma MovedKeepsStore(e: State, f: State)
    requires PipelineMoved(e, f) || StorageMoved(e, f)
    requires f.w.manifest == e.w.manifest && StoreFits(e.handler, e.w)
    requires HasSession(e.handler, e.edge) ==> SameSize(e.w.disk.info, e.config)
    ensures StoreFits(f.handler, f.w) && (HasSession(f.handler, f.edge) ==> SameSize(f.w.disk.info, f.config))
  {
  }

  // The handler.

  lemma CloseGoesOn(w: W.State, v: W.State)
    requires W.CloseStep(w, v)
    ensures v.closing.status == w.closing.status && v.closing.foundOpen == w.closing.foundOpen
    ensures v.disk.info == w.disk.info
    ensures w.closing.pc == W.CloseFinish ==> v.outcome == (if w.closing.error then Thrown else Returned)
    ensures w.closing.pc == W.CloseFinish ==> v.manifest == w.manifest
    ensures v.closing.pc == W.NotClosing && w.closing.pc != W.CloseFinish ==> v.closing.manifestFailed
  {
    hide W.Finalised;
  }

  lemma CloseEndsAs(w: W.State, v: W.State)
    requires WS.Inv(w) && WD.InvManifest(w) && W.CloseStep(w, v)
    ensures v.closing.status == w.closing.status && v.closing.foundOpen == w.closing.foundOpen
    ensures v.disk.info == w.disk.info
    ensures v.closing.pc == W.NotClosing ==> ClosedAs(v, w.closing.status)
  {
    CloseGoesOn(w, v);
    if w.closing.pc == W.CloseFinish && w.closing.foundOpen {
      FinishedManifest(w);
    }
    hide *;
    if v.closing.pc == W.NotClosing {
      WC.CloseOutcome(w, v);
      WC.SucceededIs(v);
      IsClosedAs(v, w.closing.status);
    }
  }

  lemma FinishedManifest(w: W.State)
    requires WD.InvManifest(w) && w.closing.pc == W.CloseFinish && w.closing.foundOpen
    ensures w.manifest.status == if w.closing.error then W.FaultedStatus else w.closing.status
  {
  }

  lemma IsClosedAs(w: W.State, status: W.Status)
    requires (w.shared.open <==> w.closing.manifestFailed) && (w.outcome == Returned ==> !w.closing.manifestFailed)
    requires w.closing.foundOpen && !w.closing.manifestFailed ==>
               w.manifest.status == if w.outcome == Returned then status else W.FaultedStatus
    ensures ClosedAs(w, status)
  {
  }

  lemma CloseMoveKeepsStore(e: State, f: State)
    requires CloseMove(e, f) && e.handler.AwaitClose? && e.w.closing.pc != W.NotClosing
    requires WS.Inv(e.w) && WD.InvManifest(e.w) && StoreFits(e.handler, e.w)
    ensures StoreFits(f.handler, f.w) && f.w.disk.info == e.w.disk.info
  {
    CloseEndsAs(e.w, f.w);
    hide W.CloseStep;
    hide WS.Inv;
    hide WD.InvManifest;
    hide ClosedAs;
  }

  lemma BeginCloseKeepsStore(e: State, f: State)
    requires BeginCloseMove(e, f) && e.w.shared.open && (e.handler == BeginClose(AfterStop) ==> e.w.disk.open)
    ensures StoreFits(f.handler, f.w) && f.w.disk.info == e.w.disk.info
  {
  }

  lemma CloseEndsKeepsStore(e: State, f: State)
    requires CloseEnds(e, f) && StoreFits(e.handler, e.w)
    ensures StoreFits(f.handler, f.w) && f.w == e.w
  {
  }

  lemma OpenKeepsStore(e: State, f: State)
    requires OpenMove(e, f) && !e.w.shared.open && EdgeFits(e.handler, e.edge)
    ensures StoreFits(f.handler, f.w) && (HasSession(f.handler, f.edge) ==> SameSize(f.w.disk.info, f.config))
  {
    hide FileHeader;
    hide W.OpenFailsLater;
  }

  lemma CallEndsKeepsStore(e: State, f: State)
    requires CallEnds(e, f)
    ensures StoreFits(f.handler, f.w)
  {
  }

  lemma MarkKeepsStore(e: State, f: State)
    requires MarkMove(e, f) && StoreFits(e.handler, e.w) && InvWriter(e)
    ensures StoreFits(f.handler, f.w)
  {
    hide Whole;
  }

  lemma OthersKeepStore(e: State, f: State)
    requires Command(e, f) || ConfigMove(e, f) || BeginMove(e, f) || CallMove(e, f)
    requires StoreFits(e.handler, e.w)
    ensures StoreFits(f.handler, f.w) && f.w == e.w
  {
    hide Makes;
    hide P.ControlStep;
  }

  /** No session begins but in OpenMove, and the configuration changes only while there is none. */
  predicate NoNewSession(e: State, f: State) {
    HasSession(f.handler, f.edge) ==> HasSession(e.handler, e.edge) && f.config == e.config
  }

  lemma CommandsOpenNone(e: State, f: State)
    requires (Command(e, f) || ConfigMove(e, f)) && EdgeFits(e.handler, e.edge)
    ensures NoNewSession(e, f)
  {
    hide Makes;
  }

  lemma CallsOpenNone(e: State, f: State)
    requires (BeginMove(e, f) || CallMove(e, f) || CallEnds(e, f)) && EdgeFits(e.handler, e.edge)
    ensures NoNewSession(e, f)
  {
    hide P.ControlStep;
    hide P.BeginStart;
    hide P.BeginPause;
    hide P.BeginResume;
    hide P.BeginStop;
  }

  lemma ClosesOpenNone(e: State, f: State)
    requires BeginCloseMove(e, f) || CloseMove(e, f) || CloseEnds(e, f) || MarkMove(e, f)
    requires EdgeFits(e.handler, e.edge)
    ensures NoNewSession(e, f)
  {
    hide W.BeginClose;
    hide W.CloseStep;
  }

  lemma SameSessionSize(e: State, f: State)
    requires HandlerMove(e, f) && !e.handler.OpenWriter? && EdgeFits(e.handler, e.edge)
    requires f.w.disk.info == e.w.disk.info
    requires HasSession(e.handler, e.edge) ==> SameSize(e.w.disk.info, e.config)
    ensures HasSession(f.handler, f.edge) ==> SameSize(f.w.disk.info, f.config)
  {
    assert || Command(e, f) || ConfigMove(e, f) || OpenMove(e, f) || BeginMove(e, f) || CallMove(e, f) || CallEnds(e, f)
           || BeginCloseMove(e, f) || CloseMove(e, f) || CloseEnds(e, f) || MarkMove(e, f);
    hide *;
    OpenIsFirst(e, f);
    if Command(e, f) || ConfigMove(e, f) {
      CommandsOpenNone(e, f);
    } else if BeginMove(e, f) || CallMove(e, f) || CallEnds(e, f) {
      CallsOpenNone(e, f);
    } else {
      ClosesOpenNone(e, f);
    }
    SizeStays(e, f);
  }

  lemma SizeStays(e: State, f: State)
    requires NoNewSession(e, f) && f.w.disk.info == e.w.disk.info
    requires HasSession(e.handler, e.edge) ==> SameSize(e.w.disk.info, e.config)
    ensures HasSession(f.handler, f.edge) ==> SameSize(f.w.disk.info, f.config)
  {
    hide HasSession;
    hide SameSize;
  }

  lemma HandlerKeepsFits(e: State, f: State)
    requires Inv(e) && HandlerMove(e, f) && InvStore(e) && !e.handler.OpenWriter?
    ensures StoreFits(f.handler, f.w) && f.w.disk.info == e.w.disk.info
  {
    assert || Command(e, f) || ConfigMove(e, f) || OpenMove(e, f) || BeginMove(e, f) || CallMove(e, f) || CallEnds(e, f)
           || BeginCloseMove(e, f) || CloseMove(e, f) || CloseEnds(e, f) || MarkMove(e, f);
    InvParts(e);
    OpenIsFirst(e, f);
    hide *;
    StoreParts(e);
    WD.DiskParts(e.w);
    WS.InvParts(e.w);
    if BeginCloseMove(e, f) {
      CloseNeedsOpen(e);
      BeginCloseKeepsStore(e, f);
    } else if CloseMove(e, f) {
      CloseInProgress(e, f);
      CloseMoveKeepsStore(e, f);
    } else if CloseEnds(e, f) {
      CloseEndsKeepsStore(e, f);
    } else if CallEnds(e, f) {
      CallEndsMoves(e, f);
      CallEndsKeepsStore(e, f);
    } else if MarkMove(e, f) {
      MarkMovesEdge(e, f);
      MarkKeepsStore(e, f);
    } else {
      OthersKeepStore(e, f);
    }
  }

  lemma OpenIsFirst(e: State, f: State)
    ensures OpenMove(e, f) ==> e.handler.OpenWriter?
    ensures BeginCloseMove(e, f) ==> e.handler.BeginClose?
  {
    hide W.OpenStep;
    hide W.BeginClose;
  }

  lemma CloseNeedsOpen(e: State)
    requires InvWriter(e) && WS.InvFlags(e.w) && e.handler.BeginClose?
    ensures e.w.shared.open && (e.handler == BeginClose(AfterStop) ==> e.w.disk.open)
  {
    hide Whole;
  }

  lemma CloseInProgress(e: State, f: State)
    requires InvCalls(e) && CloseMove(e, f)
    ensures e.handler.AwaitClose? && e.w.closing.pc != W.NotClosing
  {
    hide Belongs;
  }

  lemma HandlerKeepsStore(e: State, f: State)
    requires Inv(e) && HandlerMove(e, f) && InvStore(e)
    ensures StoreFits(f.handler, f.w) && (HasSession(f.handler, f.edge) ==> SameSize(f.w.disk.info, f.config))
  {
    hide *;
    InvParts(e);
    StoreParts(e);
    Dispatch(e, f);
    if e.handler.OpenWriter? {
      ClosedBeforeOpen(e);
      OpenKeepsStore(e, f);
    } else {
      HandlerKeepsFits(e, f);
      SameSessionSize(e, f);
    }
  }

  lemma ClosedBeforeOpen(e: State)
    requires InvWriter(e) && e.handler.OpenWriter?
    ensures !e.w.shared.open
  {
    hide Whole;
  }

  lemma NextKeepsStore(e: State, f: State)
    requires Inv(e) && Next(e, f) && InvStore(e)
    ensures InvStore(f)
  {
    assert ThreadMove(e, f) || HandlerMove(e, f);
    hide *;
    StoreParts(e);
    KeepsDisk(e, f);
    if HandlerMove(e, f) {
      HandlerKeepsStore(e, f);
    } else {
      ThreadMoves(e, f);
      ThreadsKeepManifest(e, f);
      MovedKeepsStore(e, f);
    }
    StoreParts(f);
  }

  lemma BootedStore(e: State)
    requires Booted(e)
    ensures InvStore(e)
  {
    hide *;
    BootedParts(e);
    WD.FreshHasDisk(e.w);
    IdleFits(e.w);
    StoreParts(e);
  }

  lemma IdleFits(w: W.State)
    ensures StoreFits(Ready, w) && !HasSession(Ready, Idle)
  {
  }

  lemma {:induction false} RunKeepsStore(run: seq<State>, i: nat)
    requires Run(run) && i < |run|
    ensures InvStore(run[i])
    decreases i
  {
    hide *;
    if i == 0 {
      EdgeSessions.FirstIsBooted(run);
      BootedStore(run[0]);
    } else {
      RunKeepsStore(run, i - 1);
      RunKeepsInv(run, i - 1);
      StepOfRun(run, i - 1);
      NextKeepsStore(run[i - 1], run[i]);
    }
  }

  // What follows.

  /** OK STOPPED: the manifest says "complete", and the session file has the size of the configured images. */
  lemma {:induction false} StoppedIsComplete(run: seq<State>, i: nat)
    requires Run(run) && i + 1 < |run| && Answers(run[i], run[i + 1], Stopped)
    ensures var f := run[i + 1];
            && f.w.manifest.status == W.Complete
            && f.w.disk.info.width == f.config.width && f.w.disk.info.height == f.config.height
  {
    hide *;
    RunKeepsStore(run, i);
    StepOfRun(run, i);
    StoreParts(run[i]);
    OnlyMarkStoppedAnswers(run[i], run[i + 1]);
    MarkStoppedFits(run[i]);
  }

  lemma MarkStoppedFits(e: State)
    requires e.handler == MarkStopped && StoreFits(e.handler, e.w)
    requires HasSession(e.handler, e.edge) ==> SameSize(e.w.disk.info, e.config)
    ensures e.w.manifest.status == W.Complete
    ensures e.w.disk.info.width == e.config.width && e.w.disk.info.height == e.config.height
  {
  }

  /**
   * Every close of every command: unless the manifest's close threw, it leaves no session, and the manifest of a
   * session whose file it found open says "complete" after STOP, "interrupted" after a shutdown and "faulted"
   * otherwise or if the close throws.
   */
  lemma {:induction false} ClosesAs(run: seq<State>, i: nat)
    requires Run(run) && i + 1 < |run| && CloseEnds(run[i], run[i + 1])
    ensures run[i].w.shared.open <==> run[i].w.closing.manifestFailed
    ensures var w := run[i].w;
            w.closing.foundOpen && !w.closing.manifestFailed ==>
              w.manifest.status ==
                if w.outcome == Returned && run[i].handler == AwaitClose(AfterStop) then W.Complete
                else if w.outcome == Returned && run[i].handler == AwaitClose(AfterShutdown) then W.Interrupted
                else W.FaultedStatus
  {
    RunKeepsStore(run, i);
    assert run[i].handler.AwaitClose? && run[i].w.closing.pc == W.NotClosing;
    hide Run;
    hide WD.InvDisk;
    hide CloseEnds;
  }

  /** A dead Edge has a stopped pipeline without threads, and no session unless its manifest could not be closed. */
  lemma {:induction false} DeadIsClosed(run: seq<State>, i: nat)
    requires Run(run) && i < |run| && run[i].handler == Dead
    ensures run[i].p.gate.state == P.Stopped && PS.NoThreads(run[i].p)
    ensures run[i].w.shared.open ==> run[i].w.closing.manifestFailed
  {
    hide *;
    RunKeepsStore(run, i);
    RunKeepsInv(run, i);
    InvParts(run[i]);
    PS.InvParts(run[i].p);
    StoreParts(run[i]);
    DeadIsStopped(run[i]);
  }

  lemma DeadIsStopped(e: State)
    requires (e.handler == Dead || e.handler == MarkFailed) && InvCalls(e) && PS.InvThreads(e.p)
    requires StoreFits(e.handler, e.w)
    ensures e.p.gate.state == P.Stopped && PS.NoThreads(e.p) && (e.w.shared.open ==> e.w.closing.manifestFailed)
  {
    hide Belongs;
  }

  /**
   * A START or STOP that fails after the handler has begun its work leaves a faulted Edge with a stopped pipeline,
   * and no session unless its manifest could not be closed.
   */
  lemma {:induction false} FailureIsClosed(run: seq<State>, i: nat)
    requires Run(run) && i + 1 < |run| && run[i].handler == MarkFailed && MarkMove(run[i], run[i + 1])
    ensures var f := run[i + 1]; Answers(run[i], f, ErrorReply) && f.edge == Faulted
    ensures var f := run[i + 1]; f.p.gate.state == P.Stopped && PS.NoThreads(f.p)
    ensures var f := run[i + 1]; f.w.shared.open ==> f.w.closing.manifestFailed
  {
    hide *;
    RunKeepsStore(run, i);
    RunKeepsInv(run, i);
    InvParts(run[i]);
    PS.InvParts(run[i].p);
    StoreParts(run[i]);
    DeadIsStopped(run[i]);
    MarkFailedAnswers(run[i], run[i + 1]);
  }

  lemma MarkFailedAnswers(e: State, f: State)
    requires e.handler == MarkFailed && MarkMove(e, f) && EdgeFits(e.handler, e.edge)
    ensures Answers(e, f, ErrorReply) && f.edge == Faulted && f.p == e.p && f.w == e.w
  {
  }

  /**
   * Wherever the machine stops, the file on disk scans to a prefix of what the writer accepted in this session; it
   * lacks at most as many of the recorded results as the worker writes between two flushes.
   */
  lemma {:induction false} CrashLosesOnlyTheEnd(run: seq<State>, i: nat) returns (k: nat)
    requires Run(run) && i < |run| && run[i].w.history.begun && FILE_HEADER_SIZE <= run[i].w.disk.durable
    ensures var w := run[i].w;
            && w.disk.durable <= |w.disk.stream.bytes|
            && |w.history.recorded| - w.config.flushEvery <= k <= |w.history.accepted|
    ensures var w := run[i].w; var results := w.history.accepted[..k]; var boundary := |File(w.disk.info, results)|;
            ScanFile(WS.OnDisk(w.disk)) == Done(Scan(w.disk.info, results, boundary, w.disk.durable != boundary))
    ensures var e := run[i];
            Linked(e.handler, e.edge, e.p.control) && e.callbacks.result ==>
              e.w.history.accepted == e.p.delivery.accepted
  {
    hide *;
    RunKeepsInv(run, i);
    RunKeepsStore(run, i);
    InvParts(run[i]);
    StoreParts(run[i]);
    WD.DiskParts(run[i].w);
    LinkedMeans(run[i]);
    k := WD.Recovered(run[i].w);
  }

  lemma LinkedMeans(e: State)
    requires InvLink(e)
    ensures Linked(e.handler, e.edge, e.p.control) && e.callbacks.result ==>
            e.w.history.accepted == e.p.delivery.accepted
  {
  }
}
