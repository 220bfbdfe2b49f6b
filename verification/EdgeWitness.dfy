/** Runs of the Edge that show which of its answers can be had, from every booted state. */
module EdgeWitness {
  import opened Outcomes
  import opened ResultPacket
  import opened SessionBinary
  import opened RuntimeConfigs
  import opened EdgeStates
  import opened Edge
  import opened EdgeSafety
  import opened EdgeReplies
  import P = Pipeline
  import W = AsyncWriter
  import FramePools
  import WS = AsyncWriterSafety
  import WC = AsyncWriterCalls

  // Paths.

  ghost predicate Path(run: seq<State>) {
    run != [] && forall i :: 0 <= i < |run| - 1 ==> Next(run[i], run[i + 1])
  }

  ghost predicate Leads(run: seq<State>, e: State, f: State) {
    Path(run) && run[0] == e && run[|run| - 1] == f
  }

  ghost predicate Reaches(e: State, f: State) { exists run :: Leads(run, e, f) }

  lemma Stays(e: State)
    ensures Reaches(e, e)
  {
    hide Next;
    assert Leads([e], e, e);
  }

  lemma Steps(s: State, e: State, f: State)
    requires Reaches(s, e) && Next(e, f)
    ensures Reaches(s, f)
  {
    hide Next;
    var run :| Leads(run, s, e);
    var longer := run + [f];
    assert Leads(longer, s, f);
  }

  lemma Handles(s: State, e: State, f: State)
    requires Reaches(s, e)
    requires || Command(e, f) || ConfigMove(e, f) || OpenMove(e, f) || BeginMove(e, f) || CallMove(e, f)
             || CallEnds(e, f)
             || BeginCloseMove(e, f) || CloseMove(e, f) || CloseEnds(e, f) || MarkMove(e, f)
    ensures Reaches(s, f)
  {
    HandlerNext(e, f);
    hide *;
    Steps(s, e, f);
  }

  lemma HandlerNext(e: State, f: State)
    requires || Command(e, f) || ConfigMove(e, f) || OpenMove(e, f) || BeginMove(e, f) || CallMove(e, f)
             || CallEnds(e, f)
             || BeginCloseMove(e, f) || CloseMove(e, f) || CloseEnds(e, f) || MarkMove(e, f)
    ensures Next(e, f)
  {
    assert HandlerMove(e, f);
    hide ThreadMove;
    hide HandlerMove;
  }

  lemma Captures(s: State, e: State, q: P.State)
    requires Reaches(s, e) && P.CaptureStep(e.p, q, P.Silent)
    ensures Reaches(s, e.(p := q))
  {
    hide P.CaptureStep;
    hide Reaches;
    hide HandlerMove;
    var f := e.(p := q);
    assert CaptureMove(e, f);
    Steps(s, e, f);
  }

  lemma Shows(s: State, e: State, q: P.State, event: P.Event)
    requires Reaches(s, e) && P.ProcessingStep(e.p, q, event) && Delivered(e, e.(p := q), event)
    requires event.FaultReported? ==> !e.callbacks.fault
    ensures Reaches(s, e.(p := q))
  {
    hide P.ProcessingStep;
    hide Delivered;
    hide Reaches;
    hide HandlerMove;
    var f := e.(p := q);
    assert ProcessingMove(e, f);
    Steps(s, e, f);
  }

  lemma Processes(s: State, e: State, q: P.State)
    requires Reaches(s, e) && P.ProcessingStep(e.p, q, P.Silent)
    ensures Reaches(s, e.(p := q))
  {
    hide P.ProcessingStep;
    hide Reaches;
    Shows(s, e, q, P.Silent);
  }

  lemma Calls(s: State, e: State, q: P.State)
    requires Reaches(s, e) && P.ControlStep(e.p, q)
    ensures Reaches(s, e.(p := q))
  {
    hide P.ControlStep;
    hide Reaches;
    Handles(s, e, e.(p := q));
  }

  lemma Works(s: State, e: State, v: W.State)
    requires Reaches(s, e) && W.WorkerStep(e.w, v, false)
    ensures Reaches(s, e.(w := v))
  {
    hide W.WorkerStep;
    hide Reaches;
    hide HandlerMove;
    var f := e.(w := v);
    assert WorkerMove(e, f);
    Steps(s, e, f);
  }

  lemma ClosesOn(s: State, e: State, v: W.State)
    requires Reaches(s, e) && W.CloseStep(e.w, v)
    ensures Reaches(s, e.(w := v))
  {
    hide W.CloseStep;
    hide Reaches;
    Handles(s, e, e.(w := v));
  }

  lemma RunTo(s: State, e: State, f: State) returns (run: seq<State>)
    requires Booted(s) && Reaches(s, e) && Next(e, f)
    ensures Run(run) && |run| > 1 && run[0] == s && run[|run| - 2] == e && run[|run| - 1] == f
  {
    hide Next;
    hide Booted;
    var path :| Leads(path, s, e);
    run := path + [f];
  }

  // START.

  predicate Startable(e: State) {
    && e.handler == Ready && e.edge == Idle
    && e.p.gate.state == P.Stopped && e.p.control == P.ControlIdle && |e.p.pool.available| == e.p.poolSize
    && !e.w.shared.open && !e.w.disk.open && e.w.closing.pc == W.NotClosing
    && e.config.width > 0 && e.config.height > 0
  }

  function Session(c: RuntimeConfig): SessionInfo { SessionInfo(c.width, c.height, 0, 0) }

  function StartedPipeline(p: P.State): P.State {
    P.Prepared(p).(gate := P.Gate(P.Running, false, false, false, p.gate.mutex), capture := P.CaptureTop,
                   processing := P.ProcessingTop, control := P.ControlIdle, outcome := Returned)
  }

  function OpenedEdge(e: State): State {
    e.(w := W.Opened(e.w, Session(e.config)), edge := Measuring, handler := AwaitPipeline(StartPipeline))
  }

  function StartedEdge(e: State): State {
    OpenedEdge(e).(p := StartedPipeline(e.p), handler := Ready, reply := Started)
  }

  lemma OpensWriter(s: State, e: State)
    requires Reaches(s, e) && Startable(e)
    ensures Reaches(s, e.(w := W.Opened(e.w, Session(e.config)), handler := MarkMeasuring))
  {
    hide Reaches;
    var e1 := e.(handler := OpenWriter);
    assert Command(e, e1);
    Handles(s, e, e1);
    hide Command;
    var w := W.Opened(e.w, Session(e.config));
    var e2 := e1.(w := w, handler := MarkMeasuring);
    assert W.OpenStep(e1.w, w, Session(e.config)) && e2 == AfterOpen(e1.(w := w));
    assert OpenMove(e1, e2);
    Handles(s, e1, e2);
  }

  lemma Opens(s: State, e: State)
    requires Reaches(s, e) && Startable(e)
    ensures Reaches(s, OpenedEdge(e).(p := e.p.(gate := e.p.gate.(state := P.Starting), control := P.StartPrepare)))
  {
    hide Reaches;
    OpensWriter(s, e);
    var e2 := e.(w := W.Opened(e.w, Session(e.config)), handler := MarkMeasuring);
    var e3 := e2.(edge := Measuring, handler := BeginPipeline(StartPipeline));
    assert MarkMove(e2, e3);
    Handles(s, e2, e3);
    var e4 := e3.(p := e.p.(gate := e.p.gate.(state := P.Starting), control := P.StartPrepare),
                  handler := AwaitPipeline(StartPipeline));
    assert BeginMove(e3, e4);
    Handles(s, e3, e4);
  }

  lemma Starts(s: State, e: State)
    requires Reaches(s, e) && Startable(e)
    ensures Reaches(s, StartedEdge(e))
  {
    Opens(s, e);
    hide Reaches;
    var p := e.p.(gate := e.p.gate.(state := P.Starting), control := P.StartPrepare);
    var f := OpenedEdge(e).(p := p);
    var p1 := P.Prepared(p);
    Calls(s, f, p1);
    var p2 := p1.(capture := P.CaptureTop, control := P.StartProcessing);
    Calls(s, f.(p := p1), p2);
    var p3 := p2.(processing := P.ProcessingTop, control := P.StartDone);
    Calls(s, f.(p := p2), p3);
    var p4 := StartedPipeline(e.p);
    Calls(s, f.(p := p3), p4);
    var g := f.(p := p4);
    assert CallEnds(g, StartedEdge(e));
    Handles(s, g, StartedEdge(e));
  }

  lemma BootStarts(e: State)
    requires Booted(e)
    ensures Startable(e) && P.Fresh(e.p) && Makes(e.config, e.p) && e.callbacks == ATTACHED && e.w.worker.WorkerAbsent?
  {
    FramePools.AllBuffersSize(e.p.poolSize);
    assert |multiset(e.p.pool.available)| == |e.p.pool.available|;
    hide FramePools.AllBuffers;
  }

  /** Such a state exists. */
  lemma {:induction false} Boots() returns (boot: State)
    ensures Booted(boot)
  {
    var c := RuntimeConfig(64, 64, 1.0, 2, 1, 0, 4, 1);
    var p := FreshPipeline();
    var w := WC.FreshWriter(W.Config(1, 1), Session(c));
    assert W.Fresh(w);
    boot := State(p, w, Idle, c, c, ATTACHED, Ready, NoReply);
    hide P.Fresh;
    hide W.Fresh;
  }

  lemma FreshPipeline() returns (p: P.State)
    ensures P.Fresh(p) && p.capacity == 1 && p.poolSize == 4
  {
    p := P.State(
      1, 4, P.Gate(P.Stopped, false, false, false, P.Free), P.Pool([0, 1, 2, 3], false), P.Queue([], false),
      P.NO_COUNTS, P.NO_ORDER, P.NO_DELIVERY, P.NO_LOSSES, P.CaptureAbsent, P.ProcessingAbsent, P.ControlIdle,
      Returned);
    FourBuffers();
    hide FramePools.AllBuffers;
  }

  lemma FourBuffers()
    ensures FramePools.AllBuffers(4) == multiset([0, 1, 2, 3])
  {
    assert FramePools.AllBuffers(1) == multiset{0};
    assert FramePools.AllBuffers(2) == multiset{0, 1};
    assert FramePools.AllBuffers(3) == multiset{0, 1, 2};
  }

  // The end of a pipeline run: both threads are at the top of their loops, or have ended.

  predicate AtTop(p: P.State) {
    && p.gate.state != P.Stopped && p.control == P.ControlIdle && p.queue.items == []
    && (p.capture == P.CaptureTop || p.capture == P.CaptureEnded)
    && (p.processing == P.ProcessingTop || p.processing == P.ProcessingEnded)
  }

  function HaltedPipeline(p: P.State): P.State {
    p.(gate := p.gate.(state := P.Stopped, stopRequested := true, paused := false), pool := p.pool.(closed := true),
       queue := P.Queue([], true), capture := P.CaptureAbsent, processing := P.ProcessingAbsent,
       control := P.ControlIdle, outcome := Returned)
  }

  /** Everything is told to stop; a fault stays visible until the threads are joined. */
  function Told(p: P.State): P.State {
    p.(gate := p.gate.(state := if p.gate.state == P.Faulted then P.Faulted else P.Stopping,
                       stopRequested := true, paused := false),
       pool := p.pool.(closed := true), queue := P.Queue([], true), control := P.StopJoinCapture)
  }

  lemma HaltBegins(s: State, e: State, call: PipelineCall)
    requires Reaches(s, e) && e.handler == BeginPipeline(call) && Stops(call) && AtTop(e.p)
    ensures var gate := Told(e.p).gate.(paused := e.p.gate.paused);
            Reaches(s, e.(p := e.p.(gate := gate, control := P.StopUnpause), handler := AwaitPipeline(call)))
  {
    hide Reaches;
    var p := e.p;
    var p1 := p.(control := P.StopMark(p.gate.state == P.Faulted));
    var f := e.(p := p1, handler := AwaitPipeline(call));
    assert BeginMove(e, f);
    Handles(s, e, f);
    var p2 := p.(gate := p.gate.(state := Told(p).gate.state), control := P.StopRequest);
    Calls(s, f, p2);
    Calls(s, f.(p := p2), p2.(gate := P.Request(p2.gate), control := P.StopUnpause));
  }

  lemma HaltTells(s: State, e: State)
    requires Reaches(s, e) && e.p.control == P.StopUnpause && e.p.queue.items == []
    ensures Reaches(s, e.(p := e.p.(gate := e.p.gate.(paused := false), pool := e.p.pool.(closed := true),
                                    queue := P.Queue([], true), control := P.StopJoinCapture)))
  {
    hide Reaches;
    var p1 := e.p.(gate := e.p.gate.(paused := false), control := P.StopQueue);
    Calls(s, e, p1);
    var p2 := p1.(queue := P.Queue([], true), control := P.StopPool);
    assert p1.pool.available + [] == p1.pool.available;
    Calls(s, e.(p := p1), p2);
    Calls(s, e.(p := p2), p2.(pool := p2.pool.(closed := true), control := P.StopJoinCapture));
  }

  /** The threads see the request to stop, and are joined. */
  lemma HaltEnds(s: State, e: State)
    requires Reaches(s, e) && e.p.gate.stopRequested && e.p.control == P.StopJoinCapture
    requires e.p.capture == P.CaptureTop || e.p.capture == P.CaptureEnded
    requires e.p.processing == P.ProcessingTop || e.p.processing == P.ProcessingEnded
    ensures Reaches(s, e.(p := e.p.(gate := e.p.gate.(state := P.Stopped), capture := P.CaptureAbsent,
                                    processing := P.ProcessingAbsent, control := P.ControlIdle, outcome := Returned)))
  {
    hide Reaches;
    var p1 := e.p.(capture := P.CaptureEnded);
    if e.p.capture == P.CaptureTop {
      Captures(s, e, p1);
    }
    assert e.p.capture == P.CaptureEnded ==> p1 == e.p;
    var p2 := p1.(processing := P.ProcessingEnded);
    if e.p.processing == P.ProcessingTop {
      Processes(s, e.(p := p1), p2);
    }
    assert e.p.processing == P.ProcessingEnded ==> p2 == p1;
    var p3 := p2.(capture := P.CaptureAbsent, control := P.StopJoinProcessing);
    Calls(s, e.(p := p2), p3);
    var p4 := p3.(processing := P.ProcessingAbsent, control := P.StopDone);
    Calls(s, e.(p := p3), p4);
    Calls(s, e.(p := p4), p4.(gate := p4.gate.(state := P.Stopped), control := P.ControlIdle, outcome := Returned));
  }

  lemma Halts(s: State, e: State, call: PipelineCall)
    requires Reaches(s, e) && e.handler == BeginPipeline(call) && Stops(call) && AtTop(e.p)
    ensures Reaches(s, e.(p := HaltedPipeline(e.p), handler := AwaitPipeline(call)))
  {
    hide Reaches;
    HaltBegins(s, e, call);
    var gate := Told(e.p).gate.(paused := e.p.gate.paused);
    HaltTells(s, e.(p := e.p.(gate := gate, control := P.StopUnpause), handler := AwaitPipeline(call)));
    HaltEnds(s, e.(p := Told(e.p), handler := AwaitPipeline(call)));
  }

  // The close of a session whose worker has nothing to do.

  function Joining(w: W.State, status: W.Status): W.State {
    w.(shared := w.shared.(accepting := false, stopRequested := true), worker := W.WorkerAbsent,
       closing := W.Closing(W.CloseFlush, status, false, w.disk.open, false, false))
  }

  lemma Joins(s: State, e: State, cause: CloseCause)
    requires Reaches(s, e) && e.handler == BeginClose(cause) && e.w.closing.pc == W.NotClosing
    requires e.w.shared.open && !e.w.shared.faulted && e.w.shared.queue == [] && e.w.worker.WorkerWait?
    ensures Reaches(s, e.(w := Joining(e.w, FinalStatus(cause)), handler := AwaitClose(cause)))
  {
    hide Reaches;
    var w, status := e.w, FinalStatus(cause);
    var w1 := w.(shared := w.shared.(accepting := false, stopRequested := true),
                 closing := W.Closing(W.CloseJoin, status, false, w.disk.open, false, false));
    var f := e.(w := w1, handler := AwaitClose(cause));
    assert BeginCloseMove(e, f);
    Handles(s, e, f);
    var w2 := w1.(worker := W.WorkerEnded);
    Works(s, f, w2);
    var w3 := w2.(worker := W.WorkerAbsent, closing := w2.closing.(pc := W.CloseReadError));
    ClosesOn(s, f.(w := w2), w3);
    ClosesOn(s, f.(w := w3), Joining(w, status));
  }

  /** The flush fails, or writes everything; then the file is closed. */
  function Flushing(w: W.State, failed: bool): W.State {
    var d := w.disk;
    w.(disk := d.(open := false, stream := d.stream.(good := d.stream.good && !failed),
                  durable := if failed then d.durable else |d.stream.bytes|),
       closing := w.closing.(pc := W.CloseManifest, error := w.closing.error || failed, flushFailed := failed))
  }

  lemma Flushes(s: State, e: State, failed: bool)
    requires Reaches(s, e) && e.w.closing.pc == W.CloseFlush && !e.w.closing.flushFailed
    requires e.w.disk.open && e.w.disk.stream.good && e.w.disk.durable <= |e.w.disk.stream.bytes|
    ensures Reaches(s, e.(w := Flushing(e.w, failed)))
  {
    hide Reaches;
    var d, c := e.w.disk, e.w.closing;
    var w1 := e.w.(disk := if failed then d.(stream := d.stream.(good := false)) else d.(durable := |d.stream.bytes|),
                   closing := c.(pc := W.CloseBinary, error := c.error || failed, flushFailed := failed));
    assert W.Flushed(d, w1.disk, failed);
    ClosesOn(s, e, w1);
    ClosesOn(s, e.(w := w1), Flushing(e.w, failed));
  }

  function Finishing(w: W.State): W.State {
    w.(shared := w.shared.(open := false, queue := []), manifest := w.manifest.(present := false, sessionOpen := false,
       status := if w.closing.error then W.FaultedStatus else w.closing.status),
       history := w.history.(abandoned := w.history.abandoned + w.shared.queue),
       closing := w.closing.(pc := W.NotClosing), outcome := if w.closing.error then Thrown else Returned)
  }

  lemma Finishes(s: State, e: State)
    requires Reaches(s, e) && e.w.closing.pc == W.CloseManifest && e.w.manifest.present && e.w.manifest.sessionOpen
    ensures Reaches(s, e.(w := Finishing(e.w)))
  {
    hide Reaches;
    var m, status := e.w.manifest, if e.w.closing.error then W.FaultedStatus else e.w.closing.status;
    var n := m.(sessionOpen := false, status := status);
    assert W.Finalised(m, n, status, false);
    var w1 := e.w.(manifest := n.(present := false), closing := e.w.closing.(pc := W.CloseFinish));
    ClosesOn(s, e, w1);
    ClosesOn(s, e.(w := w1), Finishing(e.w));
  }

  // STOP with a flush that fails, and the RESET after it.

  function StoppingEdge(e: State, call: PipelineCall, cause: CloseCause): State {
    e.(p := HaltedPipeline(e.p), w := Joining(e.w, FinalStatus(cause)), handler := AwaitClose(cause))
  }

  /** An open session whose worker has nothing to do. */
  predicate Resting(w: W.State) {
    && w.shared.open && !w.shared.faulted && w.shared.queue == [] && w.worker.WorkerWait?
    && w.closing.pc == W.NotClosing && w.disk.open && w.disk.stream.good && w.disk.durable <= |w.disk.stream.bytes|
    && w.manifest.present && w.manifest.sessionOpen
  }

  /** STOP or RESET, from its acceptance to the flush. */
  lemma Stopping(s: State, e: State, call: PipelineCall, cause: CloseCause)
    requires Reaches(s, e) && e.handler == BeginPipeline(call) && AtTop(e.p) && Resting(e.w)
    requires (call == StopPipeline && cause == AfterStop) || (call == StopReset && cause == AfterReset)
    ensures Reaches(s, StoppingEdge(e, call, cause))
  {
    Halts(s, e, call);
    hide Reaches;
    var f := e.(p := HaltedPipeline(e.p), handler := AwaitPipeline(call));
    assert CallEnds(f, f.(handler := BeginClose(cause)));
    Handles(s, f, f.(handler := BeginClose(cause)));
    Joins(s, f.(handler := BeginClose(cause)), cause);
  }

  lemma StopCommand(s: State, e: State)
    requires Reaches(s, e) && e.handler == Ready && e.edge == Measuring
    ensures Reaches(s, e.(handler := BeginPipeline(StopPipeline)))
  {
    hide Reaches;
    var f := e.(handler := BeginPipeline(StopPipeline));
    assert Command(e, f);
    Handles(s, e, f);
  }

  lemma StartedIsResting(e: State)
    requires Startable(e)
    ensures AtTop(StartedEdge(e).p) && Resting(StartedEdge(e).w)
  {
    hide FileHeader;
  }

  /** The state in which a STOP whose flush failed is about to be answered. */
  function FlushFailed(e: State): State {
    var f := StoppingEdge(StartedEdge(e), StopPipeline, AfterStop);
    f.(w := Finishing(Flushing(f.w, true)), handler := MarkFailed)
  }

  lemma FlushFails(s: State, e: State)
    requires Reaches(s, e) && Startable(e)
    ensures Reaches(s, FlushFailed(e))
  {
    hide Reaches;
    Starts(s, e);
    StartedIsResting(e);
    StopFailsToFlush(s, StartedEdge(e));
  }

  lemma StopFailsToFlush(s: State, g: State)
    requires Reaches(s, g) && g.handler == Ready && g.edge == Measuring && AtTop(g.p) && Resting(g.w)
    ensures var f := StoppingEdge(g, StopPipeline, AfterStop);
            Reaches(s, f.(w := Finishing(Flushing(f.w, true)), handler := MarkFailed))
  {
    hide Reaches;
    StopCommand(s, g);
    Stopping(s, g.(handler := BeginPipeline(StopPipeline)), StopPipeline, AfterStop);
    var f := StoppingEdge(g, StopPipeline, AfterStop);
    Flushes(s, f, true);
    Finishes(s, f.(w := Flushing(f.w, true)));
    var h := f.(w := Finishing(Flushing(f.w, true)));
    assert CloseEnds(h, h.(handler := MarkFailed));
    Handles(s, h, h.(handler := MarkFailed));
  }

  /** RESET, accepted by a stopped pipeline without a session: the states up to its answer. */
  function QuickReset(e: State): seq<State> {
    var stop := e.p.(outcome := Returned);
    [e.(handler := BeginPipeline(StopReset)),
     e.(p := stop, handler := AwaitPipeline(StopReset)),
     e.(p := stop, handler := MarkReset),
     e.(p := stop, edge := Idle, handler := Ready, reply := Reset)]
  }

  lemma QuickResetSteps(e: State)
    requires e.handler == Ready && e.edge == Faulted && e.p.gate.state == P.Stopped && e.p.control == P.ControlIdle
    requires !e.w.shared.open
    ensures var r := QuickReset(e); Next(e, r[0]) && Next(r[0], r[1]) && Next(r[1], r[2]) && Next(r[2], r[3])
    ensures var r := QuickReset(e); CallEnds(r[1], r[2]) && Answers(r[2], r[3], Reset) && r[3].w == e.w
  {
    hide Next;
    var r := QuickReset(e);
    assert Command(e, r[0]);
    HandlerNext(e, r[0]);
    assert BeginMove(r[0], r[1]);
    HandlerNext(r[0], r[1]);
    assert CallEnds(r[1], r[2]);
    HandlerNext(r[1], r[2]);
    assert MarkMove(r[2], r[3]);
    HandlerNext(r[2], r[3]);
  }

  /**
   * A storage fault that the next RESET acknowledges at once: STOP's own flush fails, which closes the session all
   * the same.
   */
  lemma {:induction false} ResetAfterFailedFlush(boot: State) returns (run: seq<State>, i: nat)
    requires Booted(boot)
    ensures Run(run) && run[0] == boot && 0 < i && i + 5 == |run|
    ensures Answers(run[i - 1], run[i], ErrorReply) && run[i - 1].w.closing.flushFailed && run[i].edge == Faulted
    ensures run[i + 1].handler == BeginPipeline(StopReset) && Resets(run, i + 2, i + 3)
    ensures Answers(run[i + 3], run[i + 4], Reset)
  {
    hide Next;
    hide CallEnds;
    hide FlushFailed;
    Stays(boot);
    BootStarts(boot);
    FlushFails(boot, boot);
    hide Startable;
    var m := FlushFailed(boot);
    var a := m.(edge := Faulted, handler := Ready, reply := ErrorReply);
    StopAnswers(boot);
    QuickResetSteps(a);
    var path :| Leads(path, boot, m);
    run, i := AddReset(path, boot, m, a);
  }

  lemma AddReset(path: seq<State>, s: State, m: State, a: State) returns (run: seq<State>, i: nat)
    requires Booted(s) && Leads(path, s, m) && Next(m, a) && m.handler != Ready && a.handler == Ready
    requires var r := QuickReset(a); Next(a, r[0]) && Next(r[0], r[1]) && Next(r[1], r[2]) && Next(r[2], r[3])
    requires var r := QuickReset(a); CallEnds(r[1], r[2]) && Answers(r[2], r[3], Reset)
    ensures Run(run) && run[0] == s && 0 < i && i + 5 == |run| && run[i - 1] == m && run[i] == a
    ensures run[i + 1].handler == BeginPipeline(StopReset) && Resets(run, i + 2, i + 3)
    ensures Answers(run[i + 3], run[i + 4], Reset)
  {
    hide Next;
    hide CallEnds;
    hide Booted;
    var r := QuickReset(a);
    i := |path|;
    run := path + [a] + r;
    assert run[i - 1] == m && run[i] == a;
    assert forall k :: 0 <= k < 4 ==> run[i + 1 + k] == r[k];
  }

  lemma StopAnswers(e: State)
    requires Startable(e)
    ensures var m := FlushFailed(e); var a := m.(edge := Faulted, handler := Ready, reply := ErrorReply);
            && Next(m, a) && m.handler == MarkFailed && m.w.closing.flushFailed && !m.w.shared.open
            && m.p.gate.state == P.Stopped && m.p.control == P.ControlIdle
  {
    hide Next;
    var m := FlushFailed(e);
    var a := m.(edge := Faulted, handler := Ready, reply := ErrorReply);
    assert MarkMove(m, a);
    HandlerNext(m, a);
  }

  // RESET with a manifest that cannot be closed, after a fault of the camera.

  function FaultedEdge(e: State): State {
    var f := StartedEdge(e);
    f.(p := f.p.(gate := f.p.gate.(state := P.Faulted, stopRequested := true), capture := P.CaptureEnded),
       edge := Faulted)
  }

  lemma CameraFails(s: State, e: State)
    requires Reaches(s, e) && Startable(e) && e.callbacks.fault
    ensures Reaches(s, FaultedEdge(e))
  {
    Starts(s, e);
    CaptureFails(s, StartedEdge(e));
  }

  lemma CaptureFails(s: State, f: State)
    requires Reaches(s, f) && f.p.capture == P.CaptureTop && !f.p.gate.stopRequested && f.callbacks.fault
    requires f.edge == Measuring
    ensures var p := f.p.(gate := f.p.gate.(state := P.Faulted, stopRequested := true), capture := P.CaptureEnded);
            Reaches(s, f.(p := p, edge := Faulted))
  {
    hide Reaches;
    var p1 := f.p.(capture := P.CaptureAcquire);
    Captures(s, f, p1);
    var p2 := f.p.(capture := P.CaptureFault);
    Captures(s, f.(p := p1), p2);
    var p3 := p2.(gate := P.Fail(p2.gate), capture := P.CaptureFaultStop);
    Captures(s, f.(p := p2), p3);
    var p4 := p3.(gate := P.Request(p3.gate), capture := P.CaptureFaultReport);
    Captures(s, f.(p := p3), p4);
    var g, h := f.(p := p4), f.(p := p4.(capture := P.CaptureEnded), edge := Faulted);
    assert P.CaptureStep(p4, h.p, P.FaultReported);
    assert CaptureMove(g, h);
    hide HandlerMove;
    Steps(s, g, h);
  }

  /** The state in which a RESET whose close could not write the manifest is about to be answered. */
  function ManifestFailed(e: State): State {
    var f := StoppingEdge(FaultedEdge(e), StopReset, AfterReset);
    var w := Flushing(f.w, false);
    f.(w := w.(closing := w.closing.(pc := W.NotClosing, manifestFailed := true), outcome := Thrown))
  }

  lemma ManifestFails(s: State, e: State)
    requires Reaches(s, e) && Startable(e) && e.callbacks.fault
    ensures Reaches(s, ManifestFailed(e))
  {
    hide Reaches;
    CameraFails(s, e);
    StartedIsResting(e);
    ResetFailsToFinalise(s, FaultedEdge(e));
  }

  lemma ResetFailsToFinalise(s: State, g: State)
    requires Reaches(s, g) && g.handler == Ready && g.edge == Faulted && AtTop(g.p) && Resting(g.w)
    ensures var f := StoppingEdge(g, StopReset, AfterReset); var w := Flushing(f.w, false);
            Reaches(s,
                f.(w := w.(closing := w.closing.(pc := W.NotClosing, manifestFailed := true), outcome := Thrown)))
  {
    hide Reaches;
    var h := g.(handler := BeginPipeline(StopReset));
    assert Command(g, h);
    Handles(s, g, h);
    hide Command;
    Stopping(s, h, StopReset, AfterReset);
    var f := StoppingEdge(h, StopReset, AfterReset);
    Flushes(s, f, false);
    var w := Flushing(f.w, false);
    var v := w.(closing := w.closing.(pc := W.NotClosing, manifestFailed := true), outcome := Thrown);
    assert W.Finalised(w.manifest, v.manifest, W.FaultedStatus, true);
    ClosesOn(s, f.(w := w), v);
  }

  /** A RESET that is answered with the storage error, and leaves the session open for the next one. */
  lemma {:induction false} ResetRefused(boot: State) returns (run: seq<State>, i: nat)
    requires Booted(boot)
    ensures Run(run) && run[0] == boot && i + 2 == |run|
    ensures run[i].handler == AwaitClose(AfterReset) && Answers(run[i], run[i + 1], ErrorReply)
    ensures run[i + 1].edge == Faulted && run[i + 1].w.shared.open && run[i + 1].w.closing.manifestFailed
  {
    Stays(boot);
    BootStarts(boot);
    ManifestFails(boot, boot);
    var e := ManifestFailed(boot);
    assert CloseEnds(e, Failed(e));
    HandlerNext(e, Failed(e));
    assert e.handler == AwaitClose(AfterReset) && e.edge == Faulted && e.w.shared.open && e.w.closing.manifestFailed;
    hide *;
    run := RunTo(boot, e, Failed(e));
    i := |run| - 2;
    FailedAnswers(e);
  }

  lemma FailedAnswers(e: State)
    requires e.handler != Ready
    ensures Answers(e, Failed(e), ErrorReply) && Failed(e).edge == e.edge && Failed(e).w == e.w
  {
  }

  // A session file that cannot be closed any more.

  /** START on a device without room for the session header, up to the error, and the RESET that follows. */
  lemma {:induction false} WedgedAfterReset(boot: State) returns (run: seq<State>, i: nat)
    requires Booted(boot)
    ensures Run(run) && run[0] == boot && i + 2 == |run| && Answers(run[i], run[i + 1], Reset)
    ensures run[i + 1].edge == Idle && WS.Wedged(run[i + 1].w)
  {
    hide Next;
    Stays(boot);
    BootStarts(boot);
    HeaderRuns(boot, boot);
    hide Booted;
    hide Reaches;
    var e := HeaderLost(boot);
    QuickResetSteps(e);
    var r := QuickReset(e);
    Steps(boot, e, r[0]);
    Steps(boot, r[0], r[1]);
    Steps(boot, r[1], r[2]);
    run := RunTo(boot, r[2], r[3]);
    i := |run| - 2;
  }

  function HeaderLost(e: State): State {
    e.(p := e.p.(outcome := Returned), w := WC.HeaderFailed(e.w, Session(e.config)), edge := Faulted,
       reply := ErrorReply)
  }

  lemma HeaderRuns(s: State, e: State)
    requires Reaches(s, e) && Startable(e)
    ensures Reaches(s, HeaderLost(e))
  {
    hide Reaches;
    var e1 := e.(handler := OpenWriter);
    assert Command(e, e1);
    Handles(s, e, e1);
    var info := Session(e.config);
    WC.HeaderStep(e.w, info);
    var e2 := e1.(w := WC.HeaderFailed(e.w, info), handler := BeginPipeline(StopFailed));
    HeaderMove(e1, e2, info);
    Handles(s, e1, e2);
    FailedStart(s, e2);
  }

  /** After a failed START: the pipeline is stopped, and there is no session to close. */
  lemma FailedStart(s: State, e: State)
    requires Reaches(s, e) && e.handler == BeginPipeline(StopFailed) && e.edge == Idle && !e.w.shared.open
    requires e.p.gate.state == P.Stopped && e.p.control == P.ControlIdle
    ensures Reaches(s, e.(p := e.p.(outcome := Returned), edge := Faulted, handler := Ready, reply := ErrorReply))
  {
    hide Reaches;
    var e1 := e.(p := e.p.(outcome := Returned), handler := AwaitPipeline(StopFailed));
    assert BeginMove(e, e1);
    Handles(s, e, e1);
    var e2 := e1.(handler := MarkFailed);
    assert CallEnds(e1, e2);
    Handles(s, e1, e2);
    assert MarkMove(e2, e2.(edge := Faulted, handler := Ready, reply := ErrorReply));
    Handles(s, e2, e2.(edge := Faulted, handler := Ready, reply := ErrorReply));
  }

  lemma HeaderMove(e: State, f: State, info: SessionInfo)
    requires e.handler == OpenWriter && info.width == e.config.width && info.height == e.config.height
    requires W.OpenStep(e.w, f.w, info) && f == e.(w := f.w, handler := BeginPipeline(StopFailed))
    requires f.w.outcome == Thrown
    ensures OpenMove(e, f)
  {
    hide W.OpenStep;
    assert f == AfterOpen(e.(w := f.w));
  }

  // Frames, one at a time.

  /** Both threads are at the top of their loops, nothing is queued and a buffer is free. */
  predicate Turning(p: P.State) {
    && p.capture == P.CaptureTop && p.processing == P.ProcessingTop && p.control == P.ControlIdle
    && p.gate == P.Gate(P.Running, false, false, false, P.Free)
    && p.pool.available != [] && !p.pool.closed && p.queue == P.Queue([], false)
  }

  function NextFrame(p: P.State): P.Frame
    requires p.pool.available != []
  {
    P.Frame(p.pool.available[|p.pool.available| - 1], p.counts.captured + 1)
  }

  function Queued(p: P.State): P.State
    requires p.pool.available != []
  {
    p.(pool := p.pool.(available := p.pool.available[..|p.pool.available| - 1]),
       counts := p.counts.(captured := p.counts.captured + 1), queue := P.Queue([NextFrame(p)], false))
  }

  lemma FrameQueued(s: State, e: State)
    requires Reaches(s, e) && Turning(e.p)
    ensures Reaches(s, e.(p := Queued(e.p)))
  {
    hide Reaches;
    var p, buffer := e.p, NextFrame(e.p).buffer;
    var p1 := p.(capture := P.CaptureAcquire);
    Captures(s, e, p1);
    var p2 := p.(pool := Queued(p).pool, capture := P.CaptureGrab(buffer));
    Captures(s, e.(p := p1), p2);
    var p3 := p2.(capture := P.CaptureCount(buffer));
    Captures(s, e.(p := p2), p3);
    var p4 := p2.(counts := Queued(p).counts, capture := P.CapturePush(NextFrame(p)));
    Captures(s, e.(p := p3), p4);
    FramePushed(s, e.(p := p4));
  }

  lemma FramePushed(s: State, e: State)
    requires Reaches(s, e) && e.p.capture.CapturePush? && e.p.queue == P.Queue([], false)
    ensures Reaches(s, e.(p := e.p.(queue := P.Queue([e.p.capture.frame], false), capture := P.CaptureTop)))
  {
    hide Reaches;
    var p := e.p;
    assert [] + [p.capture.frame] == [p.capture.frame];
    assert p.pool.available + [] == p.pool.available;
    var p1 := p.(queue := P.Queue([p.capture.frame], false), capture := P.CaptureDropped(0));
    Captures(s, e, p1);
    Captures(s, e.(p := p1), p1.(capture := P.CaptureTop));
  }

  /** The queued frame is past the gate. */
  function Popped(p: P.State): P.State
    requires |p.queue.items| == 1
  {
    var frame := p.queue.items[0];
    p.(queue := P.Queue([], p.queue.closed), order := p.order.(popped := frame.number), gate := p.gate.(active := true),
       processing := if p.order.reference == 0 then P.TakeReference(frame) else P.RunEngine(frame))
  }

  lemma FramePopped(s: State, e: State)
    requires Reaches(s, e) && e.p.processing == P.ProcessingTop && |e.p.queue.items| == 1
    requires !e.p.gate.stopRequested && !e.p.gate.paused && e.p.gate.mutex == P.Free
    ensures Reaches(s, e.(p := Popped(e.p)))
  {
    hide Reaches;
    var p, frame := e.p, e.p.queue.items[0];
    var p1 := p.(processing := P.ProcessingPop);
    Processes(s, e, p1);
    assert p.pool.available + [] == p.pool.available;
    var p2 := p.(queue := P.Queue([], p.queue.closed), order := Popped(p).order, processing := P.GateLock(frame, 0));
    Processes(s, e.(p := p1), p2);
    GatePassed(s, e.(p := p2));
  }

  lemma GatePassed(s: State, e: State)
    requires Reaches(s, e) && e.p.processing.GateLock? && e.p.processing.skipped == 0
    requires !e.p.gate.stopRequested && !e.p.gate.paused && e.p.gate.mutex == P.Free
    ensures var frame := e.p.processing.frame;
            Reaches(s, e.(p := e.p.(gate := e.p.gate.(active := true),
              processing := if e.p.order.reference == 0 then P.TakeReference(frame) else P.RunEngine(frame))))
  {
    hide Reaches;
    var p, frame := e.p, e.p.processing.frame;
    var p1 := p.(gate := p.gate.(mutex := P.ByProcessing), processing := P.GateTestStop(frame, 0));
    Processes(s, e, p1);
    var p2 := p1.(processing := P.GateTestPaused(frame, 0));
    Processes(s, e.(p := p1), p2);
    var p3 := p1.(processing := P.GateCheck(frame, 0));
    Processes(s, e.(p := p2), p3);
    var p4 := p1.(processing := P.GateActivate(frame, 0));
    Processes(s, e.(p := p3), p4);
    var p5 := p1.(gate := p1.gate.(active := true), processing := P.GateUnlock(frame, 0));
    Processes(s, e.(p := p4), p5);
    var p6 := p.(gate := p.gate.(active := true), processing := P.CountSkipped(frame, 0));
    Processes(s, e.(p := p5), p6);
    Processes(s, e.(p := p6), p6.(processing :=
      if p.order.reference == 0 then P.TakeReference(frame) else P.RunEngine(frame)));
  }

  function Referenced(p: P.State): P.State {
    var number := p.counts.captured + 1;
    p.(counts := p.counts.(captured := number), order := p.order.(popped := number, reference := number))
  }

  lemma TakesReference(s: State, e: State)
    requires Reaches(s, e) && Turning(e.p) && e.p.order.reference == 0
    ensures Reaches(s, e.(p := Referenced(e.p)))
  {
    FrameQueued(s, e);
    FramePopped(s, e.(p := Queued(e.p)));
    hide Reaches;
    var p := Popped(Queued(e.p));
    var frame := NextFrame(e.p);
    var p1 := p.(order := Referenced(e.p).order, processing := P.ReferenceTaken(frame));
    Processes(s, e.(p := p), p1);
    var p2 := p1.(gate := e.p.gate, processing := P.ReleaseFrame(frame));
    Processes(s, e.(p := p1), p2);
    assert p2.pool.available + [frame.buffer] == e.p.pool.available;
    Processes(s, e.(p := p2), Referenced(e.p));
  }

  /** A further frame has been processed, and its result is about to be delivered. */
  function Processed(p: P.State, result: DicResult): P.State
    requires p.pool.available != []
  {
    var q := Queued(p);
    q.(queue := P.Queue([], false), gate := p.gate.(active := true),
       counts := q.counts.(processed := p.counts.processed + 1),
       delivery := p.delivery.(results := p.delivery.results + [result]),
       order := p.order.(popped := p.counts.captured + 1, numbers := p.order.numbers + [p.counts.captured + 1]),
       processing := P.Deliver(NextFrame(p), result))
  }

  lemma ProcessesFrame(s: State, e: State, result: DicResult)
    requires Reaches(s, e) && Turning(e.p) && e.p.order.reference != 0
    ensures Reaches(s, e.(p := Processed(e.p, result)))
  {
    FrameQueued(s, e);
    FramePopped(s, e.(p := Queued(e.p)));
    hide Reaches;
    var p := Popped(Queued(e.p));
    var p1 := p.(processing := P.CountProcessed(NextFrame(e.p), result));
    Processes(s, e.(p := p), p1);
    Processes(s, e.(p := p1), Processed(e.p, result));
  }

  // A CONFIG that throws while attaching the callbacks, and what OK STOPPED means after it.

  /** After CONFIG without settings: only the result callback is attached, or none. */
  function Detached(e: State, result: bool): State {
    e.(built := e.config, callbacks := Callbacks(result, false), reply := ErrorReply)
  }

  lemma AttachFails(s: State, e: State, result: bool)
    requires Reaches(s, e) && e.handler == Ready && e.edge == Idle && Makes(e.config, e.p)
    ensures Reaches(s, Detached(e, result))
  {
    hide Reaches;
    var c := e.config;
    var e1 := e.(handler := ApplySettings(c));
    assert Command(e, e1);
    Handles(s, e, e1);
    hide Command;
    hide Makes;
    Handles(s, e1, e.(handler := ValidateCandidate(c)));
    MakesValid(c, e.p);
    Handles(s, e.(handler := ValidateCandidate(c)), e.(handler := MakePipeline(c)));
    Handles(s, e.(handler := MakePipeline(c)), e.(handler := MovePipeline(c, e.p)));
    AttachGoes(s, e.(handler := MovePipeline(c, e.p)), result);
  }

  lemma MakesValid(c: RuntimeConfig, p: P.State)
    requires Makes(c, p)
    ensures Valid(c)
  {
  }

  lemma AttachGoes(s: State, e: State, result: bool)
    requires Reaches(s, e) && e.handler.MovePipeline?
    ensures var c := e.handler.candidate;
            Reaches(s, e.(p := e.handler.replacement, config := c, built := c, callbacks := Callbacks(result, false),
                          handler := Ready, reply := ErrorReply))
  {
    hide Reaches;
    var c := e.handler.candidate;
    var e1 := e.(p := e.handler.replacement, built := c, callbacks := UNATTACHED, handler := MoveConfig(c));
    Handles(s, e, e1);
    var e2 := e1.(config := c, handler := AttachResult);
    Handles(s, e1, e2);
    if result {
      var e3 := e2.(callbacks := Callbacks(true, false), handler := AttachFault);
      Handles(s, e2, e3);
      Handles(s, e3, Failed(e3));
    } else {
      Handles(s, e2, Failed(e2));
    }
  }

  /** A result for which there is no callback counts as delivered. */
  lemma DeliversToNone(s: State, e: State)
    requires Reaches(s, e) && e.p.processing.Deliver? && !e.callbacks.result
    ensures exists p: P.State :: Reaches(s, e.(p := p)) && p.processing == P.ProcessingTop && p.counts == e.p.counts
              && p.control == e.p.control && p.capture == e.p.capture && p.queue == e.p.queue
              && p.gate.state == e.p.gate.state
  {
    hide Reaches;
    var frame, result := e.p.processing.frame, e.p.processing.result;
    var p1 := e.p.(delivery := e.p.delivery.(accepted := e.p.delivery.accepted + [result]),
                   processing := P.Callbacks(frame));
    Shows(s, e, p1, P.Accepted(result));
    var p2 := p1.(processing := P.Deactivate(frame));
    Processes(s, e.(p := p1), p2);
    var p3 := p2.(gate := p2.gate.(active := false), processing := P.ReleaseFrame(frame));
    Processes(s, e.(p := p2), p3);
    var p4 := p3.(pool := P.Release(p3.pool, [frame.buffer]), processing := P.ProcessingTop);
    Processes(s, e.(p := p3), p4);
  }

  /** A result callback that throws ends the processing thread; nobody is told without a fault callback. */
  lemma RefusesSilently(s: State, e: State)
    requires Reaches(s, e) && e.p.processing.Deliver? && e.callbacks == Callbacks(true, false)
    ensures exists p: P.State :: Reaches(s, e.(p := p)) && p.processing == P.ProcessingEnded && p.counts == e.p.counts
              && p.control == e.p.control && p.capture == e.p.capture && p.queue == e.p.queue
              && p.gate.state == P.Faulted
  {
    hide Reaches;
    var frame, result := e.p.processing.frame, e.p.processing.result;
    var p1 := e.p.(delivery := e.p.delivery.(refused := true), processing := P.Unwind(frame));
    Shows(s, e, p1, P.Rejected(result));
    var p2 := p1.(pool := P.Release(p1.pool, [frame.buffer]), processing := P.UnwindInactive);
    Processes(s, e.(p := p1), p2);
    var p3 := p2.(gate := p2.gate.(active := false), processing := P.ProcessingFault);
    Processes(s, e.(p := p2), p3);
    var p4 := p3.(gate := P.Fail(p3.gate), processing := P.ProcessingFaultStop);
    Processes(s, e.(p := p3), p4);
    FaultsSilently(s, e.(p := p4));
  }

  lemma FaultsSilently(s: State, e: State)
    requires Reaches(s, e) && e.p.processing.ProcessingFaultStop? && !e.callbacks.fault
    ensures Reaches(s, e.(p := e.p.(gate := P.Request(e.p.gate), processing := P.ProcessingEnded)))
  {
    hide Reaches;
    var p1 := e.p.(gate := P.Request(e.p.gate), processing := P.ProcessingFaultReport);
    Processes(s, e, p1);
    Shows(s, e.(p := p1), p1.(processing := P.ProcessingEnded), P.FaultReported);
  }

  /** One frame has been processed in a session that is resting. */
  lemma ProcessesOne(s: State, e: State) returns (f: State)
    requires Reaches(s, e) && Startable(e) && e.p.gate.mutex == P.Free && e.p.pool.available != [] && !e.callbacks.fault
    ensures Reaches(s, f) && f.handler == Ready && f.edge == Measuring && f.callbacks == e.callbacks
    ensures f.w == W.Opened(e.w, Session(e.config)) && AtTop(f.p) && f.p.counts.processed == 1
  {
    Starts(s, e);
    var f0 := StartedEdge(e);
    TakesReference(s, f0);
    var f1 := f0.(p := Referenced(f0.p));
    var result := DicResult(0, 0, 0, []);
    ProcessesFrame(s, f1, result);
    var f2 := f1.(p := Processed(f1.p, result));
    hide Reaches;
    assert f2.p.processing.Deliver? && f2.p.counts.processed == 1 && f2.p.queue.items == [];
    if e.callbacks.result {
      RefusesSilently(s, f2);
      var p: P.State :| Reaches(s, f2.(p := p)) && p.processing == P.ProcessingEnded && p.counts == f2.p.counts
        && p.control == f2.p.control && p.capture == f2.p.capture && p.queue == f2.p.queue && p.gate.state == P.Faulted;
      f := f2.(p := p);
    } else {
      DeliversToNone(s, f2);
      var p: P.State :| Reaches(s, f2.(p := p)) && p.processing == P.ProcessingTop && p.counts == f2.p.counts
        && p.control == f2.p.control && p.capture == f2.p.capture && p.queue == f2.p.queue
        && p.gate.state == f2.p.gate.state;
      f := f2.(p := p);
    }
  }

  /** The state in which a STOP is about to be acknowledged. */
  function StoppedWell(g: State): State {
    var f := StoppingEdge(g, StopPipeline, AfterStop);
    f.(w := Finishing(Flushing(f.w, false)), handler := MarkStopped)
  }

  lemma StopsWell(s: State, g: State)
    requires Reaches(s, g) && g.handler == Ready && g.edge == Measuring && AtTop(g.p) && Resting(g.w)
    ensures Reaches(s, StoppedWell(g))
  {
    hide Reaches;
    StopCommand(s, g);
    Stopping(s, g.(handler := BeginPipeline(StopPipeline)), StopPipeline, AfterStop);
    var f := StoppingEdge(g, StopPipeline, AfterStop);
    Flushes(s, f, false);
    Finishes(s, f.(w := Flushing(f.w, false)));
    var h := f.(w := Finishing(Flushing(f.w, false)));
    assert CloseEnds(h, StoppedWell(g));
    Handles(s, h, StoppedWell(g));
  }

  lemma StopAcknowledged(g: State)
    requires g.edge == Measuring && g.w.history.accepted == []
    ensures var e := StoppedWell(g); var f := e.(edge := Idle, handler := Ready, reply := Stopped);
            && Next(e, f) && Answers(e, f, Stopped) && f.callbacks == g.callbacks
            && f.p.counts == g.p.counts && f.w.history.accepted == []
  {
    hide Next;
    var e := StoppedWell(g);
    var f := e.(edge := Idle, handler := Ready, reply := Stopped);
    assert MarkMove(e, f);
    HandlerNext(e, f);
  }

  /**
   * Without both callbacks OK STOPPED does not mean stored: after a CONFIG that threw while attaching them, a frame
   * is processed and its result is on no disk when STOP is acknowledged. It takes either missing callback.
   */
  lemma {:induction false} StoppedWithoutStored(boot: State, result: bool) returns (run: seq<State>, i: nat)
    requires Booted(boot)
    ensures Run(run) && run[0] == boot && i + 2 == |run| && Answers(run[i], run[i + 1], Stopped)
    ensures run[i + 1].callbacks == Callbacks(result, false)
    ensures run[i + 1].p.counts.processed == 1 && run[i + 1].w.history.accepted == []
  {
    hide *;
    Stays(boot);
    DetachedStarts(boot, result);
    AttachFails(boot, boot, result);
    var e := Detached(boot, result);
    assert Startable(e) ==> e.w.closing.pc == W.NotClosing by { StartableIsClosed(e); }
    var g := ProcessesOne(boot, e);
    run, i := StopsUnstored(boot, e, g);
  }

  lemma StartableIsClosed(e: State)
    ensures Startable(e) ==> e.w.closing.pc == W.NotClosing
  {
  }

  lemma DetachedStarts(boot: State, result: bool)
    requires Booted(boot)
    ensures var e := Detached(boot, result);
            && boot.handler == Ready && boot.edge == Idle && Makes(boot.config, boot.p)
            && Startable(e) && e.p.gate.mutex == P.Free && e.p.pool.available != []
            && e.callbacks == Callbacks(result, false)
  {
    BootStarts(boot);
    hide FramePools.AllBuffers;
  }

  lemma StopsUnstored(boot: State, e: State, g: State) returns (run: seq<State>, i: nat)
    requires Booted(boot) && Reaches(boot, g) && g.handler == Ready && g.edge == Measuring && AtTop(g.p)
    requires e.w.closing.pc == W.NotClosing && g.w == W.Opened(e.w, Session(e.config)) && g.p.counts.processed == 1
    ensures Run(run) && run[0] == boot && i + 2 == |run| && Answers(run[i], run[i + 1], Stopped)
    ensures run[i + 1].p.counts.processed == 1 && run[i + 1].w.history.accepted == []
    ensures run[i + 1].callbacks == g.callbacks
  {
    hide Reaches;
    hide Booted;
    OpenedIsResting(e.w, Session(e.config));
    StopsWell(boot, g);
    StopAcknowledged(g);
    hide Next;
    var f := StoppedWell(g);
    run := RunTo(boot, f, f.(edge := Idle, handler := Ready, reply := Stopped));
    i := |run| - 2;
  }

  lemma OpenedIsResting(w: W.State, info: SessionInfo)
    requires w.closing.pc == W.NotClosing
    ensures Resting(W.Opened(w, info)) && W.Opened(w, info).history.accepted == []
  {
    hide FileHeader;
  }
}
