/** What every step of the pipeline keeps, and what follows for whole runs. */
module PipelineSafety {
  import opened Outcomes
  import opened Bytes
  import opened ResultPacket
  import opened LatestQueues
  import opened FramePools
  import opened Pipeline

  // Control: who is alive, who holds the pause mutex, when the active flag is set.

  predicate HoldsMutex(pc: ProcessingPc) {
    pc.GateTestStop? || pc.GateTestPaused? || pc.GateCheck? || pc.GateActivate? || pc.GateUnlock? || pc.BreakUnlock?
  }

  /** Between setting and clearing the active flag; every callback is in here. */
  predicate InActiveRegion(pc: ProcessingPc) {
    || pc.GateUnlock? || pc.CountSkipped? || pc.TakeReference? || pc.ReferenceTaken? || pc.RunEngine?
    || pc.CountProcessed? || pc.Deliver? || pc.Callbacks? || pc.Deactivate? || pc.Unwind? || pc.UnwindInactive?
  }

  predicate NoThreads(p: State) { p.capture.CaptureAbsent? && p.processing.ProcessingAbsent? }

  predicate ClosedByStop(c: ControlPc) {
    c.StopPool? || c.StopJoinCapture? || c.StopJoinProcessing? || c.StopDone?
  }

  ghost predicate InvGate(p: State) {
    && (p.gate.mutex == ByProcessing <==> HoldsMutex(p.processing))
    && (p.gate.mutex == ByControl <==> p.control.PauseTest? || p.control.PauseUnlock?)
    && (p.gate.active <==> InActiveRegion(p.processing))
    && (p.control.PauseLock? || p.control.PauseTest? || p.control.PauseUnlock? ==> p.gate.paused)
    && (p.control.PauseUnlock? ==> !p.gate.active)
  }

  ghost predicate InvThreads(p: State) {
    && (p.gate.state == Stopped ==> NoThreads(p) && p.control.ControlIdle?)
    && (p.control.StartPrepare? || p.control.StartCapture? || p.control.StopDone? ==> NoThreads(p))
    && (p.control.StartProcessing? ==> p.processing.ProcessingAbsent?)
    && (p.control.StopJoinProcessing? ==> p.capture.CaptureAbsent?)
    && (p.control.StopUnpause? || p.control.StopQueue? || p.control.StartFaulted? || ClosedByStop(p.control) ==>
          p.gate.stopRequested)
    && (ClosedByStop(p.control) ==> p.queue.closed)
    && (p.control.StartCapture? || p.control.StartProcessing? ==> !p.queue.closed)
    && (p.queue.closed ==> p.gate.stopRequested || NoThreads(p))
    && (p.capture.CaptureFaultReport? || p.capture.CaptureEnded? ==> p.gate.stopRequested)
    && (p.processing.ProcessingFaultReport? || p.processing.ProcessingEnded? || p.processing.BreakUnlock?
          || p.processing.BreakRelease?
        ==> p.gate.stopRequested)
  }

  lemma CaptureKeepsGate(p: State, q: State, e: Event)
    requires InvGate(p) && CaptureStep(p, q, e)
    ensures InvGate(q)
  {
    hide Buffers;
    hide LastItems;
  }

  lemma CaptureKeepsThreads(p: State, q: State, e: Event)
    requires InvThreads(p) && CaptureStep(p, q, e)
    ensures InvThreads(q)
  {
    hide Buffers;
    hide LastItems;
  }

  lemma GateKeepsGate(p: State, q: State)
    requires InvGate(p) && GateStep(p, q)
    ensures InvGate(q)
  {
    hide Buffers;
  }

  lemma WorkKeepsGate(p: State, q: State, e: Event)
    requires InvGate(p) && WorkStep(p, q, e)
    ensures InvGate(q)
  {
    hide Buffers;
  }

  lemma GateKeepsThreads(p: State, q: State)
    requires InvThreads(p) && GateStep(p, q)
    ensures InvThreads(q)
  {
    hide Buffers;
    hide ClosedByStop;
  }

  lemma WorkEffects(p: State, q: State, e: Event)
    requires WorkStep(p, q, e)
    ensures q.capture == p.capture && q.control == p.control && q.queue == p.queue
    ensures p.gate.stopRequested ==> q.gate.stopRequested
    ensures q.gate.state == p.gate.state || q.gate.state == Faulted
    ensures !p.processing.ProcessingAbsent? && !q.processing.ProcessingAbsent?
    ensures !q.processing.BreakUnlock? && !q.processing.BreakRelease?
    ensures q.processing.ProcessingFaultReport? ==> q.gate.stopRequested
    ensures q.processing.ProcessingEnded? ==> p.processing.ProcessingFaultReport?
  {
    hide Buffers;
  }

  lemma WorkKeepsThreads(p: State, q: State, e: Event)
    requires InvThreads(p) && WorkStep(p, q, e)
    ensures InvThreads(q)
  {
    WorkEffects(p, q, e);
    hide WorkStep;
  }

  lemma StartKeepsGate(p: State, q: State)
    requires InvGate(p) && InvThreads(p) && StartStep(p, q)
    ensures InvGate(q)
  {
  }

  lemma PauseKeepsGate(p: State, q: State)
    requires InvGate(p) && PauseStep(p, q)
    ensures InvGate(q)
  {
  }

  lemma StopKeepsGate(p: State, q: State)
    requires InvGate(p) && StopStep(p, q)
    ensures InvGate(q)
  {
    hide Buffers;
  }

  lemma BeginKeepsGate(p: State, q: State)
    requires InvGate(p) && BeginCall(p, q)
    ensures InvGate(q)
  {
  }

  lemma StartKeepsThreads(p: State, q: State)
    requires InvThreads(p) && StartStep(p, q)
    ensures InvThreads(q)
  {
  }

  lemma PauseKeepsThreads(p: State, q: State)
    requires InvThreads(p) && PauseStep(p, q)
    ensures InvThreads(q)
  {
  }

  lemma StopKeepsThreads(p: State, q: State)
    requires InvThreads(p) && StopStep(p, q)
    ensures InvThreads(q)
  {
    hide Buffers;
  }

  lemma BeginKeepsThreads(p: State, q: State)
    requires InvThreads(p) && BeginCall(p, q)
    ensures InvThreads(q)
  {
  }

  lemma CallsKeepControl(p: State, q: State)
    requires InvGate(p) && InvThreads(p) && (ControlStep(p, q) || BeginCall(p, q))
    ensures InvGate(q) && InvThreads(q)
  {
    hide InvGate;
    hide InvThreads;
    hide StartStep;
    hide PauseStep;
    hide StopStep;
    hide BeginCall;
    if StartStep(p, q) {
      StartKeepsGate(p, q);
      StartKeepsThreads(p, q);
    } else if PauseStep(p, q) {
      PauseKeepsGate(p, q);
      PauseKeepsThreads(p, q);
    } else if StopStep(p, q) {
      StopKeepsGate(p, q);
      StopKeepsThreads(p, q);
    } else {
      BeginKeepsGate(p, q);
      BeginKeepsThreads(p, q);
    }
  }

  // Frames: each buffer of the pool is in exactly one place.

  function InCapture(pc: CapturePc): (hand: seq<nat>)
    ensures |hand| <= 1
  {
    match pc
    case CaptureGrab(b) => [b]
    case CaptureTimedOut(b) => [b]
    case CaptureCount(b) => [b]
    case CapturePush(f) => [f.buffer]
    case CaptureUnwind(b) => [b]
    case _ => []
  }

  predicate HoldsFrame(pc: ProcessingPc) {
    !(pc.ProcessingAbsent? || pc.ProcessingTop? || pc.ProcessingPop? || pc.UnwindInactive? || pc.ProcessingFault?
      || pc.ProcessingFaultStop? || pc.ProcessingFaultReport? || pc.ProcessingEnded?)
  }

  function InProcessing(pc: ProcessingPc): (hand: seq<nat>)
    ensures |hand| <= 1
  {
    if HoldsFrame(pc) then [pc.frame.buffer] else []
  }

  function Everywhere(available: seq<nat>, items: seq<Frame>, captured: seq<nat>, processed: seq<nat>): multiset<nat> {
    multiset(available) + multiset(Buffers(items)) + multiset(captured) + multiset(processed)
  }

  /** The buffers in the pool, in the queue and in the two threads' hands. */
  function Placed(p: State): multiset<nat> {
    Everywhere(p.pool.available, p.queue.items, InCapture(p.capture), InProcessing(p.processing))
  }

  ghost predicate InvQueue(p: State) {
    && p.poolSize >= p.capacity + 3
    && |p.queue.items| <= p.capacity
    && (p.queue.closed ==> p.queue.items == [])
    && (p.capture.CaptureAbsent? ==> p.queue.items == [])
  }

  lemma {:induction false} BuffersAppend(a: seq<Frame>, b: seq<Frame>)
    ensures Buffers(a + b) == Buffers(a) + Buffers(b)
    ensures |Buffers(a)| == |a|
    decreases |a|
  {
    if a == [] {
      assert a + b == b;
    } else {
      assert (a + b)[1..] == a[1..] + b;
      BuffersAppend(a[1..], b);
    }
  }

  lemma BuffersOfSingle(f: Frame)
    ensures Buffers([f]) == [f.buffer] && Buffers([]) == []
  {
    assert [f][1..] == [];
  }

  lemma Acquired(available: seq<nat>, items: seq<Frame>, h: seq<nat>)
    requires available != []
    ensures var last := |available| - 1;
            Everywhere(available[..last], items, [available[last]], h) == Everywhere(available, items, [], h)
  {
    hide Buffers;
    assert available == available[..|available| - 1] + [available[|available| - 1]];
  }

  lemma Returned(available: seq<nat>, items: seq<Frame>, b: nat, h: seq<nat>)
    ensures Everywhere(available + [b], items, [], h) == Everywhere(available, items, [b], h)
    ensures Everywhere(available + [b], items, h, []) == Everywhere(available, items, h, [b])
  {
    hide Buffers;
  }

  lemma {:induction false} Pushed(available: seq<nat>, items: seq<Frame>, f: Frame, capacity: Positive, h: seq<nat>)
    ensures var kept := LastItems(items + [f], capacity);
            var dropped := |items| + 1 - |kept|;
            Everywhere(available + Buffers(items[..dropped]), kept, [], h)
                == Everywhere(available, items, [f.buffer], h)
  {
    var kept := LastItems(items + [f], capacity);
    var dropped := |items| + 1 - |kept|;
    assert kept == (items + [f])[dropped..] == items[dropped..] + [f];
    BuffersAppend(items[dropped..], [f]);
    BuffersOfSingle(f);
    assert items == items[..dropped] + items[dropped..];
    BuffersAppend(items[..dropped], items[dropped..]);
    hide Buffers;
    hide LastItems;
  }

  lemma Popped(available: seq<nat>, items: seq<Frame>, h: seq<nat>)
    requires items != []
    ensures var last := |items| - 1;
            Everywhere(available + Buffers(items[..last]), [], h, [items[last].buffer])
                == Everywhere(available, items, h, [])
  {
    var last := |items| - 1;
    assert items == items[..last] + [items[last]];
    BuffersAppend(items[..last], [items[last]]);
    BuffersOfSingle(items[last]);
    hide Buffers;
  }

  lemma Cleared(available: seq<nat>, items: seq<Frame>, g: seq<nat>, h: seq<nat>)
    ensures Everywhere(available + Buffers(items), [], g, h) == Everywhere(available, items, g, h)
  {
    assert Buffers([]) == [];
    hide Buffers;
  }

  lemma {:induction false} CaptureKeepsPlaces(p: State, q: State, e: Event)
    requires CaptureStep(p, q, e)
    ensures Placed(q) == Placed(p)
  {
    hide Buffers;
    hide LastItems;
    hide Everywhere;
    hide InProcessing;
    var available, items, h := p.pool.available, p.queue.items, InProcessing(p.processing);
    match p.capture {
      case CaptureAcquire =>
        if available != [] {
          Acquired(available, items, h);
        }
      case CaptureTimedOut(b) => Returned(available, items, b, h);
      case CapturePush(f) =>
        Returned(available, items, f.buffer, h);
        Pushed(available, items, f, p.capacity, h);
      case CaptureUnwind(b) => Returned(available, items, b, h);
      case _ =>
    }
  }

  lemma GateKeepsPlaces(p: State, q: State)
    requires GateStep(p, q)
    ensures Placed(q) == Placed(p)
  {
    hide Buffers;
    hide Everywhere;
    hide InCapture;
    var available, items, h := p.pool.available, p.queue.items, InCapture(p.capture);
    match p.processing {
      case ProcessingPop =>
        if items != [] {
          Popped(available, items, h);
        }
      case BreakRelease(f) => Returned(available, items, f.buffer, h);
      case _ =>
    }
  }

  lemma {:induction false} WorkKeepsPlaces(p: State, q: State, e: Event)
    requires WorkStep(p, q, e)
    ensures Placed(q) == Placed(p)
  {
    hide Buffers;
    hide Everywhere;
    hide InCapture;
    var available, items, h := p.pool.available, p.queue.items, InCapture(p.capture);
    match p.processing {
      case ReleaseFrame(f) => Returned(available, items, f.buffer, h);
      case Unwind(f) => Returned(available, items, f.buffer, h);
      case _ =>
    }
  }

  lemma CaptureKeepsQueue(p: State, q: State, e: Event)
    requires InvQueue(p) && CaptureStep(p, q, e)
    ensures InvQueue(q)
  {
    hide Buffers;
    hide LastItems;
  }

  lemma GateKeepsQueue(p: State, q: State)
    requires InvQueue(p) && GateStep(p, q)
    ensures InvQueue(q)
  {
    hide Buffers;
  }

  lemma WorkKeepsQueue(p: State, q: State, e: Event)
    requires InvQueue(p) && WorkStep(p, q, e)
    ensures InvQueue(q)
  {
    hide Buffers;
  }

  ghost predicate InvFrames(p: State) { InvQueue(p) && Placed(p) == AllBuffers(p.poolSize) }

  /** In every state some buffer is free. */
  lemma {:induction false} PoolNeverEmpty(p: State)
    requires InvFrames(p)
    ensures |p.pool.available| >= 1
    ensures |p.pool.available| + |p.queue.items| + |InCapture(p.capture)| + |InProcessing(p.processing)| == p.poolSize
  {
    AllBuffersSize(p.poolSize);
    BuffersAppend(p.queue.items, []);
    hide Buffers;
    hide AllBuffers;
    hide InCapture;
    hide InProcessing;
    var a, b := multiset(p.pool.available), multiset(Buffers(p.queue.items));
    var c, d := multiset(InCapture(p.capture)), multiset(InProcessing(p.processing));
    assert |a + b + c + d| == |a| + |b| + |c| + |d|;
  }

  // Order: frames are processed in capture order, each the newest at its pop.

  /** The processing thread holds a frame that is neither counted nor taken as the reference. */
  predicate Pending(pc: ProcessingPc) {
    || pc.GateLock? || pc.GateTestStop? || pc.GateTestPaused? || pc.GateWaiting? || pc.GateCheck? || pc.GateActivate?
    || pc.GateUnlock? || pc.CountSkipped? || pc.TakeReference? || pc.RunEngine? || pc.CountProcessed?
  }

  ghost predicate Increasing(numbers: seq<nat>) {
    forall i, j :: 0 <= i < j < |numbers| ==> numbers[i] < numbers[j]
  }

  /** Queued frames are in capture order, later than `after` and no later than `last`. */
  ghost predicate Between(items: seq<Frame>, after: nat, last: nat) {
    && (forall i, j :: 0 <= i < j < |items| ==> items[i].number < items[j].number)
    && (forall i :: 0 <= i < |items| ==> after < items[i].number <= last)
  }

  ghost predicate AllBetween(numbers: seq<nat>, after: nat, last: nat) {
    Increasing(numbers) && forall i :: 0 <= i < |numbers| ==> after < numbers[i] <= last
  }

  ghost predicate InvQueueOrder(p: State) {
    && p.order.popped <= p.counts.captured
    && if p.capture.CapturePush? then
         && p.capture.frame.number == p.counts.captured && p.order.popped < p.counts.captured
         && Between(p.queue.items, p.order.popped, p.counts.captured - 1)
       else Between(p.queue.items, p.order.popped, p.counts.captured)
  }

  ghost predicate InvDone(p: State) {
    && p.order.reference <= p.order.popped
    && (Pending(p.processing) ==> p.processing.frame.number == p.order.popped && p.order.reference < p.order.popped)
    && AllBetween(p.order.numbers, p.order.reference,
                  if Pending(p.processing) then p.order.popped - 1 else p.order.popped)
    && (p.processing.TakeReference? ==> p.order.reference == 0)
    && (p.order.reference == 0 ==> p.order.numbers == [] && !p.processing.RunEngine? && !p.processing.CountProcessed?)
    && |p.order.numbers| == |p.delivery.results| == p.counts.processed
  }

  lemma PushKeepsBetween(items: seq<Frame>, f: Frame, capacity: Positive, after: nat)
    requires f.number > after && Between(items, after, f.number - 1)
    ensures Between(LastItems(items + [f], capacity), after, f.number)
  {
  }

  lemma CaptureKeepsOrder(p: State, q: State, e: Event)
    requires InvQueueOrder(p) && CaptureStep(p, q, e)
    ensures InvQueueOrder(q)
  {
    hide Buffers;
    hide LastItems;
    if p.capture.CapturePush? {
      PushKeepsBetween(p.queue.items, p.capture.frame, p.capacity, p.order.popped);
    }
  }

  lemma {:induction false} PopTakesNewest(p: State, q: State)
    requires InvQueueOrder(p) && GateStep(p, q) && p.processing.ProcessingPop? && p.queue.items != []
    ensures q.processing.GateLock? && q.processing.frame in p.queue.items && q.processing.skipped == |p.queue.items| - 1
    ensures forall f :: f in p.queue.items ==> f.number <= q.processing.frame.number
    ensures p.order.popped < q.processing.frame.number == q.order.popped <= p.counts.captured
    ensures p.capture.CapturePush? ==> q.order.popped < p.counts.captured
  {
    hide Buffers;
  }

  lemma GateKeepsQueueOrder(p: State, q: State)
    requires InvQueueOrder(p) && GateStep(p, q)
    ensures InvQueueOrder(q)
  {
    hide Buffers;
    if p.processing.ProcessingPop? && p.queue.items != [] {
      PopTakesNewest(p, q);
    }
  }

  lemma WorkKeepsQueueOrder(p: State, q: State, e: Event)
    requires InvQueueOrder(p) && WorkStep(p, q, e)
    ensures InvQueueOrder(q)
  {
    hide Buffers;
    hide Between;
  }

  lemma GateKeepsDone(p: State, q: State)
    requires InvQueueOrder(p) && InvDone(p) && GateStep(p, q)
    ensures InvDone(q)
  {
    hide Buffers;
    if p.processing.ProcessingPop? && p.queue.items != [] {
      PopTakesNewest(p, q);
    }
    hide InvQueueOrder;
  }

  lemma WorkKeepsDone(p: State, q: State, e: Event)
    requires InvDone(p) && WorkStep(p, q, e)
    ensures InvDone(q)
  {
    hide Buffers;
  }

  lemma CaptureKeepsDone(p: State, q: State, e: Event)
    requires InvDone(p) && CaptureStep(p, q, e)
    ensures InvDone(q)
  {
    hide Buffers;
    hide LastItems;
    hide AllBetween;
  }

  // Delivery: what is counted as processed and what the callback accepted.

  predicate Unwinding(pc: ProcessingPc) {
    || pc.Unwind? || pc.UnwindInactive? || pc.ProcessingFault? || pc.ProcessingFaultStop? || pc.ProcessingFaultReport?
    || pc.ProcessingEnded? || pc.ProcessingAbsent?
  }

  ghost predicate InvDelivery(p: State) {
    && (p.processing.Deliver? ==>
          !p.delivery.refused && p.delivery.results == p.delivery.accepted + [p.processing.result])
    && (!p.delivery.refused && !p.processing.Deliver? ==> p.delivery.results == p.delivery.accepted)
    && (p.delivery.refused ==>
          && Unwinding(p.processing) && p.delivery.results != []
          && p.delivery.accepted == p.delivery.results[..|p.delivery.results| - 1])
    && (p.control.StartCapture? || p.control.StartProcessing? ==> !p.delivery.refused)
  }

  lemma CaptureKeepsDelivery(p: State, q: State, e: Event)
    requires InvDelivery(p) && CaptureStep(p, q, e)
    ensures InvDelivery(q)
  {
    hide Buffers;
    hide LastItems;
  }

  lemma GateKeepsDelivery(p: State, q: State)
    requires InvThreads(p) && InvDelivery(p) && GateStep(p, q)
    ensures InvDelivery(q)
  {
    hide Buffers;
  }

  lemma {:induction false} WorkKeepsDelivery(p: State, q: State, e: Event)
    requires InvThreads(p) && InvDelivery(p) && WorkStep(p, q, e)
    ensures InvDelivery(q)
  {
    hide Buffers;
  }

  // Accounting: every captured frame is processed, dropped, waiting, the reference, or lost to a stop or a fault.

  function PendingCapture(pc: CapturePc): nat {
    match pc
    case CapturePush(_) => 1
    case CaptureDropped(n) => n
    case _ => 0
  }

  predicate BeforeCount(pc: ProcessingPc) {
    || pc.GateLock? || pc.GateTestStop? || pc.GateTestPaused? || pc.GateWaiting? || pc.GateCheck? || pc.GateActivate?
    || pc.GateUnlock? || pc.CountSkipped?
  }

  function Skipped(pc: ProcessingPc): nat { if BeforeCount(pc) then pc.skipped else 0 }

  function PendingProcessing(pc: ProcessingPc): nat {
    (if Pending(pc) then 1 else 0) + Skipped(pc)
  }

  function Lost(losses: Losses): nat { losses.atClose + losses.atPush + losses.inProcessing }

  /** Where the captured frames are. */
  function Found(p: State): nat {
    p.counts.processed + p.counts.dropped + |p.queue.items| + PendingCapture(p.capture)
    + PendingProcessing(p.processing)
    + (if p.order.reference > 0 then 1 else 0)
  }

  predicate CaptureFailing(pc: CapturePc) {
    || pc.CaptureUnwind? || pc.CaptureFault? || pc.CaptureFaultStop? || pc.CaptureFaultReport? || pc.CaptureEnded?
    || pc.CaptureAbsent?
  }

  predicate ProcessingFailing(pc: ProcessingPc) { Unwinding(pc) || pc.BreakUnlock? || pc.BreakRelease? }

  ghost predicate Balanced(p: State) {
    p.counts.captured == Found(p) + Lost(p.losses) && Skipped(p.processing) < p.capacity
  }

  ghost predicate FewLost(p: State) {
    && p.losses.atClose <= p.capacity && (p.losses.atClose > 0 ==> p.queue.closed)
    && p.losses.atPush <= 1
    && (p.losses.atPush > 0 ==>
          CaptureFailing(p.capture) || (p.gate.stopRequested && (p.capture.CaptureDropped? || p.capture.CaptureTop?)))
    && p.losses.inProcessing <= p.capacity && (p.losses.inProcessing > 0 ==> ProcessingFailing(p.processing))
    && (p.control.StartCapture? ==> p.losses.atPush == 0)
    && (p.control.StartCapture? || p.control.StartProcessing? ==> p.losses.inProcessing == 0)
  }

  ghost predicate InvAccount(p: State) { Balanced(p) && FewLost(p) }

  lemma CaptureKeepsBalance(p: State, q: State, e: Event)
    requires Balanced(p) && CaptureStep(p, q, e)
    ensures Balanced(q)
  {
    hide Buffers;
    hide Pending;
    hide Skipped;
  }

  lemma CaptureKeepsFewLost(p: State, q: State, e: Event)
    requires InvThreads(p) && FewLost(p) && CaptureStep(p, q, e)
    ensures FewLost(q)
  {
    hide Buffers;
    hide LastItems;
    hide ProcessingFailing;
  }

  lemma GateKeepsBalance(p: State, q: State)
    requires InvQueue(p) && Balanced(p) && GateStep(p, q)
    ensures Balanced(q)
  {
    hide Buffers;
    hide PendingCapture;
  }

  lemma GateKeepsFewLost(p: State, q: State)
    requires InvThreads(p) && Balanced(p) && FewLost(p) && GateStep(p, q)
    ensures FewLost(q)
  {
    hide Buffers;
    hide CaptureFailing;
    hide Found;
  }

  lemma WorkKeepsBalance(p: State, q: State, e: Event)
    requires InvDone(p) && Balanced(p) && WorkStep(p, q, e)
    ensures Balanced(q)
  {
    hide PendingCapture;
    hide AllBetween;
  }

  lemma WorkKeepsFewLost(p: State, q: State, e: Event)
    requires InvThreads(p) && FewLost(p) && WorkStep(p, q, e)
    ensures FewLost(q)
  {
    hide CaptureFailing;
  }

  // Calls: most of their steps touch the flags only.

  predicate SameData(p: State, q: State) {
    && q == p.(gate := q.gate, control := q.control, outcome := q.outcome)
    && (p.gate.stopRequested ==> q.gate.stopRequested)
    && !q.control.StartCapture? && !q.control.StartProcessing?
  }

  predicate MovesData(c: ControlPc) {
    || c.StartPrepare? || c.StartCapture? || c.StartProcessing?
    || c.StopQueue? || c.StopPool? || c.StopJoinCapture? || c.StopJoinProcessing?
  }

  lemma CallEffects(p: State, q: State)
    requires ControlStep(p, q) || BeginCall(p, q)
    ensures SameData(p, q) || MovesData(p.control)
  {
    hide Buffers;
  }

  lemma SameDataKeeps(p: State, q: State)
    requires SameData(p, q) && InvQueue(p) && InvQueueOrder(p) && InvDone(p) && InvDelivery(p) && InvAccount(p)
    ensures Placed(q) == Placed(p) && InvQueue(q) && InvQueueOrder(q) && InvDone(q) && InvDelivery(q) && InvAccount(q)
  {
    hide Between;
    hide AllBetween;
    hide Placed;
    SameDataSamePlaces(p, q);
  }

  lemma SameDataSamePlaces(p: State, q: State)
    requires SameData(p, q)
    ensures Placed(q) == Placed(p)
  {
    hide Everywhere;
    hide InCapture;
    hide InProcessing;
  }

  lemma DataStepKeepsPlaces(p: State, q: State)
    requires ControlStep(p, q) && MovesData(p.control) && InvThreads(p) && InvQueue(p)
    ensures Placed(q) == Placed(p) && InvQueue(q)
  {
    hide Buffers;
    hide Everywhere;
    if p.control.StopQueue? {
      Cleared(p.pool.available, p.queue.items, InCapture(p.capture), InProcessing(p.processing));
    }
  }

  lemma DataStepKeepsQueueOrder(p: State, q: State)
    requires ControlStep(p, q) && MovesData(p.control) && InvThreads(p) && InvQueueOrder(p)
    ensures InvQueueOrder(q)
  {
    hide Buffers;
  }

  lemma DataStepKeepsDone(p: State, q: State)
    requires ControlStep(p, q) && MovesData(p.control) && InvThreads(p) && InvDone(p)
    ensures InvDone(q)
  {
    hide Buffers;
  }

  lemma DataStepKeepsDelivery(p: State, q: State)
    requires ControlStep(p, q) && MovesData(p.control) && InvThreads(p) && InvDelivery(p)
    ensures InvDelivery(q)
  {
    hide Buffers;
  }

  lemma DataStepKeepsBalance(p: State, q: State)
    requires ControlStep(p, q) && MovesData(p.control) && InvThreads(p) && InvQueue(p) && Balanced(p)
    ensures Balanced(q)
  {
    hide Buffers;
  }

  lemma DataStepKeepsFewLost(p: State, q: State)
    requires ControlStep(p, q) && MovesData(p.control) && InvThreads(p) && InvQueue(p) && FewLost(p)
    ensures FewLost(q)
  {
    hide Buffers;
  }

  // All of it, for every reachable state.

  ghost predicate Inv(p: State) {
    && InvGate(p) && InvThreads(p) && InvFrames(p) && InvQueueOrder(p) && InvDone(p) && InvDelivery(p) && InvAccount(p)
  }

  lemma FreshIsInv(p: State)
    requires Fresh(p)
    ensures Inv(p)
  {
    FreshIsPlaced(p);
    FreshIsControlled(p);
    FreshIsOrdered(p);
    FreshIsAccounted(p);
    hide *;
    InvParts(p);
  }

  lemma FreshIsControlled(p: State)
    requires Fresh(p)
    ensures InvGate(p) && InvThreads(p) && InvQueue(p)
  {
    hide AllBuffers;
  }

  lemma FreshIsOrdered(p: State)
    requires Fresh(p)
    ensures InvQueueOrder(p) && InvDone(p) && InvDelivery(p)
  {
    hide AllBuffers;
  }

  lemma FreshIsAccounted(p: State)
    requires Fresh(p)
    ensures InvAccount(p)
  {
    FreshHasNothing(p);
    hide *;
    NothingIsBalanced(p);
    NothingIsFew(p);
    AccountParts(p);
  }

  lemma NothingIsBalanced(p: State)
    requires p.counts == Counts(0, 0, 0) && p.losses == Losses(0, 0, 0) && p.queue.items == [] && p.order.reference == 0
    requires p.capture.CaptureAbsent? && p.processing.ProcessingAbsent?
    ensures Balanced(p)
  {
    NothingIsPending(p.capture, p.processing);
    assert Lost(p.losses) == 0;
    assert p.counts.captured == p.counts.processed == p.counts.dropped == 0;
    hide *;
    NothingIsFound(p);
    FoundIsBalanced(p);
  }

  lemma NothingIsFound(p: State)
    requires p.counts.processed == p.counts.dropped == 0 && p.queue.items == [] && p.order.reference == 0
    requires PendingCapture(p.capture) == PendingProcessing(p.processing) == 0
    ensures Found(p) == 0
  {
    hide PendingCapture;
    hide PendingProcessing;
  }

  lemma FoundIsBalanced(p: State)
    requires p.counts.captured == Found(p) == Lost(p.losses) == Skipped(p.processing) == 0
    ensures Balanced(p)
  {
    hide Found;
    hide Lost;
    hide Skipped;
  }

  lemma NothingIsPending(capture: CapturePc, processing: ProcessingPc)
    requires capture.CaptureAbsent? && processing.ProcessingAbsent?
    ensures PendingCapture(capture) == PendingProcessing(processing) == Skipped(processing) == 0
  {
  }

  lemma NothingIsFew(p: State)
    requires p.losses == Losses(0, 0, 0)
    ensures FewLost(p)
  {
  }

  lemma FreshHasNothing(p: State)
    requires Fresh(p)
    ensures p.counts == Counts(0, 0, 0) && p.losses == Losses(0, 0, 0) && p.queue.items == [] && p.order.reference == 0
    ensures p.capture.CaptureAbsent? && p.processing.ProcessingAbsent? && p.control.ControlIdle?
    ensures !Pending(p.processing)
  {
    hide AllBuffers;
  }

  lemma FreshIsPlaced(p: State)
    requires Fresh(p)
    ensures Placed(p) == AllBuffers(p.poolSize)
  {
    assert Buffers([]) == [];
    hide Buffers;
    hide AllBuffers;
  }

  lemma CaptureKeepsInv(p: State, q: State, e: Event)
    requires Inv(p) && CaptureStep(p, q, e)
    ensures Inv(q)
  {
    CaptureKeepsSizes(p, q, e);
    hide *;
    InvParts(p);
    CaptureKeepsGate(p, q, e);
    CaptureKeepsThreads(p, q, e);
    CaptureKeepsPlaces(p, q, e);
    CaptureKeepsQueue(p, q, e);
    CaptureKeepsOrder(p, q, e);
    CaptureKeepsDone(p, q, e);
    CaptureKeepsDelivery(p, q, e);
    AccountParts(p);
    CaptureKeepsBalance(p, q, e);
    CaptureKeepsFewLost(p, q, e);
    AccountParts(q);
    InvParts(q);
  }

  lemma CaptureKeepsSizes(p: State, q: State, e: Event)
    requires CaptureStep(p, q, e)
    ensures q.poolSize == p.poolSize
  {
    hide Buffers;
    hide LastItems;
  }

  lemma AccountParts(p: State)
    ensures InvAccount(p) <==> Balanced(p) && FewLost(p)
  {
  }

  lemma InvParts(p: State)
    ensures Inv(p) <==>
            && InvGate(p) && InvThreads(p) && InvQueue(p) && Placed(p) == AllBuffers(p.poolSize)
            && InvQueueOrder(p) && InvDone(p) && InvDelivery(p) && InvAccount(p)
  {
    hide InvGate;
    hide InvThreads;
    hide InvQueue;
    hide Placed;
    hide AllBuffers;
    hide InvQueueOrder;
    hide InvDone;
    hide InvDelivery;
    hide InvAccount;
  }

  lemma ProcessingKeepsInv(p: State, q: State, e: Event)
    requires Inv(p) && ProcessingStep(p, q, e)
    ensures Inv(q)
  {
    ProcessingKeepsSizes(p, q, e);
    hide *;
    InvParts(p);
    ProcessingKeepsControl(p, q, e);
    ProcessingKeepsData(p, q, e);
    ProcessingKeepsRest(p, q, e);
    InvParts(q);
  }

  lemma ProcessingKeepsSizes(p: State, q: State, e: Event)
    requires ProcessingStep(p, q, e)
    ensures q.poolSize == p.poolSize
  {
    hide Buffers;
  }

  lemma {:induction false} ProcessingKeepsControl(p: State, q: State, e: Event)
    requires InvGate(p) && InvThreads(p) && ProcessingStep(p, q, e)
    ensures InvGate(q) && InvThreads(q)
  {
    hide GateStep;
    hide WorkStep;
    hide InvGate;
    hide InvThreads;
    if WorkStep(p, q, e) {
      WorkKeepsGate(p, q, e);
      WorkKeepsThreads(p, q, e);
    } else {
      GateKeepsGate(p, q);
      GateKeepsThreads(p, q);
    }
  }

  lemma ProcessingKeepsData(p: State, q: State, e: Event)
    requires InvThreads(p) && InvQueue(p) && InvQueueOrder(p) && InvDelivery(p) && ProcessingStep(p, q, e)
    ensures InvQueue(q) && InvQueueOrder(q) && InvDelivery(q)
  {
    hide GateStep;
    hide WorkStep;
    hide InvThreads;
    hide InvQueue;
    hide InvQueueOrder;
    hide InvDelivery;
    if WorkStep(p, q, e) {
      WorkKeepsQueue(p, q, e);
      WorkKeepsQueueOrder(p, q, e);
      WorkKeepsDelivery(p, q, e);
    } else {
      GateKeepsQueue(p, q);
      GateKeepsQueueOrder(p, q);
      GateKeepsDelivery(p, q);
    }
  }

  lemma ProcessingKeepsRest(p: State, q: State, e: Event)
    requires InvThreads(p) && InvQueue(p) && InvQueueOrder(p) && InvDone(p) && InvAccount(p) && ProcessingStep(p, q, e)
    ensures Placed(q) == Placed(p) && InvDone(q) && InvAccount(q)
  {
    hide GateStep;
    hide WorkStep;
    hide InvThreads;
    hide InvQueue;
    hide InvQueueOrder;
    hide InvDone;
    hide Balanced;
    hide FewLost;
    hide Placed;
    if WorkStep(p, q, e) {
      WorkKeepsPlaces(p, q, e);
      WorkKeepsDone(p, q, e);
      WorkKeepsBalance(p, q, e);
      WorkKeepsFewLost(p, q, e);
    } else {
      GateKeepsPlaces(p, q);
      GateKeepsDone(p, q);
      GateKeepsBalance(p, q);
      GateKeepsFewLost(p, q);
    }
  }

  lemma CallsKeepInv(p: State, q: State)
    requires Inv(p) && (ControlStep(p, q) || BeginCall(p, q))
    ensures Inv(q)
  {
    CallsKeepSizes(p, q);
    hide *;
    InvParts(p);
    CallsKeepControl(p, q);
    CallsKeepRest(p, q);
    InvParts(q);
  }

  lemma CallsKeepRest(p: State, q: State)
    requires ControlStep(p, q) || BeginCall(p, q)
    requires InvThreads(p) && InvQueue(p) && InvQueueOrder(p) && InvDone(p) && InvDelivery(p) && InvAccount(p)
    ensures Placed(q) == Placed(p) && InvQueue(q) && InvQueueOrder(q) && InvDone(q) && InvDelivery(q) && InvAccount(q)
  {
    BeginMovesNothing(p, q);
    hide *;
    CallEffects(p, q);
    if SameData(p, q) {
      SameDataKeeps(p, q);
    } else {
      DataStepKeepsPlaces(p, q);
      DataStepKeepsQueueOrder(p, q);
      DataStepKeepsDone(p, q);
      DataStepKeepsDelivery(p, q);
      AccountParts(p);
      DataStepKeepsBalance(p, q);
      DataStepKeepsFewLost(p, q);
      AccountParts(q);
    }
  }

  lemma BeginMovesNothing(p: State, q: State)
    ensures BeginCall(p, q) ==> !MovesData(p.control)
  {
  }

  lemma CallsKeepSizes(p: State, q: State)
    requires ControlStep(p, q) || BeginCall(p, q)
    ensures q.poolSize == p.poolSize
  {
    hide Buffers;
  }

  lemma {:induction false} NextKeepsInv(p: State, q: State)
    requires Inv(p) && Next(p, q)
    ensures Inv(q)
  {
    hide Inv;
    hide CaptureStep;
    hide ProcessingStep;
    hide ControlStep;
    hide BeginCall;
    if e :| CaptureStep(p, q, e) {
      CaptureKeepsInv(p, q, e);
    } else if e :| ProcessingStep(p, q, e) {
      ProcessingKeepsInv(p, q, e);
    } else {
      CallsKeepInv(p, q);
    }
  }

  lemma {:induction false} RunKeepsInv(run: seq<State>, i: nat)
    requires Run(run) && i < |run|
    ensures Inv(run[i])
    decreases i
  {
    hide Inv;
    hide Next;
    hide Fresh;
    if i == 0 {
      FreshIsInv(run[0]);
    } else {
      RunKeepsInv(run, i - 1);
      NextKeepsInv(run[i - 1], run[i]);
    }
  }

  /** A stopped pipeline, and one whose start prepares, has every buffer back and an empty queue. */
  lemma {:induction false} AllBackWhenStopped(p: State)
    requires Inv(p) && (p.gate.state == Stopped || p.control.StartPrepare?)
    ensures |p.pool.available| == p.poolSize && p.queue.items == []
    ensures PendingCapture(p.capture) == PendingProcessing(p.processing) == 0
  {
    PoolNeverEmpty(p);
    hide Placed;
    hide AllBuffers;
    hide Buffers;
    hide InvAccount;
    hide InvDone;
    hide InvQueueOrder;
  }

  /** Each buffer is in one place, one is always free, and no start finds frames in use. */
  lemma {:induction false} BuffersConserved(run: seq<State>, i: nat)
    requires Run(run) && i < |run|
    ensures var p := run[i];
            && Placed(p) == AllBuffers(p.poolSize)
            && |p.pool.available| >= 1
            && (p.gate.state == Stopped || p.control.StartPrepare? ==> |p.pool.available| == p.poolSize)
  {
    hide Run;
    RunKeepsInv(run, i);
    InvParts(run[i]);
    assert InvFrames(run[i]);
    PoolNeverEmpty(run[i]);
    if run[i].gate.state == Stopped || run[i].control.StartPrepare? {
      AllBackWhenStopped(run[i]);
    }
    hide Inv;
    hide InvFrames;
    hide Buffers;
    hide AllBuffers;
  }

  /** No stop is requested, and each thread runs or is not started yet. */
  predicate Live(p: State) {
    && !p.gate.stopRequested
    && (p.control.StartCapture? || !CaptureFailing(p.capture))
    && (p.control.StartCapture? || p.control.StartProcessing? || !ProcessingFailing(p.processing))
  }

  /** While the threads run, no frame goes missing; a stop or a fault loses at most 2 * capacity + 1. */
  lemma {:induction false} FramesAccounted(run: seq<State>, i: nat)
    requires Run(run) && i < |run|
    ensures var p := run[i];
            && p.counts.captured == Found(p) + Lost(p.losses)
            && Lost(p.losses) <= 2 * p.capacity + 1
            && (Live(p) ==> Lost(p.losses) == 0)
            && (p.gate.state == Stopped ==>
                  p.counts.captured <= p.counts.processed + p.counts.dropped + 2 * p.capacity + 2)
  {
    hide Run;
    RunKeepsInv(run, i);
    InvParts(run[i]);
    if run[i].gate.state == Stopped {
      AllBackWhenStopped(run[i]);
    }
    hide Inv;
    hide Placed;
    hide InvQueueOrder;
    hide InvDone;
    hide InvDelivery;
  }

  /** Results come from frames in capture order, all captured after the reference. */
  lemma {:induction false} ProcessedInCaptureOrder(run: seq<State>, i: nat)
    requires Run(run) && i < |run|
    ensures var p := run[i];
            && |p.order.numbers| == |p.delivery.results| == p.counts.processed
            && AllBetween(p.order.numbers, p.order.reference, p.counts.captured)
  {
    hide Run;
    RunKeepsInv(run, i);
    InvParts(run[i]);
    hide Inv;
    hide Placed;
    hide InvAccount;
    hide InvDelivery;
    hide InvGate;
    hide InvThreads;
  }

  // The parts: the threads do to pool and queue what the methods of those promise.

  /** The capture thread acquires a buffer, if the call does not throw. */
  lemma {:induction false} AcquireIsOfPool(p: State, q: State, e: Event)
    requires CaptureStep(p, q, e) && p.capture.CaptureAcquire? && !q.capture.CaptureFault?
    ensures exists frame: Option<nat> ::
              && FramePools.Acquires(p.pool.available, p.pool.closed, q.pool.available, frame)
              && q.capture == match frame { case None => CaptureTop case Some(buffer) => CaptureGrab(buffer) }
    ensures q == p.(pool := p.pool.(available := q.pool.available), capture := q.capture)
  {
    hide Buffers;
    if p.pool.closed || p.pool.available == [] {
      assert FramePools.Acquires(p.pool.available, p.pool.closed, q.pool.available, None);
    } else {
      var last := |p.pool.available| - 1;
      assert p.pool.available == p.pool.available[..last] + [p.pool.available[last]];
      assert FramePools.Acquires(p.pool.available, p.pool.closed, q.pool.available, Some(p.pool.available[last]));
    }
  }

  /** It pushes its frame, if the call does not throw; the buffers of the frames that fall out go back to the pool. */
  lemma {:induction false} PushIsOfQueue(p: State, q: State, e: Event)
    requires InvQueue(p) && CaptureStep(p, q, e) && p.capture.CapturePush? && !q.capture.CaptureUnwind?
    ensures q.capture.CaptureDropped? && q.queue.closed == p.queue.closed
    ensures Pushes(p.queue.items, p.queue.closed, p.capture.frame, p.capacity, q.queue.items, q.capture.dropped)
    ensures var gone := if p.queue.closed then [p.capture.frame] else p.queue.items[..q.capture.dropped];
            q.pool == Release(p.pool, Buffers(gone))
  {
    assert Buffers([p.capture.frame]) == [p.capture.frame.buffer];
    hide Buffers;
  }

  /** The processing thread pops the newest frame. */
  lemma {:induction false} PopIsOfQueue(p: State, q: State)
    requires GateStep(p, q) && p.processing.ProcessingPop?
    ensures exists popped: Option<QueuePop<Frame>> ::
              && Pops(p.queue.items, q.queue.items, popped)
              && q.processing == match popped {
                   case None => ProcessingTop
                   case Some(pop) => GateLock(pop.value, pop.skipped)
                 }
    ensures q.queue.closed == p.queue.closed
    ensures p.queue.items != [] ==> q.pool == Release(p.pool, Buffers(p.queue.items[..|p.queue.items| - 1]))
  {
    hide Buffers;
    var items := p.queue.items;
    if items == [] {
      assert Pops(items, q.queue.items, None);
    } else {
      assert Pops(items, q.queue.items, Some(QueuePop(items[|items| - 1], |items| - 1)));
    }
  }

  // Pause: between its return and the next resume or stop nothing is processed.

  /** What pause has established when it returns. */
  ghost predicate Quiet(p: State) {
    && p.gate.paused && !InActiveRegion(p.processing) && !p.processing.GateActivate?
    && (p.processing.GateCheck? ==> p.gate.stopRequested)
  }

  lemma {:induction false} PauseReturnsQuiet(p: State, q: State)
    requires InvGate(p) && p.control.PauseUnlock? && PauseStep(p, q)
    ensures Quiet(q) && q.counts == p.counts && q.delivery == p.delivery
  {
  }

  /** No resume and no stop has begun to undo the pause. */
  predicate NotEnding(c: ControlPc) {
    c.ControlIdle? || c.PauseFlag? || c.PauseLock? || c.PauseTest? || c.PauseUnlock?
  }

  lemma CaptureKeepsQuiet(p: State, q: State, e: Event)
    requires Quiet(p) && CaptureStep(p, q, e)
    ensures Quiet(q) && q.counts.processed == p.counts.processed && q.delivery == p.delivery
  {
    hide Buffers;
    hide LastItems;
  }

  lemma ProcessingKeepsQuiet(p: State, q: State, e: Event)
    requires Quiet(p) && ProcessingStep(p, q, e)
    ensures Quiet(q) && q.counts.processed == p.counts.processed && q.delivery == p.delivery
  {
    hide Buffers;
  }

  lemma CallsKeepQuiet(p: State, q: State)
    requires Quiet(p) && NotEnding(p.control) && (ControlStep(p, q) || BeginCall(p, q))
    ensures Quiet(q) && q.counts.processed == p.counts.processed && q.delivery == p.delivery
  {
    hide Buffers;
  }

  lemma {:induction false} QuietStays(p: State, q: State)
    requires Quiet(p) && Next(p, q) && NotEnding(p.control)
    ensures Quiet(q) && q.counts.processed == p.counts.processed && q.delivery == p.delivery
  {
    hide CaptureStep;
    hide ProcessingStep;
    hide ControlStep;
    hide BeginCall;
    if e :| CaptureStep(p, q, e) {
      CaptureKeepsQuiet(p, q, e);
    } else if e :| ProcessingStep(p, q, e) {
      ProcessingKeepsQuiet(p, q, e);
    } else {
      CallsKeepQuiet(p, q);
    }
  }

  /** However the threads interleave, no callback runs and nothing is counted while the pipeline is paused. */
  lemma {:induction false} PausedIsQuiet(run: seq<State>, i: nat, j: nat)
    requires Run(run) && i < j < |run|
    requires run[i].control.PauseUnlock? && PauseStep(run[i], run[i + 1])
    requires forall k :: i < k < j ==> NotEnding(run[k].control)
    ensures !InActiveRegion(run[j].processing)
    ensures run[j].counts.processed == run[i].counts.processed && run[j].delivery == run[i].delivery
  {
    QuietFrom(run, i, j);
  }

  lemma {:induction false} QuietFrom(run: seq<State>, i: nat, j: nat)
    requires Run(run) && i < j < |run|
    requires run[i].control.PauseUnlock? && PauseStep(run[i], run[i + 1])
    requires forall k :: i < k < j ==> NotEnding(run[k].control)
    ensures Quiet(run[j]) && run[j].counts.processed == run[i].counts.processed && run[j].delivery == run[i].delivery
    decreases j
  {
    hide Next;
    hide PauseStep;
    hide Quiet;
    hide Fresh;
    if j == i + 1 {
      RunKeepsInv(run, i);
      InvParts(run[i]);
      PauseReturnsQuiet(run[i], run[j]);
    } else {
      QuietFrom(run, i, j - 1);
      assert Next(run[j - 1], run[j - 1 + 1]);
      QuietStays(run[j - 1], run[j]);
    }
  }
}
