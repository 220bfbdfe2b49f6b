/** What every step of the asynchronous writer keeps, and what follows for whole runs. */
module AsyncWriterSafety {
  import opened Outcomes
  import opened Bytes
  import opened ResultPacket
  import opened SessionBinary
  import opened AsyncWriter

  // Flags: who is alive, and what close has established.

  predicate Working(pc: WorkerPc) {
    !pc.WorkerAbsent? && !pc.WorkerReport? && !pc.WorkerEnded?
  }

  /** Close has joined the worker. */
  predicate Joined(pc: ClosePc) {
    pc.CloseReadError? || pc.CloseFlush? || pc.CloseBinary? || pc.CloseManifest? || pc.CloseFinish?
  }

  ghost predicate InvFlags(w: State) {
    var s := w.shared;
    && (!w.worker.WorkerAbsent? ==> s.open)
    && (s.open && s.accepting ==> !s.stopRequested && !s.faulted && !w.worker.WorkerAbsent?)
    && (s.open && !s.stopRequested ==>
          !w.worker.WorkerAbsent? && w.closing.pc.NotClosing? && w.disk.open && (s.accepting || s.faulted))
    && (!w.closing.pc.NotClosing? ==> s.open && s.stopRequested)
    && (Joined(w.closing.pc) ==> w.worker.WorkerAbsent?)
    && (Working(w.worker) ==> !s.faulted && w.disk.open)
    && (w.worker.WorkerReport? ==> s.faulted)
    && (w.worker.WorkerEnded? ==> s.stopRequested || s.faulted)
  }

  ghost predicate InvQueue(w: State) {
    var s := w.shared;
    && |s.queue| <= w.counters.maximumDepth <= w.config.capacity
    && (!s.open ==> s.queue == [])
    && (s.open && !s.faulted && (w.worker.WorkerAbsent? || w.worker.WorkerEnded?) ==> s.queue == [])
  }

  // History: every accepted result is recorded, in the worker's hand, lost to an append that threw, or queued.

  function Held(w: State): seq<DicResult> {
    if w.worker.WorkerAppend? then [w.worker.result] else w.history.lost
  }

  /** An appended result that is not counted as written yet, or never will be. */
  predicate Uncounted(pc: WorkerPc) { pc.WorkerCsv? || pc.WorkerFlush? || pc.WorkerCount? }

  ghost predicate InvHistory(w: State) {
    var h := w.history;
    && h.accepted == h.recorded + Held(w) + w.shared.queue + h.abandoned
    && w.counters.enqueued == |h.accepted|
    && |h.lost| <= 1
    && (w.worker.WorkerAppend? ==> h.lost == [])
    && (h.lost != [] ==> w.shared.faulted || w.worker.WorkerFault?)
    && (w.shared.open ==> h.abandoned == [])
    && AllEncodable(h.recorded)
  }

  ghost predicate InvCounts(w: State) {
    var n := |w.history.recorded|;
    && w.counters.written <= n <= w.counters.written + 1
    && (Uncounted(w.worker) ==> n == w.counters.written + 1)
    && (w.worker.WorkerWait? || w.worker.WorkerAppend? ==> n == w.counters.written)
    && (!w.shared.faulted && !Working(w.worker) ==> n == w.counters.written)
  }

  // The file: whole records, and possibly a part of the one whose append threw.

  /** The lost result, if bytes of it may have been written. */
  function Torn(lost: seq<DicResult>): seq<DicResult> {
    if lost != [] && Encodable(lost[0]) then [lost[0]] else []
  }

  ghost predicate FileHolds(d: Disk, recorded: seq<DicResult>, lost: seq<DicResult>) {
    && d.durable <= |d.stream.bytes| && d.info.width > 0 && d.info.height > 0
    && |File(d.info, recorded)| <= |d.stream.bytes|
    && d.stream.bytes <= File(d.info, recorded + Torn(lost))
    && (lost == [] || d.stream.good ==> d.stream.bytes == File(d.info, recorded))
  }

  ghost predicate InvFile(w: State) { FileHolds(w.disk, w.history.recorded, w.history.lost) }

  /** What close knows once it has read the error, and once it has flushed a file it found open. */
  ghost predicate InvClosing(w: State) {
    var c := w.closing;
    && (c.pc.CloseJoin? || c.pc.CloseReadError? || c.pc.CloseFlush? ==> !c.flushFailed)
    && (c.pc.CloseFlush? || c.pc.CloseBinary? || c.pc.CloseManifest? || c.pc.CloseFinish? ==>
          (c.error <==> w.shared.faulted || c.flushFailed))
    && (!c.pc.NotClosing? ==> !c.manifestFailed)
    && (c.pc.CloseJoin? || c.pc.CloseReadError? || c.pc.CloseFlush? ==> (c.foundOpen ==> w.disk.open))
    && (c.pc.CloseBinary? || c.pc.CloseManifest? || c.pc.CloseFinish? ==>
          && (c.foundOpen && !c.error ==> w.disk.stream.good)
          && (w.disk.stream.good ==> w.disk.durable == |w.disk.stream.bytes|))
    && (c.pc.CloseManifest? || c.pc.CloseFinish? ==> !w.disk.open)
    && (w.shared.stopRequested && c.pc.NotClosing? && w.shared.open ==> !w.disk.open)
    && (w.shared.open && !w.disk.open && w.disk.stream.good ==> w.disk.durable == |w.disk.stream.bytes|)
  }

  /** A session whose header could not be written keeps results.p2dic open for good. */
  ghost predicate Wedged(w: State) { w.disk.open && !w.shared.open }

  ghost predicate Inv(w: State) {
    && InvFlags(w) && InvQueue(w) && InvClosing(w)
    && (w.shared.open ==> w.history.begun)
    && (Wedged(w) ==> !w.history.begun)
    && (w.history.begun ==> InvHistory(w) && InvCounts(w) && InvFile(w))
  }

  /** The part of the invariant about the session on disk. */
  ghost predicate InvSession(w: State) {
    && (w.shared.open ==> w.history.begun)
    && (Wedged(w) ==> !w.history.begun)
    && (w.history.begun ==> InvHistory(w) && InvCounts(w) && InvFile(w))
  }

  lemma InvParts(w: State)
    ensures Inv(w) <==> InvFlags(w) && InvQueue(w) && InvClosing(w) && InvSession(w)
  {
    hide InvFlags;
    hide InvQueue;
    hide InvClosing;
    hide InvHistory;
    hide InvCounts;
    hide InvFile;
  }

  lemma FreshIsInv(w: State)
    requires Fresh(w)
    ensures Inv(w)
  {
  }

  lemma DiskKeepsInv(w: State, v: State)
    requires Inv(w) && DiskStep(w, v)
    ensures Inv(v)
  {
    hide File;
    hide Torn;
  }

  // Enqueue.

  lemma {:induction false} EnqueueKeepsInv(w: State, v: State, result: DicResult, answer: Enqueued)
    requires Inv(w) && EnqueueStep(w, v, result, answer)
    ensures Inv(v)
  {
    hide File;
    hide Torn;
    if answer == Taken {
      var h := w.history;
      var before := h.recorded + Held(w) + w.shared.queue;
      assert before + [result] + h.abandoned == before + h.abandoned + [result];
      assert before + [result] == h.recorded + Held(w) + (w.shared.queue + [result]);
    }
  }

  // The worker.

  lemma WorkerKeepsFlags(w: State, v: State, reported: bool)
    requires InvFlags(w) && WorkerStep(w, v, reported)
    ensures InvFlags(v)
  {
    hide Put;
    hide Record;
  }

  lemma WorkerKeepsQueue(w: State, v: State, reported: bool)
    requires InvFlags(w) && InvQueue(w) && WorkerStep(w, v, reported)
    ensures InvQueue(v)
  {
    hide Put;
    hide Record;
  }

  lemma WorkerKeepsClosing(w: State, v: State, reported: bool)
    requires InvFlags(w) && InvClosing(w) && WorkerStep(w, v, reported)
    ensures InvClosing(v)
  {
    hide Put;
    hide Record;
  }

  lemma AppendKeepsHistory(w: State, v: State, result: DicResult, n: nat, room: nat)
    requires InvFlags(w) && w.worker == WorkerAppend(result, n) && InvHistory(w) && InvCounts(w)
    requires AppendStep(w, v, result, n, room)
    ensures InvHistory(v) && InvCounts(v)
  {
    hide Record;
    hide Put;
    var h := w.history;
    assert h.recorded + [result] + [] + w.shared.queue + h.abandoned
           == h.recorded + [result] + w.shared.queue + h.abandoned;
  }

  lemma {:induction false} AppendKeepsFile(w: State, v: State, result: DicResult, n: nat, room: nat)
    requires w.disk.open && w.history.lost == [] && InvFile(w) && AppendStep(w, v, result, n, room)
    ensures InvFile(v)
  {
    var h, d := w.history, w.disk;
    if Encodable(result) {
      PutKeepsFile(d, h.recorded, result, room);
    }
    hide Record;
    hide Put;
    hide File;
    hide FileHolds;
    if !Encodable(result) {
      SkippedKeepsFile(d, h.recorded, result);
    }
  }

  lemma PutKeepsFile(d: Disk, recorded: seq<DicResult>, r: DicResult, room: nat)
    requires FileHolds(d, recorded, []) && Encodable(r)
    ensures var e := d.(stream := Put(d.stream, Record(r), room));
            if e.stream.good then FileHolds(e, recorded + [r], []) else FileHolds(e, recorded, [r])
  {
    assert Torn([r]) == [r] && Torn([]) == [];
    AppendedFile(d.info, recorded, r);
    PutTakesPrefix(d.stream, Record(r), room);
    hide *;
    PutHolds(d, Put(d.stream, Record(r), room), recorded, r);
  }

  lemma PutTakesPrefix(s: Stream, data: seq<Byte>, room: nat)
    ensures var t := Put(s, data, room);
            s.bytes <= t.bytes <= s.bytes + data && (t.good ==> s.good && t.bytes == s.bytes + data)
  {
  }

  lemma PutHolds(d: Disk, t: Stream, recorded: seq<DicResult>, r: DicResult)
    requires FileHolds(d, recorded, []) && Torn([r]) == [r] && Torn([]) == []
    requires File(d.info, recorded + [r]) == File(d.info, recorded) + Record(r)
    requires d.stream.bytes <= t.bytes <= d.stream.bytes + Record(r)
    requires t.good ==> t.bytes == d.stream.bytes + Record(r)
    ensures if t.good then FileHolds(d.(stream := t), recorded + [r], []) else FileHolds(d.(stream := t), recorded, [r])
  {
    hide File;
    hide Record;
    hide Torn;
    assert recorded + [r] + [] == recorded + [r] && recorded + [] == recorded;
  }

  lemma SkippedKeepsFile(d: Disk, recorded: seq<DicResult>, r: DicResult)
    requires FileHolds(d, recorded, []) && !Encodable(r)
    ensures FileHolds(d, recorded, [r])
  {
    hide File;
  }

  lemma AppendedFile(info: SessionInfo, results: seq<DicResult>, r: DicResult)
    ensures File(info, results + [r]) == File(info, results) + Record(r)
  {
    var all := results + [r];
    assert all[..|results|] == results && all[..|results| + 1] == all;
    SplitFile(info, all, |results|);
  }

  lemma WorkerKeepsSession(w: State, v: State, reported: bool)
    requires InvFlags(w) && InvQueue(w) && InvHistory(w) && InvCounts(w) && InvFile(w) && WorkerStep(w, v, reported)
    ensures InvHistory(v) && InvCounts(v) && InvFile(v)
  {
    if w.worker.WorkerAppend? {
      var room: nat :| AppendStep(w, v, w.worker.result, w.worker.sinceFlush, room);
      hide AppendStep;
      AppendKeepsHistory(w, v, w.worker.result, w.worker.sinceFlush, room);
      AppendKeepsFile(w, v, w.worker.result, w.worker.sinceFlush, room);
    } else {
      MovingKeepsFile(w, v, reported);
      MovingKeepsHistory(w, v, reported);
    }
  }

  lemma MovingKeepsHistory(w: State, v: State, reported: bool)
    requires InvFlags(w) && InvQueue(w) && InvHistory(w) && InvCounts(w) && WorkerStep(w, v, reported)
    requires !w.worker.WorkerAppend?
    ensures InvHistory(v) && InvCounts(v)
  {
    hide AllEncodable;
    if w.worker.WorkerWait? && w.shared.queue != [] {
      var h, q := w.history, w.shared.queue;
      assert h.recorded + [] + q + h.abandoned == h.recorded + [q[0]] + q[1..] + h.abandoned;
    }
  }

  lemma MovingKeepsFile(w: State, v: State, reported: bool)
    requires InvFile(w) && WorkerStep(w, v, reported) && !w.worker.WorkerAppend?
    ensures InvFile(v)
  {
    hide File;
    hide Torn;
  }

  lemma WorkerKeepsInv(w: State, v: State, reported: bool)
    requires Inv(w) && WorkerStep(w, v, reported)
    ensures Inv(v)
  {
    WorkerKeepsOpen(w, v, reported);
    assert w.shared.open;
    hide InvFlags;
    hide InvQueue;
    hide InvClosing;
    hide InvHistory;
    hide InvCounts;
    hide InvFile;
    hide WorkerStep;
    WorkerKeepsFlags(w, v, reported);
    WorkerKeepsQueue(w, v, reported);
    WorkerKeepsClosing(w, v, reported);
    WorkerKeepsSession(w, v, reported);
  }

  lemma WorkerKeepsOpen(w: State, v: State, reported: bool)
    requires WorkerStep(w, v, reported)
    ensures !w.worker.WorkerAbsent?
    ensures v.shared.open == w.shared.open && v.history.begun == w.history.begun && v.disk.open == w.disk.open
  {
    hide Put;
    hide Record;
  }

  // Closing.

  lemma BeginCloseKeepsInv(w: State, v: State, status: Status)
    requires Inv(w) && BeginClose(w, v, status)
    ensures Inv(v)
  {
    hide File;
    hide Torn;
  }

  lemma CloseKeepsFlags(w: State, v: State)
    requires InvFlags(w) && InvClosing(w) && CloseStep(w, v)
    ensures InvFlags(v) && InvClosing(v)
  {
  }

  lemma CloseKeepsQueue(w: State, v: State)
    requires InvFlags(w) && InvQueue(w) && CloseStep(w, v)
    ensures InvQueue(v)
  {
  }

  lemma CloseKeepsSession(w: State, v: State)
    requires InvFlags(w) && InvSession(w) && CloseStep(w, v) && InvClosing(w)
    ensures InvSession(v)
  {
    hide File;
    hide Torn;
    hide AllEncodable;
    if w.closing.pc.CloseFinish? {
      var h, q := w.history, w.shared.queue;
      assert h.recorded + Held(w) + [] + (h.abandoned + q) == h.recorded + Held(w) + q + h.abandoned;
    }
  }

  lemma CloseKeepsInv(w: State, v: State)
    requires Inv(w) && CloseStep(w, v)
    ensures Inv(v)
  {
    hide *;
    InvParts(w);
    CloseKeepsFlags(w, v);
    CloseKeepsQueue(w, v);
    CloseKeepsSession(w, v);
    InvParts(v);
  }

  // Opening.

  lemma NewFileHolds(info: SessionInfo, good: bool, open: bool, durable: nat)
    requires durable <= FILE_HEADER_SIZE && info.width > 0 && info.height > 0
    ensures FileHolds(Disk(info, open, Stream(FileHeader(info), good), durable), [], [])
  {
    NoRecords();
    assert FileHeader(info) + [] == FileHeader(info);
  }

  lemma SameSession(w: State, v: State)
    requires Inv(w) && v == w.(outcome := v.outcome, manifest := v.manifest)
    ensures Inv(v)
  {
    hide FileHolds;
    hide AllEncodable;
    assert Held(v) == Held(w);
  }

  lemma OpenedIsInv(w: State, info: SessionInfo)
    requires w.closing.pc.NotClosing? && info.width > 0 && info.height > 0
    ensures Inv(Opened(w, info))
  {
    NewFileHolds(info, true, true, 0);
    hide FileHolds;
    hide FileHeader;
  }

  lemma HeaderFailsKeepsInv(w: State, v: State, info: SessionInfo, n: Manifest)
    requires Inv(w) && w.closing.pc.NotClosing? && !w.shared.open && HeaderFails(w, v, info, n)
    ensures Inv(v)
  {
    hide FileHeader;
    hide FileHolds;
    hide Put;
  }

  lemma ThreadFailsKeepsInv(w: State, v: State, info: SessionInfo, n: Manifest)
    requires w.closing.pc.NotClosing? && info.width > 0 && info.height > 0 && ThreadFails(w, v, info, n)
    ensures Inv(v)
  {
    NewFileHolds(info, v.disk.stream.good, false, v.disk.durable);
    hide FileHolds;
    hide FileHeader;
  }

  lemma OpenFailsLaterKeepsInv(w: State, v: State, info: SessionInfo, n: Manifest)
    requires Inv(w) && w.closing.pc.NotClosing? && !w.shared.open && info.width > 0 && info.height > 0
    requires OpenFailsLater(w, v, info, n)
    ensures Inv(v)
  {
    hide HeaderFails;
    hide ThreadFails;
    if HeaderFails(w, v, info, n) && !w.disk.open {
      hide Inv;
      HeaderFailsKeepsInv(w, v, info, n);
    } else if ThreadFails(w, v, info, n) && !w.disk.open {
      hide Inv;
      ThreadFailsKeepsInv(w, v, info, n);
    } else {
      hide Inv;
      SameSession(w, v);
    }
  }

  lemma OpenFailsKeepsInv(w: State, v: State, info: SessionInfo)
    requires Inv(w) && w.closing.pc.NotClosing? && !w.shared.open && info.width > 0 && info.height > 0
    requires OpenFails(w, v, info)
    ensures Inv(v)
  {
    assert !w.shared.open && w.closing.pc.NotClosing?;
    hide OpenFailsLater;
    hide Finalised;
    if n: Manifest :| OpenFailsLater(w, v, info, n) {
      OpenFailsLaterKeepsInv(w, v, info, n);
    } else {
      hide Inv;
      SameSession(w, v);
    }
  }

  lemma {:induction false} OpenKeepsInv(w: State, v: State, info: SessionInfo)
    requires Inv(w) && OpenStep(w, v, info)
    ensures Inv(v)
  {
    hide OpenFails;
    hide Opened;
    if w.shared.open || info.width == 0 || info.height == 0 {
      hide Inv;
      SameSession(w, v);
    } else if OpenFails(w, v, info) {
      hide Inv;
      OpenFailsKeepsInv(w, v, info);
    } else {
      hide Inv;
      OpenedIsInv(w, info);
    }
  }

  lemma {:induction false} NextKeepsInv(w: State, v: State)
    requires Inv(w) && Next(w, v)
    ensures Inv(v)
  {
    hide Inv;
    hide DiskStep;
    hide OpenStep;
    hide EnqueueStep;
    hide WorkerStep;
    hide BeginClose;
    hide CloseStep;
    if info :| OpenStep(w, v, info) {
      OpenKeepsInv(w, v, info);
    } else if result, answer :| EnqueueStep(w, v, result, answer) {
      EnqueueKeepsInv(w, v, result, answer);
    } else if reported :| WorkerStep(w, v, reported) {
      WorkerKeepsInv(w, v, reported);
    } else if status :| BeginClose(w, v, status) {
      BeginCloseKeepsInv(w, v, status);
    } else if CloseStep(w, v) {
      CloseKeepsInv(w, v);
    } else {
      DiskKeepsInv(w, v);
    }
  }

  lemma {:induction false} RunKeepsInv(run: seq<State>, i: nat)
    requires Run(run) && i < |run|
    ensures Inv(run[i])
    decreases i
  {
    hide Inv;
    hide Next;
    hide Fresh;
    if i == 0 {
      FreshIsInv(run[0]);
    } else {
      RunKeepsInv(run, i - 1);
      NextKeepsInv(run[i - 1], run[i]);
    }
  }

  /** What the file holds if the machine stops now. */
  function OnDisk(d: Disk): seq<Byte>
    requires d.durable <= |d.stream.bytes|
  {
    d.stream.bytes[..d.durable]
  }

  /** Nothing accepted goes missing or changes place, queue and mark are bounded, and the counters tell the truth. */
  lemma {:induction false} AcceptedInOrder(run: seq<State>, i: nat)
    requires Run(run) && i < |run| && run[i].history.begun
    ensures var w := run[i]; var h := w.history;
            && h.accepted == h.recorded + Held(w) + w.shared.queue + h.abandoned && |Held(w)| <= 1
            && |w.shared.queue| <= w.counters.maximumDepth <= w.config.capacity
            && w.counters.enqueued == |h.accepted|
            && w.counters.written <= |h.recorded| <= w.counters.written + 1
    ensures var w := run[i]; var h := w.history;
            !w.shared.faulted && !w.worker.WorkerFault? ==> h.lost == [] && (w.shared.open ==> h.abandoned == [])
  {
    hide Run;
    RunKeepsInv(run, i);
    hide InvFlags;
    hide InvFile;
    hide InvClosing;
    hide AllEncodable;
  }

  /** What a close without error knows when it is about to return; having found the file open, the stream is good. */
  lemma WholeAtFinish(w: State)
    requires Inv(w) && w.closing.pc.CloseFinish? && !w.closing.error && (w.closing.foundOpen || w.disk.stream.good)
    ensures w.disk.stream.good && w.disk.info.width > 0 && w.disk.info.height > 0
    ensures var h := w.history;
            && h.recorded == h.accepted && w.shared.queue == [] && h.abandoned == []
            && w.counters.enqueued == w.counters.written == |h.accepted|
            && !w.disk.open && w.disk.durable == |w.disk.stream.bytes| && AllEncodable(h.accepted)
            && w.disk.stream.bytes == File(w.disk.info, h.accepted)
  {
    hide File;
    hide AllEncodable;
    hide Torn;
    var h := w.history;
    assert h.recorded + [] + [] + [] == h.recorded;
  }

  /**
   * Close returning normally: every accepted result is on disk, in order, and the file scans clean. This needs
   * that close found the file open, or that the stream has not failed; see SecondCloseMisleads for the rest.
   */
  lemma {:induction false} CloseReturnsWhole(run: seq<State>, i: nat)
    requires Run(run) && i + 1 < |run|
    requires run[i].closing.pc.CloseFinish? && CloseStep(run[i], run[i + 1]) && run[i + 1].outcome == Returned
    requires run[i].closing.foundOpen || run[i].disk.stream.good
    ensures var v := run[i + 1];
            && v.disk.durable == |v.disk.stream.bytes| && !v.shared.open
            && OnDisk(v.disk) == File(v.disk.info, v.history.accepted)
            && v.counters.enqueued == v.counters.written == |v.history.accepted| == |v.history.recorded|
    ensures var v := run[i + 1];
            ScanFile(v.disk.stream.bytes) == Done(Scan(v.disk.info, v.history.accepted, v.disk.durable, false))
  {
    RunKeepsInv(run, i);
    assert Inv(run[i]);
    hide Run;
    FinishReturns(run[i], run[i + 1]);
    hide *;
    WholeScans(run[i + 1].disk, run[i + 1].history.accepted);
  }

  lemma FinishReturns(w: State, v: State)
    requires Inv(w) && w.closing.pc.CloseFinish? && CloseStep(w, v) && v.outcome == Returned
    requires w.closing.foundOpen || w.disk.stream.good
    ensures v.history.recorded == v.history.accepted && !v.shared.open
    ensures v.counters.enqueued == v.counters.written == |v.history.accepted|
    ensures v.disk.durable == |v.disk.stream.bytes| && v.disk.stream.bytes == File(v.disk.info, v.history.accepted)
    ensures AllEncodable(v.history.accepted) && v.disk.info.width > 0 && v.disk.info.height > 0
  {
    FinishStep(w, v);
    hide *;
    WholeAtFinish(w);
  }

  lemma FinishStep(w: State, v: State)
    requires w.closing.pc.CloseFinish? && CloseStep(w, v) && v.outcome == Returned
    ensures !w.closing.error && !v.shared.open && v.disk == w.disk && v.counters == w.counters
    ensures v.history.recorded == w.history.recorded && v.history.accepted == w.history.accepted
  {
  }

  lemma WholeScans(d: Disk, results: seq<DicResult>)
    requires d.durable == |d.stream.bytes| && d.stream.bytes == File(d.info, results) && AllEncodable(results)
    requires d.info.width > 0 && d.info.height > 0
    ensures OnDisk(d) == File(d.info, results)
    ensures ScanFile(d.stream.bytes) == Done(Scan(d.info, results, d.durable, false))
  {
    ScanOfWritten(d.info, results);
    hide File;
    hide ScanFile;
  }

  /** The manifest says "complete" only if close had no error; if it found the file open, the file is whole. */
  lemma {:induction false} CompleteMeansWhole(w: State, v: State)
    requires Inv(w) && w.closing.pc.CloseManifest? && w.closing.foundOpen && CloseStep(w, v)
    requires w.manifest.status != Complete && v.manifest.status == Complete
    ensures v.history.recorded == v.history.accepted && v.disk.durable == |v.disk.stream.bytes|
    ensures v.disk.stream.bytes == File(v.disk.info, v.history.accepted)
  {
    hide File;
    hide AllEncodable;
    hide Torn;
    assert w.history.recorded + [] + [] + [] == w.history.recorded;
  }

  // What a scan finds on disk after a crash.

  lemma RecoverFrom(w: State) returns (k: nat)
    requires InvHistory(w) && InvFile(w)
    requires FILE_HEADER_SIZE <= w.disk.durable
    ensures w.disk.durable <= |w.disk.stream.bytes| && k <= |w.history.accepted|
    ensures var results := w.history.accepted[..k];
            var boundary := |File(w.disk.info, results)|;
            ScanFile(OnDisk(w.disk)) == Done(Scan(w.disk.info, results, boundary, w.disk.durable != boundary))
    ensures forall n: nat ::
              n <= |w.history.recorded| && |File(w.disk.info, w.history.recorded[..n])| <= w.disk.durable ==> n <= k
  {
    hide File;
    hide ScanFile;
    hide OnDisk;
    var h := w.history;
    var whole := h.recorded + Torn(h.lost);
    PrefixHeld(w);
    k := CutScans(w.disk, whole, h.accepted);
    forall n: nat | n <= |h.recorded|
      ensures h.recorded[..n] == whole[..n]
    {
    }
  }

  lemma CutScans(d: Disk, whole: seq<DicResult>, accepted: seq<DicResult>) returns (k: nat)
    requires d.info.width > 0 && d.info.height > 0 && AllEncodable(whole) && whole <= accepted
    requires FILE_HEADER_SIZE <= d.durable <= |d.stream.bytes| && d.stream.bytes <= File(d.info, whole)
    ensures k <= |accepted|
    ensures var boundary := |File(d.info, accepted[..k])|;
            ScanFile(OnDisk(d)) == Done(Scan(d.info, accepted[..k], boundary, d.durable != boundary))
    ensures forall n: nat :: n <= |whole| && |File(d.info, whole[..n])| <= d.durable ==> n <= k
  {
    hide *;
    OnDiskIs(d, whole);
    k := CutExists(d.info, whole, d.durable);
    CutIsPrefix(d.info, whole, accepted, d.durable, k);
    ScanOfCut(d.info, whole, d.durable, k);
    CutIsLongest(d.info, whole, d.durable, k);
  }

  lemma OnDiskIs(d: Disk, whole: seq<DicResult>)
    requires d.durable <= |d.stream.bytes| && d.stream.bytes <= File(d.info, whole)
    ensures OnDisk(d) == File(d.info, whole)[..d.durable]
  {
    hide File;
  }

  lemma CutIsPrefix(info: SessionInfo, whole: seq<DicResult>, accepted: seq<DicResult>, cut: nat, k: nat)
    requires CutAt(info, whole, cut, k) && whole <= accepted
    ensures k <= |whole| <= |accepted| && whole[..k] == accepted[..k]
  {
    hide File;
  }

  /** Files grow with their records. */
  lemma {:induction false} FileGrows(info: SessionInfo, results: seq<DicResult>, m: nat, n: nat)
    requires m <= n <= |results|
    ensures |File(info, results[..m])| <= |File(info, results[..n])|
  {
    hide *;
    if m < n {
      FileGrows(info, results, m, n - 1);
      SplitFile(info, results, n - 1);
    }
  }

  lemma CutIsLongest(info: SessionInfo, whole: seq<DicResult>, cut: nat, k: nat)
    requires CutAt(info, whole, cut, k)
    ensures forall n: nat :: n <= |whole| && |File(info, whole[..n])| <= cut ==> n <= k
  {
    hide File;
    forall n: nat | k < n <= |whole|
      ensures |File(info, whole[..n])| > cut
    {
      FileGrows(info, whole, k + 1, n);
    }
  }

  lemma PrefixHeld(w: State)
    requires InvHistory(w)
    ensures w.history.recorded + Torn(w.history.lost) <= w.history.accepted
    ensures AllEncodable(w.history.recorded + Torn(w.history.lost))
  {
    var h := w.history;
    if h.lost != [] {
      assert h.lost == [h.lost[0]];
      assert h.recorded + h.lost <= h.recorded + h.lost + w.shared.queue + h.abandoned;
      assert h.recorded + [] <= h.recorded + h.lost;
    } else {
      assert h.recorded + [] == h.recorded;
    }
  }

  // A close that threw can be repeated; the second one may return although the file is not on disk.

  function AfterFailedClose(info: SessionInfo, r: DicResult): State {
    State(Config(1, 2), Shared([], true, false, true, false), Counters(1, 1, 0, 1),
          Disk(info, false, Stream(FileHeader(info) + Record(r), false), 0), Manifest(true, true, Recording),
          History(true, [r], [r], [], []), WorkerAbsent, Closing(NotClosing, Complete, true, true, true, true), Thrown)
  }

  function AfterOneResult(info: SessionInfo, r: DicResult): State {
    State(Config(1, 2), Shared([], true, true, false, false), Counters(1, 1, 0, 1),
          Disk(info, true, Stream(FileHeader(info) + Record(r), true), 0), Manifest(true, true, Recording),
          History(true, [r], [r], [], []), WorkerWait(1), Closing(NotClosing, Complete, false, false, false, false),
          Returned)
  }

  lemma OneResultWritten(info: SessionInfo, r: DicResult) returns (run: seq<State>)
    requires Encodable(r) && info.width > 0 && info.height > 0
    ensures Run(run) && run[|run| - 1] == AfterOneResult(info, r)
  {
    hide Record;
    hide FileHeader;
    var w0 := State(Config(1, 2), Shared([], false, false, false, false), NO_COUNTERS,
                    Disk(info, false, Stream([], true), 0), Manifest(false, false, Recording),
                    History(false, [], [], [], []), WorkerAbsent,
                    Closing(NotClosing, Complete, false, false, false, false), Returned);
    var w1 := Opened(w0, info);
    var w2 := w1.(shared := Shared([r], true, true, false, false), counters := Counters(1, 0, 0, 1),
                  history := History(true, [r], [], [], []));
    var w3 := w2.(shared := Shared([], true, true, false, false), worker := WorkerAppend(r, 0));
    var w4 := w3.(disk := w3.disk.(stream := Stream(FileHeader(info) + Record(r), true)),
                  history := History(true, [r], [r], [], []), worker := WorkerCsv(0));
    var w5 := w4.(worker := WorkerFlush(1));
    var w6 := w5.(worker := WorkerCount(1));
    var w7 := AfterOneResult(info, r);
    run := [w0, w1, w2, w3, w4, w5, w6, w7];
    assert OpenStep(w0, w1, info);
    assert EnqueueStep(w1, w2, r, Taken);
    assert WorkerStep(w2, w3, false);
    assert AppendStep(w3, w4, r, 0, |Record(r)|);
    assert WorkerStep(w3, w4, false);
    assert WorkerStep(w4, w5, false);
    assert WorkerStep(w5, w6, false);
    assert WorkerStep(w6, w7, false);
    hide OpenStep;
    hide EnqueueStep;
    hide WorkerStep;
  }

  /** One result is written; at close the flush fails, and so does the manifest. */
  lemma FirstCloseFails(info: SessionInfo, r: DicResult) returns (run: seq<State>)
    requires Encodable(r) && info.width > 0 && info.height > 0
    ensures Run(run) && run[|run| - 1] == AfterFailedClose(info, r)
  {
    hide Record;
    hide FileHeader;
    hide Fresh;
    run := OneResultWritten(info, r);
    var w7 := AfterOneResult(info, r);
    var c := Closing(CloseJoin, Complete, false, true, false, false);
    var w8 := w7.(shared := Shared([], true, false, true, false), closing := c);
    var w9 := w8.(worker := WorkerEnded);
    var w10 := w9.(worker := WorkerAbsent, closing := c.(pc := CloseReadError));
    var w11 := w10.(closing := c.(pc := CloseFlush));
    var w12 := w11.(disk := w11.disk.(stream := Stream(FileHeader(info) + Record(r), false)),
                    closing := c.(pc := CloseBinary, error := true, flushFailed := true));
    var w13 := w12.(disk := w12.disk.(open := false), closing := w12.closing.(pc := CloseManifest));
    var w14 := AfterFailedClose(info, r);
    assert BeginClose(w7, w8, Complete);
    assert WorkerStep(w8, w9, false);
    assert CloseStep(w9, w10) && CloseStep(w10, w11) && CloseStep(w11, w12) && CloseStep(w12, w13)
           && CloseStep(w13, w14);
    hide WorkerStep;
    hide BeginClose;
    hide CloseStep;
    run := run + [w8, w9, w10, w11, w12, w13, w14];
  }

  /** The second close returns, the manifest says "complete", and nothing of the accepted result need be on disk. */
  lemma {:induction false} SecondCloseMisleads(info: SessionInfo, r: DicResult) returns (run: seq<State>)
    requires Encodable(r) && info.width > 0 && info.height > 0
    ensures Run(run) && |run| >= 2
    ensures var w := run[|run| - 2]; w.closing.pc.CloseFinish? && !w.closing.foundOpen && !w.disk.stream.good
    ensures var v := run[|run| - 1];
            && CloseStep(run[|run| - 2], v) && v.outcome == Returned && v.manifest.status == Complete
            && v.history.accepted == v.history.recorded == [r] && v.disk.durable == 0
  {
    hide Record;
    hide FileHeader;
    hide Fresh;
    run := FirstCloseFails(info, r);
    var w14 := AfterFailedClose(info, r);
    var w15 := w14.(closing := Closing(CloseJoin, Complete, false, false, false, false));
    var w16 := w15.(closing := Closing(CloseReadError, Complete, false, false, false, false));
    var w17 := w16.(closing := Closing(CloseFlush, Complete, false, false, false, false));
    var w18 := w17.(closing := Closing(CloseBinary, Complete, false, false, false, false));
    var w19 := w18.(closing := Closing(CloseManifest, Complete, false, false, false, false));
    var w20 := w19.(manifest := Manifest(false, false, Complete),
                    closing := Closing(CloseFinish, Complete, false, false, false, false));
    var w21 := w20.(shared := Shared([], false, false, true, false),
                    closing := Closing(NotClosing, Complete, false, false, false, false),
                    outcome := Returned);
    assert BeginClose(w14, w15, Complete);
    assert CloseStep(w15, w16) && CloseStep(w16, w17) && CloseStep(w17, w18) && CloseStep(w18, w19);
    assert Finalised(w19.manifest, Manifest(true, false, Complete), Complete, false);
    assert CloseStep(w19, w20) && CloseStep(w20, w21);
    hide BeginClose;
    hide CloseStep;
    run := run + [w15, w16, w17, w18, w19, w20, w21];
  }
}
