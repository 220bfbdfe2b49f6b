/** How much of a session is on disk at any time, and what its manifest says. */
module AsyncWriterDisk {
  import opened Outcomes
  import opened Bytes
  import opened ResultPacket
  import opened SessionBinary
  import opened AsyncWriter
  import opened AsyncWriterSafety

  // The flush that the worker makes every few results.

  /** The worker has a session in hand and has not failed. */
  predicate Serving(pc: WorkerPc) {
    pc.WorkerWait? || pc.WorkerAppend? || pc.WorkerCsv? || pc.WorkerFlush? || pc.WorkerCount?
  }

  /** The records since the last flush, or since the session was opened. */
  function SinceFlush(pc: WorkerPc): nat
    requires Serving(pc)
  {
    match pc
    case WorkerWait(n) => n
    case WorkerAppend(_, n) => n
    case WorkerCsv(n) => n + 1
    case WorkerFlush(n) => n
    case WorkerCount(n) => n
  }

  /** The first n records are on disk. */
  ghost predicate FlushedTo(d: Disk, recorded: seq<DicResult>, n: int) {
    n <= 0 || (n <= |recorded| && |File(d.info, recorded[..n])| <= d.durable)
  }

  /** While the worker serves, all but the records since the last flush are on disk, and these are few. */
  ghost predicate FlushedInTime(w: State)
    requires Serving(w.worker)
  {
    && SinceFlush(w.worker) <= |w.history.recorded|
    && SinceFlush(w.worker) <= w.config.flushEvery
    && (!w.worker.WorkerCsv? && !w.worker.WorkerFlush? ==> SinceFlush(w.worker) < w.config.flushEvery)
    && FlushedTo(w.disk, w.history.recorded, |w.history.recorded| - SinceFlush(w.worker))
  }

  ghost predicate InvFlush(w: State) {
    w.history.begun ==>
      && FlushedTo(w.disk, w.history.recorded, |w.history.recorded| - w.config.flushEvery)
      && (Serving(w.worker) ==> FlushedInTime(w))
  }

  lemma FlushedToLess(d: Disk, recorded: seq<DicResult>, m: int, n: int)
    requires FlushedTo(d, recorded, n) && m <= n
    ensures FlushedTo(d, recorded, m)
  {
    hide File;
    if m > 0 {
      FileGrows(d.info, recorded, m, n);
    }
  }

  lemma FlushedToMore(d: Disk, e: Disk, recorded: seq<DicResult>, r: DicResult, n: int)
    requires FlushedTo(d, recorded, n) && e.info == d.info && d.durable <= e.durable
    ensures FlushedTo(e, recorded, n) && FlushedTo(e, recorded + [r], n)
  {
    hide File;
    if n > 0 {
      assert (recorded + [r])[..n] == recorded[..n];
    }
  }

  lemma FlushedAll(d: Disk, recorded: seq<DicResult>)
    requires |File(d.info, recorded)| <= d.durable
    ensures FlushedTo(d, recorded, |recorded|)
  {
    hide File;
    assert recorded[..|recorded|] == recorded;
  }

  lemma AppendKeepsFlush(w: State, v: State, result: DicResult, n: nat, room: nat)
    requires w.worker == WorkerAppend(result, n) && AppendStep(w, v, result, n, room) && w.history.begun && InvFlush(w)
    ensures InvFlush(v)
  {
    hide File;
    hide Record;
    hide Put;
    var h, every := w.history, w.config.flushEvery;
    FlushedToMore(w.disk, v.disk, h.recorded, result, |h.recorded| - n);
    FlushedToMore(w.disk, v.disk, h.recorded, result, |h.recorded| - every);
    if v.worker.WorkerCsv? {
      FlushedToLess(v.disk, v.history.recorded, |v.history.recorded| - every, |v.history.recorded| - (n + 1));
    }
  }

  lemma FlushKeepsFlush(w: State, v: State, n: nat)
    requires w.worker == WorkerFlush(n) && WorkerStep(w, v, false) && w.history.begun && InvFlush(w) && InvFile(w)
    requires w.disk.open
    ensures InvFlush(v)
  {
    hide File;
    hide Torn;
    var h, every := w.history, w.config.flushEvery;
    if v.worker == WorkerCount(0) && n >= every {
      FlushedAll(v.disk, h.recorded);
      FlushedToLess(v.disk, h.recorded, |h.recorded| - every, |h.recorded|);
    }
  }

  lemma OthersKeepFlush(w: State, v: State, reported: bool)
    requires !w.worker.WorkerAppend? && !w.worker.WorkerFlush? && WorkerStep(w, v, reported) && InvFlush(w)
    ensures InvFlush(v)
  {
    hide File;
  }

  lemma WorkerKeepsFlush(w: State, v: State, reported: bool)
    requires WorkerStep(w, v, reported) && InvFlush(w) && InvFlags(w) && (w.history.begun ==> InvFile(w))
    requires !w.worker.WorkerAbsent? ==> w.history.begun
    ensures InvFlush(v)
  {
    hide File;
    hide InvFlush;
    hide InvFile;
    if w.worker.WorkerAppend? {
      var room: nat :| AppendStep(w, v, w.worker.result, w.worker.sinceFlush, room);
      AppendKeepsFlush(w, v, w.worker.result, w.worker.sinceFlush, room);
    } else if w.worker.WorkerFlush? {
      FlushKeepsFlush(w, v, w.worker.sinceFlush);
    } else {
      OthersKeepFlush(w, v, reported);
    }
  }

  /** Open leaves a session alone, or begins one without records. */
  lemma OpenBegins(w: State, v: State, info: SessionInfo)
    requires OpenStep(w, v, info)
    ensures v.config == w.config
    ensures || (v.history == w.history && v.disk == w.disk && v.worker == w.worker)
            || !v.history.begun
            || (v.history.recorded == [] && (v.worker == WorkerWait(0) || v.worker == WorkerAbsent))
  {
    hide FileHeader;
    hide Put;
    hide Finalised;
    hide Flushed;
  }

  lemma OpenKeepsFlush(w: State, v: State, info: SessionInfo)
    requires OpenStep(w, v, info) && InvFlush(w)
    ensures InvFlush(v)
  {
    OpenBegins(w, v, info);
    hide OpenStep;
    hide InvFlush;
    if v.history.begun && v.history.recorded == [] && (v.worker == WorkerWait(0) || v.worker == WorkerAbsent) {
      NothingToFlush(v);
    } else {
      SameFlush(w, v);
    }
  }

  lemma NothingToFlush(w: State)
    requires w.history.recorded == [] && (w.worker == WorkerWait(0) || w.worker == WorkerAbsent)
    ensures InvFlush(w)
  {
    hide File;
  }

  lemma SameFlush(w: State, v: State)
    requires InvFlush(w) && v.config == w.config
    requires !v.history.begun || (v.history == w.history && v.disk == w.disk && v.worker == w.worker)
    ensures InvFlush(v)
  {
    hide File;
  }

  lemma CloseKeepsFlush(w: State, v: State)
    requires CloseStep(w, v) && InvFlush(w) && (w.history.begun ==> InvFile(w))
    ensures InvFlush(v)
  {
    hide File;
    hide Torn;
  }

  lemma RestKeepsFlush(w: State, v: State)
    requires InvFlush(w)
    requires DiskStep(w, v) || (exists result, answer :: EnqueueStep(w, v, result, answer))
             || (exists status :: BeginClose(w, v, status))
    ensures InvFlush(v)
  {
    hide File;
  }

  lemma StepCases(w: State, v: State)
    requires Next(w, v)
    ensures || (exists info :: OpenStep(w, v, info)) || (exists reported :: WorkerStep(w, v, reported))
            || CloseStep(w, v)
            || DiskStep(w, v) || (exists result, answer :: EnqueueStep(w, v, result, answer))
            || (exists status :: BeginClose(w, v, status))
  {
  }

  lemma NextKeepsFlush(w: State, v: State)
    requires Inv(w) && Next(w, v) && InvFlush(w)
    ensures InvFlush(v)
  {
    hide *;
    StepCases(w, v);
    SessionFacts(w);
    if info :| OpenStep(w, v, info) {
      OpenKeepsFlush(w, v, info);
    } else if reported :| WorkerStep(w, v, reported) {
      WorkerKeepsFlush(w, v, reported);
    } else if CloseStep(w, v) {
      CloseKeepsFlush(w, v);
    } else {
      RestKeepsFlush(w, v);
    }
  }

  lemma SessionFacts(w: State)
    requires Inv(w)
    ensures InvFlags(w) && (w.history.begun ==> InvFile(w)) && (!w.worker.WorkerAbsent? ==> w.history.begun)
  {
    hide InvFile;
    hide InvHistory;
    hide InvCounts;
    hide InvQueue;
    hide InvClosing;
  }

  // The manifest.

  /** A session that the worker serves is "recording"; a close that found it so finishes it as it was told. */
  ghost predicate InvManifest(w: State) {
    && (w.shared.open && !w.shared.stopRequested ==> w.manifest == Manifest(true, true, Recording))
    && (!w.closing.pc.NotClosing? && !w.closing.pc.CloseFinish? && w.closing.foundOpen ==>
          w.manifest == Manifest(true, true, Recording))
    && (w.closing.pc.CloseFinish? && w.closing.foundOpen ==>
          w.manifest.status == if w.closing.error then FaultedStatus else w.closing.status)
  }

  lemma NextKeepsManifest(w: State, v: State)
    requires Inv(w) && Next(w, v) && InvManifest(w)
    ensures InvManifest(v)
  {
    hide *;
    StepCases(w, v);
    SessionFacts(w);
    InvParts(w);
    if info :| OpenStep(w, v, info) {
      OpenKeepsManifest(w, v, info);
    } else if reported :| WorkerStep(w, v, reported) {
      WorkerKeepsManifest(w, v, reported);
    } else if CloseStep(w, v) {
      CloseKeepsManifest(w, v);
    } else {
      RestKeepsManifest(w, v);
    }
  }

  lemma OpenKeepsManifest(w: State, v: State, info: SessionInfo)
    requires OpenStep(w, v, info) && InvManifest(w)
    ensures InvManifest(v)
  {
    hide FileHeader;
    hide Put;
    hide Finalised;
    hide Flushed;
  }

  lemma WorkerKeepsManifest(w: State, v: State, reported: bool)
    requires WorkerStep(w, v, reported) && InvManifest(w)
    ensures InvManifest(v)
  {
    hide Put;
    hide Record;
  }

  lemma CloseKeepsManifest(w: State, v: State)
    requires CloseStep(w, v) && InvManifest(w) && InvFlags(w) && InvClosing(w)
    ensures InvManifest(v)
  {
    hide Flushed;
  }

  lemma RestKeepsManifest(w: State, v: State)
    requires InvManifest(w) && InvFlags(w) && InvClosing(w)
    requires DiskStep(w, v) || (exists result, answer :: EnqueueStep(w, v, result, answer))
             || (exists status :: BeginClose(w, v, status))
    ensures InvManifest(v)
  {
  }

  // Both, for every reachable state.

  ghost predicate InvDisk(w: State) { InvFlush(w) && InvManifest(w) }

  lemma DiskParts(w: State)
    ensures InvDisk(w) <==> InvFlush(w) && InvManifest(w)
  {
    hide InvFlush;
    hide InvManifest;
  }

  lemma NextKeepsDisk(w: State, v: State)
    requires Inv(w) && Next(w, v) && InvDisk(w)
    ensures InvDisk(v)
  {
    hide *;
    DiskParts(w);
    NextKeepsFlush(w, v);
    NextKeepsManifest(w, v);
    DiskParts(v);
  }

  lemma FreshHasDisk(w: State)
    requires Fresh(w)
    ensures InvDisk(w)
  {
    hide File;
  }

  lemma {:induction false} RunKeepsDisk(run: seq<State>, i: nat)
    requires Run(run) && i < |run|
    ensures InvDisk(run[i])
    decreases i
  {
    hide InvDisk;
    hide Next;
    hide Fresh;
    if i == 0 {
      FreshHasDisk(run[0]);
    } else {
      RunKeepsDisk(run, i - 1);
      RunKeepsInv(run, i - 1);
      NextKeepsDisk(run[i - 1], run[i]);
    }
  }

  /** The bound on what a crash can lose: all records are on disk but those since the last flush, which are few. */
  lemma {:induction false} LossBounded(run: seq<State>, i: nat)
    requires Run(run) && i < |run| && run[i].history.begun
    ensures var w := run[i]; FlushedTo(w.disk, w.history.recorded, |w.history.recorded| - w.config.flushEvery)
    ensures var w := run[i]; Serving(w.worker) ==> FlushedInTime(w)
  {
    hide *;
    RunKeepsDisk(run, i);
    DiskParts(run[i]);
    FlushParts(run[i]);
  }

  lemma FlushParts(w: State)
    requires InvFlush(w) && w.history.begun
    ensures FlushedTo(w.disk, w.history.recorded, |w.history.recorded| - w.config.flushEvery)
    ensures Serving(w.worker) ==> FlushedInTime(w)
  {
    hide FlushedTo;
    hide FlushedInTime;
  }

  /**
   * Whatever is on disk after a crash scans to a prefix of the accepted results, faults or not; it lacks at most as
   * many of the recorded results as the worker writes between two flushes.
   */
  lemma {:induction false} CrashRecovers(run: seq<State>, i: nat) returns (k: nat)
    requires Run(run) && i < |run| && run[i].history.begun
    requires FILE_HEADER_SIZE <= run[i].disk.durable
    ensures run[i].disk.durable <= |run[i].disk.stream.bytes|
    ensures |run[i].history.recorded| - run[i].config.flushEvery <= k <= |run[i].history.accepted|
    ensures var d := run[i].disk;
            var results := run[i].history.accepted[..k];
            var boundary := |File(d.info, results)|;
            ScanFile(OnDisk(d)) == Done(Scan(d.info, results, boundary, d.durable != boundary))
  {
    hide *;
    RunKeepsInv(run, i);
    RunKeepsDisk(run, i);
    DiskParts(run[i]);
    k := Recovered(run[i]);
  }

  lemma Recovered(w: State) returns (k: nat)
    requires Inv(w) && InvFlush(w) && w.history.begun && FILE_HEADER_SIZE <= w.disk.durable
    ensures w.disk.durable <= |w.disk.stream.bytes|
    ensures |w.history.recorded| - w.config.flushEvery <= k <= |w.history.accepted|
    ensures var results := w.history.accepted[..k];
            var boundary := |File(w.disk.info, results)|;
            ScanFile(OnDisk(w.disk)) == Done(Scan(w.disk.info, results, boundary, w.disk.durable != boundary))
  {
    HistoryAndFile(w);
    FlushedFar(w);
    hide *;
    k := RecoverFrom(w);
  }

  lemma HistoryAndFile(w: State)
    requires Inv(w) && w.history.begun
    ensures InvHistory(w) && InvFile(w)
  {
    hide InvHistory;
    hide InvFile;
    hide InvFlags;
    hide InvQueue;
    hide InvClosing;
    hide InvCounts;
  }

  lemma FlushedFar(w: State)
    requires InvFlush(w) && w.history.begun
    ensures var n := |w.history.recorded| - w.config.flushEvery;
            n <= 0 || (n <= |w.history.recorded| && |File(w.disk.info, w.history.recorded[..n])| <= w.disk.durable)
  {
    hide File;
  }

  // The counters that the status shows.

  ghost predicate Overran(w: State, v: State) { exists result :: EnqueueStep(w, v, result, Full) }

  ghost predicate Restarted(w: State, v: State) { exists info :: OpenStep(w, v, info) && v.counters == NO_COUNTERS }

  /** How many results found the queue full since the last session began. */
  ghost function Overruns(run: seq<State>, i: nat): nat
    requires i < |run|
  {
    if i == 0 then 0
    else if Overran(run[i - 1], run[i]) then Overruns(run, i - 1) + 1
    else if Restarted(run[i - 1], run[i]) then 0
    else Overruns(run, i - 1)
  }

  lemma CountersMove(w: State, v: State)
    requires Next(w, v)
    ensures if Overran(w, v) then v.counters.overruns == w.counters.overruns + 1
            else if Restarted(w, v) then v.counters.overruns == 0
            else v.counters.overruns == w.counters.overruns
    ensures || v.counters.maximumDepth == 0 || v.counters.maximumDepth == w.counters.maximumDepth
            || v.counters.maximumDepth == |v.shared.queue|
  {
    hide FileHeader;
    hide Put;
    hide Record;
    hide Finalised;
    hide Flushed;
  }

  /** The overrun counter is exact, and the high-water mark was the length of the queue at some time of the run. */
  lemma {:induction false} CountersExact(run: seq<State>, i: nat)
    requires Run(run) && i < |run|
    ensures run[i].counters.overruns == Overruns(run, i)
    ensures run[i].counters.maximumDepth == 0
            || exists k :: 0 <= k <= i && |run[k].shared.queue| == run[i].counters.maximumDepth
    decreases i
  {
    hide Next;
    hide Overran;
    hide Restarted;
    if i > 0 {
      CountersExact(run, i - 1);
      assert Next(run[i - 1], run[i - 1 + 1]);
      CountersMove(run[i - 1], run[i]);
      if run[i].counters.maximumDepth != 0 && run[i].counters.maximumDepth != |run[i].shared.queue| {
        var k :| 0 <= k <= i - 1 && |run[k].shared.queue| == run[i - 1].counters.maximumDepth;
        assert 0 <= k <= i;
      }
    }
  }
}
