/** Exactly when open and close return, and what a close that returns has achieved. */
module AsyncWriterCalls {
  import opened Outcomes
  import opened Bytes
  import opened ResultPacket
  import opened SessionBinary
  import opened AsyncWriter
  import opened AsyncWriterSafety

  // Close.

  /** No worker fault, and neither the flush nor the manifest's close threw. */
  predicate CloseSucceeded(w: State) {
    !w.shared.faulted && !w.closing.flushFailed && !w.closing.manifestFailed
  }

  /** A close returns exactly if nothing failed, and leaves the session open exactly if the manifest failed. */
  lemma {:induction false} CloseOutcome(w: State, v: State)
    requires Inv(w) && CloseStep(w, v) && v.closing.pc.NotClosing?
    ensures v.outcome == Returned <==> CloseSucceeded(v)
    ensures v.shared.open <==> v.closing.manifestFailed
    ensures v.shared.faulted == w.shared.faulted
  {
    hide *;
    InvParts(w);
    ClosingError(w);
    EndOfClose(w, v);
    SucceededIs(v);
  }

  lemma SucceededIs(w: State)
    ensures CloseSucceeded(w) <==> !w.shared.faulted && !w.closing.flushFailed && !w.closing.manifestFailed
  {
  }

  lemma EndOfClose(w: State, v: State)
    requires CloseStep(w, v) && v.closing.pc.NotClosing?
    ensures v.shared.faulted == w.shared.faulted && v.closing.flushFailed == w.closing.flushFailed && v.disk == w.disk
    ensures v.closing.foundOpen == w.closing.foundOpen
    ensures if w.closing.pc.CloseFinish? then
              && v.closing.manifestFailed == w.closing.manifestFailed && !v.shared.open
              && v.outcome == (if w.closing.error then Thrown else Returned)
            else
              w.closing.pc.CloseManifest? && v.closing.manifestFailed && v.shared.open == w.shared.open
                  && v.outcome == Thrown
  {
    hide Finalised;
    hide Flushed;
  }

  lemma ClosingError(w: State)
    requires InvClosing(w) && InvFlags(w)
    ensures w.closing.pc.CloseFinish? ==> (w.closing.error <==> w.shared.faulted || w.closing.flushFailed)
    ensures !w.closing.pc.NotClosing? ==> !w.closing.manifestFailed && w.shared.open
  {
  }

  /** A close begins at step i of the run and ends at step j. */
  ghost predicate Closes(run: seq<State>, i: nat, j: nat, status: Status)
    requires i < j && j + 1 < |run|
  {
    && run[i].shared.open && BeginClose(run[i], run[i + 1], status)
    && (forall k :: i < k <= j ==> !run[k].closing.pc.NotClosing?)
    && CloseStep(run[j], run[j + 1]) && run[j + 1].closing.pc.NotClosing?
  }

  /** No step of a close in progress opens a session, and a file that is closed stays as it is. */
  lemma ClosingSteps(w: State, v: State)
    requires Inv(w) && Next(w, v) && !w.closing.pc.NotClosing? && !v.closing.pc.NotClosing?
    ensures v.closing.foundOpen == w.closing.foundOpen && (w.shared.faulted ==> v.shared.faulted)
    ensures !w.disk.open ==> v.disk == w.disk
  {
    hide *;
    InvParts(w);
    WorkingNeedsFile(w);
    if reported :| WorkerStep(w, v, reported) {
      WorkerLeavesClosing(w, v, reported);
    } else if CloseStep(w, v) {
      CloseLeavesClosing(w, v);
    } else {
      OthersLeaveClosing(w, v);
    }
  }

  lemma OthersLeaveClosing(w: State, v: State)
    requires Next(w, v) && !w.closing.pc.NotClosing? && !(exists reported :: WorkerStep(w, v, reported))
    requires !CloseStep(w, v)
    ensures v.closing == w.closing && (w.shared.faulted ==> v.shared.faulted) && (!w.disk.open ==> v.disk == w.disk)
  {
    hide WorkerStep;
    hide CloseStep;
    hide OpenFails;
    hide Opened;
  }

  lemma WorkingNeedsFile(w: State)
    requires InvFlags(w)
    ensures Working(w.worker) ==> w.disk.open
  {
  }

  lemma WorkerLeavesClosing(w: State, v: State, reported: bool)
    requires WorkerStep(w, v, reported) && (Working(w.worker) ==> w.disk.open)
    ensures v.closing == w.closing && (w.shared.faulted ==> v.shared.faulted) && (!w.disk.open ==> v.disk == w.disk)
  {
    hide Put;
    hide Record;
  }

  lemma CloseLeavesClosing(w: State, v: State)
    requires CloseStep(w, v)
    ensures v.closing.foundOpen == w.closing.foundOpen && v.shared.faulted == w.shared.faulted
    ensures !w.disk.open ==> v.disk == w.disk
  {
    hide Finalised;
  }

  lemma BeginCloseEffects(w: State, v: State, status: Status)
    requires w.shared.open && BeginClose(w, v, status)
    ensures v.closing.foundOpen == w.disk.open && v.disk == w.disk && v.shared.faulted == w.shared.faulted
  {
  }

  lemma {:induction false} DuringClose(run: seq<State>, i: nat, j: nat, k: nat, status: Status)
    requires Run(run) && i < j && j + 1 < |run| && Closes(run, i, j, status) && i < k <= j
    ensures run[k].closing.foundOpen == run[i].disk.open && (run[i].shared.faulted ==> run[k].shared.faulted)
    ensures !run[i].disk.open ==> run[k].disk == run[i].disk
    decreases k
  {
    hide *;
    StepOfClose(run, i, j, k, status);
    if k == i + 1 {
      BeginCloseEffects(run[i], run[k], status);
    } else {
      DuringClose(run, i, j, k - 1, status);
      RunKeepsInv(run, k - 1);
      ClosingSteps(run[k - 1], run[k]);
    }
  }

  lemma StepOfClose(run: seq<State>, i: nat, j: nat, k: nat, status: Status)
    requires Run(run) && i < j && j + 1 < |run| && Closes(run, i, j, status) && i < k <= j
    ensures run[i].shared.open && BeginClose(run[i], run[i + 1], status) && !run[k].closing.pc.NotClosing?
    ensures k > i + 1 ==> Next(run[k - 1], run[k]) && !run[k - 1].closing.pc.NotClosing?
  {
    hide Next;
    hide Fresh;
    hide BeginClose;
    hide CloseStep;
    assert k > i + 1 ==> Next(run[k - 1], run[k - 1 + 1]);
  }

  /**
   * A close that returns normally leaves all accepted results recorded. They are all on disk if and only if it
   * began with the file still open, or with everything already on disk.
   */
  lemma {:induction false} CloseWholeExactly(run: seq<State>, i: nat, j: nat, status: Status)
    requires Run(run) && i < j && j + 1 < |run| && Closes(run, i, j, status) && run[j + 1].outcome == Returned
    ensures var v := run[j + 1];
            && v.history.recorded == v.history.accepted && !v.shared.open && v.disk.durable <= |v.disk.stream.bytes|
            && v.counters.enqueued == v.counters.written == |v.history.accepted|
    ensures var v := run[j + 1];
            OnDisk(v.disk) == File(v.disk.info, v.history.accepted)
            <==> run[i].disk.open || run[i].disk.durable == |run[i].disk.stream.bytes|
  {
    assert CloseStep(run[j], run[j + 1]) && run[j + 1].closing.pc.NotClosing?;
    hide *;
    DuringClose(run, i, j, j, status);
    RunKeepsInv(run, j);
    EndOfClose(run[j], run[j + 1]);
    FinishedClose(run[j], run[j + 1]);
  }

  lemma FinishedClose(w: State, v: State)
    requires Inv(w) && w.closing.pc.CloseFinish? && !w.closing.error && CloseStep(w, v) && v.outcome == Returned
    ensures v.history.recorded == v.history.accepted && !v.shared.open
    ensures v.counters.enqueued == v.counters.written == |v.history.accepted|
    ensures v.disk == w.disk && v.disk.durable <= |v.disk.stream.bytes|
    ensures OnDisk(v.disk) == File(v.disk.info, v.history.accepted) <==> v.disk.durable == |v.disk.stream.bytes|
    ensures w.closing.foundOpen ==> v.disk.durable == |v.disk.stream.bytes|
  {
    FinishStep(w, v);
    FinishFacts(w);
    hide *;
    PartIsWhole(v.disk, v.history.accepted);
  }

  lemma FinishFacts(w: State)
    requires Inv(w) && w.closing.pc.CloseFinish? && !w.closing.error
    ensures w.history.recorded == w.history.accepted
    ensures w.counters.enqueued == w.counters.written == |w.history.accepted|
    ensures w.disk.durable <= |w.disk.stream.bytes| && w.disk.stream.bytes == File(w.disk.info, w.history.accepted)
    ensures w.closing.foundOpen ==> w.disk.durable == |w.disk.stream.bytes|
  {
    hide File;
    hide AllEncodable;
    hide Torn;
    var h := w.history;
    assert h.recorded + [] + [] + [] == h.recorded;
  }

  lemma PartIsWhole(d: Disk, results: seq<DicResult>)
    requires d.durable <= |d.stream.bytes| && d.stream.bytes == File(d.info, results)
    ensures OnDisk(d) == File(d.info, results) <==> d.durable == |d.stream.bytes|
  {
    hide File;
  }

  /** A close that begins after a worker fault throws. */
  lemma {:induction false} FaultedCloseThrows(run: seq<State>, i: nat, j: nat, status: Status)
    requires Run(run) && i < j && j + 1 < |run| && Closes(run, i, j, status) && run[i].shared.faulted
    ensures run[j + 1].outcome == Thrown
    ensures run[j + 1].shared.open <==> run[j + 1].closing.manifestFailed
  {
    assert CloseStep(run[j], run[j + 1]) && run[j + 1].closing.pc.NotClosing?;
    hide *;
    DuringClose(run, i, j, j, status);
    RunKeepsInv(run, j);
    CloseOutcome(run[j], run[j + 1]);
    SucceededIs(run[j + 1]);
  }

  // Open, and the session file that can never be closed.

  /** Without an open session, open can succeed exactly if results.p2dic is closed. */
  lemma {:induction false} OpenableExactly(w: State, info: SessionInfo)
    requires w.closing.pc.NotClosing? && !w.shared.open && info.width > 0 && info.height > 0
    ensures (exists v :: OpenStep(w, v, info) && v.outcome == Returned) <==> !w.disk.open
  {
    if !w.disk.open {
      assert OpenStep(w, Opened(w, info), info);
    } else {
      forall v | OpenStep(w, v, info)
        ensures v.outcome == Thrown
      {
      }
    }
  }

  lemma {:induction false} WedgedStays(w: State, v: State)
    requires Inv(w) && Wedged(w) && Next(w, v)
    ensures Wedged(v)
  {
    InvParts(w);
    hide InvQueue;
    hide InvSession;
    hide InvClosing;
    hide HeaderFails;
    hide ThreadFails;
    hide Opened;
    hide Finalised;
    hide Put;
    hide Record;
  }

  lemma {:induction false} WedgedForGood(run: seq<State>, i: nat, j: nat)
    requires Run(run) && i <= j < |run| && Wedged(run[i])
    ensures Wedged(run[j])
    decreases j
  {
    hide Next;
    hide Fresh;
    hide Wedged;
    if i < j {
      WedgedForGood(run, i, j - 1);
      RunKeepsInv(run, j - 1);
      assert Next(run[j - 1], run[j - 1 + 1]);
      WedgedStays(run[j - 1], run[j]);
    }
  }

  /** From the moment on at which a session header could not be written, every open throws. */
  lemma {:induction false} WedgedNeverOpens(run: seq<State>, i: nat, j: nat, info: SessionInfo)
    requires Run(run) && i <= j && j + 1 < |run| && Wedged(run[i]) && OpenStep(run[j], run[j + 1], info)
    ensures run[j + 1].outcome == Thrown && !run[j + 1].shared.open
  {
    hide Next;
    hide Fresh;
    WedgedForGood(run, i, j);
    hide Run;
    hide HeaderFails;
    hide ThreadFails;
    hide Opened;
    hide Finalised;
  }

  function FreshWriter(config: Config, info: SessionInfo): State {
    State(config, Shared([], false, false, false, false), NO_COUNTERS, Disk(info, false, Stream([], true), 0),
          Manifest(false, false, Missing), History(false, [], [], [], []), WorkerAbsent,
          Closing(NotClosing, Complete, false, false, false, false), Returned)
  }

  /** The writer after a device without room for the header. */
  function HeaderFailed(w: State, info: SessionInfo): State {
    w.(outcome := Thrown, manifest := Manifest(false, false, FaultedStatus), history := NO_HISTORY.(begun := false),
       disk := Disk(info, true, Stream([], false), 0))
  }

  /** The first open of a writer whose device has no room for the header. */
  lemma {:induction false} HeaderFailsWedges(config: Config, info: SessionInfo) returns (run: seq<State>)
    requires info.width > 0 && info.height > 0
    ensures Run(run) && |run| == 2 && OpenStep(run[0], run[1], info) && Wedged(run[1])
  {
    var w := FreshWriter(config, info);
    run := [w, HeaderFailed(w, info)];
    HeaderStep(w, info);
    assert Next(run[0], run[1]);
  }

  lemma HeaderStep(w: State, info: SessionInfo)
    requires !w.shared.open && !w.disk.open && w.closing.pc.NotClosing? && info.width > 0 && info.height > 0
    ensures OpenStep(w, HeaderFailed(w, info), info)
  {
    var v := HeaderFailed(w, info);
    var m, n := Manifest(true, true, Recording), Manifest(true, false, FaultedStatus);
    assert Put(Stream([], true), FileHeader(info), 0) == Stream([], false);
    assert HeaderFails(w, v, info, n.(present := false)) by {
      hide FileHeader;
      hide Put;
    }
    assert Finalised(m, n, FaultedStatus, false);
    assert OpenFailsLater(w, v, info, if false then n else n.(present := false));
    hide HeaderFails;
    hide Finalised;
    hide FileHeader;
    hide Put;
    hide OpenFailsLater;
  }
}
