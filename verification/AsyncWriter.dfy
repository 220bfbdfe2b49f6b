/**
 * The asynchronous writer as a state machine: callers that enqueue, a worker that moves results from
 * the bounded queue to the session file, and whoever opens and closes the session.
 */
module AsyncWriter {
  import opened Outcomes
  import opened Bytes
  import opened ResultPacket
  import opened SessionBinary

  datatype Config = Config(capacity: Positive, flushEvery: Positive)

  /** The fields under the writer's mutex. */
  datatype Shared = Shared(queue: seq<DicResult>, open: bool, accepting: bool, stopRequested: bool, faulted: bool)

  datatype Counters = Counters(enqueued: nat, written: nat, overruns: nat, maximumDepth: nat)

  /** The stream of results.p2dic; the first `durable` of its bytes are on disk. */
  datatype Disk = Disk(info: SessionInfo, open: bool, stream: Stream, durable: nat)

  datatype Status = Recording | Complete | Interrupted | FaultedStatus | Missing

  /** Whether the manifest writer exists, has its session open, and what the manifest on disk says. */
  datatype Manifest = Manifest(present: bool, sessionOpen: bool, status: Status)

  /**
   * What happened since the session on disk was opened: the results enqueue accepted, those whose record
   * is whole, the one whose append threw, and those cleared from the queue by close.
   */
  datatype History = History(begun: bool, accepted: seq<DicResult>, recorded: seq<DicResult>,
                             lost: seq<DicResult>, abandoned: seq<DicResult>)

  /** The worker and the number of results since it flushed. */
  datatype WorkerPc =
    | WorkerAbsent
    | WorkerWait(sinceFlush: nat)
    | WorkerAppend(result: DicResult, sinceFlush: nat)
    | WorkerCsv(sinceFlush: nat)
    | WorkerFlush(sinceFlush: nat)
    | WorkerCount(sinceFlush: nat)
    | WorkerFault
    | WorkerReport
    | WorkerEnded

  datatype ClosePc =
    | NotClosing | CloseJoin | CloseReadError | CloseFlush | CloseBinary | CloseManifest | CloseFinish

  /**
   * The close in progress: its status and its error so far; and as history whether it found the session file
   * open, whether its flush threw and whether the manifest's close did. It stays to be seen when the close is over.
   */
  datatype Closing = Closing(
    pc: ClosePc, status: Status, error: bool, foundOpen: bool, flushFailed: bool, manifestFailed: bool)

  datatype State = State(
    config: Config, shared: Shared, counters: Counters, disk: Disk, manifest: Manifest, history: History,
    worker: WorkerPc, closing: Closing, outcome: CallOutcome)

  const NO_COUNTERS: Counters := Counters(0, 0, 0, 0)
  const NO_HISTORY: History := History(true, [], [], [], [])

  ghost predicate Fresh(w: State) {
    && w.shared == Shared([], false, false, false, false)
    && w.counters == NO_COUNTERS
    && !w.disk.open && w.disk.stream.bytes == [] && w.disk.durable == 0
    && !w.manifest.present && !w.manifest.sessionOpen
    && !w.history.begun
    && w.worker == WorkerAbsent && w.closing.pc == NotClosing
  }

  /** The kernel may write buffered bytes at any time. */
  ghost predicate DiskStep(w: State, v: State) {
    && w.disk.open
    && w.disk.durable <= v.disk.durable <= |w.disk.stream.bytes|
    && v == w.(disk := w.disk.(durable := v.disk.durable))
  }

  /** A flush writes everything, or it throws, the stream fails, and any part may have been written. */
  ghost predicate Flushed(d: Disk, e: Disk, failed: bool) {
    if !d.open then e == d && !failed
    else if failed then
      d.durable <= e.durable <= |d.stream.bytes| && e == d.(stream := d.stream.(good := false), durable := e.durable)
    else d.stream.good && e == d.(durable := |d.stream.bytes|)
  }

  // Opening, in one step: the mutex is held throughout.

  function Opened(w: State, info: SessionInfo): State {
    w.(shared := Shared([], true, true, false, false), counters := NO_COUNTERS, history := NO_HISTORY,
       disk := Disk(info, true, Stream(FileHeader(info), true), 0),
       manifest := Manifest(true, true, Recording), worker := WorkerWait(0), outcome := Returned)
  }

  /** The manifest's final status is written, or that throws: its session may be left open and the file missing. */
  ghost predicate Finalised(m: Manifest, n: Manifest, status: Status, threw: bool) {
    if !m.present || !m.sessionOpen then n == m && !threw
    else if threw then
      n == m.(sessionOpen := n.sessionOpen, status := n.status) && (n.status == m.status || n.status == Missing)
    else n == m.(sessionOpen := false, status := status)
  }

  ghost predicate OpenFails(w: State, v: State, info: SessionInfo) {
    && v.outcome == Thrown
    && (|| v == w.(outcome := Thrown, manifest := Manifest(true, false, v.manifest.status))  // no manifest
        || exists m: Manifest, n: Manifest, threw: bool ::
             && m == Manifest(true, true, Recording)
             && Finalised(m, n, FaultedStatus, threw)
             && OpenFailsLater(w, v, info, if threw then n else n.(present := false)))
  }

  ghost predicate OpenFailsLater(w: State, v: State, info: SessionInfo, n: Manifest) {
    // results.p2dic is still open or cannot be created
    || v == w.(outcome := Thrown, manifest := n)
    || (!w.disk.open && (HeaderFails(w, v, info, n) || ThreadFails(w, v, info, n)))
  }

  ghost predicate HeaderFails(w: State, v: State, info: SessionInfo, n: Manifest) {
    exists room: nat, durable: nat ::
      && durable <= room < FILE_HEADER_SIZE
      && v == w.(outcome := Thrown, manifest := n, history := NO_HISTORY.(begun := false),
                 disk := Disk(info, true, Put(Stream([], true), FileHeader(info), room), durable))
  }

  ghost predicate ThreadFails(w: State, v: State, info: SessionInfo, n: Manifest) {
    exists d: Disk, failed: bool ::
      && Flushed(Opened(w, info).disk, d, failed)
      && v == Opened(w, info).(outcome := Thrown, manifest := n, disk := d.(open := false), worker := WorkerAbsent,
                               shared := Shared([], false, false, false, false))
  }

  /** Incomplete session information is refused before anything is created. */
  ghost predicate OpenStep(w: State, v: State, info: SessionInfo) {
    && w.closing.pc == NotClosing
    && if w.shared.open then v == w.(outcome := Thrown)
       else if info.width == 0 || info.height == 0 then
         v == w.(outcome := Thrown, manifest := Manifest(true, false, w.manifest.status))
       else (!w.disk.open && v == Opened(w, info)) || OpenFails(w, v, info)
  }

  // Enqueuing.

  datatype Enqueued = Taken | Full | Refused

  ghost predicate EnqueueStep(w: State, v: State, result: DicResult, answer: Enqueued) {
    var s := w.shared;
    if !s.open || !s.accepting || s.faulted then answer == Refused && v == w
    else if |s.queue| >= w.config.capacity then
      answer == Full && v == w.(counters := w.counters.(overruns := w.counters.overruns + 1))
    else
      var deepest := if |s.queue| < w.counters.maximumDepth then w.counters.maximumDepth else |s.queue| + 1;
      && answer == Taken
      && v == w.(shared := s.(queue := s.queue + [result]),
                 history := w.history.(accepted := w.history.accepted + [result]),
                 counters := w.counters.(enqueued := w.counters.enqueued + 1, maximumDepth := deepest))
  }

  // The worker. `faultReported` tells when it calls the fault callback.

  ghost predicate AppendStep(w: State, v: State, result: DicResult, sinceFlush: nat, room: nat) {
    var stream := if Encodable(result) then Put(w.disk.stream, Record(result), room) else w.disk.stream;
    var d := w.disk.(stream := stream);
    if w.disk.open && Encodable(result) && stream.good then
      v == w.(disk := d, history := w.history.(recorded := w.history.recorded + [result]),
              worker := WorkerCsv(sinceFlush))
    else
      v == w.(disk := if w.disk.open then d else w.disk, history := w.history.(lost := [result]), worker := WorkerFault)
  }

  ghost predicate WorkerStep(w: State, v: State, faultReported: bool) {
    match w.worker
    case WorkerAbsent => false
    case WorkerWait(n) =>
      && !faultReported
      && (w.shared.stopRequested || w.shared.queue != [])
      && v == if w.shared.queue == [] then w.(worker := WorkerEnded)
              else w.(shared := w.shared.(queue := w.shared.queue[1..]), worker := WorkerAppend(w.shared.queue[0], n))
    case WorkerAppend(result, n) =>
      !faultReported && exists room: nat :: AppendStep(w, v, result, n, room)
    case WorkerCsv(n) =>
      !faultReported && (v == w.(worker := WorkerFlush(n + 1)) || v == w.(worker := WorkerFault))
    case WorkerFlush(n) =>
      && !faultReported
      && if n < w.config.flushEvery then v == w.(worker := WorkerCount(n))
         else
           || (Flushed(w.disk, v.disk, false) && v == w.(disk := v.disk, worker := WorkerCount(0)))
           || (Flushed(w.disk, v.disk, true) && v == w.(disk := v.disk, worker := WorkerFault))
    case WorkerCount(n) =>
      !faultReported && v == w.(counters := w.counters.(written := w.counters.written + 1), worker := WorkerWait(n))
    case WorkerFault =>
      !faultReported && v == w.(shared := w.shared.(faulted := true, accepting := false), worker := WorkerReport)
    case WorkerReport =>
      faultReported && v == w.(worker := WorkerEnded)
    case WorkerEnded => false
  }

  // Closing.

  ghost predicate BeginClose(w: State, v: State, status: Status) {
    && w.closing.pc == NotClosing
    && v == if !w.shared.open then w.(outcome := Returned)
            else w.(shared := w.shared.(accepting := false, stopRequested := true),
                    closing := Closing(CloseJoin, status, false, w.disk.open, false, false))
  }

  ghost predicate CloseStep(w: State, v: State) {
    var c := w.closing;
    match c.pc
    case NotClosing => false
    case CloseJoin =>
      && (w.worker.WorkerEnded? || w.worker.WorkerAbsent?)
      && v == w.(worker := WorkerAbsent, closing := c.(pc := CloseReadError))
    case CloseReadError =>
      v == w.(closing := c.(pc := CloseFlush, error := w.shared.faulted))
    case CloseFlush =>
      || (Flushed(w.disk, v.disk, false) && v == w.(disk := v.disk, closing := c.(pc := CloseBinary)))
      || (Flushed(w.disk, v.disk, true) &&
          v == w.(disk := v.disk, closing := c.(pc := CloseBinary, error := true, flushFailed := true)))
    case CloseBinary =>
      v == w.(disk := w.disk.(open := false), closing := c.(pc := CloseManifest))
    case CloseManifest =>
      var status := if c.error then FaultedStatus else c.status;
      || (Finalised(w.manifest, v.manifest, status, true) &&
          v == w.(manifest := v.manifest, closing := c.(pc := NotClosing, manifestFailed := true), outcome := Thrown))
      || (exists n :: Finalised(w.manifest, n, status, false) &&
            v == w.(manifest := n.(present := false), closing := c.(pc := CloseFinish)))
    case CloseFinish =>
      v == w.(shared := w.shared.(open := false, queue := []),
              history := w.history.(abandoned := w.history.abandoned + w.shared.queue),
              closing := c.(pc := NotClosing), outcome := if c.error then Thrown else Returned)
  }

  ghost predicate Next(w: State, v: State) {
    || DiskStep(w, v)
    || (exists info :: OpenStep(w, v, info))
    || (exists result, answer :: EnqueueStep(w, v, result, answer))
    || (exists reported :: WorkerStep(w, v, reported))
    || (exists status :: BeginClose(w, v, status))
    || CloseStep(w, v)
  }

  ghost predicate Run(run: seq<State>) {
    && run != [] && Fresh(run[0])
    && forall i :: 0 <= i < |run| - 1 ==> Next(run[i], run[i + 1])
  }
}
