# Verified model of the Portable 2D DIC Edge

This project models the parts of the Portable 2D digital image correlation system in which mistakes would cost
measurements: the real-time pipeline and the command handler of the Edge, the path of a result from the pipeline to the
disk, the result stream, the Fourier transform of the signal view, and the numeric kernels. `dafny verify dfyconfig.toml`
checks all of it.

## How it is laid out

- `Pipeline`, `AsyncWriter` and `Edge` are step models. Every thread has a program counter; an atomic access or a critical
  section is one step, steps guarded by a mutex need its owner; cameras, engines, streams, threads and callbacks may fail
  at any step where the source lets them. `Edge` composes the two others with the Edge state machine, the configuration
  and the position of the command handler. `PipelineSafety`, `AsyncWriterSafety` and `EdgeSafety` prove inductive
  invariants over all interleavings and draw the conclusions; `PipelineCalls`, `AsyncWriterCalls`, `AsyncWriterDisk` and
  the modules `EdgeReplies`, `EdgeSessions`, `EdgeStorage` and `EdgeFaults` say when calls and commands succeed and what
  they have achieved then; `EdgeWitness` builds the runs in which they do not.
    - `Pipeline.CaptureStep` is the capture loop (pipeline.cpp, lines 183-210), `Pipeline.GateStep` the processing loop up
      to its pause gate (215-227), `Pipeline.WorkStep` the rest of it (228-308), `Pipeline.StartStep`, `PauseStep` and
      `StopStep` the calls (30-133).
    - `AsyncWriter.OpenStep`, `EnqueueStep`, `WorkerStep`, `BeginClose` and `CloseStep` are the methods and the worker of
      async_result_writer.cpp (22-185); `DiskStep` lets the kernel write buffered bytes at any time.
    - `Edge.Command` and the moves after it are the command handler and the shutdown of dic_edge.cpp (308-510, 598-606);
      `Edge.ConfigMove` has a step for every throw point of CONFIG (398-417), `Edge.Delivered` is the result callback
      (271-274), and faults of the pipeline reach the Edge through its fault callback only (296-299).
- `FramePools`, `LatestQueues`, `EdgeStates`, `ResultWriters`, `SessionBinary`, `ResultStream` and `StrainGrid` hold
  classes with the fields of the source; their methods state the whole new state.
- `Bytes`, `Crc`, `ResultPacket`, `SessionBinary` and `Layouts` specify codec, checksum and file format on values, prove
  round trips, truncation recovery and damage detection there, and tie the loops of the source to these functions.
- `Fft` and `FftInPlace`, `Correlation`, `Textures`, `Zncc`, the `Subpixel` modules, the `Strain` modules, `HybridGrid`,
  `ExactShift`, `MeasuredGrids`, `CudaReduce` and `CudaQuality` do the numerics in exact arithmetic. A square root is a
  parameter with s >= 0 and s * s == e; the step factors of the transform are a parameter with w(2) = -1 and
  w(2L) * w(2L) = w(L).

## What the proofs found

- A second `close` of the asynchronous writer can return normally, with a manifest that says complete, although the
  flush of the first one failed and the results are not on disk (`AsyncWriterSafety.SecondCloseMisleads`). A normal
  return means stored exactly if the close began with the file open or with everything on disk
  (`AsyncWriterCalls.CloseWholeExactly`). The command handler never relies on it otherwise: after a failed STOP the Edge
  is faulted.
- CONFIG replaces pipeline and configuration before it attaches the callbacks, inside the same try. If attaching throws,
  it answers with an error although both are replaced (`EdgeReplies.ConfigAnswered`), and from then on OK STOPPED can be
  answered for results that nobody stored (`EdgeWitness.StoppedWithoutStored`). With both callbacks attached OK STOPPED
  is sound (`EdgeSafety.StoppedMeansStored`), and they are attached exactly unless the last CONFIG threw there
  (`EdgeReplies.AttachedExactly`).
- The comment that normalisation makes the refinement insensitive to brightness (subpixel.hpp, lines 23-24) holds exactly
  as long as no window crosses the minimum texture energy (`SubpixelBrightness.RefineBrighter`,
  `SubpixelThreshold.BrightnessMatters`). The model follows the code.
- The pool size check of the runtime configuration wraps around for queue sizes of 2^64 - 3 and more
  (`RuntimeConfigs.WrappedFits`). Runs of the Edge are therefore taken from configurations in which the sum fits.
- Sequence, timestamp and processing time in a packet header are outside the checksum
  (`ResultPacket.HeaderDamageAccepted`).
- A session header that could not be written leaves results.p2dic open for good. RESET is still answered OK RESET
  (`EdgeWitness.WedgedAfterReset`), but no open succeeds (`AsyncWriterCalls.OpenableExactly`, `WedgedNeverOpens`) and no
  START is answered OK STARTED any more (`EdgeReplies.WedgedNeverStarts`).
- Whether RESET succeeds depends on the session, not on the fault: it does exactly if no session is left to close or its
  close succeeds (`EdgeReplies.ResetAnswered`). After a failed flush in STOP's own close the next RESET succeeds
  (`EdgeWitness.ResetAfterFailedFlush`). A RESET that has to close a session with a fault of the storage worker is
  answered with the storage error (`EdgeReplies.FaultedResetFails`), although it closes the session; if the manifest
  fails, the session stays open for the RESET after it (`EdgeWitness.ResetRefused`).

## Model

| member | source | states |
|---|---|---|
| EdgeSafety.StoppedStoresExactly | Portable-2D-DIC/apps/dic_edge.cpp:459-473 | In every run, a STOP answered OK STOPPED means that everything the writer accepted is counted, recorded, on disk and scans clean in order, with the pipeline stopped, no thread and the writer closed; the accepted results are all the processed ones exactly if the live pipeline has its result callback and no result was refused, or nothing was processed; with a fault callback no result was refused |
| EdgeSafety.StoppedMeansStored | Portable-2D-DIC/apps/dic_edge.cpp:459-473 | With both callbacks attached, OK STOPPED means that processed, enqueued and written are equal, that everything is on disk, and that the session file scans clean to exactly the processed results in order |
| EdgeWitness.StoppedWithoutStored | Portable-2D-DIC/apps/dic_edge.cpp:404-416 | With either callback missing it does not: from every boot there is a run, through a CONFIG that throws while attaching, in which STOP is answered OK STOPPED with one result processed and none stored |
| EdgeSafety.BetweenCommands | Portable-2D-DIC/apps/dic_edge.cpp:394-504 | Whenever no command is in progress: idle means pipeline stopped, no thread, all buffers back, no session; measuring or paused means session open and everything the pipeline delivered to its callback accepted by the writer; the live pipeline was built from the current, valid configuration, although CONFIG replaces the two in separate steps |
| EdgeSafety.RunKeepsInv | Portable-2D-DIC/apps/dic_edge.cpp:270-510 | The invariant that couples handler step, Edge state, pipeline, writer and configuration holds in every state of every interleaving of commands, threads and faults |
| EdgeSafety.OnlyMarkStoppedAnswers | Portable-2D-DIC/apps/dic_edge.cpp:465-468 | OK STOPPED is answered in one place only, from measuring or paused, after the writer's close returned; the step changes nothing but the Edge state |
| EdgeStorage.CrashLosesOnlyTheEnd | Portable-2D-DIC/apps/dic_edge.cpp:271-274 | At any step of any run a file on disk with a whole header scans to a prefix of the accepted results that lacks at most as many of the recorded ones as the worker writes between two flushes, corrupt flag set unless it ends at a record boundary; while a session is linked to a pipeline with its result callback these are the results the pipeline delivered |
| EdgeStorage.StoppedIsComplete | Portable-2D-DIC/apps/dic_edge.cpp:464-468 | OK STOPPED means that the manifest says complete and that the session file has the configured image size |
| EdgeStorage.ClosesAs | Portable-2D-DIC/apps/dic_edge.cpp:447-504 | Every close of every command, unless the manifest's own close threw, leaves no session; the manifest of a session whose file it found open says complete after STOP, interrupted after a shutdown, faulted otherwise or if the close throws |
| EdgeStorage.FailureIsClosed | Portable-2D-DIC/apps/dic_edge.cpp:447-472 | A START or STOP that fails after its work has begun leaves a faulted Edge with a stopped pipeline and no session, unless the manifest could not be closed |
| EdgeStorage.DeadIsClosed | Portable-2D-DIC/apps/dic_edge.cpp:598-606 | After the shutdown the pipeline is stopped without threads, and no session is open unless the manifest could not be closed |
| EdgeSessions.AnswersMean | Portable-2D-DIC/apps/dic_edge.cpp:419-489 | OK STARTED and OK RESUMED mean that both threads are there, stopped by nothing but a failure of one, and the pipeline is not paused; OK PAUSED means that it is paused and the processing thread outside its active region |
| EdgeSessions.PausedStaysQuiet | Portable-2D-DIC/apps/dic_edge.cpp:474-489 | From OK PAUSED until a later command makes its call into the pipeline, in every interleaving, nothing is processed and nothing delivered |
| EdgeSessions.SessionsFit | Portable-2D-DIC/apps/dic_edge.cpp:474-489 | Whenever no command is in progress, a measuring Edge has a pipeline with both threads that is not paused, a paused one a pipeline that is quiet |
| EdgeFaults.FaultsAreReported | Portable-2D-DIC/apps/dic_edge.cpp:296-303 | While the Edge measures or pauses, no fault has gone by: a failed storage worker, and between commands with a fault callback a failed thread of the pipeline, is still about to report it |
| EdgeFaults.FaultHasCause | Portable-2D-DIC/apps/dic_edge.cpp:296-303 | The Edge becomes faulted only by such a report, or by a START or STOP that fails |
| EdgeReplies.ConfigAnswered | Portable-2D-DIC/apps/dic_edge.cpp:398-417 | For every CONFIG of every run, from its first step to its answer: an exception up to the making of the new pipeline leaves configuration, pipeline and callbacks untouched; one while attaching callbacks is answered with an error too but leaves the new configuration and a new pipeline in use with exactly the missing callbacks; OK CONFIGURED means all replaced and attached; the Edge stays idle |
| EdgeReplies.AttachedExactly | Portable-2D-DIC/apps/dic_edge.cpp:270-304 | In every state between commands both callbacks are attached if and only if the last CONFIG that replaced the pipeline did not throw while attaching them |
| EdgeReplies.ResetAnswered | Portable-2D-DIC/apps/dic_edge.cpp:490-504 | For every RESET of every run: it is answered OK RESET if and only if no session was open when its stop had ended, or there was no worker fault and neither the flush nor the manifest's close threw; otherwise the error leaves the Edge faulted, and the session open exactly if the manifest failed |
| EdgeReplies.FaultedResetFails | Portable-2D-DIC/apps/dic_edge.cpp:495-501 | A RESET that has to close a session with a worker fault is answered with an error |
| EdgeWitness.ResetAfterFailedFlush | Portable-2D-DIC/apps/dic_edge.cpp:464-504 | From every boot there is a run in which STOP fails because its own flush does, and the very next command, a RESET, is answered OK RESET |
| EdgeWitness.ResetRefused | Portable-2D-DIC/apps/dic_edge.cpp:495-501 | From every boot there is a run in which a RESET is answered with an error and leaves the session open, because the manifest cannot be replaced |
| EdgeReplies.WedgedNeverStarts | Portable-2D-DIC/apps/dic_edge.cpp:419-457 | Once a session header could not be written, no START is answered OK STARTED in the rest of the run |
| EdgeWitness.WedgedAfterReset | Portable-2D-DIC/apps/dic_edge.cpp:447-457 | From every boot there is a run into that state: START without room for the header, then a RESET that is answered OK RESET |
| EdgeWitness.Boots | Portable-2D-DIC/apps/dic_edge.cpp:240-305 | Such boots exist |
| EdgeSafety.EdgeMoves | Portable-2D-DIC/apps/dic_edge.cpp:270-304 | No step leaves shutting down; a step leaves faulted only by answering RESET or by shutting down |
| EdgeSafety.ShuttingDownIsFinal | Portable-2D-DIC/apps/dic_edge.cpp:598-606 | Once shutting down, the Edge is shutting down in every later state of the run |
| EdgeSafety.FaultIsNotAcknowledged | Portable-2D-DIC/apps/dic_edge.cpp:464-472 | From a fault on, no STOP is answered OK STOPPED before a RESET has been answered |
| EdgeSafety.ProcessingEffects | Portable-2D-DIC/src/pipeline.cpp:274-275 | A step of the processing thread delivers a result exactly when the callback accepts it; with a refused result the thread does not end before it reports the fault |
| EdgeSafety.DeliveredWhenStopped | Portable-2D-DIC/apps/dic_edge.cpp:464-468 | After the join, with no fault in between, the writer accepted what the pipeline delivered: every processed result but a refused last one, or nothing without a result callback |
| PipelineSafety.RunKeepsInv | Portable-2D-DIC/src/pipeline.cpp:30-325 | The pipeline invariants (who owns the pause mutex, when the active flag is set, frame places, orders, deliveries, accounts) hold in every reachable state |
| PipelineSafety.BuffersConserved | Portable-2D-DIC/src/pipeline.cpp:183-235 | In every state each pool buffer is in exactly one of pool, capture hand, queue, processing hand; at least one is free; in a stopped pipeline and before a start prepares all are back, so reopen never throws |
| PipelineSafety.PoolNeverEmpty | Portable-2D-DIC/include/p2dic/runtime_config.hpp:29-31 | With a pool of at least queue capacity plus three one buffer is always free, and the buffers add up |
| PipelineSafety.AllBackWhenStopped | Portable-2D-DIC/src/pipeline.cpp:104-133 | A stopped pipeline has every buffer in the pool and an empty queue |
| PipelineSafety.FramesAccounted | Portable-2D-DIC/src/pipeline.cpp:202-235 | Captured frames are processed, dropped, queued, in hand, the reference, or lost; none is lost as long as no stop is requested and each thread runs or is not started yet, and a stop or fault loses at most twice the capacity plus one |
| PipelineSafety.AcquireIsOfPool | Portable-2D-DIC/src/pipeline.cpp:186-189 | What the capture thread takes from the pool is what the pool's acquire promises |
| PipelineSafety.PushIsOfQueue | Portable-2D-DIC/src/pipeline.cpp:202-204 | What the capture thread pushes, and what falls out, is what the queue's push promises; the buffers of the frames that fall out return to the pool |
| PipelineSafety.PopIsOfQueue | Portable-2D-DIC/src/pipeline.cpp:216-219 | What the processing thread pops is what the queue's pop promises |
| PipelineSafety.ProcessedInCaptureOrder | Portable-2D-DIC/src/pipeline.cpp:212-264 | Processed frames are strictly increasing in capture order, later than the reference, one result each |
| PipelineSafety.PopTakesNewest | Portable-2D-DIC/include/p2dic/latest_queue.hpp:47-63 | A pop takes the newest frame of the queue, newer than every frame popped before, and skips exactly the rest |
| PipelineSafety.PausedIsQuiet | Portable-2D-DIC/src/pipeline.cpp:85-102 | From the return of pause to the next resume or stop, in every interleaving, the processing thread is outside its active region and neither the processed count nor the deliveries change |
| PipelineSafety.PauseReturnsQuiet | Portable-2D-DIC/src/pipeline.cpp:90-93 | When pause returns, the processing thread is neither active nor about to become active unless a stop was requested |
| PipelineSafety.QuietStays | Portable-2D-DIC/src/pipeline.cpp:220-227 | No step of any thread ends that quiet before a resume or stop begins |
| PipelineCalls.RunKeepsState | Portable-2D-DIC/src/pipeline.cpp:30-133 | In every reachable state pipeline state, pause flag, stop request, threads and the call in progress fit together: a running pipeline is not paused unless a resume is about to clear the flag, and has both threads |
| PipelineCalls.StartReturns | Portable-2D-DIC/src/pipeline.cpp:30-73 | A start that returns leaves a running pipeline with both threads, not paused, and asked to stop by nothing but a failure of one of them |
| PipelineCalls.ResumeReturns | Portable-2D-DIC/src/pipeline.cpp:95-102 | A resume that returns leaves the pause flag clear, in a running or meanwhile faulted pipeline |
| PipelineCalls.PausedExactly | Portable-2D-DIC/src/pipeline.cpp:85-102 | Between calls and without a fault the pause flag is set if and only if the state is paused, and there are threads if and only if the state is running or paused |
| PipelineCalls.StopReturns | Portable-2D-DIC/src/pipeline.cpp:104-133 | A stop that returns leaves a stopped pipeline, not paused, without threads, with all buffers back and an empty queue |
| PipelineCalls.FaultSticks | Portable-2D-DIC/src/pipeline.cpp:311-325 | A fault of either thread keeps the pipeline faulted until the end of a start or stop, or a stop that began before it, overwrites the state |
| PipelineSafety.NextKeepsInv | Portable-2D-DIC/src/pipeline.cpp:30-325 | Every step of every thread and every call keeps the pipeline invariants |
| PipelineSafety.CaptureKeepsPlaces | Portable-2D-DIC/src/pipeline.cpp:186-204 | No step of the capture loop, exceptions included, loses or duplicates a buffer |
| PipelineSafety.WorkKeepsPlaces | Portable-2D-DIC/src/pipeline.cpp:228-308 | No step of the processing work, unwinding included, loses or duplicates a buffer |
| PipelineSafety.Pushed | Portable-2D-DIC/include/p2dic/latest_queue.hpp:30-45 | Pushing a frame and dropping the oldest ones conserves all buffers |
| PipelineSafety.ProcessingKeepsControl | Portable-2D-DIC/src/pipeline.cpp:220-236 | The processing thread keeps the link between pause mutex, active flag and its position, although the flag is cleared without the mutex |
| PipelineSafety.WorkKeepsDelivery | Portable-2D-DIC/src/pipeline.cpp:264-276 | Processed results are the delivered ones plus at most the one in delivery; a refused result is the last and the thread unwinds |
| FramePools.FramePool.Acquire | Portable-2D-DIC/include/p2dic/frame_pool.hpp:32-50 | Takes the last available buffer, or none when closed or empty |
| FramePools.FramePool.Release | Portable-2D-DIC/include/p2dic/frame_pool.hpp:45-49 | The deleter puts the buffer back at the end, also into a closed pool |
| FramePools.FramePool.Reopen | Portable-2D-DIC/include/p2dic/frame_pool.hpp:52-59 | Throws exactly when a buffer is missing, otherwise opens |
| FramePools.FramePool.Close | Portable-2D-DIC/include/p2dic/frame_pool.hpp:61-68 | Closes and keeps the buffers |
| FramePools.AllBuffersSize | Portable-2D-DIC/include/p2dic/frame_pool.hpp:16-25 | The pool owns as many buffers as it was constructed with |
| LatestQueues.LatestQueue.Create | Portable-2D-DIC/include/p2dic/latest_queue.hpp:21-25 | Capacity zero is refused, any other gives an empty open queue |
| LatestQueues.LatestQueue.Push | Portable-2D-DIC/include/p2dic/latest_queue.hpp:30-45 | A closed queue takes nothing and reports nothing dropped; otherwise the newest capacity items remain in order and the number dropped balances |
| LatestQueues.LatestQueue.WaitPop | Portable-2D-DIC/include/p2dic/latest_queue.hpp:47-63 | Returns the newest item with the number of older ones, empties the queue; nothing from an empty queue |
| LatestQueues.LatestQueue.Reopen | Portable-2D-DIC/include/p2dic/latest_queue.hpp:65-69 | Empty and open afterwards |
| LatestQueues.LatestQueue.Close | Portable-2D-DIC/include/p2dic/latest_queue.hpp:71-78 | Empty and closed afterwards |
| EdgeStates.ShuttingDownAbsorbs | Portable-2D-DIC/src/edge_state.cpp:71-87 | No sequence of transitions leaves shutting down |
| EdgeStates.FaultSticks | Portable-2D-DIC/src/edge_state.cpp:71-82 | Without reset and shutdown no sequence of transitions leaves faulted |
| EdgeStates.EdgeStateMachine.StartMeasurement | Portable-2D-DIC/src/edge_state.cpp:39-47 | Moves along the allowed transition or throws and stays, as the table that Edge uses says |
| EdgeStates.EdgeStateMachine.StopMeasurement | Portable-2D-DIC/src/edge_state.cpp:49-57 | Moves along the allowed transition or throws and stays, as the table that Edge uses says |
| EdgeStates.EdgeStateMachine.Fault | Portable-2D-DIC/src/edge_state.cpp:71-76 | Moves along the allowed transition or throws and stays, as the table that Edge uses says |
| RuntimeConfigs.ValidFits | Portable-2D-DIC/include/p2dic/runtime_config.hpp:19-32 | An accepted configuration has a pool of at least queue size plus three exactly if that 64-bit sum does not wrap |
| RuntimeConfigs.WrappedFits | Portable-2D-DIC/include/p2dic/runtime_config.hpp:29-31 | A concrete configuration that is accepted although its queue is larger than its pool |
| AsyncWriterSafety.RunKeepsInv | Portable-2D-DIC/src/async_result_writer.cpp:22-185 | The writer invariants hold in every reachable state of enqueuers, worker, open, close and disk |
| AsyncWriterSafety.AcceptedInOrder | Portable-2D-DIC/src/async_result_writer.cpp:59-80 | Accepted results are the recorded ones, at most one in the worker's hand or lost, the queue and what a close discarded, in this order; queue and high-water mark stay within capacity; counters are exact; without a fault nothing is lost |
| AsyncWriterCalls.CloseWholeExactly | Portable-2D-DIC/src/async_result_writer.cpp:82-114 | For every close of every run that returns normally: all accepted results are recorded and counted, and they are all on disk if and only if, when the close began, the file was still open or everything was on disk already |
| AsyncWriterCalls.CloseOutcome | Portable-2D-DIC/src/async_result_writer.cpp:92-114 | A close returns normally if and only if there was no worker fault and neither the flush nor the manifest's close threw; the session stays open if and only if the manifest's close did |
| AsyncWriterCalls.FaultedCloseThrows | Portable-2D-DIC/src/async_result_writer.cpp:92-114 | A close that begins after a worker fault throws in every interleaving |
| AsyncWriterCalls.OpenableExactly | Portable-2D-DIC/src/async_result_writer.cpp:22-57 | With valid information and no open session, open can return normally if and only if results.p2dic is closed |
| AsyncWriterCalls.WedgedNeverOpens | Portable-2D-DIC/src/async_result_writer.cpp:28-34 | From a failed session header on, every open of the run throws |
| AsyncWriterCalls.WedgedStays | Portable-2D-DIC/src/async_result_writer.cpp:22-114 | No step of any thread or call closes a results.p2dic whose header failed |
| AsyncWriterCalls.HeaderFailsWedges | Portable-2D-DIC/src/session_binary.cpp:62-81 | A first open that has no room for the header leads there |
| AsyncWriterSafety.CloseReturnsWhole | Portable-2D-DIC/src/async_result_writer.cpp:82-114 | A close that returns normally, having found the file open or with a good stream, leaves a file that scans clean to every accepted result in order |
| AsyncWriterSafety.SecondCloseMisleads | Portable-2D-DIC/src/async_result_writer.cpp:97-107 | A run in which that condition is false: the first close throws and the second returns with manifest complete while nothing is on disk |
| AsyncWriterSafety.CompleteMeansWhole | Portable-2D-DIC/src/async_result_writer.cpp:103-107 | A manifest turned to complete by a close that found the file open means the file holds all accepted results |
| AsyncWriterDisk.CrashRecovers | Portable-2D-DIC/src/async_result_writer.cpp:133-166 | In any state, faulted or not, a file on disk with a whole header scans to a prefix of the accepted results that lacks at most as many of the recorded ones as the worker writes between two flushes |
| AsyncWriterDisk.LossBounded | Portable-2D-DIC/src/async_result_writer.cpp:148-151 | While the worker serves, all records but those since the last flush are on disk, and these are fewer than the flush interval whenever it waits; in any state at most an interval of records is missing |
| AsyncWriterDisk.CountersExact | Portable-2D-DIC/src/async_result_writer.cpp:70-76 | The overrun counter is the number of results that found the queue full since the session began, and the high-water mark was the length of the queue at some time |
| AsyncWriterSafety.NextKeepsInv | Portable-2D-DIC/src/async_result_writer.cpp:22-185 | Every step keeps the writer invariants |
| AsyncWriterSafety.EnqueueKeepsInv | Portable-2D-DIC/src/async_result_writer.cpp:59-80 | Enqueue, taken, full or refused, keeps the order of accepted results, the bounds and the counters |
| AsyncWriterSafety.AppendKeepsFile | Portable-2D-DIC/src/async_result_writer.cpp:145-147 | Appending keeps the file a sequence of whole records, plus at most a part of the result whose append threw |
| AsyncWriterSafety.OpenKeepsInv | Portable-2D-DIC/src/async_result_writer.cpp:22-57 | Opening keeps the invariants on every path: manifest, binary, header and thread creation may fail |
| ResultWriters.ResultWriter.Open | Portable-2D-DIC/src/result_writer.cpp:43-72 | Opens exactly if none is open, the information is complete, the directory is new and manifest and table can be created; on every path the manifest at the session's path afterwards, that of an existing directory included |
| ResultWriters.ResultWriter.Append | Portable-2D-DIC/src/result_writer.cpp:74-97 | Throws without a session; writes nothing without CSV; otherwise counts towards the flush and throws once the table stream fails |
| ResultWriters.ResultWriter.Close | Portable-2D-DIC/src/result_writer.cpp:99-115 | Is the finalising step that the writer's state machine uses: nothing without a session, final status committed and session closed, or an exception that leaves the old status or none |
| ResultWriters.ResultWriter.WriteManifest | Portable-2D-DIC/src/result_writer.cpp:125-165 | The new status is in place, or the old one is kept, or the manifest is missing |
| SessionBinary.ScanOfWritten | Portable-2D-DIC/src/session_binary.cpp:118-174 | A written session file scans clean to its information and results |
| SessionBinary.ScanOfCut | Portable-2D-DIC/src/session_binary.cpp:140-171 | A file cut at any byte behind the header scans to the longest prefix of whole records, valid bytes at that boundary, corrupt flag exactly if the cut is not on a boundary |
| SessionBinary.CutExists | Portable-2D-DIC/src/session_binary.cpp:140-171 | Every cut behind the header has such a longest prefix |
| SessionBinary.ScanOfHeaderCut | Portable-2D-DIC/src/session_binary.cpp:123-125 | A file cut inside the header makes the scan throw |
| SessionBinary.ScanOfDamaged | Portable-2D-DIC/src/session_binary.cpp:160-164 | Damage within four consecutive bytes of record k's packet makes the scan return exactly records 0 to k-1 and set the corrupt flag |
| SessionBinary.TruncationRecovers | Portable-2D-DIC/src/session_binary.cpp:118-174 | For any file that scans: its valid bytes are exactly the file of the returned results, and truncated there it scans clean to the same results |
| SessionBinary.RecordFits | Portable-2D-DIC/src/session_binary.cpp:86-94 | Every encodable result fits the record size limit, so that check never fires |
| SessionBinary.ScanSessionBinary | Portable-2D-DIC/src/session_binary.cpp:118-174 | The scan loop terminates on every input and computes the specified scan, errors included |
| SessionBinary.ReadRecord | Portable-2D-DIC/src/session_binary.cpp:145-171 | One turn of the loop finds the first record or nothing |
| SessionBinary.ReadExact | Portable-2D-DIC/src/session_binary.cpp:52-56 | Whole exactly if enough bytes remain, and then those bytes |
| SessionBinary.SessionBinaryWriter.Open | Portable-2D-DIC/src/session_binary.cpp:62-81 | Throws if open or not creatable; otherwise the stream holds the header, or a prefix of it and has failed |
| SessionBinary.SessionBinaryWriter.Append | Portable-2D-DIC/src/session_binary.cpp:83-101 | Adds exactly the record, or throws leaving at most a prefix of it on a failed stream; nothing for results that cannot be encoded |
| SessionBinary.SessionBinaryWriter.Close | Portable-2D-DIC/src/session_binary.cpp:109-114 | Closed afterwards, bytes unchanged |
| SessionBinary.RecordsAppend | Portable-2D-DIC/src/session_binary.cpp:96-99 | The records of a concatenation are the concatenated records |
| ResultPacket.DecodeOfEncode | Portable-2D-DIC/src/result_packet.cpp:68-174 | Decoding an encoded result gives it back, for every result of at most 1,000,000 points |
| ResultPacket.EncodeOfDecode | Portable-2D-DIC/src/result_packet.cpp:119-174 | Encoding what an accepted packet decodes to gives the packet back |
| ResultPacket.AcceptedAreEncodings | Portable-2D-DIC/src/result_packet.cpp:119-174 | The decoder accepts exactly the encodings |
| ResultPacket.EncodeInjective | Portable-2D-DIC/src/result_packet.cpp:68-117 | Different results have different packets |
| ResultPacket.PayloadDamageRejected | Portable-2D-DIC/src/result_packet.cpp:148-151 | Any change within four consecutive payload bytes is rejected with the checksum error |
| ResultPacket.HeaderDamageAccepted | Portable-2D-DIC/src/result_packet.cpp:138-151 | Changes to sequence, timestamp and processing time are not noticed: such a packet is accepted with the same points |
| ResultPacket.EncodeResultPacket | Portable-2D-DIC/src/result_packet.cpp:68-117 | The encoder computes the specified packet, or throws exactly for too many points; its other size checks never fire |
| ResultPacket.DecodeResultPacket | Portable-2D-DIC/src/result_packet.cpp:119-174 | The decoder computes the specified decoding with the specified error for every input |
| ResultPacket.PointRoundTrip | Portable-2D-DIC/src/result_packet.cpp:84-96 | A point is recovered from its 36 bytes |
| Layouts.PacketLayout | Portable-2D-DIC/src/result_packet.cpp:98-112 | Byte by byte where each header field of a packet lies: DIC2, version 1, sizes 48 and 36, the frame's numbers, and the checksum of all that follows the header |
| Layouts.PointLayout | Portable-2D-DIC/src/result_packet.cpp:84-96 | Where each field of point i lies, with the two flag bits |
| Layouts.EncodedExactly | Portable-2D-DIC/src/result_packet.cpp:68-71 | Results of up to 1,000,000 points are encoded, and no others |
| Layouts.FileLayout | Portable-2D-DIC/src/session_binary.cpp:68-76 | Where each field of the session header lies: P2D1, version 1, size 32, image size, frame rate, scale |
| Layouts.RecordLayout | Portable-2D-DIC/src/session_binary.cpp:88-99 | Where each field of a record lies: FRM2, its size, the checksum of its packet, zero, the packet |
| Bytes.AppendLittleEndian | Portable-2D-DIC/src/result_packet.cpp:16-22 | Appends the little-endian bytes of the value |
| Bytes.ReadLittleEndian | Portable-2D-DIC/src/result_packet.cpp:32-44 | Reads the value at the offset and advances it, or throws when truncated without advancing |
| Bytes.ValueOfLittleEndian | Portable-2D-DIC/src/result_packet.cpp:32-44 | Reading back the little-endian bytes of a value gives the value |
| Bytes.LittleEndianOfValue | Portable-2D-DIC/src/result_packet.cpp:16-22 | Writing the value read from some bytes gives those bytes |
| Crc.ComputeCrc32 | Portable-2D-DIC/src/result_packet.cpp:54-64 | The nested loops compute the reflected CRC-32 of section 8 of RFC 1952, and 0xCBF43926 for the text 123456789 |
| Crc.BurstChangesCrc | Portable-2D-DIC/src/session_binary.cpp:40-50 | Two inputs that differ within four consecutive bytes have different checksums |
| Crc.WindowDetermined | Portable-2D-DIC/src/result_packet.cpp:54-64 | Four consecutive bytes are determined by the rest of the input and the checksum |
| Crc.StepsInjective | Portable-2D-DIC/src/result_packet.cpp:58-61 | Shifting the register by any number of bit steps loses nothing |
| Crc.FourBytesInjective | Portable-2D-DIC/src/result_packet.cpp:56-62 | Absorbing four bytes into a register is injective in those bytes |
| Crc.RegisterInjective | Portable-2D-DIC/src/result_packet.cpp:56-62 | Equal registers after equal bytes come from equal registers |
| Crc.CheckValue | Portable-2D-DIC/src/result_packet.cpp:54-64 | The checksums of the texts 1 and 123456789 are 0x83DCEFB7 and 0xCBF43926 |
| ResultStream.ChunkingIrrelevant | Portable-2D-DIC/studio/result_client.cpp:83-107 | However the bytes are cut into chunks, without a protocol failure the emitted results and the buffer are the same |
| ResultStream.DrainAccounts | Portable-2D-DIC/studio/result_client.cpp:83-107 | Without a failure the buffer was the encodings of the emitted results followed by what is kept |
| ResultStream.DrainOfSent | Portable-2D-DIC/studio/result_client.cpp:86-100 | Any prefix of a stream of encoded results yields exactly the whole packets in it and keeps the rest |
| ResultStream.FailsExactly | Portable-2D-DIC/studio/result_client.cpp:85-106 | The protocol fails if and only if the buffer is the encodings of some results followed by a size out of range or by a whole packet that is no encoding |
| ResultStream.ResultClient.OnReadyRead | Portable-2D-DIC/studio/result_client.cpp:83-107 | Emits in order what the drained buffer yields and keeps the rest, or fails the protocol with an empty buffer |
| ResultStream.ResultClient.FailProtocol | Portable-2D-DIC/studio/result_client.cpp:125-130 | Buffer emptied, connection dropped, reconnect scheduled only if wanted |
| ResultStream.PacketSize | Portable-2D-DIC/studio/result_client.cpp:10-15 | The declared size is the little-endian field at byte 8 |
| ResultStream.ResultStreamServer.PublishPacket | Portable-2D-DIC/src/result_stream_server.cpp:116-136 | Stores the packet and advances the generation, or throws on a wrong size leaving both |
| ResultStream.ResultStreamServer.Publish | Portable-2D-DIC/src/result_stream_server.cpp:112-114 | Publishing an encodable result never throws on its size and makes it the newest |
| ResultStream.SendAll | Portable-2D-DIC/src/result_stream_server.cpp:49-61 | Sends everything in order, or stops at the first call that fails, with the proper prefix that the calls before it sent |
| ResultStream.DeliversNewestInOrder | Portable-2D-DIC/src/result_stream_server.cpp:215-229 | In every run of publisher, connection and client: the picked publications strictly increase, the emitted results are the first of them in order, received bytes are their encodings followed by the buffer, and the protocol never fails |
| ResultStream.PickIncreases | Portable-2D-DIC/src/result_stream_server.cpp:224-226 | A pick takes the newest publication, later than every earlier pick of the connection |
| FftInPlace.FftInPlace | Portable-2D-DIC/studio/signal_view.cpp:52-77 | For every power-of-two length the array ends up holding the discrete Fourier transform of its old contents |
| FftInPlace.NextReversed | Portable-2D-DIC/studio/signal_view.cpp:56-61 | The carry loop turns the reversal of an index into the reversal of the next one |
| FftInPlace.ReverseInvolutes | Portable-2D-DIC/studio/signal_view.cpp:55-62 | Bit reversal is its own inverse |
| FftInPlace.PermuteInPlace | Portable-2D-DIC/studio/signal_view.cpp:55-62 | The swaps leave the input in bit-reversed order |
| FftInPlace.SwapKeeps | Portable-2D-DIC/studio/signal_view.cpp:62-62 | Swapping only for index below reversal applies the permutation exactly once |
| FftInPlace.ReversedAt | Portable-2D-DIC/studio/signal_view.cpp:55-62 | Even half then odd half, recursively, is the element at the reversed index |
| FftInPlace.CombineBlock | Portable-2D-DIC/studio/signal_view.cpp:67-75 | One block of butterflies combines its halves with the running factor and leaves the rest alone |
| FftInPlace.CombineAll | Portable-2D-DIC/studio/signal_view.cpp:66-76 | One stage combines every block of its length |
| FftInPlace.StageDone | Portable-2D-DIC/studio/signal_view.cpp:63-76 | If every block of length m holds the transform of its decimated part, after the next stage every block of length 2m does |
| FftInPlace.ReversedIsDone | Portable-2D-DIC/studio/signal_view.cpp:55-62 | After the permutation this holds for length one |
| FftInPlace.LatestPowerOfTwo | Portable-2D-DIC/studio/signal_view.cpp:167-168 | The largest power of two that is not larger than the number of samples |
| FftInPlace.Spectrum | Portable-2D-DIC/studio/signal_view.cpp:166-182 | Fewer than eight samples give nothing; otherwise the transform of the latest power of two of them, mean removed and windowed |
| FftInPlace.WindowLatest | Portable-2D-DIC/studio/signal_view.cpp:169-181 | The latest samples minus their mean, times the window |
| FftInPlace.WindowedIs | Portable-2D-DIC/studio/signal_view.cpp:169-181 | What is transformed is the window times deviations that add up to zero and differ as the samples do |
| Fft.CombineIsDft | Portable-2D-DIC/studio/signal_view.cpp:69-74 | The transform is the butterfly combination of the transforms of the even and the odd samples |
| Fft.DftIsSum | Portable-2D-DIC/studio/signal_view.cpp:63-76 | The transform is the textbook sum of samples times powers of the root |
| Fft.HalfTurn | Portable-2D-DIC/studio/signal_view.cpp:64-65 | Half the length as exponent of the root gives minus one |
| Fft.QuarterRoots | Portable-2D-DIC/studio/signal_view.cpp:64-65 | The assumptions on the step factors hold for the fourth roots of unity |
| Zncc.FindIntegerTranslation | Portable-2D-DIC/src/zncc.cpp:9-94 | The three exceptions in their order; otherwise the first shift in raster order with the highest score in the whole window, or (0, 0, -1) if none beats -1 |
| Zncc.ScoresBounded | Portable-2D-DIC/src/zncc.cpp:84-87 | Scores lie in [-1, 1] and are 1 exactly where the denominator passes the threshold and the deformed window is the reference times a positive gain plus an offset |
| Zncc.UniqueShiftFound | Portable-2D-DIC/src/zncc.cpp:88-90 | If that happens at one shift only, the search returns it with score 1 |
| Zncc.ScoreShift | Portable-2D-DIC/src/zncc.cpp:57-87 | The loops over one shift compute its normalised correlation |
| Zncc.SumWindow | Portable-2D-DIC/src/zncc.cpp:34-40 | The nested loops sum the window |
| Zncc.SumSquares | Portable-2D-DIC/src/zncc.cpp:43-52 | The nested loops sum the squared deviations |
| Zncc.Correlate | Portable-2D-DIC/src/zncc.cpp:67-82 | The nested loops compute numerator and deformed energy |
| Correlation.CauchySchwarz | Portable-2D-DIC/src/zncc.cpp:67-87 | The squared product of two windows is at most the product of their energies |
| Correlation.ProportionalIfEqual | Portable-2D-DIC/src/zncc.cpp:84-87 | With equality one window is a multiple of the other |
| Correlation.ScoreIsOne | Portable-2D-DIC/src/zncc.cpp:84-87 | Score 1 exactly for a textured positive affine image |
| Correlation.ScoreBounded | Portable-2D-DIC/src/zncc.cpp:84-87 | The score is between -1 and 1 |
| Textures.ScoredExactly | Portable-2D-DIC/src/zncc.cpp:84-87 | For windows of fewer than 2^52 pixels the guard on the denominator discards exactly the shifts at which one of the two windows is flat |
| Textures.GuardExact | Portable-2D-DIC/src/zncc.cpp:84-87 | The same for any two windows of whole grey values |
| Textures.FlatFindsNothing | Portable-2D-DIC/src/zncc.cpp:54-94 | With a flat reference window the search answers (0, 0) with quality -1 |
| Frames.RowIsSlice | Portable-2D-DIC/include/p2dic/frame.hpp:27-32 | Row y of an image is the beginning of line y of its pixels, whatever the stride |
| SubpixelRefinement.RefineTranslation | Portable-2D-DIC/src/subpixel.cpp:45-196 | The loops over arrays compute the specified refinement, exceptions, flat reference and every early return included |
| SubpixelRefinement.SampleWindow | Portable-2D-DIC/src/subpixel.cpp:101-124 | One pass of samples with their means, or false exactly if some sample lies outside |
| SubpixelRefinement.CentreSamples | Portable-2D-DIC/src/subpixel.cpp:126-141 | Zero-mean arrays and their energy, dot products and numerator |
| SubpixelRefinement.SolveStep | Portable-2D-DIC/src/subpixel.cpp:149-183 | The accumulated normal equations give the specified step and score |
| SubpixelRefinement.Iterate | Portable-2D-DIC/src/subpixel.cpp:100-195 | The iteration computes the specified run |
| SubpixelRefinement.CentreReference | Portable-2D-DIC/src/subpixel.cpp:81-86 | The reference is centred in place and its energy summed |
| SubpixelRefinement.LoadReference | Portable-2D-DIC/src/subpixel.cpp:68-81 | The reference window and its mean |
| SubpixelStep.StepMinimises | Portable-2D-DIC/src/subpixel.cpp:149-171 | A step that moves solves the normal equations, and is the one step that minimises the squared linearised difference of the two normalised windows; there is none if and only if the determinant is below 1e-15 in size |
| SubpixelStep.GradientsArePartial | Portable-2D-DIC/src/subpixel.cpp:18-41 | The bilinear sample takes the pixel values in the corners, and its gradients are its partial derivatives |
| SubpixelStep.QualityIsCorrelation | Portable-2D-DIC/src/subpixel.cpp:177-177 | The quality is the correlation of the two windows: the clamp never acts |
| SubpixelStep.ReferenceIsFixed | Portable-2D-DIC/src/subpixel.cpp:126-183 | Where the deformed window is the reference with another gain and offset, the step is zero and the quality 1, unless the window is too flat or the system singular |
| SubpixelRun.RefineStays | Portable-2D-DIC/src/subpixel.cpp:45-196 | A refinement that starts on such a window, textured and regular, returns its start as converged and valid with quality 1 after one iteration |
| SubpixelRun.ConvergedMeans | Portable-2D-DIC/src/subpixel.cpp:100-195 | A converged result is valid, within the iteration limit, and one step of at most the tolerance away from the samples of that step, whose quality it has |
| SubpixelRun.EndsBecause | Portable-2D-DIC/src/subpixel.cpp:100-195 | Any other refinement ends at the iteration limit, where a sample lies outside, where the window is too flat or where the system is singular, and its iteration count says which; it is valid if and only if it has taken a step |
| SubpixelBrightness.RefineBrighter | Portable-2D-DIC/include/p2dic/subpixel.hpp:23-24 | Replacing the deformed image by gain times it plus an offset gives the same outcome in every field if and only if along the run no window energy crosses the texture threshold |
| SubpixelBrightness.RunBrighter | Portable-2D-DIC/src/subpixel.cpp:100-195 | The same for the iteration from any state; otherwise the two runs stop at different iterations |
| SubpixelBrightness.StepBrighter | Portable-2D-DIC/src/subpixel.cpp:126-178 | One step is unchanged by gain and offset if both energies are on the same side of the threshold; otherwise exactly one of the two is flat |
| SubpixelBrightness.BilinearBrighter | Portable-2D-DIC/src/subpixel.cpp:18-41 | Bilinear samples and gradients follow gain and offset |
| SubpixelThreshold.BrightnessMatters | Portable-2D-DIC/include/p2dic/subpixel.hpp:23-24 | Images for which, with the threshold 1.0 of the grid engine and every tolerance and iteration limit, doubling the brightness changes the result |
| SubpixelThreshold.SpotEnergyIs | Portable-2D-DIC/src/subpixel.cpp:81-89 | The texture energy of the window around one bright pixel is 24/25 of its squared level |
| SubpixelThreshold.WindowOfPixels | Portable-2D-DIC/src/subpixel.cpp:18-41 | At whole displacements the samples are the pixels of the window |
| StrainGrid.GridStrainEstimator.Apply | Portable-2D-DIC/src/strain_estimator.cpp:67-123 | Whatever is cached, the points become those of a stateless estimator, although they are updated in place |
| StrainGrid.GridStrainEstimator.RebuildTopology | Portable-2D-DIC/src/strain_estimator.cpp:38-65 | The neighbour lists of these points, the first of several points at the same place winning |
| StrainGrid.GridStrainEstimator.TopologyMatches | Portable-2D-DIC/src/strain_estimator.cpp:24-36 | True exactly if the cached coordinates are those of the points, in order |
| StrainGrid.GridStrainEstimator.FindNeighbours | Portable-2D-DIC/src/strain_estimator.cpp:50-63 | Looks up the eight cells in raster order |
| StrainGrid.GridStrainEstimator.FitAt | Portable-2D-DIC/src/strain_estimator.cpp:72-121 | The fit at one point is that of the input, although earlier points have their strains already |
| StrainGrid.GridStrainEstimator.Create | Portable-2D-DIC/src/strain_estimator.cpp:18-22 | A step below one is refused |
| StrainGrid.KeyInjective | Portable-2D-DIC/src/strain_estimator.cpp:11-14 | Different int pairs have different 64-bit keys |
| StrainLaws.ValidExactly | Portable-2D-DIC/src/strain_estimator.cpp:109-112 | A strain is valid exactly for a usable point with at least three usable neighbours: the singularity guard discards nothing |
| StrainLaws.ValidByCells | Portable-2D-DIC/src/strain_estimator.cpp:72-112 | Said of the points: a strain is valid if and only if the point is valid with finite displacements and at least three of the eight cells around it have a first point that is so too |
| StrainLaws.DeterminantBound | Portable-2D-DIC/src/strain_estimator.cpp:109-110 | Three usable neighbours make the determinant at least the fourth power of the grid step |
| StrainLaws.FitIsLeastSquares | Portable-2D-DIC/src/strain_estimator.cpp:113-119 | A valid strain comes from the slopes that minimise the squared error of both displacement components over the usable neighbours |
| StrainFit.LeastSquares | Portable-2D-DIC/src/strain_estimator.cpp:113-116 | The solution of the normal equations is the unique minimiser |
| StrainLaws.ExactOnAffine | Portable-2D-DIC/src/strain_estimator.cpp:113-119 | On an affine displacement field every valid strain is exact |
| StrainLaws.OrderIrrelevant | Portable-2D-DIC/src/strain_estimator.cpp:67-123 | The strain at a point depends on the set of points only, not on their order |
| StrainLaws.CrossBound | Portable-2D-DIC/src/strain_estimator.cpp:109-109 | The determinant is at least the square of any cross product of two neighbour offsets |
| HybridGrid.Process | Portable-2D-DIC/src/hybrid_grid_engine.cpp:24-72 | Different sizes throw; otherwise the grid in raster order, limited by the frame size cast to int, every point measured by the search and the refinement started at its shift |
| HybridGrid.MarginSuffices | Portable-2D-DIC/src/hybrid_grid_engine.cpp:33-55 | On the grid neither the search nor the refinement throws |
| HybridGrid.Measure | Portable-2D-DIC/src/hybrid_grid_engine.cpp:41-64 | One point from the best integer shift and the refinement from there, valid if converged and above the threshold |
| HybridGrid.GridExactly | Portable-2D-DIC/src/hybrid_grid_engine.cpp:33-40 | A position is on the grid if and only if it is whole steps behind the margin and inside the far margin |
| ExactShift.ShiftIsMeasured | Portable-2D-DIC/src/hybrid_grid_engine.cpp:41-64 | A grid point around which the deformed image is the textured reference shifted by whole pixels, with any gain and offset, is measured with exactly that shift and is valid, if no other shift in reach shows the reference and the refinement is regular there |
| ExactShift.ValidIsConverged | Portable-2D-DIC/src/hybrid_grid_engine.cpp:48-64 | A valid point has converged with the configured tolerance within the configured iterations, with the texture threshold 1, and has the quality demanded |
| HybridGrid.NeighbourIsNextIndex | Portable-2D-DIC/src/strain_estimator.cpp:50-63 | On an engine grid the lookup finds exactly the points given by row and column arithmetic |
| HybridGrid.AllValidAllStrained | Portable-2D-DIC/src/strain_estimator.cpp:71-121 | A grid of at least two rows and columns with every point valid gets a strain at every point |
| MeasuredGrids.Process | Portable-2D-DIC/src/pipeline.cpp:239-242 | Engine and estimator in sequence: the measured grid with the strains of a stateless estimator, whatever the estimator has cached, and valid strains throughout if all points are valid and there are two rows and columns |
| MeasuredGrids.MeasuredFits | Portable-2D-DIC/src/strain_estimator.cpp:50-63 | If one grid step beyond the frame is an int, as the engine's loops demand, the estimator's neighbour coordinates are ints at every measured point |
| MeasuredGrids.EngineAccepts | Portable-2D-DIC/apps/dic_edge.cpp:180-208 | A runtime configuration passes validation if and only if the engine's constructor would accept its grid, the image is at least 64 by 64, the frame rate positive and the pool not below the wrapped sum |
| CudaReduce.Reduce | Portable-2D-DIC/src/cuda_grid_engine.cu:327-362 | Strided accumulation by 128 threads and the block reduction give the sequential sum over all samples, each once, in all six accumulators |
| CudaReduce.WarpSum | Portable-2D-DIC/src/cuda_grid_engine.cu:93-98 | Lane 0 ends up with the sum over the warp although upper lanes add their own value again |
| CudaReduce.ShuffleDown | Portable-2D-DIC/src/cuda_grid_engine.cu:94-96 | Each lane adds the value of the lane further up, or its own beyond the last lane |
| CudaReduce.BlockSumSix | Portable-2D-DIC/src/cuda_grid_engine.cu:103-153 | The six totals are the sums over all 128 threads |
| CudaReduce.SumWarps | Portable-2D-DIC/src/cuda_grid_engine.cu:115-129 | Up to the first barrier each warp stores its six sums at its place |
| CudaReduce.Accumulate | Portable-2D-DIC/src/cuda_grid_engine.cu:327-353 | A thread adds exactly the samples with its index modulo 128 |
| CudaReduce.Partition | Portable-2D-DIC/src/cuda_grid_engine.cu:243-290 | The threads' parts add up to the sequential sum: every sample is counted once |
| Correlation.MomentFormula | Portable-2D-DIC/src/cuda_grid_engine.cu:365-367 | The one-pass moment formula equals the two-pass sum of products of deviations |
| CudaQuality.Evaluate | Portable-2D-DIC/src/cuda_grid_engine.cu:321-369 | The kernel notices exactly the subsets with samples outside, and otherwise computes the normalised correlation of the two windows |
| CudaQuality.KernelScoreIsScore | Portable-2D-DIC/src/cuda_grid_engine.cu:368-369 | Above the kernel's threshold its quality is the score of the CPU |
| CudaQuality.KernelScoreExactly | Portable-2D-DIC/src/cuda_grid_engine.cu:368-369 | The kernel's quality is the correlation where the denominator exceeds a millionth, and -1 elsewhere; the clamp never acts |
| CudaQuality.KernelSampleIs | Portable-2D-DIC/src/cuda_grid_engine.cu:329-352 | Sample index arithmetic visits the window in raster order |
| CudaQuality.InsideExactly | Portable-2D-DIC/src/cuda_grid_engine.cu:345-347 | The sixth accumulator is zero exactly if every sample is inside |

## Left out

- EdgeSafety.StoppedStoresExactly: says nothing about STOP ever being answered; notifications of the pause condition are sent without the mutex, so pause and stop are modelled for safety only, and timed waits may return empty at any step.
- PipelineSafety.BuffersConserved: returning dropped buffers inside a push, a pop or a close of the queue is part of that one step, and the reference frame is a copy outside the pool, as in the source.
- PipelineSafety.RunKeepsInv: a fault can be overwritten by the running state at the end of start, as in the source; nothing is claimed about the pipeline state sticking to faulted.
- AsyncWriterSafety.CloseReturnsWhole: conditional, because without the condition the claim is false, see above; AsyncWriterCalls.CloseWholeExactly has the exact condition. The destructor's close is the same steps and not a run of its own.
- EdgeSafety.StoppedMeansStored: for pipelines with both callbacks, because without them it is false, see above; EdgeSafety.StoppedStoresExactly has the exact condition. The preview callback is not modelled, and an exception while attaching it counts as one of the fault callback.
- FftInPlace.FftInPlace: for power-of-two lengths only, which is what its one caller passes.
- HybridGrid.Process: margins and grid coordinates are unbounded, so overflow of the loop variables is not modelled; point quality is not kept.
- StrainGrid.GridStrainEstimator.Apply: requires that coordinates one grid step away are int values; beyond that the source's sum overflows.
- CudaReduce.Reduce: threads of a block run one after the other between the barriers; the lanes of a shuffle are computed from below, which reads only unchanged lanes.
- Zncc.FindIntegerTranslation: pixels come from frames whose pixel count is stride times height.
- SubpixelStep.StepMinimises: minimises the linearised difference; that the iteration approaches the displacement of an image shifted by fractions of a pixel is not claimed, because interpolated images do not obey it exactly.
- Rounding: reals are exact; NaN and infinities appear only in the strain input. Floats and doubles in packets and files are bit patterns.
- The Gauss-Newton iteration, median fallback and recovery passes of the CUDA engine, and its per-point state across references.
- Sockets, timeouts, Winsock, the startup handshake and reconnect timers: a byte channel delivers chunks, a send takes some bytes or fails.
- Qt widgets and drawing; the window function is a parameter.
- Cameras, the CUDA runtime, replay files and GalaxySDK: a frame source that succeeds, times out or throws.
- CSV and JSON text: the table is a stream that takes lines or fails, the manifest its status.
- File system: a file is a byte sequence of which a prefix is on disk.
- Configuration text, its saving, the ranges checked beyond the runtime configuration, PING, STATUS and previews: easier members.
- Statistics, result summaries, PGM, synthetic rendering, benchmarks and deployment.
