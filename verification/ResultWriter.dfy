/** The manifest and the CSV table of a session; the table is only a stream that takes lines or fails. */
module ResultWriters {
  import opened Outcomes
  import opened Bytes
  import W = AsyncWriter

  /** What the file system does with a new manifest: nothing is created, or the old one is gone, or it is in place. */
  datatype Commit = NotWritten | Lost | Committed

  class ResultWriter {
    const flushEvery: Positive
    const csvEnabled: bool
    var sessionOpen: bool
    var status: W.Status
    var csvGood: bool
    var framesSinceFlush: nat

    ghost predicate Valid()
      reads this
    {
      framesSinceFlush < flushEvery
    }

    constructor (every: Positive, csv: bool)
      ensures Valid() && !sessionOpen && flushEvery == every && csvEnabled == csv
    {
      flushEvery, csvEnabled := every, csv;
      sessionOpen, status, csvGood, framesSinceFlush := false, W.Missing, false, 0;
    }

    method WriteManifest(next: W.Status, commit: Commit) returns (o: Outcome<()>)
      modifies this`status
      ensures o == if commit == Committed then Done(()) else Threw(StreamFailed)
      ensures status == match commit { case NotWritten => old(status) case Lost => W.Missing case Committed => next }
    {
      if commit == NotWritten {
        return Threw(StreamFailed);
      }
      status := W.Missing;
      if commit == Lost {
        return Threw(StreamFailed);
      }
      status := next;
      return Done(());
    }

    /**
     * `complete` tells whether the session information is, `existing` what the manifest of a directory that is there
     * already says, `table` whether results.csv can be created. Afterwards `status` is that of the new session's path.
     */
    method Open(complete: bool, existing: Option<W.Status>, commit: Commit, table: bool) returns (o: Outcome<()>)
      requires Valid()
      modifies this
      ensures Valid()
      ensures old(sessionOpen) ==> o == Threw(SessionAlreadyOpen)
      ensures o.Done?
              <==> !old(sessionOpen) && complete && existing.None? && commit == Committed && (csvEnabled ==> table)
      ensures sessionOpen == (old(sessionOpen) || o.Done?)
      ensures status == if old(sessionOpen) || !complete then old(status)
                        else match existing {
                          case Some(there) => there
                          case None => if commit == Committed then W.Recording else W.Missing
                        }
      ensures framesSinceFlush == if o.Done? then 0 else old(framesSinceFlush)
    {
      if sessionOpen {
        return Threw(SessionAlreadyOpen);
      }
      if !complete {
        return Threw(SessionInfoIncomplete);
      }
      if existing.Some? {
        status := existing.value;
        return Threw(DirectoryExists);
      }
      status := W.Missing;
      o := WriteManifest(W.Recording, commit);
      if o.Threw? {
        return;
      }
      csvGood := table;
      if csvEnabled && !table {
        return Threw(StreamFailed);
      }
      framesSinceFlush := 0;
      sessionOpen := true;
      return Done(());
    }

    /** `writes` and `flushes` tell whether the table takes the lines of this result. */
    method Append(writes: bool, flushes: bool) returns (o: Outcome<()>)
      requires Valid()
      modifies this
      ensures Valid() && sessionOpen == old(sessionOpen) && status == old(status)
      ensures !old(sessionOpen) ==> o == Threw(SessionNotOpen) && framesSinceFlush == old(framesSinceFlush)
      ensures old(sessionOpen) && !csvEnabled ==> o == Done(())
      ensures o.Done? && csvEnabled ==> csvGood && framesSinceFlush == (old(framesSinceFlush) + 1) % flushEvery
      ensures csvEnabled && o == Threw(StreamFailed) ==> !csvGood
    {
      if !sessionOpen {
        return Threw(SessionNotOpen);
      }
      if !csvEnabled {
        return Done(());
      }
      csvGood := csvGood && writes;
      if !csvGood {
        return Threw(StreamFailed);
      }
      if framesSinceFlush + 1 >= flushEvery {
        csvGood := flushes;
        if !csvGood {
          return Threw(StreamFailed);
        }
        framesSinceFlush := 0;
      } else {
        framesSinceFlush := framesSinceFlush + 1;
      }
      return Done(());
    }

    /** Closing is the finalising step of the writer's state machine; a second close changes nothing. */
    method Close(final: W.Status, flushes: bool, commit: Commit) returns (o: Outcome<()>)
      requires Valid()
      modifies this
      ensures Valid()
      ensures var before := W.Manifest(true, old(sessionOpen), old(status));
              W.Finalised(before, W.Manifest(true, sessionOpen, status), final, o.Threw?)
      ensures o.Done? && old(sessionOpen) ==> !sessionOpen && status == final && (csvEnabled ==> csvGood)
      ensures o == Threw(StatusInvalid) ==> sessionOpen && status == old(status)
    {
      if !sessionOpen {
        return Done(());
      }
      if csvEnabled {
        csvGood := csvGood && flushes;
        if !csvGood {
          sessionOpen := false;
          return Threw(StreamFailed);
        }
      }
      if final != W.Complete && final != W.Interrupted && final != W.FaultedStatus {
        return Threw(StatusInvalid);
      }
      o := WriteManifest(final, commit);
      if o.Done? {
        sessionOpen := false;
      }
    }
  }
}
