/** A fixed set of frame buffers. A buffer that is handed out comes back when its last user drops it. */
module FramePools {
  import opened Outcomes

  /** The buffers 0, ..., count - 1, once each. */
  function AllBuffers(count: nat): multiset<nat> {
    if count == 0 then multiset{} else AllBuffers(count - 1) + multiset{count - 1}
  }

  lemma {:induction false} AllBuffersSize(count: nat)
    ensures |AllBuffers(count)| == count
    ensures forall b: nat :: AllBuffers(count)[b] == if b < count then 1 else 0
  {
    if count > 0 {
      AllBuffersSize(count - 1);
      var last: nat := count - 1;
      assert AllBuffers(count) == AllBuffers(count - 1) + multiset{last};
    }
  }

  /** Handing out a buffer: the one returned last, or none when the pool is closed or empty (after the timeout). */
  ghost predicate Acquires(available: seq<nat>, closed: bool, after: seq<nat>, frame: Option<nat>) {
    match frame
    case None => (closed || available == []) && after == available
    case Some(buffer) => !closed && available == after + [buffer]
  }

  class FramePool {
    const owned: nat
    var available: seq<nat>
    var closed: bool
    ghost var lent: multiset<nat>

    /** Every buffer is either available or lent, and only once. */
    ghost predicate Valid()
      reads this
    {
      multiset(available) + lent == AllBuffers(owned)
    }

    constructor (count: nat)
      ensures Valid() && owned == count && lent == multiset{} && !closed
    {
      owned := count;
      closed := false;
      lent := multiset{};
      available := [];
      new;
      var i := 0;
      while i < count
        invariant i <= count && multiset(available) == AllBuffers(i)
        invariant lent == multiset{} && !closed
      {
        available := available + [i];
        i := i + 1;
      }
    }

    method Acquire() returns (frame: Option<nat>)
      requires Valid()
      modifies this
      ensures Valid() && closed == old(closed)
      ensures Acquires(old(available), closed, available, frame)
      ensures lent == old(lent) + if frame.None? then multiset{} else multiset{frame.value}
      ensures frame.Some? ==> frame.value !in old(lent) && frame.value !in available
    {
      if closed || available == [] {
        return None;
      }
      var last := available[|available| - 1];
      AllBuffersSize(owned);
      assert available == available[..|available| - 1] + [last];
      assert (multiset(available) + lent)[last] <= 1;
      available := available[..|available| - 1];
      lent := lent + multiset{last};
      return Some(last);
    }

    /** The deleter of a frame handed out by Acquire. */
    method Release(frame: nat)
      requires Valid() && frame in lent
      modifies this
      ensures Valid() && closed == old(closed)
      ensures available == old(available) + [frame] && lent == old(lent) - multiset{frame}
    {
      available := available + [frame];
      lent := lent - multiset{frame};
    }

    /** Reopening succeeds exactly when no frame is in use. */
    method Reopen() returns (o: Outcome<()>)
      requires Valid()
      modifies this
      ensures Valid() && available == old(available) && lent == old(lent)
      ensures o == if lent == multiset{} then Done(()) else Threw(FramesInUse)
      ensures closed == (old(closed) && o.Threw?)
    {
      AllBuffersSize(owned);
      assert |multiset(available)| + |lent| == owned;
      if |available| != owned {
        return Threw(FramesInUse);
      }
      closed := false;
      return Done(());
    }

    method Close()
      requires Valid()
      modifies this
      ensures Valid() && closed && available == old(available) && lent == old(lent)
    {
      closed := true;
    }
  }
}
