/** A bounded queue that drops its oldest items and hands out only the newest. */
module LatestQueues {
  import opened Outcomes

  datatype QueuePop<+T> = QueuePop(value: T, skipped: nat)

  /** The last `n` items, or all of them if there are fewer. */
  function LastItems<T>(items: seq<T>, n: nat): (last: seq<T>)
    ensures |last| == if |items| <= n then |items| else n
  {
    if |items| <= n then items else items[|items| - n..]
  }

  /** A push: a closed queue ignores the item; otherwise the newest items remain and the others count as dropped. */
  ghost predicate Pushes<T>(items: seq<T>, closed: bool, item: T, capacity: nat, after: seq<T>, dropped: nat) {
    if closed then after == items && dropped == 0
    else after == LastItems(items + [item], capacity) && |items| + 1 == |after| + dropped
  }

  /** A pop: the newest item and the number of older ones it leaves unprocessed; nothing remains. */
  ghost predicate Pops<T>(items: seq<T>, after: seq<T>, popped: Option<QueuePop<T>>) {
    && after == []
    && popped == if items == [] then None else Some(QueuePop(items[|items| - 1], |items| - 1))
  }

  class LatestQueue<T> {
    const capacity: nat
    var queue: seq<T>
    var closed: bool

    ghost predicate Valid()
      reads this
    {
      0 < capacity && |queue| <= capacity && (closed ==> queue == [])
    }

    constructor (size: nat)
      requires size > 0
      ensures Valid() && capacity == size && queue == [] && !closed
    {
      capacity := size;
      queue, closed := [], false;
    }

    static method Create(size: nat) returns (o: Outcome<LatestQueue<T>>)
      ensures size == 0 ==> o == Threw(CapacityNotPositive)
      ensures size > 0 ==>
                && o.Done? && fresh(o.value) && o.value.Valid() && o.value.capacity == size
                && o.value.queue == [] && !o.value.closed
    {
      if size == 0 {
        return Threw(CapacityNotPositive);
      }
      var queue := new LatestQueue(size);
      return Done(queue);
    }

    method Push(item: T) returns (dropped: nat)
      requires Valid()
      modifies this
      ensures Valid() && closed == old(closed)
      ensures Pushes(old(queue), old(closed), item, capacity, queue, dropped)
    {
      dropped := 0;
      if closed {
        return;
      }
      while |queue| >= capacity
        invariant dropped <= |old(queue)| && queue == old(queue)[dropped..]
        invariant dropped > 0 ==> |old(queue)| - dropped >= capacity - 1
        invariant closed == old(closed)
        decreases |queue|
      {
        queue := queue[1..];
        dropped := dropped + 1;
      }
      queue := queue + [item];
      assert queue == (old(queue) + [item])[dropped..];
    }

    method WaitPop() returns (item: Option<QueuePop<T>>)
      requires Valid()
      modifies this
      ensures Valid() && closed == old(closed) && Pops(old(queue), queue, item)
    {
      if queue == [] {
        return None;
      }
      var skipped := |queue| - 1;
      var newest := queue[|queue| - 1];
      queue := [];
      return Some(QueuePop(newest, skipped));
    }

    method Reopen()
      requires 0 < capacity
      modifies this
      ensures Valid() && queue == [] && !closed
    {
      queue := [];
      closed := false;
    }

    method Close()
      requires Valid()
      modifies this
      ensures Valid() && queue == [] && closed
    {
      closed := true;
      queue := [];
    }
  }
}
