/** src/common/ThreadSafeQueue.h: a bounded queue that drops its oldest element when full. */
module ThreadSafeQueueClass {
  import opened Common

  class ThreadSafeQueue<T> {
    var queue: seq<T>
    const maxSize: nat
    var stopped: bool
    var dropCount: nat

    predicate Valid()
      reads this
    {
      1 <= maxSize && |queue| <= maxSize
    }

    /** With maxSize 0, push would pop an empty std::queue. */
    constructor (maxSize: nat)
      requires maxSize >= 1
      ensures Valid() && queue == [] && dropCount == 0 && !stopped && this.maxSize == maxSize
    {
      this.maxSize := maxSize;
      queue, dropCount, stopped := [], 0, false;
    }

    method Push(item: T) returns (ok: bool)
      requires Valid()
      modifies this`queue, this`dropCount
      ensures Valid() && ok == !stopped
      ensures !ok ==> queue == old(queue) && dropCount == old(dropCount)
      ensures ok && |old(queue)| < maxSize ==> queue == old(queue) + [item] && dropCount == old(dropCount)
      ensures ok && |old(queue)| == maxSize ==> queue == old(queue)[1..] + [item] && dropCount == old(dropCount) + 1
    {
      if stopped {
        return false;
      }
      if |queue| >= maxSize {
        queue := queue[1..];
        dropCount := dropCount + 1;
      }
      queue := queue + [item];
      return true;
    }

    /** pop() once waiting has ended, by an element, by stop() or by the timeout. */
    method Pop() returns (item: Option<T>)
      requires Valid()
      modifies this`queue
      ensures Valid()
      ensures old(queue) == [] ==> item == None && queue == []
      ensures old(queue) != [] ==> item == Some(old(queue)[0]) && queue == old(queue)[1..]
    {
      if queue == [] {
        return None;
      }
      item := Some(queue[0]);
      queue := queue[1..];
    }

    method Stop()
      requires Valid()
      modifies this`stopped
      ensures Valid() && stopped
    {
      stopped := true;
    }
  }
}
