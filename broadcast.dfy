/** The live fan-out: one bounded `queue.Queue` per WebSocket client and the
    global `subscribers` set that `broadcast` walks. The two full-queue
    policies live with the server variants that use them. */
module Broadcast {
  import opened Meter

  /** `queue.Queue(maxsize)`; `items[0]` is the oldest message. As in Python,
      a `maxsize` of 0 means the queue is unbounded. */
  class MessageQueue<T> {
    const maxsize: nat
    var items: seq<T>

    ghost predicate Valid()
      reads this
    {
      maxsize > 0 ==> |items| <= maxsize
    }

    constructor (maxsize: nat)
      ensures Valid() && this.maxsize == maxsize && items == []
    {
      this.maxsize := maxsize;
      items := [];
    }

    /** `q.full()`. */
    predicate Full()
      reads this
    {
      IsFull(items, maxsize)
    }

    /** `q.put_nowait(x)`; `ok == false` stands for the `queue.Full` it raises. */
    method PutNowait(x: T) returns (ok: bool)
      requires Valid()
      modifies this
      ensures Valid()
      ensures ok == !old(Full())
      ensures items == if ok then old(items) + [x] else old(items)
    {
      ok := !IsFull(items, maxsize);
      if ok {
        items := items + [x];
      }
    }

    /** `q.get_nowait()`; None stands for the `queue.Empty` it raises. */
    method GetNowait() returns (r: Option<T>)
      requires Valid()
      modifies this
      ensures Valid()
      ensures old(items) == [] ==> r == None && items == []
      ensures old(items) != [] ==> r == Some(old(items)[0]) && items == old(items)[1..]
    {
      if items == [] {
        r := None;
      } else {
        r := Some(items[0]);
        items := items[1..];
      }
    }
  }

  /** `0 < self.maxsize <= self._qsize()`, the test `put_nowait` makes. */
  predicate IsFull<T>(items: seq<T>, maxsize: nat)
  {
    0 < maxsize <= |items|
  }

  /** The `subscribers` set: one queue per connected client. */
  class Registry<T> {
    var subscribers: set<MessageQueue<T>>

    ghost predicate Valid()
      reads this, subscribers
    {
      forall q :: q in subscribers ==> q.Valid()
    }

    constructor ()
      ensures Valid() && subscribers == {}
    {
      subscribers := {};
    }

    /** `subscribers.add(q)`. */
    method Add(q: MessageQueue<T>)
      requires Valid() && q.Valid()
      modifies this
      ensures Valid()
      ensures subscribers == old(subscribers) + {q}
    {
      subscribers := subscribers + {q};
    }

    /** `subscribers.discard(q)`: removing a queue that is not registered
        (a second disconnect, say) leaves the set as it is. */
    method Discard(q: MessageQueue<T>)
      requires Valid()
      modifies this
      ensures Valid()
      ensures subscribers == old(subscribers) - {q}
      ensures q !in old(subscribers) ==> subscribers == old(subscribers)
    {
      subscribers := subscribers - {q};
    }
  }
}
