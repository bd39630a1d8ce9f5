/**
 * Zephyr message queues (`k_msgq`) as used by the tracker: a bounded FIFO whose
 * no-wait put drops the NEW item when the queue is full and never blocks.
 */
module MsgQueues {
  import opened Optional
  import opened Sequences

  /** Capacities declared by the firmware. */
  const RMC_QUEUE_SENSORS: nat := 2   // rmc_msgq in app_sensors.c
  const CAT_QUEUE: nat := 64          // cat_msgq in app_sensors.c
  const RMC_QUEUE_GNSS: nat := 64     // rmc_msgq in app_gnss.c

  /** `k_msgq_put(q, x, K_NO_WAIT)`: appended when there is room, otherwise dropped. */
  function TryPut<T>(items: seq<T>, capacity: nat, x: T): seq<T>
  {
    if |items| < capacity then items + [x] else items
  }

  /** A run of no-wait puts, in order. */
  function PutAll<T>(items: seq<T>, capacity: nat, xs: seq<T>): seq<T>
    decreases |xs|
  {
    if xs == [] then items else PutAll(TryPut(items, capacity, xs[0]), capacity, xs[1..])
  }

  function Min(a: nat, b: nat): nat { if a <= b then a else b }

  /**
   * Drop-newest policy: after any run of no-wait puts the queue holds everything it
   * held before, followed by as many of the new items, in order, as there was room for;
   * every later item is lost and the queue never exceeds its capacity.
   */
  lemma {:induction false} PutAllKeepsOldest<T>(items: seq<T>, capacity: nat, xs: seq<T>)
    requires |items| <= capacity
    ensures PutAll(items, capacity, xs) == items + xs[..Min(|xs|, capacity - |items|)]
    ensures |PutAll(items, capacity, xs)| <= capacity
    decreases |xs|
  {
    if xs != [] {
      var next := TryPut(items, capacity, xs[0]);
      PutAllKeepsOldest(next, capacity, xs[1..]);
      if |items| < capacity {
        var k := Min(|xs[1..]|, capacity - |next|);
        assert next + xs[1..][..k] == items + xs[..k + 1];
      }
    }
  }

  /** A run of puts extended by one more put. */
  lemma {:induction false} PutAllSnoc<T>(items: seq<T>, capacity: nat, xs: seq<T>, x: T)
    ensures PutAll(items, capacity, xs + [x]) == TryPut(PutAll(items, capacity, xs), capacity, x)
    decreases |xs|
  {
    if xs == [] {
      assert xs + [x] == [x];
    } else {
      assert (xs + [x])[1..] == xs[1..] + [x];
      PutAllSnoc(TryPut(items, capacity, xs[0]), capacity, xs[1..], x);
    }
  }

  class MsgQueue<T> {
    var items: seq<T>
    const capacity: nat

    ghost predicate Valid()
      reads this
    {
      |items| <= capacity
    }

    constructor (capacity: nat)
      ensures Valid() && this.capacity == capacity && items == []
    {
      this.capacity := capacity;
      items := [];
    }

    /** `k_msgq_put` with `K_NO_WAIT`; `ok` is false exactly when the item was dropped. */
    method Put(x: T) returns (ok: bool)
      requires Valid()
      modifies this
      ensures Valid()
      ensures ok == (|old(items)| < capacity)
      ensures items == TryPut(old(items), capacity, x)
    {
      ok := |items| < capacity;
      if ok {
        items := items + [x];
      }
    }

    /** `k_msgq_get` with `K_NO_WAIT`: the oldest item, removed, or nothing when empty. */
    method Get() returns (r: Option<T>)
      requires Valid()
      modifies this
      ensures Valid()
      ensures old(items) == [] ==> r == None && items == []
      ensures old(items) != [] ==> r == Some(old(items)[0]) && items == old(items)[1..]
    {
      if items == [] {
        r := None;
      } else {
        r := Some(items[0]);
        items := items[1..];
      }
    }

    /**
     * `while (k_msgq_get(q, &x, K_NO_WAIT) == 0) { ... }`: takes every item out, oldest
     * first, and returns what `f` makes of each, in the same order.
     */
    method DrainMap<U>(f: T -> U) returns (out: seq<U>)
      requires Valid()
      modifies this
      ensures Valid() && items == []
      ensures out == Map(old(items), f)
    {
      ghost var taken := items;
      ghost var k := 0;
      out := [];
      while true
        invariant Valid()
        invariant k <= |taken| && items == taken[k..]
        invariant out == Map(taken[..k], f)
        decreases |items|
      {
        var x := Get();
        if x.None? {
          break;
        }
        MapPrefixStep(taken, k, f);
        out := out + [f(x.value)];
        k := k + 1;
      }
      assert taken[..k] == taken;
    }

    /** `k_msgq_peek`: the oldest item, left in the queue. */
    method Peek() returns (r: Option<T>)
      ensures r.None? <==> items == []
      ensures r.Some? ==> |items| > 0 && r.value == items[0]
    {
      r := if items == [] then None else Some(items[0]);
    }
  }
}
