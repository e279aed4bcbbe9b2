/**
 * The shared observation buffer: an `asyncio.Queue` used through `put_nowait`,
 * `empty` and `get`. As in asyncio, a `maxsize` of zero or less means the queue
 * is unbounded; otherwise it is full once it holds `maxsize` items.
 */
module AsyncQueue {

  /** Whether a queue with this `maxsize` holding `size` items refuses a new one. */
  predicate IsFull(maxsize: int, size: nat)
  {
    0 < maxsize <= size
  }

  /** The queue's capacity invariant: a bounded queue never holds more than `maxsize` items. */
  predicate WithinCapacity<T>(maxsize: int, items: seq<T>)
  {
    maxsize > 0 ==> |items| <= maxsize
  }

  /** The contents after `put_nowait(x)`: appended at the back, or unchanged when full. */
  function Put<T>(items: seq<T>, maxsize: int, x: T): (r: seq<T>)
    ensures IsFull(maxsize, |items|) ==> r == items
    ensures !IsFull(maxsize, |items|) ==> |r| == |items| + 1 && r[..|items|] == items && r[|items|] == x
  {
    if IsFull(maxsize, |items|) then items else items + [x]
  }

  /**
   * The split `take_up_to(n)` makes: the first `min(n, |items|)` items, in FIFO order,
   * and what stays in the queue.
   */
  function TakeUpTo<T>(items: seq<T>, n: nat): (r: (seq<T>, seq<T>))
    ensures |r.0| == (if n <= |items| then n else |items|)
    ensures r.0 + r.1 == items
  {
    var k := if n <= |items| then n else |items|;
    (items[..k], items[k..])
  }

  /** One operation on the shared queue: a publish of one item, or a drain of up to `n`. */
  datatype Op<T> = Publish(item: T) | Drain(n: nat)

  /** The contents after applying `ops` in order. */
  function Apply<T>(items: seq<T>, maxsize: int, ops: seq<Op<T>>): seq<T>
    decreases |ops|
  {
    if ops == [] then items
    else
      var next := match ops[0]
        case Publish(x) => Put(items, maxsize, x)
        case Drain(n) => TakeUpTo(items, n).1;
      Apply(next, maxsize, ops[1..])
  }

  /** Publishing every item of `xs` in turn, with no drain in between. */
  function PublishAll<T>(items: seq<T>, maxsize: int, xs: seq<T>): seq<T>
    decreases |xs|
  {
    if xs == [] then items else PublishAll(Put(items, maxsize, xs[0]), maxsize, xs[1..])
  }

  /** The operations that publish the items of `xs`, in order. */
  function Publishes<T>(xs: seq<T>): (ops: seq<Op<T>>)
    ensures |ops| == |xs| && forall i :: 0 <= i < |xs| ==> ops[i] == Publish(xs[i])
  {
    seq(|xs|, i requires 0 <= i < |xs| => Publish(xs[i]))
  }

  /** `PublishAll` is `Apply` on a list of publishes with no drain among them. */
  lemma {:induction false} PublishAllIsApply<T>(items: seq<T>, maxsize: int, xs: seq<T>)
    ensures PublishAll(items, maxsize, xs) == Apply(items, maxsize, Publishes(xs))
    decreases |xs|
  {
    if xs != [] {
      assert Publishes(xs)[1..] == Publishes(xs[1..]);
      PublishAllIsApply(Put(items, maxsize, xs[0]), maxsize, xs[1..]);
    }
  }

  /** How many of `count` publishes a queue holding `size` items accepts before it is full. */
  function Room(maxsize: int, size: nat, count: nat): (k: nat)
    ensures k <= count
  {
    if maxsize <= 0 || count <= maxsize - size then count
    else if size >= maxsize then 0
    else maxsize - size
  }

  /** No interleaving of publishes and drains takes a queue beyond its capacity. */
  lemma {:induction false} ApplyWithinCapacity<T>(items: seq<T>, maxsize: int, ops: seq<Op<T>>)
    requires WithinCapacity(maxsize, items)
    ensures WithinCapacity(maxsize, Apply(items, maxsize, ops))
    decreases |ops|
  {
    if ops != [] {
      var next := match ops[0]
        case Publish(x) => Put(items, maxsize, x)
        case Drain(n) => TakeUpTo(items, n).1;
      ApplyWithinCapacity(next, maxsize, ops[1..]);
    }
  }

  /**
   * A run of publishes keeps what was queued and accepts exactly a prefix of the new
   * items, as many as there is room for: once full, every later publish is dropped.
   */
  lemma {:induction false} PublishAllAcceptsPrefix<T>(items: seq<T>, maxsize: int, xs: seq<T>)
    requires WithinCapacity(maxsize, items)
    ensures PublishAll(items, maxsize, xs) == items + xs[..Room(maxsize, |items|, |xs|)]
    decreases |xs|
  {
    if xs == [] {
      assert items + xs[..0] == items;
    } else if IsFull(maxsize, |items|) {
      assert PublishAll(items, maxsize, xs) == PublishAll(items, maxsize, xs[1..]);
      PublishAllAcceptsPrefix(items, maxsize, xs[1..]);
      assert Room(maxsize, |items|, |xs| - 1) == 0 && Room(maxsize, |items|, |xs|) == 0;
      assert xs[1..][..0] == xs[..0];
    } else {
      var next := items + [xs[0]];
      assert PublishAll(items, maxsize, xs) == PublishAll(next, maxsize, xs[1..]);
      assert WithinCapacity(maxsize, next);
      PublishAllAcceptsPrefix(next, maxsize, xs[1..]);
      var k := Room(maxsize, |next|, |xs| - 1);
      assert Room(maxsize, |items|, |xs|) == k + 1;
      assert xs[..k + 1] == [xs[0]] + xs[1..][..k];
      assert next + xs[1..][..k] == items + ([xs[0]] + xs[1..][..k]);
    }
  }

  /** An unbounded queue accepts every publish, and draining it returns them in publish order. */
  lemma FifoRoundTrip<T>(xs: seq<T>, maxsize: int)
    requires maxsize <= 0
    ensures TakeUpTo(PublishAll([], maxsize, xs), |xs|) == (xs, [])
  {
    PublishAllAcceptsPrefix([], maxsize, xs);
    assert [] + xs[..|xs|] == xs;
    var r := TakeUpTo(xs, |xs|);
    assert r.0 + r.1 == xs && |r.0| == |xs|;
    assert r.0 == xs;
  }

  /** With capacity 1, the second of two publishes is dropped and the first item stays. */
  lemma OverflowWithCapacityOne<T>(a: T, b: T)
    ensures PublishAll([], 1, [a, b]) == [a]
  {
    PublishAllAcceptsPrefix([], 1, [a, b]);
  }

  /** `asyncio.Queue`: FIFO contents and a `maxsize` fixed at construction. */
  class Queue<T> {
    var items: seq<T>
    const maxsize: int

    ghost predicate Valid()
      reads this
    {
      WithinCapacity(maxsize, items)
    }

    /** `asyncio.Queue(maxsize)`; the default, 0, makes an unbounded queue. */
    constructor (maxsize: int := 0)
      ensures Valid()
      ensures items == [] && this.maxsize == maxsize
    {
      items := [];
      this.maxsize := maxsize;
    }

    /** `empty()`: whether the queue holds no item. */
    function Empty(): (e: bool)
      reads this
      ensures e <==> |items| == 0
    {
      items == []
    }

    /** `full()`: only a bounded queue is ever full, and then it holds exactly `maxsize` items. */
    function Full(): (f: bool)
      reads this
      ensures f <==> 0 < maxsize <= |items|
      ensures Valid() && f ==> |items| == maxsize
    {
      IsFull(maxsize, |items|)
    }

    /**
     * `put_nowait(x)`: never waits. When the queue is full it raises `QueueFull`,
     * modelled as `accepted == false`, and the contents are unchanged.
     */
    method PutNowait(x: T) returns (accepted: bool)
      requires Valid()
      modifies this
      ensures Valid()
      ensures accepted <==> !old(Full())
      ensures items == Put(old(items), maxsize, x)
      ensures accepted ==> items == old(items) + [x]
    {
      if Full() {
        accepted := false;
      } else {
        items := items + [x];
        accepted := true;
      }
    }

    /** `get()` on a non-empty queue: removes and returns the front item without waiting. */
    method Get() returns (x: T)
      requires Valid() && !Empty()
      modifies this
      ensures Valid()
      ensures x == old(items)[0] && items == old(items)[1..]
    {
      x := items[0];
      items := items[1..];
    }
  }
}
