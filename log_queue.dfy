/**
 * `NeverfullQueue`, the bounded queue that collects log records for display: a `put_nowait`
 * on a full queue drops the oldest record instead of raising `queue.Full`. A `maxsize` of
 * zero or less means the queue is unbounded, as for `queue.Queue`.
 */
module LogQueue {
  import opened Wrappers
  import opened SeqUtil

  /** `log_queue = NeverfullQueue(maxsize=1000)` */
  const LogQueueSize: int := 1000

  /** `queue.Queue.full()` for a queue holding `items`. */
  predicate IsFull<T>(items: seq<T>, maxsize: int) {
    0 < maxsize <= |items|
  }

  /**
   * `put_nowait(item)`: a put that fails because the queue is full is retried once after
   * taking the oldest record out; if that put fails too, the error is swallowed.
   */
  function Put<T>(items: seq<T>, maxsize: int, item: T): seq<T> {
    if !IsFull(items, maxsize) then items + [item]
    else if !IsFull(items[1..], maxsize) then items[1..] + [item]
    else items[1..]
  }

  /**
   * On a queue holding at most `maxsize` records, `put_nowait` keeps exactly the newest
   * `maxsize` of the old records followed by the new one: it appends at the tail when there
   * is room, and otherwise drops only the oldest, so the size stays at `maxsize` and the
   * survivors keep their order.
   */
  lemma PutKeepsNewest<T>(items: seq<T>, maxsize: int, item: T)
    requires maxsize > 0 && |items| <= maxsize
    ensures Put(items, maxsize, item) == KeepNewest(items + [item], maxsize)
    ensures |Put(items, maxsize, item)| <= maxsize
    ensures |items| < maxsize ==> Put(items, maxsize, item) == items + [item]
    ensures |items| == maxsize ==> |Put(items, maxsize, item)| == maxsize
  {
    if |items| == maxsize {
      assert (items + [item])[|items + [item]| - maxsize..] == items[1..] + [item];
    }
  }

  /** An unbounded queue only ever appends. */
  lemma UnboundedAppends<T>(items: seq<T>, maxsize: int, item: T)
    requires maxsize <= 0
    ensures Put(items, maxsize, item) == items + [item]
  {
  }

  /** The queue after `put_nowait` of each record of `xs` in turn. */
  function PutAll<T>(items: seq<T>, maxsize: int, xs: seq<T>): seq<T>
    decreases |xs|
  {
    if xs == [] then items
    else Put(PutAll(items, maxsize, xs[..|xs| - 1]), maxsize, xs[|xs| - 1])
  }

  /**
   * However many records are put, a queue that starts within its bound holds the newest
   * `maxsize` records of everything it was given, in order: "keep the last 1000 logs".
   */
  lemma {:induction false} PutAllKeepsNewest<T>(items: seq<T>, maxsize: int, xs: seq<T>)
    requires maxsize > 0 && |items| <= maxsize
    ensures PutAll(items, maxsize, xs) == KeepNewest(items + xs, maxsize)
    decreases |xs|
  {
    if xs != [] {
      PutAllKeepsNewest(items, maxsize, xs[..|xs| - 1]);
      PutAllStep(items, maxsize, xs[..|xs| - 1], xs[|xs| - 1]);
      assert xs[..|xs| - 1] + [xs[|xs| - 1]] == xs;
    } else {
      assert items + xs == items;
    }
  }

  lemma PutAllStep<T>(items: seq<T>, maxsize: int, init: seq<T>, x: T)
    requires maxsize > 0 && PutAll(items, maxsize, init) == KeepNewest(items + init, maxsize)
    ensures PutAll(items, maxsize, init + [x]) == KeepNewest(items + (init + [x]), maxsize)
  {
    var xs := init + [x];
    assert xs[..|xs| - 1] == init;
    var q := PutAll(items, maxsize, init);
    PutKeepsNewest(q, maxsize, x);
    KeepNewestStep(items + init, x, maxsize);
    assert items + xs == (items + init) + [x];
  }

  /** Keeping the newest `n` after appending one more is keeping the newest `n` of the newest `n` and the new element. */
  lemma KeepNewestStep<T>(s: seq<T>, x: T, n: nat)
    requires n > 0
    ensures KeepNewest(KeepNewest(s, n) + [x], n) == KeepNewest(s + [x], n)
  {
    var k := KeepNewest(s, n);
    var r := KeepNewest(k + [x], n);
    var t := KeepNewest(s + [x], n);
    assert |r| == |t|;
    forall i | 0 <= i < |r| ensures r[i] == t[i] {
      assert r[i] == (k + [x])[|k| + 1 - |r| + i];
      assert t[i] == (s + [x])[|s| + 1 - |t| + i];
    }
  }

  class NeverfullQueue<T> {
    const maxsize: int
    var items: seq<T>

    /** Never more than `maxsize` records when the queue is bounded. */
    predicate Valid()
      reads this
    {
      maxsize > 0 ==> |items| <= maxsize
    }

    constructor (maxsize: int)
      ensures Valid() && this.maxsize == maxsize && items == []
    {
      this.maxsize := maxsize;
      items := [];
    }

    /** `queue.Queue.put_nowait`: appends, or fails when the queue is full. */
    method TryPut(item: T) returns (ok: bool)
      modifies this
      ensures ok == !IsFull(old(items), maxsize)
      ensures items == if ok then old(items) + [item] else old(items)
    {
      if IsFull(items, maxsize) {
        return false;
      }
      items := items + [item];
      return true;
    }

    /** `put_nowait(item)`; it never raises. */
    method PutNowait(item: T)
      requires Valid()
      modifies this
      ensures Valid()
      ensures items == Put(old(items), maxsize, item)
    {
      var ok := TryPut(item);
      if !ok {
        if items != [] {
          items := items[1..];
          ok := TryPut(item);
        }
      }
    }

    /** `get_nowait()`: the oldest record, or nothing when the queue is empty (where `queue.Empty` is raised). */
    method GetNowait() returns (r: Option<T>)
      modifies this
      ensures r.None? <==> old(items) == []
      ensures r.None? ==> items == old(items)
      ensures r.Some? ==> r.value == old(items)[0] && items == old(items)[1..]
    {
      if items == [] {
        return None;
      }
      r := Some(items[0]);
      items := items[1..];
    }
  }
}
