/** The bounded queue of buffer pointers: a ring with head, tail and count. */
module BufferQueue {

  /** (i + 1) % n, as the ring advances an index. */
  function Next(i: nat, n: nat): nat
    requires n > 0
  {
    (i + 1) % n
  }

  function Wrap(i: nat, n: nat): nat
    requires i < 2 * n
  {
    if i < n then i else i - n
  }

  lemma NextIsWrap(i: nat, n: nat)
    requires i < n
    ensures Next(i, n) == Wrap(i + 1, n)
  {
    if i + 1 < n {
      assert (i + 1) % n == i + 1;
    } else {
      assert (i + 1) % n == 0;
    }
  }

  datatype Ring<T> = Ring(cells: seq<T>, count: nat, head: nat, tail: nat)

  ghost predicate RingOk<T>(r: Ring<T>) {
    && |r.cells| > 0
    && r.count <= |r.cells|
    && r.head < |r.cells|
    && r.tail == Wrap(r.head + r.count, |r.cells|)
  }

  /** The queued items, oldest first. */
  ghost function Items<T>(r: Ring<T>): (s: seq<T>)
    requires RingOk(r)
    ensures |s| == r.count
  {
    seq(r.count, i requires 0 <= i < r.count => r.cells[Wrap(r.head + i, |r.cells|)])
  }

  function Enqueued<T>(r: Ring<T>, x: T): Ring<T>
    requires r.tail < |r.cells|
  {
    Ring(r.cells[r.tail := x], r.count + 1, r.head, Next(r.tail, |r.cells|))
  }

  function Dequeued<T>(r: Ring<T>): Ring<T>
    requires |r.cells| > 0 && r.count > 0
  {
    Ring(r.cells, r.count - 1, Next(r.head, |r.cells|), r.tail)
  }

  /** Below capacity, enqueueing appends and overwrites nothing that is queued. */
  lemma EnqueueAppends<T>(r: Ring<T>, x: T)
    requires RingOk(r) && r.count < |r.cells|
    ensures r.tail < |r.cells| && RingOk(Enqueued(r, x))
    ensures Items(Enqueued(r, x)) == Items(r) + [x]
  {
    var n, q := |r.cells|, Enqueued(r, x);
    NextIsWrap(r.tail, n);
    forall i | 0 <= i < r.count
      ensures Items(q)[i] == Items(r)[i]
    {
      assert Wrap(r.head + i, n) != r.tail;
    }
    assert Items(q)[r.count] == x;
  }

  /** Dequeueing removes exactly the oldest item. */
  lemma DequeueTakesOldest<T>(r: Ring<T>)
    requires RingOk(r) && r.count > 0
    ensures RingOk(Dequeued(r))
    ensures Items(r) == [r.cells[r.head]] + Items(Dequeued(r))
  {
    var n, q := |r.cells|, Dequeued(r);
    NextIsWrap(r.head, n);
    assert Wrap(q.head + q.count, n) == Wrap(r.head + r.count, n);
    assert Items(r)[0] == r.cells[Wrap(r.head + 0, n)] == r.cells[r.head];
    forall i | 0 <= i < q.count
      ensures Items(q)[i] == Items(r)[i + 1]
    {
      assert Wrap(q.head + i, n) == Wrap(r.head + (i + 1), n);
    }
  }

  class Queue<T(0)> {
    const ring: array<T>
    const maxCount: nat
    var count: nat
    var head: nat
    var tail: nat

    ghost predicate Valid()
      reads this, ring
    {
      ring.Length == maxCount && RingOk(Abs())
    }

    ghost function Abs(): Ring<T>
      reads this, ring
    {
      Ring(ring[..], count, head, tail)
    }

    ghost function Contents(): (s: seq<T>)
      requires Valid()
      reads this, ring
      ensures |s| == count <= maxCount
    {
      Items(Abs())
    }

    /** A requested capacity of 0 means 1. */
    constructor (capacity: nat)
      ensures Valid() && fresh(ring) && Contents() == []
      ensures maxCount == if capacity == 0 then 1 else capacity
    {
      var n := if capacity == 0 then 1 else capacity;
      maxCount := n;
      ring := new T[n];
      count, head, tail := 0, 0, 0;
    }

    /** `put` where it does not have to wait: NOWAIT, or any timeout on a queue that is not full. */
    method Put(buffer: T) returns (wasTimeout: bool)
      requires Valid()
      modifies this, ring
      ensures Valid() && wasTimeout == (old(count) == maxCount)
      ensures Contents() == if wasTimeout then old(Contents()) else old(Contents()) + [buffer]
      ensures Abs() == if wasTimeout then old(Abs()) else Enqueued(old(Abs()), buffer)
    {
      if count == maxCount {
        return true;
      }
      EnqueueAppends(Abs(), buffer);
      ghost var was := Abs();
      ring[tail] := buffer;
      tail := (tail + 1) % maxCount;
      count := count + 1;
      assert Abs() == Enqueued(was, buffer);
      return false;
    }

    /** `get` where it does not have to wait; `otherwise` stands for the untouched out-pointer. */
    method Get(otherwise: T) returns (buffer: T, wasTimeout: bool)
      requires Valid()
      modifies this
      ensures Valid() && wasTimeout == (old(Contents()) == [])
      ensures if wasTimeout then Contents() == old(Contents()) && buffer == otherwise
              else old(Contents()) == [buffer] + Contents()
      ensures Abs() == if wasTimeout then old(Abs()) else Dequeued(old(Abs()))
    {
      if count == 0 {
        return otherwise, true;
      }
      DequeueTakesOldest(Abs());
      ghost var was := Abs();
      buffer := ring[head];
      head := (head + 1) % maxCount;
      count := count - 1;
      assert Abs() == Dequeued(was);
      return buffer, false;
    }
  }
}
