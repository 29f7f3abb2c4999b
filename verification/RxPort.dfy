/** The receive side both Modbus ends share: a bounded fifo filled by the rx task, and the
    pending flags that `read` surfaces one at a time. */
module RxPort {
  import opened Bytes

  /** `dead` is the master's dead_slave_pending; the slave has no such flag and never sets it. */
  datatype Port = Port(capacity: nat, fifo: seq<byte>, overflow: bool, dead: bool, enabled: bool)

  predicate Bounded(p: Port) {
    |p.fifo| <= p.capacity
  }

  function Room(p: Port): nat
    requires Bounded(p)
  {
    p.capacity - |p.fifo|
  }

  /** dtringfifo_push stores what fits; the caller raises the overflow flag for the rest. */
  function Pushed(p: Port, bytes: seq<byte>): (q: Port)
    requires Bounded(p)
    ensures Bounded(q)
  {
    p.(fifo := p.fifo + Trunc(bytes, Room(p)), overflow := p.overflow || |bytes| > Room(p))
  }

  datatype Outcome = TimeoutError | OverflowError | Handed(bytes: seq<byte>)

  function ReadOutcome(p: Port, n: nat): Outcome {
    if p.dead then TimeoutError
    else if p.overflow then OverflowError
    else if !p.enabled then Handed([])
    else Handed(Trunc(p.fifo, n))
  }

  function AfterRead(p: Port, n: nat): (q: Port)
    ensures Bounded(p) ==> Bounded(q)
  {
    if p.dead then p.(dead := false)
    else if p.overflow then p.(overflow := false)
    else if !p.enabled then p
    else p.(fifo := p.fifo[Min(n, |p.fifo|)..])
  }

  /** `enable` on either end: flags and fifo go back to a known state. */
  function Cleared(p: Port, on: bool): (q: Port)
    ensures Bounded(q)
  {
    p.(fifo := [], overflow := false, dead := false, enabled := on)
  }

  // ---- whole histories ---------------------------------------------------------------

  datatype Op = Push(bytes: seq<byte>) | Read(n: nat) | Enable(on: bool) | LinkDied

  function Apply(p: Port, op: Op): (q: Port)
    requires Bounded(p)
    ensures Bounded(q)
  {
    match op
    case Push(bytes) => Pushed(p, bytes)
    case Read(n) => AfterRead(p, n)
    case Enable(on) => Cleared(p, on)
    case LinkDied => p.(dead := true)
  }

  function After(p: Port, ops: seq<Op>): (q: Port)
    requires Bounded(p)
    ensures Bounded(q)
  {
    if ops == [] then p else Apply(After(p, ops[..|ops| - 1]), ops[|ops| - 1])
  }

  /** The i-th operation was a push that could not keep everything it was given. */
  predicate Drops(p: Port, ops: seq<Op>, i: nat)
    requires Bounded(p) && i < |ops|
  {
    ops[i].Push? && |ops[i].bytes| > Room(After(p, ops[..i]))
  }

  /** The k-th operation told the caller about an overflow, or cleared the port. */
  predicate Reports(p: Port, ops: seq<Op>, k: nat)
    requires Bounded(p) && k < |ops|
  {
    || ops[k].Enable?
    || (ops[k].Read? && ReadOutcome(After(p, ops[..k]), ops[k].n).OverflowError?)
  }

  /** A drop that nobody has been told about yet. */
  ghost predicate Unreported(p: Port, ops: seq<Op>, i: nat)
    requires Bounded(p)
  {
    i < |ops| && Drops(p, ops, i) && forall k: nat | i < k < |ops| :: !Reports(p, ops, k)
  }

  lemma PrefixFacts(p: Port, ops: seq<Op>, op: Op, i: nat)
    requires Bounded(p) && i < |ops|
    ensures (ops + [op])[..i] == ops[..i] && (ops + [op])[i] == ops[i]
    ensures Drops(p, ops + [op], i) == Drops(p, ops, i)
    ensures Reports(p, ops + [op], i) == Reports(p, ops, i)
  {
    assert (ops + [op])[..i] == ops[..i];
  }

  /** The overflow flag is exactly "some drop is still unreported": never lost, never invented. */
  lemma {:induction false} OverflowFlagExact(p: Port, ops: seq<Op>)
    requires Bounded(p) && !p.overflow
    ensures After(p, ops).overflow <==> exists i: nat :: Unreported(p, ops, i)
  {
    if ops != [] {
      var n := |ops| - 1;
      var pre, op := ops[..n], ops[n];
      assert ops == pre + [op];
      OverflowFlagExact(p, pre);
      forall i: nat | i < n
        ensures Drops(p, ops, i) == Drops(p, pre, i) && Reports(p, ops, i) == Reports(p, pre, i)
      {
        PrefixFacts(p, pre, op, i);
      }
      assert ops[..n] == pre;
      if After(p, ops).overflow {
        if After(p, pre).overflow {
          var i: nat :| Unreported(p, pre, i);
          assert Unreported(p, ops, i);
        } else {
          assert Unreported(p, ops, n);
        }
      }
      if i: nat :| Unreported(p, ops, i) {
        if i < n {
          assert Unreported(p, pre, i) by {
            forall k: nat | i < k < n ensures !Reports(p, pre, k) {
              assert !Reports(p, ops, k);
            }
          }
          assert !Reports(p, ops, n);
        }
      }
    }
  }

  /** No silent gap: bytes are handed out only after every earlier drop was reported or cleared. */
  lemma {:induction false} NoSilentGap(p: Port, ops: seq<Op>, i: nat, j: nat)
    requires Bounded(p) && !p.overflow
    requires i < j < |ops| && Drops(p, ops, i)
    requires ops[j].Read? && ReadOutcome(After(p, ops[..j]), ops[j].n).Handed?
    ensures exists k: nat :: i < k < j && Reports(p, ops, k)
  {
    var pre := ops[..j];
    OverflowFlagExact(p, pre);
    assert !Unreported(p, pre, i);
    assert pre[..i] == ops[..i];
    var k: nat :| i < k < |pre| && Reports(p, pre, k);
    assert pre[..k] == ops[..k];
    assert Reports(p, ops, k);
  }

  /** What one operation adds to the fifo, and what it hands to the caller. */
  function KeptBy(p: Port, op: Op): seq<byte>
    requires Bounded(p)
  {
    if op.Push? then Trunc(op.bytes, Room(p)) else []
  }

  function HandedBy(p: Port, op: Op): seq<byte> {
    if op.Read? && ReadOutcome(p, op.n).Handed? then ReadOutcome(p, op.n).bytes else []
  }

  function Kept(p: Port, ops: seq<Op>): seq<byte>
    requires Bounded(p)
  {
    if ops == [] then [] else var pre := ops[..|ops| - 1]; Kept(p, pre) + KeptBy(After(p, pre), ops[|ops| - 1])
  }

  function HandedOut(p: Port, ops: seq<Op>): seq<byte>
    requires Bounded(p)
  {
    if ops == [] then [] else var pre := ops[..|ops| - 1]; HandedOut(p, pre) + HandedBy(After(p, pre), ops[|ops| - 1])
  }

  lemma OneOpInOrder(p: Port, op: Op)
    requires Bounded(p) && !op.Enable?
    ensures p.fifo + KeptBy(p, op) == HandedBy(p, op) + Apply(p, op).fifo
  {
  }

  lemma Regroup(x: seq<byte>, k: seq<byte>, k1: seq<byte>, h: seq<byte>, q: seq<byte>, h1: seq<byte>, q1: seq<byte>)
    requires x + k == h + q && q + k1 == h1 + q1
    ensures x + (k + k1) == (h + h1) + q1
  {
    calc {
      x + (k + k1);
      (x + k) + k1;
      h + (q + k1);
      h + (h1 + q1);
      (h + h1) + q1;
    }
  }

  /** Between two `enable` calls the port neither reorders, repeats nor invents a byte. */
  lemma {:induction false} HandsOutInOrder(p: Port, ops: seq<Op>)
    requires Bounded(p)
    requires forall i | 0 <= i < |ops| :: !ops[i].Enable?
    ensures p.fifo + Kept(p, ops) == HandedOut(p, ops) + After(p, ops).fifo
  {
    if ops != [] {
      hide Apply, KeptBy, HandedBy;
      var pre, op := ops[..|ops| - 1], ops[|ops| - 1];
      var q := After(p, pre);
      HandsOutInOrder(p, pre);
      OneOpInOrder(q, op);
      Regroup(p.fifo, Kept(p, pre), KeptBy(q, op), HandedOut(p, pre), q.fifo, HandedBy(q, op), Apply(q, op).fifo);
    }
  }

  // ---- how much is kept and handed out ----------------------------------------------------------

  lemma {:induction false} CapacityStays(p: Port, ops: seq<Op>)
    requires Bounded(p)
    ensures After(p, ops).capacity == p.capacity
  {
    if ops != [] {
      CapacityStays(p, ops[..|ops| - 1]);
    }
  }

  /** The bytes kept and not yet handed out. */
  function Available(p: Port, ops: seq<Op>): seq<byte>
    requires Bounded(p) && forall i | 0 <= i < |ops| :: !ops[i].Enable?
  {
    HandsOutInOrder(p, ops);
    (p.fifo + Kept(p, ops))[|HandedOut(p, ops)|..]
  }

  lemma AvailableIsFifo(p: Port, ops: seq<Op>)
    requires Bounded(p) && forall i | 0 <= i < |ops| :: !ops[i].Enable?
    ensures Available(p, ops) == After(p, ops).fifo
  {
    HandsOutInOrder(p, ops);
    hide After, Kept, HandedOut;
  }

  /** A push keeps the beginning of what it is given, as much as there is room for beside the bytes
      kept and not yet handed out. */
  lemma {:induction false} PushKeeps(p: Port, ops: seq<Op>, bytes: seq<byte>)
    requires Bounded(p) && forall i | 0 <= i < |ops| :: !ops[i].Enable?
    ensures |Available(p, ops)| <= p.capacity
    ensures var room := p.capacity - |Available(p, ops)|;
            && Kept(p, ops + [Push(bytes)]) == Kept(p, ops) + (if |bytes| <= room then bytes else bytes[..room])
            && After(p, ops + [Push(bytes)]).overflow == (After(p, ops).overflow || |bytes| > room)
  {
    CapacityStays(p, ops);
    AvailableIsFifo(p, ops);
    assert (ops + [Push(bytes)])[..|ops|] == ops;
    hide Available, HandedOut;
  }

  /** With nothing to report a read hands out as many of those bytes as it is asked for, oldest first. */
  lemma {:induction false} ReadHandsOut(p: Port, ops: seq<Op>, n: nat)
    requires Bounded(p) && forall i | 0 <= i < |ops| :: !ops[i].Enable?
    requires After(p, ops).enabled && !After(p, ops).dead && !After(p, ops).overflow
    ensures var bytes := Available(p, ops);
            ReadOutcome(After(p, ops), n) == Handed(if |bytes| <= n then bytes else bytes[..n])
  {
    AvailableIsFifo(p, ops);
    hide Available, After;
  }
}
