/** The Modbus masters: one poll cycle of the rx task, `read`, and the two forms of `write`. */
module ModbusMaster {
  import opened Bytes
  import opened ModbusRegisters
  import opened RxPort

  /** How many payload bytes a header announces, after the master's own clamp; 0 means none. */
  function Announced(c: Limits, header: Response): nat {
    if header.Values? && |header.vals| == 2 && header.vals[0] == STATUS_HAS_DATA
    then Min(header.vals[1], c.masterBlob)
    else 0
  }

  predicate HeaderOk(header: Response) {
    header.Values? && |header.vals| == 2
  }

  predicate PayloadOk(n: nat, payload: Response) {
    payload.Values? && |payload.vals| == RegsFor(n)
  }

  datatype PollResult = PollDone(port: Port) | PollFailed(port: Port)

  /** The three calls of one poll, given how each of them ends. */
  function Poll(c: Limits, p: Port, ack: Response, header: Response, payload: Response): (r: PollResult)
    requires Bounded(p)
    ensures Bounded(r.port)
  {
    if ack != Wrote(2) then PollFailed(p.(dead := true))
    else if !HeaderOk(header) then PollFailed(if c.markAll then p.(dead := true) else p)
    else
      var n := Announced(c, header);
      if n == 0 then PollDone(p)
      else if !PayloadOk(n, payload) then PollFailed(if c.markAll then p.(dead := true) else p)
      else PollDone(Pushed(p, Unpack(payload.vals, n)))
  }

  // ---- reading ----------------------------------------------------------------------------------

  datatype ReadError = NoError | SlaveTimeout | FifoOverflow | TaskEnded

  /** What `read` returns, and what it puts into the caller's buffer; None leaves out_read untouched. */
  datatype Reading = Reading(error: ReadError, out: Option<seq<byte>>)

  /** Flags first, then bytes; whatever came out, a task that is not running turns it into an error. */
  function MasterRead(p: Port, running: bool, n: nat): Reading {
    match ReadOutcome(p, n)
    case TimeoutError => Reading(SlaveTimeout, None)
    case OverflowError => Reading(FifoOverflow, None)
    case Handed(bytes) => Reading(if running then NoError else TaskEnded, Some(bytes))
  }

  /** A failed poll leaves fifo and overflow flag alone. The next read reports a slave timeout always
      on the RTU master, on the TCP master if the poll write failed. Otherwise it goes by the overflow
      flag, and then pops bytes and returns them together with an error if the task has ended. */
  lemma FailedPollThenRead(c: Limits, p: Port, ack: Response, header: Response, payload: Response, running: bool, n: nat)
    requires Bounded(p) && p.enabled && !p.dead
    ensures var r := Poll(c, p, ack, header, payload);
            r.PollFailed? ==>
              && r.port.fifo == p.fifo && r.port.overflow == p.overflow
              && MasterRead(r.port, running, n) ==
                   (if c.markAll || ack != Wrote(2) then Reading(SlaveTimeout, None)
                    else if p.overflow then Reading(FifoOverflow, None)
                    else Reading(if running then NoError else TaskEnded, Some(Trunc(p.fifo, n))))
              && AfterRead(r.port, n).fifo ==
                   (if c.markAll || ack != Wrote(2) || p.overflow then p.fifo else p.fifo[Min(n, |p.fifo|)..])
  {
  }

  function AfterReads(p: Port, ns: seq<nat>): Port {
    if ns == [] then p else AfterRead(AfterReads(p, ns[..|ns| - 1]), ns[|ns| - 1])
  }

  /** All the reads of `ns`, once the rx task has ended. */
  function ReadingsAtEnd(p: Port, ns: seq<nat>): (rs: seq<Reading>)
    ensures |rs| == |ns|
  {
    if ns == [] then []
    else
      var pre := ns[..|ns| - 1];
      ReadingsAtEnd(p, pre) + [MasterRead(AfterReads(p, pre), false, ns[|ns| - 1])]
  }

  function Given(rs: seq<Reading>): seq<byte> {
    if rs == [] then []
    else Given(rs[..|rs| - 1]) + if rs[|rs| - 1].out.Some? then rs[|rs| - 1].out.value else []
  }

  function Pending(p: Port): nat {
    (if p.dead then 1 else 0) + if p.overflow then 1 else 0
  }

  /** Each flag lasts until its report. */
  lemma {:induction false} FlagsAtEnd(p: Port, ns: seq<nat>)
    requires Bounded(p) && p.enabled
    ensures var q := AfterReads(p, ns);
            && q.enabled && Bounded(q)
            && (q.dead <==> p.dead && |ns| == 0) && (q.overflow <==> p.overflow && |ns| < Pending(p))
  {
    if ns != [] {
      FlagsAtEnd(p, ns[..|ns| - 1]);
    }
  }

  lemma OneReadAtEnd(q: Port, n: nat)
    requires Bounded(q) && q.enabled
    ensures var r := MasterRead(q, false, n);
            && r.error == (if q.dead then SlaveTimeout else if q.overflow then FifoOverflow else TaskEnded)
            && (r.out.Some? <==> !q.dead && !q.overflow)
            && (if r.out.Some? then r.out.value else []) + AfterRead(q, n).fifo == q.fifo
  {
  }

  predicate FailsAsDue(p: Port, r: Reading, i: nat) {
    if i < Pending(p)
    then r == Reading(if i == 0 && p.dead then SlaveTimeout else FifoOverflow, None)
    else r.error == TaskEnded && r.out.Some?
  }

  /** After the task's end no read succeeds: the pending flags come first, each once, and from then on
      every read fails with the task's state. */
  lemma {:induction false} EveryReadFailsAtEnd(p: Port, ns: seq<nat>, i: nat)
    requires Bounded(p) && p.enabled && i < |ns|
    ensures FailsAsDue(p, ReadingsAtEnd(p, ns)[i], i)
  {
    var last := |ns| - 1;
    if i < last {
      EveryReadFailsAtEnd(p, ns[..last], i);
    } else {
      FlagsAtEnd(p, ns[..last]);
      OneReadAtEnd(AfterReads(p, ns[..last]), ns[last]);
      hide MasterRead, AfterReads;
    }
  }

  lemma GivenSnoc(rs: seq<Reading>, r: Reading)
    ensures Given(rs + [r]) == Given(rs) + if r.out.Some? then r.out.value else []
  {
    assert (rs + [r])[..|rs|] == rs;
  }

  /** Yet the fifo drains through the callers' buffers all the while, in order. */
  lemma {:induction false} FailingReadsDrain(p: Port, ns: seq<nat>)
    requires Bounded(p) && p.enabled
    ensures Given(ReadingsAtEnd(p, ns)) + AfterReads(p, ns).fifo == p.fifo
  {
    if ns != [] {
      var pre, n := ns[..|ns| - 1], ns[|ns| - 1];
      var q, rs := AfterReads(p, pre), ReadingsAtEnd(p, pre);
      FailingReadsDrain(p, pre);
      FlagsAtEnd(p, pre);
      OneReadAtEnd(q, n);
      var r, rest := MasterRead(q, false, n), AfterRead(q, n).fifo;
      GivenSnoc(rs, r);
      Drained(Given(rs), q.fifo, if r.out.Some? then r.out.value else [], rest, p.fifo);
      hide MasterRead, AfterRead, Given;
    }
  }

  lemma Drained(given: seq<byte>, fifo: seq<byte>, out: seq<byte>, rest: seq<byte>, all: seq<byte>)
    requires given + fifo == all && out + rest == fifo
    ensures (given + out) + rest == all
  {
    assert (given + out) + rest == given + (out + rest);
  }

  // ---- writing ----------------------------------------------------------------------------------

  datatype WriteResult = Sent(n: nat) | NotEnabled | Failed

  function PutRequests(c: Limits, blobs: seq<seq<byte>>): seq<Request>
    requires forall i | 0 <= i < |blobs| :: |blobs[i]| < 0x1_0000
  {
    if blobs == [] then []
    else PutRequests(c, blobs[..|blobs| - 1]) + [PutRequest(c, blobs[|blobs| - 1])]
  }

  lemma NextChunk(blobs: seq<seq<byte>>, buf: seq<byte>, at: nat, n: nat)
    requires at + n <= |buf| && Flatten(blobs) == buf[..at]
    ensures Flatten(blobs + [buf[at..at + n]]) == buf[..at + n]
  {
    FlattenSnoc(blobs, buf[at..at + n]);
    assert buf[..at + n] == buf[..at] + buf[at..at + n];
  }

  class Master {
    const limits: Limits
    const capacity: nat
    const permitRetryPartialWrites: bool
    var enabled: bool
    var connected: bool
    var rxOverflowPending: bool
    var deadSlavePending: bool
    /** The rx task's status is RUNNING. */
    var rxRunning: bool
    var rxFifo: seq<byte>
    /** The register writes issued so far; libmodbus itself is not part of this model. */
    ghost var calls: seq<Request>

    ghost predicate Valid()
      reads this
    {
      Configured(limits) && |rxFifo| <= capacity
    }

    ghost function Abs(): (p: Port)
      requires Valid()
      reads this
      ensures Bounded(p)
    {
      Port(capacity, rxFifo, rxOverflowPending, deadSlavePending, enabled)
    }

    constructor (limits: Limits, capacity: nat, permit: bool)
      requires Configured(limits)
      ensures Valid() && Abs() == Port(capacity, [], false, false, true) && rxRunning
    {
      this.limits, this.capacity, permitRetryPartialWrites := limits, capacity, permit;
      enabled, connected, rxOverflowPending, deadSlavePending := true, true, false, false;
      rxRunning, rxFifo := true, [];
      calls := [];
    }

    method Enable(on: bool)
      requires Valid()
      modifies this
      ensures Valid() && Abs() == Cleared(old(Abs()), on)
      ensures enabled == on && rxFifo == [] && !rxOverflowPending && !deadSlavePending
      ensures calls == old(calls) && connected == old(connected)
    {
      enabled := on;
      rxFifo := [];
      rxOverflowPending := false;
      deadSlavePending := false;
    }

    method Read(n: nat) returns (r: Reading)
      requires Valid()
      modifies this
      ensures Valid() && r == MasterRead(old(Abs()), old(rxRunning), n) && Abs() == AfterRead(old(Abs()), n)
      ensures calls == old(calls) && connected == old(connected) && rxRunning == old(rxRunning)
    {
      var error, out := NoError, None;
      if deadSlavePending {
        deadSlavePending := false;
        error := SlaveTimeout;
      } else if rxOverflowPending {
        rxOverflowPending := false;
        error := FifoOverflow;
      } else if !enabled {
        out := Some([]);
      } else {
        out := Some(Trunc(rxFifo, n));
        rxFifo := rxFifo[Min(n, |rxFifo|)..];
      }
      if !rxRunning && error == NoError {
        error := TaskEnded;
      }
      return Reading(error, out);
    }

    /** The task's thread has left its entry: its status is STOPPED. */
    method RxTaskEnds()
      requires Valid()
      modifies this`rxRunning
      ensures Valid() && Abs() == old(Abs()) && !rxRunning
    {
      rxRunning := false;
    }

    /** What fits goes into the fifo; the rest sets the overflow flag. */
    method PushBytes(bytes: seq<byte>)
      requires Valid()
      modifies this`rxFifo, this`rxOverflowPending
      ensures Valid() && Abs() == Pushed(old(Abs()), bytes)
    {
      var written := Min(|bytes|, capacity - |rxFifo|);
      rxFifo := rxFifo + bytes[..written];
      if written < |bytes| {
        rxOverflowPending := true;
      }
    }

    /** One pass of the rx task below the stop and enabled tests; false means the task ends. */
    method PollOnce(ack: Response, header: Response, payload: Response) returns (goOn: bool)
      requires Valid()
      modifies this
      ensures Valid()
      ensures var r := Poll(limits, old(Abs()), ack, header, payload);
              Abs() == r.port && goOn == r.PollDone?
      ensures connected == old(connected) && rxRunning == old(rxRunning)
    {
      hide RegsFor, Unpack, PayloadRequest, HeaderRequest, Pushed;
      calls := calls + [POLL_REQUEST];
      if ack != Wrote(2) {
        deadSlavePending := true;
        return false;
      }
      calls := calls + [HeaderRequest(limits)];
      if !header.Values? || |header.vals| != 2 {
        deadSlavePending := deadSlavePending || limits.markAll;
        return false;
      }
      var status, byteLen: nat := header.vals[0], header.vals[1];
      if status == STATUS_HAS_DATA && byteLen > 0 {
        if byteLen > limits.masterBlob {
          byteLen := limits.masterBlob;
        }
        calls := calls + [PayloadRequest(limits, byteLen)];
        if !payload.Values? || |payload.vals| != RegsFor(byteLen) {
          deadSlavePending := deadSlavePending || limits.markAll;
          return false;
        }
        PushBytes(Unpack(payload.vals, byteLen));
      }
      return true;
    }

    /** The TCP master's write: one PUT_BLOB of at most the configured blob size. `connects` is how
        a needed modbus_connect ends, `rc` how modbus_write_registers ends. */
    method Write(buf: seq<byte>, connects: bool, rc: Response) returns (r: WriteResult)
      requires Valid()
      modifies this
      ensures Valid() && Abs() == old(Abs())
      ensures r == NotEnabled <==> !enabled
      ensures enabled && !old(connected) && !connects ==> r == Failed && calls == old(calls)
      ensures enabled && (old(connected) || connects) ==>
                var blob := Trunc(buf, limits.masterBlob);
                && calls == old(calls) + [PutRequest(limits, blob)]
                && r == if rc == Wrote(2 + RegsFor(|blob|)) then Sent(|blob|) else Failed
      ensures connected == if r.Failed? then false else if r.NotEnabled? then old(connected) else true
    {
      if !enabled {
        return NotEnabled;
      }
      if !connected && !connects {
        connected := false;
        return Failed;
      }
      connected := true;
      var sendLen := if |buf| > limits.masterBlob then limits.masterBlob else |buf|;
      var blob := buf[..sendLen];
      assert blob == Trunc(buf, limits.masterBlob);
      calls := calls + [PutRequest(limits, blob)];
      if rc != Wrote(2 + RegsFor(sendLen)) {
        connected := false;
        return Failed;
      }
      return Sent(sendLen);
    }

    /** The RTU master's write: the buffer goes out in blobs of the compiled-in maximum, the
        first always, the rest only when partial writes may be retried. `ok(i)` says whether the
        i-th modbus_write_registers writes every register. */
    method WriteChunked(buf: seq<byte>, connects: bool, ok: nat -> bool) returns (r: WriteResult)
      requires Valid()
      modifies this
      ensures Valid() && Abs() == old(Abs())
      ensures r == NotEnabled <==> !enabled
      ensures !enabled || !(old(connected) || connects) ==> calls == old(calls)
      ensures connected == if r.Failed? then false else if r.NotEnabled? then old(connected) else true
      ensures enabled && (old(connected) || connects) ==>
                exists blobs :: ChunkedWrite(limits, permitRetryPartialWrites, ok, buf, blobs, r)
                  && calls == old(calls) + PutRequests(limits, blobs)
    {
      if !enabled {
        return NotEnabled;
      }
      if !connected && !connects {
        connected := false;
        return Failed;
      }
      var blobs, sent := SendChunks(limits, permitRetryPartialWrites, ok, buf);
      connected := sent.Sent?;
      calls := calls + PutRequests(limits, blobs);
      return sent;
    }
  }

  /** What a chunked write may put on the wire: whole blobs of the maximum size, in order, a
      shorter one only at the end, and everything unless a call failed or retrying is off. */
  ghost predicate ChunkedWrite(c: Limits, permit: bool, ok: nat -> bool, buf: seq<byte>, blobs: seq<seq<byte>>, r: WriteResult) {
    && blobs != []
    && (forall i | 0 <= i < |blobs| - 1 :: |blobs[i]| == c.maxBytes && ok(i))
    && (forall i | 0 <= i < |blobs| :: |blobs[i]| <= c.maxBytes < 0x1_0000)
    && Flatten(blobs) <= buf
    && !r.NotEnabled?
    && (r.Sent? <==> ok(|blobs| - 1))
    && (r.Sent? ==> r.n == |Flatten(blobs)| == if permit then |buf| else Min(|buf|, c.maxBytes))
  }

  /** Only whole chunks have gone out so far, and every call wrote what it was given. */
  ghost predicate WholeSoFar(c: Limits, ok: nat -> bool, buf: seq<byte>, blobs: seq<seq<byte>>, at: nat) {
    && at <= |buf| && Flatten(blobs) == buf[..at]
    && forall i | 0 <= i < |blobs| :: |blobs[i]| == c.maxBytes && ok(i)
  }

  /** What the next call, of n bytes, makes of it. */
  lemma ChunkStep(c: Limits, ok: nat -> bool, buf: seq<byte>, blobs: seq<seq<byte>>, at: nat, n: nat,
                  permit: bool)
    requires Configured(c) && WholeSoFar(c, ok, buf, blobs, at) && n == Min(c.maxBytes, |buf| - at)
    ensures var more := blobs + [buf[at..at + n]];
            && Flatten(more) == buf[..at + n] <= buf
            && (ok(|blobs|) && n == c.maxBytes ==> WholeSoFar(c, ok, buf, more, at + n))
            && (!ok(|blobs|) ==> ChunkedWrite(c, permit, ok, buf, more, Failed))
            && (ok(|blobs|) && at + n == (if permit then |buf| else Min(|buf|, c.maxBytes)) ==>
                  ChunkedWrite(c, permit, ok, buf, more, Sent(at + n)))
  {
    NextChunk(blobs, buf, at, n);
    hide Flatten;
  }

  method SendChunks(c: Limits, permit: bool, ok: nat -> bool, buf: seq<byte>) returns (blobs: seq<seq<byte>>, r: WriteResult)
    requires Configured(c)
    ensures ChunkedWrite(c, permit, ok, buf, blobs, r)
  {
    hide Flatten, ChunkedWrite;
    blobs := [];
    var remaining: int := |buf|;
    var at: nat := 0;
    NothingYet(c, ok, buf);
    while true
      invariant 0 <= remaining && at + remaining == |buf|
      invariant at == 0 || (remaining > 0 && permit)
      invariant WholeSoFar(c, ok, buf, blobs, at)
      decreases remaining
    {
      var sendLen := if remaining > c.maxBytes then c.maxBytes else remaining;
      ChunkStep(c, ok, buf, blobs, at, sendLen, permit);
      blobs := blobs + [buf[at..at + sendLen]];
      if !ok(|blobs| - 1) {
        return blobs, Failed;
      }
      remaining := remaining - sendLen;
      at := at + sendLen;
      if remaining <= 0 {
        break;
      }
      if !permit {
        break;
      }
    }
    return blobs, Sent(|buf| - remaining);
  }

  lemma NothingYet(c: Limits, ok: nat -> bool, buf: seq<byte>)
    ensures WholeSoFar(c, ok, buf, [], 0)
  {
  }
}
