/** The Modbus TCP slave: staging of one outgoing blob, and the interpretation of the command
    cell that follows every reply. */
module ModbusSlave {
  import opened Bytes
  import opened ModbusRegisters
  import opened RxPort

  /** `tx` holds the first tx_len bytes of tx_bytes. */
  datatype State = State(tab: seq<word>, txPending: bool, tx: seq<byte>, port: Port)

  predicate WellFormed(c: Limits, s: State) {
    && |s.tab| == MapSize(c)
    && |s.tx| <= c.slaveBlob
    && Bounded(s.port)
  }

  function Cmd(s: State): word requires |s.tab| > 0 { s.tab[M2S_CMD] }

  /** The blob a PUT_BLOB left in the map, clamped as the slave clamps it. */
  function PutLen(c: Limits, s: State): nat
    requires |s.tab| == MapSize(c)
  {
    Min(Min(s.tab[M2S_LEN], c.slaveBlob), c.maxBytes)
  }

  function PutBlobIn(c: Limits, s: State): seq<byte>
    requires |s.tab| == MapSize(c)
  {
    Unpack(s.tab[M2S_DATA..S2mStatus(c)], PutLen(c, s))
  }

  function CommandCleared(tab: seq<word>): seq<word>
    requires |tab| >= 2
  {
    tab[M2S_CMD := CMD_NONE][M2S_LEN := 0]
  }

  function Consumed(c: Limits, s: State): (t: State)
    requires Configured(c) && WellFormed(c, s)
    ensures WellFormed(c, t)
  {
    if Cmd(s) != CMD_PUT_BLOB then s
    else s.(port := if PutLen(c, s) > 0 then Pushed(s.port, PutBlobIn(c, s)) else s.port,
            tab := CommandCleared(s.tab))
  }

  function Prepared(c: Limits, s: State): (t: State)
    requires Configured(c) && WellFormed(c, s)
    ensures WellFormed(c, t)
  {
    if s.txPending && |s.tx| > 0 then
      var blob := Trunc(Trunc(s.tx, c.slaveBlob), c.maxBytes);
      s.(tab := Poke(s.tab, S2mStatus(c), Framed(STATUS_HAS_DATA, blob)), txPending := false, tx := [])
    else
      s.(tab := Poke(s.tab, S2mStatus(c), [STATUS_NO_DATA, 0]))
  }

  /** What the rx task does under its lock after every reply. */
  function Interpreted(c: Limits, s: State): (t: State)
    requires Configured(c) && WellFormed(c, s)
    ensures WellFormed(c, t)
  {
    var u := Consumed(c, s);
    if Cmd(u) == CMD_GIVE_ME_ANY_DATA then
      var v := Prepared(c, u);
      v.(tab := CommandCleared(v.tab))
    else u
  }

  datatype WriteResult = Accepted(n: nat) | Ignored | Busy | BadArg

  function WriteOutcome(c: Limits, s: State, buf: seq<byte>): WriteResult {
    if |buf| > c.slaveBlob then BadArg
    else if !s.port.enabled then Ignored
    else if s.txPending then Busy
    else Accepted(|buf|)
  }

  function AfterWrite(c: Limits, s: State, buf: seq<byte>): (t: State)
    ensures WellFormed(c, s) ==> WellFormed(c, t)
  {
    if WriteOutcome(c, s, buf).Accepted? then s.(tx := buf, txPending := true) else s
  }

  function Enabled(c: Limits, s: State, on: bool): (t: State)
    requires WellFormed(c, s)
    ensures WellFormed(c, t)
  {
    State(Poke(s.tab, S2mStatus(c), [STATUS_NO_DATA, 0]), false, [], Cleared(s.port, on))
  }

  // ---- facts the session proof needs -----------------------------------------------------

  lemma PutLandsInMap(c: Limits, s: State, blob: seq<byte>)
    requires Configured(c) && WellFormed(c, s) && |blob| <= c.maxBytes
    ensures RequestFits(s.tab, PutRequest(c, blob))
    ensures var t := s.(tab := Served(s.tab, PutRequest(c, blob)));
            && WellFormed(c, t) && Cmd(t) == CMD_PUT_BLOB
            && PutBlobIn(c, t) == Trunc(blob, c.slaveBlob)
            && t.tab[S2mStatus(c)..] == s.tab[S2mStatus(c)..]
  {
    hide Pack, Unpack, Poke, Framed;
    assert RegsFor(|blob|) <= RegsFor(c.maxBytes);
    PokeFramed(s.tab, M2S_CMD, CMD_PUT_BLOB, blob);
    var tab := Poke(s.tab, M2S_CMD, Framed(CMD_PUT_BLOB, blob));
    assert tab[S2mStatus(c)..] == tab[2..][S2mStatus(c) - 2..];
    var area := tab[M2S_DATA..S2mStatus(c)];
    var rest := s.tab[2 + |Pack(blob)|..S2mStatus(c)];
    assert area == Pack(blob) + rest;
    UnpackPack(blob, rest, Min(|blob|, c.slaveBlob));
    assert tab[S2mStatus(c)..] == s.tab[S2mStatus(c)..];
  }

  /** The blob currently staged in the slave-to-master area, if any. */
  function StagedBlob(c: Limits, tab: seq<word>): seq<seq<byte>>
    requires |tab| == MapSize(c)
  {
    var n := tab[S2mLen(c)];
    if tab[S2mStatus(c)] == STATUS_HAS_DATA && 0 < n <= c.maxBytes then [Unpack(tab[S2mData(c)..], n)] else []
  }

  predicate StageInRange(c: Limits, tab: seq<word>)
    requires |tab| == MapSize(c)
  {
    tab[S2mLen(c)] <= c.slaveBlob
  }

  lemma StageDependsOnS2mArea(c: Limits, a: seq<word>, b: seq<word>)
    requires |a| == |b| == MapSize(c) && a[S2mStatus(c)..] == b[S2mStatus(c)..]
    ensures StagedBlob(c, a) == StagedBlob(c, b) && StageInRange(c, a) == StageInRange(c, b)
    ensures a[S2mStatus(c)..S2mStatus(c) + 2] == b[S2mStatus(c)..S2mStatus(c) + 2]
    ensures forall n | 0 <= n <= c.maxBytes ::
              a[S2mData(c)..S2mData(c) + RegsFor(n)] == b[S2mData(c)..S2mData(c) + RegsFor(n)]
  {
    var k := S2mStatus(c);
    assert a[k] == a[k..][0] && a[k + 1] == a[k..][1] && b[k] == b[k..][0] && b[k + 1] == b[k..][1];
    assert a[S2mData(c)..] == a[k..][2..] && b[S2mData(c)..] == b[k..][2..];
    assert a[k..k + 2] == a[k..][..2] && b[k..k + 2] == b[k..][..2];
    forall n | 0 <= n <= c.maxBytes
      ensures a[S2mData(c)..S2mData(c) + RegsFor(n)] == b[S2mData(c)..S2mData(c) + RegsFor(n)]
    {
      assert a[S2mData(c)..S2mData(c) + RegsFor(n)] == a[S2mData(c)..][..RegsFor(n)];
      assert b[S2mData(c)..S2mData(c) + RegsFor(n)] == b[S2mData(c)..][..RegsFor(n)];
    }
  }

  lemma StagingABlob(c: Limits, tab: seq<word>, blob: seq<byte>)
    requires Configured(c) && |tab| == MapSize(c) && 0 < |blob| <= c.slaveBlob
    ensures RegsFor(|blob|) <= RegsFor(c.maxBytes)
    ensures var t := CommandCleared(Poke(tab, S2mStatus(c), Framed(STATUS_HAS_DATA, blob)));
            t[M2S_CMD] == CMD_NONE && StageInRange(c, t) && StagedBlob(c, t) == [blob]
  {
    hide Pack, Unpack, Poke, Framed;
    var k := S2mStatus(c);
    PokeFramed(tab, k, STATUS_HAS_DATA, blob);
    var t := CommandCleared(Poke(tab, k, Framed(STATUS_HAS_DATA, blob)));
    var rest := tab[k + 2 + |Pack(blob)|..];
    assert t[S2mData(c)..] == Pack(blob) + rest;
    UnpackPack(blob, rest, |blob|);
    assert blob[..|blob|] == blob;
    assert t[k] == STATUS_HAS_DATA && t[S2mLen(c)] == |blob|;
  }

  lemma StagingNothing(c: Limits, tab: seq<word>)
    requires Configured(c) && |tab| == MapSize(c)
    ensures var t := CommandCleared(Poke(tab, S2mStatus(c), [STATUS_NO_DATA, 0]));
            t[M2S_CMD] == CMD_NONE && StageInRange(c, t) && StagedBlob(c, t) == []
  {
    var k := S2mStatus(c);
    var v := Poke(tab, k, [STATUS_NO_DATA, 0]);
    assert v[k] == v[k..k + 2][0] && v[k + 1] == v[k..k + 2][1];
  }

  /** Interpreting a poll moves the pending blob, whole, into the map and nothing else. */
  lemma InterpretPoll(c: Limits, s: State)
    requires Configured(c) && WellFormed(c, s) && Cmd(s) == CMD_GIVE_ME_ANY_DATA
    requires s.txPending || s.tx == []
    ensures var t := Interpreted(c, s);
            && Cmd(t) == CMD_NONE && t.port == s.port && StageInRange(c, t.tab)
            && StagedBlob(c, t.tab) == (if |s.tx| > 0 then [s.tx] else [])
            && (if |s.tx| > 0 then !t.txPending && t.tx == [] else t.txPending == s.txPending && t.tx == s.tx)
  {
    hide StagedBlob, StageInRange, Pack;
    if |s.tx| > 0 {
      StagingABlob(c, s.tab, s.tx);
    } else {
      StagingNothing(c, s.tab);
    }
  }

  lemma InterpretOther(c: Limits, s: State)
    requires Configured(c) && WellFormed(c, s) && Cmd(s) in {CMD_NONE, CMD_PUT_BLOB}
    ensures var t := Interpreted(c, s);
            && Cmd(t) == CMD_NONE && t.tx == s.tx && t.txPending == s.txPending
            && t.tab[S2mStatus(c)..] == s.tab[S2mStatus(c)..]
            && t.port == if Cmd(s) == CMD_PUT_BLOB && PutBlobIn(c, s) != [] then Pushed(s.port, PutBlobIn(c, s)) else s.port
  {
    assert CommandCleared(s.tab)[S2mStatus(c)..] == s.tab[S2mStatus(c)..];
  }

  // ---- the object itself ------------------------------------------------------------------

  method StoreRegisters(tab: array<word>, at: nat, vals: seq<word>)
    requires at + |vals| <= tab.Length
    modifies tab
    ensures tab[..] == Poke(old(tab[..]), at, vals)
  {
    for i := 0 to |vals|
      invariant forall j | 0 <= j < tab.Length ::
                  tab[j] == if at <= j < at + i then vals[j - at] else old(tab[j])
    {
      tab[at + i] := vals[i];
    }
  }

  class Slave {
    const limits: Limits
    const tab: array<word>
    const txBytes: array<byte>
    const capacity: nat
    var txPending: bool
    var txLen: nat
    var enabled: bool
    var rxOverflowPending: bool
    var rxFifo: seq<byte>

    ghost predicate Valid()
      reads this
    {
      && Configured(limits)
      && tab.Length == MapSize(limits)
      && txBytes.Length == limits.maxBytes
      && txLen <= limits.slaveBlob
      && |rxFifo| <= capacity
    }

    ghost function Abs(): (s: State)
      requires Valid()
      reads this, tab, txBytes
      ensures WellFormed(limits, s)
    {
      State(tab[..], txPending, txBytes[..txLen], Port(capacity, rxFifo, rxOverflowPending, false, enabled))
    }

    constructor (limits: Limits, capacity: nat)
      requires Configured(limits)
      ensures Valid() && fresh(tab) && fresh(txBytes) && this.limits == limits
      ensures Abs().port == Port(capacity, [], false, false, true) && !Abs().txPending && Abs().tx == []
      ensures Cmd(Abs()) == CMD_NONE && StagedBlob(limits, Abs().tab) == [] && StageInRange(limits, Abs().tab)
    {
      this.limits, this.capacity := limits, capacity;
      tab := new word[MapSize(limits)](_ => 0);
      txBytes := new byte[limits.maxBytes];
      txPending, txLen, enabled := false, 0, true;
      rxOverflowPending, rxFifo := false, [];
      new;
      tab[S2mStatus(limits)] := STATUS_NO_DATA;
      tab[S2mLen(limits)] := 0;
    }

    /** dtiox_linux_modbus_tcp_slave_write, on the bytes of the caller's buffer. */
    method Write(buf: seq<byte>) returns (r: WriteResult)
      requires Valid()
      modifies this, txBytes
      ensures Valid() && r == WriteOutcome(limits, old(Abs()), buf)
      ensures Abs() == AfterWrite(limits, old(Abs()), buf)
      ensures r == (if |buf| > limits.slaveBlob then BadArg
                    else if !old(enabled) then Ignored
                    else if old(txPending) then Busy
                    else Accepted(|buf|))
      ensures Abs() == if r.Accepted? then old(Abs()).(tx := buf, txPending := true) else old(Abs())
    {
      if |buf| > limits.slaveBlob {
        return BadArg;
      }
      if !enabled {
        return Ignored;
      }
      if txPending {
        return Busy;
      }
      forall i | 0 <= i < |buf| {
        txBytes[i] := buf[i];
      }
      txLen := |buf|;
      txPending := true;
      assert txBytes[..txLen] == buf;
      return Accepted(|buf|);
    }

    method Read(n: nat) returns (r: Outcome)
      requires Valid()
      modifies this
      ensures Valid() && r == ReadOutcome(old(Abs()).port, n)
      ensures Abs() == old(Abs()).(port := AfterRead(old(Abs()).port, n))
    {
      if rxOverflowPending {
        rxOverflowPending := false;
        return OverflowError;
      }
      if !enabled {
        return Handed([]);
      }
      r := Handed(Trunc(rxFifo, n));
      rxFifo := rxFifo[Min(n, |rxFifo|)..];
    }

    method Enable(on: bool)
      requires Valid()
      modifies this, tab
      ensures Valid() && Abs() == Enabled(limits, old(Abs()), on)
      ensures enabled == on && rxFifo == [] && !rxOverflowPending && !txPending && txLen == 0
    {
      enabled := on;
      rxFifo := [];
      rxOverflowPending := false;
      txPending := false;
      txLen := 0;
      tab[S2mStatus(limits)] := STATUS_NO_DATA;
      tab[S2mLen(limits)] := 0;
      assert tab[..] == Poke(old(tab[..]), S2mStatus(limits), [STATUS_NO_DATA, 0]);
    }

    method PreparePollResponse()
      requires Valid()
      modifies this, tab
      ensures Valid() && Abs() == Prepared(limits, old(Abs()))
    {
      hide Pack, Framed;
      ghost var was := tab[..];
      var at := S2mStatus(limits);
      if txPending && txLen > 0 {
        var byteLen := txLen;
        if byteLen > limits.slaveBlob {
          byteLen := limits.slaveBlob;
        }
        if byteLen > limits.maxBytes {
          byteLen := limits.maxBytes;
        }
        StoreRegisters(tab, at, Framed(STATUS_HAS_DATA, txBytes[..byteLen]));
        txPending := false;
        txLen := 0;
      } else {
        tab[at] := STATUS_NO_DATA;
        tab[at + 1] := 0;
        assert tab[..] == Poke(was, at, [STATUS_NO_DATA, 0]);
      }
    }

    method ConsumePutBlob()
      requires Valid()
      modifies this, tab
      ensures Valid() && Abs() == Consumed(limits, old(Abs()))
    {
      var cmd, byteLen: nat := tab[M2S_CMD], tab[M2S_LEN];
      if cmd != CMD_PUT_BLOB {
        return;
      }
      if byteLen > limits.slaveBlob {
        byteLen := limits.slaveBlob;
      }
      if byteLen > limits.maxBytes {
        byteLen := limits.maxBytes;
      }
      if byteLen > 0 {
        assert tab[..][M2S_DATA..S2mStatus(limits)] == tab[M2S_DATA..S2mStatus(limits)];
        var bytes := Unpack(tab[M2S_DATA..S2mStatus(limits)], byteLen);
        var written := Min(|bytes|, capacity - |rxFifo|);
        rxFifo := rxFifo + bytes[..written];
        if written < byteLen {
          rxOverflowPending := true;
        }
      }
      tab[M2S_CMD] := CMD_NONE;
      tab[M2S_LEN] := 0;
      assert tab[..] == CommandCleared(old(tab[..]));
    }

    /** One pass of the session loop after modbus_receive delivered `query`. */
    method ServeOne(query: Request) returns (answer: Response)
      requires Valid()
      modifies this, tab
      ensures Valid()
      ensures answer == Answer(old(Abs()).tab, query)
      ensures Abs() == Interpreted(limits, old(Abs()).(tab := Served(old(Abs()).tab, query)))
    {
      answer := Reply(query);
      label replied:
      ConsumePutBlob();
      var cmd := tab[M2S_CMD];
      if cmd == CMD_GIVE_ME_ANY_DATA {
        PreparePollResponse();
        ghost var prepared := tab[..];
        tab[M2S_CMD] := CMD_NONE;
        tab[M2S_LEN] := 0;
        assert tab[..] == CommandCleared(prepared);
      }
    }

    method Reply(query: Request) returns (answer: Response)
      requires Valid()
      modifies tab
      ensures Valid()
      ensures answer == Answer(old(Abs()).tab, query)
      ensures Abs() == old(Abs()).(tab := Served(old(Abs()).tab, query))
    {
      match query
      case WriteRegs(at, vals) =>
        if at + |vals| > tab.Length {
          return Refused;
        }
        StoreRegisters(tab, at, vals);
        return Wrote(|vals|);
      case ReadRegs(at, count) =>
        if at + count > tab.Length {
          return Refused;
        }
        assert tab[..][at..at + count] == tab[at..at + count];
        return Values(tab[at..at + count]);
    }
  }
}
