/** What a whole Modbus session promises the applications at its two ends. */
module ModbusEndToEnd {
  import opened Bytes
  import opened ModbusRegisters
  import opened RxPort
  import opened ModbusSession
  import opened ModbusDelivery
  import Slave = ModbusSlave
  import Master = ModbusMaster

  // ---- blobs --------------------------------------------------------------------------------

  predicate BlobsFit(c: Limits, s: Sys) {
    && (forall i | 0 <= i < |s.accepted| :: |s.accepted[i]| <= c.slaveBlob)
    && (forall i | 0 <= i < |s.putSent| :: |s.putSent[i]| <= c.masterBlob)
  }

  lemma StepFits(c: Limits, s: Sys, e: Event)
    requires Typed(c, s) && BlobsFit(c, s)
    ensures BlobsFit(c, Step(c, s, e))
  {
    if OfSlave(e) {
      SlaveEventsKeepMaster(c, s, e);
      hide Slave.Interpreted, Slave.AfterWrite, Served, Answer, AfterRead, MasterReceives, AppWrites, PollBegins;
    } else {
      MasterEventOps(c, s, e);
      hide SlaveServes, SlaveInterprets, SlaveWrites, Pushed, Unpack, Slave.WellFormed, PutRequest,
           Master.HeaderOk, Master.Announced, Master.PayloadOk, AfterRead;
    }
  }

  lemma {:induction false} RunFits(c: Limits, s: Sys, es: seq<Event>)
    requires Init(c, s)
    ensures BlobsFit(c, Run(c, s, es))
  {
    if es != [] {
      hide Step, BlobsFit, Init;
      RunFits(c, s, es[..|es| - 1]);
      StepFits(c, Run(c, s, es[..|es| - 1]), es[|es| - 1]);
    }
  }

  lemma TruncNothing<T>(ss: seq<seq<T>>, n: nat)
    requires forall i | 0 <= i < |ss| :: |ss[i]| <= n
    ensures TruncAll(ss, n) == ss
  {
  }

  /** Slave to master, failure free: every accepted blob is pushed once, in order, or is the one
      staged, or is the one pending. The master's own limit is the only thing that cuts a blob. */
  lemma {:induction false} OrderedExactlyOnce(c: Limits, s: Sys, es: seq<Event>)
    requires Init(c, s)
    ensures var t := Run(c, s, es);
            !t.failed ==>
              && TruncAll(t.accepted, c.masterBlob) == t.pushed + TruncAll(Staged(c, t) + Pending(t), c.masterBlob)
              && |Staged(c, t)| <= 1 && |Pending(t)| <= 1
              && (c.slaveBlob <= c.masterBlob ==> t.accepted == t.pushed + Staged(c, t) + Pending(t))
  {
    RunKeeps(c, s, es);
    var t := Run(c, s, es);
    RunFits(c, s, es);
    if !t.failed {
      var k := |t.pushed|;
      assert t.accepted == t.accepted[..k] + t.accepted[k..];
      assert TruncAll(t.accepted, c.masterBlob) == TruncAll(t.accepted[..k], c.masterBlob) + TruncAll(t.accepted[k..], c.masterBlob);
      if c.slaveBlob <= c.masterBlob {
        TruncNothing(t.accepted[..k], c.masterBlob);
        assert t.accepted == t.pushed + (Staged(c, t) + Pending(t));
      }
    }
  }

  /** Failures or not, at every moment: what the master pushed is a prefix of what was accepted,
      blob for blob, so a header and the payload read after it belong to the same blob. */
  lemma {:induction false} PushedIsAlwaysPrefix(c: Limits, s: Sys, es: seq<Event>)
    requires Init(c, s)
    ensures var t := Run(c, s, es);
            && t.pushed <= TruncAll(t.accepted, c.masterBlob)
            && (c.slaveBlob <= c.masterBlob ==> t.pushed <= t.accepted)
  {
    RunKeeps(c, s, es);
    var t := Run(c, s, es);
    RunFits(c, s, es);
    assert TruncAll(t.accepted[..|t.pushed|], c.masterBlob) == TruncAll(t.accepted, c.masterBlob)[..|t.pushed|];
    if c.slaveBlob <= c.masterBlob {
      TruncNothing(t.accepted, c.masterBlob);
    }
  }

  lemma FailedStepPushesNothing(c: Limits, s: Sys, e: Event)
    requires Inv(c, s) && s.failed
    ensures Step(c, s, e).pushed == s.pushed && Step(c, s, e).failed
  {
  }

  /** After a failure the rx task never polls again: nothing more is pushed, ever. */
  lemma {:induction false} NothingPushedAfterFailure(c: Limits, s: Sys, es: seq<Event>)
    requires Inv(c, s) && s.failed
    ensures Run(c, s, es).pushed == s.pushed && Run(c, s, es).failed && Inv(c, Run(c, s, es))
  {
    if es != [] {
      NothingPushedAfterFailure(c, s, es[..|es| - 1]);
      FailedStepPushesNothing(c, Run(c, s, es[..|es| - 1]), es[|es| - 1]);
      StepKeeps(c, Run(c, s, es[..|es| - 1]), es[|es| - 1]);
    }
  }

  /** Master to slave: the command cell is NONE whenever the slave is about to receive, and until
      a failure every blob sent is consumed once, in order, or is in the map, or in transit. */
  lemma {:induction false} PutBlobConsumedOnce(c: Limits, s: Sys, es: seq<Event>)
    requires Init(c, s)
    ensures var t := Run(c, s, es);
            && (t.server.Receiving? ==> Slave.Cmd(t.slave) == CMD_NONE)
            && (!t.failed ==> t.consumed + InMap(c, t) + InTransit(c, t) == TruncAll(t.putSent, c.slaveBlob))
            && (c.masterBlob <= c.slaveBlob ==> TruncAll(t.putSent, c.slaveBlob) == t.putSent)
  {
    RunKeeps(c, s, es);
    RunFits(c, s, es);
    if c.masterBlob <= c.slaveBlob {
      TruncNothing(Run(c, s, es).putSent, c.slaveBlob);
    }
  }

  // ---- bytes ----------------------------------------------------------------------------------

  /** What one event does to the master's port, and to the slave's. */
  function MasterOp(c: Limits, s: Sys, e: Event): seq<Op>
    requires Typed(c, s)
  {
    var t := Step(c, s, e);
    if |t.pushed| > |s.pushed| then [Push(t.pushed[|t.pushed| - 1])]
    else if e.MasterRead? && MasterLockFree(s) then [Read(e.n)]
    else if t.masterPort != s.masterPort then [LinkDied]
    else []
  }

  function SlaveOp(c: Limits, s: Sys, e: Event): seq<Op>
    requires Typed(c, s)
  {
    var t := Step(c, s, e);
    if |t.consumed| > |s.consumed| then [Push(t.consumed[|t.consumed| - 1])]
    else if e.SlaveRead? then [Read(e.n)]
    else []
  }

  function MasterOps(c: Limits, s: Sys, es: seq<Event>): seq<Op>
    requires Typed(c, s)
  {
    if es == [] then []
    else MasterOps(c, s, es[..|es| - 1]) + MasterOp(c, Run(c, s, es[..|es| - 1]), es[|es| - 1])
  }

  function SlaveOps(c: Limits, s: Sys, es: seq<Event>): seq<Op>
    requires Typed(c, s)
  {
    if es == [] then []
    else SlaveOps(c, s, es[..|es| - 1]) + SlaveOp(c, Run(c, s, es[..|es| - 1]), es[|es| - 1])
  }

  lemma AfterSnoc(p: Port, ops: seq<Op>, more: seq<Op>)
    requires Bounded(p) && |more| <= 1
    ensures After(p, ops + more) == if more == [] then After(p, ops) else Apply(After(p, ops), more[0])
    ensures BlobsOf(ops + more) == BlobsOf(ops) + BlobsOf(more)
  {
    if more == [] {
      assert ops + more == ops;
    } else {
      assert (ops + more)[..|ops|] == ops;
    }
  }

  function BlobsOf(ops: seq<Op>): seq<seq<byte>> {
    if ops == [] then []
    else BlobsOf(ops[..|ops| - 1]) + if ops[|ops| - 1].Push? then [ops[|ops| - 1].bytes] else []
  }

  lemma PushEmpty(p: Port)
    requires Bounded(p)
    ensures Pushed(p, []) == p
  {
    assert p.fifo + Trunc([], Room(p)) == p.fifo;
  }

  predicate NoEnable(ops: seq<Op>) {
    forall i | 0 <= i < |ops| :: !ops[i].Enable?
  }

  lemma NoEnableSnoc(ops: seq<Op>, more: seq<Op>)
    requires NoEnable(ops) && NoEnable(more)
    ensures NoEnable(ops + more)
  {
  }

  /** Both ports live through exactly the histories RxPort reasons about. */
  lemma {:induction false} MasterPortFollowsOps(c: Limits, s: Sys, es: seq<Event>)
    requires Init(c, s)
    ensures var t, ops := Run(c, s, es), MasterOps(c, s, es);
            t.masterPort == After(s.masterPort, ops) && t.pushed == BlobsOf(ops) && NoEnable(ops)
  {
    if es != [] {
      hide Step, MasterOp, Inv, NoEnable, Init;
      var pre, e := es[..|es| - 1], es[|es| - 1];
      var u := Run(c, s, pre);
      MasterPortFollowsOps(c, s, pre);
      RunKeeps(c, s, pre);
      MasterStepOp(c, u, e);
      AfterSnoc(s.masterPort, MasterOps(c, s, pre), MasterOp(c, u, e));
      NoEnableSnoc(MasterOps(c, s, pre), MasterOp(c, u, e));
    }
  }

  lemma {:induction false} SlavePortFollowsOps(c: Limits, s: Sys, es: seq<Event>)
    requires Init(c, s)
    ensures var t, ops := Run(c, s, es), SlaveOps(c, s, es);
            t.slave.port == After(s.slave.port, ops) && t.consumed == BlobsOf(ops) && NoEnable(ops)
  {
    if es != [] {
      hide Step, SlaveOp, Inv, NoEnable, Init;
      var pre, e := es[..|es| - 1], es[|es| - 1];
      var u := Run(c, s, pre);
      SlavePortFollowsOps(c, s, pre);
      RunKeeps(c, s, pre);
      SlaveStepOp(c, u, e);
      AfterSnoc(s.slave.port, SlaveOps(c, s, pre), SlaveOp(c, u, e));
      NoEnableSnoc(SlaveOps(c, s, pre), SlaveOp(c, u, e));
    }
  }

  lemma BlobsOfOne(op: Op)
    ensures BlobsOf([op]) == if op.Push? then [op.bytes] else []
    ensures BlobsOf([]) == []
  {
    assert [op][..0] == [];
  }

  predicate OfSlave(e: Event) {
    e.SlaveServe? || e.SlaveReplyFails? || e.SlaveInterpret? || e.SlaveEnd? || e.SlaveWrite? || e.SlaveRead?
  }

  lemma SlaveEventsKeepMaster(c: Limits, s: Sys, e: Event)
    requires Typed(c, s) && OfSlave(e)
    ensures var t := Step(c, s, e);
            t.masterPort == s.masterPort && t.pushed == s.pushed && t.putSent == s.putSent
  {
    hide Slave.Interpreted, Slave.AfterWrite, Slave.WellFormed, Served, Answer, MasterReceives, AppWrites, PollBegins;
  }

  lemma ReceiveOps(c: Limits, s: Sys)
    requires Typed(c, s)
    ensures var t := MasterReceives(c, s);
            && t.slave == s.slave && t.consumed == s.consumed && t.accepted == s.accepted
            && ((t.pushed == s.pushed && t.masterPort in {s.masterPort, s.masterPort.(dead := true)})
                || (|t.pushed| == |s.pushed| + 1 && t.pushed == s.pushed + [t.pushed[|s.pushed|]]
                    && t.masterPort == Pushed(s.masterPort, t.pushed[|s.pushed|])))
  {
    hide Slave.WellFormed, Unpack, Pushed, Trunc, Master.HeaderOk, Master.Announced, Master.PayloadOk,
         RegsFor, PayloadRequest, HeaderRequest, Bounded;
  }

  /** A master event pushes a blob, reads, marks the slave dead, or leaves the port alone. */
  lemma MasterEventOps(c: Limits, s: Sys, e: Event)
    requires Typed(c, s) && !OfSlave(e)
    ensures var t := Step(c, s, e);
            || (t.pushed == s.pushed && t.masterPort in {s.masterPort, s.masterPort.(dead := true)} && !e.MasterRead?)
            || (t.pushed == s.pushed && e.MasterRead?
                && t.masterPort == if MasterLockFree(s) then AfterRead(s.masterPort, e.n) else s.masterPort)
            || (|t.pushed| == |s.pushed| + 1 && t.pushed == s.pushed + [t.pushed[|s.pushed|]] && !e.MasterRead?
                && t.masterPort == Pushed(s.masterPort, t.pushed[|s.pushed|]))
    ensures Step(c, s, e).slave == s.slave && Step(c, s, e).consumed == s.consumed && Step(c, s, e).accepted == s.accepted
  {
    ReceiveOps(c, s);
    hide MasterReceives, SlaveServes, SlaveInterprets, SlaveWrites, Slave.WellFormed, AfterRead, Pushed, PutRequest, Trunc, Bounded;
  }

  lemma MasterStepOp(c: Limits, s: Sys, e: Event)
    requires Inv(c, s)
    ensures var op := MasterOp(c, s, e);
            && |op| <= 1 && NoEnable(op)
            && Step(c, s, e).masterPort == (if op == [] then s.masterPort else Apply(s.masterPort, op[0]))
            && Step(c, s, e).pushed == s.pushed + BlobsOf(op)
  {
    hide BlobsOf, DeliveryInv, ChannelInv, PutInv, FailedInv, MailboxInv, Slave.WellFormed;
    if OfSlave(e) {
      SlaveEventsKeepMaster(c, s, e);
      hide Step;
    } else {
      MasterEventOps(c, s, e);
      hide Step;
    }
    var op := MasterOp(c, s, e);
    BlobsOfOne(if op == [] then LinkDied else op[0]);
  }

  lemma SlaveStepOp(c: Limits, s: Sys, e: Event)
    requires Inv(c, s)
    ensures var op := SlaveOp(c, s, e);
            && |op| <= 1 && NoEnable(op)
            && Step(c, s, e).slave.port == (if op == [] then s.slave.port else Apply(s.slave.port, op[0]))
            && Step(c, s, e).consumed == s.consumed + BlobsOf(op)
  {
    hide BlobsOf, DeliveryInv, ChannelInv, PutInv, FailedInv, KnownRequest, MasterReceives, AppWrites, PollBegins;
    var op := SlaveOp(c, s, e);
    BlobsOfOne(if op == [] then LinkDied else op[0]);
    if e.SlaveInterpret? && s.server.Interpreting? {
      InterpretedPort(c, s.slave);
    } else if !e.SlaveRead? {
      OtherEventsKeepSlavePort(c, s, e);
    }
  }

  lemma OtherEventsKeepSlavePort(c: Limits, s: Sys, e: Event)
    requires Typed(c, s) && !e.SlaveRead? && !(e.SlaveInterpret? && s.server.Interpreting?)
    ensures Step(c, s, e).slave.port == s.slave.port && Step(c, s, e).consumed == s.consumed
  {
    if OfSlave(e) {
      hide Slave.Interpreted, Served, Answer, AfterRead, MasterReceives, AppWrites, PollBegins;
    } else {
      MasterEventOps(c, s, e);
      hide Step;
    }
  }

  lemma InterpretedPort(c: Limits, s: Slave.State)
    requires Configured(c) && Slave.WellFormed(c, s) && Slave.Cmd(s) in {CMD_NONE, CMD_PUT_BLOB, CMD_GIVE_ME_ANY_DATA}
    requires s.txPending || s.tx == []
    ensures Slave.Interpreted(c, s).port == if Slave.Cmd(s) == CMD_PUT_BLOB then Pushed(s.port, Slave.PutBlobIn(c, s)) else s.port
  {
    PushEmpty(s.port);
    if Slave.Cmd(s) == CMD_GIVE_ME_ANY_DATA {
      Slave.InterpretPoll(c, s);
    } else {
      Slave.InterpretOther(c, s);
    }
  }

  ghost predicate NoDrops(p: Port, ops: seq<Op>)
    requires Bounded(p)
  {
    forall i: nat | i < |ops| :: !Drops(p, ops, i)
  }

  lemma {:induction false} KeptEverything(p: Port, ops: seq<Op>)
    requires Bounded(p) && NoDrops(p, ops)
    ensures Kept(p, ops) == Flatten(BlobsOf(ops))
  {
    if ops != [] {
      var n := |ops| - 1;
      var pre := ops[..n];
      forall i: nat | i < n ensures !Drops(p, pre, i) {
        assert pre[..i] == ops[..i];
        assert !Drops(p, ops, i);
      }
      KeptEverything(p, pre);
      assert !Drops(p, ops, n);
      if ops[n].Push? {
        FlattenSnoc(BlobsOf(pre), ops[n].bytes);
      } else {
        assert BlobsOf(ops) == BlobsOf(pre);
      }
    }
  }

  lemma {:induction false} InOrderFrom(p: Port, ops: seq<Op>)
    requires Bounded(p) && p.fifo == [] && NoDrops(p, ops) && NoEnable(ops)
    ensures Flatten(BlobsOf(ops)) == HandedOut(p, ops) + After(p, ops).fifo
  {
    HandsOutInOrder(p, ops);
    KeptEverything(p, ops);
    assert p.fifo + Kept(p, ops) == Kept(p, ops);
  }

  /** Byte for byte: what the slave's application wrote is what the master's application has read,
      then the master's fifo, then what is staged and pending. */
  lemma {:induction false} SlaveBytesReachMaster(c: Limits, s: Sys, es: seq<Event>)
    requires Init(c, s) && s.masterPort.fifo == [] && c.slaveBlob <= c.masterBlob
    requires !Run(c, s, es).failed && NoDrops(s.masterPort, MasterOps(c, s, es))
    ensures var t := Run(c, s, es);
            Flatten(t.accepted) ==
              HandedOut(s.masterPort, MasterOps(c, s, es)) + t.masterPort.fifo + Flatten(Staged(c, t) + Pending(t))
  {
    var t := Run(c, s, es);
    OrderedExactlyOnce(c, s, es);
    MasterPortFollowsOps(c, s, es);
    InOrderFrom(s.masterPort, MasterOps(c, s, es));
    assert t.accepted == t.pushed + (Staged(c, t) + Pending(t));
    FlattenAppend(t.pushed, Staged(c, t) + Pending(t));
  }

  /** The same from the master's writes to the slave's application. */
  lemma {:induction false} MasterBytesReachSlave(c: Limits, s: Sys, es: seq<Event>)
    requires Init(c, s) && s.slave.port.fifo == [] && c.masterBlob <= c.slaveBlob
    requires !Run(c, s, es).failed && NoDrops(s.slave.port, SlaveOps(c, s, es))
    ensures var t := Run(c, s, es);
            Flatten(t.putSent) ==
              HandedOut(s.slave.port, SlaveOps(c, s, es)) + t.slave.port.fifo + Flatten(InMap(c, t) + InTransit(c, t))
  {
    var t := Run(c, s, es);
    PutBlobConsumedOnce(c, s, es);
    SlavePortFollowsOps(c, s, es);
    InOrderFrom(s.slave.port, SlaveOps(c, s, es));
    assert t.putSent == t.consumed + (InMap(c, t) + InTransit(c, t));
    FlattenAppend(t.consumed, InMap(c, t) + InTransit(c, t));
  }

  // ---- zero-length writes ------------------------------------------------------------------------

  /** A poll releases the pending write exactly when that write was not empty. */
  lemma PollReleasesSender(c: Limits, s: Slave.State)
    requires Configured(c) && Slave.WellFormed(c, s) && Slave.Cmd(s) == CMD_GIVE_ME_ANY_DATA && s.txPending
    ensures Slave.Interpreted(c, s).txPending <==> s.tx == []
  {
    Slave.InterpretPoll(c, s);
  }

  lemma WedgedStep(c: Limits, s: Sys, e: Event)
    requires Inv(c, s) && s.slave.txPending && s.slave.tx == []
    ensures var t := Step(c, s, e);
            t.slave.txPending && t.slave.tx == [] && t.accepted == s.accepted && t.slave.port.enabled
  {
    hide DeliveryInv, ChannelInv, PutInv, FailedInv, KnownRequest;
    if !OfSlave(e) {
      MasterEventOps(c, s, e);
      hide Step;
    } else {
      hide MasterReceives, AppWrites, PollBegins, Served, Answer, Slave.Interpreted;
      if e.SlaveInterpret? && s.server.Interpreting? {
        if Slave.Cmd(s.slave) == CMD_GIVE_ME_ANY_DATA {
          Slave.InterpretPoll(c, s.slave);
        } else {
          Slave.InterpretOther(c, s.slave);
        }
      }
    }
  }

  /** An empty write that was accepted blocks every later one, whatever happens in the session. */
  lemma {:induction false} EmptyWriteWedges(c: Limits, s: Sys, es: seq<Event>, buf: seq<byte>)
    requires Inv(c, s) && s.slave.txPending && s.slave.tx == []
    ensures var t := Run(c, s, es);
            && Inv(c, t) && t.slave.txPending && t.slave.tx == [] && t.accepted == s.accepted
            && !Slave.WriteOutcome(c, t.slave, buf).Accepted?
  {
    if es != [] {
      var t := Run(c, s, es[..|es| - 1]);
      EmptyWriteWedges(c, s, es[..|es| - 1], buf);
      WedgedStep(c, t, es[|es| - 1]);
      StepKeeps(c, t, es[|es| - 1]);
    }
  }

  lemma {:induction false} EmptyWriteIsAccepted(c: Limits, s: Sys)
    requires Init(c, s)
    ensures var t := Run(c, s, [SlaveWrite([])]);
            Inv(c, t) && t.slave.txPending && t.slave.tx == [] && t.accepted == [[]]
  {
    RunKeeps(c, s, [SlaveWrite([])]);
    assert [SlaveWrite([])][..0] == [];
    assert Run(c, s, []) == s;
    assert Run(c, s, [SlaveWrite([])]) == SlaveWrites(c, s, []) by {
      hide Inv, Init, MasterReceives, AppWrites, PollBegins, SlaveServes, SlaveInterprets, SlaveWrites;
    }
    hide Inv, Step, Run;
  }
}
