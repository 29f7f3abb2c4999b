/** Every interleaving of a Modbus session keeps the mailbox invariants, and what that means for
    the applications at both ends. */
module ModbusDelivery {
  import opened Bytes
  import opened ModbusRegisters
  import opened RxPort
  import opened ModbusSession
  import Slave = ModbusSlave
  import Master = ModbusMaster

  lemma InitHolds(c: Limits, s: Sys)
    requires Init(c, s)
    ensures Inv(c, s)
  {
  }

  lemma PollBeginKeeps(c: Limits, s: Sys)
    requires Inv(c, s)
    ensures Inv(c, PollBegins(s))
  {
  }

  lemma PutRequestKnown(c: Limits, blob: seq<byte>)
    requires Configured(c) && |blob| <= c.masterBlob
    ensures KnownRequest(c, PutRequest(c, blob))
  {
    assert RegsFor(|blob|) <= RegsFor(c.maxBytes);
  }

  lemma AppWriteKeeps(c: Limits, s: Sys, buf: seq<byte>)
    requires Inv(c, s)
    ensures Inv(c, AppWrites(c, s, buf))
  {
    var t := AppWrites(c, s, buf);
    if MasterLockFree(s) && s.up {
      var blob := Trunc(buf, c.masterBlob);
      PutRequestKnown(c, blob);
      assert t.inbox == s.inbox + [Tagged(t.lastId, PutRequest(c, blob))];
      assert MailboxInv(c, t);
      if !s.failed {
        assert Trunc(blob, c.masterBlob) == blob;
        assert ChannelInv(c, t);
        AppWritePut(c, s, buf);
        assert Staged(c, t) == Staged(c, s) == [];
        assert DeliveryInv(c, t);
      }
    }
  }

  lemma AppWritePut(c: Limits, s: Sys, buf: seq<byte>)
    requires Typed(c, s) && PutInv(c, s) && MasterLockFree(s) && s.up && s.masterPort.enabled && s.inbox == []
    ensures PutInv(c, AppWrites(c, s, buf))
  {
    var t := AppWrites(c, s, buf);
    assert TruncAll(t.putSent, c.slaveBlob) == TruncAll(s.putSent, c.slaveBlob) + [Trunc(Trunc(buf, c.masterBlob), c.slaveBlob)];
    assert InTransit(c, t) == [Trunc(Trunc(buf, c.masterBlob), c.slaveBlob)];
  }

  lemma FailKeeps(c: Limits, s: Sys, mark: bool)
    requires Inv(c, s)
    ensures !s.app.AppWaiting? && !s.rx.Idle? ==> Inv(c, RxFails(s, mark))
    ensures s.app.AppWaiting? ==> Inv(c, AppFails(s))
  {
  }

  /** An answered header announces exactly what is staged. */
  lemma HeaderTellsStaged(c: Limits, s: Sys)
    requires Inv(c, s) && !s.failed && s.rx.SentHeader? && s.outbox != []
    ensures var a := s.outbox[0].msg;
            && Master.HeaderOk(a) && a.vals == [s.slave.tab[S2mStatus(c)], s.slave.tab[S2mLen(c)]]
            && (Master.Announced(c, a) == 0 <==> Slave.StagedBlob(c, s.slave.tab) == [])
  {
    assert s.slave.tab[S2mStatus(c)..S2mStatus(c) + 2] == [s.slave.tab[S2mStatus(c)], s.slave.tab[S2mLen(c)]];
  }

  /** An answered payload is the staged blob, cut at the master's limit. */
  lemma PayloadIsStaged(c: Limits, s: Sys)
    requires Inv(c, s) && !s.failed && s.rx.SentPayload? && s.outbox != []
    ensures var a := s.outbox[0].msg;
            && Master.PayloadOk(s.rx.n, a)
            && Slave.StagedBlob(c, s.slave.tab) == [Unpack(s.slave.tab[S2mData(c)..], s.slave.tab[S2mLen(c)])]
            && Unpack(a.vals, s.rx.n) == Trunc(Unpack(s.slave.tab[S2mData(c)..], s.slave.tab[S2mLen(c)]), c.masterBlob)
  {
    var regs, n := s.slave.tab[S2mData(c)..], s.rx.n;
    assert s.outbox[0].msg.vals == regs[..RegsFor(n)];
    UnpackPrefix(regs, n, RegsFor(n));
    UnpackTrunc(regs, s.slave.tab[S2mLen(c)], n);
  }

  lemma ReceivePayloadKeeps(c: Limits, s: Sys)
    requires Inv(c, s) && !s.failed && s.rx.SentPayload? && s.outbox != []
    ensures Inv(c, MasterReceives(c, s))
  {
    hide Slave.StagedBlob, Unpack, KnownRequest;
    PayloadIsStaged(c, s);
    var t := MasterReceives(c, s);
    var k := |s.pushed|;
    assert s.accepted[k] == (Staged(c, s) + Pending(s))[0];
    assert t.accepted[..k + 1] == s.accepted[..k] + [s.accepted[k]];
    assert TruncAll(t.accepted[..k + 1], c.masterBlob) == s.pushed + [Trunc(s.accepted[k], c.masterBlob)];
    assert t.accepted[k + 1..] == s.accepted[k..][1..];
  }

  lemma ReceiveHeaderKeeps(c: Limits, s: Sys)
    requires Inv(c, s) && !s.failed && s.rx.SentHeader? && s.outbox != []
    ensures Inv(c, MasterReceives(c, s))
  {
    hide Unpack;
    HeaderTellsStaged(c, s);
    assert RegsFor(Min(s.slave.tab[S2mLen(c)], c.masterBlob)) <= RegsFor(c.maxBytes);
  }

  lemma ReceiveOtherKeeps(c: Limits, s: Sys)
    requires Inv(c, s) && s.outbox != [] && !MasterLockFree(s)
    requires s.failed || s.app.AppWaiting? || s.rx.SentPoll?
    ensures Inv(c, MasterReceives(c, s))
  {
    hide Slave.StagedBlob, Unpack;
  }

  lemma {:induction false} ReceiveKeeps(c: Limits, s: Sys)
    requires Inv(c, s)
    ensures Inv(c, MasterReceives(c, s))
  {
    if s.outbox != [] && !MasterLockFree(s) {
      if s.failed || s.app.AppWaiting? || s.rx.SentPoll? {
        ReceiveOtherKeeps(c, s);
      } else if s.rx.SentHeader? {
        ReceiveHeaderKeeps(c, s);
      } else {
        ReceivePayloadKeeps(c, s);
      }
    }
  }

  lemma ServeMailbox(c: Limits, s: Sys, answered: bool)
    requires Typed(c, s) && MailboxInv(c, s) && s.server.Receiving? && s.inbox != []
    ensures MailboxInv(c, SlaveServes(s, answered))
    ensures var t := SlaveServes(s, answered);
            t.slave.tab[S2mStatus(c)..] == s.slave.tab[S2mStatus(c)..]
  {
    var t := SlaveServes(s, answered);
    ServedRequestKeepsStage(c, s.slave, s.inbox[0].msg);
    Slave.StageDependsOnS2mArea(c, s.slave.tab, t.slave.tab);
  }

  /** What the slave answers the lock holder. */
  lemma AnswerOf(c: Limits, s: Sys)
    requires Inv(c, s) && !s.failed && s.inbox != []
    ensures var a := Answer(s.slave.tab, s.inbox[0].msg);
            && s.inbox == [Tagged(s.lastId, Outstanding(c, s))] && s.outbox == []
            && (s.app.AppWaiting? ==> a == Wrote(2 + RegsFor(|s.app.blob|)))
            && (s.rx.SentPoll? ==> a == Wrote(2))
            && (s.rx.SentHeader? ==> a == Values(s.slave.tab[S2mStatus(c)..S2mStatus(c) + 2]))
            && (s.rx.SentPayload? ==>
                  s.rx.n <= c.maxBytes && a == Values(s.slave.tab[S2mData(c)..S2mData(c) + RegsFor(s.rx.n)]))
  {
    hide DeliveryInv, PutInv, Slave.StagedBlob, Slave.StageInRange;
    KnownRequestFits(c, s.slave, s.inbox[0].msg);
    hide KnownRequest, RequestFits, Served;
    if s.app.AppWaiting? {
      assert Trunc(s.app.blob, c.masterBlob) == s.app.blob;
    }
  }

  lemma ServeChannel(c: Limits, s: Sys, answered: bool)
    requires Inv(c, s) && !s.failed && s.server.Receiving? && s.inbox != []
    ensures ChannelInv(c, SlaveServes(s, answered))
  {
    hide Slave.StagedBlob, Slave.StageInRange, Answer, Served, KnownRequest;
    var q, t := s.inbox[0].msg, SlaveServes(s, answered);
    AnswerOf(c, s);
    ServedRequestKeepsStage(c, s.slave, q);
    Slave.StageDependsOnS2mArea(c, s.slave.tab, t.slave.tab);
    assert t.inbox == [];
    assert t.outbox == if answered then [Tagged(s.lastId, Answer(s.slave.tab, q))] else [];
    assert s.slave.tab[S2mStatus(c)..][1] == t.slave.tab[S2mStatus(c)..][1];
  }

  lemma ServeDelivery(c: Limits, s: Sys, answered: bool)
    requires Inv(c, s) && !s.failed && s.server.Receiving? && s.inbox != []
    ensures DeliveryInv(c, SlaveServes(s, answered))
  {
    var q, t := s.inbox[0].msg, SlaveServes(s, answered);
    ServeMailbox(c, s, answered);
    ServedRequestKeepsStage(c, s.slave, q);
    Slave.StageDependsOnS2mArea(c, s.slave.tab, t.slave.tab);
    assert Fresh(t) == Fresh(s);
  }

  lemma ServePutBlob(c: Limits, s: Sys, answered: bool)
    requires Inv(c, s) && !s.failed && s.server.Receiving? && s.inbox != [] && s.app.AppWaiting?
    ensures PutInv(c, SlaveServes(s, answered))
  {
    var q, t := s.inbox[0].msg, SlaveServes(s, answered);
    assert Trunc(s.app.blob, c.masterBlob) == s.app.blob;
    assert q == PutRequest(c, s.app.blob) && s.inbox[1..] == [] && InMap(c, s) == [];
    hide MailboxInv, DeliveryInv, ChannelInv, Answer, PutRequest;
    Slave.PutLandsInMap(c, s.slave, s.app.blob);
    hide Served, TruncAll, Slave.PutBlobIn, Trunc;
    assert InMap(c, t) == InTransit(c, s) && InTransit(c, t) == [];
  }

  lemma ServePoll(c: Limits, s: Sys, answered: bool)
    requires Inv(c, s) && !s.failed && s.server.Receiving? && s.inbox != [] && !s.app.AppWaiting?
    ensures PutInv(c, SlaveServes(s, answered))
  {
    var q := s.inbox[0].msg;
    ServedRequestKeepsStage(c, s.slave, q);
    assert q == Outstanding(c, s);
    hide DeliveryInv, Answer, Served;
  }

  lemma {:induction false} ServeKeeps(c: Limits, s: Sys, answered: bool)
    requires Inv(c, s)
    ensures Inv(c, SlaveServes(s, answered))
  {
    if s.server.Receiving? && s.inbox != [] {
      ServeMailbox(c, s, answered);
      if !s.failed {
        ServeChannel(c, s, answered);
        ServeDelivery(c, s, answered);
        if s.app.AppWaiting? {
          ServePutBlob(c, s, answered);
        } else {
          ServePoll(c, s, answered);
        }
      }
    }
  }

  lemma KnownRequestFits(c: Limits, s: Slave.State, q: Request)
    requires Configured(c) && Slave.WellFormed(c, s) && KnownRequest(c, q)
    ensures RequestFits(s.tab, q)
  {
  }

  /** None of the master's requests can touch the slave-to-master area. */
  lemma ServedRequestKeepsStage(c: Limits, s: Slave.State, q: Request)
    requires Configured(c) && Slave.WellFormed(c, s) && KnownRequest(c, q)
    ensures RequestFits(s.tab, q)
    ensures Served(s.tab, q)[S2mStatus(c)..] == s.tab[S2mStatus(c)..]
    ensures Served(s.tab, q)[M2S_CMD] == if q.WriteRegs? then q.vals[0] else s.tab[M2S_CMD]
  {
    if q.WriteRegs? {
      var t := Poke(s.tab, q.at, q.vals);
      assert t[q.at..q.at + |q.vals|][0] == t[0];
      assert t[S2mStatus(c)..] == s.tab[S2mStatus(c)..];
    }
  }

  lemma InterpretPollKeeps(c: Limits, s: Sys)
    requires Inv(c, s) && s.server.Interpreting? && Slave.Cmd(s.slave) == CMD_GIVE_ME_ANY_DATA
    ensures Inv(c, SlaveInterprets(c, s))
  {
    hide Slave.StagedBlob, Slave.StageInRange, Slave.Interpreted, Unpack, KnownRequest;
    Slave.InterpretPoll(c, s.slave);
  }

  lemma InterpretOtherKeeps(c: Limits, s: Sys)
    requires Inv(c, s) && s.server.Interpreting? && Slave.Cmd(s.slave) != CMD_GIVE_ME_ANY_DATA
    ensures Inv(c, SlaveInterprets(c, s))
  {
    hide Slave.StagedBlob, Slave.StageInRange, Slave.Interpreted, Unpack, KnownRequest, RegsFor;
    var t := SlaveInterprets(c, s);
    Slave.InterpretOther(c, s.slave);
    Slave.StageDependsOnS2mArea(c, s.slave.tab, t.slave.tab);
    assert MailboxInv(c, t);
    if !s.failed {
      assert s.slave.tab[S2mLen(c)] == s.slave.tab[S2mStatus(c)..][1] == t.slave.tab[S2mStatus(c)..][1];
      assert InTransit(c, t) == InTransit(c, s);
      assert t.consumed + InMap(c, t) == s.consumed + InMap(c, s);
      assert Staged(c, t) == Staged(c, s);
    }
  }

  lemma InterpretKeeps(c: Limits, s: Sys)
    requires Inv(c, s)
    ensures Inv(c, SlaveInterprets(c, s))
  {
    if s.server.Interpreting? {
      if Slave.Cmd(s.slave) == CMD_GIVE_ME_ANY_DATA {
        InterpretPollKeeps(c, s);
      } else {
        InterpretOtherKeeps(c, s);
      }
    }
  }

  lemma SlaveWriteKeeps(c: Limits, s: Sys, buf: seq<byte>)
    requires Inv(c, s)
    ensures Inv(c, SlaveWrites(c, s, buf))
  {
    hide KnownRequest, Slave.StagedBlob, Slave.StageInRange;
    var t := SlaveWrites(c, s, buf);
    if t.accepted != s.accepted {
      assert t.accepted == s.accepted + [buf];
      assert t.accepted[..|s.pushed|] == s.accepted[..|s.pushed|];
      assert t.accepted[|s.pushed|..] == s.accepted[|s.pushed|..] + [buf];
    }
  }

  lemma MasterReadKeeps(c: Limits, s: Sys, n: nat)
    requires Inv(c, s) && MasterLockFree(s)
    ensures Inv(c, s.(masterPort := AfterRead(s.masterPort, n)))
  {
    hide Slave.StagedBlob, Slave.StageInRange, Slave.PutBlobIn, TruncAll, KnownRequest, Slave.WellFormed;
  }

  lemma SlaveEndKeeps(c: Limits, s: Sys)
    requires Inv(c, s) && s.server.Receiving?
    ensures Inv(c, s.(server := Ended))
  {
    hide Slave.StagedBlob, Slave.StageInRange, Slave.PutBlobIn, TruncAll, KnownRequest, Slave.WellFormed;
  }

  lemma SlaveReadKeeps(c: Limits, s: Sys, n: nat)
    requires Inv(c, s)
    ensures Inv(c, s.(slave := s.slave.(port := AfterRead(s.slave.port, n))))
  {
    hide Slave.StagedBlob, Slave.StageInRange, TruncAll, KnownRequest, Unpack;
  }

  lemma StepKeeps(c: Limits, s: Sys, e: Event)
    requires Inv(c, s)
    ensures Inv(c, Step(c, s, e))
  {
    hide ChannelInv, PutInv, MasterReceives, AppWrites, PollBegins, SlaveServes, SlaveInterprets, SlaveWrites;
    match e
    case PollBegin => PollBeginKeeps(c, s);
    case MasterReceive => ReceiveKeeps(c, s);
    case PollFail => FailKeeps(c, s, s.rx.SentPoll? || c.markAll);
    case AppWrite(buf) => AppWriteKeeps(c, s, buf);
    case AppWriteFail => FailKeeps(c, s, false);
    case MasterRead(n) =>
      if MasterLockFree(s) {
        MasterReadKeeps(c, s, n);
      }
    case SlaveServe => ServeKeeps(c, s, true);
    case SlaveReplyFails => ServeKeeps(c, s, false);
    case SlaveInterpret => InterpretKeeps(c, s);
    case SlaveEnd =>
      if s.server.Receiving? {
        SlaveEndKeeps(c, s);
      }
    case SlaveWrite(buf) => SlaveWriteKeeps(c, s, buf);
    case SlaveRead(n) => SlaveReadKeeps(c, s, n);
  }

  lemma {:induction false} RunKeeps(c: Limits, s: Sys, es: seq<Event>)
    requires Init(c, s)
    ensures Inv(c, Run(c, s, es))
  {
    if es == [] {
      InitHolds(c, s);
    } else {
      RunKeeps(c, s, es[..|es| - 1]);
      StepKeeps(c, Run(c, s, es[..|es| - 1]), es[|es| - 1]);
    }
  }

  function Deliver(c: Limits, s: Sys, a: Response): Sys
    requires Typed(c, s)
  {
    MasterReceives(c, s.(outbox := [Tagged(s.lastId, a)]))
  }

  /** What each of the three answers does to the rx task. */
  lemma DeliverAck(c: Limits, s: Sys, a: Response)
    requires Typed(c, s) && s.rx.SentPoll? && s.app.AppIdle?
    ensures var t := Deliver(c, s, a);
            && t.slave == s.slave && t.app == s.app
            && t.rx == (if a == Wrote(2) then SentHeader else Stopped)
            && t.masterPort == (if a == Wrote(2) then s.masterPort else s.masterPort.(dead := true))
            && (t.failed <==> s.failed || a != Wrote(2))
  {
  }

  lemma DeliverHeader(c: Limits, s: Sys, a: Response)
    requires Typed(c, s) && s.rx.SentHeader? && s.app.AppIdle?
    ensures var t := Deliver(c, s, a);
            && t.slave == s.slave && t.app == s.app
            && t.rx == (if !Master.HeaderOk(a) then Stopped
                        else if Master.Announced(c, a) == 0 then Idle
                        else SentPayload(Master.Announced(c, a)))
            && t.masterPort == (if !Master.HeaderOk(a) && c.markAll then s.masterPort.(dead := true) else s.masterPort)
            && (t.failed <==> s.failed || !Master.HeaderOk(a))
  {
    hide Master.Announced;
  }

  lemma DeliverPayload(c: Limits, s: Sys, a: Response)
    requires Typed(c, s) && s.rx.SentPayload? && s.app.AppIdle?
    ensures var t, ok := Deliver(c, s, a), Master.PayloadOk(s.rx.n, a);
            && t.rx == (if ok then Idle else Stopped)
            && t.masterPort == (if ok then Pushed(s.masterPort, Unpack(a.vals, s.rx.n))
                                else if c.markAll then s.masterPort.(dead := true) else s.masterPort)
            && (t.failed <==> s.failed || !ok)
  {
    hide Unpack, Pushed;
  }

  /** A poll cycle of the session, given the three answers, is the poll of the rx task. */
  lemma {:induction false} SessionPollIsMasterPoll(c: Limits, s: Sys, ack: Response, header: Response, payload: Response)
    requires Typed(c, s) && s.rx.SentPoll? && s.app.AppIdle?
    ensures var s1 := Deliver(c, s, ack);
            var s2 := if s1.rx.SentHeader? then Deliver(c, s1, header) else s1;
            var s3 := if s2.rx.SentPayload? then Deliver(c, s2, payload) else s2;
            var r := Master.Poll(c, s.masterPort, ack, header, payload);
            && s3.masterPort == r.port
            && s3.rx == (if r.PollDone? then Idle else Stopped)
            && (s3.failed <==> s.failed || r.PollFailed?)
  {
    hide Unpack, Deliver, Pushed, Master.HeaderOk, Master.PayloadOk, Master.Announced;
    DeliverAck(c, s, ack);
    var s1 := Deliver(c, s, ack);
    if s1.rx.SentHeader? {
      DeliverHeader(c, s1, header);
      var s2 := Deliver(c, s1, header);
      if s2.rx.SentPayload? {
        DeliverPayload(c, s2, payload);
      }
    }
  }
}
