/** What a Modbus session gets done: writes are taken, and the four threads by their own steps carry
    everything that was taken to the other side. */
module ModbusProgress {
  import opened Bytes
  import opened ModbusRegisters
  import opened RxPort
  import opened ModbusSession
  import opened ModbusDelivery
  import opened ModbusEndToEnd
  import Slave = ModbusSlave
  import Master = ModbusMaster

  lemma RunSnoc(c: Limits, s: Sys, es: seq<Event>, e: Event)
    requires Typed(c, s)
    ensures Run(c, s, es + [e]) == Step(c, Run(c, s, es), e) && Run(c, s, []) == s
  {
    assert (es + [e])[..|es|] == es;
  }

  // ---- taking a write ---------------------------------------------------------------------------

  /** At any point of a session the slave takes a write exactly if it is not too long and the one
      before has been staged; taken, it is recorded whole, and refused it changes nothing. */
  lemma {:induction false} SlaveTakesWrite(c: Limits, s: Sys, es: seq<Event>, buf: seq<byte>)
    requires Init(c, s)
    ensures var t, u := Run(c, s, es), Run(c, s, es + [SlaveWrite(buf)]);
            if |buf| <= c.slaveBlob && !t.slave.txPending
            then u == t.(slave := t.slave.(tx := buf, txPending := true), accepted := t.accepted + [buf])
            else u == t
  {
    RunKeeps(c, s, es);
    RunSnoc(c, s, es, SlaveWrite(buf));
    TakesNow(c, Run(c, s, es), buf);
    hide Run, Inv, Init, SlaveWrites;
  }

  lemma TakesNow(c: Limits, t: Sys, buf: seq<byte>)
    requires Inv(c, t)
    ensures SlaveWrites(c, t, buf) ==
              if |buf| <= c.slaveBlob && !t.slave.txPending
              then t.(slave := t.slave.(tx := buf, txPending := true), accepted := t.accepted + [buf])
              else t
  {
    hide ChannelInv, DeliveryInv, PutInv, KnownRequest, FailedInv;
    assert t.accepted + [] == t.accepted;
  }

  /** Without a failure so far the master's write sends as much of its buffer as one blob holds, as
      soon as no other call is under way. */
  lemma {:induction false} MasterSendsWrite(c: Limits, s: Sys, es: seq<Event>, buf: seq<byte>)
    requires Init(c, s) && !Run(c, s, es).failed && MasterLockFree(Run(c, s, es))
    ensures var t, u := Run(c, s, es), Run(c, s, es + [AppWrite(buf)]);
            && u.putSent == t.putSent + [if |buf| <= c.masterBlob then buf else buf[..c.masterBlob]]
            && !u.failed && u.app.AppWaiting?
  {
    RunKeeps(c, s, es);
    RunSnoc(c, s, es, AppWrite(buf));
    hide Run, DeliveryInv, PutInv, KnownRequest, FailedInv, Init;
  }

  // ---- own steps --------------------------------------------------------------------------------

  /** The threads going on with what they have begun; nothing fails. */
  predicate Own(e: Event) {
    e.MasterReceive? || e.SlaveServe? || e.SlaveInterpret?
  }

  predicate Live(c: Limits, s: Sys) {
    Inv(c, s) && !s.failed && !s.server.Ended?
  }

  /** No call is under way and the slave awaits the next. */
  predicate Calm(s: Sys) {
    MasterLockFree(s) && s.server.Receiving?
  }

  function PhaseRank(s: Sys): nat {
    if s.app.AppWaiting? then 1
    else match s.rx
      case SentPoll => 3
      case SentHeader => 2
      case SentPayload(_) => 1
      case _ => 0
  }

  function Measure(s: Sys): nat {
    6 * PhaseRank(s) + 3 * |s.inbox| + |s.outbox| + if s.server.Interpreting? then 1 else 0
  }

  /** The blobs of both sides are those accepted and sent before. */
  predicate SameWrites(s: Sys, t: Sys) {
    t.accepted == s.accepted && t.putSent == s.putSent
  }

  /** A pending write that is not empty is about to be staged. */
  predicate Staging(s: Sys)
    requires |s.slave.tab| > 0
  {
    && (s.slave.txPending ==> s.slave.tx != [])
    && (s.slave.tx != [] ==> (s.rx.SentPoll? && s.inbox != []) || Slave.Cmd(s.slave) == CMD_GIVE_ME_ANY_DATA)
  }

  lemma ServeLives(c: Limits, s: Sys)
    requires Live(c, s)
    ensures var t := SlaveServes(s, true);
            !t.failed && !t.server.Ended? && SameWrites(s, t) && (t == s || Measure(t) < Measure(s))
  {
    hide ChannelInv, DeliveryInv, PutInv, MailboxInv;
  }

  lemma ServeStages(c: Limits, s: Sys)
    requires Live(c, s) && Staging(s)
    ensures Staging(SlaveServes(s, true))
  {
    if s.server.Receiving? && s.inbox != [] {
      ServeMailbox(c, s, true);
      ServedRequestKeepsStage(c, s.slave, s.inbox[0].msg);
      AnswerOf(c, s);
      hide DeliveryInv, PutInv, Served, Answer, KnownRequest;
    }
  }

  lemma InterpretLives(c: Limits, s: Sys)
    requires Live(c, s)
    ensures var t := SlaveInterprets(c, s);
            && !t.failed && !t.server.Ended? && SameWrites(s, t) && (t == s || Measure(t) < Measure(s))
            && (Staging(s) ==> Staging(t))
  {
    hide DeliveryInv, PutInv, KnownRequest;
    if s.server.Interpreting? {
      if Slave.Cmd(s.slave) == CMD_GIVE_ME_ANY_DATA {
        Slave.InterpretPoll(c, s.slave);
      } else {
        Slave.InterpretOther(c, s.slave);
      }
      hide Slave.Interpreted;
    }
  }

  lemma ReceiveLives(c: Limits, s: Sys)
    requires Live(c, s)
    ensures var t := MasterReceives(c, s);
            && !t.failed && !t.server.Ended? && SameWrites(s, t) && (t == s || Measure(t) < Measure(s))
            && (Staging(s) ==> Staging(t))
  {
    if s.outbox != [] && s.rx.SentHeader? {
      HeaderTellsStaged(c, s);
    } else if s.outbox != [] && s.rx.SentPayload? {
      PayloadIsStaged(c, s);
    }
    hide DeliveryInv, PutInv, KnownRequest, Unpack, Slave.StagedBlob, Slave.StageInRange, Pushed, Slave.WellFormed;
  }

  /** Each own step goes on without failing, and brings the calls under way nearer to their end. */
  lemma OwnStepLives(c: Limits, s: Sys, e: Event)
    requires Live(c, s) && Own(e)
    ensures Live(c, Step(c, s, e)) && SameWrites(s, Step(c, s, e))
    ensures Step(c, s, e) == s || Measure(Step(c, s, e)) < Measure(s)
    ensures Staging(s) ==> Staging(Step(c, s, e))
  {
    StepKeeps(c, s, e);
    ServeLives(c, s);
    if Staging(s) {
      ServeStages(c, s);
    }
    InterpretLives(c, s);
    ReceiveLives(c, s);
    hide Inv, SlaveServes, SlaveInterprets, MasterReceives, Staging, SameWrites, Measure;
  }

  /** Until the session is calm one of its threads has a step of its own. */
  lemma CalmOrStep(c: Limits, s: Sys) returns (e: Event)
    requires Live(c, s) && !Calm(s)
    ensures Own(e) && Step(c, s, e) != s
  {
    hide DeliveryInv, PutInv, KnownRequest;
    if s.server.Interpreting? {
      e := SlaveInterpret;
      assert Step(c, s, e).server.Receiving?;
    } else if s.inbox != [] {
      e := SlaveServe;
      assert |Step(c, s, e).inbox| < |s.inbox|;
    } else {
      e := MasterReceive;
      ReceiveLives(c, s);
      assert |s.outbox| == 1;
      hide Measure;
      MoreOrLess(c, s);
    }
  }

  lemma MoreOrLess(c: Limits, s: Sys)
    requires Live(c, s) && s.outbox != [] && !MasterLockFree(s) && s.inbox == []
    ensures MasterReceives(c, s) != s
  {
    hide ChannelInv, DeliveryInv, PutInv, KnownRequest, Unpack, Pushed;
    assert |MasterReceives(c, s).outbox| < |s.outbox|;
  }

  // ---- everything arrives -----------------------------------------------------------------------

  lemma {:induction false} RunCons(c: Limits, s: Sys, e: Event, es: seq<Event>)
    requires Typed(c, s)
    ensures Run(c, s, [e] + es) == Run(c, Step(c, s, e), es)
  {
    hide Step;
    if es == [] {
      assert [e] + es == [e] && [e][..0] == [];
    } else {
      RunCons(c, s, e, es[..|es| - 1]);
      assert ([e] + es)[..|es|] == [e] + es[..|es| - 1];
    }
  }

  lemma {:induction false} RunAppend(c: Limits, s: Sys, es: seq<Event>, more: seq<Event>)
    requires Typed(c, s)
    ensures Run(c, s, es + more) == Run(c, Run(c, s, es), more)
  {
    hide Step;
    if more == [] {
      assert es + more == es;
    } else {
      RunAppend(c, s, es, more[..|more| - 1]);
      assert (es + more)[..|es + more| - 1] == es + more[..|more| - 1];
    }
  }

  /** Own steps, and polls that begin. */
  predicate Undisturbed(es: seq<Event>) {
    forall i | 0 <= i < |es| :: Own(es[i]) || es[i] == PollBegin
  }

  /** Whatever is under way comes to its end by own steps. */
  lemma {:induction false} Settles(c: Limits, s: Sys) returns (es: seq<Event>)
    requires Live(c, s)
    ensures Undisturbed(es)
    ensures var r := Run(c, s, es);
            Live(c, r) && Calm(r) && SameWrites(s, r) && (Staging(s) ==> Staging(r))
    decreases Measure(s)
  {
    hide *;
    LiveTyped(c, s);
    RunSnoc(c, s, [], PollBegin);
    SameItself(s);
    if Calm(s) {
      es := [];
      NothingDisturbs();
    } else {
      var e := CalmOrStep(c, s);
      OwnStepLives(c, s, e);
      var t := Step(c, s, e);
      LiveTyped(c, t);
      var rest := Settles(c, t);
      es := [e] + rest;
      RunCons(c, s, e, rest);
      UndisturbedCons(e, rest);
      SameWritesOn(s, s, t, Run(c, t, rest));
    }
  }

  lemma SameItself(s: Sys)
    ensures SameWrites(s, s)
  {
  }

  lemma NothingDisturbs()
    ensures Undisturbed([])
  {
  }

  lemma UndisturbedCons(e: Event, es: seq<Event>)
    requires Own(e) && Undisturbed(es)
    ensures Undisturbed([e] + es)
  {
    hide Own;
  }

  lemma PollStarts(c: Limits, s: Sys)
    requires Live(c, s) && Calm(s) && (s.slave.txPending ==> s.slave.tx != [])
    ensures var t := Step(c, s, PollBegin);
            Live(c, t) && Staging(t) && SameWrites(s, t)
  {
    StepKeeps(c, s, PollBegin);
    hide DeliveryInv, PutInv, KnownRequest;
  }

  /** With nothing about to be staged a calm session has delivered everything. */
  lemma CalmHasDelivered(c: Limits, s: Sys)
    requires Live(c, s) && Calm(s) && Staging(s)
    ensures s.pushed == TruncAll(s.accepted, c.masterBlob) && s.consumed == TruncAll(s.putSent, c.slaveBlob)
    ensures !s.slave.txPending
  {
    hide KnownRequest, TruncAll;
    var k := |s.pushed|;
    assert s.accepted[k..] == [];
    assert s.accepted[..k] == s.accepted;
    assert s.consumed + [] + [] == s.consumed;
  }

  /** From every state without a failure and without an empty write pending, the threads by their own
      steps get every blob to the other side that either side's write took. */
  lemma {:induction false} EverythingArrives(c: Limits, s: Sys) returns (es: seq<Event>)
    requires Live(c, s) && (s.slave.txPending ==> s.slave.tx != [])
    ensures Undisturbed(es)
    ensures var r := Run(c, s, es);
            && Live(c, r) && Calm(r) && SameWrites(s, r) && !r.slave.txPending
            && r.pushed == TruncAll(s.accepted, c.masterBlob) && r.consumed == TruncAll(s.putSent, c.slaveBlob)
  {
    hide Inv, Run, Step, Calm, Staging, TruncAll, Own, SameWrites;
    LiveTyped(c, s);
    var before := Settles(c, s);
    var t := Run(c, s, before);
    SettlingWedgesNothing(c, s, before);
    PollStarts(c, t);
    var u := Step(c, t, PollBegin);
    var after := Settles(c, u);
    es := before + ([PollBegin] + after);
    RunAppend(c, s, before, [PollBegin] + after);
    RunCons(c, t, PollBegin, after);
    CalmHasDelivered(c, Run(c, u, after));
    Undisturbs(before, after);
    SameWritesOn(s, t, u, Run(c, u, after));
  }

  lemma LiveTyped(c: Limits, s: Sys)
    requires Live(c, s)
    ensures Inv(c, s) && Typed(c, s)
  {
  }

  lemma Undisturbs(before: seq<Event>, after: seq<Event>)
    requires Undisturbed(before) && Undisturbed(after)
    ensures Undisturbed(before + ([PollBegin] + after))
  {
    hide Own;
  }

  lemma SameWritesOn(s: Sys, t: Sys, u: Sys, r: Sys)
    requires SameWrites(s, t) && SameWrites(t, u) && SameWrites(u, r)
    ensures SameWrites(s, r) && r.accepted == s.accepted && r.putSent == s.putSent
  {
  }

  /** Own steps stage and clear a pending write but never leave an empty one. */
  lemma {:induction false} SettlingWedgesNothing(c: Limits, s: Sys, es: seq<Event>)
    requires Inv(c, s) && Undisturbed(es) && (s.slave.txPending ==> s.slave.tx != [])
    ensures var r := Run(c, s, es);
            Inv(c, r) && (r.slave.txPending ==> r.slave.tx != [])
  {
    if es != [] {
      var n := |es| - 1;
      var r := Run(c, s, es[..n]);
      SettlingWedgesNothing(c, s, es[..n]);
      StepKeeps(c, r, es[n]);
      StepWedgesNothing(c, r, es[n]);
      hide Inv, Step, Own;
    }
  }

  lemma StepWedgesNothing(c: Limits, s: Sys, e: Event)
    requires Inv(c, s) && (Own(e) || e == PollBegin) && (s.slave.txPending ==> s.slave.tx != [])
    ensures var r := Step(c, s, e); r.slave.txPending ==> r.slave.tx != []
  {
    hide DeliveryInv, PutInv, ChannelInv, FailedInv, KnownRequest;
    if e.SlaveInterpret? && s.server.Interpreting? {
      if Slave.Cmd(s.slave) == CMD_GIVE_ME_ANY_DATA {
        Slave.InterpretPoll(c, s.slave);
      } else {
        Slave.InterpretOther(c, s.slave);
      }
      hide Slave.Interpreted;
    } else if !OfSlave(e) {
      MasterEventOps(c, s, e);
      hide Step;
    } else {
      hide Slave.Interpreted, Served, Answer;
    }
  }

  /** At most n elements of a blob, the beginning. */
  function Cut(blob: seq<byte>, n: nat): seq<byte> {
    if |blob| <= n then blob else blob[..n]
  }

  lemma CutLast(blobs: seq<seq<byte>>, blob: seq<byte>, n: nat)
    ensures TruncAll(blobs + [blob], n) == TruncAll(blobs, n) + [Cut(blob, n)]
  {
  }

  lemma AppWriteKeepsSlave(c: Limits, s: Sys, buf: seq<byte>)
    requires Typed(c, s)
    ensures Step(c, s, AppWrite(buf)).slave == s.slave && Step(c, s, AppWrite(buf)).server == s.server
  {
    hide SlaveServes, SlaveInterprets, SlaveWrites, MasterReceives;
  }

  /** A write taken by the slave, at any point of a session, comes out of the master's port behind all
      that was taken before, once the threads have gone on by themselves. */
  lemma {:induction false} SlaveWriteArrives(c: Limits, s: Sys, es: seq<Event>, buf: seq<byte>) returns (more: seq<Event>)
    requires Init(c, s) && 0 < |buf| <= c.slaveBlob
    requires var t := Run(c, s, es); !t.failed && !t.server.Ended? && !t.slave.txPending
    ensures Undisturbed(more)
    ensures Run(c, s, es + [SlaveWrite(buf)] + more).pushed
         == TruncAll(Run(c, s, es).accepted, c.masterBlob) + [Cut(buf, c.masterBlob)]
  {
    var t, u := Run(c, s, es), Run(c, s, es + [SlaveWrite(buf)]);
    SlaveTakesWrite(c, s, es, buf);
    RunKeeps(c, s, es + [SlaveWrite(buf)]);
    hide Inv, Run, Init, TruncAll, Cut, Undisturbed;
    more := EverythingArrives(c, u);
    RunAppend(c, s, es + [SlaveWrite(buf)], more);
    CutLast(t.accepted, buf, c.masterBlob);
  }

  /** The same for a write of the master, cut by its own limit and by the slave's. */
  lemma {:induction false} MasterWriteArrives(c: Limits, s: Sys, es: seq<Event>, buf: seq<byte>) returns (more: seq<Event>)
    requires Init(c, s)
    requires var t := Run(c, s, es);
             && !t.failed && !t.server.Ended? && MasterLockFree(t)
             && (t.slave.txPending ==> t.slave.tx != [])
    ensures Undisturbed(more)
    ensures Run(c, s, es + [AppWrite(buf)] + more).consumed
         == TruncAll(Run(c, s, es).putSent, c.slaveBlob) + [Cut(Cut(buf, c.masterBlob), c.slaveBlob)]
  {
    var t, u := Run(c, s, es), Run(c, s, es + [AppWrite(buf)]);
    MasterSendsWrite(c, s, es, buf);
    RunKeeps(c, s, es + [AppWrite(buf)]);
    RunSnoc(c, s, es, AppWrite(buf));
    AppWriteKeepsSlave(c, t, buf);
    hide Inv, Run, Init, Step, TruncAll, Undisturbed;
    more := EverythingArrives(c, u);
    RunAppend(c, s, es + [AppWrite(buf)], more);
    CutLast(t.putSent, Cut(buf, c.masterBlob), c.slaveBlob);
  }
}
