/** One Modbus TCP session as a state machine: the master's application and rx task, the slave's
    application and rx task, and the requests and answers between them, in any interleaving. */
module ModbusSession {
  import opened Bytes
  import opened ModbusRegisters
  import opened RxPort
  import Slave = ModbusSlave
  import Master = ModbusMaster

  /** Where the master's rx task is; every phase but Idle and Stopped holds the master's lock. */
  datatype RxPhase = Idle | SentPoll | SentHeader | SentPayload(n: nat) | Stopped

  /** Where the master's `write` is; Waiting holds the master's lock. */
  datatype AppPhase = AppIdle | AppWaiting(blob: seq<byte>)

  /** The slave's rx task: about to receive, between its reply and its interpretation, or gone. */
  datatype ServerPhase = Receiving | Interpreting | Ended

  datatype Tagged<T> = Tagged(id: nat, msg: T)

  /** The last four fields record the run: blobs accepted by the slave's write, blobs the master
      pushed into its fifo, blobs the master's write sent, blobs the slave consumed. */
  datatype Sys = Sys(
    rx: RxPhase, app: AppPhase, masterPort: Port,
    server: ServerPhase, slave: Slave.State,
    inbox: seq<Tagged<Request>>, outbox: seq<Tagged<Response>>, lastId: nat, up: bool, failed: bool,
    accepted: seq<seq<byte>>, pushed: seq<seq<byte>>, putSent: seq<seq<byte>>, consumed: seq<seq<byte>>)

  datatype Event =
    | PollBegin
    | MasterReceive
    | PollFail
    | AppWrite(buf: seq<byte>)
    | AppWriteFail
    | MasterRead(n: nat)
    | SlaveServe
    | SlaveReplyFails
    | SlaveInterpret
    | SlaveEnd
    | SlaveWrite(buf: seq<byte>)
    | SlaveRead(n: nat)

  predicate MasterLockFree(s: Sys) {
    (s.rx.Idle? || s.rx.Stopped?) && s.app.AppIdle?
  }

  function Call(s: Sys, r: Request): Sys {
    s.(inbox := s.inbox + [Tagged(s.lastId + 1, r)], lastId := s.lastId + 1)
  }

  /** A failed poll call ends the rx task for good, marking the slave dead or not. */
  function RxFails(s: Sys, mark: bool): Sys {
    s.(rx := Stopped, failed := true, masterPort := if mark then s.masterPort.(dead := true) else s.masterPort)
  }

  /** A failed write disconnects. The slave serves one session only, so no later call succeeds. */
  function AppFails(s: Sys): Sys {
    s.(app := AppIdle, failed := true, up := false)
  }

  function PollBegins(s: Sys): Sys {
    if !(MasterLockFree(s) && s.rx.Idle? && s.masterPort.enabled) then s
    else if !s.up then RxFails(s, true)
    else Call(s, POLL_REQUEST).(rx := SentPoll)
  }

  function AppWrites(c: Limits, s: Sys, buf: seq<byte>): Sys
    requires Configured(c)
  {
    var blob := Trunc(buf, c.masterBlob);
    if !(MasterLockFree(s) && s.masterPort.enabled) then s
    else if !s.up then AppFails(s)
    else Call(s, PutRequest(c, blob)).(app := AppWaiting(blob), putSent := s.putSent + [blob])
  }

  /** The waiting master thread takes the next answer; a mismatched transaction id is an error. */
  function MasterReceives(c: Limits, s: Sys): Sys
    requires Configured(c) && Bounded(s.masterPort)
  {
    if s.outbox == [] || MasterLockFree(s) then s
    else
      var a := s.outbox[0].msg;
      var known := s.outbox[0].id == s.lastId;
      var t := s.(outbox := s.outbox[1..]);
      if s.app.AppWaiting? then
        if known && a == Wrote(2 + RegsFor(|s.app.blob|)) then t.(app := AppIdle) else AppFails(t)
      else match s.rx
        case SentPoll =>
          if known && a == Wrote(2) then Call(t, HeaderRequest(c)).(rx := SentHeader) else RxFails(t, true)
        case SentHeader =>
          if !known || !Master.HeaderOk(a) then RxFails(t, c.markAll)
          else if Master.Announced(c, a) == 0 then t.(rx := Idle)
          else Call(t, PayloadRequest(c, Master.Announced(c, a))).(rx := SentPayload(Master.Announced(c, a)))
        case SentPayload(n) =>
          if !known || !Master.PayloadOk(n, a) then RxFails(t, c.markAll)
          else t.(rx := Idle, masterPort := Pushed(s.masterPort, Unpack(a.vals, n)), pushed := s.pushed + [Unpack(a.vals, n)])
        case _ => s
  }

  function SlaveServes(s: Sys, answered: bool): Sys {
    if !s.server.Receiving? || s.inbox == [] then s
    else
      var q := s.inbox[0];
      var t := s.(inbox := s.inbox[1..], slave := s.slave.(tab := Served(s.slave.tab, q.msg)));
      if answered then t.(server := Interpreting, outbox := s.outbox + [Tagged(q.id, Answer(s.slave.tab, q.msg))])
      else t.(server := Ended)
  }

  function SlaveInterprets(c: Limits, s: Sys): Sys
    requires Configured(c) && Slave.WellFormed(c, s.slave)
  {
    if !s.server.Interpreting? then s
    else s.(server := Receiving, slave := Slave.Interpreted(c, s.slave),
            consumed := s.consumed + if Slave.Cmd(s.slave) == CMD_PUT_BLOB then [Slave.PutBlobIn(c, s.slave)] else [])
  }

  function SlaveWrites(c: Limits, s: Sys, buf: seq<byte>): Sys {
    s.(slave := Slave.AfterWrite(c, s.slave, buf),
       accepted := s.accepted + if Slave.WriteOutcome(c, s.slave, buf).Accepted? then [buf] else [])
  }

  predicate Typed(c: Limits, s: Sys) {
    Configured(c) && Bounded(s.masterPort) && Slave.WellFormed(c, s.slave)
  }

  /** An event that is not enabled leaves the state as it is. */
  function Step(c: Limits, s: Sys, e: Event): (t: Sys)
    requires Typed(c, s)
    ensures Typed(c, t)
  {
    match e
    case PollBegin => PollBegins(s)
    case MasterReceive => MasterReceives(c, s)
    case PollFail => if s.rx.SentPoll? || s.rx.SentHeader? || s.rx.SentPayload? then RxFails(s, s.rx.SentPoll? || c.markAll) else s
    case AppWrite(buf) => AppWrites(c, s, buf)
    case AppWriteFail => if s.app.AppWaiting? then AppFails(s) else s
    case MasterRead(n) => if MasterLockFree(s) then s.(masterPort := AfterRead(s.masterPort, n)) else s
    case SlaveServe => SlaveServes(s, true)
    case SlaveReplyFails => SlaveServes(s, false)
    case SlaveInterpret => SlaveInterprets(c, s)
    case SlaveEnd => if s.server.Receiving? then s.(server := Ended) else s
    case SlaveWrite(buf) => SlaveWrites(c, s, buf)
    case SlaveRead(n) => s.(slave := s.slave.(port := AfterRead(s.slave.port, n)))
  }

  function Run(c: Limits, s: Sys, es: seq<Event>): (t: Sys)
    requires Typed(c, s)
    ensures Typed(c, t)
  {
    if es == [] then s else Step(c, Run(c, s, es[..|es| - 1]), es[|es| - 1])
  }

  /** Both ends attached and enabled, nothing in transit; register contents as `attach` leaves them. */
  predicate Init(c: Limits, s: Sys) {
    && Typed(c, s)
    && s.rx.Idle? && s.app.AppIdle? && s.server.Receiving? && s.inbox == [] && s.outbox == []
    && s.up && !s.failed
    && s.masterPort.enabled && s.slave.port.enabled
    && Slave.Cmd(s.slave) == CMD_NONE && !s.slave.txPending && s.slave.tx == []
    && Slave.StagedBlob(c, s.slave.tab) == [] && Slave.StageInRange(c, s.slave.tab)
    && s.accepted == [] && s.pushed == [] && s.putSent == [] && s.consumed == []
  }

  // ---- invariants -------------------------------------------------------------------------

  predicate KnownRequest(c: Limits, r: Request)
    requires Configured(c)
  {
    || r == POLL_REQUEST
    || r == HeaderRequest(c)
    || (r.ReadRegs? && r.at == S2mData(c) && r.count <= RegsFor(c.maxBytes))
    || (r.WriteRegs? && r.at == M2S_CMD && |r.vals| >= 2 && r.vals[0] == CMD_PUT_BLOB && |r.vals| <= 2 + RegsFor(c.maxBytes))
  }

  /** The mailbox discipline: whenever the slave is about to receive, its command cell is NONE. */
  predicate MailboxInv(c: Limits, s: Sys)
    requires Typed(c, s)
  {
    && (forall i | 0 <= i < |s.inbox| :: KnownRequest(c, s.inbox[i].msg))
    && Slave.Cmd(s.slave) in {CMD_NONE, CMD_PUT_BLOB, CMD_GIVE_ME_ANY_DATA}
    && (s.server.Receiving? ==> Slave.Cmd(s.slave) == CMD_NONE)
    && s.masterPort.enabled && s.slave.port.enabled
    && (s.rx.SentPoll? || s.rx.SentHeader? || s.rx.SentPayload? ==> s.app.AppIdle?)
    && (s.slave.txPending || s.slave.tx == [])
    && Slave.StageInRange(c, s.slave.tab)
  }

  /** The request the lock holder waits on. */
  function Outstanding(c: Limits, s: Sys): Request
    requires Configured(c)
  {
    if s.app.AppWaiting? then PutRequest(c, Trunc(s.app.blob, c.masterBlob))
    else match s.rx
      case SentPoll => POLL_REQUEST
      case SentHeader => HeaderRequest(c)
      case SentPayload(n) => PayloadRequest(c, n)
      case _ => POLL_REQUEST
  }

  /** Until the first failure at most one request or answer is in transit, and it is the one awaited;
      there is none only if the slave could not answer. */
  predicate ChannelInv(c: Limits, s: Sys)
    requires Typed(c, s)
  {
    && s.up && !s.rx.Stopped?
    && (MasterLockFree(s) ==> s.inbox == [] && s.outbox == [])
    && (!MasterLockFree(s) ==>
          || (s.inbox == [Tagged(s.lastId, Outstanding(c, s))] && s.outbox == [])
          || (s.inbox == [] && s.outbox == [] && s.server.Ended?)
          || (s.inbox == [] && |s.outbox| == 1 && s.outbox[0].id == s.lastId))
    && (s.app.AppWaiting? ==> |s.app.blob| <= c.masterBlob)
    && (s.app.AppWaiting? && s.outbox != [] ==> s.outbox[0].msg == Wrote(2 + RegsFor(|s.app.blob|)))
    && (s.rx.SentPoll? && s.outbox != [] ==> s.outbox[0].msg == Wrote(2))
    && (s.rx.SentHeader? && s.outbox != [] ==>
          s.outbox[0].msg == Values(s.slave.tab[S2mStatus(c)..S2mStatus(c) + 2]) && Slave.Cmd(s.slave) == CMD_NONE)
    && (s.rx.SentPayload? ==> Slave.Cmd(s.slave) == CMD_NONE)
    && (s.rx.SentPayload? && s.outbox != [] ==>
          s.rx.n <= c.maxBytes && s.outbox[0].msg == Values(s.slave.tab[S2mData(c)..S2mData(c) + RegsFor(s.rx.n)]))
    && (s.rx.SentHeader? && s.inbox == [] ==> Slave.Cmd(s.slave) == CMD_NONE)
    && (Slave.Cmd(s.slave) == CMD_GIVE_ME_ANY_DATA ==> (s.rx.SentPoll? && s.inbox == []) || s.rx.SentHeader?)
    && (s.rx.SentPayload? ==>
          Slave.StagedBlob(c, s.slave.tab) != [] && s.rx.n == Min(s.slave.tab[S2mLen(c)], c.masterBlob))
  }

  /** The current poll has been interpreted, so the staged blob is this cycle's. */
  predicate Fresh(s: Sys)
    requires |s.slave.tab| > 0
  {
    match s.rx
    case SentPoll => s.inbox == [] && Slave.Cmd(s.slave) != CMD_GIVE_ME_ANY_DATA
    case SentHeader => Slave.Cmd(s.slave) != CMD_GIVE_ME_ANY_DATA
    case SentPayload(_) => true
    case _ => false
  }

  function Staged(c: Limits, s: Sys): seq<seq<byte>>
    requires Typed(c, s)
  {
    if Fresh(s) then Slave.StagedBlob(c, s.slave.tab) else []
  }

  function Pending(s: Sys): seq<seq<byte>> {
    if s.slave.txPending then [s.slave.tx] else []
  }

  /** Accepted blobs = pushed (as the master's own limit cuts them), then staged, then pending. */
  predicate DeliveryInv(c: Limits, s: Sys)
    requires Typed(c, s)
  {
    && |s.pushed| <= |s.accepted|
    && s.pushed == TruncAll(s.accepted[..|s.pushed|], c.masterBlob)
    && s.accepted[|s.pushed|..] == Staged(c, s) + Pending(s)
  }

  function InMap(c: Limits, s: Sys): seq<seq<byte>>
    requires Typed(c, s)
  {
    if Slave.Cmd(s.slave) == CMD_PUT_BLOB then [Slave.PutBlobIn(c, s.slave)] else []
  }

  function InTransit(c: Limits, s: Sys): seq<seq<byte>> {
    if s.app.AppWaiting? && s.inbox != [] then [Trunc(s.app.blob, c.slaveBlob)] else []
  }

  /** Blobs sent by the master's write = consumed, then the one in the map, then the one in transit. */
  predicate PutInv(c: Limits, s: Sys)
    requires Typed(c, s)
  {
    s.consumed + InMap(c, s) + InTransit(c, s) == TruncAll(s.putSent, c.slaveBlob)
  }

  /** After a failure nothing is pushed any more. */
  predicate FailedInv(c: Limits, s: Sys)
    requires Typed(c, s)
  {
    && (s.rx.Stopped? || (s.rx.Idle? && !s.up))
    && |s.pushed| <= |s.accepted|
    && s.pushed == TruncAll(s.accepted[..|s.pushed|], c.masterBlob)
  }

  predicate Inv(c: Limits, s: Sys) {
    && Typed(c, s)
    && MailboxInv(c, s)
    && if s.failed then FailedInv(c, s) else ChannelInv(c, s) && DeliveryInv(c, s) && PutInv(c, s)
  }
}
