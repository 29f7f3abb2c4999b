/** Wake-up safety of CoAP publishing, and that without new requests everything gets published. */
module CoapDrain {
  import opened Bytes
  import opened Threads
  import opened BufferQueue
  import opened CoapPubwork
  import opened CoapPublish
  import Q = BufferQueueWaiters

  /** Events by which threads already under way make progress: no new request, no spurious wakeup,
      no libcoap traffic. */
  predicate IsSystemEvent(e: Event) {
    e.PublisherResumes? || e.WriteByte? || (e.SelectReturns? && e.pipe) || e.DrainRead? || e.CoapDone? || e.LoopGet?
  }

  /** Wake-up safety in every reachable state, and every published message is the one put. */
  lemma {:induction false} NothingStranded(s: State, es: seq<Event>)
    requires Init(s)
    ensures Inv(s)
    ensures var r := Run(s, es);
            && (r.q.ring.count > 0 ==>
                  || r.pipe > 0
                  || Count(r.writing, true) > 0
                  || r.loop.Drain? || r.loop == CoapIo || r.loop == Publishing || r.loop == Exited)
            && r.published <= r.q.puts
            && (r.loop != Exited ==> r.q.puts == r.published + Items(r.q.ring))
  {
    InitHolds(s);
    var r := Run(s, es);
    assert r.q.gets <= r.q.puts;
  }

  /** The loop has exited only if a request with empty topic and empty payload was taken. */
  lemma {:induction false} ExitNeedsAllEmpty(s: State, es: seq<Event>)
    requires Init(s)
    ensures Inv(s)
    ensures Run(s, es).loop == Exited ==> exists i :: 0 <= i < |Run(s, es).q.puts| && !Sendable(Run(s, es).q.puts[i])
  {
    InitHolds(s);
    var r := Run(s, es);
    if r.loop == Exited {
      assert r.q.puts[|r.q.gets| - 1] == r.q.gets[|r.q.gets| - 1];
    }
  }

  /** Exactly an all-empty request stops the loop, and nothing is published after it. */
  lemma LoopExitsIff(s: State, w: nat)
    requires Inv(s) && s.loop == Publishing && s.q.ring.count > 0 && Q.CanWake(s.q, Q.ParkedPut, w)
    ensures Step(s, LoopGet(w)).loop == Exited <==> !Sendable(s.q.ring.cells[s.q.ring.head])
  {
    GetStepFacts(s, w);
    RoundTripIff(s.q.ring.cells[s.q.ring.head]);
  }

  lemma ExitIsFinal(s: State, e: Event)
    requires Typed(s) && s.loop == Exited
    ensures Step(s, e).loop == Exited && Step(s, e).published == s.published
  {
    hide Q.Step, Q.Inv, Items, RingOk, Count, Enbuf, Debuf;
  }

  lemma {:induction false} NothingAfterExit(s: State, es: seq<Event>)
    requires Inv(s) && s.loop == Exited
    ensures Run(s, es).loop == Exited && Run(s, es).published == s.published
  {
    if es != [] {
      NothingAfterExit(s, es[..|es| - 1]);
      ExitIsFinal(Run(s, es[..|es| - 1]), es[|es| - 1]);
      hide Step;
    }
  }

  ghost predicate Reaches(s: State, t: State) {
    Inv(s) && exists es :: Run(s, es) == t
  }

  lemma ReachesNext(s: State, t: State, e: Event)
    requires Reaches(s, t)
    ensures Inv(t) && Reaches(s, Step(t, e))
  {
    var es :| Run(s, es) == t;
    assert (es + [e])[..|es|] == es;
    assert Run(s, es + [e]) == Step(t, e) by {
      hide Step, Inv;
    }
  }

  /** A publisher's put into the empty queue of a fresh system. */
  lemma FirstPublish(s: State, m: Msg)
    requires Init(s) && Self(s) > 0 && IsCString(m.topic)
    ensures Inv(s)
    ensures var q := s.q.(ring := Enqueued(s.q.ring, m), puts := [m]);
            && Step(s, Publish(0, m, 0)) == s.(q := q, writing := s.writing[0 := true])
            && q.ring.count == 1 && q.ring.cells[q.ring.head] == m
            && Q.In(q, Q.ParkedPut) == 0
  {
    InitHolds(s);
    NobodyWaits(s);
    hide Inv, Items, Count;
    assert s.q.phase[0 := Q.Outside] == s.q.phase;
    if Q.In(s.q, Q.ParkedPut) > 0 {
      var t := CountWitness(s.q.phase, Q.ParkedPut);
    }
  }

  lemma FirstByte(s: State, m: Msg) returns (t: State)
    requires Init(s) && Self(s) > 0 && IsCString(m.topic)
    ensures Reaches(s, t) && t.loop == Select && t.pipe == 1
    ensures t.q.ring.count == 1 && t.q.ring.cells[t.q.ring.head] == m && Q.In(t.q, Q.ParkedPut) == 0
  {
    FirstPublish(s, m);
    assert Reaches(s, s) by {
      assert Run(s, []) == s;
    }
    hide Inv, Reaches, Q.In, Enqueued, Items, Q.Init;
    ReachesNext(s, s, Publish(0, m, 0));
    var s1 := Step(s, Publish(0, m, 0));
    ReachesNext(s, s1, WriteByte(0));
    t := Step(s1, WriteByte(0));
  }

  /** The loop wakes up and has drained the pipe. */
  lemma PassBegins(s: State, t: State) returns (u: State)
    requires Reaches(s, t) && Typed(t) && t.loop == Select && t.pipe == 1
    ensures Reaches(s, u) && u.q == t.q && u.loop == Publishing
  {
    hide Inv, Reaches, Q.Typed, Q.Step;
    var t1 := t.(loop := Drain(true, false));
    ReachesNext(s, t, SelectReturns(true, false));
    var t2 := t1.(loop := Drain(false, false), pipe := 0);
    ReachesNext(s, t1, DrainRead);
    u := t2.(loop := Publishing);
    ReachesNext(s, t2, DrainRead);
  }

  /** A fresh system with a publisher can get there: one request with empty topic and payload. */
  lemma {:induction false} ExitIsReached(s: State) returns (t: State)
    requires Init(s) && Self(s) > 0
    ensures Reaches(s, t) && t.loop == Exited
  {
    var m := Msg([], []);
    var s1 := FirstByte(s, m);
    var s2 := PassBegins(s, s1);
    ReachesNext(s, s2, LoopGet(0));
    LoopExitsIff(s2, 0);
    hide Inv, Reaches, Step;
    t := Step(s2, LoopGet(0));
  }

  // ---- termination ------------------------------------------------------------------------------

  ghost function PhaseRank(l: Loop): nat {
    match l
    case Select => 6
    case Drain(first, _) => if first then 5 else 12
    case CoapIo => 11
    case Publishing => 10
    case Exited => 0
  }

  /** Publishers not yet through, queued messages, owed bytes, loop position, woken publishers. */
  datatype Measure = Measure(waiting: nat, queued: nat, owed: nat, position: nat, woken: nat)

  ghost function MeasureOf(s: State): Measure {
    Measure(Q.In(s.q, Q.ParkedPut) + Q.In(s.q, Q.WokenPut), s.q.ring.count, Count(s.writing, true),
            8 * s.pipe + PhaseRank(s.loop), Q.In(s.q, Q.WokenPut))
  }

  predicate Less(a: Measure, b: Measure) {
    if a.waiting != b.waiting then a.waiting < b.waiting
    else if a.queued != b.queued then a.queued < b.queued
    else if a.owed != b.owed then a.owed < b.owed
    else if a.position != b.position then a.position < b.position
    else a.woken < b.woken
  }

  lemma ResumeCounts(s: State, t: nat, w: nat)
    requires Inv(s) && t < Self(s) && Q.Enabled(s.q, Q.ResumePut(t, w))
    ensures var q' := Q.Step(s.q, Q.ResumePut(t, w));
            && Q.In(q', Q.WokenPut) == Q.In(s.q, Q.WokenPut) - 1
            && (if Q.Full(s.q)
                then q'.ring == s.q.ring && q'.puts == s.q.puts && Q.In(q', Q.ParkedPut) == Q.In(s.q, Q.ParkedPut) + 1
                else |q'.puts| > |s.q.puts| && Q.In(q', Q.ParkedPut) == Q.In(s.q, Q.ParkedPut))
  {
    NobodyWaits(s);
    if w < |s.q.phase| && s.q.phase[w] == Q.ParkedGet {
      CountPositive(s.q.phase, w, Q.ParkedGet);
    }
    hide Count, Items, RingOk, Inv;
    var p := if Q.Full(s.q) then Q.ParkedPut else Q.Outside;
    Q.MoveCounts(s.q, t, p);
    assert Q.Step(s.q, Q.ResumePut(t, w)).phase == Q.Moved(s.q, t, p).phase;
    assert Q.In(Q.Step(s.q, Q.ResumePut(t, w)), Q.WokenPut) == Q.In(Q.Moved(s.q, t, p), Q.WokenPut);
    assert Q.In(Q.Step(s.q, Q.ResumePut(t, w)), Q.ParkedPut) == Q.In(Q.Moved(s.q, t, p), Q.ParkedPut);
  }

  lemma LoopGetCounts(s: State, w: nat)
    requires Inv(s) && s.q.ring.count > 0 && Q.CanWake(s.q, Q.ParkedPut, w)
    ensures var q' := Q.Step(s.q, Q.Get(Self(s), Q.NoWait, w));
            Q.In(q', Q.ParkedPut) + Q.In(q', Q.WokenPut) == Q.In(s.q, Q.ParkedPut) + Q.In(s.q, Q.WokenPut)
  {
    var t := Self(s);
    var s1 := s.q.(ring := Dequeued(s.q.ring), gets := s.q.gets + [s.q.ring.cells[s.q.ring.head]]);
    hide Count, Items, RingOk;
    var s2 := Q.Signal(s1, Q.ParkedPut, Q.WokenPut, w);
    if w < |s.q.phase| && s.q.phase[w] == Q.ParkedPut {
      Q.MoveCounts(s1, w, Q.WokenPut);
    }
    Q.MoveCounts(s2, t, Q.Outside);
    assert forall p :: Q.In(s1, p) == Q.In(s.q, p);
  }

  /** Every system event either does nothing or brings the measure strictly down, so no schedule
      of them goes on for ever. */
  lemma SystemEventDecreases(s: State, e: Event)
    requires Inv(s) && IsSystemEvent(e)
    ensures Step(s, e) == s || Less(MeasureOf(Step(s, e)), MeasureOf(s))
  {
    match e
    case PublisherResumes(t, w) =>
      if t < Self(s) && Q.Enabled(s.q, Q.ResumePut(t, w)) {
        ResumeCounts(s, t, w);
      }
    case LoopGet(w) =>
      if s.loop == Publishing && s.q.ring.count > 0 && Q.CanWake(s.q, Q.ParkedPut, w) {
        LoopGetCounts(s, w);
        GetStepFacts(s, w);
      }
    case WriteByte(t) =>
      if t < Self(s) && s.writing[t] {
        CountUpdate(s.writing, t, false, true);
      }
    case SelectReturns(_, _) =>
    case DrainRead =>
    case CoapDone =>
  }

  /** No system event can do anything here. */
  ghost predicate Quiet(s: State)
    requires Typed(s)
  {
    forall e | IsSystemEvent(e) :: Step(s, e) == s
  }

  /** When only system events are left and none can act, everything has been delivered: the queue
      is empty, no publisher waits or owes a byte, and all accepted messages were published. */
  lemma QuietMeansDelivered(s: State)
    requires Inv(s) && s.loop != Exited && Quiet(s)
    ensures Delivered(s) && s.loop == Select && s.pipe == 0
  {
    var w := Q.SomeParked(s.q, Q.ParkedPut);
    assert Step(s, DrainRead) == s && Step(s, CoapDone) == s && Step(s, SelectReturns(true, false)) == s;
    assert Step(s, LoopGet(w)) == s;
    if s.loop == Publishing && s.q.ring.count > 0 {
      GetStepFacts(s, w);
    }
    forall t | 0 <= t < Self(s)
      ensures !s.writing[t] && s.q.phase[t] != Q.WokenPut
    {
      assert Step(s, WriteByte(t)) == s;
      var v := Q.SomeParked(s.q, Q.ParkedGet);
      assert Step(s, PublisherResumes(t, v)) == s;
      if s.q.phase[t] == Q.WokenPut {
        ResumeCounts(s, t, v);
      }
    }
    NobodyOwes(s.writing);
    assert s.q.ring.count == 0;
    assert Items(s.q.ring) == [];
    NobodyWoken(s);
    forall t | 0 <= t < Self(s)
      ensures s.q.phase[t] == Q.Outside
    {
      if s.q.phase[t] == Q.ParkedPut {
        CountPositive(s.q.phase, t, Q.ParkedPut);
      }
    }
  }

  lemma {:induction false} NobodyOwes(writing: seq<bool>)
    requires forall t | 0 <= t < |writing| :: !writing[t]
    ensures Count(writing, true) == 0
  {
    if writing != [] {
      NobodyOwes(writing[..|writing| - 1]);
    }
  }

  lemma NobodyWoken(s: State)
    requires Typed(s) && Roles(s) && forall t | 0 <= t < Self(s) :: s.q.phase[t] != Q.WokenPut
    ensures Q.In(s.q, Q.WokenPut) == 0
  {
    if Q.In(s.q, Q.WokenPut) > 0 {
      var t := CountWitness(s.q.phase, Q.WokenPut);
    }
  }

  ghost predicate AllSendable(s: State) {
    && Typed(s)
    && (forall i | 0 <= i < |s.q.puts| :: Sendable(s.q.puts[i]))
    && (forall t | 0 <= t < |s.q.phase| && s.q.phase[t] != Q.Outside :: Sendable(s.q.item[t]))
  }

  lemma SentIsSendable(s: State, t: nat, w: nat)
    requires Inv(s) && AllSendable(s) && t < Self(s)
    ensures AllSendable(AfterPutStep(s, t, Q.ResumePut(t, w)))
  {
    PutStepKeeps(s, t, Q.ResumePut(t, w));
    NobodyWaits(s);
    hide Count, Items, RingOk, WakeSafe, Faithful, Roles;
  }

  lemma SystemEventKeepsSendable(s: State, e: Event)
    requires Inv(s) && AllSendable(s) && s.loop != Exited && IsSystemEvent(e)
    ensures AllSendable(Step(s, e)) && Step(s, e).loop != Exited
  {
    match e
    case PublisherResumes(t, w) =>
      if t < Self(s) {
        SentIsSendable(s, t, w);
      }
    case LoopGet(w) =>
      if s.loop == Publishing && s.q.ring.count > 0 && Q.CanWake(s.q, Q.ParkedPut, w) {
        StepKeeps(s, e);
        GetStepFacts(s, w);
        QueuedIsPut(s.q);
        RoundTripIff(s.q.ring.cells[s.q.ring.head]);
      }
    case WriteByte(t) =>
    case SelectReturns(_, _) =>
    case DrainRead =>
    case CoapDone =>
  }

  ghost predicate Delivered(s: State)
    requires Typed(s)
  {
    && s.q.ring.count == 0 && s.published == s.q.puts
    && forall t | 0 <= t < Self(s) :: s.q.phase[t] == Q.Outside && !s.writing[t]
  }

  lemma NextSystemEvent(s: State) returns (e: Event)
    requires Inv(s) && AllSendable(s) && s.loop != Exited && !Quiet(s)
    ensures IsSystemEvent(e) && Less(MeasureOf(Step(s, e)), MeasureOf(s))
    ensures Inv(Step(s, e)) && AllSendable(Step(s, e)) && Step(s, e).loop != Exited
  {
    e :| IsSystemEvent(e) && Step(s, e) != s;
    hide Step, Inv, MeasureOf, AllSendable, Quiet;
    SystemEventDecreases(s, e);
    SystemEventKeepsSendable(s, e);
    StepKeeps(s, e);
  }

  /** From any reachable state with sendable requests, the system on its own runs to a state where
      every accepted message is published and every publisher has returned. */
  lemma {:induction false} RunsToDelivery(s: State) returns (es: seq<Event>)
    requires Inv(s) && AllSendable(s) && s.loop != Exited
    ensures forall i | 0 <= i < |es| :: IsSystemEvent(es[i])
    ensures Delivered(Run(s, es))
    decreases MeasureOf(s).waiting, MeasureOf(s).queued, MeasureOf(s).owed, MeasureOf(s).position, MeasureOf(s).woken
  {
    assert Typed(s);
    hide Step, Inv, MeasureOf, AllSendable, Quiet, Delivered, IsSystemEvent, Typed;
    if Quiet(s) {
      es := [];
      QuietMeansDelivered(s);
    } else {
      hide Run;
      var e := NextSystemEvent(s);
      var rest := RunsToDelivery(Step(s, e));
      es := [e] + rest;
      RunFrom(s, e, rest);
    }
  }

  lemma {:induction false} RunFrom(s: State, e: Event, es: seq<Event>)
    requires Inv(s)
    ensures Inv(Step(s, e)) && Run(s, [e] + es) == Run(Step(s, e), es)
  {
    hide Step, Inv;
    StepKeeps(s, e);
    if es == [] {
      assert [e] + es == [e] && [e][..0] == [];
    } else {
      var pre := es[..|es| - 1];
      RunFrom(s, e, pre);
      assert ([e] + es)[..|es|] == [e] + pre;
    }
  }
}
