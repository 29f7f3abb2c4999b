/** CoAP publishing: any number of publishers put into the bounded queue and then write a wake
    byte; the I/O loop sleeps in select, drains the pipe, and then drains the queue. */
module CoapPublish {
  import opened Bytes
  import opened Threads
  import opened BufferQueue
  import opened CoapPubwork
  import Q = BufferQueueWaiters

  /** Drain(first, coap): reading the wake pipe, `first` before the first read, `coap` when the
      libcoap descriptor is to be served in the same pass. */
  datatype Loop = Select | Drain(first: bool, coap: bool) | CoapIo | Publishing | Exited

  /** `q` runs publishers 0 .. n-1 and, as thread n, the loop; a queued item is the request whose
      encoding the buffer holds. `writing[t]`: publisher t has put but not yet written its byte. */
  datatype State = State(q: Q.State<Msg>, writing: seq<bool>, pipe: nat, pipeRoom: nat, loop: Loop, published: seq<Msg>)

  datatype Event =
    | Publish(t: nat, m: Msg, w: nat)
    | PublisherResumes(t: nat, w: nat)
    | PublisherSpurious(t: nat)
    | WriteByte(t: nat)
    | SelectReturns(pipe: bool, coap: bool)
    | DrainRead
    | CoapDone
    | LoopGet(w: nat)

  function Self(s: State): nat { |s.writing| }

  ghost predicate Typed(s: State) {
    Q.Typed(s.q) && |s.q.phase| == Self(s) + 1 && s.pipeRoom > 0 && s.pipe <= s.pipeRoom
  }

  /** A publisher's queue step; if it put its item, the wake byte is now owed. */
  ghost function AfterPutStep(s: State, t: nat, e: Q.Event<Msg>): State
    requires Typed(s) && t < Self(s)
  {
    var q' := Q.Step(s.q, e);
    s.(q := q', writing := if |q'.puts| > |s.q.puts| then s.writing[t := true] else s.writing)
  }

  ghost function LoopGets(s: State, w: nat): State
    requires Typed(s)
  {
    var q' := Q.Step(s.q, Q.Get(Self(s), Q.NoWait, w));
    if !Q.Enabled(s.q, Q.Get(Self(s), Q.NoWait, w)) then s
    else if s.q.ring.count == 0 then s.(loop := Select)
    else
      var m := s.q.ring.cells[s.q.ring.head];
      match Debuf(Enbuf(m))
      case BadArgument => s.(q := q', loop := Exited)
      case Decoded(d) => s.(q := q', published := s.published + [d])
  }

  /** An event that is not enabled leaves the state as it is. Sends and select succeed. */
  ghost function Step(s: State, e: Event): State
    requires Typed(s)
  {
    match e
    case Publish(t, m, w) =>
      if t < Self(s) && !s.writing[t] && IsCString(m.topic) then AfterPutStep(s, t, Q.Put(t, m, Q.Forever, w)) else s
    case PublisherResumes(t, w) => if t < Self(s) then AfterPutStep(s, t, Q.ResumePut(t, w)) else s
    case PublisherSpurious(t) => if t < Self(s) then s.(q := Q.Step(s.q, Q.Spurious(t))) else s
    case WriteByte(t) =>
      if t < Self(s) && s.writing[t]
      then s.(writing := s.writing[t := false], pipe := if s.pipe < s.pipeRoom then s.pipe + 1 else s.pipe)
      else s
    case SelectReturns(pipe, coap) =>
      if s.loop != Select || (pipe && s.pipe == 0) || !(pipe || coap) then s
      else s.(loop := if pipe then Drain(true, coap) else CoapIo)
    case DrainRead =>
      if !s.loop.Drain? then s
      else if s.pipe > 0 then s.(pipe := s.pipe - Min(256, s.pipe), loop := Drain(false, s.loop.coap))
      else s.(loop := if s.loop.coap then CoapIo else Publishing)
    case CoapDone => if s.loop == CoapIo then s.(loop := Publishing) else s
    case LoopGet(w) => if s.loop == Publishing then LoopGets(s, w) else s
  }

  ghost predicate Init(s: State) {
    && Typed(s) && Q.Init(s.q) && s.pipe == 0 && s.loop == Select && s.published == []
    && forall t | 0 <= t < |s.writing| :: !s.writing[t]
  }

  // ---- invariants -------------------------------------------------------------------------------

  /** A publisher that owes a byte is outside the queue; nobody ever waits for an item. */
  ghost predicate Roles(s: State)
    requires Typed(s)
  {
    && (forall t | 0 <= t < |s.q.phase| :: s.q.phase[t] in {Q.Outside, Q.ParkedPut, Q.WokenPut})
    && s.q.phase[Self(s)] == Q.Outside
    && (forall t | 0 <= t < Self(s) && s.writing[t] :: s.q.phase[t] == Q.Outside)
    && (forall t | 0 <= t < Self(s) && s.q.phase[t] != Q.Outside :: IsCString(s.q.item[t].topic))
    && (forall i | 0 <= i < |s.q.puts| :: IsCString(s.q.puts[i].topic))
  }

  /** Wake-up safety: a queued message means a byte in the pipe, a publisher about to write one, or
      a loop pass that has not yet found the queue empty. */
  ghost predicate WakeSafe(s: State)
    requires Typed(s)
  {
    && (s.q.ring.count > 0 && s.loop == Select ==> s.pipe > 0 || Count(s.writing, true) > 0)
    && (s.loop.Drain? && s.loop.first ==> s.pipe > 0)
  }

  predicate Sendable(m: Msg) {
    m.topic != [] || m.data != []
  }

  /** What left the queue is what was published; the loop exits only on a message that is all empty. */
  ghost predicate Faithful(s: State)
    requires Typed(s)
  {
    if s.loop == Exited
    then |s.q.gets| > 0 && s.published == s.q.gets[..|s.q.gets| - 1] && !Sendable(s.q.gets[|s.q.gets| - 1])
    else s.published == s.q.gets
  }

  ghost predicate Inv(s: State) {
    Typed(s) && Q.Inv(s.q) && Roles(s) && WakeSafe(s) && Faithful(s)
  }

  lemma QueueStepTyped(s: State, e: Q.Event<Msg>)
    requires Typed(s) && Q.Inv(s.q) && !e.GivesUp?
    ensures Q.Inv(Q.Step(s.q, e)) && |Q.Step(s.q, e).phase| == |s.q.phase|
  {
    Q.StepKeeps(s.q, e);
    Q.CoreKeeps(s.q, e);
  }

  /** What a putter's queue step to q changes besides the ring. */
  ghost predicate PutsOrParks(s: State, t: nat, q: Q.State<Msg>)
    requires Typed(s) && t < Self(s)
  {
    && q.gets == s.q.gets
    && |q.phase| == |s.q.phase| == |q.item|
    && (forall i | 0 <= i < |s.q.phase| && i != t :: q.phase[i] == s.q.phase[i] && q.item[i] == s.q.item[i])
    && q.phase[t] in {Q.Outside, Q.ParkedPut, Q.WokenPut}
    && (q.phase[t] != Q.Outside ==> IsCString(q.item[t].topic))
    && (q.puts == s.q.puts || (|q.puts| == |s.q.puts| + 1 && q.puts[..|s.q.puts|] == s.q.puts
                               && IsCString(q.puts[|s.q.puts|].topic) && q.phase[t] == Q.Outside))
    && (q.puts == s.q.puts ==> q.ring == s.q.ring)
  }

  lemma PutStepFacts(s: State, t: nat, e: Q.Event<Msg>)
    requires Inv(s) && t < Self(s)
    requires (e.Put? && e.t == t && e.wait == Q.Forever && IsCString(e.x.topic)) || (e.ResumePut? && e.t == t)
    ensures PutsOrParks(s, t, Q.Step(s.q, e))
  {
    hide Items, RingOk, Count, Enqueued, Dequeued, WakeSafe, Faithful;
    NobodyWaits(s);
  }

  lemma NobodyWaits(s: State)
    requires Typed(s) && Roles(s)
    ensures Q.In(s.q, Q.ParkedGet) == 0 && Q.In(s.q, Q.WokenGet) == 0
  {
    if Q.In(s.q, Q.ParkedGet) > 0 {
      var t := CountWitness(s.q.phase, Q.ParkedGet);
    }
    if Q.In(s.q, Q.WokenGet) > 0 {
      var t := CountWitness(s.q.phase, Q.WokenGet);
    }
  }

  /** The state u after such a step. */
  ghost predicate PutLeads(s: State, t: nat, u: State)
    requires Typed(s) && t < Self(s)
  {
    && PutsOrParks(s, t, u.q)
    && u == s.(q := u.q, writing := if |u.q.puts| > |s.q.puts| then s.writing[t := true] else s.writing)
  }

  lemma PutRoles(s: State, t: nat, u: State)
    requires Typed(s) && Roles(s) && t < Self(s) && Typed(u) && PutLeads(s, t, u)
    requires !s.writing[t] || s.q.phase[t] != Q.Outside
    ensures Roles(u)
  {
  }

  lemma PutWakes(s: State, t: nat, u: State)
    requires Typed(s) && WakeSafe(s) && Faithful(s) && t < Self(s) && Typed(u) && PutLeads(s, t, u)
    ensures WakeSafe(u) && Faithful(u)
  {
    hide Items, RingOk, Sendable;
    if |u.q.puts| > |s.q.puts| {
      CountPositive(u.writing, t, true);
    }
  }

  lemma PutStepKeeps(s: State, t: nat, e: Q.Event<Msg>)
    requires Inv(s) && t < Self(s)
    requires (e.Put? && e.t == t && e.wait == Q.Forever && IsCString(e.x.topic) && !s.writing[t]) || (e.ResumePut? && e.t == t)
    ensures Inv(AfterPutStep(s, t, e))
  {
    QueueStepTyped(s, e);
    PutStepFacts(s, t, e);
    var u := AfterPutStep(s, t, e);
    assert !s.writing[t] || s.q.phase[t] != Q.Outside || u == s;
    assert Typed(u);
    hide Q.Step, PutsOrParks, Roles, WakeSafe, Faithful;
    if u != s {
      PutRoles(s, t, u);
      PutWakes(s, t, u);
    }
  }

  lemma GetStepFacts(s: State, w: nat)
    requires Inv(s) && s.q.ring.count > 0 && Q.CanWake(s.q, Q.ParkedPut, w)
    ensures var e := Q.Get(Self(s), Q.NoWait, w);
            var q' := Q.Step(s.q, e);
            && Q.Enabled(s.q, e)
            && q'.puts == s.q.puts && q'.item == s.q.item
            && q'.gets == s.q.gets + [s.q.ring.cells[s.q.ring.head]]
            && q'.ring.count == s.q.ring.count - 1
            && |q'.phase| == |s.q.phase| && q'.phase[Self(s)] == Q.Outside
            && (forall i | 0 <= i < |s.q.phase| ::
                  q'.phase[i] == s.q.phase[i] || (s.q.phase[i] == Q.ParkedPut && q'.phase[i] == Q.WokenPut))
            && IsCString(s.q.ring.cells[s.q.ring.head].topic)
  {
    hide Count;
    QueuedIsPut(s.q);
  }

  /** The oldest queued item is one that was put. */
  lemma QueuedIsPut(q: Q.State<Msg>)
    requires Q.Inv(q) && q.ring.count > 0
    ensures |q.gets| < |q.puts| && q.puts[|q.gets|] == q.ring.cells[q.ring.head]
  {
    DequeueTakesOldest(q.ring);
    assert q.puts[|q.gets|] == Items(q.ring)[0];
  }

  lemma LoopGetKeeps(s: State, w: nat)
    requires Inv(s) && s.loop == Publishing
    ensures Inv(LoopGets(s, w))
  {
    var e := Q.Get(Self(s), Q.NoWait, w);
    if Q.Enabled(s.q, e) && s.q.ring.count > 0 {
      QueueStepTyped(s, e);
      GetStepFacts(s, w);
      RoundTripIff(s.q.ring.cells[s.q.ring.head]);
      hide Q.Step, Q.Inv, Items, RingOk, Enbuf, Debuf;
      var u := LoopGets(s, w);
      assert u.q.gets[..|u.q.gets| - 1] == s.q.gets;
    }
  }

  lemma SpuriousKeeps(s: State, t: nat)
    requires Inv(s) && t < Self(s)
    ensures Inv(s.(q := Q.Step(s.q, Q.Spurious(t))))
  {
    QueueStepTyped(s, Q.Spurious(t));
    hide Items, RingOk, Q.Inv;
  }

  lemma LocalKeeps(s: State, e: Event)
    requires Inv(s) && (e.WriteByte? || e.SelectReturns? || e.DrainRead? || e.CoapDone?)
    ensures Inv(Step(s, e))
  {
    hide Items, RingOk, Q.Inv;
    if e.WriteByte? && e.t < Self(s) {
      CountUpdate(s.writing, e.t, false, true);
    }
  }

  lemma StepKeeps(s: State, e: Event)
    requires Inv(s)
    ensures Inv(Step(s, e))
  {
    hide Inv;
    match e
    case Publish(t, m, w) =>
      if t < Self(s) && !s.writing[t] && IsCString(m.topic) {
        PutStepKeeps(s, t, Q.Put(t, m, Q.Forever, w));
      }
    case PublisherResumes(t, w) =>
      if t < Self(s) {
        PutStepKeeps(s, t, Q.ResumePut(t, w));
      }
    case PublisherSpurious(t) =>
      if t < Self(s) {
        SpuriousKeeps(s, t);
      }
    case LoopGet(w) =>
      if s.loop == Publishing {
        LoopGetKeeps(s, w);
      }
    case WriteByte(_) => LocalKeeps(s, e);
    case SelectReturns(_, _) => LocalKeeps(s, e);
    case DrainRead => LocalKeeps(s, e);
    case CoapDone => LocalKeeps(s, e);
  }

  lemma InitHolds(s: State)
    requires Init(s)
    ensures Inv(s)
  {
    Q.InitHolds(s.q);
  }

  ghost function Run(s: State, es: seq<Event>): (r: State)
    requires Inv(s)
    ensures Inv(r)
  {
    if es == [] then s
    else
      StepKeeps(Run(s, es[..|es| - 1]), es[|es| - 1]);
      Step(Run(s, es[..|es| - 1]), es[|es| - 1])
  }
}
