/** A publish call is not in vain: whatever it is given reaches libcoap once the threads under way
    have gone on. */
module CoapService {
  import opened Bytes
  import opened Threads
  import opened BufferQueue
  import opened CoapPubwork
  import opened CoapPublish
  import opened CoapDrain
  import Q = BufferQueueWaiters
  import BufferQueueService

  /** Behind the first n items m has been put, or publisher t still has it. */
  predicate OnItsWay(s: State, n: nat, t: nat, m: Msg) {
    && n <= |s.q.puts| && t < |s.q.phase| && t < |s.q.item|
    && (m in s.q.puts[n..] || (s.q.phase[t] != Q.Outside && s.q.item[t] == m))
  }

  lemma PutBehind(puts: seq<Msg>, n: nat, m: Msg)
    requires n <= |puts|
    ensures m in (puts + [m])[n..]
    ensures forall x: Msg, y: Msg | x in puts[n..] :: x in (puts + [y])[n..]
  {
    var all := puts + [m];
    assert all[n..][|puts| - n] == m;
    forall x: Msg, y: Msg | x in puts[n..] ensures x in (puts + [y])[n..] {
      assert (puts + [y])[n..] == puts[n..] + [y];
    }
  }

  /** A publisher's step: it puts its item, or parks with it. */
  lemma PutsItsItem(s: State, t: nat, w: nat)
    requires Inv(s) && t < Self(s) && Q.Enabled(s.q, Q.ResumePut(t, w))
    ensures var q' := Q.Step(s.q, Q.ResumePut(t, w));
            && q'.item == s.q.item && |q'.phase| == |s.q.phase|
            && (forall i | 0 <= i < |s.q.phase| && i != t :: q'.phase[i] == s.q.phase[i])
            && (if Q.Full(s.q) then q'.puts == s.q.puts && q'.phase[t] == Q.ParkedPut
                else q'.puts == s.q.puts + [s.q.item[t]])
  {
    NobodyWaits(s);
    if !Q.Full(s.q) {
      BufferQueueService.DoPutRecords(s.q, t, s.q.item[t], w);
      Q.DoPutPhase(s.q, t, s.q.item[t], w);
    }
    if w < |s.q.phase| && s.q.phase[w] == Q.ParkedGet {
      CountPositive(s.q.phase, w, Q.ParkedGet);
    }
    hide Q.DoPut, Items, RingOk, Count;
  }

  lemma SystemEventKeepsWay(s: State, e: Event, n: nat, t: nat, m: Msg)
    requires Inv(s) && IsSystemEvent(e) && OnItsWay(s, n, t, m)
    ensures OnItsWay(Step(s, e), n, t, m)
  {
    match e
    case PublisherResumes(u, w) =>
      if u < Self(s) && Q.Enabled(s.q, Q.ResumePut(u, w)) {
        PutsItsItem(s, u, w);
        PutBehind(s.q.puts, n, s.q.item[u]);
        hide Q.Step, Inv;
      }
    case LoopGet(w) =>
      if s.loop == Publishing && s.q.ring.count > 0 && Q.CanWake(s.q, Q.ParkedPut, w) {
        GetStepFacts(s, w);
        hide Q.Step, Inv, Enbuf, Debuf;
      }
    case _ => hide Inv;
  }

  lemma {:induction false} StaysOnItsWay(s: State, es: seq<Event>, n: nat, t: nat, m: Msg)
    requires Inv(s) && OnItsWay(s, n, t, m) && forall i | 0 <= i < |es| :: IsSystemEvent(es[i])
    ensures OnItsWay(Run(s, es), n, t, m)
  {
    if es != [] {
      hide Step, Inv, OnItsWay, IsSystemEvent;
      StaysOnItsWay(s, es[..|es| - 1], n, t, m);
      SystemEventKeepsWay(Run(s, es[..|es| - 1]), es[|es| - 1], n, t, m);
    }
  }

  /** The call itself: the queue takes the message, or its publisher waits with it. */
  lemma PublishSetsOut(s: State, t: nat, m: Msg, w: nat)
    requires Inv(s) && AllSendable(s) && s.loop != Exited && Sendable(m) && IsCString(m.topic)
    requires t < Self(s) && s.q.phase[t] == Q.Outside && !s.writing[t]
    ensures var u := Step(s, Publish(t, m, w));
            && Inv(u) && AllSendable(u) && u.loop == s.loop
            && OnItsWay(u, |s.q.puts|, t, m) && s.q.puts <= u.q.puts
  {
    StepKeeps(s, Publish(t, m, w));
    NobodyWaits(s);
    PutBehind(s.q.puts, |s.q.puts|, m);
    if !Q.Full(s.q) {
      BufferQueueService.DoPutRecords(s.q, t, m, w);
      Q.DoPutPhase(s.q, t, m, w);
    }
    assert Typed(s);
    hide Inv, Q.DoPut, Items, RingOk, Count;
  }

  lemma {:induction false} PutsGrow(s: State, es: seq<Event>)
    requires Inv(s)
    ensures s.q.puts <= Run(s, es).q.puts
  {
    if es != [] {
      PutsGrow(s, es[..|es| - 1]);
      PutsGrowByOne(Run(s, es[..|es| - 1]), es[|es| - 1]);
      hide Step, Inv;
    }
  }

  lemma PutsGrowByOne(s: State, e: Event)
    requires Inv(s)
    ensures s.q.puts <= Step(s, e).q.puts
  {
    hide Items, RingOk, Count, Enbuf, Debuf, WakeSafe, Faithful;
  }

  /** From any reachable state with sendable requests: a publish call by a publisher at rest, with any
      topic and payload that are not both empty, is published behind all that was put before. */
  lemma {:induction false} PublishArrives(s: State, t: nat, m: Msg, w: nat) returns (es: seq<Event>)
    requires Inv(s) && AllSendable(s) && s.loop != Exited && Sendable(m) && IsCString(m.topic)
    requires t < Self(s) && s.q.phase[t] == Q.Outside && !s.writing[t]
    ensures forall i | 0 <= i < |es| :: IsSystemEvent(es[i])
    ensures Inv(Step(s, Publish(t, m, w)))
    ensures var r := Run(Step(s, Publish(t, m, w)), es);
            s.q.puts <= r.published && m in r.published[|s.q.puts|..]
  {
    var u := Step(s, Publish(t, m, w));
    PublishSetsOut(s, t, m, w);
    var n := |s.q.puts|;
    hide Step, Inv, AllSendable, Run, Sendable, IsSystemEvent;
    es := RunsToDelivery(u);
    StaysOnItsWay(u, es, n, t, m);
    PutsGrow(u, es);
    StillPublisher(u, es);
  }

  lemma SamePublishers(s: State, e: Event)
    requires Typed(s)
    ensures Self(Step(s, e)) == Self(s)
  {
    hide Q.Step, Enbuf, Debuf;
  }

  lemma {:induction false} StillPublisher(s: State, es: seq<Event>)
    requires Inv(s)
    ensures Typed(Run(s, es)) && Self(Run(s, es)) == Self(s)
  {
    assert Typed(Run(s, es));
    if es != [] {
      StillPublisher(s, es[..|es| - 1]);
      SamePublishers(Run(s, es[..|es| - 1]), es[|es| - 1]);
      hide Inv, Step, Typed, Self;
    }
  }
}
