/** What a put and a get of the queue do for their caller, at any point of any run, in terms of the
    items accepted and handed out so far. */
module BufferQueueService {
  import opened Threads
  import opened BufferQueue
  import opened BufferQueueWaiters

  function Capacity<T>(s: State<T>): nat { |s.ring.cells| }

  lemma {:induction false} CapacityStays<T>(s: State<T>, es: seq<Event<T>>)
    requires Core(s)
    ensures Capacity(Run(s, es)) == Capacity(s)
  {
    if es != [] {
      CapacityStays(s, es[..|es| - 1]);
      CoreKeeps(Run(s, es[..|es| - 1]), es[|es| - 1]);
      hide Core, Step;
    }
  }

  /** The items accepted and not yet handed out. */
  function Waiting<T>(s: State<T>): int { |s.puts| - |s.gets| }

  lemma WaitingIsCount<T>(s: State<T>)
    requires Core(s)
    ensures Waiting(s) == s.ring.count <= Capacity(s)
    ensures s.gets <= s.puts
    ensures s.ring.count > 0 ==> s.puts[|s.gets|] == s.ring.cells[s.ring.head]
  {
    if s.ring.count > 0 {
      DequeueTakesOldest(s.ring);
      assert s.puts[|s.gets|] == Items(s.ring)[0];
    }
  }

  lemma DoPutRecords<T>(s: State<T>, t: nat, x: T, w: nat)
    requires Typed(s) && !Full(s) && t < |s.phase|
    ensures var r := DoPut(s, t, x, w);
            r.puts == s.puts + [x] && r.gets == s.gets && |r.phase| == |s.phase| && r.phase[t] == Outside
  {
  }

  lemma DoGetRecords<T>(s: State<T>, t: nat, w: nat)
    requires Typed(s) && s.ring.count > 0 && t < |s.phase|
    ensures var r := DoGet(s, t, w);
            && r.gets == s.gets + [s.ring.cells[s.ring.head]] && r.puts == s.puts
            && |r.phase| == |s.phase| && r.phase[t] == Outside
  {
  }

  /** Below capacity a put is accepted at once, however its caller is prepared to wait. Otherwise it
      times out, changing nothing, or waits with its item. */
  lemma {:induction false} PutIsAccepted<T>(s: State<T>, es: seq<Event<T>>, t: nat, x: T, wait: Wait, w: nat)
    requires Init(s)
    ensures Core(s)
    ensures var r := Run(s, es);
            t < |r.phase| && r.phase[t] == Outside && CanWake(r, ParkedGet, w) ==>
              var u := Step(r, Put(t, x, wait, w));
              if Waiting(r) < Capacity(s) then
                u.puts == r.puts + [x] && u.gets == r.gets && |u.phase| == |r.phase| && u.phase[t] == Outside
              else if wait == NoWait then u == r
              else u == r.(phase := r.phase[t := ParkedPut], item := r.item[t := x], timed := r.timed[t := wait == Timed])
  {
    InitHolds(s);
    var r := Run(s, es);
    CapacityStays(s, es);
    WaitingIsCount(r);
    hide Run, Fifo, DoPut, DoGet, CanWake;
    if t < |r.phase| && !Full(r) {
      DoPutRecords(r, t, x, w);
    }
  }

  /** A putter that was woken puts the item it came with, if there is room by then. */
  lemma {:induction false} WokenPutIsAccepted<T>(s: State<T>, es: seq<Event<T>>, t: nat, w: nat)
    requires Init(s)
    ensures Core(s)
    ensures var r := Run(s, es);
            t < |r.phase| && r.phase[t] == WokenPut && CanWake(r, ParkedGet, w) ==>
              var u := Step(r, ResumePut(t, w));
              if Waiting(r) < Capacity(s) then
                u.puts == r.puts + [r.item[t]] && u.gets == r.gets && |u.phase| == |r.phase| && u.phase[t] == Outside
              else u == r.(phase := r.phase[t := ParkedPut])
  {
    InitHolds(s);
    var r := Run(s, es);
    CapacityStays(s, es);
    WaitingIsCount(r);
    hide Run, Fifo, DoPut, DoGet, CanWake;
    if t < |r.phase| && !Full(r) {
      DoPutRecords(r, t, r.item[t], w);
    }
  }

  /** With an item waiting a get, arriving or woken, is given the oldest at once. Otherwise it times
      out, changing nothing, or waits. */
  lemma {:induction false} GetIsServed<T>(s: State<T>, es: seq<Event<T>>, t: nat, wait: Wait, w: nat)
    requires Init(s)
    ensures Core(s)
    ensures var r := Run(s, es);
            t < |r.phase| && r.phase[t] in {Outside, WokenGet} && CanWake(r, ParkedPut, w) ==>
              var u := Step(r, if r.phase[t] == Outside then Get(t, wait, w) else ResumeGet(t, w));
              if 0 < Waiting(r) then
                u.gets == r.gets + [r.puts[|r.gets|]] && u.puts == r.puts && |u.phase| == |r.phase| && u.phase[t] == Outside
              else if r.phase[t] == WokenGet then u == r.(phase := r.phase[t := ParkedGet])
              else if wait == NoWait then u == r
              else u == r.(phase := r.phase[t := ParkedGet], timed := r.timed[t := wait == Timed])
  {
    InitHolds(s);
    var r := Run(s, es);
    WaitingIsCount(r);
    hide Run, Fifo, DoPut, DoGet, CanWake;
    if t < |r.phase| && r.ring.count > 0 {
      DoGetRecords(r, t, w);
    }
  }
}
