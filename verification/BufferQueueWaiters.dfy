/** The buffer queue under its mutex and two condition variables, for any number of threads. Each
    event is one critical section: it runs with the mutex held and ends in a return or in
    pthread_cond_wait, which parks the thread and releases the mutex at once. */
module BufferQueueWaiters {
  import opened BufferQueue
  import opened Threads

  /** Parked threads sleep on a condition variable; woken ones left it and still have to take the
      mutex and look at the count again. */
  datatype Phase = Outside | ParkedGet | WokenGet | ParkedPut | WokenPut

  /** How long a caller is prepared to wait. */
  datatype Wait = NoWait | Timed | Forever

  /** Thread i is in phase[i] and, while inside, waits with a timeout if timed[i] and, in `put`,
      carries item[i]. `puts` and `gets` record the items in the order accepted and handed out. */
  datatype State<T> =
    State(ring: Ring<T>, phase: seq<Phase>, timed: seq<bool>, item: seq<T>, puts: seq<T>, gets: seq<T>)

  /** `w` is the thread a signal wakes when someone is parked on that condition. GivesUp is a wait
      that returns ETIMEDOUT, whether or not the thread had been signalled: it leaves at once. */
  datatype Event<T> =
    | Put(t: nat, x: T, wait: Wait, w: nat)
    | Get(t: nat, wait: Wait, w: nat)
    | ResumePut(t: nat, w: nat)
    | ResumeGet(t: nat, w: nat)
    | Spurious(t: nat)
    | GivesUp(t: nat)

  ghost predicate Typed<T>(s: State<T>) {
    RingOk(s.ring) && |s.phase| == |s.item| == |s.timed|
  }

  function In<T>(s: State<T>, p: Phase): nat {
    Count(s.phase, p)
  }

  /** pthread_cond_signal wakes a parked thread if there is one. */
  predicate CanWake<T>(s: State<T>, parked: Phase, w: nat) {
    (w < |s.phase| && s.phase[w] == parked) || In(s, parked) == 0
  }

  function Moved<T>(s: State<T>, t: nat, p: Phase): State<T>
    requires t < |s.phase|
  {
    s.(phase := s.phase[t := p])
  }

  function Signal<T>(s: State<T>, parked: Phase, woken: Phase, w: nat): State<T> {
    if w < |s.phase| && s.phase[w] == parked then Moved(s, w, woken) else s
  }

  /** Thread t, holding the mutex below capacity, enqueues, signals one getter and returns. */
  ghost function DoPut<T>(s: State<T>, t: nat, x: T, w: nat): State<T>
    requires Typed(s) && t < |s.phase| && s.ring.count < |s.ring.cells|
  {
    Moved(Signal(s.(ring := Enqueued(s.ring, x), puts := s.puts + [x]), ParkedGet, WokenGet, w), t, Outside)
  }

  ghost function DoGet<T>(s: State<T>, t: nat, w: nat): State<T>
    requires Typed(s) && t < |s.phase| && s.ring.count > 0
  {
    var x := s.ring.cells[s.ring.head];
    Moved(Signal(s.(ring := Dequeued(s.ring), gets := s.gets + [x]), ParkedPut, WokenPut, w), t, Outside)
  }

  ghost predicate Enabled<T>(s: State<T>, e: Event<T>)
    requires Typed(s)
  {
    && e.t < |s.phase|
    && match e
       case Put(t, _, _, w) => s.phase[t] == Outside && CanWake(s, ParkedGet, w)
       case Get(t, _, w) => s.phase[t] == Outside && CanWake(s, ParkedPut, w)
       case ResumePut(t, w) => s.phase[t] == WokenPut && CanWake(s, ParkedGet, w)
       case ResumeGet(t, w) => s.phase[t] == WokenGet && CanWake(s, ParkedPut, w)
       case Spurious(t) => s.phase[t] in {ParkedGet, ParkedPut}
       case GivesUp(t) => s.phase[t] != Outside && s.timed[t]
  }

  ghost predicate Full<T>(s: State<T>) {
    s.ring.count == |s.ring.cells|
  }

  /** An event that is not enabled leaves the state as it is. */
  ghost function Step<T>(s: State<T>, e: Event<T>): State<T>
    requires Typed(s)
  {
    if !Enabled(s, e) then s
    else match e
      case Put(t, x, wait, w) =>
        if !Full(s) then DoPut(s, t, x, w)
        else if wait != NoWait then
          Moved(s.(item := s.item[t := x], timed := s.timed[t := wait == Timed]), t, ParkedPut)
        else s
      case Get(t, wait, w) =>
        if s.ring.count > 0 then DoGet(s, t, w)
        else if wait != NoWait then Moved(s.(timed := s.timed[t := wait == Timed]), t, ParkedGet)
        else s
      case ResumePut(t, w) => if !Full(s) then DoPut(s, t, s.item[t], w) else Moved(s, t, ParkedPut)
      case ResumeGet(t, w) => if s.ring.count > 0 then DoGet(s, t, w) else Moved(s, t, ParkedGet)
      case Spurious(t) => Moved(s, t, if s.phase[t] == ParkedGet then WokenGet else WokenPut)
      case GivesUp(t) => Moved(s, t, Outside)
  }

  ghost predicate Init<T>(s: State<T>) {
    && Typed(s) && s.ring.count == 0
    && (forall t | 0 <= t < |s.phase| :: s.phase[t] == Outside)
    && s.puts == [] && s.gets == []
  }

  // ---- invariants ----------------------------------------------------------------------------

  /** Waiting getters: the items on hand are at most the woken getters that have not run yet. */
  ghost predicate GettersSafe<T>(s: State<T>) {
    In(s, ParkedGet) > 0 ==> s.ring.count <= In(s, WokenGet)
  }

  ghost predicate PuttersSafe<T>(s: State<T>) {
    In(s, ParkedPut) > 0 ==> |s.ring.cells| - s.ring.count <= In(s, WokenPut)
  }

  /** Accepted items = items handed out, then items queued. */
  ghost predicate Fifo<T>(s: State<T>)
    requires Typed(s)
  {
    s.puts == s.gets + Items(s.ring)
  }

  ghost predicate Core<T>(s: State<T>) {
    Typed(s) && Fifo(s)
  }

  ghost predicate Inv<T>(s: State<T>) {
    Core(s) && GettersSafe(s) && PuttersSafe(s)
  }

  lemma MoveCounts<T>(s: State<T>, t: nat, p: Phase)
    requires t < |s.phase|
    ensures forall q {:trigger In(s, q)} :: In(Moved(s, t, p), q) == In(s, q) - (if s.phase[t] == q then 1 else 0) + (if p == q then 1 else 0)
    ensures In(s, s.phase[t]) > 0
  {
    forall q ensures In(Moved(s, t, p), q) == In(s, q) - (if s.phase[t] == q then 1 else 0) + (if p == q then 1 else 0) {
      CountUpdate(s.phase, t, p, q);
    }
    CountPositive(s.phase, t, s.phase[t]);
  }

  lemma DoPutCore<T>(s: State<T>, t: nat, x: T, w: nat)
    requires Core(s) && !Full(s) && t < |s.phase|
    ensures Core(DoPut(s, t, x, w)) && DoPut(s, t, x, w).ring.count == s.ring.count + 1
    ensures |DoPut(s, t, x, w).ring.cells| == |s.ring.cells|
  {
    EnqueueAppends(s.ring, x);
    assert s.puts + [x] == s.gets + (Items(s.ring) + [x]);
    hide Items, RingOk;
  }

  lemma DoGetCore<T>(s: State<T>, t: nat, w: nat)
    requires Core(s) && s.ring.count > 0 && t < |s.phase|
    ensures Core(DoGet(s, t, w)) && DoGet(s, t, w).ring.count == s.ring.count - 1
    ensures |DoGet(s, t, w).ring.cells| == |s.ring.cells|
  {
    var x := s.ring.cells[s.ring.head];
    DequeueTakesOldest(s.ring);
    assert s.puts == (s.gets + [x]) + Items(Dequeued(s.ring));
    hide Items, RingOk;
  }

  /** Every step, giving up included, keeps the ring and its history. */
  lemma CoreKeeps<T>(s: State<T>, e: Event<T>)
    requires Core(s)
    ensures Core(Step(s, e)) && |Step(s, e).phase| == |s.phase| && |Step(s, e).ring.cells| == |s.ring.cells|
  {
    hide Items, RingOk, Count, DoPut, DoGet;
    if Enabled(s, e) {
      match e
      case Put(t, x, _, w) => if !Full(s) { DoPutCore(s, t, x, w); DoPutPhase(s, t, x, w); }
      case ResumePut(t, w) => if !Full(s) { DoPutCore(s, t, s.item[t], w); DoPutPhase(s, t, s.item[t], w); }
      case Get(t, _, w) => if s.ring.count > 0 { DoGetCore(s, t, w); DoGetPhase(s, t, w); }
      case ResumeGet(t, w) => if s.ring.count > 0 { DoGetCore(s, t, w); DoGetPhase(s, t, w); }
      case _ =>
    }
  }

  /** Which threads a put or get moves. */
  lemma DoPutPhase<T>(s: State<T>, t: nat, x: T, w: nat)
    requires Typed(s) && !Full(s) && t < |s.phase|
    ensures var r := DoPut(s, t, x, w);
            && r.timed == s.timed && r.item == s.item
            && r.phase == (if w < |s.phase| && s.phase[w] == ParkedGet then s.phase[w := WokenGet] else s.phase)[t := Outside]
  {
  }

  lemma DoGetPhase<T>(s: State<T>, t: nat, w: nat)
    requires Typed(s) && s.ring.count > 0 && t < |s.phase|
    ensures var r := DoGet(s, t, w);
            && r.timed == s.timed && r.item == s.item
            && r.phase == (if w < |s.phase| && s.phase[w] == ParkedPut then s.phase[w := WokenPut] else s.phase)[t := Outside]
  {
  }

  /** A put by an arriving or woken putter keeps everything, whichever parked getter it wakes. */
  lemma DoPutKeeps<T>(s: State<T>, t: nat, x: T, w: nat)
    requires Inv(s) && !Full(s) && t < |s.phase| && s.phase[t] in {Outside, WokenPut} && CanWake(s, ParkedGet, w)
    ensures Inv(DoPut(s, t, x, w))
  {
    DoPutCore(s, t, x, w);
    hide Items, RingOk, Count, Fifo;
    var s1 := s.(ring := Enqueued(s.ring, x), puts := s.puts + [x]);
    var s2 := Signal(s1, ParkedGet, WokenGet, w);
    if w < |s.phase| && s.phase[w] == ParkedGet {
      MoveCounts(s1, w, WokenGet);
    }
    MoveCounts(s2, t, Outside);
    assert forall q :: In(s1, q) == In(s, q);
  }

  lemma DoGetKeeps<T>(s: State<T>, t: nat, w: nat)
    requires Inv(s) && s.ring.count > 0 && t < |s.phase| && s.phase[t] in {Outside, WokenGet} && CanWake(s, ParkedPut, w)
    ensures Inv(DoGet(s, t, w))
  {
    DoGetCore(s, t, w);
    hide Items, RingOk, Count, Fifo;
    var x := s.ring.cells[s.ring.head];
    var s1 := s.(ring := Dequeued(s.ring), gets := s.gets + [x]);
    var s2 := Signal(s1, ParkedPut, WokenPut, w);
    if w < |s.phase| && s.phase[w] == ParkedPut {
      MoveCounts(s1, w, WokenPut);
    }
    MoveCounts(s2, t, Outside);
    assert forall q :: In(s1, q) == In(s, q);
  }

  lemma SameCounts<T>(s: State<T>, u: State<T>)
    requires s.phase == u.phase
    ensures forall q {:trigger In(u, q)} :: In(u, q) == In(s, q)
  {
  }

  lemma ParkKeeps<T>(s: State<T>, u: State<T>, t: nat, p: Phase)
    requires GettersSafe(s) && PuttersSafe(s) && u.phase == s.phase && u.ring == s.ring && t < |s.phase|
    requires p == ParkedGet ==> s.ring.count <= 0
    requires p == ParkedPut ==> |s.ring.cells| <= s.ring.count
    requires (p == ParkedGet && s.phase[t] in {Outside, WokenGet}) || (p == ParkedPut && s.phase[t] in {Outside, WokenPut})
    ensures GettersSafe(Moved(u, t, p)) && PuttersSafe(Moved(u, t, p))
  {
    hide Count;
    SameCounts(s, u);
    MoveCounts(u, t, p);
    var r := Moved(u, t, p);
    assert In(u, ParkedGet) == In(s, ParkedGet) && In(u, WokenGet) == In(s, WokenGet);
    assert In(u, ParkedPut) == In(s, ParkedPut) && In(u, WokenPut) == In(s, WokenPut);
    assert In(r, ParkedGet) >= In(u, ParkedGet) && In(r, ParkedPut) >= In(u, ParkedPut);
  }

  /** Every step but the giving up of a signalled waiter keeps the waiters safe. */
  lemma StepKeeps<T>(s: State<T>, e: Event<T>)
    requires Inv(s) && (e.GivesUp? && e.t < |s.phase| ==> s.phase[e.t] in {Outside, ParkedGet, ParkedPut})
    ensures Inv(Step(s, e))
  {
    CoreKeeps(s, e);
    assert Typed(s);
    hide Items, RingOk, Count, DoPut, DoGet, Fifo;
    if Enabled(s, e) {
      match e
      case Put(t, x, wait, w) =>
        if !Full(s) {
          DoPutKeeps(s, t, x, w);
        } else {
          ParkKeeps(s, s.(item := s.item[t := x], timed := s.timed[t := wait == Timed]), t, ParkedPut);
        }
      case ResumePut(t, w) =>
        if !Full(s) {
          DoPutKeeps(s, t, s.item[t], w);
        } else {
          ParkKeeps(s, s, t, ParkedPut);
        }
      case Get(t, wait, w) =>
        if s.ring.count > 0 {
          DoGetKeeps(s, t, w);
        } else {
          ParkKeeps(s, s.(timed := s.timed[t := wait == Timed]), t, ParkedGet);
        }
      case ResumeGet(t, w) =>
        if s.ring.count > 0 {
          DoGetKeeps(s, t, w);
        } else {
          ParkKeeps(s, s, t, ParkedGet);
        }
      case Spurious(t) =>
        MoveCounts(s, t, if s.phase[t] == ParkedGet then WokenGet else WokenPut);
      case GivesUp(t) =>
        MoveCounts(s, t, Outside);
    }
  }

  ghost function Run<T>(s: State<T>, es: seq<Event<T>>): (r: State<T>)
    requires Core(s)
    ensures Core(r) && |r.phase| == |s.phase|
  {
    if es == [] then s
    else
      CoreKeeps(Run(s, es[..|es| - 1]), es[|es| - 1]);
      Step(Run(s, es[..|es| - 1]), es[|es| - 1])
  }

  // ---- order ------------------------------------------------------------------------------------

  lemma {:induction false} NobodyIn(ks: seq<Phase>, p: Phase)
    requires forall t | 0 <= t < |ks| :: ks[t] != p
    ensures Count(ks, p) == 0
  {
    if ks != [] {
      NobodyIn(ks[..|ks| - 1], p);
    }
  }

  lemma InitHolds<T>(s: State<T>)
    requires Init(s)
    ensures Inv(s)
  {
    NobodyIn(s.phase, ParkedGet);
    NobodyIn(s.phase, ParkedPut);
    assert Items(s.ring) == [];
  }

  /** Whatever the interleaving, timeouts included, items come out in the order they were accepted,
      each once. */
  lemma {:induction false} FifoOrder<T>(s: State<T>, es: seq<Event<T>>)
    requires Init(s)
    ensures Core(s)
    ensures var r := Run(s, es);
            r.gets <= r.puts && r.puts[|r.gets|..] == Items(r.ring) && |Items(r.ring)| <= |r.ring.cells|
  {
    InitHolds(s);
  }

  // ---- wakeups ----------------------------------------------------------------------------------

  /** A parked getter with items on hand means a woken getter whose next step takes one; the same for
      parked putters and free places; and getters and putters never all sleep. */
  ghost predicate Served<T>(r: State<T>)
    requires Core(r)
  {
    && (In(r, ParkedGet) > 0 && r.ring.count > 0 ==>
          exists t, w :: Enabled(r, ResumeGet(t, w)) && |Step(r, ResumeGet(t, w)).gets| == |r.gets| + 1)
    && (In(r, ParkedPut) > 0 && !Full(r) ==>
          exists t, w :: Enabled(r, ResumePut(t, w)) && |Step(r, ResumePut(t, w)).puts| == |r.puts| + 1)
    && !(In(r, ParkedGet) > 0 && In(r, ParkedPut) > 0 && In(r, WokenGet) == 0 && In(r, WokenPut) == 0)
  }

  lemma SafeIsServed<T>(r: State<T>)
    requires Inv(r)
    ensures Served(r)
  {
    hide Items, Count;
    if In(r, ParkedGet) > 0 && r.ring.count > 0 {
      var t := CountWitness(r.phase, WokenGet);
      var w := SomeParked(r, ParkedPut);
      assert Enabled(r, ResumeGet(t, w)) && |Step(r, ResumeGet(t, w)).gets| == |r.gets| + 1;
    }
    if In(r, ParkedPut) > 0 && !Full(r) {
      var t := CountWitness(r.phase, WokenPut);
      var w := SomeParked(r, ParkedGet);
      assert Enabled(r, ResumePut(t, w)) && |Step(r, ResumePut(t, w)).puts| == |r.puts| + 1;
    }
  }

  lemma SomeParked<T>(s: State<T>, p: Phase) returns (w: nat)
    ensures CanWake(s, p, w)
  {
    w := 0;
    if In(s, p) > 0 {
      w := CountWitness(s.phase, p);
    }
  }

  /** How a thread may wait for items and for free places. */
  datatype Role = Role(getTimed: bool, getForever: bool, putTimed: bool, putForever: bool)

  predicate MayGet(r: Role, wait: Wait) {
    match wait case NoWait => true case Timed => r.getTimed case Forever => r.getForever
  }

  predicate MayPut(r: Role, wait: Wait) {
    match wait case NoWait => true case Timed => r.putTimed case Forever => r.putForever
  }

  predicate Allows<T>(roles: seq<Role>, e: Event<T>) {
    && (e.Get? && e.t < |roles| ==> MayGet(roles[e.t], e.wait))
    && (e.Put? && e.t < |roles| ==> MayPut(roles[e.t], e.wait))
  }

  predicate Follows<T>(roles: seq<Role>, es: seq<Event<T>>) {
    forall i | 0 <= i < |es| :: Allows(roles, es[i])
  }

  /** Who waits with a timeout on one side is the only one to wait on that side. */
  predicate TimedAlone(roles: seq<Role>) {
    forall t, u | 0 <= t < |roles| && 0 <= u < |roles| && t != u ::
      && !(roles[t].getTimed && (roles[u].getTimed || roles[u].getForever))
      && !(roles[t].putTimed && (roles[u].putTimed || roles[u].putForever))
  }

  /** Whoever is inside waits as its role permits. */
  predicate InRole(p: Phase, timed: bool, r: Role) {
    match p
    case Outside => true
    case ParkedGet => if timed then r.getTimed else r.getForever
    case WokenGet => if timed then r.getTimed else r.getForever
    case ParkedPut => if timed then r.putTimed else r.putForever
    case WokenPut => if timed then r.putTimed else r.putForever
  }

  predicate ByRole<T>(s: State<T>, roles: seq<Role>)
    requires |s.phase| == |s.timed| == |roles|
  {
    forall t | 0 <= t < |s.phase| :: InRole(s.phase[t], s.timed[t], roles[t])
  }

  lemma PutByRole<T>(s: State<T>, roles: seq<Role>, t: nat, x: T, w: nat)
    requires Typed(s) && !Full(s) && t < |s.phase| == |roles| && ByRole(s, roles)
    ensures |DoPut(s, t, x, w).phase| == |DoPut(s, t, x, w).timed| == |s.phase| && ByRole(DoPut(s, t, x, w), roles)
  {
    DoPutPhase(s, t, x, w);
    hide DoPut, RingOk;
  }

  lemma GetByRole<T>(s: State<T>, roles: seq<Role>, t: nat, w: nat)
    requires Typed(s) && s.ring.count > 0 && t < |s.phase| == |roles| && ByRole(s, roles)
    ensures |DoGet(s, t, w).phase| == |DoGet(s, t, w).timed| == |s.phase| && ByRole(DoGet(s, t, w), roles)
  {
    DoGetPhase(s, t, w);
    hide DoGet, RingOk;
  }

  lemma ByRoleKeeps<T>(s: State<T>, roles: seq<Role>, e: Event<T>)
    requires Core(s) && |roles| == |s.phase| && ByRole(s, roles) && Allows(roles, e)
    ensures Core(Step(s, e)) && |Step(s, e).phase| == |s.phase| && ByRole(Step(s, e), roles)
  {
    CoreKeeps(s, e);
    hide Core, DoPut, DoGet, Count, RingOk, Fifo;
    if Enabled(s, e) {
      match e
      case Put(t, x, _, w) => if !Full(s) { PutByRole(s, roles, t, x, w); hide ByRole; }
      case ResumePut(t, w) => if !Full(s) { PutByRole(s, roles, t, s.item[t], w); hide ByRole; }
      case Get(t, _, w) => if s.ring.count > 0 { GetByRole(s, roles, t, w); hide ByRole; }
      case ResumeGet(t, w) => if s.ring.count > 0 { GetByRole(s, roles, t, w); hide ByRole; }
      case _ =>
    }
  }

  /** Alone on its side, a signalled waiter strands nobody by giving up. */
  lemma GiveUpAlone<T>(s: State<T>, roles: seq<Role>, t: nat)
    requires Inv(s) && |roles| == |s.phase| && ByRole(s, roles) && TimedAlone(roles) && Enabled(s, GivesUp(t))
    ensures Inv(Step(s, GivesUp(t)))
  {
    CoreKeeps(s, GivesUp(t));
    MoveCounts(s, t, Outside);
    var u := Moved(s, t, Outside);
    assert InRole(s.phase[t], s.timed[t], roles[t]);
    if s.phase[t] in {ParkedGet, WokenGet} {
      forall i | 0 <= i < |u.phase| ensures u.phase[i] != ParkedGet {
        assert InRole(s.phase[i], s.timed[i], roles[i]);
      }
      NobodyIn(u.phase, ParkedGet);
    } else {
      forall i | 0 <= i < |u.phase| ensures u.phase[i] != ParkedPut {
        assert InRole(s.phase[i], s.timed[i], roles[i]);
      }
      NobodyIn(u.phase, ParkedPut);
    }
    hide Count, Core, InRole;
  }

  /** No lost wakeup: callers that wait with a timeout wait alone on their side, or there are none. */
  lemma {:induction false} NoLostWakeup<T>(s: State<T>, roles: seq<Role>, es: seq<Event<T>>)
    requires Init(s) && |roles| == |s.phase| && TimedAlone(roles) && Follows(roles, es)
    ensures Core(s) && Inv(Run(s, es)) && ByRole(Run(s, es), roles) && Served(Run(s, es))
  {
    InitHolds(s);
    var r := Run(s, es);
    if es != [] {
      var pre, e := es[..|es| - 1], es[|es| - 1];
      var q := Run(s, pre);
      assert Follows(roles, pre) && Allows(roles, e);
      NoLostWakeup(s, roles, pre);
      hide Inv, Allows, Served, TimedAlone, ByRole;
      StepByRole(q, roles, e);
    }
    SafeIsServed(r);
  }

  lemma StepByRole<T>(s: State<T>, roles: seq<Role>, e: Event<T>)
    requires Inv(s) && |roles| == |s.phase| && ByRole(s, roles) && TimedAlone(roles) && Allows(roles, e)
    ensures Inv(Step(s, e)) && |Step(s, e).phase| == |s.phase| && ByRole(Step(s, e), roles)
  {
    ByRoleKeeps(s, roles, e);
    if e.GivesUp? && Enabled(s, e) {
      GiveUpAlone(s, roles, e.t);
    } else if e.GivesUp? {
      hide ByRole, Inv;
    } else {
      StepKeeps(s, e);
    }
    hide Step, ByRole, Inv;
  }

  // ---- timed waiters in company -----------------------------------------------------------------

  lemma RunSnoc<T>(s: State<T>, es: seq<Event<T>>, e: Event<T>)
    requires Core(s)
    ensures Run(s, es + [e]) == Step(Run(s, es), e) && Run(s, []) == s
  {
    hide Core, Step;
    assert (es + [e])[..|es|] == es;
  }

  /** A getter is parked with an item on hand, and no getter is on its way. */
  predicate GetterStranded<T>(r: State<T>) {
    In(r, ParkedGet) > 0 && In(r, WokenGet) == 0 && r.ring.count > 0
  }

  ghost predicate PutterStranded<T>(r: State<T>) {
    In(r, ParkedPut) > 0 && In(r, WokenPut) == 0 && !Full(r)
  }

  lemma StrandedIsNotServed<T>(r: State<T>)
    requires Core(r) && (GetterStranded(r) || PutterStranded(r))
    ensures !Served(r)
  {
    forall t | 0 <= t < |r.phase| && r.phase[t] in {WokenGet, WokenPut} ensures Count(r.phase, r.phase[t]) > 0 {
      CountPositive(r.phase, t, r.phase[t]);
    }
    hide Step, Core, Count;
  }

  lemma ParksGetter<T>(s: State<T>, t: nat, wait: Wait, w: nat)
    requires Core(s) && t < |s.phase| && s.phase[t] == Outside && s.ring.count == 0 && wait != NoWait
    requires forall i | 0 <= i < |s.phase| :: s.phase[i] != ParkedPut
    ensures Step(s, Get(t, wait, w)) == Moved(s.(timed := s.timed[t := wait == Timed]), t, ParkedGet)
  {
    NobodyIn(s.phase, ParkedPut);
    hide Count, DoGet, DoPut, Fifo, RingOk;
  }

  lemma ParksPutter<T>(s: State<T>, t: nat, x: T, wait: Wait, w: nat)
    requires Core(s) && t < |s.phase| && s.phase[t] == Outside && Full(s) && wait != NoWait
    requires forall i | 0 <= i < |s.phase| :: s.phase[i] != ParkedGet
    ensures Step(s, Put(t, x, wait, w))
         == Moved(s.(item := s.item[t := x], timed := s.timed[t := wait == Timed]), t, ParkedPut)
  {
    NobodyIn(s.phase, ParkedGet);
    hide Count, DoGet, DoPut, Fifo, RingOk;
  }

  /** A put that signals the parked getter t, who then gives up. */
  lemma PutThenGiveUp<T>(s: State<T>, t: nat, u: nat, v: nat, x: T)
    requires Core(s) && t < |s.phase| && u < |s.phase| && v < |s.phase| && t != u && t != v && u != v
    requires s.ring.count == 0 && s.timed[t]
    requires forall i | 0 <= i < |s.phase| :: s.phase[i] == if i == t || i == u then ParkedGet else Outside
    ensures var p := Step(s, Put(v, x, NoWait, t)); Core(p) && GetterStranded(Step(p, GivesUp(t)))
  {
    var p := Step(s, Put(v, x, NoWait, t));
    CoreKeeps(s, Put(v, x, NoWait, t));
    DoPutCore(s, t, x, t);
    DoPutCore(s, v, x, t);
    DoPutPhase(s, v, x, t);
    assert RingOk(s.ring);
    hide DoPut, Fifo;
    assert p == DoPut(s, v, x, t);
    var r := Step(p, GivesUp(t));
    assert r == Moved(p, t, Outside);
    CountPositive(r.phase, u, ParkedGet);
    NobodyIn(r.phase, WokenGet);
  }

  lemma GetThenGiveUp<T>(s: State<T>, t: nat, u: nat, v: nat)
    requires Core(s) && t < |s.phase| && u < |s.phase| && v < |s.phase| && t != u && t != v && u != v
    requires Full(s) && s.timed[t]
    requires forall i | 0 <= i < |s.phase| :: s.phase[i] == if i == t || i == u then ParkedPut else Outside
    ensures var p := Step(s, Get(v, NoWait, t)); Core(p) && PutterStranded(Step(p, GivesUp(t)))
  {
    var p := Step(s, Get(v, NoWait, t));
    CoreKeeps(s, Get(v, NoWait, t));
    assert RingOk(s.ring);
    DoGetCore(s, v, t);
    DoGetPhase(s, v, t);
    hide DoGet, Fifo;
    assert p == DoGet(s, v, t);
    var r := Step(p, GivesUp(t));
    assert r == Moved(p, t, Outside);
    CountPositive(r.phase, u, ParkedPut);
    NobodyIn(r.phase, WokenPut);
  }

  /** Two getters wait, t with a timeout; a put signals t, and t gives up. */
  function GetterRun<T>(t: nat, u: nat, v: nat, x: T, wait: Wait): seq<Event<T>> {
    [] + [Get(t, Timed, t)] + [Get(u, wait, t)] + [Put(v, x, NoWait, t)] + [GivesUp(t)]
  }

  lemma {:induction false} GetterStrands<T>(s: State<T>, t: nat, u: nat, v: nat, x: T, wait: Wait)
    requires Init(s) && t < |s.phase| && u < |s.phase| && v < |s.phase| && t != u && t != v && u != v && wait != NoWait
    ensures Core(s) && GetterStranded(Run(s, GetterRun(t, u, v, x, wait)))
  {
    InitHolds(s);
    var e0: Event<T>, e1: Event<T>, e2: Event<T>, e3: Event<T> :=
      Get(t, Timed, t), Get(u, wait, t), Put(v, x, NoWait, t), GivesUp(t);
    RunSnoc(s, [], e0);
    RunSnoc(s, [] + [e0], e1);
    RunSnoc(s, [] + [e0] + [e1], e2);
    RunSnoc(s, [] + [e0] + [e1] + [e2], e3);
    ParksGetter(s, t, Timed, t);
    var s1 := Run(s, [] + [e0]);
    ParksGetter(s1, u, wait, t);
    var s2 := Run(s, [] + [e0] + [e1]);
    hide Run, Core, Step, GetterStranded;
    PutThenGiveUp(s2, t, u, v, x);
  }

  /** v fills the queue. */
  function Fill<T>(v: nat, x: T, k: nat): seq<Event<T>> {
    if k == 0 then [] else Fill(v, x, k - 1) + [Put(v, x, NoWait, v)]
  }

  /** r is s but for k items in the queue. */
  ghost predicate FilledTo<T>(s: State<T>, r: State<T>, k: nat) {
    r.phase == s.phase && r.timed == s.timed && r.ring.count == k && |r.ring.cells| == |s.ring.cells|
  }

  lemma {:induction false} Fills<T>(s: State<T>, v: nat, x: T, k: nat)
    requires Init(s) && v < |s.phase| && k <= |s.ring.cells|
    ensures Core(s) && FilledTo(s, Run(s, Fill(v, x, k)), k)
  {
    InitHolds(s);
    if k == 0 {
      RunSnoc(s, [], GivesUp(v));
    } else {
      Fills(s, v, x, k - 1);
      var f, e: Event<T> := Fill(v, x, k - 1), Put(v, x, NoWait, v);
      assert Fill(v, x, k) == f + [e];
      hide Run, Step, Core, Inv, Fill;
      RunSnoc(s, f, e);
      FillsOne(Run(s, f), v, x);
    }
  }

  lemma FillsOne<T>(r: State<T>, v: nat, x: T)
    requires Core(r) && v < |r.phase| && !Full(r) && forall i | 0 <= i < |r.phase| :: r.phase[i] == Outside
    ensures var u := Step(r, Put(v, x, NoWait, v));
            && u.phase == r.phase && u.timed == r.timed
            && u.ring.count == r.ring.count + 1 && |u.ring.cells| == |r.ring.cells|
  {
    NobodyIn(r.phase, ParkedGet);
    DoPutCore(r, v, x, v);
    DoPutPhase(r, v, x, v);
    hide DoPut, Fifo, RingOk, Count;
    assert Step(r, Put(v, x, NoWait, v)) == DoPut(r, v, x, v);
    assert r.phase[v := Outside] == r.phase;
  }

  /** On a full queue two putters wait, t with a timeout; a get signals t, and t gives up. */
  function PutterRun<T>(t: nat, u: nat, v: nat, x: T, wait: Wait, k: nat): seq<Event<T>> {
    Fill(v, x, k) + [Put(t, x, Timed, t)] + [Put(u, x, wait, t)] + [Get(v, NoWait, t)] + [GivesUp(t)]
  }

  lemma {:induction false} PutterStrands<T>(s: State<T>, t: nat, u: nat, v: nat, x: T, wait: Wait)
    requires Init(s) && t < |s.phase| && u < |s.phase| && v < |s.phase| && t != u && t != v && u != v && wait != NoWait
    ensures Core(s) && PutterStranded(Run(s, PutterRun(t, u, v, x, wait, |s.ring.cells|)))
  {
    InitHolds(s);
    var f := Fill(v, x, |s.ring.cells|);
    Fills(s, v, x, |s.ring.cells|);
    var e0: Event<T>, e1: Event<T>, e2: Event<T>, e3: Event<T> :=
      Put(t, x, Timed, t), Put(u, x, wait, t), Get(v, NoWait, t), GivesUp(t);
    RunSnoc(s, f, e0);
    RunSnoc(s, f + [e0], e1);
    RunSnoc(s, f + [e0] + [e1], e2);
    RunSnoc(s, f + [e0] + [e1] + [e2], e3);
    var s0 := Run(s, f);
    ParksPutter(s0, t, x, Timed, t);
    var s1 := Run(s, f + [e0]);
    ParksPutter(s1, u, x, wait, t);
    var s2 := Run(s, f + [e0] + [e1]);
    hide Run, Core, Step, PutterStranded;
    GetThenGiveUp(s2, t, u, v);
  }

  /** Whatever callers of these roles do, nobody is left asleep in vain. */
  ghost predicate AlwaysServed<T(!new)>(s: State<T>, roles: seq<Role>)
    requires Core(s)
  {
    forall es: seq<Event<T>> | Follows(roles, es) :: Served(Run(s, es))
  }

  lemma Third(n: nat, t: nat, u: nat) returns (v: nat)
    requires n >= 3
    ensures v < n && v != t && v != u
  {
    v := if t != 0 && u != 0 then 0 else if t != 1 && u != 1 then 1 else 2;
  }

  lemma {:induction false} FillFollows<T>(roles: seq<Role>, v: nat, x: T, k: nat)
    ensures Follows(roles, Fill(v, x, k))
  {
    if k > 0 {
      FillFollows(roles, v, x, k - 1);
    }
  }

  /** One pair of threads is enough to strand one of them. */
  lemma PairStrands<T(!new)>(s: State<T>, roles: seq<Role>, x: T, t: nat, u: nat)
    requires Init(s) && |roles| == |s.phase| >= 3 && t < |roles| && u < |roles| && t != u
    requires || (roles[t].getTimed && (roles[u].getTimed || roles[u].getForever))
             || (roles[t].putTimed && (roles[u].putTimed || roles[u].putForever))
    ensures Core(s) && !AlwaysServed(s, roles)
  {
    InitHolds(s);
    var v := Third(|roles|, t, u);
    hide Init, Core, Inv, Run, Served, GetterStranded, PutterStranded;
    if roles[t].getTimed && (roles[u].getTimed || roles[u].getForever) {
      var wait := if roles[u].getTimed then Timed else Forever;
      var es := GetterRun(t, u, v, x, wait);
      GetterStrands(s, t, u, v, x, wait);
      StrandedIsNotServed(Run(s, es));
      assert Follows(roles, es);
    } else {
      var wait := if roles[u].putTimed then Timed else Forever;
      var es := PutterRun(t, u, v, x, wait, |s.ring.cells|);
      PutterStrands(s, t, u, v, x, wait);
      StrandedIsNotServed(Run(s, es));
      FillFollows(roles, v, x, |s.ring.cells|);
      assert Follows(roles, es);
    }
  }

  /** Two threads cannot strand each other: a parked getter faces an empty queue, a parked putter a
      full one, since whoever changes that signals the other. */
  ghost predicate Paired<T>(s: State<T>) {
    && (forall t | 0 <= t < |s.phase| && s.phase[t] == ParkedGet :: s.ring.count == 0)
    && (forall t | 0 <= t < |s.phase| && s.phase[t] == ParkedPut :: Full(s))
  }

  lemma PairedKeeps<T>(s: State<T>, e: Event<T>)
    requires Core(s) && |s.phase| <= 2 && Paired(s)
    ensures Core(Step(s, e)) && |Step(s, e).phase| == |s.phase| && Paired(Step(s, e))
  {
    CoreKeeps(s, e);
    if Enabled(s, e) {
      match e
      case Put(t, x, _, w) => if !Full(s) { PairedPut(s, t, x, w); }
      case ResumePut(t, w) => if !Full(s) { PairedPut(s, t, s.item[t], w); }
      case Get(t, _, w) => if s.ring.count > 0 { PairedGet(s, t, w); }
      case ResumeGet(t, w) => if s.ring.count > 0 { PairedGet(s, t, w); }
      case _ =>
    }
    hide DoPut, DoGet, Core, Count, RingOk;
  }

  lemma PairedPut<T>(s: State<T>, t: nat, x: T, w: nat)
    requires Core(s) && |s.phase| <= 2 && Paired(s) && !Full(s) && CanWake(s, ParkedGet, w)
    requires t < |s.phase| && s.phase[t] in {Outside, WokenPut}
    ensures Paired(DoPut(s, t, x, w))
  {
    DoPutPhase(s, t, x, w);
    forall i | 0 <= i < |s.phase| && s.phase[i] == ParkedGet ensures In(s, ParkedGet) > 0 {
      CountPositive(s.phase, i, ParkedGet);
    }
    hide DoPut, Count, RingOk, Fifo;
  }

  lemma PairedGet<T>(s: State<T>, t: nat, w: nat)
    requires Core(s) && |s.phase| <= 2 && Paired(s) && s.ring.count > 0 && CanWake(s, ParkedPut, w)
    requires t < |s.phase| && s.phase[t] in {Outside, WokenGet}
    ensures Paired(DoGet(s, t, w))
  {
    DoGetPhase(s, t, w);
    forall i | 0 <= i < |s.phase| && s.phase[i] == ParkedPut ensures In(s, ParkedPut) > 0 {
      CountPositive(s.phase, i, ParkedPut);
    }
    hide DoGet, Count, RingOk, Fifo;
  }

  lemma {:induction false} TwoAreServed<T>(s: State<T>, es: seq<Event<T>>)
    requires Init(s) && |s.phase| <= 2
    ensures Core(s) && Paired(Run(s, es)) && Served(Run(s, es))
  {
    InitHolds(s);
    if es != [] {
      var pre, e := es[..|es| - 1], es[|es| - 1];
      TwoAreServed(s, pre);
      PairedKeeps(Run(s, pre), e);
      hide Paired, Step, Core, Served;
    }
    PairedIsServed(Run(s, es));
  }

  lemma PairedIsServed<T>(r: State<T>)
    requires Core(r) && Paired(r)
    ensures Served(r)
  {
    if In(r, ParkedGet) > 0 {
      var t := CountWitness(r.phase, ParkedGet);
    }
    if In(r, ParkedPut) > 0 {
      var t := CountWitness(r.phase, ParkedPut);
    }
    hide Count, Step;
  }

  /** No wakeup is ever lost exactly if whoever waits with a timeout on one side is the only one to
      wait on that side, or there are no more than two threads. */
  lemma {:induction false} NoLostWakeupIff<T(!new)>(s: State<T>, roles: seq<Role>, x: T)
    requires Init(s) && |roles| == |s.phase|
    ensures Core(s) && (AlwaysServed(s, roles) <==> TimedAlone(roles) || |roles| <= 2)
  {
    InitHolds(s);
    hide Run, Served, Init;
    if TimedAlone(roles) {
      forall es: seq<Event<T>> | Follows(roles, es) ensures Served(Run(s, es)) {
        NoLostWakeup(s, roles, es);
      }
    } else if |roles| <= 2 {
      forall es: seq<Event<T>> | Follows(roles, es) ensures Served(Run(s, es)) {
        TwoAreServed(s, es);
      }
    } else {
      var t: nat, u: nat :| t < |roles| && u < |roles| && t != u
        && ((roles[t].getTimed && (roles[u].getTimed || roles[u].getForever))
            || (roles[t].putTimed && (roles[u].putTimed || roles[u].putForever)));
      PairStrands(s, roles, x, t, u);
    }
  }
}
