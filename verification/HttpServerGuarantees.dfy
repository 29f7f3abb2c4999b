/** What the server guarantees in every run: the slot pool, freedom from deadlock, quiescence. */
module HttpServerGuarantees {
  import opened Bytes
  import opened HttpSlots
  import opened HttpServer

  // ---- the slot pool ----------------------------------------------------------------------------

  /** Whenever the lock is free the counter is the number of active slots, within the maximum. */
  lemma CounterIsExact(s: State, es: seq<Event>)
    requires Inv(s)
    ensures var r := Run(s, es);
            && (r.lock == None ==> r.activeCount == Actives(r.slots))
            && 0 <= r.activeCount <= |r.slots|
  {
    var r := Run(s, es);
    hide Actives;
    ActivesBound(r.slots);
    if r.accept.Creating? {
      assert SlotOk(r.conns, r.accept, r.accept.k, r.slots[r.accept.k]);
    } else if r.accept.AwaitReady? {
      assert ConnOk(r.slots, r.accept, r.accept.c, r.conns[r.accept.c]);
      assert SlotOk(r.conns, r.accept, r.accept.k, r.slots[r.accept.k]);
    }
  }

  /** No two threads that still have to be joined ever share a slot. */
  lemma OneThreadPerSlot(s: State, es: seq<Event>, c: nat, d: nat)
    requires Inv(s)
    requires var r := Run(s, es);
             && c < |r.conns| && d < |r.conns| && c != d
             && Live(r.conns[c].phase) && Live(r.conns[d].phase)
    ensures Run(s, es).conns[c].slot != Run(s, es).conns[d].slot
  {
    var r := Run(s, es);
    assert ConnOk(r.slots, r.accept, c, r.conns[c]) && ConnOk(r.slots, r.accept, d, r.conns[d]);
  }

  lemma OnlyReapingClaims(s: State, e: Event)
    requires Typed(s) && !s.accept.Creating?
    ensures Step(s, e).accept.Creating? ==> e == ReapNext && s.accept.Reaping?
  {
    hide TryReap, FirstFree, Reap;
    if OfClient(e) {
      hide StepAccept, StepControl;
    } else if OfControl(e) {
      hide StepAccept, StepClient;
    } else {
      hide StepClient, StepControl;
    }
  }

  /** A slot is handed to a new client only after its last thread was joined and its task disposed. */
  lemma HandedOutOnlyWhenJoined(s: State, e: Event, k: nat)
    requires Inv(s) && !s.accept.Creating? && Step(s, e).accept.Creating? && Step(s, e).accept.k == k
    ensures k < |s.slots| && s.slots[k] == Slot(false, true, None, None)
    ensures forall c | 0 <= c < |s.conns| && s.conns[c].slot == k :: s.conns[c].phase in {NoThread, Joined}
  {
    OnlyReapingClaims(s, e);
    assert Step(s, e) == Reap(s);
    hide Step;
    assert SlotOk(s.conns, s.accept, k, s.slots[k]);
    forall c | 0 <= c < |s.conns| && s.conns[c].slot == k ensures s.conns[c].phase in {NoThread, Joined} {
      assert ConnOk(s.slots, s.accept, c, s.conns[c]);
    }
  }

  // ---- deadlock ---------------------------------------------------------------------------------

  predicate Posted(s: State, c: nat) {
    c < |s.conns| && s.conns[c].posted
  }

  /** The thread `a` cannot go on before: the lock holder, the thread whose ready signal is awaited,
      or the thread being joined. Waiting for a client, the network or the clock does not count. */
  function WaitsFor(s: State, a: Agent): Option<Agent> {
    match a
    case AcceptTask =>
      if s.accept.WantsLock? then s.lock
      else if s.accept.AwaitReady? && !Posted(s, s.accept.c) then Some(Client(s.accept.c))
      else None
    case Controller =>
      if s.control == StopWantsLock then s.lock
      else if s.control == JoinAccept && s.accept !in {Stopped, Absent} then Some(AcceptTask)
      else if s.control.JoinSlot? && s.control.i < |s.slots| && s.slots[s.control.i].handle.Some?
              && !Is(s, s.slots[s.control.i].handle.value, Exited)
      then Some(Client(s.slots[s.control.i].handle.value))
      else None
    case Client(c) => if Is(s, c, WantLock) then s.lock else None
  }

  /** `p` lists threads each of which waits for the next. */
  predicate Chain(s: State, p: seq<Agent>) {
    forall i | 0 <= i < |p| - 1 :: WaitsFor(s, p[i]) == Some(p[i + 1])
  }

  ghost predicate Cycle(s: State) {
    exists p: seq<Agent> :: |p| >= 2 && Chain(s, p) && p[0] == p[|p| - 1]
  }

  /** The accept task, holding the lock, awaits a signal its client thread will never give: that
      thread could not report ready and now wants the lock to hand its slot back. */
  predicate Doomed(s: State) {
    s.accept.AwaitReady? && !Posted(s, s.accept.c) && Is(s, s.accept.c, WantLock)
  }

  function Rank(s: State, a: Agent): nat {
    match a
    case AcceptTask => if HoldsLock(s.accept) then 1 else 3
    case Controller =>
      if s.control.JoinAccept? || s.control.JoinSlot? then 4 else if s.control == StopWantsLock then 2 else 0
    case Client(c) => if Is(s, c, WantLock) then 2 else 0
  }

  lemma WaitsDownhill(s: State, a: Agent)
    requires Inv(s) && !Doomed(s) && WaitsFor(s, a).Some?
    ensures Rank(s, WaitsFor(s, a).value) < Rank(s, a)
  {
    hide Actives, ConnsOk, SlotsOk;
  }

  lemma {:induction false} ChainDownhill(s: State, p: seq<Agent>)
    requires Inv(s) && !Doomed(s) && |p| >= 2 && Chain(s, p)
    ensures Rank(s, p[|p| - 1]) < Rank(s, p[0])
  {
    assert WaitsFor(s, p[0]) == Some(p[0 + 1]);
    WaitsDownhill(s, p[0]);
    hide Inv, Doomed, Rank, WaitsFor;
    if |p| > 2 {
      forall i | 0 <= i < |p[1..]| - 1 ensures WaitsFor(s, p[1..][i]) == Some(p[1..][i + 1]) {
        assert WaitsFor(s, p[i + 1]) == Some(p[i + 2]);
      }
      ChainDownhill(s, p[1..]);
    }
  }

  /** Threads wait for one another in a circle exactly when a client thread failed to report ready. */
  lemma {:induction false} DeadlockIff(s: State)
    requires Inv(s)
    ensures Cycle(s) <==> Doomed(s)
  {
    if Doomed(s) {
      var p := [AcceptTask, Client(s.accept.c), AcceptTask];
      assert Chain(s, p);
    } else {
      forall p: seq<Agent> | |p| >= 2 && Chain(s, p) ensures p[0] != p[|p| - 1] {
        ChainDownhill(s, p);
      }
    }
  }

  /** In such a state the lock is never released again, whatever happens. */
  lemma DoomLasts(s: State, e: Event)
    requires Inv(s) && Doomed(s)
    ensures Doomed(Step(s, e)) && Step(s, e).lock == Some(AcceptTask) && Step(s, e).accept == s.accept
  {
    hide Actives, ConnsOk, SlotsOk, FirstFree, TryReap;
  }

  lemma {:induction false} DoomIsForever(s: State, es: seq<Event>)
    requires Inv(s) && Doomed(s)
    ensures Doomed(Run(s, es)) && Run(s, es).lock == Some(AcceptTask)
  {
    if es == [] {
      hide ConnsOk, SlotsOk, Actives;
    } else {
      DoomIsForever(s, es[..|es| - 1]);
      DoomLasts(Run(s, es[..|es| - 1]), es[|es| - 1]);
      hide Inv, Doomed, Step;
    }
  }

  lemma FailedCallbackDooms(s: State)
    requires Typed(s) && s.accept.AwaitReady? && Is(s, s.accept.c, Entry) && !Posted(s, s.accept.c)
    requires Typed(Step(s, Ready(s.accept.c, false)))
    ensures Doomed(Step(Step(s, Ready(s.accept.c, false)), ClosesClient(s.accept.c)))
  {
  }

  /** It comes about from every state in which the info callback of a new client's task fails. */
  lemma FailedCallbackDeadlocks(s: State)
    requires Inv(s) && s.accept.AwaitReady? && Is(s, s.accept.c, Entry) && !Posted(s, s.accept.c)
    ensures Inv(Step(s, Ready(s.accept.c, false)))
    ensures Cycle(Step(Step(s, Ready(s.accept.c, false)), ClosesClient(s.accept.c)))
  {
    var c := s.accept.c;
    var t := Step(s, Ready(c, false));
    StepKeeps(s, Ready(c, false));
    StepKeeps(t, ClosesClient(c));
    FailedCallbackDooms(s);
    hide Step, ConnsOk, SlotsOk, LockOk, Actives, Cycle, Doomed;
    DeadlockIff(Step(t, ClosesClient(c)));
  }

  /** So far every thread that left its entry has reported ready. */
  predicate AllReported(s: State) {
    forall c | 0 <= c < |s.conns| :: s.conns[c].phase in {Serving, Sending, Cleanup, WantLock} ==> s.conns[c].posted
  }

  lemma ReportedByClient(s: State, e: Event)
    requires Typed(s) && AllReported(s) && !(e.Ready? && !e.callbackOk)
    ensures AllReported(StepClient(s, e))
  {
  }

  lemma ReportedByAccept(s: State, e: Event)
    requires Typed(s) && AllReported(s)
    ensures AllReported(StepAccept(s, e))
  {
    hide FirstFree, TryReap;
  }

  lemma ReportedByControl(s: State, e: Event)
    requires Typed(s) && AllReported(s)
    ensures AllReported(StepControl(s, e))
  {
    if e.JoinAdvances? {
      if s.control.JoinAccept? || s.control.JoinSlot? {
        ReportedByJoin(s);
      }
    } else {
      hide Join;
    }
  }

  lemma ReportedByJoin(s: State)
    requires Typed(s) && AllReported(s) && (s.control.JoinAccept? || s.control.JoinSlot?)
    ensures AllReported(Join(s))
  {
  }

  lemma ReportedKeeps(s: State, e: Event)
    requires Inv(s) && AllReported(s) && !(e.Ready? && !e.callbackOk)
    ensures AllReported(Step(s, e))
  {
    ReportedByClient(s, e);
    ReportedByAccept(s, e);
    ReportedByControl(s, e);
    hide AllReported, StepClient, StepAccept, StepControl;
  }

  lemma {:induction false} ReportedThroughout(s: State, es: seq<Event>)
    requires Init(s) && forall i | 0 <= i < |es| :: !(es[i].Ready? && !es[i].callbackOk)
    ensures Inv(s) && AllReported(Run(s, es))
  {
    InitHolds(s);
    if es != [] {
      ReportedThroughout(s, es[..|es| - 1]);
      ReportedKeeps(Run(s, es[..|es| - 1]), es[|es| - 1]);
      hide Inv, AllReported, Step;
    }
  }

  /** Deadlock freedom: as long as no info callback fails, no run reaches a circle of waiting threads. */
  lemma {:induction false} NoDeadlock(s: State, es: seq<Event>)
    requires Init(s) && forall i | 0 <= i < |es| :: !(es[i].Ready? && !es[i].callbackOk)
    ensures Inv(s) && !Cycle(Run(s, es))
  {
    ReportedThroughout(s, es);
    DeadlockIff(Run(s, es));
    hide Inv, Cycle;
  }

  /** `b` still has work to do. */
  predicate Busy(s: State, b: Agent) {
    match b
    case AcceptTask => s.accept !in {Stopped, Absent}
    case Controller => s.control != Idle
    case Client(c) => c < |s.conns| && Live(s.conns[c].phase) && s.conns[c].phase != Exited
  }

  /** Behind every waiting thread there is one that is busy and waits for none. */
  lemma {:induction false} WaitsEndAtABusyThread(s: State, a: Agent) returns (p: seq<Agent>)
    requires Inv(s) && !Doomed(s) && Busy(s, a)
    ensures |p| >= 1 && p[0] == a && Chain(s, p)
    ensures WaitsFor(s, p[|p| - 1]) == None && Busy(s, p[|p| - 1])
    decreases Rank(s, a)
  {
    if WaitsFor(s, a) == None {
      p := [a];
    } else {
      WaitsDownhill(s, a);
      WaitedForIsBusy(s, a);
      var q := WaitsEndAtABusyThread(s, WaitsFor(s, a).value);
      p := [a] + q;
    }
  }

  lemma WaitedForIsBusy(s: State, a: Agent)
    requires Inv(s) && WaitsFor(s, a).Some?
    ensures Busy(s, WaitsFor(s, a).value)
  {
    hide Actives, ConnsOk;
  }

  /** `b` cannot go on before something happens on the network: the accept task before a client or
      the end of its listener, a client thread before its peer reads what it is stuck sending. */
  predicate AwaitsNetwork(s: State, b: Agent) {
    match b
    case AcceptTask => s.accept == Accepting && s.listenOpen
    case Controller => false
    case Client(c) => Is(s, c, Sending) && !s.conns[c].shut
  }

  /** A step the server takes by itself, nothing failing and nothing asked of the controller. */
  predicate Own(e: Event) {
    match e
    case AcceptReturns(r) => r == BadListener
    case StartClient(created) => created
    case Ready(_, callbackOk) => callbackOk
    case PeerReads(_) => false
    case CallLoop => false
    case CallStop => false
    case CallJoin => false
    case JoinTimesOut => false
    case _ => true
  }

  /** A busy thread that waits for no other has a step of its own to take, unless it awaits the network. */
  lemma BusyThreadMoves(s: State, b: Agent) returns (e: Event)
    requires Inv(s) && Busy(s, b) && WaitsFor(s, b) == None && !AwaitsNetwork(s, b)
    ensures Own(e) && Step(s, e) != s
  {
    match b
    case AcceptTask => e := AcceptMoves(s);
    case Controller => e := ControllerMoves(s);
    case Client(c) =>
      hide Inv;
      e := match s.conns[c].phase
           case Entry => Ready(c, true)
           case Serving => Serves(c, false)
           case Sending => SendFails(c)
           case Cleanup => ClosesClient(c)
           case WantLock => Marks(c)
           case Marked => MarkReleases(c)
           case _ => ThreadExits(c);
  }

  lemma AcceptMoves(s: State) returns (e: Event)
    requires Typed(s) && s.accept !in {Stopped, Absent} && WaitsFor(s, AcceptTask) == None
    requires !AwaitsNetwork(s, AcceptTask)
    ensures Own(e) && Step(s, e) != s
  {
    hide FirstFree, TryReap;
    e := match s.accept
         case Poll => AcceptPolls
         case Accepting => AcceptReturns(BadListener)
         case WantsLock(_) => AcceptLocks
         case Reaping(_, _) => ReapNext
         case Creating(_, _) => StartClient(true)
         case AwaitReady(_, _) => SeesReady
         case Failing(_) => FailReleases
         case _ => Drops;
  }

  lemma ControllerMoves(s: State) returns (e: Event)
    requires Typed(s) && s.control != Idle && WaitsFor(s, Controller) == None
    ensures Own(e) && Step(s, e) != s
  {
    e := match s.control
         case CloseListener => StopCloses
         case StopWantsLock => StopLocks
         case StopHolds(_) => StopPasses
         case _ => JoinAdvances;
  }

  // ---- quiescence -------------------------------------------------------------------------------

  /** Nothing is left of the clients: no active slot, no task, no thread, no open descriptor. */
  predicate Quiet(s: State) {
    && s.accept == Absent && s.lock == None && s.activeCount == 0
    && (forall k | 0 <= k < |s.slots| :: s.slots[k] == Slot(false, true, None, None))
    && (forall c | 0 <= c < |s.conns| :: s.conns[c].closes == 1 && s.conns[c].phase in {NoThread, Joined})
  }

  function HoldingClient(s: State): nat {
    if s.lock.Some? && s.lock.value.Client? then s.lock.value.c else 0
  }

  lemma HolderIsMarked(s: State, c: nat)
    requires Inv(s)
    ensures s.lock == Some(Client(c)) ==> Is(s, c, Marked)
  {
  }

  /** When join has gone through all slots, stop had been asked for, the counter it resets was 0
      already, and every connection ever accepted has been closed exactly once. */
  lemma JoinLeavesQuiet(s: State)
    requires Inv(s) && s.control == JoinSlot(|s.slots|)
    ensures Quiet(Step(s, JoinAdvances)) && s.activeCount == 0 && (s.started ==> s.stopRequested)
  {
    hide Actives;
    forall k | 0 <= k < |s.slots| ensures s.slots[k] == Slot(false, true, None, None) {
      assert SlotOk(s.conns, s.accept, k, s.slots[k]);
    }
    forall c | 0 <= c < |s.conns| ensures s.conns[c].closes == 1 && s.conns[c].phase in {NoThread, Joined} {
      assert ConnOk(s.slots, s.accept, c, s.conns[c]);
    }
    NoneActive(s.slots);
    HolderIsMarked(s, HoldingClient(s));
    hide ConnsOk, SlotsOk;
  }

  /** At no time has any connection been closed twice. */
  lemma NeverClosedTwice(s: State, es: seq<Event>, c: nat)
    requires Inv(s) && c < |Run(s, es).conns|
    ensures Run(s, es).conns[c].closes <= 1
  {
    var r := Run(s, es);
    assert ConnOk(r.slots, r.accept, c, r.conns[c]);
  }
}
