/** What becomes of an accepted client: it is served if a slot is free for it, and turned away only if
    every slot has a thread or its own cannot be created. */
module HttpServerClients {
  import opened Bytes
  import opened HttpSlots
  import opened HttpServer
  import opened HttpServerGuarantees
  import opened HttpServerShutdown

  // ---- turned away ------------------------------------------------------------------------------

  /** The accept task is about to give client c a thread. */
  predicate InHand(a: Accept, c: nat) {
    (a.WantsLock? || a.Reaping? || a.Creating?) && a.c == c
  }

  /** Client c is turned away: its reaping pass ends with every slot taken, or there is no thread. */
  predicate Refusal(s: State, e: Event, c: nat) {
    || (e == ReapNext && s.accept == Reaping(c, |s.slots|)
        && forall k | 0 <= k < |s.slots| :: s.slots[k].active || s.slots[k].handle.Some?)
    || (e == StartClient(false) && s.accept.Creating? && s.accept.c == c)
  }

  ghost predicate WasRefused(s: State, es: seq<Event>, c: nat)
    requires Inv(s)
  {
    exists k | 0 <= k < |es| :: Refusal(Run(s, es[..k]), es[k], c)
  }

  lemma StaysRefused(s: State, es: seq<Event>, e: Event, c: nat)
    requires Inv(s)
    ensures WasRefused(s, es, c) ==> WasRefused(s, es + [e], c)
    ensures Refusal(Run(s, es), e, c) ==> WasRefused(s, es + [e], c)
  {
    hide Run, Refusal, Inv;
    var all := es + [e];
    assert all[..|es|] == es && all[|es|] == e;
    if WasRefused(s, es, c) {
      var k :| 0 <= k < |es| && Refusal(Run(s, es[..k]), es[k], c);
      assert all[..k] == es[..k] && all[k] == es[k];
    }
  }

  /** A client without a thread is in hand, or new, or was turned away in this step. */
  predicate AccountedFor(s: State, e: Event, t: State, c: nat) {
    c < |t.conns| && t.conns[c].phase == NoThread ==>
      || InHand(t.accept, c)
      || (c < |s.conns| && s.conns[c].phase == NoThread && (InHand(s.accept, c) ==> Refusal(s, e, c)))
  }

  lemma ClientAccounts(s: State, e: Event, c: nat)
    requires Typed(s)
    ensures AccountedFor(s, e, StepClient(s, e), c)
  {
  }

  lemma ControlAccounts(s: State, e: Event, c: nat)
    requires Inv(s)
    ensures AccountedFor(s, e, StepControl(s, e), c)
  {
    hide ConnsOk, SlotsOk, Actives, LockOk;
  }

  lemma ReapAccounts(s: State, c: nat)
    requires Inv(s) && s.accept.Reaping?
    ensures AccountedFor(s, ReapNext, Reap(s), c)
  {
    hide ConnsOk, SlotsOk, LockOk, ControlOk, TryReap;
    if s.accept.i >= |s.slots| {
      ActivesBound(s.slots);
      hide Actives;
      assert forall k | 0 <= k < |s.slots| && s.activeCount >= |s.slots| :: s.slots[k].active;
    }
  }

  lemma AcceptAccounts(s: State, e: Event, c: nat)
    requires Inv(s) && !OfClient(e) && !OfControl(e) && e != ReapNext
    ensures AccountedFor(s, e, StepAccept(s, e), c)
  {
    hide ConnsOk, SlotsOk, LockOk, ControlOk, CountOk, Reap;
  }

  lemma StepAccounts(s: State, e: Event, c: nat)
    requires Inv(s)
    ensures AccountedFor(s, e, Step(s, e), c)
  {
    if OfClient(e) {
      ClientAccounts(s, e, c);
    } else if OfControl(e) {
      ControlAccounts(s, e, c);
    } else if e == ReapNext {
      if s.accept.Reaping? {
        ReapAccounts(s, c);
      }
    } else {
      AcceptAccounts(s, e, c);
    }
    hide Inv, StepClient, StepControl, Reap;
  }

  ghost predicate InHandOrRefused(s: State, es: seq<Event>, c: nat)
    requires Inv(s)
  {
    var r := Run(s, es);
    c < |r.conns| && r.conns[c].phase == NoThread ==> InHand(r.accept, c) || WasRefused(s, es, c)
  }

  lemma NextAccounted(s: State, es: seq<Event>, e: Event, c: nat)
    requires Inv(s) && InHandOrRefused(s, es, c)
    ensures InHandOrRefused(s, es + [e], c)
  {
    hide Inv, Step, Refusal, WasRefused, InHand, Run;
    RunSnoc(s, es, e);
    StepAccounts(Run(s, es), e, c);
    StaysRefused(s, es, e, c);
  }

  lemma NobodyYet(s: State, c: nat)
    requires Init(s) && Inv(s)
    ensures InHandOrRefused(s, [], c)
  {
    hide Inv;
    RunSnoc(s, [], CallStop);
    assert s.conns == [];
  }

  lemma {:induction false} EveryClientAccounted(s: State, es: seq<Event>, c: nat)
    requires Init(s)
    ensures Inv(s) && InHandOrRefused(s, es, c)
  {
    hide *;
    InitHolds(s);
    if es == [] {
      NobodyYet(s, c);
    } else {
      EveryClientAccounted(s, es[..|es| - 1], c);
      NextAccounted(s, es[..|es| - 1], es[|es| - 1], c);
      assert es == es[..|es| - 1] + [es[|es| - 1]];
    }
  }

  /** In every run a connection that was closed without ever having had a thread was turned away when
      every slot had one, or because its own could not be created. */
  lemma {:induction false} ClosedUnservedWasRefused(s: State, es: seq<Event>, c: nat)
    requires Init(s)
    requires Inv(s) && c < |Run(s, es).conns|
    requires Run(s, es).conns[c].phase == NoThread && Run(s, es).conns[c].closes > 0
    ensures WasRefused(s, es, c)
  {
    EveryClientAccounted(s, es, c);
    var r := Run(s, es);
    assert ConnOk(r.slots, r.accept, c, r.conns[c]);
    hide Run, WasRefused, SlotsOk, LockOk, ControlOk, CountOk, AcceptOk;
  }

  // ---- served -----------------------------------------------------------------------------------

  /** Slot k has no thread, or the pass, come to slot i, will find that its thread has returned. */
  predicate Room(s: State, k: nat, i: nat) {
    && k < |s.slots|
    && (s.slots[k].handle == None || (k >= i && Is(s, s.slots[k].handle.value, Exited)))
  }

  /** Client c has a thread that serves it, and the accept task is free for the next. */
  predicate IsServed(s: State, c: nat) {
    Is(s, c, Serving) && s.conns[c].posted && s.accept == Poll && s.lock == None
  }

  /** The pass at slot i frees it if its thread has returned, and joins no other thread. */
  lemma PassGoesOn(s: State, k: nat)
    requires Inv(s) && s.accept.Reaping? && s.accept.i < |s.slots| && Room(s, k, s.accept.i)
    ensures var t := Step(s, ReapNext);
            t.accept == Reaping(s.accept.c, s.accept.i + 1) && Room(t, k, s.accept.i + 1) && |t.slots| == |s.slots|
  {
    assert Typed(s) && Step(s, ReapNext) == Reap(s);
    if k == s.accept.i {
      FreesSlot(s);
    } else {
      PassesBy(s, k);
    }
    hide Inv, Step, Room, Reap;
  }

  lemma FreesSlot(s: State)
    requires Inv(s) && s.accept.Reaping? && s.accept.i < |s.slots| && Room(s, s.accept.i, s.accept.i)
    ensures var t := Reap(s);
            && t.accept == Reaping(s.accept.c, s.accept.i + 1) && |t.slots| == |s.slots|
            && Room(t, s.accept.i, s.accept.i + 1)
  {
    assert SlotOk(s.conns, s.accept, s.accept.i, s.slots[s.accept.i]);
    hide Inv;
  }

  lemma PassesBy(s: State, k: nat)
    requires Inv(s) && s.accept.Reaping? && s.accept.i < |s.slots| && Room(s, k, s.accept.i) && k != s.accept.i
    ensures var t := Reap(s);
            && t.accept == Reaping(s.accept.c, s.accept.i + 1) && |t.slots| == |s.slots|
            && Room(t, k, s.accept.i + 1)
  {
    if s.slots[k].handle.Some? {
      DifferentThreads(s, k, s.accept.i);
    }
    assert Typed(s);
    hide Inv, TryReap;
  }

  lemma DifferentThreads(s: State, k: nat, i: nat)
    requires Inv(s) && !s.accept.Creating? && k < |s.slots| && i < |s.slots| && k != i && s.slots[k].handle.Some?
    ensures s.slots[k].handle != s.slots[i].handle
  {
    hide Actives, ConnsOk, LockOk, AcceptOk, ControlOk;
    assert SlotOk(s.conns, s.accept, k, s.slots[k]) && SlotOk(s.conns, s.accept, i, s.slots[i]);
  }

  lemma PassEnds(s: State, k: nat)
    requires Inv(s) && s.accept.Reaping? && s.accept.i == |s.slots| && Room(s, k, s.accept.i)
    ensures var t := Step(s, ReapNext); t.accept.Creating? && t.accept.c == s.accept.c
  {
    hide Actives, ConnsOk, LockOk;
    assert SlotOk(s.conns, s.accept, k, s.slots[k]);
    hide SlotsOk;
    ActivesBound(s.slots);
    assert FirstFree(s.slots) < |s.slots|;
    hide FirstFree;
    assert Step(s, ReapNext) == Reap(s);
  }

  lemma OwnAreFine()
    ensures Own(AcceptLocks) && Own(ReapNext) && Own(StartClient(true)) && Own(SeesReady) && Own(StopPasses)
    ensures forall c :: Own(Ready(c, true)) && Own(MarkReleases(c))
  {
  }

  lemma ThreadStarts(s: State)
    requires Inv(s) && s.accept.Creating?
    ensures var t := Step(s, StartClient(true));
            Inv(t) && t.accept.AwaitReady? && t.accept.c == s.accept.c && Is(t, s.accept.c, Entry)
  {
    StepKeeps(s, StartClient(true));
    hide Inv;
    assert Typed(s) && Step(s, StartClient(true)) == Start(s, true);
    hide Step;
  }

  lemma ReportsReady(s: State)
    requires Inv(s) && s.accept.AwaitReady? && Is(s, s.accept.c, Entry)
    ensures var t := Step(s, Ready(s.accept.c, true));
            Inv(t) && t.accept == s.accept && Is(t, s.accept.c, Serving) && t.conns[s.accept.c].posted
  {
    StepKeeps(s, Ready(s.accept.c, true));
    hide Inv;
    assert Typed(s);
  }

  lemma GoesOn(s: State)
    requires Inv(s) && s.accept.AwaitReady? && Is(s, s.accept.c, Serving) && s.conns[s.accept.c].posted
    ensures Typed(s) && IsServed(Step(s, SeesReady), s.accept.c)
  {
    assert Typed(s);
    hide Inv;
  }

  /** The thread is created and reports ready, and the accept task goes on. */
  lemma Starts(s: State)
    requires Inv(s) && s.accept.Creating?
    ensures var c := s.accept.c;
            var t := Step(s, StartClient(true));
            && Inv(t) && Typed(t) && Inv(Step(t, Ready(c, true))) && Typed(Step(t, Ready(c, true)))
            && IsServed(Step(Step(t, Ready(c, true)), SeesReady), c)
  {
    hide *;
    InvTyped(s, StartClient(true));
    ThreadStarts(s);
    var t := Step(s, StartClient(true));
    InvTyped(t, Ready(s.accept.c, true));
    ReportsReady(t);
    InvTyped(Step(t, Ready(s.accept.c, true)), SeesReady);
    GoesOn(Step(t, Ready(s.accept.c, true)));
  }

  predicate AllOwn(es: seq<Event>) {
    forall i | 0 <= i < |es| :: Own(es[i])
  }

  lemma OwnCons(e: Event, es: seq<Event>)
    requires Own(e) && AllOwn(es)
    ensures AllOwn([e] + es)
  {
    hide Own;
  }

  lemma {:induction false} RunTwo(s: State, e: Event, f: Event, g: Event)
    requires Inv(s)
    ensures Typed(s) && Inv(Step(s, e)) && Typed(Step(s, e)) && Inv(Step(Step(s, e), f)) && Typed(Step(Step(s, e), f))
    ensures Run(s, [e] + ([f] + ([g] + []))) == Step(Step(Step(s, e), f), g)
  {
    hide *;
    InvTyped(s, e);
    InvTyped(Step(s, e), f);
    InvTyped(Step(Step(s, e), f), g);
    RunOne(s, e, [f] + ([g] + []));
    RunOne(Step(s, e), f, [g] + []);
    RunOne(Step(Step(s, e), f), g, []);
    RunSnoc(Step(Step(Step(s, e), f), g), [], g);
  }

  /** From its reaping pass on, with room for it. */
  lemma {:induction false} ServedFromPass(s: State, k: nat) returns (es: seq<Event>)
    requires Inv(s) && s.accept.Reaping? && s.accept.i <= |s.slots| && Room(s, k, s.accept.i)
    ensures AllOwn(es) && IsServed(Run(s, es), s.accept.c)
    decreases |s.slots| - s.accept.i
  {
    hide *;
    InvTyped(s, ReapNext);
    OwnAreFine();
    var t, c := Step(s, ReapNext), s.accept.c;
    var rest: seq<Event>;
    if s.accept.i < |s.slots| {
      PassGoesOn(s, k);
      rest := ServedFromPass(t, k);
    } else {
      PassEnds(s, k);
      Starts(t);
      rest := [StartClient(true)] + ([Ready(c, true)] + ([SeesReady] + []));
      RunTwo(t, StartClient(true), Ready(c, true), SeesReady);
      NoneOwn();
      OwnCons(SeesReady, []);
      OwnCons(Ready(c, true), [SeesReady] + []);
      OwnCons(StartClient(true), [Ready(c, true)] + ([SeesReady] + []));
    }
    es := [ReapNext] + rest;
    RunOne(s, ReapNext, rest);
    OwnCons(ReapNext, rest);
  }

  lemma NoneOwn()
    ensures AllOwn([])
  {
  }

  /** A step towards the lock, and what it leaves of the way. */
  function LockRank(s: State): nat {
    match s.lock
    case None => 0
    case Some(Controller) => if s.control.StopHolds? && s.control.i <= |s.slots| then |s.slots| - s.control.i + 1 else 0
    case Some(_) => 1
  }

  lemma LockComesFree(s: State, k: nat) returns (e: Event)
    requires Inv(s) && s.accept.WantsLock? && s.lock != None && Room(s, k, 0)
    ensures Typed(s) && Own(e)
    ensures var t := Step(s, e);
            t.accept == s.accept && Room(t, k, 0) && LockRank(t) < LockRank(s)
  {
    hide Actives, ConnsOk, SlotsOk, CountOk;
    match s.lock.value
    case Controller =>
      e := StopPasses;
    case Client(c) =>
      assert s.conns[c].phase == Marked;
      e := MarkReleases(c);
      hide Inv;
    case AcceptTask =>
      e := StopPasses;
  }

  /** From the moment it is accepted, whoever has the lock. */
  lemma {:induction false} ServedFromAccept(s: State, k: nat) returns (es: seq<Event>)
    requires Inv(s) && s.accept.WantsLock? && Room(s, k, 0)
    ensures AllOwn(es) && IsServed(Run(s, es), s.accept.c)
    decreases LockRank(s)
  {
    var e: Event, rest: seq<Event>;
    if s.lock == None {
      e := AcceptLocks;
      StepKeeps(s, e);
      assert Step(s, e) == s.(lock := Some(AcceptTask), accept := Reaping(s.accept.c, 0)) by {
        hide Inv, Room;
        assert Typed(s);
      }
      hide Inv, Step, Run, AllOwn, IsServed, Own;
      OwnAreFine();
      rest := ServedFromPass(Step(s, e), k);
    } else {
      hide *;
      e := LockComesFree(s, k);
      InvTyped(s, e);
      rest := ServedFromAccept(Step(s, e), k);
    }
    hide *;
    es := [e] + rest;
    RunOne(s, e, rest);
    OwnCons(e, rest);
  }

  lemma AcceptTakes(s: State)
    requires Inv(s) && s.accept == Accepting && s.listenOpen
    ensures var t := Step(s, AcceptReturns(Accepted));
            && Inv(t) && t.accept == WantsLock(|s.conns|) && t.slots == s.slots && t.lock == s.lock
            && |t.conns| == |s.conns| + 1 && t.conns[..|s.conns|] == s.conns
  {
    StepKeeps(s, AcceptReturns(Accepted));
    hide Inv;
    assert Typed(s);
  }

  /** A client that connects while a slot has no thread, or one that has returned, gets its thread and
      is served by the server's own steps, however many others are. */
  lemma {:induction false} ConnectingClientIsServed(s: State, k: nat) returns (es: seq<Event>)
    requires Inv(s) && s.accept == Accepting && s.listenOpen && Room(s, k, 0)
    ensures AllOwn(es)
    ensures IsServed(Run(s, [AcceptReturns(Accepted)] + es), |s.conns|)
  {
    AcceptTakes(s);
    var t := Step(s, AcceptReturns(Accepted));
    assert Room(t, k, 0) by {
      assert SlotOk(s.conns, s.accept, k, s.slots[k]);
      assert s.slots[k].handle.Some? ==> t.conns[s.slots[k].handle.value] == s.conns[s.slots[k].handle.value];
      hide Inv, Step;
    }
    hide Inv, Step, Run, Room, IsServed;
    es := ServedFromAccept(t, k);
    RunOne(s, AcceptReturns(Accepted), es);
  }

  lemma LoopStarts(s: State)
    requires Inv(s) && Quiet(s) && s.control == Idle && !s.started
    ensures var t := Step(s, CallLoop);
            && Inv(t) && Typed(t) && Inv(Step(t, AcceptPolls))
            && var u := Step(t, AcceptPolls);
               u.accept == Accepting && u.listenOpen && Room(u, 0, 0) && u.conns == s.conns
  {
    StepKeeps(s, CallLoop);
    StepKeeps(Step(s, CallLoop), AcceptPolls);
    assert |s.slots| > 0;
    hide Inv;
  }

  /** A server that is quiet, new or joined, can be started and serves again. */
  lemma {:induction false} QuietServerServesAgain(s: State) returns (es: seq<Event>)
    requires Inv(s) && Quiet(s) && s.control == Idle && !s.started
    ensures AllOwn(es)
    ensures IsServed(Run(s, [CallLoop] + ([AcceptPolls] + ([AcceptReturns(Accepted)] + es))), |s.conns|)
  {
    LoopStarts(s);
    var t := Step(s, CallLoop);
    var u := Step(t, AcceptPolls);
    hide *;
    es := ConnectingClientIsServed(u, 0);
    RunOne(t, AcceptPolls, [AcceptReturns(Accepted)] + es);
    RunOne(s, CallLoop, [AcceptPolls] + ([AcceptReturns(Accepted)] + es));
  }

  // ---- stop and join ----------------------------------------------------------------------------

  /** What stop's pass leaves of the rest. */
  predicate StillStopping(s: State, t: State) {
    t.stopRequested == s.stopRequested && t.listenOpen == s.listenOpen && t.accept == s.accept && |t.slots| == |s.slots|
  }

  lemma PassMoves(s: State)
    requires Typed(s) && s.control.StopHolds?
    ensures var t := Step(s, StopPasses);
            && StillStopping(s, t)
            && t.control == (if s.control.i < |s.slots| then StopHolds(s.control.i + 1) else Idle)
  {
    hide Typed;
    assert Step(s, StopPasses) == StopPass(s);
    hide Step;
  }

  lemma PassIndex(s: State)
    requires Inv(s) && s.control.StopHolds?
    ensures Typed(s) && s.control.i <= |s.slots|
  {
  }

  lemma OnePass(s: State)
    requires Inv(s) && AllReported(s) && s.control.StopHolds?
    ensures var t := Step(s, StopPasses);
            && Inv(t) && AllReported(t) && StillStopping(s, t)
            && t.control == (if s.control.i < |s.slots| then StopHolds(s.control.i + 1) else Idle)
            && (s.control.i >= |s.slots| ==> AllShut(t))
  {
    hide *;
    PassIndex(s);
    StepKeeps(s, StopPasses);
    ReportedByPass(s);
    PassMoves(s);
    if s.control.i == |s.slots| {
      PassShutsAll(s);
    }
  }

  lemma ReportedByPass(s: State)
    requires Inv(s) && AllReported(s)
    ensures AllReported(Step(s, StopPasses))
  {
    ReportedKeeps(s, StopPasses);
  }

  lemma {:induction false} PassGoesThrough(s: State) returns (es: seq<Event>)
    requires Inv(s) && AllReported(s) && s.control.StopHolds? && s.control.i <= |s.slots|
    ensures var t := Run(s, es);
            t.control == Idle && AllReported(t) && AllShut(t) && StillStopping(s, t)
    decreases |s.slots| - s.control.i
  {
    OnePass(s);
    var t := Step(s, StopPasses);
    var rest: seq<Event> := [];
    hide Inv, AllReported, AllShut, Step, Run;
    if s.control.i < |s.slots| {
      rest := PassGoesThrough(t);
    } else {
      RunSnoc(t, [], StopPasses);
    }
    es := [StopPasses] + rest;
    RunOne(s, StopPasses, rest);
  }

  lemma StopSteps(s: State)
    requires Typed(s) && s.control == Idle
    ensures Step(s, CallStop) == s.(stopRequested := true, control := CloseListener)
  {
    hide Typed;
  }

  lemma ClosesSteps(s: State)
    requires Typed(s) && s.control == CloseListener
    ensures Step(s, StopCloses) == s.(listenOpen := false, control := StopWantsLock)
  {
    hide Typed;
  }

  lemma LocksSteps(s: State)
    requires Typed(s) && s.control == StopWantsLock && s.lock == None
    ensures Step(s, StopLocks) == s.(lock := Some(Controller), control := StopHolds(0))
  {
    hide Typed;
  }

  lemma StopBegins(s: State)
    requires Inv(s) && AllReported(s) && s.control == Idle && s.lock == None
    ensures Typed(s)
    ensures var t := Step(s, CallStop);
            Inv(t) && Typed(t) && Inv(Step(t, StopCloses)) && Typed(Step(t, StopCloses))
    ensures var t := Step(Step(Step(s, CallStop), StopCloses), StopLocks);
            Inv(t) && AllReported(t) && Shut(t) && t.control == StopHolds(0)
  {
    hide Inv, Typed, Step;
    InvTyped(s, CallStop);
    StopSteps(s);
    var t := Step(s, CallStop);
    InvTyped(t, StopCloses);
    ClosesSteps(t);
    InvTyped(Step(t, StopCloses), StopLocks);
    LocksSteps(Step(t, StopCloses));
  }

  lemma JoinBegins(s: State)
    requires Inv(s) && AllReported(s) && Shut(s) && AllShut(s) && s.control == Idle
    ensures var t := Step(s, CallJoin); Closing(t) && AllShut(t)
  {
    StepKeeps(s, CallJoin);
    assert Typed(s);
    hide Inv;
  }

  /** A stop and then a join, called at rest with the lock free, run into the state the shutdown
      theorems start from, with every client that is being served shut down. */
  lemma {:induction false} StopAndJoinClose(s: State) returns (es: seq<Event>)
    requires Inv(s) && AllReported(s) && s.control == Idle && s.lock == None
    ensures var t := Run(s, [CallStop] + ([StopCloses] + ([StopLocks] + (es + [CallJoin]))));
            Closing(t) && AllShut(t)
  {
    StopBegins(s);
    var t := Step(s, CallStop);
    var u := Step(t, StopCloses);
    var v := Step(u, StopLocks);
    hide Inv, AllReported, AllShut, Step, Run, Closing;
    es := PassGoesThrough(v);
    JoinBegins(Run(v, es));
    RunSnoc(v, es, CallJoin);
    RunOne(u, StopLocks, es + [CallJoin]);
    RunOne(t, StopCloses, [StopLocks] + (es + [CallJoin]));
    RunOne(s, CallStop, [StopCloses] + ([StopLocks] + (es + [CallJoin])));
  }
}
