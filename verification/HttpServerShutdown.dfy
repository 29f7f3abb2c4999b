/** Shutting the server down. Once stop has closed the listener, every step that changes anything
    brings an untimed join closer to its end, and a client that stop has not shut down can hold it up. */
module HttpServerShutdown {
  import opened Bytes
  import opened HttpSlots
  import opened HttpServer
  import opened HttpServerGuarantees

  predicate Shut(s: State) {
    s.stopRequested && !s.listenOpen
  }

  /** Every client that may still have to be sent something has been shut down. */
  predicate AllShut(s: State) {
    forall c | 0 <= c < |s.conns| :: s.conns[c].phase in {Entry, Serving, Sending} ==> s.conns[c].shut
  }

  // ---- what stop leaves -------------------------------------------------------------------------

  lemma StopShuts(s: State)
    requires Inv(s) && s.control == CloseListener
    ensures Shut(Step(s, StopCloses))
  {
  }

  /** The server stays shut until it is started anew, which it cannot be before a join has gone through. */
  lemma ShutStays(s: State, e: Event)
    requires Inv(s) && Shut(s) && s.started
    ensures Shut(Step(s, e))
    ensures !Step(s, e).started ==> s.control == JoinSlot(|s.slots|)
  {
    hide Actives, ConnsOk, SlotsOk, FirstFree, TryReap;
  }

  /** When stop's pass ends, every client being served has been shut down. */
  lemma PassShutsAll(s: State)
    requires Inv(s) && s.control == StopHolds(|s.slots|)
    ensures AllShut(Step(s, StopPasses))
  {
    hide Actives;
    forall c | 0 <= c < |s.conns| && s.conns[c].phase in {Entry, Serving, Sending} ensures s.conns[c].shut {
      OwnSlot(s.conns, s.slots, s.accept, c);
      assert Passed(s.conns, s.slots[s.conns[c].slot]);
    }
  }

  lemma ShutByClient(s: State, e: Event)
    requires Typed(s) && AllShut(s)
    ensures AllShut(StepClient(s, e))
  {
  }

  lemma ShutByAccept(s: State, e: Event)
    requires Typed(s) && AllShut(s) && e != StartClient(true)
    ensures AllShut(StepAccept(s, e))
  {
    hide FirstFree, TryReap;
  }

  lemma ShutByControl(s: State, e: Event)
    requires Typed(s) && AllShut(s)
    ensures AllShut(StepControl(s, e))
  {
    if e.JoinAdvances? {
      hide StopPass;
    } else {
      hide Join;
    }
  }

  lemma AllShutStays(s: State, e: Event)
    requires Inv(s) && AllShut(s) && e != StartClient(true)
    ensures AllShut(Step(s, e))
  {
    ShutByClient(s, e);
    ShutByAccept(s, e);
    ShutByControl(s, e);
    hide AllShut, StepClient, StepAccept, StepControl;
  }

  /** Only a client started after stop's pass can be open without having been shut down. */
  lemma {:induction false} NoneStartedAllShut(s: State, es: seq<Event>)
    requires Inv(s) && s.control == StopHolds(|s.slots|) && |es| > 0 && es[0] == StopPasses
    requires forall i | 0 <= i < |es| :: es[i] != StartClient(true)
    ensures AllShut(Run(s, es))
  {
    var n := |es| - 1;
    if n == 0 {
      PassShutsAll(s);
      assert es[..0] == [] && Run(s, []) == s;
    } else {
      assert es[..n][0] == StopPasses;
      NoneStartedAllShut(s, es[..n]);
      AllShutStays(Run(s, es[..n]), es[n]);
    }
    hide AllShut, Inv, Step;
  }

  // ---- the measure ------------------------------------------------------------------------------

  function PhaseRank(p: Phase): nat {
    match p
    case NoThread => 0
    case Entry => 8
    case Serving => 7
    case Sending => 6
    case Cleanup => 5
    case WantLock => 4
    case Marked => 3
    case Returning => 2
    case Exited => 1
    case Joined => 0
  }

  function Work(conns: seq<Conn>): nat {
    if conns == [] then 0 else Work(conns[..|conns| - 1]) + PhaseRank(conns[|conns| - 1].phase)
  }

  lemma {:induction false} WorkUpdate(conns: seq<Conn>, c: nat, x: Conn)
    requires c < |conns|
    ensures Work(conns[c := x]) == Work(conns) - PhaseRank(conns[c].phase) + PhaseRank(x.phase)
  {
    var n := |conns| - 1;
    if c < n {
      WorkUpdate(conns[..n], c, x);
      assert conns[c := x][..n] == conns[..n][c := x];
    } else {
      assert conns[c := x][..n] == conns[..n];
    }
  }

  /** Creating outweighs the thread it may start. */
  function AcceptRank(a: Accept, n: nat): nat {
    match a
    case Absent => 0
    case Stopped => 1
    case Poll => 2
    case Accepting => 3
    case Dropping(_) => 3
    case AwaitReady(_, _) => 3
    case Failing(_) => 4
    case Creating(_, _) => 12
    case Reaping(_, i) => if i <= n then 13 + n - i else 13
    case WantsLock(_) => 14 + n
  }

  function ControlRank(k: Control, n: nat): nat {
    match k
    case JoinAccept => n + 2
    case JoinSlot(i) => if i <= n then n + 1 - i else 0
    case _ => 0
  }

  function Measure(s: State): nat {
    Work(s.conns) + AcceptRank(s.accept, |s.slots|) + ControlRank(s.control, |s.slots|)
  }

  // ---- every step counts ------------------------------------------------------------------------

  lemma ClientMoves(s: State, e: Event)
    requires Typed(s) && OfClient(e) && StepClient(s, e) != s
    ensures e.c < |s.conns|
    ensures var r := StepClient(s, e);
            && r.accept == s.accept && r.control == s.control && |r.slots| == |s.slots|
            && r.stopRequested == s.stopRequested && r.listenOpen == s.listenOpen
            && |r.conns| == |s.conns| && r.conns == s.conns[e.c := r.conns[e.c]]
            && PhaseRank(r.conns[e.c].phase) < PhaseRank(s.conns[e.c].phase)
  {
    match e
    case Ready(_, _) =>
    case ClosesClient(_) =>
    case Marks(_) =>
    case _ => hide CloseConn;
  }

  lemma ClientDecreases(s: State, e: Event)
    requires Typed(s) && OfClient(e) && StepClient(s, e) != s
    ensures Measure(StepClient(s, e)) < Measure(s)
  {
    ClientMoves(s, e);
    hide Work, StepClient;
    WorkUpdate(s.conns, e.c, StepClient(s, e).conns[e.c]);
  }

  lemma ReapDecreases(s: State)
    requires Inv(s) && s.accept.Reaping?
    ensures Measure(Reap(s)) < Measure(s)
  {
    hide Work, TryReap, FirstFree, Actives, ConnsOk, SlotsOk, LockOk;
    if s.accept.i < |s.slots| {
      var h := s.slots[s.accept.i].handle;
      if h.Some? {
        WorkUpdate(s.conns, h.value, s.conns[h.value].(phase := Joined));
      }
    }
  }

  lemma AcceptDecreases(s: State, e: Event)
    requires Inv(s) && Shut(s) && !OfClient(e) && !OfControl(e) && StepAccept(s, e) != s
    ensures Measure(StepAccept(s, e)) < Measure(s)
  {
    hide Work, Actives, ConnsOk, SlotsOk, LockOk;
    if e.ReapNext? {
      ReapDecreases(s);
    } else if e.StartClient? {
      WorkUpdate(s.conns, s.accept.c, Start(s, true).conns[s.accept.c]);
    } else if e.Drops? {
      WorkUpdate(s.conns, s.accept.c, StepAccept(s, e).conns[s.accept.c]);
    }
    hide Reap;
  }

  lemma JoinDecreases(s: State)
    requires Inv(s) && (s.control.JoinAccept? || s.control.JoinSlot?) && Join(s) != s
    ensures Measure(Join(s)) < Measure(s)
  {
    hide Work, Actives, ConnsOk, LockOk;
    if s.control.JoinSlot? && s.control.i < |s.slots| && s.slots[s.control.i].handle.Some? {
      var i, c := s.control.i, s.slots[s.control.i].handle.value;
      assert SlotOk(s.conns, s.accept, i, s.slots[i]);
      if Is(s, c, Exited) {
        WorkUpdate(s.conns, c, s.conns[c].(phase := Joined));
      }
    }
  }

  /** The steps there are while the controller is in an untimed join and no info callback fails. */
  predicate Allowed(e: Event) {
    && !e.JoinTimesOut? && !e.CallLoop? && !e.CallStop? && !e.CallJoin?
    && (e.Ready? ==> e.callbackOk)
  }

  /** And those of them that need no peer to read. */
  predicate Unaided(e: Event) {
    Allowed(e) && !e.PeerReads?
  }

  /** Shut, with an untimed join at work and every client thread reporting ready. */
  predicate Closing(s: State) {
    Inv(s) && AllReported(s) && Shut(s) && (s.control.JoinAccept? || s.control.JoinSlot?)
  }

  /** What an allowed step of the accept task or the controller leaves as it is. */
  lemma AcceptStays(s: State, e: Event)
    requires Typed(s) && Shut(s)
    ensures var r := StepAccept(s, e);
            Shut(r) && r.control == s.control
  {
    hide FirstFree, TryReap;
  }

  lemma ControlStays(s: State, e: Event)
    requires Typed(s) && Shut(s) && Allowed(e) && (s.control.JoinAccept? || s.control.JoinSlot?)
    ensures var r := StepControl(s, e);
            && Shut(r) && (r.control.JoinAccept? || r.control.JoinSlot? || r.control.Idle?)
  {
  }

  lemma StaysClosing(s: State, e: Event)
    requires Closing(s) && Allowed(e)
    ensures Closing(Step(s, e)) || Step(s, e).control == Idle
  {
    StepKeeps(s, e);
    ReportedKeeps(s, e);
    AcceptStays(s, e);
    ControlStays(s, e);
    if OfClient(e) && StepClient(s, e) != s {
      ClientMoves(s, e);
    }
    hide Inv, AllReported, StepAccept, StepControl, StepClient;
  }

  /** Any step that changes the state lowers the measure, and the join ends in quiescence. */
  lemma EveryStepCounts(s: State, e: Event)
    requires Closing(s) && Allowed(e) && Step(s, e) != s
    ensures Measure(Step(s, e)) < Measure(s)
    ensures Closing(Step(s, e)) || (Quiet(Step(s, e)) && Step(s, e).control == Idle)
  {
    StaysClosing(s, e);
    if OfClient(e) {
      ClientDecreases(s, e);
      hide Measure, Inv;
    } else if OfControl(e) {
      JoinDecreases(s);
      EndsQuiet(s, e);
      hide Measure, Inv;
    } else {
      AcceptDecreases(s, e);
      hide Measure, Inv, Reap, Start;
    }
  }

  lemma EndsQuiet(s: State, e: Event)
    requires Closing(s) && OfControl(e) && Allowed(e) && Step(s, e) != s
    ensures e == JoinAdvances && Step(s, e) == Join(s)
    ensures Step(s, e).control == Idle ==> Quiet(Step(s, e))
  {
    hide Actives, ConnsOk, SlotsOk, Quiet;
    if s.control == JoinSlot(|s.slots|) {
      JoinLeavesQuiet(s);
    }
  }

  lemma ReportedMeansNotDoomed(s: State)
    requires AllReported(s)
    ensures !Doomed(s)
  {
  }

  /** Until the join is through, the server has a step of its own, or a peer has only to read. */
  lemma SomeStep(s: State) returns (e: Event)
    requires Closing(s)
    ensures Step(s, e) != s && (Own(e) || (e.PeerReads? && Is(s, e.c, Sending) && !s.conns[e.c].shut))
  {
    ReportedMeansNotDoomed(s);
    var p := WaitsEndAtABusyThread(s, Controller);
    var b := p[|p| - 1];
    if AwaitsNetwork(s, b) {
      e := PeerReads(b.c);
    } else {
      e := BusyThreadMoves(s, b);
    }
  }

  // ---- runs -------------------------------------------------------------------------------------

  lemma InvTyped(s: State, e: Event)
    requires Inv(s)
    ensures Typed(s) && Inv(Step(s, e))
  {
    StepKeeps(s, e);
  }

  lemma RunSnoc(s: State, es: seq<Event>, e: Event)
    requires Inv(s)
    ensures Run(s, es + [e]) == Step(Run(s, es), e) && Run(s, []) == s
  {
    hide Inv, Step;
    assert (es + [e])[..|es|] == es;
  }

  lemma {:induction false} RunOne(s: State, e: Event, es: seq<Event>)
    requires Inv(s)
    ensures Inv(Step(s, e)) && Run(s, [e] + es) == Run(Step(s, e), es)
  {
    hide *;
    InvTyped(s, e);
    var t := Step(s, e);
    RunSnoc(s, [], e);
    if es == [] {
      RunSnoc(t, [], e);
      assert [e] + es == [] + [e];
    } else {
      var pre, x := es[..|es| - 1], es[|es| - 1];
      var longer := [e] + pre;
      RunOne(s, e, pre);
      RunSnoc(s, longer, x);
      RunSnoc(t, pre, x);
      assert [e] + es == longer + [x] && es == pre + [x];
    }
  }

  /** A step the server takes by itself, nothing failing in it, or a peer's reading. */
  predicate Helped(e: Event) {
    Own(e) || e.PeerReads?
  }

  predicate AllHelped(es: seq<Event>) {
    forall i | 0 <= i < |es| :: Helped(es[i])
  }

  predicate AllAllowed(es: seq<Event>) {
    forall i | 0 <= i < |es| :: Allowed(es[i])
  }

  predicate AllUnaided(es: seq<Event>) {
    forall i | 0 <= i < |es| :: Unaided(es[i])
  }

  lemma OwnIsUnaided(e: Event)
    requires Own(e)
    ensures Unaided(e)
  {
  }

  /** A step and what it leads to. */
  lemma NextStep(s: State) returns (e: Event)
    requires Closing(s)
    ensures Typed(s) && Helped(e) && Measure(Step(s, e)) < Measure(s)
    ensures Inv(Step(s, e)) && (Closing(Step(s, e)) || Quiet(Step(s, e)))
  {
    e := SomeStep(s);
    if Own(e) {
      OwnIsUnaided(e);
    }
    EveryStepCounts(s, e);
    StepKeeps(s, e);
    hide Measure, Step, Inv, Quiet;
  }

  /** If peers read what they are sent, the join can always be completed, and the server is quiet then. */
  lemma {:induction false} ShutdownCompletes(s: State) returns (es: seq<Event>)
    requires Closing(s)
    ensures Inv(s) && AllHelped(es) && Quiet(Run(s, es))
    decreases Measure(s)
  {
    hide *;
    ClosingInv(s);
    var e := NextStep(s);
    var t := Step(s, e);
    if Closing(t) {
      var rest := ShutdownCompletes(t);
      es := [e] + rest;
      HelpedCons(e, rest);
      RunOne(s, e, rest);
    } else {
      es := [e] + [];
      HelpedCons(e, []);
      RunOne(s, e, []);
      RunSnoc(t, [], e);
    }
  }

  lemma ClosingInv(s: State)
    requires Closing(s)
    ensures Inv(s)
  {
    hide Inv;
  }

  lemma HelpedCons(e: Event, es: seq<Event>)
    requires Helped(e) && (es == [] || AllHelped(es))
    ensures AllHelped([e] + es)
  {
    hide Helped;
  }

  /** A run of more steps than the measure, all changing something, has completed it. */
  lemma {:induction false} ShutdownCannotStall(s: State, es: seq<Event>)
    requires Closing(s) && AllAllowed(es)
    requires forall i | 0 <= i < |es| :: Run(s, es[..i + 1]) != Run(s, es[..i])
    requires |es| > Measure(s)
    ensures exists i | 0 <= i <= |es| :: Quiet(Run(s, es[..i]))
  {
    var i := 0;
    while i < |es| && !Quiet(Run(s, es[..i]))
      invariant i <= |es| && (Quiet(Run(s, es[..i])) || Closing(Run(s, es[..i])))
      invariant Measure(Run(s, es[..i])) + i <= Measure(s)
    {
      hide Closing, Measure, Step, Quiet, Inv, Allowed;
      assert es[..i + 1][..i] == es[..i];
      EveryStepCounts(Run(s, es[..i]), es[i]);
      i := i + 1;
    }
  }

  // ---- without the peers' help ------------------------------------------------------------------

  /** The join is not through, and nothing the server can do by itself changes anything. */
  ghost predicate Blocked(s: State)
    requires Typed(s)
  {
    Closing(s) && forall e | Unaided(e) :: Step(s, e) == s
  }

  /** Whatever the server does by itself, it never comes to wait for a peer to read. */
  ghost predicate NeedsNoPeer(s: State)
    requires Inv(s)
  {
    forall es | AllUnaided(es) :: !Blocked(Run(s, es))
  }

  /** Client c is being served and has not been shut down. */
  predicate Exposed(s: State, c: nat) {
    c < |s.conns| && s.conns[c].phase in {Entry, Serving, Sending} && !s.conns[c].shut
  }

  /** Of the server's own steps only the end of its serving lets an exposed client go. */
  lemma ExposedByClient(s: State, e: Event, c: nat)
    requires Typed(s) && Exposed(s, c) && OfClient(e) && Unaided(e) && e != Serves(c, false)
    ensures Exposed(StepClient(s, e), c)
  {
  }

  lemma ExposedByAccept(s: State, e: Event, c: nat)
    requires Inv(s) && Exposed(s, c)
    ensures Exposed(StepAccept(s, e), c)
  {
    hide FirstFree, Actives, LockOk, ConnsOk, SlotsOk, CountOk;
  }

  lemma ExposedByJoin(s: State, c: nat)
    requires Inv(s) && Exposed(s, c) && (s.control.JoinAccept? || s.control.JoinSlot?)
    ensures Exposed(Join(s), c) && Join(s).control != Idle
  {
    hide Actives, LockOk, CountOk, AcceptOk;
    OwnSlot(s.conns, s.slots, s.accept, c);
  }

  lemma UnblockedStep(s: State, c: nat) returns (e: Event)
    requires Closing(s) && Exposed(s, c) && !Blocked(s)
    ensures Typed(s) && Unaided(e) && Measure(Step(s, e)) < Measure(s)
    ensures Inv(Step(s, e)) && Closing(Step(s, e)) && Exposed(Step(s, e), c)
  {
    var e0 :| Unaided(e0) && Step(s, e0) != s;
    e := if e0 == Serves(c, false) then Serves(c, true) else e0;
    StillExposed(s, e0, c);
    EveryStepCounts(s, e);
    QuietExposesNobody(Step(s, e), c);
    hide Step, Measure, Inv, AllReported, Exposed, Quiet, Blocked;
  }

  /** An exposed client whose response does not fit blocks the join: the server runs out of steps. */
  lemma {:induction false} ExposedBlocks(s: State, c: nat) returns (es: seq<Event>)
    requires Closing(s) && Exposed(s, c)
    ensures Inv(s) && AllUnaided(es) && Blocked(Run(s, es))
    decreases Measure(s)
  {
    hide *;
    ClosingInv(s);
    InvTyped(s, AcceptPolls);
    if Blocked(s) {
      es := [];
      RunSnoc(s, [], AcceptPolls);
      NoneUnaided();
    } else {
      var e := UnblockedStep(s, c);
      var rest := ExposedBlocks(Step(s, e), c);
      UnaidedCons(e, rest);
      RunOne(s, e, rest);
      es := [e] + rest;
    }
  }

  lemma NoneUnaided()
    ensures AllUnaided([])
  {
  }

  lemma UnaidedCons(e: Event, es: seq<Event>)
    requires Unaided(e) && AllUnaided(es)
    ensures AllUnaided([e] + es)
  {
    hide Unaided;
  }

  lemma StillExposed(s: State, e0: Event, c: nat)
    requires Closing(s) && Exposed(s, c) && Unaided(e0) && Step(s, e0) != s
    ensures var e := if e0 == Serves(c, false) then Serves(c, true) else e0;
            Unaided(e) && Step(s, e) != s && Exposed(Step(s, e), c)
  {
    var e := if e0 == Serves(c, false) then Serves(c, true) else e0;
    if OfClient(e) {
      ExposedByClient(s, e, c);
      hide Inv, AllReported;
    } else if OfControl(e) {
      EndsQuiet(s, e);
      ExposedByJoin(s, c);
      hide Step, Join, Closing;
    } else {
      ExposedByAccept(s, e, c);
      hide StepAccept, Closing;
    }
  }

  lemma QuietExposesNobody(s: State, c: nat)
    ensures Exposed(s, c) ==> !Quiet(s)
  {
  }
}
