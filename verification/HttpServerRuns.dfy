/** Runs of a server with one slot into the two states in which it is stuck. */
module HttpServerRuns {
  import opened Bytes
  import opened HttpSlots
  import opened HttpServer
  import opened HttpServerGuarantees
  import opened HttpServerShutdown

  ghost predicate Reaches(s: State, t: State) {
    Inv(s) && exists es :: Run(s, es) == t
  }

  lemma ReachesSelf(s: State)
    requires Inv(s)
    ensures Reaches(s, s)
  {
    RunSnoc(s, [], CallStop);
    hide Inv, Run;
  }

  lemma ReachesNext(s: State, t: State, e: Event)
    requires Reaches(s, t)
    ensures Inv(t) && Typed(t) && Reaches(s, Step(t, e))
  {
    var es :| Run(s, es) == t;
    RunSnoc(s, es, e);
    StepKeeps(t, e);
    hide Run, Step;
  }

  /** A server of one slot before its first start. */
  const FRESH: State := State(None, [Slot(false, true, None, None)], 0, [], Absent, Idle, false, false, false)

  /** The same once the accept task has accepted a client, with stop still to come or done. */
  function Accepted1(stopped: bool): State {
    FRESH.(accept := WantsLock(0), conns := [Conn(NoThread, 0, false, 0, false)], started := true,
           listenOpen := !stopped, stopRequested := stopped)
  }

  /** ... once the slot is the client's ... */
  function Claimed(stopped: bool): State {
    Accepted1(stopped).(lock := Some(AcceptTask), accept := Creating(0, 0), slots := [Slot(true, false, Some(0), None)])
  }

  /** ... and once a thread for it has been started, whose ready signal is awaited. */
  function Starting(stopped: bool): State {
    Accepted1(stopped).(lock := Some(AcceptTask), accept := AwaitReady(0, 0),
      conns := [Conn(Entry, 0, false, 0, false)], slots := [Slot(true, false, Some(0), Some(0))])
  }

  lemma FreshReaches()
    ensures Reaches(FRESH, FRESH)
  {
    InitHolds(FRESH);
    hide Inv, Reaches;
    ReachesSelf(FRESH);
  }

  lemma AcceptsOne()
    ensures Reaches(FRESH, Accepted1(false))
  {
    FreshReaches();
    hide Inv, Reaches;
    var s1 := FRESH.(accept := Poll, started := true, listenOpen := true);
    var s2 := s1.(accept := Accepting);
    ReachesNext(FRESH, FRESH, CallLoop);
    assert Step(FRESH, CallLoop) == s1;
    ReachesNext(FRESH, s1, AcceptPolls);
    assert Step(s1, AcceptPolls) == s2;
    ReachesNext(FRESH, s2, AcceptReturns(Accepted));
    assert Step(s2, AcceptReturns(Accepted)) == Accepted1(false);
  }

  /** Stop's pass over the one slot, with the accept task holding an accepted client. */
  lemma StopPassesBy()
    requires Reaches(FRESH, Accepted1(false))
    ensures Reaches(FRESH, Accepted1(true))
  {
    hide Inv, Reaches;
    var s0 := Accepted1(false);
    var s1 := s0.(stopRequested := true, control := CloseListener);
    var s2 := s1.(listenOpen := false, control := StopWantsLock);
    var s3 := s2.(lock := Some(Controller), control := StopHolds(0));
    var s4 := s3.(control := StopHolds(1));
    ReachesNext(FRESH, s0, CallStop);
    assert Step(s0, CallStop) == s1;
    ReachesNext(FRESH, s1, StopCloses);
    assert Step(s1, StopCloses) == s2;
    ReachesNext(FRESH, s2, StopLocks);
    assert Step(s2, StopLocks) == s3;
    ReachesNext(FRESH, s3, StopPasses);
    assert Step(s3, StopPasses) == s4;
    ReachesNext(FRESH, s4, StopPasses);
    assert Step(s4, StopPasses) == Accepted1(true);
  }

  lemma ClaimsSlot(stopped: bool)
    requires Reaches(FRESH, Accepted1(stopped))
    ensures Reaches(FRESH, Claimed(stopped))
  {
    hide Inv, Reaches;
    var s0 := Accepted1(stopped);
    var s1 := s0.(lock := Some(AcceptTask), accept := Reaping(0, 0));
    var s2 := s1.(accept := Reaping(0, 1));
    ReachesNext(FRESH, s0, AcceptLocks);
    assert Step(s0, AcceptLocks) == s1;
    ReachesNext(FRESH, s1, ReapNext);
    assert Step(s1, ReapNext) == s2;
    ReachesNext(FRESH, s2, ReapNext);
    assert FirstFree(s2.slots) == 0;
    assert Step(s2, ReapNext) == Claimed(stopped);
  }

  lemma StartsThread(stopped: bool)
    requires Reaches(FRESH, Accepted1(stopped))
    ensures Reaches(FRESH, Starting(stopped))
  {
    hide Inv, Reaches;
    ClaimsSlot(stopped);
    ReachesNext(FRESH, Claimed(stopped), StartClient(true));
    assert Step(Claimed(stopped), StartClient(true)) == Starting(stopped);
  }

  /** ... and once it is being served and the join has begun. */
  function Joining1(): State {
    Starting(true).(conns := [Conn(Serving, 0, true, 0, false)], lock := None, accept := Poll,
                    activeCount := 1, control := JoinAccept)
  }

  lemma ServedAndJoined()
    requires Reaches(FRESH, Starting(true))
    ensures Reaches(FRESH, Joining1()) && Closing(Joining1()) && Exposed(Joining1(), 0)
  {
    hide Inv, Reaches;
    var s0 := Starting(true);
    var s1 := s0.(conns := [Conn(Serving, 0, true, 0, false)]);
    var s2 := s1.(lock := None, accept := Poll, activeCount := 1);
    var s3 := Joining1();
    ReachesNext(FRESH, s0, Ready(0, true));
    assert Step(s0, Ready(0, true)) == s1;
    ReachesNext(FRESH, s1, SeesReady);
    assert Step(s1, SeesReady) == s2;
    ReachesNext(FRESH, s2, CallJoin);
    assert Step(s2, CallJoin) == s3;
    ReachesNext(FRESH, s3, CallJoin);
  }

  lemma {:induction false} ReachesOn(s: State, t: State, es: seq<Event>)
    requires Reaches(s, t)
    ensures Inv(t) && Reaches(s, Run(t, es))
  {
    hide *;
    ReachesNext(s, t, CallStop);
    if es == [] {
      RunSnoc(t, [], CallStop);
    } else {
      var pre, x := es[..|es| - 1], es[|es| - 1];
      ReachesOn(s, t, pre);
      RunSnoc(t, pre, x);
      assert es == pre + [x];
      ReachesNext(s, Run(t, pre), x);
    }
  }

  /** A client accepted before stop and started after its pass is missed: the join waits for its peer. */
  lemma {:induction false} LateClientBlocks() returns (t: State)
    ensures Reaches(FRESH, t) && Inv(t) && Typed(t) && Blocked(t)
  {
    hide *;
    AcceptsOne();
    StopPassesBy();
    StartsThread(true);
    ServedAndJoined();
    var es := ExposedBlocks(Joining1(), 0);
    ReachesOn(FRESH, Joining1(), es);
    t := Run(Joining1(), es);
    ReachesNext(FRESH, t, CallStop);
  }

  lemma StartingFails()
    requires Typed(Starting(false))
    ensures var s := Starting(false);
            s.accept == AwaitReady(0, 0) && Is(s, 0, Entry) && !Posted(s, 0)
  {
  }

  /** The deadlock, too, is reached: the info callback of the first client's task fails. */
  lemma {:induction false} DeadlockIsReached() returns (t: State)
    ensures Reaches(FRESH, t) && Inv(t) && Cycle(t)
  {
    hide *;
    AcceptsOne();
    StartsThread(false);
    var s := Starting(false);
    ReachesNext(FRESH, s, Ready(0, false));
    StartingFails();
    FailedCallbackDeadlocks(s);
    var u := Step(s, Ready(0, false));
    ReachesNext(FRESH, u, ClosesClient(0));
    t := Step(u, ClosesClient(0));
    ReachesNext(FRESH, t, CallStop);
  }
}
