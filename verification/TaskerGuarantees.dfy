/** What the task object guarantees in every run of one controller and its threads. */
module TaskerGuarantees {
  import opened Bytes
  import opened Tasker

  lemma InitialHolds()
    ensures Inv(INITIAL) && JoinsFirst(INITIAL) && EndIsSeen(INITIAL)
  {
  }

  /** A task object some time after dttasker_create. */
  ghost function After(es: seq<Event>): (r: State)
    ensures Inv(r)
  {
    InitialHolds();
    Run(INITIAL, es)
  }

  lemma AfterStep(es: seq<Event>)
    ensures After([]) == INITIAL
    ensures es != [] ==> After(es) == Step(After(es[..|es| - 1]), es[|es| - 1])
  {
    InitialHolds();
    hide Inv, Step;
  }

  // ---- the ready signal -------------------------------------------------------------------------

  /** No run ever posts ready twice, and a finished run has posted exactly if it reported or failed. */
  lemma OnePostPerRun(es: seq<Event>, i: nat)
    requires i < |After(es).threads|
    ensures var x := After(es).threads[i];
            x.posts <= 1 && (x.phase == Done ==> (x.posts == 1 <==> x.reported || x.failed))
  {
    var r := After(es);
    hide After;
    assert ThreadOk(r.threads[i]);
  }

  /** Outside start the semaphore is 0, so start returns only on the signal of the run it began. */
  lemma NoStaleSignal(es: seq<Event>)
    ensures var r := After(es);
            && (r.control != AwaitReady ==> r.semaphore == 0)
            && (r.control == AwaitReady && r.semaphore > 0 ==> r.semaphore == 1 && Last(r).posts == 1)
  {
    var r := After(es);
    hide After;
    if r.control == AwaitReady {
      assert ThreadOk(Last(r));
    }
  }

  /** Once its run is over, start finds no signal exactly if the run neither reported nor failed. */
  lemma StartHangsIff(s: State)
    requires Inv(s) && s.control == AwaitReady && Last(s).phase == Done
    ensures s.semaphore == 0 <==> !Last(s).reported && !Last(s).failed
  {
    assert ThreadOk(Last(s));
  }

  predicate Hung(s: State) {
    s.control == AwaitReady && s.semaphore == 0 && s.threads != [] && Last(s).phase == Done
  }

  lemma HangLasts(s: State, e: Event)
    requires Hung(s)
    ensures Hung(Step(s, e))
  {
  }

  lemma {:induction false} HangIsForever(s: State, es: seq<Event>)
    requires Inv(s) && Hung(s)
    ensures Hung(Run(s, es))
  {
    if es != [] {
      HangIsForever(s, es[..|es| - 1]);
      HangLasts(Run(s, es[..|es| - 1]), es[|es| - 1]);
      hide Inv, Hung, Step;
    }
  }

  // ---- stop -------------------------------------------------------------------------------------

  lemma StopStays(s: State, e: Event)
    requires s.stopRequested && e != Resets
    ensures Step(s, e).stopRequested
  {
    hide NextThread, Last;
    if !OfControl(e) && s.threads != [] {
      assert SetLast(s, NextThread(Last(s), e, s.readyPosted)).stopRequested;
    }
    hide SetLast;
  }

  lemma {:induction false} StopLasts(s: State, es: seq<Event>)
    requires Inv(s) && s.stopRequested && forall i | 0 <= i < |es| :: es[i] != Resets
    ensures Run(s, es).stopRequested
  {
    if es != [] {
      var n := |es| - 1;
      StopLasts(s, es[..n]);
      StopStays(Run(s, es[..n]), es[n]);
      hide Inv;
    }
  }

  /** A stop request is there for the task to see until the next start wipes it out. */
  lemma {:induction false} StopIsSeen(s: State, es: seq<Event>)
    requires Inv(s) && s.control == Idle && forall i | 0 <= i < |es| :: es[i] != Resets
    ensures Inv(Step(s, CallStop)) && Run(Step(s, CallStop), es).stopRequested
    ensures forall r: State | r.control == Resetting :: !Step(r, Resets).stopRequested
  {
    StepKeeps(s, CallStop);
    StopLasts(Step(s, CallStop), es);
    hide Inv;
  }

  // ---- start and join get through ---------------------------------------------------------------

  /** At rest a start is accepted exactly if no thread runs and none is wrongly believed in; refused,
      it changes nothing. */
  lemma StartAcceptedIff(es: seq<Event>)
    requires After(es).control == Idle
    ensures var r := After(es);
            if Alive(r) || Wedged(r) then Step(r, CallStart) == r else Step(r, CallStart) == r.(control := Resetting)
  {
    var r := After(es);
    hide After, ThreadsOk, SignalOk;
    assert Inv(r);
  }

  /** What start has done when its thread has been created. */
  function Begun(s: State): State {
    State(AwaitReady, true, false, false, false, false, 0, s.status, s.threads + [Thread(Running, false, false, 0, 0)])
  }

  lemma StartBegins(s: State)
    requires Inv(s) && s.control == Idle && !Alive(s) && !Wedged(s)
    ensures Step(Step(Step(s, CallStart), Resets), Creates(true)) == Begun(s)
  {
    assert s.semaphore == 0 by {
      hide ThreadsOk, LifeOk, JoinOk;
    }
    assert !(s.created && !s.exited) by {
      hide ThreadsOk, SignalOk;
    }
    hide Inv, StepThread;
    var s1 := Step(s, CallStart);
    assert s1 == s.(control := Resetting);
    assert Step(s1, Resets)
        == State(Creating, s.created, false, false, false, false, 0, s.status, s.threads);
  }

  lemma ReadyIsSeen(s: State, before: seq<Thread>)
    requires s.threads == before + [Thread(Running, false, false, 0, 0)]
    requires s.control == AwaitReady && s.semaphore == 0 && !s.readyPosted
    ensures Step(Step(Step(Step(s, ReportsReady(true)), Latches), Posts), SeesReady)
         == s.(control := Idle, readyPosted := true, status := Ready, threads := before + [Thread(Running, true, false, 1, 0)])
  {
    hide StepThread;
    RunsOn(s, before, Thread(Running, false, false, 0, 0), ReportsReady(true));
    var y := Thread(Latching(false), true, false, 0, 0);
    var s1 := s.(status := Ready, threads := before + [y]);
    RunsOn(s1, before, y, Latches);
    var z := Thread(Posting(false), true, false, 0, 0);
    var s2 := s1.(readyPosted := true, threads := before + [z]);
    RunsOn(s2, before, z, Posts);
  }

  /** An accepted start whose thread is created and reports ready returns with that thread running. */
  lemma StartRuns(s: State)
    requires Inv(s) && s.control == Idle && !Alive(s) && !Wedged(s)
    ensures var s1 := Step(Step(Step(s, CallStart), Resets), Creates(true));
            Step(Step(Step(Step(s1, ReportsReady(true)), Latches), Posts), SeesReady)
              == State(Idle, true, false, false, false, true, 0, Ready, s.threads + [Thread(Running, true, false, 1, 0)])
  {
    StartBegins(s);
    ReadyIsSeen(Begun(s), s.threads);
    hide Inv, Step;
  }

  /** What an event of the last thread leads to. */
  lemma RunsOn(s: State, before: seq<Thread>, x: Thread, e: Event)
    requires s.threads == before + [x] && !OfControl(e)
    ensures Step(s, e) == s.(
              threads := before + [NextThread(x, e, s.readyPosted)],
              readyPosted := s.readyPosted || (e.Latches? && x.phase.Latching?),
              semaphore := if e.Posts? && x.phase.Posting? then s.semaphore + 1 else s.semaphore,
              status := if e.ReportsReady? && x.phase == Running then Ready
                        else if e.SetsStopped? && x.phase.Stopping? then Stopped
                        else s.status,
              exited := s.exited || (e.Flags? && x.phase == Flagging))
  {
    hide NextThread;
    assert Last(s) == x;
    assert forall y :: (before + [x])[|before| := y] == before + [y];
  }

  /** A join after the run's end goes through. */
  lemma JoinGoesThrough(s: State)
    requires Inv(s) && s.control == Idle && s.created && s.exited
    ensures var s1 := Step(Step(Step(s, CallJoin), TakesSnapshot), SeesExit);
            var r := Step(Step(Step(s1, Checks), JoinsThread), MarksJoined);
            && r.control == Idle && r.joined && !r.created && |r.threads| == |s.threads|
            && r.threads != [] && Last(r).joins == 1 && Last(r).phase == Done
  {
    assert s.threads != [] && Last(s).phase == Done && Last(s).joins == 0 && !s.joined by {
      hide ThreadsOk, SignalOk;
    }
    hide Inv, StepThread;
    JoinWaits(s);
  }

  lemma JoinWaits(s: State)
    requires s.control == Idle && s.created && s.exited && !s.joined
    ensures Step(Step(Step(Step(s, CallJoin), TakesSnapshot), SeesExit), Checks) == s.(control := Joining)
  {
    hide StepThread, SetLast, Last;
    assert Step(Step(s, CallJoin), TakesSnapshot) == s.(control := Waiting);
  }

  // ---- join -------------------------------------------------------------------------------------

  /** A join that has waited out a run leaves the task STOPPED and the thread joined once. */
  lemma JoinedMeansStopped(s: State)
    requires Inv(s) && s.control == Marking
    ensures var r := Step(s, MarksJoined);
            && r.control == Idle && r.status == Stopped && r.joined && !r.created
            && r.threads != [] && Last(r).phase == Done && Last(r).joins == 1
  {
    hide ThreadsOk, SignalOk;
  }

  /** Every thread but the current one has been joined, and the current one unless it is still due. */
  predicate AllJoined(s: State) {
    forall i | 0 <= i < |s.threads| ::
      s.threads[i].joins == if i == |s.threads| - 1 && s.created && s.control != Marking then 0 else 1
  }

  /** The controller joins before it starts again. */
  predicate JoinsFirst(s: State) {
    AllJoined(s) && (s.control in {Resetting, Creating} ==> !s.created)
  }

  lemma JoinsFirstKeeps(s: State, e: Event)
    requires Inv(s) && JoinsFirst(s)
    requires e == CallStart && s.control == Idle ==> !s.created
    ensures JoinsFirst(Step(s, e))
  {
    if OfControl(e) {
      hide ThreadsOk, SignalOk, LifeOk, StepThread;
    } else {
      ThreadKeepsJoins(s, e);
      hide Inv, StepThread;
    }
  }

  lemma ThreadKeepsJoins(s: State, e: Event)
    ensures var r := StepThread(s, e);
            && |r.threads| == |s.threads| && r.created == s.created && r.control == s.control
            && forall i | 0 <= i < |s.threads| :: r.threads[i].joins == s.threads[i].joins
  {
    hide NextThread;
  }

  /** No start of `es` comes while an earlier run is still to be joined. */
  ghost predicate Disciplined(es: seq<Event>) {
    forall i | 0 <= i < |es| && es[i] == CallStart :: After(es[..i]).control == Idle ==> !After(es[..i]).created
  }

  lemma DisciplinedPrefix(es: seq<Event>)
    requires es != [] && Disciplined(es)
    ensures Disciplined(es[..|es| - 1])
  {
    hide After;
    var n := |es| - 1;
    forall i | 0 <= i < n && es[..n][i] == CallStart
      ensures After(es[..n][..i]).control == Idle ==> !After(es[..n][..i]).created
    {
      assert es[..n][..i] == es[..i] && es[i] == CallStart;
    }
  }

  lemma {:induction false} OneJoinPerThread(es: seq<Event>)
    requires Disciplined(es)
    ensures JoinsFirst(After(es))
  {
    AfterStep(es);
    InitialHolds();
    hide Inv, JoinsFirst, Step, After;
    if es != [] {
      var n := |es| - 1;
      DisciplinedPrefix(es);
      OneJoinPerThread(es[..n]);
      JoinsFirstKeeps(After(es[..n]), es[n]);
    }
  }

  // ---- a failing thread creation ----------------------------------------------------------------

  /** The object believes in a thread that will never set the exited flag. */
  predicate Wedged(s: State) {
    && s.created && !s.exited && s.threads != [] && Last(s).phase == Done
    && s.control in {Idle, Snapshot, Waiting}
  }

  /** Creation failing leaves the task wedged exactly if the run before was never joined. */
  lemma CreateFailureWedgesIff(s: State)
    requires Inv(s) && s.control == Creating
    ensures Wedged(Step(s, Creates(false))) <==> s.created
  {
    hide ThreadsOk, SignalOk;
  }

  /** A wedged task refuses every start, and no join of it ever ends but by its timeout. */
  lemma WedgeLasts(s: State, e: Event)
    requires Inv(s) && Wedged(s)
    ensures Wedged(Step(s, e)) && Step(s, e).threads == s.threads
    ensures s.control == Waiting && Step(s, e).control == Idle ==> e == TimesOut
    ensures e == CallStart ==> Step(s, e) == s
  {
    hide ThreadsOk, SignalOk;
  }

  lemma {:induction false} WedgeIsForever(s: State, es: seq<Event>)
    requires Inv(s) && Wedged(s)
    ensures Wedged(Run(s, es)) && Run(s, es).threads == s.threads
  {
    if es != [] {
      WedgeIsForever(s, es[..|es| - 1]);
      WedgeLasts(Run(s, es[..|es| - 1]), es[|es| - 1]);
      hide Inv, Wedged, Step;
    }
  }

  /** The end of the current run is seen in the exited flag. */
  predicate EndIsSeen(s: State) {
    s.created && s.threads != [] && Last(s).phase == Done ==> s.exited
  }

  lemma EndStaysSeen(s: State, e: Event)
    requires Inv(s) && JoinsFirst(s) && EndIsSeen(s)
    ensures EndIsSeen(Step(s, e))
  {
    hide ThreadsOk, SignalOk, AllJoined;
  }

  /** A controller that joins before it starts again never gets there. */
  lemma {:induction false} JoiningPreventsWedge(es: seq<Event>)
    requires Disciplined(es)
    ensures EndIsSeen(After(es)) && !Wedged(After(es))
  {
    AfterStep(es);
    InitialHolds();
    hide Inv, JoinsFirst, Step, After;
    if es != [] {
      var n := |es| - 1;
      DisciplinedPrefix(es);
      JoiningPreventsWedge(es[..n]);
      OneJoinPerThread(es[..n]);
      EndStaysSeen(After(es[..n]), es[n]);
    }
  }

  // ---- runs into the two stuck states -----------------------------------------------------------

  ghost predicate Reached(t: State) {
    exists es :: After(es) == t
  }

  lemma ReachedNext(t: State, e: Event)
    requires Reached(t)
    ensures Reached(Step(t, e))
  {
    var es :| After(es) == t;
    AfterStep(es + [e]);
    assert (es + [e])[..|es|] == es;
    hide After, Step;
  }

  /** What an event of the first run's thread leads to. */
  lemma ThreadNext(s: State, x: Thread, e: Event)
    requires Reached(s) && s.threads == [x] && !OfControl(e)
    ensures Reached(s.(
              threads := [NextThread(x, e, s.readyPosted)],
              readyPosted := s.readyPosted || (e.Latches? && x.phase.Latching?),
              semaphore := if e.Posts? && x.phase.Posting? then s.semaphore + 1 else s.semaphore,
              status := if e.ReportsReady? && x.phase == Running then Ready
                        else if e.SetsStopped? && x.phase.Stopping? then Stopped
                        else s.status,
              exited := s.exited || (e.Flags? && x.phase == Flagging)))
  {
    hide Reached, NextThread;
    ReachedNext(s, e);
    assert Last(s) == x;
    assert forall y :: [x][0 := y] == [y];
  }

  /** A first run that has begun. */
  const BEGUN: State := INITIAL.(created := true, control := AwaitReady, threads := [Thread(Running, false, false, 0, 0)])

  lemma RunBegins()
    ensures Reached(BEGUN)
  {
    AfterStep([]);
    assert Reached(INITIAL);
    hide Reached, After;
    var s1 := INITIAL.(control := Resetting);
    var s2 := s1.(control := Creating);
    ReachedNext(INITIAL, CallStart);
    assert Step(INITIAL, CallStart) == s1;
    ReachedNext(s1, Resets);
    assert Step(s1, Resets) == s2;
    ReachedNext(s2, Creates(true));
    assert Step(s2, Creates(true)) == BEGUN;
  }

  /** A run that just returns, without having reported ready, leaves its start hanging. */
  lemma HangIsReached() returns (t: State)
    ensures Reached(t) && Hung(t)
  {
    RunBegins();
    hide Reached;
    var x1 := Thread(Stopping(false), false, false, 0, 0);
    var x2 := Thread(Flagging, false, false, 0, 0);
    var s1 := BEGUN.(threads := [x1]);
    var s2 := BEGUN.(threads := [x2], status := Stopped);
    ThreadNext(BEGUN, Thread(Running, false, false, 0, 0), Returns(false));
    ThreadNext(s1, x1, SetsStopped(true));
    ThreadNext(s2, x2, Flags);
    t := BEGUN.(threads := [Thread(Done, false, false, 0, 0)], status := Stopped, exited := true);
  }

  /** The first run has reported ready and its start has returned. */
  const READY: State :=
    State(Idle, true, false, false, false, true, 0, Ready, [Thread(Running, true, false, 1, 0)])

  /** It has ended since and was not joined. */
  const ENDED: State :=
    State(Idle, true, false, true, false, true, 0, Stopped, [Thread(Done, true, false, 1, 0)])

  lemma FirstRunServes()
    ensures Reached(READY)
  {
    RunBegins();
    hide Reached;
    var x1 := Thread(Latching(false), true, false, 0, 0);
    var x2 := Thread(Posting(false), true, false, 0, 0);
    var s1 := BEGUN.(threads := [x1], status := Ready);
    var s2 := s1.(threads := [x2], readyPosted := true);
    var s3 := s2.(threads := [Thread(Running, true, false, 1, 0)], semaphore := 1);
    ThreadNext(BEGUN, Thread(Running, false, false, 0, 0), ReportsReady(true));
    ThreadNext(s1, x1, Latches);
    ThreadNext(s2, x2, Posts);
    ReachedNext(s3, SeesReady);
    assert Step(s3, SeesReady) == READY;
  }

  lemma FirstRunEnds()
    ensures Reached(ENDED)
  {
    FirstRunServes();
    hide Reached;
    var x1 := Thread(Stopping(false), true, false, 1, 0);
    var x2 := Thread(Flagging, true, false, 1, 0);
    var s1 := READY.(threads := [x1]);
    var s2 := READY.(threads := [x2], status := Stopped);
    ThreadNext(READY, Thread(Running, true, false, 1, 0), Returns(false));
    ThreadNext(s1, x1, SetsStopped(true));
    ThreadNext(s2, x2, Flags);
    assert s2.(threads := [Thread(Done, true, false, 1, 0)], exited := true) == ENDED;
  }

  /** A second start without a join in between, whose thread cannot be created. */
  lemma WedgeIsReached() returns (t: State)
    ensures Reached(t) && Wedged(t)
  {
    FirstRunEnds();
    hide Reached;
    var s1 := ENDED.(control := Resetting);
    var s2 := s1.(readyPosted := false, exited := false, control := Creating);
    ReachedNext(ENDED, CallStart);
    assert Step(ENDED, CallStart) == s1;
    ReachedNext(s1, Resets);
    assert Step(s1, Resets) == s2;
    ReachedNext(s2, Creates(false));
    t := Step(s2, Creates(false));
  }
}
