/** The life of a task: one controlling thread starts, stops and joins it; every run is a thread. */
module Tasker {
  import opened Bytes

  /** A run's thread. Latching and Posting are the two halves of posting ready once; `ending` tells
      the attempt on error exit from the one inside ready. Flagging precedes the exited flag. */
  datatype Phase =
    | Running
    | Latching(ending: bool)
    | Posting(ending: bool)
    | Stopping(failed: bool)
    | Flagging
    | Done

  /** `reported`: ready got past its info update; `failed`: the run ended with an error;
      `posts`, `joins`: how often it posted ready and was joined. */
  datatype Thread = Thread(phase: Phase, reported: bool, failed: bool, posts: nat, joins: nat)

  datatype Status = Initialized | Ready | Stopped

  /** Resetting .. AwaitReady are inside start, Snapshot .. Marking inside join. */
  datatype Control = Idle | Resetting | Creating | AwaitReady | Snapshot | Waiting | Checking | Joining | Marking

  /** The fields of the task object, with its threads; the current handle is that of the last one. */
  datatype State = State(
    control: Control, created: bool, joined: bool, exited: bool, stopRequested: bool,
    readyPosted: bool, semaphore: nat, status: Status, threads: seq<Thread>)

  datatype Event =
    | CallStart
    | Resets
    | Creates(ok: bool)
    | SeesReady
    | CallStop
    | CallJoin
    | TakesSnapshot
    | SeesExit
    | TimesOut
    | Checks
    | JoinsThread
    | MarksJoined
    | ReportsReady(callbackOk: bool)
    | Latches
    | Posts
    | Returns(failed: bool)
    | SetsStopped(callbackOk: bool)
    | Flags

  function Last(s: State): Thread
    requires s.threads != []
  {
    s.threads[|s.threads| - 1]
  }

  function SetLast(s: State, x: Thread): State
    requires s.threads != []
  {
    s.(threads := s.threads[|s.threads| - 1 := x])
  }

  // ---- the controlling thread -------------------------------------------------------------------

  predicate OfControl(e: Event) {
    || e.CallStart? || e.Resets? || e.Creates? || e.SeesReady? || e.CallStop? || e.CallJoin?
    || e.TakesSnapshot? || e.SeesExit? || e.TimesOut? || e.Checks? || e.JoinsThread? || e.MarksJoined?
  }

  function StepControl(s: State, e: Event): State {
    match e
    case CallStart =>
      if s.control == Idle && !(s.created && !s.exited) then s.(control := Resetting) else s
    case Resets =>
      if s.control == Resetting
      then s.(readyPosted := false, stopRequested := false, exited := false, joined := false, control := Creating)
      else s
    case Creates(ok) =>
      if s.control != Creating then s
      else if ok then
        s.(threads := s.threads + [Thread(Running, false, false, 0, 0)], created := true, control := AwaitReady)
      else s.(control := Idle)
    case SeesReady =>
      if s.control == AwaitReady && s.semaphore > 0 then s.(semaphore := s.semaphore - 1, control := Idle) else s
    case CallStop => if s.control == Idle then s.(stopRequested := true) else s
    case CallJoin => if s.control == Idle then s.(control := Snapshot) else s
    case TakesSnapshot =>
      if s.control == Snapshot then s.(control := if !s.created || s.joined then Idle else Waiting) else s
    case SeesExit => if s.control == Waiting && s.exited then s.(control := Checking) else s
    case TimesOut => if s.control == Waiting && !s.exited then s.(control := Idle) else s
    case Checks => if s.control == Checking then s.(control := if s.joined || !s.created then Idle else Joining) else s
    case JoinsThread =>
      if s.control == Joining && s.threads != [] && Last(s).phase == Done
      then SetLast(s, Last(s).(joins := Last(s).joins + 1)).(control := Marking)
      else s
    case MarksJoined => if s.control == Marking then s.(joined := true, created := false, control := Idle) else s
    case _ => s
  }

  // ---- the current run --------------------------------------------------------------------------

  /** What the run's thread does. The info callback may fail: then ready returns before posting, and
      a run counts as failed. The latch lets one attempt through to the post. */
  function NextThread(x: Thread, e: Event, readyPosted: bool): (y: Thread)
    ensures y.joins == x.joins
  {
    match e
    case ReportsReady(callbackOk) =>
      if x.phase == Running && callbackOk then x.(phase := Latching(false), reported := true) else x
    case Latches =>
      if !x.phase.Latching? then x
      else if !readyPosted then x.(phase := Posting(x.phase.ending))
      else x.(phase := if x.phase.ending then Flagging else Running)
    case Posts =>
      if x.phase.Posting? then x.(phase := if x.phase.ending then Flagging else Running, posts := x.posts + 1) else x
    case Returns(failed) => if x.phase == Running then x.(phase := Stopping(failed)) else x
    case SetsStopped(callbackOk) =>
      if !x.phase.Stopping? then x
      else if x.phase.failed || !callbackOk then x.(phase := Latching(true), failed := true)
      else x.(phase := Flagging)
    case Flags => if x.phase == Flagging then x.(phase := Done) else x
    case _ => x
  }

  /** And what it leaves in the task object. */
  function StepThread(s: State, e: Event): State {
    if s.threads == [] then s
    else
      var x := Last(s);
      SetLast(s, NextThread(x, e, s.readyPosted)).(
        readyPosted := s.readyPosted || (e.Latches? && x.phase.Latching?),
        semaphore := if e.Posts? && x.phase.Posting? then s.semaphore + 1 else s.semaphore,
        status := if e.ReportsReady? && x.phase == Running then Ready
                  else if e.SetsStopped? && x.phase.Stopping? then Stopped
                  else s.status,
        exited := s.exited || (e.Flags? && x.phase == Flagging))
  }

  /** An event that is not enabled leaves the state as it is. */
  function Step(s: State, e: Event): State {
    if OfControl(e) then StepControl(s, e) else StepThread(s, e)
  }

  // ---- invariants -------------------------------------------------------------------------------

  /** A thread has posted exactly when it reported or, once it is past its exit, also when it failed. */
  predicate ThreadOk(x: Thread) {
    && x.posts <= 1 && x.joins <= 1
    && match x.phase
       case Running => !x.failed && (x.posts == 1 <==> x.reported)
       case Latching(ending) => if ending then x.failed && (x.posts == 1 <==> x.reported) else x.reported && !x.failed
       case Posting(ending) => x.posts == 0 && (if ending then x.failed && !x.reported else x.reported && !x.failed)
       case Stopping(_) => !x.failed && (x.posts == 1 <==> x.reported)
       case Flagging => x.posts == 1 <==> x.reported || x.failed
       case Done => x.posts == 1 <==> x.reported || x.failed
  }

  predicate Alive(s: State) {
    s.threads != [] && Last(s).phase != Done
  }

  predicate ThreadsOk(s: State) {
    forall i | 0 <= i < |s.threads| :: ThreadOk(s.threads[i]) && (i < |s.threads| - 1 ==> s.threads[i].phase == Done)
  }

  /** The latch is set from the moment a run has claimed its one post; the semaphore holds that post
      until start takes it. */
  predicate SignalOk(s: State) {
    if s.control == AwaitReady then
      && s.threads != []
      && s.semaphore == Last(s).posts
      && (s.readyPosted <==> Last(s).posts == 1 || Last(s).phase.Posting?)
    else
      && s.semaphore == 0
      && (Alive(s) ==> Last(s).posts == 1 && s.readyPosted && !Last(s).phase.Posting?)
  }

  predicate LifeOk(s: State) {
    && (s.created ==> s.threads != [])
    && (Alive(s) ==> s.created && !s.exited && s.control in {Idle, AwaitReady, Snapshot, Waiting})
    && (s.exited ==> s.threads != [] && Last(s).phase == Done && s.status == Stopped)
    && (s.threads != [] && Last(s).phase == Flagging ==> s.status == Stopped)
    && (s.threads != [] && Last(s).phase == Latching(true) ==> s.status == Stopped)
    && (s.threads != [] && Last(s).phase == Posting(true) ==> s.status == Stopped)
    && (s.control == Creating ==> !s.exited && !s.readyPosted && !s.joined)
    && (s.control == AwaitReady ==> s.created)
  }

  predicate JoinOk(s: State)
    requires s.created ==> s.threads != []
  {
    && (s.joined ==> !s.created)
    && (s.created && s.control != Marking ==> Last(s).joins == 0)
    && (s.control in {Waiting, Checking, Joining, Marking} ==> s.created)
    && (s.control in {Checking, Joining, Marking} ==> s.exited)
    && (s.control == Marking ==> Last(s).joins == 1)
  }

  predicate Inv(s: State) {
    ThreadsOk(s) && SignalOk(s) && LifeOk(s) && JoinOk(s)
  }

  const INITIAL: State := State(Idle, false, false, false, false, false, 0, Initialized, [])

  lemma CreatesKeeps(s: State, ok: bool)
    requires Inv(s)
    ensures Inv(StepControl(s, Creates(ok)))
  {
    hide SetLast;
  }

  lemma JoinsThreadKeeps(s: State)
    requires Inv(s)
    ensures Inv(StepControl(s, JoinsThread))
  {
    if s.control == Joining && s.threads != [] && Last(s).phase == Done {
      assert ThreadOk(Last(s));
      SetLastKeeps(s, Last(s).(joins := 1));
      hide SetLast, ThreadOk, ThreadsOk;
    }
  }

  lemma ControlKeeps(s: State, e: Event)
    requires Inv(s) && OfControl(e)
    ensures Inv(StepControl(s, e))
  {
    match e
    case JoinsThread => JoinsThreadKeeps(s);
    case Creates(ok) => CreatesKeeps(s, ok);
    case _ => hide SetLast, ThreadOk;
  }

  /** Only the last thread changes. */
  lemma SetLastKeeps(s: State, x: Thread)
    requires ThreadsOk(s) && s.threads != [] && ThreadOk(x)
    ensures ThreadsOk(SetLast(s, x)) && Last(SetLast(s, x)) == x && SetLast(s, x).threads != []
  {
  }

  lemma NextThreadOk(s: State, e: Event)
    requires Inv(s) && s.threads != []
    ensures ThreadOk(NextThread(Last(s), e, s.readyPosted))
    ensures e.Posts? && Last(s).phase.Posting? ==> s.control == AwaitReady && s.semaphore == 0
  {
    assert ThreadOk(Last(s));
  }

  lemma ThreadKeeps(s: State, e: Event)
    requires Inv(s) && !OfControl(e)
    ensures Inv(StepThread(s, e))
  {
    if s.threads != [] {
      NextThreadOk(s, e);
      assert ThreadOk(Last(s));
      var y := NextThread(Last(s), e, s.readyPosted);
      SetLastKeeps(s, y);
      hide ThreadsOk, SetLast;
    }
  }

  lemma StepKeeps(s: State, e: Event)
    requires Inv(s)
    ensures Inv(Step(s, e))
  {
    hide Inv;
    if OfControl(e) {
      ControlKeeps(s, e);
    } else {
      ThreadKeeps(s, e);
    }
  }

  ghost function Run(s: State, es: seq<Event>): (r: State)
    requires Inv(s)
    ensures Inv(r)
  {
    if es == [] then s
    else
      StepKeeps(Run(s, es[..|es| - 1]), es[|es| - 1]);
      Step(Run(s, es[..|es| - 1]), es[|es| - 1])
  }
}
