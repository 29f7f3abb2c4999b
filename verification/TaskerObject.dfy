/** The task object's fields and the code that changes them, one method per uninterrupted piece. */
module TaskerObject {
  import opened Bytes
  import opened Tasker

  class Task {
    var created: bool
    var joined: bool
    var exited: bool
    var stopRequested: bool
    var readyPosted: bool
    var semaphore: nat
    var status: Status

    /** The state of the life cycle, given where the controller is and the threads so far. */
    ghost function At(control: Control, threads: seq<Thread>): State
      reads this
    {
      State(control, created, joined, exited, stopRequested, readyPosted, semaphore, status, threads)
    }

    /** dttasker_create. */
    constructor ()
      ensures At(Idle, []) == INITIAL
    {
      created, joined, exited, stopRequested, readyPosted := false, false, false, false, false;
      semaphore, status := 0, Initialized;
    }

    /** The refusal at the head of dttasker_start. */
    method MayStart(ghost threads: seq<Thread>) returns (ok: bool)
      ensures At(if ok then Resetting else Idle, threads) == Step(At(Idle, threads), CallStart)
      ensures ok <==> !created || exited
    {
      ok := !(created && !exited);
    }

    /** The section of dttasker_start that prepares a new run. */
    method ResetForStart(ghost threads: seq<Thread>)
      modifies this
      ensures At(Creating, threads) == Step(old(At(Resetting, threads)), Resets)
      ensures !readyPosted && !stopRequested && !exited && !joined
      ensures created == old(created) && semaphore == old(semaphore) && status == old(status)
    {
      readyPosted := false;
      stopRequested := false;
      exited := false;
      joined := false;
    }

    /** dttasker__post_ready_once, by the current run's thread. */
    method PostReadyOnce(control: Control, ghost threads: seq<Thread>)
      requires threads != [] && threads[|threads| - 1].phase.Latching?
      modifies this
      ensures var latched := Step(old(At(control, threads)), Latches);
              var after := if old(readyPosted) then latched else Step(latched, Posts);
              At(control, after.threads) == after
    {
      var shouldPost := false;
      if !readyPosted {
        readyPosted := true;
        shouldPost := true;
      }
      if shouldPost {
        semaphore := semaphore + 1;
      }
    }

    /** dttasker_ready: the info update with its callback, then the post. */
    method ReportReady(control: Control, ghost threads: seq<Thread>, callbackOk: bool) returns (ok: bool)
      requires threads != [] && threads[|threads| - 1].phase == Running
      modifies this
      ensures ok == callbackOk
      ensures var reported := Step(old(At(control, threads)), ReportsReady(callbackOk));
              var after := if !callbackOk then reported
                           else if old(readyPosted) then Step(reported, Latches)
                           else Step(Step(reported, Latches), Posts);
              At(control, after.threads) == after
    {
      ghost var reported := Step(At(control, threads), ReportsReady(callbackOk));
      status := Ready;
      if !callbackOk {
        assert reported.threads == threads;
        return false;
      }
      PostReadyOnce(control, reported.threads);
      return true;
    }

    /** dttasker_stop. */
    method RequestStop(ghost threads: seq<Thread>)
      modifies this`stopRequested
      ensures At(Idle, threads) == Step(old(At(Idle, threads)), CallStop) && stopRequested
    {
      stopRequested := true;
    }

    /** The last section of dttasker_join. */
    method MarkJoined(ghost threads: seq<Thread>)
      modifies this`joined, this`created
      ensures At(Idle, threads) == Step(old(At(Marking, threads)), MarksJoined) && joined && !created
    {
      joined := true;
      created := false;
    }
  }
}
