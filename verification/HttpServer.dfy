/** The HTTP server's client slots: one accept task, one thread per accepted client and the
    controlling thread share a lock, a fixed array of slots and a counter of active clients. */
module HttpServer {
  import opened Bytes
  import opened HttpSlots

  /** A thread of the server; `Client(c)` serves the c-th accepted connection. */
  datatype Agent = AcceptTask | Controller | Client(c: nat)

  /** WantsLock(c) .. Dropping(c): the accept task owns connection c, except in AwaitReady. It holds
      the server lock from Reaping to Failing. Stopped: its thread has returned; Absent: no accept task exists. */
  datatype Accept =
    | Poll
    | Accepting
    | WantsLock(c: nat)
    | Reaping(c: nat, i: nat)
    | Creating(c: nat, k: nat)
    | AwaitReady(c: nat, k: nat)
    | Failing(c: nat)
    | Dropping(c: nat)
    | Stopped
    | Absent

  datatype Control =
    | Idle
    | CloseListener
    | StopWantsLock
    | StopHolds(i: nat)
    | JoinAccept
    | JoinSlot(i: nat)

  /** `conns[c]` is the c-th connection ever accepted together with the thread that serves it. */
  datatype State = State(
    lock: Option<Agent>, slots: seq<Slot>, activeCount: int, conns: seq<Conn>,
    accept: Accept, control: Control, started: bool, stopRequested: bool, listenOpen: bool)

  datatype AcceptResult = Accepted | Interrupted | BadListener | OtherFailure

  datatype Event =
    | AcceptPolls
    | AcceptReturns(r: AcceptResult)
    | AcceptLocks
    | ReapNext
    | StartClient(created: bool)
    | SeesReady
    | FailReleases
    | Drops
    | Ready(c: nat, callbackOk: bool)
    | Serves(c: nat, stuck: bool)
    | PeerReads(c: nat)
    | SendFails(c: nat)
    | ClosesClient(c: nat)
    | Marks(c: nat)
    | MarkReleases(c: nat)
    | ThreadExits(c: nat)
    | CallLoop
    | CallStop
    | StopCloses
    | StopLocks
    | StopPasses
    | CallJoin
    | JoinAdvances
    | JoinTimesOut

  function SetPhase(s: State, c: nat, p: Phase): State
    requires c < |s.conns|
  {
    s.(conns := s.conns[c := s.conns[c].(phase := p)])
  }

  function CloseConn(s: State, c: nat): State
    requires c < |s.conns|
  {
    s.(conns := s.conns[c := s.conns[c].(closes := s.conns[c].closes + 1)])
  }

  function Is(s: State, c: nat, p: Phase): bool {
    c < |s.conns| && s.conns[c].phase == p
  }

  // ---- the accept task --------------------------------------------------------------------------

  function AcceptReturning(s: State, r: AcceptResult): State {
    match r
    case Accepted =>
      if s.listenOpen
      then s.(conns := s.conns + [Conn(NoThread, 0, false, 0, false)], accept := WantsLock(|s.conns|))
      else s
    case Interrupted => s.(accept := Poll)
    case BadListener => if s.listenOpen then s else s.(accept := Stopped)
    case OtherFailure => s.(accept := if s.stopRequested then Stopped else Poll)
  }

  /** One slot of the reaping pass, or, after the last, the decision what to do with the client. */
  function Reap(s: State): State
    requires s.accept.Reaping? && Typed(s)
  {
    var c, i := s.accept.c, s.accept.i;
    if i < |s.slots| then
      var h := s.slots[i].handle;
      var exited := h.Some? && Is(s, h.value, Exited);
      var s' := s.(slots := s.slots[i := TryReap(s.slots[i], exited)], accept := Reaping(c, i + 1));
      if !s.slots[i].active && !s.slots[i].joined && exited then SetPhase(s', h.value, Joined) else s'
    else
      var k := FirstFree(s.slots);
      if s.activeCount >= |s.slots| || k == |s.slots|
      then s.(lock := None, accept := Dropping(c))
      else s.(slots := s.slots[k := Slot(true, false, Some(c), None)], accept := Creating(c, k))
  }

  function Start(s: State, created: bool): State
    requires s.accept.Creating? && Typed(s)
  {
    var c, k := s.accept.c, s.accept.k;
    if created
    then s.(conns := s.conns[c := s.conns[c].(phase := Entry, slot := k)],
            slots := s.slots[k := s.slots[k].(handle := Some(c))], accept := AwaitReady(c, k))
    else s.(slots := s.slots[k := Slot(false, true, None, None)], accept := Failing(c))
  }

  function StepAccept(s: State, e: Event): State
    requires Typed(s)
  {
    match e
    case AcceptPolls =>
      if s.accept == Poll then s.(accept := if s.stopRequested then Stopped else Accepting) else s
    case AcceptReturns(r) => if s.accept == Accepting then AcceptReturning(s, r) else s
    case AcceptLocks =>
      if s.accept.WantsLock? && s.lock == None
      then s.(lock := Some(AcceptTask), accept := Reaping(s.accept.c, 0))
      else s
    case ReapNext => if s.accept.Reaping? then Reap(s) else s
    case StartClient(created) => if s.accept.Creating? then Start(s, created) else s
    case SeesReady =>
      if s.accept.AwaitReady? && s.conns[s.accept.c].posted
      then s.(activeCount := s.activeCount + 1, lock := None, accept := Poll)
      else s
    case FailReleases => if s.accept.Failing? then s.(lock := None, accept := Dropping(s.accept.c)) else s
    case Drops => if s.accept.Dropping? then CloseConn(s, s.accept.c).(accept := Poll) else s
    case _ => s
  }

  // ---- client threads ---------------------------------------------------------------------------

  /** Receives time out after ten seconds, so serving ends by itself, except that a response may be
      more than the socket takes: that send goes on when the peer reads or fails once the socket is
      shut down. Becoming ready runs the owner's info callback first; when
      that fails nothing is posted. */
  function StepClient(s: State, e: Event): State
    requires Typed(s)
  {
    match e
    case Ready(c, callbackOk) =>
      if !Is(s, c, Entry) then s
      else if callbackOk then s.(conns := s.conns[c := s.conns[c].(phase := Serving, posted := true)])
      else SetPhase(s, c, Cleanup)
    case Serves(c, stuck) => if Is(s, c, Serving) then SetPhase(s, c, if stuck then Sending else Cleanup) else s
    case PeerReads(c) => if Is(s, c, Sending) then SetPhase(s, c, Cleanup) else s
    case SendFails(c) => if Is(s, c, Sending) && s.conns[c].shut then SetPhase(s, c, Cleanup) else s
    case ClosesClient(c) =>
      if Is(s, c, Cleanup)
      then
        var k := s.conns[c].slot;
        SetPhase(CloseConn(s, c), c, WantLock).(slots := s.slots[k := s.slots[k].(fd := None)])
      else s
    case Marks(c) =>
      if Is(s, c, WantLock) && s.lock == None
      then
        var k := s.conns[c].slot;
        SetPhase(s, c, Marked).(lock := Some(Client(c)),
          slots := s.slots[k := s.slots[k].(active := false)],
          activeCount := if s.slots[k].active && s.activeCount > 0 then s.activeCount - 1 else s.activeCount)
      else s
    case MarkReleases(c) => if Is(s, c, Marked) then SetPhase(s, c, Returning).(lock := None) else s
    case ThreadExits(c) => if Is(s, c, Returning) then SetPhase(s, c, Exited) else s
    case _ => s
  }

  // ---- the controlling thread -------------------------------------------------------------------

  function Join(s: State): State
    requires Typed(s) && (s.control.JoinAccept? || s.control.JoinSlot?)
  {
    match s.control
    case JoinAccept => if s.accept in {Stopped, Absent} then s.(accept := Absent, control := JoinSlot(0)) else s
    case JoinSlot(i) =>
      if i >= |s.slots| then s.(started := false, activeCount := 0, control := Idle)
      else if s.slots[i].handle == None then s.(control := JoinSlot(i + 1))
      else
        var c := s.slots[i].handle.value;
        if Is(s, c, Exited)
        then
          var t := if s.slots[i].fd == Some(c) then CloseConn(s, c) else s;
          SetPhase(t, c, Joined).(slots := s.slots[i := s.slots[i].(joined := true, fd := None, handle := None)],
                                  control := JoinSlot(i + 1))
        else s
  }

  /** Stop's pass over the slots: it shuts down the socket of every active client. */
  function StopPass(s: State): State
    requires Typed(s) && s.control.StopHolds?
  {
    var i := s.control.i;
    if i >= |s.slots| then s.(lock := None, control := Idle)
    else
      var t := s.slots[i];
      var s' := s.(control := StopHolds(i + 1));
      if t.active && t.handle.Some? && t.fd == t.handle
      then s'.(conns := s.conns[t.handle.value := s.conns[t.handle.value].(shut := true)])
      else s'
  }

  function StepControl(s: State, e: Event): State
    requires Typed(s)
  {
    match e
    case CallLoop =>
      if s.control == Idle && !s.started && s.accept == Absent
      then s.(accept := Poll, started := true, stopRequested := false, listenOpen := true)
      else s
    case CallStop => if s.control == Idle then s.(stopRequested := true, control := CloseListener) else s
    case StopCloses => if s.control == CloseListener then s.(listenOpen := false, control := StopWantsLock) else s
    case StopLocks =>
      if s.control == StopWantsLock && s.lock == None then s.(lock := Some(Controller), control := StopHolds(0)) else s
    case StopPasses => if s.control.StopHolds? then StopPass(s) else s
    case CallJoin => if s.control == Idle then s.(control := JoinAccept) else s
    case JoinAdvances => if s.control.JoinAccept? || s.control.JoinSlot? then Join(s) else s
    case JoinTimesOut => if s.control.JoinAccept? || s.control.JoinSlot? then s.(control := Idle) else s
    case _ => s
  }

  predicate OfClient(e: Event) {
    || e.Ready? || e.Serves? || e.PeerReads? || e.SendFails? || e.ClosesClient?
    || e.Marks? || e.MarkReleases? || e.ThreadExits?
  }

  predicate OfControl(e: Event) {
    || e.CallLoop? || e.CallStop? || e.StopCloses? || e.StopLocks? || e.StopPasses?
    || e.CallJoin? || e.JoinAdvances? || e.JoinTimesOut?
  }

  /** An event that is not enabled leaves the state as it is. */
  function Step(s: State, e: Event): State
    requires Typed(s)
  {
    if OfClient(e) then StepClient(s, e) else if OfControl(e) then StepControl(s, e) else StepAccept(s, e)
  }

  // ---- invariants -------------------------------------------------------------------------------

  /** Every index a state mentions is in range. */
  predicate Typed(s: State) {
    && |s.slots| > 0
    && (forall c | 0 <= c < |s.conns| :: s.conns[c].slot < |s.slots|)
    && (forall k | 0 <= k < |s.slots| && s.slots[k].handle.Some? :: s.slots[k].handle.value < |s.conns|)
    && (Owns(s.accept) ==> s.accept.c < |s.conns|)
    && (s.accept.AwaitReady? ==> s.accept.c < |s.conns|)
    && (s.accept.Creating? ==> s.accept.k < |s.slots|)
    && (s.accept.AwaitReady? ==> s.accept.k < |s.slots|)
  }

  predicate Owns(a: Accept) {
    a.WantsLock? || a.Reaping? || a.Creating? || a.Failing? || a.Dropping?
  }

  predicate HoldsLock(a: Accept) {
    a.Reaping? || a.Creating? || a.AwaitReady? || a.Failing?
  }

  predicate LockOk(s: State) {
    && (s.lock == Some(AcceptTask) <==> HoldsLock(s.accept))
    && (s.lock == Some(Controller) <==> s.control.StopHolds?)
    && (forall c | 0 <= c < |s.conns| :: s.conns[c].phase == Marked <==> s.lock == Some(Client(c)))
    && (s.lock.Some? && s.lock.value.Client? ==> s.lock.value.c < |s.conns|)
  }

  /** A live thread still has its slot, posts before its starter goes on, and closed its client at
      most once; a connection without a thread is closed once the accept task has let go of it. */
  predicate ConnOk(slots: seq<Slot>, a: Accept, c: nat, x: Conn) {
    && x.slot < |slots|
    && if x.phase == NoThread then
         x.closes == (if Owns(a) && a.c == c then 0 else 1) && !x.shut
       else
         && x.closes == (if Open(x.phase) then 0 else 1)
         && (Live(x.phase) ==> slots[x.slot].handle == Some(c))
         && (Live(x.phase) && !x.posted ==> a == AwaitReady(c, x.slot))
  }

  predicate ConnsOk(conns: seq<Conn>, slots: seq<Slot>, a: Accept) {
    forall c | 0 <= c < |conns| :: ConnOk(slots, a, c, conns[c])
  }

  /** A slot without a thread is blank; a slot with one is active until that thread has marked it. */
  predicate SlotOk(conns: seq<Conn>, a: Accept, k: nat, t: Slot) {
    if a.Creating? && a.k == k then
      t == Slot(true, false, Some(a.c), None)
    else if t.handle == None then
      t == Slot(false, true, None, None)
    else
      var c := t.handle.value;
      && c < |conns| && conns[c].slot == k && Live(conns[c].phase)
      && !t.joined && t.active == Unmarked(conns[c].phase)
      && t.fd == if Open(conns[c].phase) then Some(c) else None
  }

  predicate SlotsOk(slots: seq<Slot>, conns: seq<Conn>, a: Accept) {
    forall k | 0 <= k < |slots| :: SlotOk(conns, a, k, slots[k])
  }

  predicate AcceptOk(s: State)
    requires Typed(s)
  {
    && (Owns(s.accept) ==> s.conns[s.accept.c].phase == NoThread)
    && (s.accept.Reaping? ==> s.accept.i <= |s.slots|)
    && (s.accept.AwaitReady? ==>
          Unmarked(s.conns[s.accept.c].phase) && s.conns[s.accept.c].slot == s.accept.k)
    && (s.accept != Absent ==> s.started && (s.listenOpen || s.stopRequested))
    && (s.started && s.accept in {Stopped, Absent} ==> s.stopRequested)
  }

  /** Stop's pass has dealt with slot k: a client still open there has been shut down. */
  predicate Passed(conns: seq<Conn>, t: Slot) {
    t.handle.Some? && t.handle.value < |conns| && Open(conns[t.handle.value].phase) ==> conns[t.handle.value].shut
  }

  predicate ControlOk(s: State) {
    && (s.control.StopHolds? ==>
          s.control.i <= |s.slots| && forall k | 0 <= k < s.control.i :: Passed(s.conns, s.slots[k]))
    && (s.control == CloseListener ==> s.stopRequested)
    && (s.control.JoinSlot? ==>
          && s.accept == Absent && s.control.i <= |s.slots|
          && forall k | 0 <= k < s.control.i :: s.slots[k].handle == None)
  }

  /** One slot is active but not yet counted while the accept task starts its thread. */
  function Uncounted(a: Accept): nat {
    if a.Creating? || a.AwaitReady? then 1 else 0
  }

  predicate CountOk(s: State) {
    s.activeCount + Uncounted(s.accept) == Actives(s.slots)
  }

  predicate Inv(s: State) {
    && Typed(s) && LockOk(s) && AcceptOk(s) && ControlOk(s) && CountOk(s)
    && ConnsOk(s.conns, s.slots, s.accept) && SlotsOk(s.slots, s.conns, s.accept)
  }

  predicate Init(s: State) {
    && |s.slots| > 0 && (forall k | 0 <= k < |s.slots| :: s.slots[k] == Slot(false, true, None, None))
    && s.lock == None && s.activeCount == 0 && s.conns == [] && s.accept == Absent && s.control == Idle
    && !s.started && !s.stopRequested && !s.listenOpen
  }

  // ---- each step keeps the invariants -----------------------------------------------------------

  lemma InitHolds(s: State)
    requires Init(s)
    ensures Inv(s)
  {
    NoneActive(s.slots);
  }

  /** The thread of slot i has returned: the slot goes back to being blank. */
  function Detached(s: State, i: nat): State
    requires Typed(s) && i < |s.slots| && s.slots[i].handle.Some?
  {
    SetPhase(s, s.slots[i].handle.value, Joined).(slots := s.slots[i := Slot(false, true, None, None)])
  }

  lemma DetachedKeeps(s: State, i: nat)
    requires Inv(s) && i < |s.slots| && s.slots[i].handle.Some? && Is(s, s.slots[i].handle.value, Exited)
    ensures Inv(Detached(s, i)) && !s.slots[i].active && !s.slots[i].joined && s.slots[i].fd == None
  {
    hide Actives;
    var h, t := s.slots[i].handle.value, Detached(s, i);
    assert SlotOk(s.conns, s.accept, i, s.slots[i]) && ConnOk(s.slots, s.accept, h, s.conns[h]);
    ActivesUpdate(s.slots, i, t.slots[i]);
    assert Typed(t) && LockOk(t) && AcceptOk(t) && ControlOk(t) && CountOk(t);
    forall c | 0 <= c < |t.conns| ensures ConnOk(t.slots, t.accept, c, t.conns[c]) {
      assert ConnOk(s.slots, s.accept, c, s.conns[c]);
    }
    forall k | 0 <= k < |t.slots| ensures SlotOk(t.conns, t.accept, k, t.slots[k]) {
      assert SlotOk(s.conns, s.accept, k, s.slots[k]);
    }
  }

  lemma ReapSlotKeeps(s: State)
    requires Inv(s) && s.accept.Reaping? && s.accept.i < |s.slots|
    ensures Inv(Reap(s))
  {
    hide Actives, FirstFree;
    var c, i := s.accept.c, s.accept.i;
    assert SlotOk(s.conns, s.accept, i, s.slots[i]);
    var h := s.slots[i].handle;
    if h.Some? && Is(s, h.value, Exited) {
      DetachedKeeps(s, i);
      assert Reap(s) == Detached(s, i).(accept := Reaping(c, i + 1));
    } else {
      assert Reap(s) == s.(slots := s.slots, accept := Reaping(c, i + 1));
    }
  }

  lemma ClaimKeeps(s: State, k: nat)
    requires Inv(s) && s.accept.Reaping? && k < |s.slots| && s.slots[k].handle == None
    ensures Inv(s.(slots := s.slots[k := Slot(true, false, Some(s.accept.c), None)], accept := Creating(s.accept.c, k)))
  {
    hide Actives, Reap;
    var t := s.(slots := s.slots[k := Slot(true, false, Some(s.accept.c), None)], accept := Creating(s.accept.c, k));
    assert SlotOk(s.conns, s.accept, k, s.slots[k]);
    ActivesUpdate(s.slots, k, t.slots[k]);
    assert Typed(t) && LockOk(t) && AcceptOk(t) && ControlOk(t) && CountOk(t);
    forall c | 0 <= c < |t.conns| ensures ConnOk(t.slots, t.accept, c, t.conns[c]) {
      assert ConnOk(s.slots, s.accept, c, s.conns[c]);
    }
    forall j | 0 <= j < |t.slots| ensures SlotOk(t.conns, t.accept, j, t.slots[j]) {
      assert SlotOk(s.conns, s.accept, j, s.slots[j]);
    }
  }

  lemma DecideKeeps(s: State)
    requires Inv(s) && s.accept.Reaping? && s.accept.i == |s.slots|
    ensures Inv(Reap(s))
  {
    hide Actives, FirstFree, TryReap;
    var k := FirstFree(s.slots);
    if s.activeCount >= |s.slots| || k == |s.slots| {
      assert Reap(s) == s.(lock := None, accept := Dropping(s.accept.c));
    } else {
      ClaimKeeps(s, k);
      hide Inv;
    }
  }

  lemma StartPools(s: State, created: bool)
    requires Inv(s) && s.accept.Creating?
    ensures var t := Start(s, created); ConnsOk(t.conns, t.slots, t.accept) && SlotsOk(t.slots, t.conns, t.accept)
    ensures s.slots[s.accept.k].active
  {
    hide Actives, LockOk, ControlOk, CountOk;
    var k, t := s.accept.k, Start(s, created);
    assert SlotOk(s.conns, s.accept, k, s.slots[k]) && ConnOk(s.slots, s.accept, s.accept.c, s.conns[s.accept.c]);
    forall c | 0 <= c < |t.conns| ensures ConnOk(t.slots, t.accept, c, t.conns[c]) {
      assert ConnOk(s.slots, s.accept, c, s.conns[c]);
    }
    forall j | 0 <= j < |t.slots| ensures SlotOk(t.conns, t.accept, j, t.slots[j]) {
      assert SlotOk(s.conns, s.accept, j, s.slots[j]);
    }
  }

  lemma StartLock(s: State, created: bool)
    requires Typed(s) && LockOk(s) && AcceptOk(s) && s.accept.Creating?
    ensures LockOk(Start(s, created))
  {
  }

  lemma StartCount(s: State, created: bool)
    requires Typed(s) && CountOk(s) && s.accept.Creating? && s.slots[s.accept.k].active
    ensures CountOk(Start(s, created))
  {
    hide Actives;
    ActivesUpdate(s.slots, s.accept.k, Start(s, created).slots[s.accept.k]);
  }

  lemma StartKeeps(s: State, created: bool)
    requires Inv(s) && s.accept.Creating?
    ensures Inv(Start(s, created))
  {
    StartPools(s, created);
    StartLock(s, created);
    StartCount(s, created);
    hide CountOk, LockOk, ConnsOk, SlotsOk;
  }

  lemma AcceptReturnsKeeps(s: State, r: AcceptResult)
    requires Inv(s) && s.accept == Accepting
    ensures Inv(AcceptReturning(s, r))
  {
    hide Actives;
  }

  lemma DropsKeeps(s: State)
    requires Inv(s)
    ensures Inv(StepAccept(s, Drops))
  {
    hide Actives, Reap, Start, AcceptReturning;
  }

  lemma AcceptMovesKeep(s: State, e: Event)
    requires Inv(s) && (e.AcceptPolls? || e.AcceptLocks? || e.SeesReady? || e.FailReleases?)
    ensures Inv(StepAccept(s, e))
  {
    hide Actives, Reap, Start, AcceptReturning;
  }

  lemma AcceptKeeps(s: State, e: Event)
    requires Inv(s) && !OfClient(e) && !OfControl(e)
    ensures Inv(StepAccept(s, e))
  {
    match e
    case ReapNext =>
      if s.accept.Reaping? {
        if s.accept.i < |s.slots| { ReapSlotKeeps(s); } else { DecideKeeps(s); }
      }
    case StartClient(created) => if s.accept.Creating? { StartKeeps(s, created); }
    case AcceptReturns(r) => if s.accept == Accepting { AcceptReturnsKeeps(s, r); }
    case Drops => DropsKeeps(s);
    case _ => AcceptMovesKeep(s, e);
  }

  /** What the slot of a live thread looks like. */
  lemma OwnSlot(conns: seq<Conn>, slots: seq<Slot>, a: Accept, c: nat)
    requires ConnsOk(conns, slots, a) && SlotsOk(slots, conns, a) && c < |conns| && Live(conns[c].phase)
    ensures var x, k := conns[c], conns[c].slot;
            && k < |slots| && !(a.Creating? && a.k == k)
            && slots[k] == Slot(Unmarked(x.phase), false, if Open(x.phase) then Some(c) else None, Some(c))
            && x.closes == (if Open(x.phase) then 0 else 1)
            && (!x.posted ==> a == AwaitReady(c, k))
  {
    var k := conns[c].slot;
    assert ConnOk(slots, a, c, conns[c]);
    assert SlotOk(conns, a, k, slots[k]);
  }

  /** A live thread's step changes its own record and slot only. */
  lemma ThreadUpdate(conns: seq<Conn>, slots: seq<Slot>, a: Accept, c: nat, x: Conn)
    requires ConnsOk(conns, slots, a) && SlotsOk(slots, conns, a) && c < |conns| && Live(conns[c].phase)
    requires Live(x.phase) && x.slot == conns[c].slot < |slots| && x.closes == (if Open(x.phase) then 0 else 1)
    requires conns[c].posted ==> x.posted
    ensures var k := x.slot;
            var t := Slot(Unmarked(x.phase), false, if Open(x.phase) then Some(c) else None, Some(c));
            ConnsOk(conns[c := x], slots[k := t], a) && SlotsOk(slots[k := t], conns[c := x], a)
  {
    OwnSlot(conns, slots, a, c);
    var k := x.slot;
    var t := Slot(Unmarked(x.phase), false, if Open(x.phase) then Some(c) else None, Some(c));
    var conns', slots' := conns[c := x], slots[k := t];
    forall d | 0 <= d < |conns'| ensures ConnOk(slots', a, d, conns'[d]) {
      assert ConnOk(slots, a, d, conns[d]);
    }
    forall j | 0 <= j < |slots'| ensures SlotOk(conns', a, j, slots'[j]) {
      assert SlotOk(conns, a, j, slots[j]);
    }
  }

  /** The guard on the counter never bites: a thread that finishes is active and counted. */
  lemma MarkKeeps(s: State, c: nat)
    requires Inv(s) && Is(s, c, WantLock) && s.lock == None
    ensures Inv(StepClient(s, Marks(c)))
    ensures s.slots[s.conns[c].slot].active && s.activeCount > 0
  {
    hide Actives, ConnsOk, SlotsOk;
    var k, t := s.conns[c].slot, StepClient(s, Marks(c));
    OwnSlot(s.conns, s.slots, s.accept, c);
    ThreadUpdate(s.conns, s.slots, s.accept, c, s.conns[c].(phase := Marked));
    ActivesBound(s.slots);
    ActivesUpdate(s.slots, k, s.slots[k].(active := false));
    assert t.slots[k] == Slot(false, false, None, Some(c));
  }

  lemma CloseKeeps(s: State, c: nat)
    requires Inv(s) && Is(s, c, Cleanup)
    ensures Inv(StepClient(s, ClosesClient(c)))
  {
    hide Actives, ConnsOk, SlotsOk;
    var k, t := s.conns[c].slot, StepClient(s, ClosesClient(c));
    OwnSlot(s.conns, s.slots, s.accept, c);
    ThreadUpdate(s.conns, s.slots, s.accept, c, s.conns[c].(phase := WantLock, closes := 1));
    ActivesUpdate(s.slots, k, s.slots[k].(fd := None));
    assert t.slots[k] == Slot(true, false, None, Some(c));
    assert t.conns == s.conns[c := s.conns[c].(phase := WantLock, closes := 1)];
  }

  lemma ReadyKeeps(s: State, c: nat, callbackOk: bool)
    requires Inv(s)
    ensures Inv(StepClient(s, Ready(c, callbackOk)))
  {
    hide Actives, ConnsOk, SlotsOk, LockOk;
    if Is(s, c, Entry) {
      var t := StepClient(s, Ready(c, callbackOk));
      OwnSlot(s.conns, s.slots, s.accept, c);
      ThreadUpdate(s.conns, s.slots, s.accept, c, t.conns[c]);
      ReadyLock(s, c, callbackOk);
      assert s.slots[s.conns[c].slot := s.slots[s.conns[c].slot]] == s.slots;
    }
  }

  lemma ReadyLock(s: State, c: nat, callbackOk: bool)
    requires Typed(s) && LockOk(s)
    ensures LockOk(StepClient(s, Ready(c, callbackOk)))
  {
  }

  function Moved(s: State, c: nat, p: Phase): State
    requires c < |s.conns|
  {
    SetPhase(s, c, p).(lock := if s.conns[c].phase == Marked then None else s.lock)
  }

  lemma MovedLock(s: State, c: nat, p: Phase)
    requires LockOk(s) && c < |s.conns| && p != Marked
    ensures LockOk(Moved(s, c, p))
  {
  }

  lemma MovedPools(s: State, c: nat, p: Phase)
    requires ConnsOk(s.conns, s.slots, s.accept) && SlotsOk(s.slots, s.conns, s.accept)
    requires c < |s.conns| && Live(s.conns[c].phase) && Live(p)
    requires Unmarked(p) == Unmarked(s.conns[c].phase) && Open(p) == Open(s.conns[c].phase)
    ensures var t := Moved(s, c, p); ConnsOk(t.conns, t.slots, t.accept) && SlotsOk(t.slots, t.conns, t.accept)
  {
    hide ConnsOk, SlotsOk;
    OwnSlot(s.conns, s.slots, s.accept, c);
    ThreadUpdate(s.conns, s.slots, s.accept, c, s.conns[c].(phase := p));
    assert s.slots[s.conns[c].slot := s.slots[s.conns[c].slot]] == s.slots;
  }

  /** Most moves of a thread stay within one class of phases. */
  lemma PhaseKeeps(s: State, c: nat, p: Phase)
    requires Inv(s) && c < |s.conns| && Live(s.conns[c].phase) && Live(p) && p != Marked
    requires Unmarked(p) == Unmarked(s.conns[c].phase) && Open(p) == Open(s.conns[c].phase)
    ensures Inv(Moved(s, c, p))
  {
    MovedLock(s, c, p);
    MovedPools(s, c, p);
    hide Actives, ConnsOk, SlotsOk, LockOk;
  }

  lemma ClientMovesKeep(s: State, e: Event)
    requires Inv(s) && (e.Serves? || e.PeerReads? || e.SendFails? || e.MarkReleases? || e.ThreadExits?)
    ensures Inv(StepClient(s, e))
  {
    hide Inv;
    if e.Serves? && Is(s, e.c, Serving) {
      PhaseKeeps(s, e.c, if e.stuck then Sending else Cleanup);
    } else if (e.PeerReads? || e.SendFails?) && Is(s, e.c, Sending) {
      PhaseKeeps(s, e.c, Cleanup);
    } else if e.MarkReleases? && Is(s, e.c, Marked) {
      PhaseKeeps(s, e.c, Returning);
    } else if e.ThreadExits? && Is(s, e.c, Returning) {
      PhaseKeeps(s, e.c, Exited);
    }
  }

  lemma ClientKeeps(s: State, e: Event)
    requires Inv(s) && OfClient(e)
    ensures Inv(StepClient(s, e))
  {
    match e
    case Marks(c) => if Is(s, c, WantLock) && s.lock == None { MarkKeeps(s, c); }
    case ClosesClient(c) => if Is(s, c, Cleanup) { CloseKeeps(s, c); }
    case Ready(c, callbackOk) => ReadyKeeps(s, c, callbackOk);
    case _ => ClientMovesKeep(s, e);
  }

  lemma JoinThreadKeeps(s: State)
    requires Inv(s) && s.control.JoinSlot? && s.control.i < |s.slots|
    requires s.slots[s.control.i].handle.Some? && Is(s, s.slots[s.control.i].handle.value, Exited)
    ensures Inv(Join(s))
  {
    var i := s.control.i;
    DetachedKeeps(s, i);
    assert Join(s) == Detached(s, i).(control := JoinSlot(i + 1)) by {
      hide Actives, ConnsOk, ConnOk;
      assert SlotOk(s.conns, s.accept, i, s.slots[i]);
    }
    hide Actives, ConnsOk, SlotsOk, Join;
  }

  lemma JoinKeeps(s: State)
    requires Inv(s) && (s.control.JoinAccept? || s.control.JoinSlot?)
    ensures Inv(Join(s))
  {
    hide Actives;
    if s.control.JoinSlot? && s.control.i < |s.slots| {
      var h := s.slots[s.control.i].handle;
      if h.Some? && Is(s, h.value, Exited) {
        JoinThreadKeeps(s);
      } else {
        hide ConnsOk, SlotsOk;
      }
    } else if s.control.JoinSlot? {
      assert forall k | 0 <= k < |s.slots| :: SlotOk(s.conns, s.accept, k, s.slots[k]) && s.slots[k].handle == None;
      NoneActive(s.slots);
    }
  }

  /** The flag changes nothing the slots and threads agree on. */
  lemma ShutFlagKeeps(conns: seq<Conn>, slots: seq<Slot>, a: Accept, c: nat)
    requires c < |conns| && Live(conns[c].phase) && ConnsOk(conns, slots, a) && SlotsOk(slots, conns, a)
    ensures var conns' := conns[c := conns[c].(shut := true)];
            ConnsOk(conns', slots, a) && SlotsOk(slots, conns', a)
  {
    var conns' := conns[c := conns[c].(shut := true)];
    forall d | 0 <= d < |conns'| ensures ConnOk(slots, a, d, conns'[d]) {
      assert ConnOk(slots, a, d, conns[d]);
    }
    forall j | 0 <= j < |slots| ensures SlotOk(conns', a, j, slots[j]) {
      assert SlotOk(conns, a, j, slots[j]);
    }
  }

  lemma PassMovesOn(s: State)
    requires Inv(s) && s.control.StopHolds? && s.control.i < |s.slots|
    ensures ControlOk(StopPass(s))
  {
    hide Actives, ConnsOk, LockOk, AcceptOk, CountOk;
    var i, t := s.control.i, StopPass(s);
    assert SlotOk(s.conns, s.accept, i, s.slots[i]);
    hide SlotsOk;
    forall k | 0 <= k < i + 1 ensures Passed(t.conns, t.slots[k]) {
      assert k < i ==> Passed(s.conns, s.slots[k]);
    }
  }

  lemma PassPools(s: State)
    requires Inv(s) && s.control.StopHolds? && s.control.i < |s.slots|
    ensures var t := StopPass(s); ConnsOk(t.conns, t.slots, t.accept) && SlotsOk(t.slots, t.conns, t.accept)
  {
    var i := s.control.i;
    assert SlotOk(s.conns, s.accept, i, s.slots[i]);
    hide Actives, ConnsOk, SlotsOk, ControlOk, LockOk, AcceptOk, CountOk;
    if s.slots[i].active && s.slots[i].fd.Some? && s.slots[i].handle.Some? {
      ShutFlagKeeps(s.conns, s.slots, s.accept, s.slots[i].handle.value);
    }
  }

  lemma PassLock(s: State)
    requires Typed(s) && LockOk(s) && s.control.StopHolds? && s.control.i < |s.slots|
    ensures LockOk(StopPass(s))
  {
  }

  lemma StopPassKeeps(s: State)
    requires Inv(s) && s.control.StopHolds?
    ensures Inv(StopPass(s))
  {
    hide Actives, ConnsOk, SlotsOk, ControlOk;
    if s.control.i < |s.slots| {
      PassMovesOn(s);
      PassPools(s);
      PassLock(s);
      hide LockOk;
    } else {
      assert ControlOk(StopPass(s)) by {
        IdleIsOk(StopPass(s));
      }
    }
  }

  lemma IdleIsOk(s: State)
    requires s.control == Idle
    ensures ControlOk(s)
  {
  }

  lemma ControlMovesKeep(s: State, e: Event)
    requires Inv(s) && OfControl(e) && !e.JoinAdvances? && !e.StopPasses?
    ensures Inv(StepControl(s, e))
  {
    hide Actives, Join;
  }

  lemma ControlKeeps(s: State, e: Event)
    requires Inv(s) && OfControl(e)
    ensures Inv(StepControl(s, e))
  {
    if e.StopPasses? {
      if s.control.StopHolds? {
        StopPassKeeps(s);
      }
    } else if !e.JoinAdvances? {
      ControlMovesKeep(s, e);
    } else if s.control.JoinAccept? || s.control.JoinSlot? {
      JoinKeeps(s);
      assert StepControl(s, e) == Join(s);
    } else {
      assert StepControl(s, e) == s;
    }
  }

  lemma StepKeeps(s: State, e: Event)
    requires Inv(s)
    ensures Inv(Step(s, e))
  {
    hide Inv;
    if OfClient(e) {
      ClientKeeps(s, e);
    } else if OfControl(e) {
      ControlKeeps(s, e);
    } else {
      AcceptKeeps(s, e);
    }
  }

  ghost function Run(s: State, es: seq<Event>): (r: State)
    requires Inv(s)
    ensures Inv(r)
  {
    if es == [] then s
    else
      StepKeeps(Run(s, es[..|es| - 1]), es[|es| - 1]);
      Step(Run(s, es[..|es| - 1]), es[|es| - 1])
  }
}
