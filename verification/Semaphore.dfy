/** The counting semaphore with a cap: the object, and its waiters under mutex and condition. */
module Semaphore {
  import opened Threads

  const INT32_MAX: nat := 0x7fff_ffff

  class Semaphore {
    var count: nat
    const maxCount: nat

    /** A cap of 0 means no explicit cap. */
    constructor (initialCount: nat, maxCount: nat)
      ensures count == initialCount && this.maxCount == if maxCount == 0 then INT32_MAX else maxCount
    {
      this.maxCount := if maxCount == 0 then INT32_MAX else maxCount;
      count := initialCount;
    }

    /** Posting at the cap is not an error and changes nothing. */
    method Post()
      modifies this
      ensures count == if old(count) < maxCount then old(count) + 1 else old(count)
    {
      if count < maxCount {
        count := count + 1;
      }
    }

    method WaitNoWait() returns (wasTimeout: bool)
      modifies this
      ensures wasTimeout == (old(count) == 0)
      ensures count == if wasTimeout then old(count) else old(count) - 1
    {
      if count == 0 {
        return true;
      }
      count := count - 1;
      return false;
    }
  }

  // ---- any number of waiters and posters -------------------------------------------------------

  datatype Phase = Outside | Parked | Woken

  /** `posted` counts the posts that were not absorbed by the cap, `taken` the completed waits. */
  datatype State = State(count: nat, maxCount: nat, phase: seq<Phase>, initial: nat, posted: nat, taken: nat)

  datatype Event =
    | Post(w: nat)
    | Wait(t: nat, forever: bool)
    | Resume(t: nat)
    | Spurious(t: nat)
    | ParkedTimesOut(t: nat)

  function In(s: State, p: Phase): nat {
    Count(s.phase, p)
  }

  function Moved(s: State, t: nat, p: Phase): State
    requires t < |s.phase|
  {
    s.(phase := s.phase[t := p])
  }

  /** A post below the cap signals; the signal wakes a parked thread if there is one. */
  predicate Enabled(s: State, e: Event) {
    match e
    case Post(w) => (w < |s.phase| && s.phase[w] == Parked) || In(s, Parked) == 0
    case Wait(t, _) => t < |s.phase| && s.phase[t] == Outside
    case Resume(t) => t < |s.phase| && s.phase[t] == Woken
    case Spurious(t) => t < |s.phase| && s.phase[t] == Parked
    case ParkedTimesOut(t) => t < |s.phase| && s.phase[t] == Parked
  }

  function Take(s: State, t: nat): State
    requires t < |s.phase| && s.count > 0
  {
    Moved(s.(count := s.count - 1, taken := s.taken + 1), t, Outside)
  }

  function Step(s: State, e: Event): State {
    if !Enabled(s, e) then s
    else match e
      case Post(w) =>
        if s.count >= s.maxCount then s
        else
          var u := s.(count := s.count + 1, posted := s.posted + 1);
          if w < |s.phase| && s.phase[w] == Parked then Moved(u, w, Woken) else u
      case Wait(t, forever) => if s.count > 0 then Take(s, t) else if forever then Moved(s, t, Parked) else s
      case Resume(t) => if s.count > 0 then Take(s, t) else Moved(s, t, Parked)
      case Spurious(t) => Moved(s, t, Woken)
      case ParkedTimesOut(t) => Moved(s, t, Outside)
  }

  predicate Init(s: State) {
    && s.count == s.initial && s.posted == 0 && s.taken == 0
    && forall t | 0 <= t < |s.phase| :: s.phase[t] == Outside
  }

  /** Units are conserved, and parked threads never outnumber the wakeups that are due. */
  predicate Inv(s: State) {
    && s.count + s.taken == s.initial + s.posted
    && (In(s, Parked) > 0 ==> s.count <= In(s, Woken))
  }

  lemma StepKeeps(s: State, e: Event)
    requires Inv(s)
    ensures Inv(Step(s, e))
  {
    if Enabled(s, e) {
      var t := if e.Post? then e.w else e.t;
      if t < |s.phase| {
        forall p, q {
          CountUpdate(s.phase, t, p, q);
        }
        CountPositive(s.phase, t, s.phase[t]);
      }
    }
  }

  function Run(s: State, es: seq<Event>): (r: State)
    requires Inv(s)
    ensures Inv(r)
  {
    if es == [] then s
    else
      StepKeeps(Run(s, es[..|es| - 1]), es[|es| - 1]);
      Step(Run(s, es[..|es| - 1]), es[|es| - 1])
  }

  lemma {:induction false} NobodyThere(ks: seq<Phase>)
    requires forall t | 0 <= t < |ks| :: ks[t] == Outside
    ensures Count(ks, Parked) == 0
  {
    if ks != [] {
      NobodyThere(ks[..|ks| - 1]);
    }
  }

  /** The same no-lost-wakeup invariant as the queue: a parked waiter and a positive count mean a
      woken waiter whose next step completes its wait, although posts at the cap do not signal. */
  lemma {:induction false} NoLostWakeup(s: State, es: seq<Event>)
    requires Init(s)
    ensures Inv(s)
    ensures var r := Run(s, es);
            && r.count + r.taken == s.initial + r.posted
            && (In(r, Parked) > 0 && r.count > 0 ==>
                  exists t :: Enabled(r, Resume(t)) && Step(r, Resume(t)).taken == r.taken + 1)
  {
    NobodyThere(s.phase);
    var r := Run(s, es);
    InitialStays(s, es);
    if In(r, Parked) > 0 && r.count > 0 {
      var t := CountWitness(r.phase, Woken);
      assert Enabled(r, Resume(t)) && Step(r, Resume(t)).taken == r.taken + 1;
    }
  }

  lemma {:induction false} InitialStays(s: State, es: seq<Event>)
    requires Inv(s)
    ensures Run(s, es).initial == s.initial
  {
    if es != [] {
      InitialStays(s, es[..|es| - 1]);
    }
  }

  function Posts(n: nat): seq<Event> {
    if n == 0 then [] else Posts(n - 1) + [Post(0)]
  }

  function Waits(t: nat, n: nat): seq<Event> {
    if n == 0 then [] else Waits(t, n - 1) + [Wait(t, false)]
  }

  lemma RunSnoc(s: State, es: seq<Event>, e: Event)
    requires Inv(s)
    ensures Run(s, es + [e]) == Step(Run(s, es), e) && Run(s, []) == s
  {
    hide Step, Inv;
    assert (es + [e])[..|es|] == es;
  }

  lemma PostAdds(s: State)
    requires In(s, Parked) == 0
    ensures var r := Step(s, Post(0));
            && r.count == (if s.count < s.maxCount then s.count + 1 else s.count)
            && r.phase == s.phase && r.maxCount == s.maxCount && r.taken == s.taken
  {
    if |s.phase| > 0 && s.phase[0] == Parked {
      CountPositive(s.phase, 0, Parked);
    }
    hide Count;
  }

  /** r is s with n more units, up to the cap. */
  predicate Added(s: State, r: State, n: nat) {
    && r.count == (if s.count + n <= s.maxCount then s.count + n else s.maxCount)
    && r.phase == s.phase && r.maxCount == s.maxCount && r.taken == s.taken
  }

  lemma AddsOne(s: State, r: State, n: nat)
    requires In(s, Parked) == 0 && s.count <= s.maxCount && Added(s, r, n)
    ensures Added(s, Step(r, Post(0)), n + 1)
  {
    PostAdds(r);
    hide Step, Count;
  }

  lemma NothingAdded(s: State)
    ensures s.count <= s.maxCount ==> Added(s, s, 0)
    ensures Posts(0) == []
  {
  }

  lemma OneMorePost(n: nat)
    ensures Posts(n + 1) == Posts(n) + [Post(0)]
  {
  }

  /** With nobody waiting n posts add n units, up to the cap. */
  lemma {:induction false} PostsAddUp(s: State, n: nat)
    requires Inv(s) && In(s, Parked) == 0 && s.count <= s.maxCount
    ensures Added(s, Run(s, Posts(n)), n)
  {
    hide *;
    RunSnoc(s, [], Post(0));
    NothingAdded(s);
    if n > 0 {
      PostsAddUp(s, n - 1);
      OneMorePost(n - 1);
      RunSnoc(s, Posts(n - 1), Post(0));
      AddsOne(s, Run(s, Posts(n - 1)), n - 1);
    }
  }

  /** And n waits that do not block take n units, as long as there are any; the others time out. */
  lemma {:induction false} WaitsUseUp(s: State, t: nat, n: nat)
    requires Inv(s) && t < |s.phase| && s.phase[t] == Outside
    ensures var r := Run(s, Waits(t, n));
            && r.count == (if s.count >= n then s.count - n else 0)
            && r.taken == s.taken + (if s.count >= n then n else s.count)
            && r.phase == s.phase
  {
    if n > 0 {
      WaitsUseUp(s, t, n - 1);
      RunSnoc(s, Waits(t, n - 1), Wait(t, false));
      assert s.phase[t := Outside] == s.phase;
      hide Inv, Run;
    } else {
      RunSnoc(s, [], Post(0));
    }
  }
}
