/** What a caller may conclude from the result of a WebSocket write. */
module WebSocketWrites {
  import opened Bytes
  import opened WebSocketFrames

  // ---- sends in a row ---------------------------------------------------------------------------

  /** The send neither fails nor finds the connection closed. */
  predicate Passes(o: SendOutcome) {
    o.Interrupted? || (o.Takes? && o.n > 0)
  }

  /** How much the sends of `outcomes` would take between them. */
  function Taken(outcomes: seq<SendOutcome>): nat {
    if outcomes == [] then 0 else (if outcomes[0].Takes? then outcomes[0].n else 0) + Taken(outcomes[1..])
  }

  /** These sends all pass and have taken n bytes after the last of them. */
  predicate Carry(outcomes: seq<SendOutcome>, n: nat) {
    (forall i | 0 <= i < |outcomes| :: Passes(outcomes[i])) && Taken(outcomes) >= n
  }

  /** The first sends carry n bytes. */
  ghost predicate Begin(outcomes: seq<SendOutcome>, n: nat) {
    exists i | 0 <= i <= |outcomes| :: Carry(outcomes[..i], n)
  }

  lemma CarryCons(outcomes: seq<SendOutcome>, i: nat, n: nat)
    requires 0 < i <= |outcomes|
    ensures var k := if outcomes[0].Takes? then outcomes[0].n else 0;
            Carry(outcomes[..i], n) <==> Passes(outcomes[0]) && Carry(outcomes[1..][..i - 1], if k <= n then n - k else 0)
  {
    var o := outcomes[..i];
    assert o[1..] == outcomes[1..][..i - 1];
    assert forall j | 0 < j < i :: o[j] == o[1..][j - 1];
    assert forall j | 0 <= j < i - 1 :: o[1..][j] == o[j + 1];
  }

  lemma NothingCarried(outcomes: seq<SendOutcome>, n: nat)
    ensures Carry(outcomes[..0], n) <==> n == 0
  {
  }

  lemma SendsOn(buf: seq<byte>, outcomes: seq<SendOutcome>)
    requires buf != [] && outcomes != []
    ensures var o := outcomes[0];
            var r := SendAll(buf[Min(if o.Takes? then o.n else 0, |buf|)..], outcomes[1..]);
            && SendAll(buf, outcomes).ok == (Passes(o) && r.ok)
            && (Passes(o) ==> SendAll(buf, outcomes).left == r.left)
  {
    SendAllTakes(buf, outcomes);
    hide SendAll;
    assert buf[0..] == buf;
  }

  /** These are the last of `all`, and nothing shorter in front of them carries n bytes. */
  ghost predicate LeftAfter(all: seq<SendOutcome>, left: seq<SendOutcome>, n: nat) {
    && |left| <= |all| && left == all[|all| - |left|..]
    && Carry(all[..|all| - |left|], n)
    && forall i | 0 <= i <= |all| && Carry(all[..i], n) :: i >= |all| - |left|
  }

  lemma LeftAfterCons(all: seq<SendOutcome>, left: seq<SendOutcome>, n: nat, m: nat)
    requires all != [] && n > 0 && LeftAfter(all[1..], left, m)
    requires forall i | 0 < i <= |all| :: Carry(all[..i], n) <==> Carry(all[1..][..i - 1], m)
    ensures LeftAfter(all, left, n)
  {
    NothingCarried(all, n);
    hide Carry;
    var at := |all| - |left|;
    assert left == all[1..][at - 1..] == all[at..];
    assert Carry(all[1..][..at - 1], m);
    forall i | 0 <= i <= |all| && Carry(all[..i], n) ensures i >= at {
      if i > 0 {
        assert Carry(all[1..][..i - 1], m);
      }
    }
  }

  /** Sending a buffer succeeds exactly if the first sends carry its length; it uses no more of them
      than it has to. */
  lemma {:induction false} SendAllIff(buf: seq<byte>, outcomes: seq<SendOutcome>)
    ensures SendAll(buf, outcomes).ok <==> Begin(outcomes, |buf|)
    ensures SendAll(buf, outcomes).ok ==> LeftAfter(outcomes, SendAll(buf, outcomes).left, |buf|)
    decreases |outcomes|
  {
    NothingCarried(outcomes, |buf|);
    SendAllEnds(buf, outcomes);
    hide SendAll;
    if buf == [] {
      assert outcomes[|outcomes| - |outcomes|..] == outcomes;
      assert Carry(outcomes[..0], 0);
    } else if outcomes != [] {
      var o := outcomes[0];
      var k := if o.Takes? then o.n else 0;
      var rest := buf[Min(k, |buf|)..];
      SendAllIff(rest, outcomes[1..]);
      forall i: nat | 0 < i <= |outcomes|
        ensures Carry(outcomes[..i], |buf|) <==> Passes(o) && Carry(outcomes[1..][..i - 1], |rest|)
      {
        CarryCons(outcomes, i, |buf|);
      }
      SendsOn(buf, outcomes);
      hide Carry, Taken, Passes, LeftAfter;
      if Passes(o) && Begin(outcomes[1..], |rest|) {
        var i :| 0 <= i <= |outcomes[1..]| && Carry(outcomes[1..][..i], |rest|);
        assert Carry(outcomes[..i + 1], |buf|);
        LeftAfterCons(outcomes, SendAll(rest, outcomes[1..]).left, |buf|, |rest|);
      }
    }
  }

  // ---- the result of a write --------------------------------------------------------------------

  /** The bytes in front of a payload of n bytes, RFC 6455 section 5.2. */
  function HeaderLength(n: nat): nat {
    if n <= 125 then 2 else if n <= 65535 then 4 else 10
  }

  /** The first sends carry a frame's header, and those that follow its payload. */
  ghost predicate TakesFrame(outcomes: seq<SendOutcome>, n: nat) {
    exists i | 0 <= i <= |outcomes| :: Carry(outcomes[..i], HeaderLength(n)) && Begin(outcomes[i..], n)
  }

  lemma CarryAppend(a: seq<SendOutcome>, b: seq<SendOutcome>, n: nat)
    requires forall i | 0 <= i < |a| :: Passes(a[i])
    requires Carry(b, n)
    ensures Carry(a + b, n)
  {
    TakenAppend(a, b);
  }

  lemma {:induction false} TakenAppend(a: seq<SendOutcome>, b: seq<SendOutcome>)
    ensures Taken(a + b) == Taken(a) + Taken(b)
  {
    if a == [] {
      assert a + b == b;
    } else {
      TakenAppend(a[1..], b);
      assert (a + b)[1..] == a[1..] + b;
    }
  }

  /** Waiting for fewer sends before the payload leaves more for it. */
  lemma BeginEarlier(outcomes: seq<SendOutcome>, i: nat, j: nat, h: nat, n: nat)
    requires i <= j <= |outcomes| && Carry(outcomes[..j], h) && Begin(outcomes[j..], n)
    ensures Begin(outcomes[i..], n)
  {
    var k :| 0 <= k <= |outcomes[j..]| && Carry(outcomes[j..][..k], n);
    var a, b := outcomes[i..j], outcomes[j..][..k];
    forall x | 0 <= x < |a| ensures Passes(a[x]) {
      assert a[x] == outcomes[..j][i + x];
    }
    CarryAppend(a, b, n);
    assert outcomes[i..][..j - i + k] == a + b;
  }

  lemma FrameSentIff(c: Conn, m: Message)
    ensures SendFrame(c, m).1 <==> TakesFrame(c.outcomes, |m|)
  {
    var os, h := c.outcomes, WebSocketFrames.Header(|m|);
    assert |h| == HeaderLength(|m|);
    SendAllIff(h, os);
    var r := SendAll(h, os);
    hide SendAll, Carry, Header, HeaderLength;
    if r.ok {
      SendAllIff(m, r.left);
      SendAllEnds(m, r.left);
      var i := |os| - |r.left|;
      assert r.left == os[i..];
      forall j | 0 <= j <= |os| && Carry(os[..j], |h|) && Begin(os[j..], |m|)
        ensures Begin(os[i..], |m|)
      {
        BeginEarlier(os, i, j, |h|, |m|);
      }
    }
  }

  /** On a connection ready for it a write succeeds exactly if the socket takes the whole frame, and
      a connection survives exactly the writes that succeed or are ignored. */
  lemma WriteResults(c: Conn, data: Message, readable: bool)
    ensures var (c', r) := WriteTo(c, data, readable);
            && r == (if !c.enabled then Ignored
                     else if !c.connected then NotAttached
                     else if readable then PeerClosed
                     else if TakesFrame(c.outcomes, |data|) then Written(|data|)
                     else SendFailed)
            && (c'.connected <==> c.connected && (r.Ignored? || r.Written?))
            && c'.enabled == c.enabled
  {
    FrameSentIff(c, data);
    SendFrameSends(c, data);
    hide TakesFrame, SendFrame;
  }

  /** What the peer's decoder makes of all that was sent. */
  function Seen(c: Conn): seq<seq<byte>> {
    Decode(c.sent).messages
  }

  lemma SeenIsWritten(c: Conn)
    requires Inv(c)
    ensures Seen(c) == c.written
  {
    var f := Frames(c.written);
    assert c.sent == f + c.sent[|f|..];
    hide Decode;
    DecodesFrames(c.written, c.sent[|f|..]);
  }

  /** A write that reports success gave the peer exactly that message more; any other gave it none. */
  lemma {:induction false} ResultIsSeen(c: Conn, data: Message, readable: bool)
    requires Inv(c)
    ensures var (c', r) := WriteTo(c, data, readable);
            Inv(c') && Seen(c') == if r.Written? then Seen(c) + [data] else Seen(c)
  {
    StepKeeps(c, Write(data, readable));
    SeenIsWritten(c);
    SeenIsWritten(WriteTo(c, data, readable).0);
    hide Inv, Seen;
    SendFrameSends(c, data);
    hide SendFrame;
  }

  /** The message of a write that reported success. */
  function Report(c: Conn, op: Op): seq<seq<byte>> {
    if op.Write? && WriteTo(c, op.data, op.readable).1 == Written(|op.data|) then [op.data] else []
  }

  /** The messages of those writes of a run that reported success. */
  function Reported(c: Conn, ops: seq<Op>): seq<seq<byte>> {
    if ops == [] then []
    else Reported(c, ops[..|ops| - 1]) + Report(Run(c, ops[..|ops| - 1]), ops[|ops| - 1])
  }

  lemma StepReports(c: Conn, op: Op)
    requires Inv(c)
    ensures Inv(Step(c, op)) && Seen(Step(c, op)) == Seen(c) + Report(c, op)
  {
    StepKeeps(c, op);
    hide Inv, Decode;
    if op.Write? {
      ResultIsSeen(c, op.data, op.readable);
      WriteResults(c, op.data, op.readable);
      hide WriteTo, TakesFrame;
    }
  }

  lemma {:induction false} ReportedFrom(c: Conn, ops: seq<Op>)
    requires Inv(c)
    ensures Inv(Run(c, ops)) && Seen(Run(c, ops)) == Seen(c) + Reported(c, ops)
  {
    hide Inv, Step, Seen, Report;
    if ops != [] {
      ReportedFrom(c, ops[..|ops| - 1]);
      StepReports(Run(c, ops[..|ops| - 1]), ops[|ops| - 1]);
    }
  }

  /** In any run from an attach on, the peer sees exactly the messages whose writes reported success. */
  lemma {:induction false} PeerSeesReported(outcomes: seq<SendOutcome>, enabled: bool, ops: seq<Op>)
    ensures var c := Conn([], outcomes, true, enabled, []);
            Seen(Run(c, ops)) == Reported(c, ops) && Decode(Run(c, ops).sent).wellFormed
  {
    var c := Conn([], outcomes, true, enabled, []);
    NothingIsTorn();
    hide Torn;
    assert Inv(c);
    SeenIsWritten(c);
    ReportedFrom(c, ops);
    DecoderSeesWritten(outcomes, enabled, ops);
    hide Inv, Run, Decode, Reported;
  }
}
