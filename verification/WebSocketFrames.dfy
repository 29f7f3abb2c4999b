/** WebSocket output: binary messages become unmasked frames, sent over a socket that may take any
    part of what it is offered, be interrupted, or fail. */
module WebSocketFrames {
  import opened Bytes

  /** What a write may be given: its length is an int32. */
  type Message = s: seq<byte> | |s| < 0x8000_0000

  /** Takes(n): send returns n, or all that was offered; an unscripted send fails. */
  datatype SendOutcome = Takes(n: nat) | Interrupted | Broken

  datatype Sent = Sent(ok: bool, count: nat, left: seq<SendOutcome>)

  function SendAll(buf: seq<byte>, outcomes: seq<SendOutcome>): (r: Sent)
    ensures r.count <= |buf| && (r.ok <==> r.count == |buf|)
    decreases |outcomes|
  {
    if buf == [] then Sent(true, 0, outcomes)
    else if outcomes == [] then Sent(false, 0, [])
    else
      match outcomes[0]
      case Takes(n) =>
        if n == 0 then Sent(false, 0, outcomes[1..])
        else
          var r := SendAll(buf[Min(n, |buf|)..], outcomes[1..]);
          Sent(r.ok, Min(n, |buf|) + r.count, r.left)
      case Interrupted => SendAll(buf, outcomes[1..])
      case Broken => Sent(false, 0, outcomes[1..])
  }

  lemma SendAllEnds(buf: seq<byte>, outcomes: seq<SendOutcome>)
    ensures buf == [] ==> SendAll(buf, outcomes) == Sent(true, 0, outcomes)
    ensures buf != [] && outcomes == [] ==> SendAll(buf, outcomes) == Sent(false, 0, [])
  {
  }

  lemma SendAllTakes(buf: seq<byte>, outcomes: seq<SendOutcome>)
    requires buf != [] && outcomes != []
    ensures match outcomes[0]
            case Takes(n) =>
              if n == 0 then SendAll(buf, outcomes) == Sent(false, 0, outcomes[1..])
              else SameEnd(SendAll(buf, outcomes), Min(n, |buf|), SendAll(buf[Min(n, |buf|)..], outcomes[1..]))
            case Interrupted => SendAll(buf, outcomes) == SendAll(buf, outcomes[1..])
            case Broken => SendAll(buf, outcomes) == Sent(false, 0, outcomes[1..])
  {
  }

  /** `later` is what remains of `all` once k bytes have been taken. */
  predicate SameEnd(all: Sent, k: nat, later: Sent) {
    all == Sent(later.ok, k + later.count, later.left)
  }

  /** FIN and opcode 2, no mask, and the shortest of the three length forms. */
  function Header(n: nat): (h: seq<byte>)
    requires n < 0x8000_0000
    ensures 2 <= |h| <= 10
  {
    if n <= 125 then [0x82, n]
    else if n <= 0xFFFF then [0x82, 126] + BigEndian(n, 2)
    else [0x82, 127] + BigEndian(n, 8)
  }

  function Frame(m: Message): seq<byte> {
    Header(|m|) + m
  }

  function Frames(ms: seq<Message>): seq<byte> {
    if ms == [] then [] else Frames(ms[..|ms| - 1]) + Frame(ms[|ms| - 1])
  }

  // ---- one connection ---------------------------------------------------------------------------

  /** `sent`: every byte the network took; `written`: the messages whose write reported success. */
  datatype Conn = Conn(sent: seq<byte>, outcomes: seq<SendOutcome>, connected: bool, enabled: bool,
                       written: seq<Message>)

  /** `readable`: the peek before the write finds end of stream or data. */
  datatype Op = Write(data: Message, readable: bool) | Enable(on: bool) | Detach

  datatype WriteResult = Ignored | NotAttached | PeerClosed | SendFailed | Written(n: nat)

  function Pushed(c: Conn, buf: seq<byte>): Conn {
    var r := SendAll(buf, c.outcomes);
    c.(sent := c.sent + buf[..r.count], outcomes := r.left)
  }

  /** Header and payload go out in two runs of sends; the second is skipped for an empty payload. */
  function SendFrame(c: Conn, m: Message): (r: (Conn, bool)) {
    var head := SendAll(Header(|m|), c.outcomes);
    var c1 := Pushed(c, Header(|m|));
    if !head.ok then (c1, false)
    else if |m| > 0 then (Pushed(c1, m), SendAll(m, c1.outcomes).ok)
    else (c1, true)
  }

  function WriteTo(c: Conn, data: Message, readable: bool): (r: (Conn, WriteResult)) {
    if !c.enabled then (c, Ignored)
    else if !c.connected then (c, NotAttached)
    else if readable then (c.(connected := false), PeerClosed)
    else
      var (c', ok) := SendFrame(c, data);
      if ok then (c'.(written := c.written + [data]), Written(|data|)) else (c'.(connected := false), SendFailed)
  }

  function Step(c: Conn, op: Op): Conn {
    match op
    case Write(data, readable) => WriteTo(c, data, readable).0
    case Enable(on) => c.(enabled := on)
    case Detach => c.(connected := false)
  }

  function Run(c: Conn, ops: seq<Op>): Conn {
    if ops == [] then c else Step(Run(c, ops[..|ops| - 1]), ops[|ops| - 1])
  }

  // ---- what was sent ----------------------------------------------------------------------------

  /** A beginning of some frame, possibly nothing, but not all of it. */
  ghost predicate Torn(t: seq<byte>) {
    exists m: Message :: t < Frame(m)
  }

  /** Whole frames of the written messages, then at most one torn frame, and that only once closed. */
  ghost predicate Inv(c: Conn) {
    var f := Frames(c.written);
    && f <= c.sent && Torn(c.sent[|f|..])
    && (c.connected ==> c.sent == f)
  }

  lemma SendFrameSends(c: Conn, m: Message)
    ensures var (c', ok) := SendFrame(c, m);
            && c'.written == c.written && c'.connected == c.connected && c'.enabled == c.enabled
            && c.sent <= c'.sent
            && c'.sent[|c.sent|..] <= Frame(m)
            && (ok <==> c'.sent == c.sent + Frame(m))
  {
    hide SendAll, Header;
    var h := Header(|m|);
    var head := SendAll(h, c.outcomes);
    var c1 := Pushed(c, h);
    assert c1.sent[|c.sent|..] == h[..head.count];
    if head.ok && |m| > 0 {
      var body := SendAll(m, c1.outcomes);
      assert SendFrame(c, m).0.sent == c.sent + (h + m[..body.count]);
      assert h + m[..body.count] == (h + m)[..|h| + body.count];
    }
  }

  lemma NothingIsTorn()
    ensures Torn([])
  {
    assert [] < Frame([]);
  }

  lemma StepKeeps(c: Conn, op: Op)
    requires Inv(c)
    ensures Inv(Step(c, op))
  {
    NothingIsTorn();
    hide Torn;
    if op.Write? && c.enabled && c.connected && !op.readable {
      var (c', ok) := SendFrame(c, op.data);
      SendFrameSends(c, op.data);
      hide SendFrame;
      var f := Frames(c.written);
      assert (c.written + [op.data])[..|c.written|] == c.written;
      if ok {
        assert Frames(c.written + [op.data]) == c'.sent;
        assert c'.sent[|c'.sent|..] == [];
      } else {
        var t := c'.sent[|f|..];
        assert c'.sent == c.sent + t;
        TornIs(t, op.data);
      }
    }
  }

  lemma TornIs(t: seq<byte>, m: Message)
    requires t < Frame(m)
    ensures Torn(t)
  {
  }

  lemma {:induction false} RunKeeps(c: Conn, ops: seq<Op>)
    requires Inv(c)
    ensures Inv(Run(c, ops))
  {
    hide Inv, Step;
    if ops != [] {
      RunKeeps(c, ops[..|ops| - 1]);
      StepKeeps(Run(c, ops[..|ops| - 1]), ops[|ops| - 1]);
    }
  }

  // ---- a decoder --------------------------------------------------------------------------------

  /** RFC 6455 section 5.2 for an endpoint that receives unfragmented binary messages from a server:
      reserved bits and mask bit clear, the length in its shortest form and below 2^63. */
  datatype Parsed = Complete(payload: seq<byte>, used: nat) | Partial | Malformed

  function Payload(s: seq<byte>, at: nat, n: nat): Parsed
    requires at <= |s|
  {
    if |s| < at + n then Partial else Complete(s[at..at + n], at + n)
  }

  function ParseFrame(s: seq<byte>): (p: Parsed)
    ensures p.Complete? ==> 2 <= p.used <= |s|
  {
    if |s| < 2 then Partial
    else
      var final, reserved, opcode := s[0] / 0x80 == 1, (s[0] / 0x10) % 8, s[0] % 0x10;
      var masked, length := s[1] / 0x80 == 1, s[1] % 0x80;
      if !final || reserved != 0 || opcode != 2 || masked then Malformed
      else if length <= 125 then Payload(s, 2, length)
      else if length == 126 then
        if |s| < 4 then Partial
        else
          var n := FromBigEndian(s[2..4]);
          if n < 126 then Malformed else Payload(s, 4, n)
      else
        if |s| < 10 then Partial
        else
          var n := FromBigEndian(s[2..10]);
          if n <= 0xFFFF || n >= 0x8000_0000_0000_0000 then Malformed else Payload(s, 10, n)
  }

  datatype Decoded = Decoded(messages: seq<seq<byte>>, rest: seq<byte>, wellFormed: bool)

  function Decode(s: seq<byte>): Decoded
    decreases |s|
  {
    match ParseFrame(s)
    case Partial => Decoded([], s, true)
    case Malformed => Decoded([], s, false)
    case Complete(m, used) =>
      var d := Decode(s[used..]);
      d.(messages := [m] + d.messages)
  }

  /** The length field says how long the payload is. */
  lemma LengthField(n: nat)
    requires n < 0x8000_0000
    ensures FromBigEndian(BigEndian(n, 8)) == n
    ensures n <= 0xFFFF ==> FromBigEndian(BigEndian(n, 2)) == n
  {
    assert Pow256(2) == 0x1_0000 && Pow256(4) == 0x1_0000_0000;
    assert Pow256(6) >= Pow256(4) && Pow256(8) >= Pow256(6);
    FromBigEndianInverts(n, 2);
    FromBigEndianInverts(n, 8);
  }

  lemma ParsesFrame(m: Message, rest: seq<byte>)
    ensures ParseFrame(Frame(m) + rest) == Complete(m, |Frame(m)|)
  {
    hide BigEndian, FromBigEndian;
    LengthField(|m|);
    var s, h := Frame(m) + rest, Header(|m|);
    assert s[..|h|] == h && s[|h|..|h| + |m|] == m;
    if 125 < |m| <= 0xFFFF {
      assert s[2..4] == BigEndian(|m|, 2);
    } else if 0xFFFF < |m| {
      assert s[2..10] == BigEndian(|m|, 8);
    }
  }

  lemma ParsesTorn(t: seq<byte>, m: Message)
    requires t < Frame(m)
    ensures ParseFrame(t) == Partial
  {
    hide BigEndian, FromBigEndian;
    LengthField(|m|);
    var h := Header(|m|);
    if |t| >= |h| {
      assert t[..|h|] == h;
      if 125 < |m| <= 0xFFFF {
        assert t[2..4] == BigEndian(|m|, 2);
      } else if 0xFFFF < |m| {
        assert t[2..10] == BigEndian(|m|, 8);
      }
    } else if |t| >= 2 {
      assert t[..2] == h[..2];
    }
  }

  lemma FramesCons(m: Message, ms: seq<Message>)
    ensures Frames([m] + ms) == Frame(m) + Frames(ms)
  {
    hide Frame;
    var all := [m] + ms;
    if ms == [] {
      assert all[..0] == [];
    } else {
      FramesCons(m, ms[..|ms| - 1]);
      assert all[..|ms|] == [m] + ms[..|ms| - 1];
    }
  }

  lemma DecodesOne(s: seq<byte>, m: Message, rest: seq<byte>)
    requires s == Frame(m) + rest
    ensures Decode(s) == Decode(rest).(messages := [m] + Decode(rest).messages)
  {
    ParsesFrame(m, rest);
    hide ParseFrame, Frame;
    assert s[|Frame(m)|..] == rest;
  }

  lemma DecodesTorn(t: seq<byte>)
    requires Torn(t)
    ensures Decode(t) == Decoded([], t, true)
  {
    var m: Message :| t < Frame(m);
    ParsesTorn(t, m);
  }

  lemma DecodesCons(m: Message, ms: seq<Message>, t: seq<byte>)
    requires Decode(Frames(ms) + t) == Decoded(ms, t, true)
    ensures Decode(Frames([m] + ms) + t) == Decoded([m] + ms, t, true)
  {
    hide *;
    FramesCons(m, ms);
    var f, g := Frame(m), Frames(ms);
    assert f + g + t == f + (g + t);
    DecodesOne(Frames([m] + ms) + t, m, g + t);
  }

  lemma {:induction false} DecodesFrames(ms: seq<Message>, t: seq<byte>)
    requires Torn(t)
    ensures Decode(Frames(ms) + t) == Decoded(ms, t, true)
  {
    if ms == [] {
      DecodesTorn(t);
      assert Frames(ms) + t == t;
    } else {
      hide *;
      DecodesFrames(ms[1..], t);
      DecodesCons(ms[0], ms[1..], t);
      assert ms == [ms[0]] + ms[1..];
    }
  }

  /** Whatever the sends do, decoding all that left on a connection yields exactly the messages whose
      writes succeeded, and a torn rest only if the connection was given up. */
  lemma {:induction false} DecoderSeesWritten(outcomes: seq<SendOutcome>, enabled: bool, ops: seq<Op>)
    ensures var c := Run(Conn([], outcomes, true, enabled, []), ops);
            var d := Decode(c.sent);
            && d.messages == c.written && d.wellFormed
            && Torn(d.rest) && c.sent == Frames(c.written) + d.rest
            && (c.connected ==> d.rest == [])
  {
    var c0 := Conn([], outcomes, true, enabled, []);
    NothingIsTorn();
    hide Torn;
    assert Inv(c0);
    RunKeeps(c0, ops);
    var c := Run(c0, ops);
    hide Run, Decode;
    var f := Frames(c.written);
    assert c.sent == f + c.sent[|f|..];
    DecodesFrames(c.written, c.sent[|f|..]);
  }

  // ---- the object -------------------------------------------------------------------------------

  class WebSocket {
    var clientOpen: bool
    var isConnected: bool
    var writeEnabled: bool
    var sent: seq<byte>
    var outcomes: seq<SendOutcome>
    ghost var written: seq<Message>

    ghost function State(): Conn
      reads this
    {
      Conn(sent, outcomes, clientOpen && isConnected, writeEnabled, written)
    }

    /** Init, then an attach whose handshake succeeded. */
    constructor (script: seq<SendOutcome>)
      ensures State() == Conn([], script, true, true, [])
    {
      clientOpen, isConnected, writeEnabled := true, true, true;
      sent, outcomes, written := [], script, [];
    }

    /** _send_all. */
    method SendAllBytes(buf: seq<byte>) returns (ok: bool)
      modifies this`sent, this`outcomes
      ensures State() == Pushed(old(State()), buf) && ok == SendAll(buf, old(outcomes)).ok
    {
      hide SendAll;
      var at := 0;
      SendAllEnds(buf, outcomes);
      while at < |buf|
        invariant at <= |buf| && sent == old(sent) + buf[..at]
        invariant SameEnd(SendAll(buf, old(outcomes)), at, SendAll(buf[at..], outcomes))
        decreases |outcomes|
      {
        SendAllEnds(buf[at..], outcomes);
        if outcomes == [] {
          return false;
        }
        SendAllTakes(buf[at..], outcomes);
        var o := outcomes[0];
        outcomes := outcomes[1..];
        match o {
          case Takes(n) =>
            if n == 0 {
              return false;
            }
            var k := Min(n, |buf| - at);
            assert buf[at..][k..] == buf[at + k..];
            assert buf[..at + k] == buf[..at] + buf[at..at + k];
            sent := sent + buf[at..at + k];
            at := at + k;
          case Interrupted =>
          case Broken =>
            return false;
        }
      }
      SendAllEnds(buf[at..], outcomes);
      assert buf[..at] == buf;
      return true;
    }

    /** _send_ws_binary_frame. */
    method SendBinaryFrame(payload: Message) returns (ok: bool)
      modifies this`sent, this`outcomes
      ensures (State(), ok) == SendFrame(old(State()), payload)
    {
      hide SendAll, Pushed, BigEndian;
      var n := |payload|;
      var header: seq<byte>;
      if n <= 125 {
        header := [0x82, n];
      } else if n <= 0xFFFF {
        header := [0x82, 126, (n / 0x100) % 0x100, n % 0x100];
      } else {
        header := [0x82, 127,
          (n / 0x100_0000_0000_0000) % 0x100, (n / 0x1_0000_0000_0000) % 0x100,
          (n / 0x100_0000_0000) % 0x100, (n / 0x1_0000_0000) % 0x100,
          (n / 0x100_0000) % 0x100, (n / 0x1_0000) % 0x100,
          (n / 0x100) % 0x100, n % 0x100];
      }
      HeaderBytes(n);
      ok := SendAllBytes(header);
      if ok && n > 0 {
        ok := SendAllBytes(payload);
      }
    }

    method WriteMessage(data: Message, readable: bool) returns (r: WriteResult)
      modifies this
      ensures (State(), r) == WriteTo(old(State()), data, readable)
      ensures r.Written? ==> r.n == |data| && sent == old(sent) + Frame(data)
      ensures r.SendFailed? ==> old(sent) <= sent < old(sent) + Frame(data)
      ensures r.Ignored? || r.NotAttached? || r.PeerClosed? ==> sent == old(sent)
    {
      SendFrameSends(State(), data);
      hide SendFrame;
      if !writeEnabled {
        return Ignored;
      }
      if !clientOpen || !isConnected {
        return NotAttached;
      }
      if readable {
        isConnected, clientOpen := false, false;
        return PeerClosed;
      }
      var ok := SendBinaryFrame(data);
      if !ok {
        isConnected, clientOpen := false, false;
        return SendFailed;
      }
      written := written + [data];
      return Written(|data|);
    }

    method EnableWrites(on: bool)
      modifies this
      ensures State() == Step(old(State()), Enable(on)) == old(State()).(enabled := on)
    {
      writeEnabled := on;
    }

    method DetachClient()
      modifies this
      ensures State() == Step(old(State()), Op.Detach) == old(State()).(connected := false)
    {
      isConnected, clientOpen := false, false;
    }
  }

  lemma HeaderBytes(n: nat)
    requires n < 0x8000_0000
    ensures 125 < n <= 0xFFFF ==> Header(n) == [0x82, 126, (n / 0x100) % 0x100, n % 0x100]
    ensures 0xFFFF < n ==> Header(n) == [0x82, 127,
      (n / 0x100_0000_0000_0000) % 0x100, (n / 0x1_0000_0000_0000) % 0x100,
      (n / 0x100_0000_0000) % 0x100, (n / 0x1_0000_0000) % 0x100,
      (n / 0x100_0000) % 0x100, (n / 0x1_0000) % 0x100,
      (n / 0x100) % 0x100, n % 0x100]
  {
    hide BigEndian;
    ShiftedBytes(n);
    BigEndianStep(n, 1);
    BigEndianStep(n / 0x100, 0);
  }
}
