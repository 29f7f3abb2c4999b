/** The loops of the request reader, over a client socket and the buffers they fill. */
module HttpRequestReader {
  import opened Bytes
  import opened HttpText
  import opened Arrivals
  import opened HttpRequest

  class Client {
    var net: seq<Arrival>
    const end: Ending

    constructor (net: seq<Arrival>, end: Ending)
      ensures this.net == net && this.end == end
    {
      this.net, this.end := net, end;
    }

    method Receive(room: nat) returns (r: Recv)
      requires room > 0
      modifies this
      ensures r == RecvFrom(old(net), room)
      ensures net == if r.Nothing? then old(net) else r.left
    {
      r := RecvFrom(net, room);
      if !r.Nothing? {
        net := r.left;
      }
    }
  }

  /** recv stores its bytes behind those received so far. */
  method Store(bytes: array<byte>, at: nat, d: seq<byte>)
    requires at + |d| <= bytes.Length
    modifies bytes
    ensures bytes[..at + |d|] == old(bytes[..at]) + d
  {
    forall k | 0 <= k < |d| {
      bytes[at + k] := d[k];
    }
  }

  /** The receive loop of _read_http_request, into a buffer of `capacity` bytes. */
  method ReceiveHead(client: Client, capacity: nat) returns (r: HeadRead)
    requires capacity > 0
    modifies client
    ensures r == ReadHead([], old(client.net), client.end, capacity)
    ensures r.Complete? ==> client.net == r.left
  {
    hide HasBlank, CText;
    var bytes := new byte[capacity];
    var length := 0;
    assert bytes[..0] == [];
    while true
      invariant length < capacity
      invariant ReadHead([], old(client.net), client.end, capacity)
             == ReadHead(bytes[..length], client.net, client.end, capacity)
      decreases Weight(client.net)
    {
      var got := client.Receive(capacity - length);
      match got {
        case Nothing =>
          return NoHead(Error.Ended(client.end));
        case Again(_) =>
        case Bytes(d, left) =>
          Store(bytes, length, d);
          length := length + |d|;
          if HasBlank(CText(bytes[..length])) {
            return Complete(bytes[..length], client.net);
          }
          if length >= capacity {
            return NoHead(HeadTooLarge);
          }
      }
    }
  }

  lemma LocateStep(s: seq<byte>, p: nat, name: seq<byte>)
    requires p <= |s|
    ensures var e := LineEnd(s, p);
            Locate(s, p, name) ==
              if e == |s| then None
              else if e - p > |name| + 1 && NameAt(s, p, name) then Some(p)
              else Locate(s, e + 2, name)
  {
    hide NameAt;
  }

  /** _find_header_value for Content-Length, with its 64-byte result buffer. */
  method FindLength(s: seq<byte>) returns (r: Result<Option<seq<byte>>>)
    ensures r == LengthField(s)
  {
    hide Locate, NameAt, LengthName, Ascii;
    var p := 0;
    while p < |s|
      invariant p <= |s| && Locate(s, 0, LengthName()) == Locate(s, p, LengthName())
      decreases |s| - p
    {
      LocateStep(s, p, LengthName());
      var lineEnd := LineEnd(s, p);
      if lineEnd == |s| {
        break;
      }
      if lineEnd - p > 15 && NameAt(s, p, LengthName()) {
        var start := p + 15;
        BlanksStopAtCr(s, start, lineEnd);
        while s[start] == SP || s[start] == TAB
          invariant p + 15 <= start <= lineEnd
          invariant SkipBlanks(s, p + 15) == SkipBlanks(s, start)
          decreases lineEnd - start
        {
          start := start + 1;
        }
        assert s[start..lineEnd] == FieldAt(s, p, LengthName());
        if lineEnd - start >= 64 {
          return Err(FieldTooLong);
        }
        return Ok(Some(s[start..lineEnd]));
      }
      p := lineEnd + 2;
    }
    LocateStep(s, p, LengthName());
    return Ok(None);
  }

  /** _normalize_request_target. */
  method NormalizeTarget(target: seq<byte>, capacity: nat) returns (r: Result<seq<byte>>)
    ensures r == PathOf(target, capacity)
    ensures r.Ok? ==>
              && 0 < |r.value| < capacity && r.value <= target
              && (forall j | 0 <= j < |r.value| :: target[j] != 63 && target[j] != 35)
              && (|r.value| < |target| ==> target[|r.value|] in {63, 35})
    ensures r.Err? ==>
              || target == [] || target[0] in {63, 35}
              || (capacity <= |target| && forall j | 0 <= j < capacity :: target[j] != 63 && target[j] != 35)
  {
    var n := 0;
    while n < |target| && target[n] != QUESTION && target[n] != HASH
      invariant n <= |target| && QueryFrom(target, 0) == QueryFrom(target, n)
    {
      n := n + 1;
    }
    if n == 0 || n >= capacity {
      return Err(BadPath);
    }
    return Ok(target[..n]);
  }

  method ParseRequestLine(l: Limits, line: seq<byte>) returns (r: Result<(seq<byte>, seq<byte>)>)
    ensures r == ParseLine(l, line)
  {
    hide ScanLine, PathOf;
    if line == [] || |line| >= 2048 {
      return Err(BadLine);
    }
    var words := ScanLine(line);
    if words == None {
      return Err(BadLine);
    }
    if |words.value.0| >= l.methodBytes {
      return Err(MethodTooLong);
    }
    var path := NormalizeTarget(words.value.1, l.pathBytes);
    match path {
      case Err(e) => return Err(e);
      case Ok(p) => return Ok((words.value.0, p));
    }
  }

  /** The body loop: what came with the head first, the rest from the socket. */
  method ReceiveBody(client: Client, early: seq<byte>, n: nat) returns (r: Result<seq<byte>>)
    modifies client
    ensures r == ReadBody(Trunc(early, n), n, old(client.net), client.end)
  {
    var body := new byte[n];
    var have := Min(|early|, n);
    Store(body, 0, early[..have]);
    assert body[..have] == Trunc(early, n);
    while have < n
      invariant 0 <= have <= n
      invariant ReadBody(Trunc(early, n), n, old(client.net), client.end)
             == ReadBody(body[..have], n, client.net, client.end)
      decreases Weight(client.net)
    {
      var got := client.Receive(n - have);
      match got {
        case Nothing =>
          return Err(Error.Ended(client.end));
        case Again(_) =>
        case Bytes(d, left) =>
          Store(body, have, d);
          have := have + |d|;
      }
    }
    return Ok(body[..have]);
  }

  /** _read_http_request. */
  method ReadRequest(l: Limits, client: Client) returns (r: Result<Request>)
    requires l.headBytes > 0
    modifies client
    ensures r == Read(l, old(client.net), client.end)
  {
    hide ReadHead, ReadBody, ParseLine, LengthField, Atoi, Post, EqFold;
    var head := ReceiveHead(client, l.headBytes);
    if head.NoHead? {
      return Err(head.error);
    }
    var text := CText(head.buf);
    var early := head.buf[|Head(text)|..];
    var line := ParseRequestLine(l, text[..LineEnd(text, 0)]);
    if line.Err? {
      return Err(line.error);
    }
    var field := FindLength(text);
    if field.Err? {
      return Err(field.error);
    }
    var verb, path := line.value.0, line.value.1;
    if !EqFold(verb, Post()) {
      return Ok(Request(verb, path, []));
    }
    if field.value == None {
      return Err(NoLength);
    }
    var n := Atoi(l, field.value.value);
    if n < 0 || n > l.bodyBytes {
      return Err(BadLength);
    }
    var body := ReceiveBody(client, early, n);
    match body {
      case Err(e) => return Err(e);
      case Ok(b) => return Ok(Request(verb, path, b));
    }
  }
}
