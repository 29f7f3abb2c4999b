/** The HTTP server's request reader: head and body assembled from whatever recv returns. */
module HttpRequest {
  import opened Bytes
  import opened HttpText
  import opened Arrivals

  type int32 = x: int | -0x8000_0000 <= x < 0x8000_0000

  /** The server's buffer sizes, head, body, method and path, and what the platform's atoi makes of a
      number that is no int, which C leaves open. */
  datatype Limits = Limits(headBytes: nat, bodyBytes: nat, methodBytes: nat, pathBytes: nat, wide: seq<byte> -> int32)

  datatype Error =
    | Ended(why: Ending)
    | HeadTooLarge
    | BadLine
    | MethodTooLong
    | BadPath
    | FieldTooLong
    | NoLength
    | BadLength

  datatype Result<T> = Ok(value: T) | Err(error: Error)

  datatype Request = Request(verb: seq<byte>, path: seq<byte>, body: seq<byte>)

  // ---- the network ------------------------------------------------------------------------------

  /** One recv with `room` bytes of space: what it returns, and what the network still holds. */
  datatype Recv = Bytes(d: seq<byte>, left: seq<Arrival>) | Again(left: seq<Arrival>) | Nothing

  function RecvFrom(net: seq<Arrival>, room: nat): (r: Recv)
    requires room > 0
    ensures r.Bytes? ==> 0 < |r.d| <= room && r.d + Stream(r.left) == Stream(net)
    ensures r.Again? ==> Stream(r.left) == Stream(net)
    ensures r.Nothing? ==> Stream(net) == []
    ensures r.Bytes? || r.Again? ==> Weight(r.left) < Weight(net)
  {
    if net == [] then Nothing
    else
      match net[0]
      case Interrupted => Again(net[1..])
      case Data(d) =>
        assert net == [net[0]] + net[1..];
        if |d| <= room then Bytes(d, net[1..])
        else
          assert ([Data(d[room..])] + net[1..])[1..] == net[1..];
          assert d[..room] + d[room..] == d;
          assert d[..room] + (d[room..] + Stream(net[1..])) == d + Stream(net[1..]);
          Bytes(d[..room], [Data(d[room..])] + net[1..])
  }

  /** Falls with every recv that does not end the stream. */
  function Weight(net: seq<Arrival>): nat {
    if net == [] then 0 else (if net[0].Data? then |net[0].d| + 1 else 1) + Weight(net[1..])
  }

  // ---- the head ---------------------------------------------------------------------------------

  /** Everything received when the blank line has come, and what the network still holds. */
  datatype HeadRead = Complete(buf: seq<byte>, left: seq<Arrival>) | NoHead(error: Error)

  function ReadHead(buf: seq<byte>, net: seq<Arrival>, end: Ending, capacity: nat): (r: HeadRead)
    requires |buf| < capacity
    ensures r.Complete? ==> HasBlank(CText(r.buf))
    decreases Weight(net)
  {
    match RecvFrom(net, capacity - |buf|)
    case Nothing => NoHead(Ended(end))
    case Again(left) => ReadHead(buf, left, end, capacity)
    case Bytes(d, left) =>
      if HasBlank(CText(buf + d)) then Complete(buf + d, left)
      else if |buf + d| >= capacity then NoHead(HeadTooLarge)
      else ReadHead(buf + d, left, end, capacity)
  }

  /** What can matter of a stream for the head: the part that fits, up to its first NUL. */
  function Visible(s: seq<byte>, capacity: nat): seq<byte> {
    CText(Trunc(s, capacity))
  }

  predicate HeadOutcome(r: HeadRead, all: seq<byte>, end: Ending, capacity: nat) {
    var v := Visible(all, capacity);
    match r
    case Complete(buf, left) =>
      && buf + Stream(left) == all && HasBlank(CText(buf)) && HasBlank(v) && Head(CText(buf)) == Head(v)
    case NoHead(e) =>
      && !HasBlank(v)
      && e == if |all| >= capacity then HeadTooLarge else Ended(end)
  }

  lemma HeadComplete(buf: seq<byte>, left: seq<Arrival>, end: Ending, capacity: nat)
    requires |buf| <= capacity && HasBlank(CText(buf))
    ensures HeadOutcome(Complete(buf, left), buf + Stream(left), end, capacity)
  {
    var all := buf + Stream(left);
    assert buf <= Trunc(all, capacity);
    CTextGrows(buf, Trunc(all, capacity));
    BlankStays(CText(buf), Visible(all, capacity));
  }

  lemma HeadMissing(buf: seq<byte>, rest: seq<byte>, end: Ending, capacity: nat)
    requires |buf| <= capacity && !HasBlank(CText(buf)) && (|buf| < capacity ==> rest == [])
    ensures HeadOutcome(NoHead(if |buf| == capacity then HeadTooLarge else Ended(end)), buf + rest, end, capacity)
  {
    hide HasBlank, CText, Head;
    assert Trunc(buf + rest, capacity) == buf;
  }

  lemma {:induction false} ReadHeadOutcome(buf: seq<byte>, net: seq<Arrival>, end: Ending, capacity: nat)
    requires |buf| < capacity && !HasBlank(CText(buf))
    ensures HeadOutcome(ReadHead(buf, net, end, capacity), buf + Stream(net), end, capacity)
    decreases Weight(net)
  {
    hide HasBlank, CText, Head, Stream, HeadOutcome;
    match RecvFrom(net, capacity - |buf|)
    case Nothing =>
      assert buf + Stream(net) == buf;
      HeadMissing(buf, [], end, capacity);
    case Again(left) =>
      ReadHeadOutcome(buf, left, end, capacity);
    case Bytes(d, left) =>
      var b := buf + d;
      assert b + Stream(left) == buf + Stream(net);
      if HasBlank(CText(b)) {
        HeadComplete(b, left, end, capacity);
      } else if |b| >= capacity {
        HeadMissing(b, Stream(left), end, capacity);
      } else {
        ReadHeadOutcome(b, left, end, capacity);
      }
  }

  // ---- the request line -------------------------------------------------------------------------

  predicate Space(b: byte) {
    b == 32 || 9 <= b <= 13
  }

  function SkipSpace(s: seq<byte>, i: nat): (e: nat)
    requires i <= |s|
    ensures i <= e <= |s|
    decreases |s| - i
  {
    if i < |s| && Space(s[i]) then SkipSpace(s, i + 1) else i
  }

  /** The end of the word at i, at most `max` characters on. */
  function WordEnd(s: seq<byte>, i: nat, max: nat): (e: nat)
    requires i <= |s|
    ensures i <= e <= |s| && e <= i + max
    decreases max
  {
    if i < |s| && max > 0 && !Space(s[i]) then WordEnd(s, i + 1, max - 1) else i
  }

  /** sscanf with "%31s %1023s %63s": the first two words, if there are three. */
  function ScanLine(s: seq<byte>): Option<(seq<byte>, seq<byte>)> {
    var a := SkipSpace(s, 0);
    var b := WordEnd(s, a, 31);
    var c := SkipSpace(s, b);
    var d := WordEnd(s, c, 1023);
    if a == |s| || c == |s| || SkipSpace(s, d) == |s| then None else Some((s[a..b], s[c..d]))
  }

  predicate IsWord(w: seq<byte>) {
    w != [] && forall i | 0 <= i < |w| :: !Space(w[i])
  }

  lemma {:induction false} WordEndIs(s: seq<byte>, i: nat, e: nat, max: nat)
    requires i <= e <= |s| && e <= i + max && (forall j | i <= j < e :: !Space(s[j]))
    requires e < |s| ==> Space(s[e])
    ensures WordEnd(s, i, max) == e
    decreases e - i
  {
    if i < e {
      WordEndIs(s, i + 1, e, max - 1);
    }
  }

  /** One word between what was read before it and what follows behind a space. */
  lemma ReadsWord(s: seq<byte>, before: seq<byte>, w: seq<byte>, next: seq<byte>, max: nat)
    requires s == before + w + [SP] + next
    requires IsWord(w) && |w| <= max && next != [] && !Space(next[0])
    ensures var a, b := |before|, |before| + |w|;
            && a < b < b + 1 < |s| && s[a..b] == w
            && SkipSpace(s, a) == a && WordEnd(s, a, max) == b && SkipSpace(s, b) == b + 1
  {
    var a, b := |before|, |before| + |w|;
    assert forall j | a <= j < b :: s[j] == w[j - a];
    assert s[b] == SP && s[b + 1] == next[0];
    WordEndIs(s, a, b, max);
    hide WordEnd, IsWord;
    assert s[a] == w[0];
    assert SkipSpace(s, b + 1) == b + 1;
  }

  lemma FirstWordFirst(m: seq<byte>, t: seq<byte>, v: seq<byte>)
    ensures m + [SP] + t + [SP] + v == [] + m + [SP] + (t + [SP] + v)
  {
  }

  /** A line of three words is taken apart again, up to the lengths sscanf has room for. */
  lemma ScanInverts(m: seq<byte>, t: seq<byte>, v: seq<byte>)
    requires IsWord(m) && IsWord(t) && IsWord(v) && |m| <= 31 && |t| <= 1023
    ensures ScanLine(m + [SP] + t + [SP] + v) == Some((m, t))
  {
    hide WordEnd, SkipSpace, Space;
    var s := m + [SP] + t + [SP] + v;
    FirstWordFirst(m, t, v);
    ReadsWord(s, [], m, t + [SP] + v, 31);
    ReadsWord(s, m + [SP], t, v, 1023);
    hide IsWord;
  }

  const QUESTION: byte := 63
  const HASH: byte := 35

  function QueryFrom(s: seq<byte>, i: nat): (e: nat)
    requires i <= |s|
    ensures i <= e <= |s| && (e < |s| ==> s[e] == QUESTION || s[e] == HASH)
    ensures forall j | i <= j < e :: s[j] != QUESTION && s[j] != HASH
    decreases |s| - i
  {
    if i == |s| || s[i] == QUESTION || s[i] == HASH then i else QueryFrom(s, i + 1)
  }

  /** The target without query and fragment; empty or too long a path is an error. */
  function PathOf(target: seq<byte>, capacity: nat): Result<seq<byte>> {
    var n := QueryFrom(target, 0);
    if n == 0 || n >= capacity then Err(BadPath) else Ok(target[..n])
  }

  /** Method and path of a request line. */
  function ParseLine(l: Limits, line: seq<byte>): Result<(seq<byte>, seq<byte>)> {
    if line == [] || |line| >= 2048 then Err(BadLine)
    else
      match ScanLine(line)
      case None => Err(BadLine)
      case Some((m, t)) =>
        if |m| >= l.methodBytes then Err(MethodTooLong)
        else
          match PathOf(t, l.pathBytes)
          case Err(e) => Err(e)
          case Ok(path) => Ok((m, path))
  }

  // ---- Content-Length ---------------------------------------------------------------------------

  function LengthName(): (n: seq<byte>)
    ensures |n| == 14
  {
    Ascii("Content-Length")
  }

  function Post(): seq<byte> {
    Ascii("POST")
  }

  /** One line of the search for a field. */
  datatype Look = Found | NoMore | Next(p: nat)

  function LookAt(s: seq<byte>, p: nat, name: seq<byte>): (k: Look)
    requires p <= |s|
    ensures k.Next? ==> p < k.p <= |s|
    ensures k.Found? ==> p + |name| + 1 < LineEnd(s, p) < |s|
  {
    var e := LineEnd(s, p);
    if e == |s| then NoMore
    else if e - p > |name| + 1 && NameAt(s, p, name) then Found
    else Next(e + 2)
  }

  /** _find_header_value: the line that carries the field. Unlike its namesake of the WebSocket
      handshake it needs a byte after the colon, ignores an unterminated last line, and does not
      stop at an empty line. */
  function Locate(s: seq<byte>, p: nat, name: seq<byte>): (r: Option<nat>)
    requires p <= |s|
    ensures r.Some? ==> p <= r.value <= |s| && r.value + |name| + 1 < LineEnd(s, r.value) < |s|
    decreases |s| - p
  {
    match LookAt(s, p, name)
    case Found => Some(p)
    case NoMore => None
    case Next(q) => Locate(s, q, name)
  }

  lemma BlanksStopAtCr(s: seq<byte>, i: nat, e: nat)
    requires i <= e < |s| && s[e] == CR
    ensures SkipBlanks(s, i) <= e
    decreases e - i
  {
    if i < e {
      BlanksStopAtCr(s, i + 1, e);
    }
  }

  function FieldAt(s: seq<byte>, p: nat, name: seq<byte>): seq<byte>
    requires p <= |s| && p + |name| + 1 < LineEnd(s, p) < |s|
  {
    BlanksStopAtCr(s, p + |name| + 1, LineEnd(s, p));
    s[SkipBlanks(s, p + |name| + 1)..LineEnd(s, p)]
  }

  function LengthText(s: seq<byte>): seq<byte>
    requires HasLength(s)
  {
    FieldAt(s, Locate(s, 0, LengthName()).value, LengthName())
  }

  /** The number Content-Length gives. */
  function LengthOf(s: seq<byte>): int
    requires HasLength(s)
  {
    Number(LengthText(s))
  }

  /** The field's value has to fit 64 bytes with its NUL. */
  function LengthField(s: seq<byte>): Result<Option<seq<byte>>> {
    match Locate(s, 0, LengthName())
    case None => Ok(None)
    case Some(p) =>
      var v := FieldAt(s, p, LengthName());
      if |v| >= 64 then Err(FieldTooLong) else Ok(Some(v))
  }

  predicate HasLength(s: seq<byte>) {
    Locate(s, 0, LengthName()).Some?
  }

  function Digits(s: seq<byte>, i: nat, n: nat): nat
    requires i <= |s|
    decreases |s| - i
  {
    if i < |s| && 48 <= s[i] <= 57 then Digits(s, i + 1, 10 * n + (s[i] - 48)) else n
  }

  /** The number a text begins with. */
  function Number(s: seq<byte>): int {
    var i := SkipSpace(s, 0);
    if i < |s| && s[i] == 45 then 0 - Digits(s, i + 1, 0)
    else if i < |s| && s[i] == 43 then Digits(s, i + 1, 0)
    else Digits(s, i, 0)
  }

  predicate FitsInt(n: int) {
    -0x8000_0000 <= n < 0x8000_0000
  }

  function Atoi(l: Limits, s: seq<byte>): int32 {
    if FitsInt(Number(s)) then Number(s) else l.wide(s)
  }

  // ---- the body ---------------------------------------------------------------------------------

  function ReadBody(got: seq<byte>, n: nat, net: seq<Arrival>, end: Ending): Result<seq<byte>>
    requires |got| <= n
    decreases Weight(net)
  {
    if |got| == n then Ok(got)
    else
      match RecvFrom(net, n - |got|)
      case Nothing => Err(Ended(end))
      case Again(left) => ReadBody(got, n, left, end)
      case Bytes(d, left) => ReadBody(got + d, n, left, end)
  }

  /** The body is the next n bytes of the stream, however they arrive. */
  lemma {:induction false} ReadBodyOutcome(got: seq<byte>, n: nat, net: seq<Arrival>, end: Ending)
    requires |got| <= n
    ensures var all := got + Stream(net);
            ReadBody(got, n, net, end) == if |all| >= n then Ok(all[..n]) else Err(Ended(end))
    decreases Weight(net)
  {
    hide Stream;
    if |got| == n {
      assert (got + Stream(net))[..n] == got;
    } else {
      match RecvFrom(net, n - |got|)
      case Nothing =>
      case Again(left) =>
        ReadBodyOutcome(got, n, left, end);
      case Bytes(d, left) =>
        assert (got + d) + Stream(left) == got + Stream(net);
        ReadBodyOutcome(got + d, n, left, end);
    }
  }

  // ---- the whole request ------------------------------------------------------------------------

  /** What is decided once the head has arrived: an error, a request without a body, or how many
      body bytes to read. */
  datatype Decision = Refuse(e: Error) | Serve(verb: seq<byte>, path: seq<byte>) | NeedBody(verb: seq<byte>, path: seq<byte>, n: nat)

  function Decide(l: Limits, text: seq<byte>): (d: Decision)
    ensures d.NeedBody? ==> d.n <= l.bodyBytes
  {
    match ParseLine(l, text[..LineEnd(text, 0)])
    case Err(e) => Refuse(e)
    case Ok((m, path)) =>
      match LengthField(text)
      case Err(e) => Refuse(e)
      case Ok(field) =>
        if !EqFold(m, Post()) then Serve(m, path)
        else if field == None then Refuse(NoLength)
        else
          var n := Atoi(l, field.value);
          if n < 0 || n > l.bodyBytes then Refuse(BadLength) else NeedBody(m, path, n)
  }

  /** The rest of the work, with `early` the body bytes that came with the head. */
  function Finish(d: Decision, early: seq<byte>, net: seq<Arrival>, end: Ending): Result<Request> {
    match d
    case Refuse(e) => Err(e)
    case Serve(m, path) => Ok(Request(m, path, []))
    case NeedBody(m, path, n) =>
      match ReadBody(Trunc(early, n), n, net, end)
      case Err(e) => Err(e)
      case Ok(body) => Ok(Request(m, path, body))
  }

  /** _read_http_request. */
  function Read(l: Limits, net: seq<Arrival>, end: Ending): Result<Request>
    requires l.headBytes > 0
  {
    match ReadHead([], net, end, l.headBytes)
    case NoHead(e) => Err(e)
    case Complete(buf, left) =>
      var text := CText(buf);
      Finish(Decide(l, text), buf[|Head(text)|..], left, end)
  }
}
