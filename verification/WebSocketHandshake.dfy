/** The reply to a WebSocket upgrade request and the loops that compute it. */
module WebSocketHandshake {
  import opened Bytes
  import opened HttpText
  import opened Arrivals
  import opened WebSocketUpgrade
  import Base64
  import Sha1
  import Sha1Spec

  function Get(): seq<byte> { Ascii("GET ") }
  function Upgrade(): seq<byte> { Ascii("Upgrade") }
  function Connection(): seq<byte> { Ascii("Connection") }
  function WebSocket(): seq<byte> { Ascii("websocket") }
  function SecKey(): seq<byte> { Ascii("Sec-WebSocket-Key") }

  const GUID: seq<byte> := Ascii("258EAFA5-E914-47DA-95CA-C5AB0DC85B11")

  /** Accepted carries the value of Sec-WebSocket-Accept. */
  datatype Reply = Accepted(value: seq<byte>) | NotGet | BadUpgrade | BadConnection | NoKey

  /** RFC 6455 section 4.2.2: base64 of the SHA-1 of the key followed by the GUID. */
  function AcceptValue(key: seq<byte>): seq<byte>
    requires |key| < 0x1_0000
  {
    Base64.Encode(Sha1Spec.Digest(key + GUID))
  }

  /** The key as the code takes it: at most 255 bytes of the line, blanks at the end dropped. */
  function KeyOf(line: seq<byte>): (k: seq<byte>)
    ensures |k| <= 255
  {
    TrimRight(Trunc(line, 255))
  }

  predicate Offers(text: seq<byte>, name: seq<byte>, token: seq<byte>) {
    var h := Header(text, name);
    h.Some? && Lists(h.value, token)
  }

  /** The reply as a function of the request text. */
  function ReplyTo(text: seq<byte>): Reply {
    if !(Get() <= text) then NotGet
    else if !Offers(text, Upgrade(), WebSocket()) then BadUpgrade
    else if !Offers(text, Connection(), Upgrade()) then BadConnection
    else
      match Header(text, SecKey())
      case None => NoKey
      case Some(line) => Accepted(AcceptValue(KeyOf(line)))
  }

  lemma PrefixInHead(s: seq<byte>, t: seq<byte>, p: seq<byte>)
    requires HasBlank(s) && HasBlank(t) && Head(s) == Head(t) && |p| <= 4
    ensures p <= s <==> p <= t
  {
    HeadsAgree(s, t);
  }

  lemma OfferInHead(s: seq<byte>, t: seq<byte>, name: seq<byte>, token: seq<byte>)
    requires HasBlank(s) && HasBlank(t) && Head(s) == Head(t)
    ensures Offers(s, name, token) == Offers(t, name, token)
  {
    HeaderInHead(s, t, name);
    hide Header, Lists;
  }

  /** The reply depends on nothing after the first blank line. */
  lemma ReplyInHead(s: seq<byte>, t: seq<byte>)
    requires HasBlank(s) && HasBlank(t) && Head(s) == Head(t)
    ensures ReplyTo(s) == ReplyTo(t)
  {
    hide HasBlank, Head, Offers, Header, AcceptValue, KeyOf, Upgrade, Connection, WebSocket, SecKey;
    PrefixInHead(s, t, Get());
    OfferInHead(s, t, Upgrade(), WebSocket());
    OfferInHead(s, t, Connection(), Upgrade());
    HeaderInHead(s, t, SecKey());
    hide Get;
  }

  /** What the peer gets to see of a handshake: the reply, or how the receive loop gave up. */
  datatype Outcome = Replied(r: Reply) | NoRequest(why: Received)

  function Handshake(arrivals: seq<Arrival>, end: Ending): Outcome {
    match Receive([], arrivals, end)
    case Request(text) => Replied(ReplyTo(text))
    case why => NoRequest(why)
  }

  /** However the upgrade request is split on its way, the peer gets the same reply. */
  lemma {:induction false} SameReplyForAnySplit(a: seq<Arrival>, b: seq<Arrival>, end: Ending)
    requires Stream(a) == Stream(b)
    ensures Handshake(a, end) == Handshake(b, end)
  {
    SplitDoesNotMatter(a, b, end);
    var r, q := Receive([], a, end), Receive([], b, end);
    hide Receive, ReplyTo, HasBlank, Head;
    if r.Request? && q.Request? {
      ReplyInHead(r.text, q.text);
    }
  }

  /** Bytes after the first blank line change nothing either. */
  lemma {:induction false} TailDoesNotMatter(a: seq<Arrival>, b: seq<Arrival>, end: Ending)
    requires HasBlank(Visible(Stream(a))) && HasBlank(Visible(Stream(b)))
    requires Head(Visible(Stream(a))) == Head(Visible(Stream(b)))
    ensures Handshake(a, end) == Handshake(b, end) && Handshake(a, end).Replied?
  {
    ReceiveOutcome([], a, end);
    ReceiveOutcome([], b, end);
    assert [] + Stream(a) == Stream(a) && [] + Stream(b) == Stream(b);
    hide Receive, ReplyTo, HasBlank, Head, Visible, Stream;
    ReplyInHead(Receive([], a, end).text, Receive([], b, end).text);
  }

  /** Two keys with the same accept value have the same digest: the encoding loses nothing. */
  lemma AcceptDecodes(key: seq<byte>)
    requires |key| < 0x1_0000
    ensures Base64.Decode(AcceptValue(key)) == Some(Sha1Spec.Digest(key + GUID))
  {
    Base64.DecodeEncode(Sha1Spec.Digest(key + GUID));
  }

  // ---- the loops --------------------------------------------------------------------------------

  /** _recv_http_upgrade_request into its 8192-byte buffer. */
  method ReceiveRequest(arrivals: seq<Arrival>, end: Ending) returns (r: Received)
    ensures r == Receive([], arrivals, end)
  {
    hide HasBlank, CText;
    var buffer := new byte[SIZE];
    var used, i := 0, 0;
    assert buffer[..0] == [];
    while true
      invariant used < SIZE && i <= |arrivals|
      invariant Receive([], arrivals, end) == Receive(buffer[..used], arrivals[i..], end)
      decreases |arrivals| - i
    {
      var text := CText(buffer[..used]);
      if HasBlank(text) {
        return Request(text);
      }
      if used + 1 >= SIZE {
        return TooLarge;
      }
      if i == |arrivals| {
        return Ended(end);
      }
      match arrivals[i] {
        case Interrupted =>
        case Data(d) =>
          var n := Min(|d|, SIZE - used - 1);
          ghost var was := buffer[..used];
          forall k | 0 <= k < n {
            buffer[used + k] := d[k];
          }
          used := used + n;
          assert buffer[..used] == was + Trunc(d, SIZE - |was| - 1);
      }
      i := i + 1;
    }
  }

  lemma SearchStep(s: seq<byte>, p: nat, name: seq<byte>)
    requires p <= |s|
    ensures var e := LineEnd(s, p);
            FindHeader(s, p, name) ==
              if p == |s| || e == p then None
              else if e - p > |name| && NameAt(s, p, name) then Some(SkipBlanks(s, p + |name| + 1))
              else if e == |s| then None
              else FindHeader(s, e + 2, name)
  {
  }

  /** _find_header_value. */
  method FindHeaderValue(s: seq<byte>, name: seq<byte>) returns (v: Option<nat>)
    ensures v == FindHeader(s, 0, name)
  {
    hide FindHeader, NameAt;
    var p := 0;
    while p < |s|
      invariant p <= |s| && FindHeader(s, 0, name) == FindHeader(s, p, name)
      decreases |s| - p
    {
      SearchStep(s, p, name);
      var e := LineEnd(s, p);
      if e == p {
        return None;
      }
      if e - p > |name| && NameAt(s, p, name) {
        var value := p + |name| + 1;
        while value < |s| && (s[value] == SP || s[value] == TAB)
          invariant p + |name| + 1 <= value <= |s|
          invariant SkipBlanks(s, p + |name| + 1) == SkipBlanks(s, value)
        {
          value := value + 1;
        }
        return Some(value);
      }
      if e == |s| {
        return None;
      }
      p := e + 2;
    }
    SearchStep(s, p, name);
    return None;
  }

  lemma TrimStep(s: seq<byte>)
    ensures if s != [] && (s[|s| - 1] == SP || s[|s| - 1] == TAB)
            then TrimRight(s) == TrimRight(s[..|s| - 1])
            else TrimRight(s) == s
  {
  }

  method TrimEnd(a: array<byte>, n: nat) returns (m: nat)
    requires n <= a.Length
    ensures m <= n && a[..m] == TrimRight(a[..n])
  {
    hide TrimRight;
    m := n;
    TrimStep(a[..m]);
    while m > 0 && (a[m - 1] == SP || a[m - 1] == TAB)
      invariant m <= n && TrimRight(a[..m]) == TrimRight(a[..n])
    {
      TrimStep(a[..m]);
      assert a[..m][..m - 1] == a[..m - 1];
      m := m - 1;
    }
    TrimStep(a[..m]);
  }

  /** The key loop of _do_websocket_handshake: copy up to the line's end or 255 bytes, then trim. */
  method TrimmedKey(s: seq<byte>, v: nat) returns (key: seq<byte>)
    requires v <= |s|
    ensures key == KeyOf(LineFrom(s, v))
    ensures var line := LineFrom(s, v);
            var n := if |line| <= 255 then |line| else 255;
            && key <= line[..n]
            && (forall j | |key| <= j < n :: line[j] == SP || line[j] == TAB)
            && (key != [] ==> key[|key| - 1] != SP && key[|key| - 1] != TAB)
  {
    hide TrimRight;
    var copied := new byte[256];
    var i := 0;
    ghost var l := LineEnd(s, v);
    while v + i < |s| && !CrlfAt(s, v + i) && i + 1 < 256
      invariant v + i <= l && i <= 255 && copied[..i] == s[v..v + i]
    {
      copied[i] := s[v + i];
      i := i + 1;
    }
    assert copied[..i] == Trunc(LineFrom(s, v), 255);
    var n := TrimEnd(copied, i);
    return copied[..n];
  }

  /** The value of a header has the token. */
  method HasToken(s: seq<byte>, name: seq<byte>, token: seq<byte>) returns (found: bool)
    requires token != []
    ensures found == Offers(s, name, token)
  {
    hide Lists, FindHeader, LineFrom;
    var v := FindHeaderValue(s, name);
    if v == None {
      return false;
    }
    found := ContainsToken(s, v.value, token);
  }

  method AcceptFor(key: seq<byte>) returns (value: seq<byte>)
    requires |key| <= 255
    ensures value == AcceptValue(key)
  {
    hide Sha1Spec.Digest, Sha1Spec.DigestWith, Base64.Encode;
    var digest := Sha1.Compute(key + GUID);
    DigestHas20Bytes(key + GUID);
    var d, out := new byte[20](i requires 0 <= i < 20 => digest[i]), new byte[29];
    assert d[..] == digest;
    Base64.Encode20(d, out);
    value := out[..28];
  }

  lemma DigestHas20Bytes(m: seq<byte>)
    requires 8 * |m| < Sha1Spec.TWO_64
    ensures |Sha1Spec.Digest(m)| == 20
  {
    hide Sha1Spec.AfterBlocks, BigEndian, Sha1Spec.Padding;
  }

  /** _do_websocket_handshake up to its response. */
  method DoHandshake(arrivals: seq<Arrival>, end: Ending) returns (o: Outcome)
    ensures o == Handshake(arrivals, end)
  {
    hide Receive, Offers, FindHeader, LineFrom, KeyOf, AcceptValue;
    var received := ReceiveRequest(arrivals, end);
    if !received.Request? {
      return NoRequest(received);
    }
    var text := received.text;
    if !(Get() <= text) {
      return Replied(NotGet);
    }
    var upgrade := HasToken(text, Upgrade(), WebSocket());
    if !upgrade {
      return Replied(BadUpgrade);
    }
    var connection := HasToken(text, Connection(), Upgrade());
    if !connection {
      return Replied(BadConnection);
    }
    var v := FindHeaderValue(text, SecKey());
    if v == None {
      return Replied(NoKey);
    }
    var key := TrimmedKey(text, v.value);
    var value := AcceptFor(key);
    return Replied(Accepted(value));
  }
}
