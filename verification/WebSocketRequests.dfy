/** The opening handshake in terms of the lines of the request. */
module WebSocketRequests {
  import opened Bytes
  import opened HttpText
  import opened HttpLines
  import opened Arrivals
  import opened WebSocketUpgrade
  import opened WebSocketHandshake
  import Base64
  import Sha1Spec

  // ---- the search, over lines -------------------------------------------------------------------

  lemma LooksAtLine(s: seq<byte>, a: nat, l: seq<byte>, name: seq<byte>)
    requires LineAt(s, a, l) && IsLine(l)
    ensures LookAt(s, a, name) ==
              if IsField(l, name) then Stop(Some(a + SkipBlanks(l, |name| + 1))) else Next(a + |l| + 2)
  {
    hide LineEnd, NameAt, SkipBlanks, IsLine, LineAt, IsField;
    LineBounds(s, a, l);
    if |l| > |name| {
      FieldInText(s, a, l, name);
    } else {
      TooShort(l, name);
    }
  }

  lemma RestOfLine(s: seq<byte>, a: nat, l: seq<byte>, v: nat)
    requires LineAt(s, a, l) && IsLine(l) && v <= |l|
    ensures LineFrom(s, a + v) == l[v..]
  {
    LineInText(s, a, l);
    HttpLines.LineEndIs(s, a + v, a + |l|);
    hide LineEnd, IsLine;
  }

  lemma ValueInText(s: seq<byte>, a: nat, l: seq<byte>, name: seq<byte>)
    requires LineAt(s, a, l) && IsLine(l) && IsField(l, name)
    ensures LineFrom(s, a + SkipBlanks(l, |name| + 1)) == Value(l, name)
  {
    RestOfLine(s, a, l, SkipBlanks(l, |name| + 1));
    hide LineFrom, LineAt, IsLine;
  }

  /** The search has come upon this value. */
  predicate Found(s: seq<byte>, f: Option<nat>, v: seq<byte>) {
    f.Some? && f.value <= |s| && LineFrom(s, f.value) == v
  }

  lemma SearchesLine(s: seq<byte>, a: nat, l: seq<byte>, name: seq<byte>)
    requires LineAt(s, a, l) && IsLine(l)
    ensures if IsField(l, name)
            then Found(s, FindHeader(s, a, name), Value(l, name))
            else FindHeader(s, a, name) == FindHeader(s, a + |l| + 2, name)
  {
    LooksAtLine(s, a, l, name);
    if IsField(l, name) {
      ValueInText(s, a, l, name);
    }
    hide LookAt, LineFrom, IsField, Value, IsLine;
  }

  /** The search finds the value of the first line with such a field. */
  lemma {:induction false} FindsFirst(s: seq<byte>, a: nat, lines: seq<seq<byte>>, name: seq<byte>, i: nat)
    requires AreLines(lines) && TextAt(s, a, lines) && IsFirst(lines, name, i)
    ensures a <= |s| && Found(s, FindHeader(s, a, name), Value(lines[i], name))
    decreases i
  {
    RestAreLines(lines);
    FirstOrLater(lines, name, i);
    SearchesLine(s, a, lines[0], name);
    hide LineAt, FindHeader, IsLine, Found, Value, IsField, AreLines;
    if i > 0 {
      FirstInRest(lines, name, i);
      hide IsFirst;
      FindsFirst(s, a + |lines[0]| + 2, lines[1..], name, i - 1);
    }
  }

  lemma StopsAtBlank(s: seq<byte>, a: nat, name: seq<byte>)
    requires CrlfAt(s, a)
    ensures FindHeader(s, a, name) == None
  {
    assert LookAt(s, a, name) == Stop(None);
  }

  /** It stops at the blank line. */
  lemma {:induction false} FindsNone(s: seq<byte>, a: nat, lines: seq<seq<byte>>, name: seq<byte>)
    requires AreLines(lines) && TextAt(s, a, lines) && !HasField(lines, name)
    ensures a <= |s| && FindHeader(s, a, name) == None
    decreases |lines|
  {
    if lines == [] {
      StopsAtBlank(s, a, name);
    } else {
      RestAreLines(lines);
      NoneInRest(lines, name);
      SearchesLine(s, a, lines[0], name);
      hide LineAt, FindHeader, IsLine, Found, Value, IsField;
      assert !IsField(lines[0], name);
      FindsNone(s, a + |lines[0]| + 2, lines[1..], name);
    }
  }

  // ---- lists of tokens --------------------------------------------------------------------------

  function Joined(pieces: seq<seq<byte>>): seq<byte>
    requires pieces != []
  {
    if |pieces| == 1 then pieces[0] else pieces[0] + [COMMA] + Joined(pieces[1..])
  }

  /** A list of elements has a token exactly if one of them is it, blanks around it and case aside. */
  lemma {:induction false} ListsJoined(pieces: seq<seq<byte>>, token: seq<byte>)
    requires pieces != [] && forall i | 0 <= i < |pieces| :: COMMA !in pieces[i]
    ensures Lists(Joined(pieces), token) <==> exists i | 0 <= i < |pieces| :: Names(pieces[i], token)
  {
    hide Names, Lists;
    if |pieces| == 1 {
      ListsOne(pieces[0], token);
    } else {
      var rest := pieces[1..];
      assert forall i | 0 <= i < |rest| :: rest[i] == pieces[i + 1];
      assert forall i | 1 <= i < |pieces| :: pieces[i] == rest[i - 1];
      ListsJoined(rest, token);
      ListsMore(Joined(pieces), pieces[0], Joined(rest), token);
    }
  }

  /** No blank at either end. */
  predicate Trimmed(w: seq<byte>) {
    w != [] ==> w[0] != SP && w[0] != TAB && w[|w| - 1] != SP && w[|w| - 1] != TAB
  }

  lemma {:induction false} RightTrimmed(w: seq<byte>, b: seq<byte>)
    requires Blanks(b) && Trimmed(w)
    ensures TrimRight(w + b) == w
  {
    if b == [] {
      assert w + b == w;
    } else {
      assert (w + b)[..|w + b| - 1] == w + b[..|b| - 1];
      RightTrimmed(w, b[..|b| - 1]);
    }
  }

  lemma NamesPadded(b: seq<byte>, w: seq<byte>, b': seq<byte>, token: seq<byte>)
    requires Blanks(b) && Blanks(b') && Trimmed(w) && w != []
    ensures Names(b + w + b', token) <==> EqFold(w, token)
  {
    var s := b + w + b';
    assert s[|b|] == w[0];
    BlanksSkipped(s, 0, |b|);
    assert s[|b|..] == w + b';
    RightTrimmed(w, b');
  }

  // ---- the reply --------------------------------------------------------------------------------

  /** The first field of this name lists the token. */
  ghost predicate LinesOffer(lines: seq<seq<byte>>, name: seq<byte>, token: seq<byte>) {
    exists i: nat :: IsFirst(lines, name, i) && Lists(Value(lines[i], name), token)
  }

  lemma {:induction false} FirstExists(lines: seq<seq<byte>>, name: seq<byte>) returns (i: nat)
    requires HasField(lines, name)
    ensures IsFirst(lines, name, i)
  {
    hide IsField;
    i := 0;
    while !IsField(lines[i], name)
      invariant i < |lines| && forall j | 0 <= j < i :: !IsField(lines[j], name)
      invariant exists k | i <= k < |lines| :: IsField(lines[k], name)
      decreases |lines| - i
    {
      i := i + 1;
    }
  }

  lemma OneFirst(lines: seq<seq<byte>>, name: seq<byte>, i: nat, j: nat)
    requires IsFirst(lines, name, i) && IsFirst(lines, name, j)
    ensures i == j
  {
    hide IsField;
  }

  lemma HeaderInLines(lines: seq<seq<byte>>, name: seq<byte>)
    requires AreLines(lines)
    ensures !HasField(lines, name) ==> Header(Text(lines), name) == None
    ensures forall i: nat | IsFirst(lines, name, i) :: Header(Text(lines), name) == Some(Value(lines[i], name))
  {
    TextItself(lines);
    hide Text, TextAt, AreLines, IsField, FindHeader, HasField, Value, LineFrom;
    if !HasField(lines, name) {
      FindsNone(Text(lines), 0, lines, name);
    }
    forall i: nat | IsFirst(lines, name, i)
      ensures Header(Text(lines), name) == Some(Value(lines[i], name))
    {
      FindsFirst(Text(lines), 0, lines, name, i);
    }
  }

  lemma OffersInLines(lines: seq<seq<byte>>, name: seq<byte>, token: seq<byte>)
    requires AreLines(lines)
    ensures Offers(Text(lines), name, token) <==> LinesOffer(lines, name, token)
  {
    HeaderInLines(lines, name);
    hide Header, Text, AreLines, IsField, Lists, Value;
    if HasField(lines, name) {
      var i := FirstExists(lines, name);
      forall j: nat | IsFirst(lines, name, j) ensures j == i {
        OneFirst(lines, name, i, j);
      }
    }
  }

  /** What comes before the blank line decides, however the stream is split and whatever follows. */
  lemma {:induction false} HandshakeOnText(arrivals: seq<Arrival>, end: Ending, lines: seq<seq<byte>>, rest: seq<byte>)
    requires lines != [] && AreLines(lines) && Stream(arrivals) == Text(lines) + rest && |Text(lines)| <= 8191
    ensures Handshake(arrivals, end) == Replied(ReplyTo(Text(lines)))
  {
    HeadOfLines(lines, rest, 8191);
    ReceiveOutcome([], arrivals, end);
    assert [] + Stream(arrivals) == Stream(arrivals);
    hide Text, AreLines, HasBlank, Head, ReplyTo, Stream;
    var r := Receive([], arrivals, end);
    hide Receive;
    ReplyInHead(r.text, Text(lines));
  }

  /** A request whose blank line does not come within 8191 bytes is given up. */
  lemma {:induction false} LongRequestRefused(arrivals: seq<Arrival>, end: Ending, lines: seq<seq<byte>>, rest: seq<byte>)
    requires lines != [] && AreLines(lines) && Stream(arrivals) == Text(lines) + rest && |Text(lines)| > 8191
    ensures Handshake(arrivals, end) == NoRequest(TooLarge)
  {
    NoEarlyBlank(lines, rest, 8191);
    ReceiveOutcome([], arrivals, end);
    assert [] + Stream(arrivals) == Stream(arrivals);
    hide Text, AreLines, HasBlank, Head, ReplyTo, Stream, Receive;
  }

  lemma GetStarts(lines: seq<seq<byte>>)
    requires lines != [] && AreLines(lines)
    ensures Get() <= Text(lines) <==> Ascii("GET ") <= lines[0]
  {
    assert IsLine(lines[0]);
    var l, t := lines[0], Text(lines);
    assert t == l + ([CR, LF] + Text(lines[1..]));
    assert t[..|l|] == l && t[|l|] == CR;
  }

  const KEY_NAME: seq<byte> := Ascii("Sec-WebSocket-Key")

  const ACCEPT_GUID: seq<byte> := Ascii("258EAFA5-E914-47DA-95CA-C5AB0DC85B11")

  /** A GET request that asks for the upgrade. */
  ghost predicate AsksUpgrade(lines: seq<seq<byte>>) {
    && lines != [] && Ascii("GET ") <= lines[0]
    && LinesOffer(lines, Ascii("Upgrade"), Ascii("websocket"))
    && LinesOffer(lines, Ascii("Connection"), Ascii("Upgrade"))
  }

  /** The reply in terms of the lines of the request. */
  lemma {:induction false} ReplyToLines(arrivals: seq<Arrival>, end: Ending, lines: seq<seq<byte>>, rest: seq<byte>)
    requires lines != [] && AreLines(lines) && Stream(arrivals) == Text(lines) + rest && |Text(lines)| <= 8191
    ensures var o := Handshake(arrivals, end);
            var get := Ascii("GET ") <= lines[0];
            var upgrade := LinesOffer(lines, Ascii("Upgrade"), Ascii("websocket"));
            var connection := LinesOffer(lines, Ascii("Connection"), Ascii("Upgrade"));
            && o.Replied?
            && (o.r == NotGet <==> !get)
            && (o.r == BadUpgrade <==> get && !upgrade)
            && (o.r == BadConnection <==> get && upgrade && !connection)
            && (o.r == NoKey <==> get && upgrade && connection && !HasField(lines, KEY_NAME))
            && (o.r.Accepted? <==> get && upgrade && connection && HasField(lines, KEY_NAME))
            && (o.r.Accepted? ==> forall i: nat | IsFirst(lines, KEY_NAME, i) ::
                  o.r.value == AcceptValue(KeyOf(Value(lines[i], KEY_NAME))))
  {
    HandshakeOnText(arrivals, end, lines, rest);
    GetStarts(lines);
    OffersInLines(lines, Upgrade(), WebSocket());
    OffersInLines(lines, Connection(), Upgrade());
    HeaderInLines(lines, SecKey());
    hide Handshake, Text, AreLines, Offers, Header, IsField, Value, KeyOf, AcceptValue, LinesOffer, Get, Ascii;
    if HasField(lines, KEY_NAME) {
      var i := FirstExists(lines, KEY_NAME);
    }
  }

  lemma WholeKey(key: seq<byte>)
    requires |key| <= 255 && Trimmed(key)
    ensures KeyOf(key) == key
  {
    RightTrimmed(key, []);
    assert key + [] == key;
  }

  /** RFC 6455 section 4.2.2 from the client's side: a complete upgrade request is accepted with the
      base64 text of the SHA-1 of its whole key and the GUID. */
  lemma {:induction false} AcceptsKey(arrivals: seq<Arrival>, end: Ending, lines: seq<seq<byte>>, rest: seq<byte>,
                                      i: nat, name: seq<byte>, b: seq<byte>, key: seq<byte>)
    requires lines != [] && AreLines(lines) && Stream(arrivals) == Text(lines) + rest && |Text(lines)| <= 8191
    requires AsksUpgrade(lines)
    requires IsFirst(lines, KEY_NAME, i) && lines[i] == name + [COLON] + b + key && |name| == |KEY_NAME| && Blanks(b)
    requires 0 < |key| <= 255 && Trimmed(key)
    ensures Handshake(arrivals, end)
         == Replied(Accepted(Base64.Encode(Sha1Spec.Digest(key + ACCEPT_GUID))))
  {
    ReplyToLines(arrivals, end, lines, rest);
    assert HasField(lines, KEY_NAME);
    KeyIs(lines[i], name, b, key);
    hide *;
  }

  lemma KeyIs(l: seq<byte>, name: seq<byte>, b: seq<byte>, key: seq<byte>)
    requires l == name + [COLON] + b + key && IsField(l, KEY_NAME) && |name| == |KEY_NAME| && Blanks(b)
    requires 0 < |key| <= 255 && Trimmed(key)
    ensures AcceptValue(KeyOf(Value(l, KEY_NAME))) == Base64.Encode(Sha1Spec.Digest(key + ACCEPT_GUID))
  {
    assert l[..|KEY_NAME|] == name;
    FieldHas(name, b, key, KEY_NAME);
    WholeKey(key);
    hide Value, KeyOf, Base64.Encode, Sha1Spec.Digest;
  }
}
