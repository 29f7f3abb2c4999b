/** The opening handshake: collecting the upgrade request, reading its headers, and the reply. */
module WebSocketUpgrade {
  import opened Bytes
  import opened HttpText
  import opened Arrivals

  // ---- collecting the request -------------------------------------------------------------------

  datatype Received = Request(text: seq<byte>) | TooLarge | Ended(why: Ending)

  const SIZE: nat := 8192

  /** The loop of _recv_http_upgrade_request with `buf` already received; a recv gets no more than fits. */
  function Receive(buf: seq<byte>, arrivals: seq<Arrival>, end: Ending): Received
    requires |buf| < SIZE
    decreases |arrivals|
  {
    if HasBlank(CText(buf)) then Request(CText(buf))
    else if |buf| + 1 >= SIZE then TooLarge
    else if arrivals == [] then Ended(end)
    else
      match arrivals[0]
      case Data(d) => Receive(buf + Trunc(d, SIZE - |buf| - 1), arrivals[1..], end)
      case Interrupted => Receive(buf, arrivals[1..], end)
  }

  /** What may matter of a stream: the part that fits the buffer, up to its first NUL. */
  function Visible(s: seq<byte>): seq<byte> {
    CText(Trunc(s, SIZE - 1))
  }

  lemma TruncGrows(buf: seq<byte>, d: seq<byte>, rest: seq<byte>)
    requires |buf| < SIZE
    ensures var b := buf + Trunc(d, SIZE - |buf| - 1);
            && |b| < SIZE
            && Trunc(b + rest, SIZE - 1) == Trunc(buf + (d + rest), SIZE - 1)
            && (|b + rest| < SIZE - 1 <==> |buf + (d + rest)| < SIZE - 1)
  {
  }

  /** How the loop ends, from the whole stream alone. */
  lemma {:induction false} ReceiveOutcome(buf: seq<byte>, arrivals: seq<Arrival>, end: Ending)
    requires |buf| < SIZE
    ensures var all := buf + Stream(arrivals);
            match Receive(buf, arrivals, end)
            case Request(text) => HasBlank(text) && HasBlank(Visible(all)) && Head(text) == Head(Visible(all))
            case TooLarge => !HasBlank(Visible(all)) && |all| >= SIZE - 1
            case Ended(e) => !HasBlank(Visible(all)) && |all| < SIZE - 1 && e == end
    decreases |arrivals|
  {
    var all := buf + Stream(arrivals);
    assert buf <= Trunc(all, SIZE - 1);
    CTextGrows(buf, Trunc(all, SIZE - 1));
    if HasBlank(CText(buf)) {
      BlankStays(CText(buf), Visible(all));
    } else if |buf| + 1 >= SIZE {
      assert Trunc(all, SIZE - 1) == buf;
    } else if arrivals == [] {
      assert all == buf;
    } else {
      match arrivals[0]
      case Data(d) =>
        TruncGrows(buf, d, Stream(arrivals[1..]));
        ReceiveOutcome(buf + Trunc(d, SIZE - |buf| - 1), arrivals[1..], end);
        hide HasBlank, Head, CText, Trunc;
      case Interrupted =>
        assert Stream(arrivals) == Stream(arrivals[1..]);
        ReceiveOutcome(buf, arrivals[1..], end);
    }
  }

  /** However the stream is split, the loop ends the same way, with the same head if it finds one. */
  predicate SameReceipt(r: Received, q: Received) {
    if r.Request? && q.Request? then HasBlank(r.text) && HasBlank(q.text) && Head(r.text) == Head(q.text) else r == q
  }

  lemma {:induction false} SplitDoesNotMatter(a: seq<Arrival>, b: seq<Arrival>, end: Ending)
    requires Stream(a) == Stream(b)
    ensures SameReceipt(Receive([], a, end), Receive([], b, end))
  {
    ReceiveOutcome([], a, end);
    ReceiveOutcome([], b, end);
    hide Receive, HasBlank, Head, Visible;
  }

  // ---- headers ----------------------------------------------------------------------------------

  /** One line of the search: it ends with a result, or goes on at the next line. */
  datatype Look = Stop(v: Option<nat>) | Next(p: nat)

  function LookAt(s: seq<byte>, p: nat, name: seq<byte>): (k: Look)
    requires p <= |s|
    ensures k.Next? ==> p < k.p <= |s|
    ensures k.Stop? && k.v.Some? ==> p <= k.v.value <= |s|
  {
    var e := LineEnd(s, p);
    if p == |s| || e == p then Stop(None)
    else if e - p > |name| && NameAt(s, p, name) then Stop(Some(SkipBlanks(s, p + |name| + 1)))
    else if e == |s| then Stop(None)
    else Next(e + 2)
  }

  /** _find_header_value from position p: the index where the value starts. Stops at an empty line. */
  function FindHeader(s: seq<byte>, p: nat, name: seq<byte>): (v: Option<nat>)
    requires p <= |s|
    ensures v.Some? ==> p <= v.value <= |s|
    decreases |s| - p
  {
    match LookAt(s, p, name)
    case Stop(v) => v
    case Next(q) => FindHeader(s, q, name)
  }

  /** The rest of the line from position v on. */
  function LineFrom(s: seq<byte>, v: nat): seq<byte>
    requires v <= |s|
  {
    s[v..LineEnd(s, v)]
  }

  /** The text of a header, or None. */
  function Header(s: seq<byte>, name: seq<byte>): Option<seq<byte>> {
    match FindHeader(s, 0, name)
    case None => None
    case Some(v) => Some(LineFrom(s, v))
  }

  /** What the search sees of one line is the same in two texts that agree up to a blank line at e. */
  lemma SameLook(s: seq<byte>, t: seq<byte>, e: nat, p: nat, name: seq<byte>)
    requires Agree(s, t, e + 4) && BlankAt(s, e) && p <= e
    ensures LookAt(s, p, name) == LookAt(t, p, name)
    ensures var k := LookAt(s, p, name);
            && (k.Next? ==> k.p <= e || k.p == e + 2)
            && (k.Stop? && k.v.Some? ==> k.v.value <= e)
  {
    SameLineEnd(s, t, e, p);
    var l := LineEnd(s, p);
    hide LineEnd, NameAt;
    if l - p > |name| {
      SameName(s, t, l, p, name);
      SameBlanks(s, t, l, p + |name| + 1);
    }
    hide SkipBlanks;
  }

  lemma {:induction false} SameHeader(s: seq<byte>, t: seq<byte>, e: nat, p: nat, name: seq<byte>)
    requires Agree(s, t, e + 4) && BlankAt(s, e) && p <= e
    ensures FindHeader(s, p, name) == FindHeader(t, p, name)
    ensures FindHeader(s, p, name).Some? ==> FindHeader(s, p, name).value <= e
    decreases e - p
  {
    SameLook(s, t, e, p, name);
    NothingAtBlank(s, t, e, name);
    hide LookAt;
    var k := LookAt(s, p, name);
    if k.Next? && k.p <= e {
      SameHeader(s, t, e, k.p, name);
    }
  }

  lemma NothingAtBlank(s: seq<byte>, t: seq<byte>, e: nat, name: seq<byte>)
    requires Agree(s, t, e + 4) && BlankAt(s, e)
    ensures FindHeader(s, e + 2, name) == None && FindHeader(t, e + 2, name) == None
  {
    assert LineEnd(s, e + 2) == e + 2 == LineEnd(t, e + 2);
  }

  /** A header's text depends on nothing after the first blank line. */
  lemma HeaderInHead(s: seq<byte>, t: seq<byte>, name: seq<byte>)
    requires HasBlank(s) && HasBlank(t) && Head(s) == Head(t)
    ensures Header(s, name) == Header(t, name)
  {
    HeadsAgree(s, t);
    var e := BlankFrom(s, 0);
    SameHeader(s, t, e, 0, name);
    var v := FindHeader(s, 0, name);
    hide FindHeader, Head, HasBlank;
    if v.Some? {
      SameLineEnd(s, t, e, v.value);
      var l := LineEnd(s, v.value);
      assert s[v.value..l] == t[v.value..l];
    }
  }

  // ---- token lists ------------------------------------------------------------------------------

  function CommaFrom(s: seq<byte>, i: nat): (e: nat)
    requires i <= |s|
    ensures i <= e <= |s| && (e < |s| ==> s[e] == COMMA)
    ensures forall j | i <= j < e :: s[j] != COMMA
    decreases |s| - i
  {
    if i == |s| || s[i] == COMMA then i else CommaFrom(s, i + 1)
  }

  /** The elements of a comma-separated list, blanks and all. */
  function Split(line: seq<byte>): (pieces: seq<seq<byte>>)
    ensures pieces != []
    decreases |line|
  {
    var c := CommaFrom(line, 0);
    if c == |line| then [line] else [line[..c]] + Split(line[c + 1..])
  }

  predicate Names(piece: seq<byte>, token: seq<byte>) {
    EqFold(Trim(piece), token)
  }

  predicate AnyNames(pieces: seq<seq<byte>>, token: seq<byte>) {
    exists i | 0 <= i < |pieces| :: Names(pieces[i], token)
  }

  /** Some element, blanks trimmed, equals the token without regard to case. */
  predicate Lists(line: seq<byte>, token: seq<byte>) {
    AnyNames(Split(line), token)
  }

  lemma AnyCons(piece: seq<byte>, later: seq<seq<byte>>, token: seq<byte>)
    ensures AnyNames([piece] + later, token) == (Names(piece, token) || AnyNames(later, token))
  {
    hide Names;
    var all := [piece] + later;
    assert all[0] == piece && forall i | 0 <= i < |later| :: all[i + 1] == later[i];
    assert forall i | 1 <= i < |all| :: all[i] == later[i - 1];
  }

  lemma {:induction false} CommaIs(s: seq<byte>, i: nat, e: nat)
    requires i <= e <= |s| && (e < |s| ==> s[e] == COMMA) && forall j | i <= j < e :: s[j] != COMMA
    ensures CommaFrom(s, i) == e
    decreases e - i
  {
    if i < e {
      CommaIs(s, i + 1, e);
    }
  }

  lemma ListsOne(line: seq<byte>, token: seq<byte>)
    requires COMMA !in line
    ensures Lists(line, token) == Names(line, token)
  {
    hide Names;
    CommaIs(line, 0, |line|);
    assert Split(line) == [line];
    AnyCons(line, [], token);
    assert [line] + [] == [line];
  }

  lemma ListsMore(line: seq<byte>, first: seq<byte>, rest: seq<byte>, token: seq<byte>)
    requires line == first + [COMMA] + rest && COMMA !in first
    ensures Lists(line, token) == (Names(first, token) || Lists(rest, token))
  {
    hide Names, AnyNames;
    CommaIs(line, 0, |first|);
    hide CommaFrom;
    assert line[..|first|] == first && line[|first| + 1..] == rest;
    assert Split(line) == [first] + Split(rest);
    AnyCons(first, Split(rest), token);
  }

  lemma SkipBlanksTail(s: seq<byte>, i: nat)
    requires 0 < i <= |s|
    ensures SkipBlanks(s, i) == SkipBlanks(s[1..], i - 1) + 1
    decreases |s| - i
  {
    if i < |s| {
      SkipBlanksTail(s, i + 1);
    }
  }

  lemma TrimTail(s: seq<byte>)
    requires s != [] && (s[0] == SP || s[0] == TAB)
    ensures Trim(s) == Trim(s[1..])
  {
    SkipBlanksTail(s, 1);
    hide TrimRight;
    var k := SkipBlanks(s[1..], 0);
    assert s[k + 1..] == s[1..][k..];
  }

  lemma EmptyNames(token: seq<byte>)
    requires token != []
    ensures !Names([], token) && !Lists([], token)
  {
    ListsOne([], token);
  }

  /** A separator in front changes nothing. */
  lemma ListsAfterComma(line: seq<byte>, token: seq<byte>)
    requires line != [] && token != [] && line[0] == COMMA
    ensures Lists(line, token) == Lists(line[1..], token)
  {
    hide Lists, Names;
    EmptyNames(token);
    assert line == [] + [COMMA] + line[1..];
    ListsMore(line, [], line[1..], token);
  }

  lemma ListsAfterBlank(line: seq<byte>, token: seq<byte>)
    requires line != [] && (line[0] == SP || line[0] == TAB)
    ensures Lists(line, token) == Lists(line[1..], token)
  {
    var rest, c := line[1..], CommaFrom(line, 0);
    hide Lists, Trim, EqFold, CommaFrom;
    if c == |line| {
      ListsOne(line, token);
      ListsOne(rest, token);
      TrimTail(line);
    } else {
      var first, later := line[..c], line[c + 1..];
      assert line == first + [COMMA] + later && rest == first[1..] + [COMMA] + later;
      ListsMore(line, first, later, token);
      ListsMore(rest, first[1..], later, token);
      TrimTail(first);
    }
  }

  lemma TrimStart(s: seq<byte>)
    requires s == [] || (s[0] != SP && s[0] != TAB)
    ensures Trim(s) == TrimRight(s)
  {
    assert s[0..] == s;
  }

  /** An element that starts with no separator is compared as the code does. */
  lemma ListsPiece(line: seq<byte>, c: nat, token: seq<byte>)
    requires c <= |line| && (c < |line| ==> line[c] == COMMA) && COMMA !in line[..c]
    requires c > 0 ==> line[0] != SP && line[0] != TAB
    ensures Lists(line, token) ==
              (EqFold(TrimRight(line[..c]), token) || (c < |line| && Lists(line[c + 1..], token)))
  {
    var first := line[..c];
    TrimStart(first);
    hide Lists, EqFold, TrimRight, Trim;
    if c == |line| {
      assert first == line;
      ListsOne(line, token);
    } else {
      assert line == first + [COMMA] + line[c + 1..];
      ListsMore(line, first, line[c + 1..], token);
    }
  }

  predicate Separator(b: byte) {
    b == SP || b == TAB || b == COMMA
  }

  /** _header_value_contains_token on the value that starts at v. */
  method ContainsToken(s: seq<byte>, v: nat, token: seq<byte>) returns (found: bool)
    requires v <= |s| && token != []
    ensures found == Lists(LineFrom(s, v), token)
  {
    hide Lists, EqFold, TrimRight;
    var p := v;
    ghost var l := LineEnd(s, v);
    while p < |s| && !CrlfAt(s, p)
      invariant v <= p <= l
      invariant Lists(LineFrom(s, v), token) == Lists(s[p..l], token)
      decreases |s| - p
    {
      ghost var was := p;
      while p < |s| && Separator(s[p])
        invariant was <= p <= l
        invariant Lists(LineFrom(s, v), token) == Lists(s[p..l], token)
      {
        assert s[p..l][1..] == s[p + 1..l];
        if s[p] == COMMA {
          ListsAfterComma(s[p..l], token);
        } else {
          ListsAfterBlank(s[p..l], token);
        }
        p := p + 1;
      }
      var start := p;
      while p < |s| && s[p] != COMMA && !CrlfAt(s, p)
        invariant start <= p <= l && COMMA !in s[start..p]
      {
        assert s[start..p + 1] == s[start..p] + [s[p]];
        p := p + 1;
      }
      ghost var line := s[start..l];
      assert line[..p - start] == s[start..p];
      ListsPiece(line, p - start, token);
      if EqFold(TrimRight(s[start..p]), token) {
        return true;
      }
      if p < |s| && s[p] == COMMA {
        assert line[p - start + 1..] == s[p + 1..l];
        p := p + 1;
      } else {
        assert s[p..l] == [];
        EmptyNames(token);
      }
    }
    assert s[p..l] == [];
    EmptyNames(token);
    return false;
  }
}
