/** When the request the server reads does not depend on how recv cuts the stream, and when it does. */
module HttpRequestChunks {
  import opened Bytes
  import opened HttpText
  import opened Arrivals
  import opened HttpRequest

  /** What the search sees of one line is the same in two texts that agree up to a blank line at e. */
  lemma SameLook(s: seq<byte>, t: seq<byte>, e: nat, p: nat, name: seq<byte>)
    requires Agree(s, t, e + 4) && BlankAt(s, e) && p <= e
    ensures LookAt(s, p, name) == LookAt(t, p, name)
    ensures var k := LookAt(s, p, name); k != NoMore && (k.Next? ==> k.p <= e || k.p == e + 2)
  {
    SameLineEnd(s, t, e, p);
    var l := LineEnd(s, p);
    hide LineEnd, NameAt;
    if l - p > |name| + 1 {
      SameName(s, t, l, p, name);
    }
  }

  lemma LocateLooks(s: seq<byte>, p: nat, name: seq<byte>)
    requires p <= |s|
    ensures var k := LookAt(s, p, name);
            Locate(s, p, name) == if k.Found? then Some(p) else if k.NoMore? then None else Locate(s, k.p, name)
  {
    hide LookAt;
  }

  /** The search finds the same line before the blank one in both texts, or goes on behind it. */
  lemma {:induction false} SameLocate(s: seq<byte>, t: seq<byte>, e: nat, p: nat, name: seq<byte>)
    requires Agree(s, t, e + 4) && BlankAt(s, e) && p <= e
    ensures (Locate(s, p, name) == Locate(t, p, name)
             && Locate(s, p, name).Some? && Locate(s, p, name).value <= e)
            || (Locate(s, p, name) == Locate(s, e + 4, name) && Locate(t, p, name) == Locate(t, e + 4, name))
    decreases e - p
  {
    SameLook(s, t, e, p, name);
    LocateLooks(s, p, name);
    LocateLooks(t, p, name);
    hide LookAt, LineEnd, Locate;
    var k := LookAt(s, p, name);
    if k.Next? {
      if k.p <= e {
        SameLocate(s, t, e, k.p, name);
      } else {
        BlankIsSkipped(s, e, name);
        BlankIsSkipped(t, e, name);
      }
    }
  }

  lemma BlankIsSkipped(s: seq<byte>, e: nat, name: seq<byte>)
    requires BlankAt(s, e)
    ensures Locate(s, e + 2, name) == Locate(s, e + 4, name)
  {
    assert LookAt(s, e + 2, name) == Next(e + 4);
    hide LookAt, LineEnd, NameAt;
  }

  lemma HeadOfHead(t: seq<byte>)
    requires HasBlank(t)
    ensures HasBlank(Head(t)) && Head(Head(t)) == Head(t)
    ensures Agree(t, Head(t), |Head(t)|) && BlankFrom(Head(t), 0) == BlankFrom(t, 0)
  {
    var h, e := Head(t), BlankFrom(t, 0);
    forall j | 0 <= j < e ensures !BlankAt(h, j) {
      assert !BlankAt(t, j);
    }
    BlankIs(h, 0, e);
  }

  /** What is found in the head is found in the whole text, at the same place. */
  lemma LengthInHead(t: seq<byte>)
    requires HasBlank(t) && HasLength(Head(t))
    ensures LengthField(t) == LengthField(Head(t))
  {
    HeadOfHead(t);
    var h, e := Head(t), BlankFrom(t, 0);
    SameLocate(t, h, e, 0, LengthName());
    assert LineEnd(h, e + 4) == |h|;
    var p := Locate(h, 0, LengthName()).value;
    SameField(t, h, e, p);
    hide Locate, FieldAt, LengthName;
  }

  lemma SameField(t: seq<byte>, h: seq<byte>, e: nat, p: nat)
    requires Agree(t, h, e + 4) && BlankAt(t, e) && p <= e && p + 15 < LineEnd(h, p) < |h|
    ensures p + 15 < LineEnd(t, p) < |t| && FieldAt(t, p, LengthName()) == FieldAt(h, p, LengthName())
  {
    SameLineEnd(t, h, e, p);
    var l := LineEnd(h, p);
    SameBlanks(t, h, l, p + 15);
    var v := SkipBlanks(h, p + 15);
    assert t[v..l] == h[v..l];
  }

  lemma FirstLineInHead(t: seq<byte>)
    requires HasBlank(t)
    ensures t[..LineEnd(t, 0)] == Head(t)[..LineEnd(Head(t), 0)]
  {
    HeadOfHead(t);
    SameLineEnd(t, Head(t), BlankFrom(t, 0), 0);
  }

  lemma DecideInHead(l: Limits, t: seq<byte>)
    requires HasBlank(t) && HasLength(Head(t))
    ensures Decide(l, t) == Decide(l, Head(t))
  {
    FirstLineInHead(t);
    LengthInHead(t);
    hide ParseLine, LengthField, Head, HasBlank, LineEnd, HasLength, EqFold, Atoi;
  }

  // ---- the request as a function of the stream --------------------------------------------------

  function Answer(d: Decision, rest: seq<byte>, end: Ending): Result<Request> {
    match d
    case Refuse(e) => Err(e)
    case Serve(m, path) => Ok(Request(m, path, []))
    case NeedBody(m, path, n) =>
      if |rest| >= n then Ok(Request(m, path, rest[..n])) else Err(Error.Ended(end))
  }

  /** Decided by the head; the body is the first bytes after it, as many as Content-Length says. */
  function Expected(l: Limits, s: seq<byte>, end: Ending): Result<Request> {
    var v := Visible(s, l.headBytes);
    if !HasBlank(v) then Err(if |s| >= l.headBytes then HeadTooLarge else Error.Ended(end))
    else Answer(Decide(l, Head(v)), s[|Head(v)|..], end)
  }

  lemma FinishIsAnswer(d: Decision, early: seq<byte>, net: seq<Arrival>, end: Ending)
    ensures Finish(d, early, net, end) == Answer(d, early + Stream(net), end)
  {
    if d.NeedBody? {
      var got := Trunc(early, d.n);
      ReadBodyOutcome(got, d.n, net, end);
      hide ReadBody, Stream;
      if |early| > d.n {
        assert (got + Stream(net))[..d.n] == got == (early + Stream(net))[..d.n];
      }
    }
  }

  /** The head that was found, seen in the stream. */
  lemma HeadInStream(buf: seq<byte>, left: seq<Arrival>, net: seq<Arrival>)
    requires HasBlank(CText(buf)) && buf + Stream(left) == Stream(net)
    ensures var n := |Head(CText(buf))|;
            n <= |buf| && buf[n..] + Stream(left) == Stream(net)[n..]
  {
    HeadIsPrefix(CText(buf));
  }

  /** For a head with Content-Length the result is a function of the stream. */
  lemma ReadIsExpected(l: Limits, net: seq<Arrival>, end: Ending)
    requires l.headBytes > 0
    requires var v := Visible(Stream(net), l.headBytes); HasBlank(v) ==> HasLength(Head(v))
    ensures Read(l, net, end) == Expected(l, Stream(net), end)
  {
    assert !HasBlank(CText([]));
    ReadHeadOutcome([], net, end, l.headBytes);
    assert [] + Stream(net) == Stream(net);
    var r := ReadHead([], net, end, l.headBytes);
    hide ReadHead, Decide, Finish, HasBlank, Head, HasLength, Answer, Stream, Visible;
    match r
    case NoHead(e) =>
    case Complete(buf, left) =>
      var text := CText(buf);
      DecideInHead(l, text);
      HeadInStream(buf, left, net);
      FinishIsAnswer(Decide(l, text), buf[|Head(text)|..], left, end);
  }

  /** Chunk independence: same stream, same request, whatever recv returns at a time. */
  lemma AnySplitSameRequest(l: Limits, a: seq<Arrival>, b: seq<Arrival>, end: Ending)
    requires l.headBytes > 0 && Stream(a) == Stream(b)
    requires var v := Visible(Stream(a), l.headBytes); HasBlank(v) ==> HasLength(Head(v))
    ensures Read(l, a, end) == Read(l, b, end)
  {
    ReadIsExpected(l, a, end);
    ReadIsExpected(l, b, end);
    hide Read, Expected;
  }

  lemma HeadIsPrefix(s: seq<byte>)
    requires HasBlank(s)
    ensures Head(s) <= s
  {
  }

  lemma AnswerBody(l: Limits, h: seq<byte>, rest: seq<byte>, end: Ending)
    requires HasLength(h) && Answer(Decide(l, h), rest, end).Ok?
    requires EqFold(Answer(Decide(l, h), rest, end).value.verb, Post())
    ensures var n := Atoi(l, LengthText(h));
            0 <= n <= l.bodyBytes && n <= |rest| && Answer(Decide(l, h), rest, end).value.body == rest[..n]
  {
    hide ParseLine, Locate, FieldAt, Atoi, EqFold, LengthName, Post;
  }

  /** The body of a POST is as many bytes behind the first blank line as the conversion of the field
      yields. Those are the bytes Content-Length announces exactly if the number fits an int. */
  lemma PostBody(l: Limits, net: seq<Arrival>, end: Ending, h: seq<byte>, rest: seq<byte>)
    requires l.headBytes > 0 && Stream(net) == h + rest
    requires var v := Visible(h + rest, l.headBytes); HasBlank(v) && h == Head(v) && HasLength(h)
    requires Read(l, net, end).Ok? && EqFold(Read(l, net, end).value.verb, Post())
    ensures var n, body := Atoi(l, LengthText(h)), Read(l, net, end).value.body;
            && 0 <= n <= l.bodyBytes && n <= |rest| && body == rest[..n]
            && (|body| == LengthOf(h) <==> FitsInt(LengthOf(h)))
  {
    ReadIsExpected(l, net, end);
    assert (h + rest)[|h|..] == rest;
    assert Read(l, net, end) == Answer(Decide(l, h), rest, end);
    hide Read, Answer, Decide, Number, LengthText;
    AnswerBody(l, h, rest, end);
  }

  /** For a number that fits an int, on every platform: exactly Content-Length bytes, or the error of a
      stream that ends before. */
  lemma PostBodyThatFits(l: Limits, net: seq<Arrival>, end: Ending, h: seq<byte>, rest: seq<byte>)
    requires l.headBytes > 0 && Stream(net) == h + rest
    requires var v := Visible(h + rest, l.headBytes); HasBlank(v) && h == Head(v) && HasLength(h)
    requires FitsInt(LengthOf(h)) && Decide(l, h).NeedBody?
    ensures var n := LengthOf(h);
            && 0 <= n <= l.bodyBytes
            && Read(l, net, end) ==
                 (if |rest| >= n then Ok(Request(Decide(l, h).verb, Decide(l, h).path, rest[..n]))
                  else Err(Error.Ended(end)))
  {
    ReadIsExpected(l, net, end);
    assert (h + rest)[|h|..] == rest;
    NeededIsConverted(l, h);
    hide Read, Decide, Number, LengthText;
  }

  lemma NeededIsConverted(l: Limits, h: seq<byte>)
    requires HasLength(h) && Decide(l, h).NeedBody?
    ensures Decide(l, h).n == Atoi(l, LengthText(h))
  {
    hide ParseLine, Locate, FieldAt, Atoi, EqFold, LengthName, Post;
  }

  // ---- without Content-Length -------------------------------------------------------------------

  /** A complete head: NUL-free, ending with its only blank line, room to spare, line acceptable. */
  predicate GoodHead(l: Limits, h: seq<byte>) {
    && HasBlank(h) && Head(h) == h && 0 !in h && |h| + 81 <= l.headBytes
    && ParseLine(l, h[..LineEnd(h, 0)]).Ok?
  }

  /** The same stream beginning with h yields the same result, however it is split. */
  ghost predicate Independent(l: Limits, h: seq<byte>)
    requires l.headBytes > 0
  {
    forall a: seq<Arrival>, b: seq<Arrival>, end: Ending | Stream(a) == Stream(b) && h <= Stream(a) ::
      Read(l, a, end) == Read(l, b, end)
  }

  function Zeros(n: nat): (z: seq<byte>)
    ensures |z| == n && forall i | 0 <= i < n :: z[i] == 48
  {
    seq(n, _ => 48)
  }

  /** Body bytes that look like a Content-Length line whose value is too long. */
  function Trap(): (t: seq<byte>)
    ensures |t| == 81
  {
    LengthName() + [COLON] + Zeros(64) + [CR, LF]
  }

  lemma NulFree(s: seq<byte>)
    requires 0 !in s
    ensures CText(s) == s
  {
    assert NulFrom(s, 0) == |s|;
  }

  lemma {:induction false} LineEndIs(s: seq<byte>, i: nat, e: nat)
    requires i <= e && CrlfAt(s, e) && forall j | i <= j < e :: s[j] != CR
    ensures LineEnd(s, i) == e
    decreases e - i
  {
    if i < e {
      LineEndIs(s, i + 1, e);
    }
  }

  lemma TrapBytes()
    ensures 0 !in Trap() && CrlfAt(Trap(), 79) && Trap()[..14] == LengthName() && Trap()[14] == COLON
    ensures forall j | 0 <= j < 79 :: Trap()[j] != CR
    ensures Trap()[15] == 48
  {
    var n, z := LengthName(), Zeros(64);
    assert forall j | 0 <= j < 14 :: n[j] != CR && n[j] != 0;
  }

  lemma TrapFound(h: seq<byte>)
    ensures var t := h + Trap();
            && Locate(t, |h|, LengthName()) == Some(|h|)
            && LineEnd(t, |h|) == |h| + 79 && |FieldAt(t, |h|, LengthName())| == 64
  {
    TrapBytes();
    var t, p, trap := h + Trap(), |h|, Trap();
    hide Trap;
    assert forall j | p <= j < p + 81 :: t[j] == trap[j - p];
    LineEndIs(t, p, p + 79);
    assert t[p..p + 14] == LengthName();
    hide LineEnd;
    assert NameAt(t, p, LengthName());
    assert SkipBlanks(t, p + 15) == p + 15;
  }

  lemma TrapAfterHead(l: Limits, h: seq<byte>)
    requires GoodHead(l, h)
    ensures var t := h + Trap();
            && HasBlank(t) && Head(t) == h && t[..LineEnd(t, 0)] == h[..LineEnd(h, 0)]
  {
    BlankStays(h, h + Trap());
    FirstLineInHead(h + Trap());
  }

  /** In the head nothing was found; with the trap behind it, the trap is. */
  lemma TrapIsLength(l: Limits, h: seq<byte>)
    requires GoodHead(l, h) && !HasLength(h)
    ensures LengthField(h + Trap()) == Err(FieldTooLong)
  {
    var t, e := h + Trap(), BlankFrom(h, 0);
    TrapAfterHead(l, h);
    HeadOfHead(t);
    SameLocate(t, h, e, 0, LengthName());
    assert LookAt(h, |h|, LengthName()) == NoMore;
    TrapFound(h);
    hide Locate, FieldAt, ParseLine, Trap, LineEnd, HasBlank, LengthName;
  }

  lemma TrapSprung(l: Limits, h: seq<byte>)
    requires GoodHead(l, h) && !HasLength(h)
    ensures Decide(l, h + Trap()) == Refuse(FieldTooLong)
    ensures Decide(l, h).Serve? || Decide(l, h) == Refuse(NoLength)
    ensures HasBlank(h + Trap()) && Head(h + Trap()) == h
  {
    TrapAfterHead(l, h);
    TrapIsLength(l, h);
    hide Locate, FieldAt, ParseLine, Trap, LineEnd, HasBlank, Head, LengthName, EqFold, Post;
  }

  lemma ReadAtOnce(l: Limits, h: seq<byte>, rest: seq<Arrival>, end: Ending)
    requires h != [] && |h| <= l.headBytes && 0 !in h && HasBlank(h)
    ensures Read(l, [Data(h)] + rest, end) == Finish(Decide(l, h), h[|Head(h)|..], rest, end)
  {
    var net := [Data(h)] + rest;
    assert net[1..] == rest && [] + h == h;
    NulFree(h);
    assert RecvFrom(net, l.headBytes) == Bytes(h, rest);
    hide HasBlank, Head, Decide, Finish;
  }

  /** Reading head and body apart or together makes a difference when the head has no length. */
  lemma SplitMatters(l: Limits, h: seq<byte>, end: Ending)
    requires GoodHead(l, h) && !HasLength(h)
    ensures Read(l, [Data(h)] + [Data(Trap())], end) != Read(l, [Data(h + Trap())] + [], end)
  {
    TrapSprung(l, h);
    TrapBytes();
    hide Trap, Decide;
    ReadAtOnce(l, h, [Data(Trap())], end);
    ReadAtOnce(l, h + Trap(), [], end);
    hide Read, HasBlank, Head;
  }

  lemma StreamCons(d: Chunk, rest: seq<Arrival>)
    ensures Stream([Data(d)] + rest) == d + Stream(rest)
  {
    assert ([Data(d)] + rest)[1..] == rest;
  }

  lemma SameStream(h: seq<byte>, t: seq<byte>)
    requires h != [] && t != []
    ensures Stream([Data(h)] + [Data(t)]) == h + t == Stream([Data(h + t)] + [])
  {
    StreamCons(h, [Data(t)]);
    StreamCons(t, []);
    StreamCons(h + t, []);
    assert [Data(t)] + [] == [Data(t)];
  }

  lemma HeadIsSeen(l: Limits, h: seq<byte>, s: seq<byte>)
    requires GoodHead(l, h) && h <= s
    ensures HasBlank(Visible(s, l.headBytes)) && Head(Visible(s, l.headBytes)) == h
  {
    NulFree(h);
    assert h <= Trunc(s, l.headBytes);
    CTextGrows(h, Trunc(s, l.headBytes));
    BlankStays(h, Visible(s, l.headBytes));
  }

  lemma IndependentWithLength(l: Limits, h: seq<byte>)
    requires l.headBytes > 0 && GoodHead(l, h) && HasLength(h)
    ensures Independent(l, h)
  {
    hide Read, GoodHead, HasLength, Stream, Visible, HasBlank, Head;
    forall a: seq<Arrival>, b: seq<Arrival>, end: Ending | Stream(a) == Stream(b) && h <= Stream(a)
      ensures Read(l, a, end) == Read(l, b, end)
    {
      HeadIsSeen(l, h, Stream(a));
      AnySplitSameRequest(l, a, b, end);
    }
  }

  /** Exactly the heads with a Content-Length line make the result independent of the splitting. */
  lemma {:induction false} IndependentIff(l: Limits, h: seq<byte>)
    requires l.headBytes > 0 && GoodHead(l, h)
    ensures Independent(l, h) <==> HasLength(h)
  {
    hide Read, Trap, HasLength, Stream, ParseLine, Head;
    if HasLength(h) {
      IndependentWithLength(l, h);
    } else {
      SplitMatters(l, h, Closed);
      SameStream(h, Trap());
      var t := Trap();
      hide GoodHead;
      assert h <= h + t;
    }
  }
}
