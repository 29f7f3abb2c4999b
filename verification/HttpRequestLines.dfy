/** A request as a client writes it, line by line, and what the server reads from it. */
module HttpRequestLines {
  import opened Bytes
  import opened HttpText
  import opened HttpLines
  import opened Arrivals
  import opened HttpRequest
  import opened HttpRequestChunks

  // ---- numbers ----------------------------------------------------------------------------------

  /** The decimal digits of n. */
  function Decimal(n: nat): (d: seq<byte>)
    ensures d != [] && forall i | 0 <= i < |d| :: 48 <= d[i] <= 57
  {
    if n < 10 then [48 + n] else Decimal(n / 10) + [48 + n % 10]
  }

  predicate DecimalAt(s: seq<byte>, i: nat, n: nat) {
    i + |Decimal(n)| <= |s| && s[i..i + |Decimal(n)|] == Decimal(n)
  }

  lemma {:induction false} ReadsDigits(s: seq<byte>, i: nat, n: nat)
    requires DecimalAt(s, i, n)
    ensures Digits(s, i, 0) == Digits(s, i + |Decimal(n)|, n)
  {
    var k := i + |Decimal(n)| - 1;
    assert s[k] == s[i..k + 1][k - i] == 48 + n % 10;
    if n < 10 {
      assert Digits(s, i, 0) == Digits(s, i + 1, 10 * 0 + (s[i] - 48));
    } else {
      assert Decimal(n)[..k - i] == Decimal(n / 10);
      assert s[i..k] == s[i..k + 1][..k - i];
      ReadsDigits(s, i, n / 10);
      assert Digits(s, k, n / 10) == Digits(s, k + 1, 10 * (n / 10) + (s[k] - 48));
    }
  }

  predicate Spaces(b: seq<byte>) {
    forall j | 0 <= j < |b| :: Space(b[j])
  }

  /** No further digit follows. */
  predicate EndsNumber(t: seq<byte>) {
    t != [] ==> !(48 <= t[0] <= 57)
  }

  lemma {:induction false} SpacesSkipped(s: seq<byte>, i: nat, e: nat)
    requires i <= e <= |s| && (forall j | i <= j < e :: Space(s[j])) && (e < |s| ==> !Space(s[e]))
    ensures SkipSpace(s, i) == e
    decreases e - i
  {
    if i < e {
      SpacesSkipped(s, i + 1, e);
    }
  }

  lemma DigitsThere(a: seq<byte>, n: nat, t: seq<byte>)
    requires EndsNumber(t)
    ensures Digits(a + Decimal(n) + t, |a|, 0) == n
  {
    var d := Decimal(n);
    var s, e := a + d + t, |a| + |d|;
    hide Decimal, Digits;
    Between(a, d, t);
    ReadsDigits(s, |a|, n);
    StopsReading(s, e, n);
  }

  lemma StopsReading(s: seq<byte>, e: nat, n: nat)
    requires e <= |s| && (e < |s| ==> !(48 <= s[e] <= 57))
    ensures Digits(s, e, n) == n
  {
  }

  lemma Between(a: seq<byte>, d: seq<byte>, t: seq<byte>)
    ensures var s, e := a + d + t, |a| + |d|;
            s[|a|..e] == d && (t != [] ==> e < |s| && s[e] == t[0]) && (t == [] ==> e == |s|)
  {
  }

  lemma AfterSpaces(b: seq<byte>, w: seq<byte>)
    requires Spaces(b) && w != [] && !Space(w[0])
    ensures SkipSpace(b + w, 0) == |b| && (b + w)[|b|] == w[0]
  {
    SpacesSkipped(b + w, 0, |b|);
  }

  /** What a client writes in decimal is the number read, whatever space is before it and whatever
      but a digit behind it; a sign is honoured. */
  lemma {:induction false} NumberIsDecimal(b: seq<byte>, n: nat, t: seq<byte>)
    requires Spaces(b) && EndsNumber(t)
    ensures Number(b + Decimal(n) + t) == n
    ensures Number(b + [43] + Decimal(n) + t) == n
    ensures Number(b + [45] + Decimal(n) + t) == 0 - n
  {
    var d := Decimal(n);
    hide Digits, SkipSpace, Decimal;
    DigitsThere(b, n, t);
    AfterSpaces(b, d + t);
    assert b + (d + t) == b + d + t;
    DigitsThere(b + [43], n, t);
    AfterSpaces(b, [43] + (d + t));
    assert b + ([43] + (d + t)) == b + [43] + d + t;
    DigitsThere(b + [45], n, t);
    AfterSpaces(b, [45] + (d + t));
    assert b + ([45] + (d + t)) == b + [45] + d + t;
  }

  lemma DecimalFirst(n: nat, t: seq<byte>)
    requires EndsNumber(t)
    ensures Number(Decimal(n) + t) == n
  {
    NumberIsDecimal([], n, t);
    hide Number, Decimal;
    assert [] + Decimal(n) + t == Decimal(n) + t;
  }

  // ---- the request line -------------------------------------------------------------------------

  function RequestLine(m: seq<byte>, target: seq<byte>, version: seq<byte>): seq<byte> {
    m + [SP] + target + [SP] + version
  }

  predicate NoQuery(p: seq<byte>) {
    forall j | 0 <= j < |p| :: p[j] != QUESTION && p[j] != HASH
  }

  /** What follows the path in a target: nothing, a query or a fragment. */
  predicate IsQuery(q: seq<byte>) {
    q != [] ==> q[0] == 63 || q[0] == 35
  }

  lemma {:induction false} QueryIs(s: seq<byte>, i: nat, e: nat)
    requires i <= e <= |s| && (forall j | i <= j < e :: s[j] != QUESTION && s[j] != HASH)
    requires e < |s| ==> s[e] == QUESTION || s[e] == HASH
    ensures QueryFrom(s, i) == e
    decreases e - i
  {
    if i < e {
      QueryIs(s, i + 1, e);
    }
  }

  /** The path is what comes before query and fragment, and is refused when empty or too long. */
  lemma PathIsBeforeQuery(p: seq<byte>, q: seq<byte>, capacity: nat)
    requires NoQuery(p) && IsQuery(q)
    ensures PathOf(p + q, capacity) == if p == [] || |p| >= capacity then Err(BadPath) else Ok(p)
  {
    assert q != [] ==> (p + q)[|p|] == q[0];
    QueryIs(p + q, 0, |p|);
    assert (p + q)[..|p|] == p;
  }

  lemma ParsesRequestLine(l: Limits, m: seq<byte>, p: seq<byte>, q: seq<byte>, v: seq<byte>)
    requires IsWord(m) && IsWord(p + q) && IsWord(v) && |m| <= 31 && |p + q| <= 1023 && NoQuery(p) && IsQuery(q)
    ensures var line := RequestLine(m, p + q, v);
            ParseLine(l, line) ==
              if |line| >= 2048 then Err(BadLine)
              else if |m| >= l.methodBytes then Err(MethodTooLong)
              else if p == [] || |p| >= l.pathBytes then Err(BadPath)
              else Ok((m, p))
  {
    ScanInverts(m, p + q, v);
    PathIsBeforeQuery(p, q, l.pathBytes);
    hide ScanLine, PathOf;
  }

  /** A line of fewer words is refused. */
  lemma FewerWordsRefused(l: Limits, m: seq<byte>, t: seq<byte>)
    requires IsWord(m) && IsWord(t) && |m| <= 31 && |t| <= 1023
    ensures ParseLine(l, m) == Err(BadLine) && ParseLine(l, m + [SP] + t) == Err(BadLine)
  {
    WordEndIs(m, 0, |m|, 31);
    var s := m + [SP] + t;
    assert forall j | 0 <= j < |m| :: s[j] == m[j];
    assert forall j | |m| < j < |s| :: s[j] == t[j - |m| - 1];
    WordEndIs(s, 0, |m|, 31);
    SpacesSkipped(s, |m|, |m| + 1);
    WordEndIs(s, |m| + 1, |s|, 1023);
    hide WordEnd;
  }

  // ---- Content-Length ---------------------------------------------------------------------------

  const LENGTH_NAME: seq<byte> := Ascii("Content-Length")

  /** The server needs something behind the colon. */
  predicate Gives(l: seq<byte>) {
    |l| > |LENGTH_NAME| + 1 && IsField(l, LENGTH_NAME)
  }

  predicate FirstGives(lines: seq<seq<byte>>, i: nat) {
    i < |lines| && Gives(lines[i]) && forall j | 0 <= j < i :: !Gives(lines[j])
  }

  /** The search has come upon a line with this value. */
  predicate Located(s: seq<byte>, r: Option<nat>, v: seq<byte>) {
    && r.Some? && r.value + |LENGTH_NAME| + 1 < |s|
    && r.value + |LENGTH_NAME| + 1 < LineEnd(s, r.value) < |s|
    && FieldAt(s, r.value, LENGTH_NAME) == v
  }

  lemma LooksAtLine(s: seq<byte>, a: nat, l: seq<byte>)
    requires LineAt(s, a, l) && IsLine(l)
    ensures LookAt(s, a, LENGTH_NAME) == if Gives(l) then Found else Look.Next(a + |l| + 2)
  {
    hide LineEnd, NameAt, SkipBlanks, IsLine, LineAt, IsField, Ascii;
    LineBounds(s, a, l);
    if |l| > |LENGTH_NAME| {
      FieldInText(s, a, l, LENGTH_NAME);
    }
  }

  lemma FieldOfLine(s: seq<byte>, a: nat, l: seq<byte>)
    requires LineAt(s, a, l) && IsLine(l) && Gives(l)
    ensures Located(s, Some(a), Value(l, LENGTH_NAME))
  {
    LineInText(s, a, l);
    FieldInText(s, a, l, LENGTH_NAME);
    hide LineEnd, NameAt, IsLine, IsField, Ascii;
    var v := SkipBlanks(l, |LENGTH_NAME| + 1);
    BlanksStopAtCr(s, a + |LENGTH_NAME| + 1, a + |l|);
    hide SkipBlanks;
    assert s[a + v..a + |l|] == l[v..];
  }

  lemma SearchesLine(s: seq<byte>, a: nat, l: seq<byte>)
    requires LineAt(s, a, l) && IsLine(l)
    ensures if Gives(l)
            then Located(s, Locate(s, a, LENGTH_NAME), Value(l, LENGTH_NAME))
            else Locate(s, a, LENGTH_NAME) == Locate(s, a + |l| + 2, LENGTH_NAME)
  {
    LooksAtLine(s, a, l);
    LocateLooks(s, a, LENGTH_NAME);
    if Gives(l) {
      FieldOfLine(s, a, l);
    }
    hide LookAt, Locate, LineEnd, FieldAt, IsField, Value, IsLine, Gives, Ascii;
  }

  lemma GivesInRest(lines: seq<seq<byte>>, i: nat)
    requires FirstGives(lines, i)
    ensures Gives(lines[0]) <==> i == 0
    ensures i > 0 ==> FirstGives(lines[1..], i - 1) && lines[1..][i - 1] == lines[i]
  {
    hide Gives;
    if i > 0 {
      assert !Gives(lines[0]);
      forall j | 0 <= j < i - 1 ensures !Gives(lines[1..][j]) {
        assert !Gives(lines[j + 1]);
      }
    }
  }

  lemma {:induction false} LocatesFirst(s: seq<byte>, a: nat, lines: seq<seq<byte>>, i: nat)
    requires AreLines(lines) && TextAt(s, a, lines) && FirstGives(lines, i)
    ensures a <= |s| && Located(s, Locate(s, a, LENGTH_NAME), Value(lines[i], LENGTH_NAME))
    decreases i
  {
    RestAreLines(lines);
    GivesInRest(lines, i);
    SearchesLine(s, a, lines[0]);
    hide LineAt, Locate, IsLine, Located, Value, IsField, AreLines, FirstGives, Ascii;
    if i > 0 {
      LocatesFirst(s, a + |lines[0]| + 2, lines[1..], i - 1);
    }
  }

  predicate NoneGives(lines: seq<seq<byte>>) {
    forall j | 0 <= j < |lines| :: !Gives(lines[j])
  }

  lemma NothingBehind(s: seq<byte>, a: nat)
    requires CrlfAt(s, a) && a + 2 == |s|
    ensures Locate(s, a, LENGTH_NAME) == None
  {
    assert LookAt(s, a, LENGTH_NAME) == Look.Next(a + 2);
  }

  lemma {:induction false} LocatesNone(s: seq<byte>, a: nat, lines: seq<seq<byte>>)
    requires AreLines(lines) && TextAt(s, a, lines) && NoneGives(lines) && |s| == a + |Text(lines)|
    ensures a <= |s| && Locate(s, a, LENGTH_NAME) == None
    decreases |lines|
  {
    if lines == [] {
      NothingBehind(s, a);
    } else {
      RestAreLines(lines);
      TextLength(lines);
      SearchesLine(s, a, lines[0]);
      hide LineAt, Locate, IsLine, Located, Value, IsField, AreLines, Gives, Ascii, Text;
      assert !Gives(lines[0]);
      assert forall j | 0 <= j < |lines[1..]| :: lines[1..][j] == lines[j + 1];
      LocatesNone(s, a + |lines[0]| + 2, lines[1..]);
    }
  }

  // ---- the whole request ------------------------------------------------------------------------

  /** A request of these lines, the first asking for path p with query q. */
  predicate Asks(lines: seq<seq<byte>>, m: seq<byte>, p: seq<byte>, q: seq<byte>, v: seq<byte>) {
    && lines != [] && AreLines(lines) && lines[0] == RequestLine(m, p + q, v)
    && IsWord(m) && IsWord(p + q) && IsWord(v) && |m| <= 31 && |p + q| <= 1023
    && NoQuery(p) && IsQuery(q)
  }

  /** What is due to a request: its line is of `lineBytes`, `field` is the text of its Content-Length,
      which gives n, and `rest` follows its blank line. */
  function Due(l: Limits, m: seq<byte>, p: seq<byte>, lineBytes: nat, field: Option<seq<byte>>, n: nat,
               rest: seq<byte>, end: Ending): Result<Request>
  {
    if lineBytes >= 2048 then Err(BadLine)
    else if |m| >= l.methodBytes then Err(MethodTooLong)
    else if p == [] || |p| >= l.pathBytes then Err(BadPath)
    else if field.Some? && |field.value| >= 64 then Err(FieldTooLong)
    else if !EqFold(m, Ascii("POST")) then Ok(Request(m, p, []))
    else if field == None then Err(NoLength)
    else if n > l.bodyBytes then Err(BadLength)
    else if |rest| >= n then Ok(Request(m, p, rest[..n]))
    else Err(Error.Ended(end))
  }

  lemma FirstLineOfText(lines: seq<seq<byte>>)
    requires lines != [] && AreLines(lines)
    ensures Text(lines)[..LineEnd(Text(lines), 0)] == lines[0]
  {
    TextItself(lines);
    RestAreLines(lines);
    LineInText(Text(lines), 0, lines[0]);
    hide LineEnd, Text, IsLine;
    assert Text(lines)[0..|lines[0]|] == lines[0];
  }

  lemma LengthOfLines(lines: seq<seq<byte>>, i: nat)
    requires AreLines(lines) && FirstGives(lines, i)
    ensures var t, v := Text(lines), Value(lines[i], LENGTH_NAME);
            && HasLength(t) && LengthText(t) == v
            && LengthField(t) == if |v| >= 64 then Err(FieldTooLong) else Ok(Some(v))
  {
    TextItself(lines);
    LocatesFirst(Text(lines), 0, lines, i);
    hide Text, TextAt, AreLines, Locate, FieldAt, LineEnd, IsField, Value, FirstGives;
  }

  lemma NoLengthInLines(lines: seq<seq<byte>>)
    requires AreLines(lines) && NoneGives(lines)
    ensures LengthField(Text(lines)) == Ok(None)
  {
    TextItself(lines);
    LocatesNone(Text(lines), 0, lines);
    hide Text, TextAt, AreLines, Locate;
  }

  /** What the server decides once it has the lines is what is due. */
  lemma DecidesOnLines(l: Limits, lines: seq<seq<byte>>, m: seq<byte>, p: seq<byte>, q: seq<byte>, v: seq<byte>,
                       field: Option<seq<byte>>, n: nat, rest: seq<byte>, end: Ending)
    requires Asks(lines, m, p, q, v)
    requires LengthField(Text(lines)) == if field.Some? && |field.value| >= 64 then Err(FieldTooLong) else Ok(field)
    requires field.Some? ==> Number(field.value) == n < 0x8000_0000
    ensures Answer(Decide(l, Text(lines)), rest, end) == Due(l, m, p, |lines[0]|, field, n, rest, end)
  {
    FirstLineOfText(lines);
    ParsesRequestLine(l, m, p, q, v);
    hide Text, ParseLine, LengthField, LineEnd, RequestLine, AreLines, Decide, Answer, Due, Number, IsWord, NoQuery, IsQuery;
    DecisionIsDue(l, Text(lines), m, p, |lines[0]|, field, n, rest, end);
  }

  lemma DecisionIsDue(l: Limits, text: seq<byte>, m: seq<byte>, p: seq<byte>, lineBytes: nat,
                      field: Option<seq<byte>>, n: nat, rest: seq<byte>, end: Ending)
    requires ParseLine(l, text[..LineEnd(text, 0)]) ==
               if lineBytes >= 2048 then Err(BadLine)
               else if |m| >= l.methodBytes then Err(MethodTooLong)
               else if p == [] || |p| >= l.pathBytes then Err(BadPath)
               else Ok((m, p))
    requires LengthField(text) == if field.Some? && |field.value| >= 64 then Err(FieldTooLong) else Ok(field)
    requires field.Some? ==> Number(field.value) == n < 0x8000_0000
    ensures Answer(Decide(l, text), rest, end) == Due(l, m, p, lineBytes, field, n, rest, end)
  {
    hide ParseLine, LengthField, LineEnd, EqFold, Number, Ascii;
  }

  lemma ReadsLines(l: Limits, net: seq<Arrival>, end: Ending, lines: seq<seq<byte>>, rest: seq<byte>)
    requires lines != [] && AreLines(lines) && Stream(net) == Text(lines) + rest && |Text(lines)| <= l.headBytes
    requires HasLength(Text(lines))
    ensures l.headBytes > 0 && Read(l, net, end) == Answer(Decide(l, Text(lines)), rest, end)
  {
    HeadOfLines(lines, rest, l.headBytes);
    var t := Text(lines);
    hide Text, AreLines, HasBlank, Head, HasLength, Decide, Answer;
    assert t != [] by {
      TextLength(lines);
    }
    ReadIsExpected(l, net, end);
    assert (t + rest)[|t|..] == rest;
    hide Read, Stream;
  }

  /** Nothing behind the blank line: then the server sees no more than the lines. */
  lemma ReadsBareLines(l: Limits, net: seq<Arrival>, end: Ending, lines: seq<seq<byte>>)
    requires lines != [] && AreLines(lines) && Stream(net) == Text(lines) && |Text(lines)| <= l.headBytes
    ensures l.headBytes > 0 && Read(l, net, end) == Answer(Decide(l, Text(lines)), [], end)
  {
    var t := Text(lines);
    HeadOfLines(lines, [], l.headBytes);
    assert t + [] == t;
    TextLength(lines);
    assert !HasBlank(CText([]));
    ReadHeadOutcome([], net, end, l.headBytes);
    assert [] + Stream(net) == Stream(net);
    var r := ReadHead([], net, end, l.headBytes);
    hide Text, AreLines, ReadHead, Stream, Decide, Answer, Finish;
    AllThere(r.buf, Stream(r.left), t);
    assert r.buf[|t|..] == [];
    hide HasBlank, Head, CText;
    FinishIsAnswer(Decide(l, t), [], r.left, end);
    assert [] + Stream(r.left) == [];
  }

  /** A request with a Content-Length of n, in decimal: whatever way the stream is split, the server
      reads method, path and, for a POST, exactly the next n bytes, or reports what is wrong with it. */
  lemma {:induction false} ReadsRequest(l: Limits, net: seq<Arrival>, end: Ending, lines: seq<seq<byte>>, rest: seq<byte>,
                                        m: seq<byte>, p: seq<byte>, q: seq<byte>, v: seq<byte>,
                                        i: nat, n: nat, tail: seq<byte>)
    requires Asks(lines, m, p, q, v) && Stream(net) == Text(lines) + rest && |Text(lines)| <= l.headBytes
    requires FirstGives(lines, i) && Value(lines[i], LENGTH_NAME) == Decimal(n) + tail
    requires EndsNumber(tail) && n < 0x8000_0000
    ensures l.headBytes > 0
    ensures Read(l, net, end) == Due(l, m, p, |lines[0]|, Some(Decimal(n) + tail), n, rest, end)
  {
    LengthOfLines(lines, i);
    var w := Decimal(n) + tail;
    DecimalFirst(n, tail);
    hide Text, HasLength, Decide, Number, Decimal, FirstGives, Value, Read, Stream, Answer, Due, LengthField;
    ReadsLines(l, net, end, lines, rest);
    hide Asks;
    DecidesOnLines(l, lines, m, p, q, v, Some(w), n, rest, end);
  }

  /** A request without one and nothing behind its blank line. */
  lemma {:induction false} ReadsRequestWithoutLength(l: Limits, net: seq<Arrival>, end: Ending, lines: seq<seq<byte>>,
                                                     m: seq<byte>, p: seq<byte>, q: seq<byte>, v: seq<byte>)
    requires Asks(lines, m, p, q, v) && Stream(net) == Text(lines) && |Text(lines)| <= l.headBytes && NoneGives(lines)
    ensures l.headBytes > 0
    ensures Read(l, net, end) == Due(l, m, p, |lines[0]|, None, 0, [], end)
  {
    NoLengthInLines(lines);
    hide Text, Decide, NoneGives, Read, Stream, Answer, Due, LengthField;
    ReadsBareLines(l, net, end, lines);
    hide Asks;
    DecidesOnLines(l, lines, m, p, q, v, None, 0, [], end);
  }

  lemma AllThere(buf: seq<byte>, left: seq<byte>, t: seq<byte>)
    requires HasBlank(CText(buf)) && Head(CText(buf)) == t && buf + left == t
    ensures CText(buf) == t && buf == t
  {
    assert |buf| >= |CText(buf)| >= |t|;
    assert buf + left == buf[..] + left;
    assert left == [];
  }

  /** A head that does not end within the buffer is refused. */
  lemma {:induction false} LongHeadRefused(l: Limits, net: seq<Arrival>, end: Ending, lines: seq<seq<byte>>, rest: seq<byte>)
    requires lines != [] && AreLines(lines) && Stream(net) == Text(lines) + rest && 0 < l.headBytes < |Text(lines)|
    ensures Read(l, net, end) == Err(HeadTooLarge)
  {
    NoEarlyBlank(lines, rest, l.headBytes);
    assert !HasBlank(CText([]));
    ReadHeadOutcome([], net, end, l.headBytes);
    assert [] + Stream(net) == Stream(net);
    hide Text, AreLines, HasBlank, ReadHead, Stream, CText;
  }
}
