/** An HTTP head as a list of lines, and what the searches over its text find in terms of them. */
module HttpLines {
  import opened Bytes
  import opened HttpText

  /** A line of a head: not empty, and with neither a NUL nor a line end in it. */
  predicate IsLine(l: seq<byte>) {
    l != [] && 0 !in l && forall j | 0 <= j < |l| :: !CrlfAt(l, j)
  }

  predicate AreLines(lines: seq<seq<byte>>) {
    forall i | 0 <= i < |lines| :: IsLine(lines[i])
  }

  /** The lines, each with its line end, and the blank line. */
  function Text(lines: seq<seq<byte>>): seq<byte> {
    if lines == [] then [CR, LF] else lines[0] + [CR, LF] + Text(lines[1..])
  }

  /** Equal but for the case of letters. */
  lemma EqFoldIs(a: seq<byte>, b: seq<byte>)
    ensures EqFold(a, b) <==>
              && |a| == |b|
              && forall i | 0 <= i < |a| ::
                   a[i] == b[i] || (65 <= a[i] <= 90 && b[i] == a[i] + 32) || (65 <= b[i] <= 90 && a[i] == b[i] + 32)
  {
    if |a| == |b| {
      assert forall i | 0 <= i < |a| :: ToLower(a[i]) == ToLower(b[i]) <==>
          a[i] == b[i] || (65 <= a[i] <= 90 && b[i] == a[i] + 32) || (65 <= b[i] <= 90 && a[i] == b[i] + 32);
    }
  }

  // ---- one line in a text -----------------------------------------------------------------------

  lemma {:induction false} LineEndIs(s: seq<byte>, i: nat, e: nat)
    requires i <= e && CrlfAt(s, e) && forall j | i <= j < e :: !CrlfAt(s, j)
    ensures LineEnd(s, i) == e
    decreases e - i
  {
    if i < e {
      LineEndIs(s, i + 1, e);
    }
  }

  /** At position a stands the line l with its line end. */
  predicate LineAt(s: seq<byte>, a: nat, l: seq<byte>) {
    && a + |l| + 2 <= |s| && s[a + |l|] == CR && s[a + |l| + 1] == LF
    && forall j | a <= j < a + |l| :: s[j] == l[j - a]
  }

  /** At position a stands the text of the lines. */
  predicate TextAt(s: seq<byte>, a: nat, lines: seq<seq<byte>>)
    decreases |lines|
  {
    if lines == [] then CrlfAt(s, a) else LineAt(s, a, lines[0]) && TextAt(s, a + |lines[0]| + 2, lines[1..])
  }

  lemma LineThere(s: seq<byte>, a: nat, l: seq<byte>, more: seq<byte>)
    requires a + |l| + 2 + |more| <= |s| && s[a..a + |l| + 2 + |more|] == l + [CR, LF] + more
    ensures LineAt(s, a, l)
    ensures s[a + |l| + 2..a + |l| + 2 + |more|] == more
  {
    var t := l + [CR, LF] + more;
    forall j | 0 <= j < |t| ensures s[a + j] == t[j] {
      assert s[a..a + |t|][j] == s[a + j];
    }
    var b := a + |l| + 2;
    forall j | b <= j < b + |more| ensures s[j] == more[j - b] {
      assert s[a + (j - a)] == t[j - a];
    }
    forall j | a <= j < b ensures s[j] == t[j - a] {
      assert s[a + (j - a)] == t[j - a];
    }
  }

  lemma {:induction false} TextThere(s: seq<byte>, a: nat, lines: seq<seq<byte>>)
    requires a + |Text(lines)| <= |s| && s[a..a + |Text(lines)|] == Text(lines)
    ensures TextAt(s, a, lines)
    decreases |lines|
  {
    if lines == [] {
      assert s[a] == s[a..a + 2][0] && s[a + 1] == s[a..a + 2][1];
    } else {
      var l, more := lines[0], Text(lines[1..]);
      assert Text(lines) == l + [CR, LF] + more;
      LineThere(s, a, l, more);
      hide Text, LineAt;
      TextThere(s, a + |l| + 2, lines[1..]);
    }
  }

  lemma TextItself(lines: seq<seq<byte>>)
    ensures TextAt(Text(lines), 0, lines)
  {
    var t := Text(lines);
    assert t[0..0 + |t|] == t;
    TextThere(t, 0, lines);
  }

  lemma LineInText(s: seq<byte>, a: nat, l: seq<byte>)
    requires LineAt(s, a, l) && IsLine(l)
    ensures LineEnd(s, a) == a + |l| && s[a..a + |l|] == l
    ensures forall j | a <= j < a + |l| :: !CrlfAt(s, j)
  {
    var e := a + |l|;
    forall j | a <= j < e ensures !CrlfAt(s, j) {
      assert !CrlfAt(l, j - a);
    }
    LineEndIs(s, a, e);
  }

  // ---- the blank line ---------------------------------------------------------------------------

  lemma TextStarts(s: seq<byte>, a: nat, lines: seq<seq<byte>>)
    requires AreLines(lines) && TextAt(s, a, lines)
    ensures a + 2 <= |s|
    ensures CrlfAt(s, a) <==> lines == []
  {
    if lines != [] {
      assert IsLine(lines[0]);
      LineInText(s, a, lines[0]);
    }
  }

  /** The first blank line at or after a is at e. */
  predicate FirstBlank(s: seq<byte>, a: nat, e: nat) {
    BlankAt(s, e) && forall j | a <= j < e :: !BlankAt(s, j)
  }

  lemma BlankAfterLine(s: seq<byte>, a: nat, l: seq<byte>)
    requires LineAt(s, a, l) && IsLine(l)
    ensures CrlfAt(s, a + |l| + 2) ==> FirstBlank(s, a, a + |l|)
    ensures forall e | a + |l| + 2 <= e && !CrlfAt(s, a + |l| + 2) && FirstBlank(s, a + |l| + 2, e) :: FirstBlank(s, a, e)
  {
    LineInText(s, a, l);
    hide LineEnd;
    var b := a + |l|;
    assert forall j | a <= j < b :: !BlankAt(s, j);
    assert !BlankAt(s, b + 1);
    hide IsLine, LineAt;
    if !CrlfAt(s, b + 2) {
      forall e | b + 2 <= e && FirstBlank(s, b + 2, e) ensures FirstBlank(s, a, e) {
        forall j | a <= j < e ensures !BlankAt(s, j) {
          if j >= b + 2 {
            assert !BlankAt(s, j);
          } else if j == b {
            assert !CrlfAt(s, j + 2);
          }
        }
      }
    }
  }

  /** In a text that goes on with `lines` the first blank line is their end. */
  lemma {:induction false} BlankInText(s: seq<byte>, a: nat, lines: seq<seq<byte>>)
    requires lines != [] && AreLines(lines) && TextAt(s, a, lines)
    ensures |Text(lines)| >= 4 && FirstBlank(s, a, a + |Text(lines)| - 4)
    decreases |lines|
  {
    var l, more := lines[0], lines[1..];
    TextLength(lines);
    RestAreLines(lines);
    hide Text;
    BlankAfterLine(s, a, l);
    TextStarts(s, a + |l| + 2, more);
    hide LineAt, IsLine, FirstBlank, AreLines;
    if more != [] {
      BlankInText(s, a + |l| + 2, more);
    }
  }

  lemma TextLength(lines: seq<seq<byte>>)
    requires lines != []
    ensures |Text(lines)| == |lines[0]| + 2 + |Text(lines[1..])|
    ensures |Text([])| == 2
  {
  }

  lemma {:induction false} NoNulInText(lines: seq<seq<byte>>)
    requires AreLines(lines)
    ensures 0 !in Text(lines)
  {
    if lines != [] {
      assert IsLine(lines[0]);
      NoNulInText(lines[1..]);
    }
  }

  lemma {:induction false} NulIs(s: seq<byte>, i: nat)
    requires i <= |s| && 0 !in s
    ensures NulFrom(s, i) == |s|
    decreases |s| - i
  {
    if i < |s| {
      NulIs(s, i + 1);
    }
  }

  lemma HeadAlone(lines: seq<seq<byte>>)
    requires lines != [] && AreLines(lines)
    ensures HasBlank(Text(lines)) && Head(Text(lines)) == Text(lines)
  {
    var t := Text(lines);
    TextItself(lines);
    BlankInText(t, 0, lines);
    hide Text, TextAt, AreLines;
    BlankIs(t, 0, |t| - 4);
    hide BlankFrom;
  }

  /** The head that a stream of lines begins with, seen through a buffer it fits. */
  lemma HeadOfLines(lines: seq<seq<byte>>, rest: seq<byte>, capacity: nat)
    requires lines != [] && AreLines(lines) && |Text(lines)| <= capacity
    ensures var v := CText(Trunc(Text(lines) + rest, capacity));
            HasBlank(v) && Head(v) == Text(lines)
    ensures HasBlank(Text(lines)) && Head(Text(lines)) == Text(lines)
  {
    var t := Text(lines);
    HeadAlone(lines);
    NoNulInText(lines);
    NulIs(t, 0);
    hide Text, AreLines, NulFrom, HasBlank, Head;
    assert CText(t) == t && t <= Trunc(t + rest, capacity);
    CTextGrows(t, Trunc(t + rest, capacity));
    BlankStays(t, CText(Trunc(t + rest, capacity)));
  }

  /** A buffer that ends within the text of the lines shows no blank line. */
  lemma NoEarlyBlank(lines: seq<seq<byte>>, rest: seq<byte>, capacity: nat)
    requires lines != [] && AreLines(lines) && capacity < |Text(lines)|
    ensures !HasBlank(CText(Trunc(Text(lines) + rest, capacity)))
  {
    var t := Text(lines);
    TextItself(lines);
    BlankInText(t, 0, lines);
    hide Text, TextAt, AreLines;
    var v := CText(Trunc(t + rest, capacity));
    assert v <= t;
    hide NulFrom;
    forall j | 0 <= j < |v| ensures !BlankAt(v, j) {
      if j < |t| - 4 {
        assert !BlankAt(t, j);
      }
    }
  }

  // ---- header fields ----------------------------------------------------------------------------

  /** The line is a field of this name. */
  predicate IsField(l: seq<byte>, name: seq<byte>) {
    |l| > |name| && EqFold(l[..|name|], name) && l[|name|] == COLON
  }

  /** What follows the colon, without the blanks in front. */
  function Value(l: seq<byte>, name: seq<byte>): seq<byte>
    requires IsField(l, name)
  {
    l[SkipBlanks(l, |name| + 1)..]
  }

  lemma {:induction false} BlanksSkipped(s: seq<byte>, i: nat, e: nat)
    requires i <= e <= |s| && (forall j | i <= j < e :: s[j] == SP || s[j] == TAB)
    requires e < |s| ==> s[e] != SP && s[e] != TAB
    ensures SkipBlanks(s, i) == e
    decreases e - i
  {
    if i < e {
      BlanksSkipped(s, i + 1, e);
    }
  }

  predicate Blanks(b: seq<byte>) {
    forall j | 0 <= j < |b| :: b[j] == SP || b[j] == TAB
  }

  /** A field as a client writes it: name in any case, colon, blanks, value. */
  lemma FieldHas(name': seq<byte>, b: seq<byte>, v: seq<byte>, name: seq<byte>)
    requires EqFold(name', name) && Blanks(b) && (v != [] ==> v[0] != SP && v[0] != TAB)
    ensures var l := name' + [COLON] + b + v; IsField(l, name) && Value(l, name) == v
  {
    var l := name' + [COLON] + b + v;
    var e := |name| + 1 + |b|;
    assert l[..|name|] == name' && l[|name|] == COLON && l[e..] == v;
    assert forall j | |name| < j < e :: l[j] == b[j - |name| - 1];
    assert e < |l| ==> l[e] == v[0];
    BlanksSkipped(l, |name| + 1, e);
  }

  /** Seen in the text, the line at a is a field exactly if it is one by itself, and its value begins
      at the same place. */
  lemma FieldInText(s: seq<byte>, a: nat, l: seq<byte>, name: seq<byte>)
    requires LineAt(s, a, l) && |l| > |name|
    ensures NameAt(s, a, name) <==> IsField(l, name)
    ensures IsField(l, name) ==> SkipBlanks(s, a + |name| + 1) == a + SkipBlanks(l, |name| + 1)
  {
    hide EqFold;
    assert s[a..a + |name|] == l[..|name|];
    if IsField(l, name) {
      BlanksSkipped(s, a + |name| + 1, a + SkipBlanks(l, |name| + 1));
    }
  }

  lemma TooShort(l: seq<byte>, name: seq<byte>)
    requires |l| <= |name|
    ensures !IsField(l, name)
  {
  }

  lemma LineBounds(s: seq<byte>, a: nat, l: seq<byte>)
    requires LineAt(s, a, l) && IsLine(l)
    ensures |l| > 0 && a + |l| + 2 <= |s| && LineEnd(s, a) == a + |l|
  {
    LineInText(s, a, l);
  }

  /** The first line with a field of this name. */
  predicate IsFirst(lines: seq<seq<byte>>, name: seq<byte>, i: nat) {
    i < |lines| && IsField(lines[i], name) && forall j | 0 <= j < i :: !IsField(lines[j], name)
  }

  predicate HasField(lines: seq<seq<byte>>, name: seq<byte>) {
    exists i | 0 <= i < |lines| :: IsField(lines[i], name)
  }

  lemma FirstInRest(lines: seq<seq<byte>>, name: seq<byte>, i: nat)
    requires 0 < i && IsFirst(lines, name, i)
    ensures IsFirst(lines[1..], name, i - 1) && lines[1..][i - 1] == lines[i]
  {
    hide IsField;
    assert lines[1..][i - 1] == lines[i];
    forall j | 0 <= j < i - 1 ensures !IsField(lines[1..][j], name) {
      assert !IsField(lines[j + 1], name);
    }
  }

  lemma FirstOrLater(lines: seq<seq<byte>>, name: seq<byte>, i: nat)
    requires IsFirst(lines, name, i)
    ensures IsField(lines[0], name) <==> i == 0
  {
    hide IsField;
  }

  lemma NoneInRest(lines: seq<seq<byte>>, name: seq<byte>)
    requires lines != [] && !HasField(lines, name)
    ensures !HasField(lines[1..], name)
  {
    hide IsField;
    forall j | 0 <= j < |lines[1..]| ensures !IsField(lines[1..][j], name) {
      assert !IsField(lines[j + 1], name);
    }
  }

  lemma RestAreLines(lines: seq<seq<byte>>)
    requires lines != [] && AreLines(lines)
    ensures IsLine(lines[0]) && AreLines(lines[1..])
  {
    hide IsLine;
    forall i | 0 <= i < |lines[1..]| ensures IsLine(lines[1..][i]) {
      assert IsLine(lines[i + 1]);
    }
  }
}
