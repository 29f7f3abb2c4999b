/** Text of an HTTP head as the C string functions see it. */
module HttpText {
  import opened Bytes

  const CR: byte := 13
  const LF: byte := 10
  const SP: byte := 32
  const TAB: byte := 9
  const COMMA: byte := 44
  const COLON: byte := 58

  /** The characters of an ASCII literal. */
  function Ascii(s: string): (b: seq<byte>)
    requires forall i | 0 <= i < |s| :: s[i] < 0x80 as char
    ensures |b| == |s|
  {
    seq(|s|, i requires 0 <= i < |s| => s[i] as byte)
  }

  function ToLower(b: byte): byte {
    if 65 <= b <= 90 then b + 32 else b
  }

  /** strncasecmp of equally long strings. */
  predicate EqFold(a: seq<byte>, b: seq<byte>) {
    |a| == |b| && forall i | 0 <= i < |a| :: ToLower(a[i]) == ToLower(b[i])
  }

  predicate CrlfAt(s: seq<byte>, i: int) {
    0 <= i && i + 2 <= |s| && s[i] == CR && s[i + 1] == LF
  }

  predicate BlankAt(s: seq<byte>, i: int) {
    CrlfAt(s, i) && CrlfAt(s, i + 2)
  }

  /** The end of the line that contains position i: its CRLF, or the end of the text. */
  function LineEnd(s: seq<byte>, i: nat): (e: nat)
    requires i <= |s|
    ensures i <= e <= |s| && (e < |s| ==> CrlfAt(s, e))
    ensures forall j | i <= j < e :: !CrlfAt(s, j)
    decreases |s| - i
  {
    if i == |s| || CrlfAt(s, i) then i else LineEnd(s, i + 1)
  }

  /** The first blank line at or after i, or |s| if there is none. */
  function BlankFrom(s: seq<byte>, i: nat): (e: nat)
    requires i <= |s|
    ensures i <= e <= |s| && (e < |s| ==> BlankAt(s, e))
    ensures forall j | i <= j < e :: !BlankAt(s, j)
    decreases |s| - i
  {
    if i == |s| || BlankAt(s, i) then i else BlankFrom(s, i + 1)
  }

  predicate HasBlank(s: seq<byte>) {
    BlankFrom(s, 0) < |s|
  }

  /** Everything up to and including the first blank line. */
  function Head(s: seq<byte>): seq<byte>
    requires HasBlank(s)
  {
    s[..BlankFrom(s, 0) + 4]
  }

  function NulFrom(s: seq<byte>, i: nat): (e: nat)
    requires i <= |s|
    ensures i <= e <= |s| && (e < |s| ==> s[e] == 0)
    ensures forall j | i <= j < e :: s[j] != 0
    decreases |s| - i
  {
    if i == |s| || s[i] == 0 then i else NulFrom(s, i + 1)
  }

  /** The string functions see a buffer up to its first NUL. */
  function CText(s: seq<byte>): seq<byte> {
    s[..NulFrom(s, 0)]
  }

  lemma {:induction false} BlankIs(s: seq<byte>, i: nat, e: nat)
    requires i <= e < |s| && BlankAt(s, e) && forall j | i <= j < e :: !BlankAt(s, j)
    ensures BlankFrom(s, i) == e
    decreases e - i
  {
    if i < e {
      BlankIs(s, i + 1, e);
    }
  }

  /** More text never moves the first blank line. */
  lemma BlankStays(s: seq<byte>, t: seq<byte>)
    requires s <= t && HasBlank(s)
    ensures HasBlank(t) && Head(t) == Head(s)
  {
    var e := BlankFrom(s, 0);
    forall j | 0 <= j < e ensures !BlankAt(t, j) {
      assert !BlankAt(s, j);
    }
    BlankIs(t, 0, e);
  }

  lemma {:induction false} NulStays(s: seq<byte>, t: seq<byte>, i: nat)
    requires s <= t && i <= |s|
    ensures NulFrom(s, i) <= NulFrom(t, i) && (NulFrom(s, i) < |s| ==> NulFrom(t, i) == NulFrom(s, i))
    decreases |s| - i
  {
    if i < |s| && s[i] != 0 {
      NulStays(s, t, i + 1);
    }
  }

  lemma CTextGrows(s: seq<byte>, t: seq<byte>)
    requires s <= t
    ensures CText(s) <= CText(t)
  {
    NulStays(s, t, 0);
  }

  function SkipBlanks(s: seq<byte>, i: nat): (e: nat)
    requires i <= |s|
    ensures i <= e <= |s| && (e < |s| ==> s[e] != SP && s[e] != TAB)
    ensures forall j | i <= j < e :: s[j] == SP || s[j] == TAB
    decreases |s| - i
  {
    if i < |s| && (s[i] == SP || s[i] == TAB) then SkipBlanks(s, i + 1) else i
  }

  function TrimRight(s: seq<byte>): (r: seq<byte>)
    ensures r <= s && (r != [] ==> r[|r| - 1] != SP && r[|r| - 1] != TAB)
    ensures forall j | |r| <= j < |s| :: s[j] == SP || s[j] == TAB
  {
    if s != [] && (s[|s| - 1] == SP || s[|s| - 1] == TAB) then TrimRight(s[..|s| - 1]) else s
  }

  function Trim(s: seq<byte>): seq<byte> {
    TrimRight(s[SkipBlanks(s, 0)..])
  }

  predicate NameAt(s: seq<byte>, p: nat, name: seq<byte>)
    requires p + |name| < |s|
  {
    EqFold(s[p..p + |name|], name) && s[p + |name|] == COLON
  }

  predicate Agree(s: seq<byte>, t: seq<byte>, n: nat) {
    n <= |s| && n <= |t| && forall i | 0 <= i < n :: s[i] == t[i]
  }

  lemma {:induction false} SameLineEnd(s: seq<byte>, t: seq<byte>, e: nat, p: nat)
    requires Agree(s, t, e + 2) && CrlfAt(s, e) && p <= e
    ensures LineEnd(s, p) == LineEnd(t, p) <= e
    decreases e - p
  {
    if p < e {
      SameLineEnd(s, t, e, p + 1);
    }
  }

  lemma {:induction false} SameBlanks(s: seq<byte>, t: seq<byte>, e: nat, p: nat)
    requires p <= e && Agree(s, t, e + 1) && s[e] != SP && s[e] != TAB
    ensures SkipBlanks(s, p) == SkipBlanks(t, p) <= e
    decreases e - p
  {
    if p < e {
      SameBlanks(s, t, e, p + 1);
    }
  }

  lemma SameName(s: seq<byte>, t: seq<byte>, n: nat, p: nat, name: seq<byte>)
    requires Agree(s, t, n) && p + |name| < n
    ensures NameAt(s, p, name) == NameAt(t, p, name)
  {
    assert s[p..p + |name|] == t[p..p + |name|];
  }

  lemma HeadsAgree(s: seq<byte>, t: seq<byte>)
    requires HasBlank(s) && HasBlank(t) && Head(s) == Head(t)
    ensures BlankFrom(s, 0) == BlankFrom(t, 0) && Agree(s, t, BlankFrom(s, 0) + 4)
  {
    var e := BlankFrom(s, 0);
    assert |Head(s)| == e + 4 && |Head(t)| == BlankFrom(t, 0) + 4;
    forall i | 0 <= i < e + 4 ensures s[i] == t[i] {
      assert Head(s)[i] == Head(t)[i];
    }
  }
}
