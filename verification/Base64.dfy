/** Base64, RFC 4648 section 4, and the library's encoder for 20 bytes. */
module Base64 {
  import opened Bytes
  import opened Word32

  type sextet = x: int | 0 <= x < 64

  const PAD: byte := 61

  /** The alphabet of table 1: A-Z, a-z, 0-9, +, /. */
  function Char(v: sextet): byte {
    if v < 26 then 65 + v else if v < 52 then 71 + v else if v < 62 then v - 4 else if v == 62 then 43 else 47
  }

  function Value(c: byte): Option<sextet> {
    if 65 <= c <= 90 then Some(c - 65)
    else if 97 <= c <= 122 then Some(c - 71)
    else if 48 <= c <= 57 then Some(c + 4)
    else if c == 43 then Some(62)
    else if c == 47 then Some(63)
    else None
  }

  /** The four sextets of three bytes. */
  function Six1(a: byte): sextet { a / 4 }

  function Six2(a: byte, b: byte): sextet { a % 4 * 16 + b / 16 }

  function Six3(b: byte, c: byte): sextet { b % 16 * 4 + c / 64 }

  function Six4(c: byte): sextet { c % 64 }

  /** The three bytes of four sextets. */
  function Byte1(x: sextet, y: sextet): byte { x * 4 + y / 16 }

  function Byte2(y: sextet, z: sextet): byte { y % 16 * 16 + z / 4 }

  function Byte3(z: sextet, w: sextet): byte { z % 4 * 64 + w }

  /** Three bytes as four characters; a short last group is filled with zero bits and padded. */
  function Group(a: byte, b: byte, c: byte): (g: seq<byte>)
    ensures |g| == 4
  {
    [Char(Six1(a)), Char(Six2(a, b)), Char(Six3(b, c)), Char(Six4(c))]
  }

  function Encode(s: seq<byte>): seq<byte> {
    if s == [] then []
    else if |s| == 1 then Group(s[0], 0, 0)[..2] + [PAD, PAD]
    else if |s| == 2 then Group(s[0], s[1], 0)[..3] + [PAD]
    else Group(s[0], s[1], s[2]) + Encode(s[3..])
  }

  /** Accepts exactly padded input whose unused bits are zero. */
  function Decode(t: seq<byte>): Option<seq<byte>>
    decreases |t|
  {
    if t == [] then Some([])
    else if |t| < 4 then None
    else
      var x, y, z, w := Value(t[0]), Value(t[1]), Value(t[2]), Value(t[3]);
      if x == None || y == None then None
      else if |t| == 4 && t[2] == PAD && t[3] == PAD then
        if y.value % 16 == 0 then Some([Byte1(x.value, y.value)]) else None
      else if z == None then None
      else if |t| == 4 && t[3] == PAD then
        if z.value % 4 == 0
        then Some([Byte1(x.value, y.value), Byte2(y.value, z.value)])
        else None
      else if w == None then None
      else
        match Decode(t[4..])
        case None => None
        case Some(r) =>
          Some([Byte1(x.value, y.value), Byte2(y.value, z.value), Byte3(z.value, w.value)] + r)
  }

  /** Table 1: runs that start at 'A', 'a' and '0', then '+' and '/'. */
  lemma CharsAreTheAlphabet(v: sextet)
    ensures Char(0) == 'A' as int && Char(26) == 'a' as int && Char(52) == '0' as int
    ensures Char(62) == '+' as int && Char(63) == '/' as int
    ensures v !in {25, 51, 61, 62, 63} ==> Char(v + 1) == Char(v) + 1
  {
  }

  /** The test vectors of section 10: "f", "fo", "foo" and "foobar". */
  lemma TestVectors()
    ensures Encode([102]) == [90, 103, 61, 61]
    ensures Encode([102, 111]) == [90, 109, 56, 61]
    ensures Encode([102, 111, 111]) == [90, 109, 57, 118]
    ensures Encode([102, 111, 111, 98, 97, 114]) == [90, 109, 57, 118, 89, 109, 70, 121]
  {
    assert [102, 111, 111][3..] == [];
    assert [102, 111, 111, 98, 97, 114][3..] == [98, 97, 114] && [98, 97, 114][3..] == [];
    assert Encode([98, 97, 114]) == [89, 109, 70, 121];
  }

  lemma ValueOfChar(v: sextet)
    ensures Value(Char(v)) == Some(v) && Char(v) != PAD && Value(PAD) == None
  {
  }

  lemma GroupValues(a: byte, b: byte, c: byte)
    ensures var g := Group(a, b, c);
            && Value(g[0]) == Some(Six1(a)) && Value(g[1]) == Some(Six2(a, b))
            && Value(g[2]) == Some(Six3(b, c)) && Value(g[3]) == Some(Six4(c))
            && PAD !in g && Value(PAD) == None
  {
    ValueOfChar(Six1(a));
    ValueOfChar(Six2(a, b));
    ValueOfChar(Six3(b, c));
    ValueOfChar(Six4(c));
    hide Char, Value, Six1, Six2, Six3, Six4;
  }

  lemma Regroup(a: byte, b: byte, c: byte)
    ensures Byte1(Six1(a), Six2(a, b)) == a
    ensures Byte2(Six2(a, b), Six3(b, c)) == b
    ensures Byte3(Six3(b, c), Six4(c)) == c
    ensures b == 0 ==> Six2(a, b) % 16 == 0
    ensures c == 0 ==> Six3(b, c) % 4 == 0
  {
    assert (a % 4 * 16 + b / 16) / 16 == a % 4 && (a % 4 * 16 + b / 16) % 16 == b / 16;
    assert (b % 16 * 4 + c / 64) / 4 == b % 16 && (b % 16 * 4 + c / 64) % 4 == c / 64;
  }

  lemma DecodeFull(t: seq<byte>, a: byte, b: byte, c: byte, rest: seq<byte>)
    requires t == Group(a, b, c) + rest && Decode(rest).Some?
    ensures Decode(t) == Some([a, b, c] + Decode(rest).value)
  {
    GroupValues(a, b, c);
    Regroup(a, b, c);
    hide Value, Group, Six1, Six2, Six3, Six4, Byte1, Byte2, Byte3;
    var g := Group(a, b, c);
    assert t[0] == g[0] && t[1] == g[1] && t[2] == g[2] && t[3] == g[3] && t[4..] == rest;
    assert g[2] in g && g[3] in g;
    assert t[2] != PAD && t[3] != PAD;
  }

  lemma DecodePair(a: byte, b: byte)
    ensures Decode(Group(a, b, 0)[..3] + [PAD]) == Some([a, b])
  {
    GroupValues(a, b, 0);
    Regroup(a, b, 0);
    hide Value, Group, Six1, Six2, Six3, Six4, Byte1, Byte2, Byte3;
    var g := Group(a, b, 0);
    var t := g[..3] + [PAD];
    assert t[0] == g[0] && t[1] == g[1] && t[2] == g[2] && t[3] == PAD;
    assert g[2] in g;
  }

  lemma DecodeSingle(a: byte, zero: byte)
    requires zero == 0
    ensures Decode(Group(a, zero, zero)[..2] + [PAD, PAD]) == Some([a])
  {
    GroupValues(a, zero, zero);
    Regroup(a, zero, zero);
    hide Value, Group, Six1, Six2, Six3, Six4, Byte1, Byte2, Byte3;
    var g := Group(a, zero, zero);
    var t := g[..2] + [PAD, PAD];
    assert t[0] == g[0] && t[1] == g[1] && t[2] == PAD && t[3] == PAD;
  }

  /** Decoding recovers the bytes, so no two inputs share their encoding. */
  lemma {:induction false} DecodeEncode(s: seq<byte>)
    ensures Decode(Encode(s)) == Some(s)
  {
    hide Decode, Group;
    if |s| == 0 {
      DecodeEmpty();
    } else if |s| == 1 {
      DecodeSingle(s[0], 0);
      assert s == [s[0]];
    } else if |s| == 2 {
      DecodePair(s[0], s[1]);
      assert s == [s[0], s[1]];
    } else {
      DecodeEncode(s[3..]);
      DecodeFull(Encode(s), s[0], s[1], s[2], Encode(s[3..]));
      assert s == [s[0], s[1], s[2]] + s[3..];
    }
  }

  lemma DecodeEmpty()
    ensures Decode([]) == Some([])
  {
  }

  /** The 24-bit value the encoder assembles by shifts and ors. */
  function Triple(a: byte, b: byte, c: byte): Word {
    Or(Or(Shl(a, 16), Shl(b, 8)), c)
  }

  lemma TripleIs(a: byte, b: byte, c: byte)
    ensures Triple(a, b, c) == 0x1_0000 * (a as int) + 0x100 * (b as int) + c
  {
    hide Or, Shl;
    var x: int, y: int, z: int := a, b, c;
    LoadShifts(0, a, b);
    OrAdds(x, y * 0x100, 16, 0x1_0000);
    OrAdds(x * 0x100 + y, z, 8, 0x100);
  }

  lemma Div64(v: int, q: int, r: int)
    requires v == 64 * q + r && 0 <= r < 64
    ensures v / 64 == q && v % 64 == r
  {
  }

  /** Cutting the 24 bits into sixes is the grouping of the standard. */
  lemma Sextets(a: byte, b: byte, c: byte)
    ensures var v := Triple(a, b, c);
            [Char(v / 0x4_0000 % 0x40), Char(v / 0x1000 % 0x40), Char(v / 0x40 % 0x40), Char(v % 0x40)] == Group(a, b, c)
  {
    hide Triple, Char;
    TripleIs(a, b, c);
    var x: int, y: int, z: int, v: int := a, b, c, Triple(a, b, c);
    Div64(v, 1024 * x + 4 * y + z / 64, z % 64);
    Div64(v / 64, 16 * x + y / 16, y % 16 * 4 + z / 64);
    Div64(v / 64 / 64, x / 4, x % 4 * 16 + y / 16);
    assert v / 0x1000 == v / 64 / 64 && v / 0x4_0000 == v / 64 / 64 / 64;
    assert v % 0x40 == Six4(c) && v / 0x40 % 0x40 == Six3(b, c) && v / 0x1000 % 0x40 == Six2(a, b);
    assert v / 0x4_0000 % 0x40 == Six1(a);
    hide Six1, Six2, Six3, Six4;
  }

  /** The characters for three bytes, as the encoder's loop body stores them. */
  method PutGroup(out: array<byte>, j: nat, a: byte, b: byte, c: byte)
    requires j + 4 <= out.Length
    modifies out
    ensures out[..j + 4] == old(out[..j]) + Group(a, b, c)
  {
    hide Group, Triple, Char;
    var v := Triple(a, b, c);
    Sextets(a, b, c);
    out[j] := Char(v / 0x4_0000 % 0x40);
    out[j + 1] := Char(v / 0x1000 % 0x40);
    out[j + 2] := Char(v / 0x40 % 0x40);
    out[j + 3] := Char(v % 0x40);
  }

  /** _base64_encode_20bytes: 28 characters and the terminating NUL. */
  method Encode20(bytes: array<byte>, out: array<byte>)
    requires bytes.Length == 20 && out.Length == 29 && bytes != out
    modifies out
    ensures out[..28] == Encode(bytes[..]) && out[28] == 0
  {
    hide Group, Triple, Encode, Char;
    ghost var s := bytes[..];
    var i, j := 0, 0;
    while i < 18
      invariant 0 <= i <= 18 && i % 3 == 0 && j == i / 3 * 4
      invariant bytes[..] == s
      invariant Encode(s) == out[..j] + Encode(s[i..])
    {
      EncodeStep(s[i..]);
      assert s[i..][3..] == s[i + 3..];
      PutGroup(out, j, bytes[i], bytes[i + 1], bytes[i + 2]);
      j := j + 4;
      i := i + 3;
    }
    EncodeStep(s[18..]);
    ghost var before := out[..j];
    var v := Triple(bytes[18], bytes[19], 0);
    Sextets(bytes[18], bytes[19], 0);
    ghost var g := Group(bytes[18], bytes[19], 0);
    out[j] := Char(v / 0x4_0000 % 0x40);
    out[j + 1] := Char(v / 0x1000 % 0x40);
    out[j + 2] := Char(v / 0x40 % 0x40);
    out[j + 3] := PAD;
    out[28] := 0;
    assert out[..28] == before + (g[..3] + [PAD]);
  }

  lemma EncodeStep(s: seq<byte>)
    ensures |s| == 2 ==> Encode(s) == Group(s[0], s[1], 0)[..3] + [PAD]
    ensures |s| > 2 ==> Encode(s) == Group(s[0], s[1], s[2]) + Encode(s[3..])
  {
  }
}
