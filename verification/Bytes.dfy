/** Bytes, 16-bit words and the few sequence facts every component shares. */
module Bytes {

  type byte = x: int | 0 <= x < 0x100
  type word = x: int | 0 <= x < 0x1_0000

  datatype Option<T> = None | Some(value: T)

  function Min(a: int, b: int): int {
    if a <= b then a else b
  }

  /** The first `n` elements, or all of them when there are fewer. */
  function Trunc<T>(s: seq<T>, n: nat): seq<T> {
    if |s| <= n then s else s[..n]
  }

  function TruncAll<T>(ss: seq<seq<T>>, n: nat): (r: seq<seq<T>>)
    ensures |r| == |ss|
  {
    seq(|ss|, i requires 0 <= i < |ss| => Trunc(ss[i], n))
  }

  /** Concatenation of a sequence of chunks. */
  function Flatten<T>(ss: seq<seq<T>>): seq<T> {
    if ss == [] then [] else Flatten(ss[..|ss| - 1]) + ss[|ss| - 1]
  }

  lemma FlattenSnoc<T>(ss: seq<seq<T>>, s: seq<T>)
    ensures Flatten(ss + [s]) == Flatten(ss) + s
  {
    assert (ss + [s])[..|ss|] == ss;
  }

  lemma {:induction false} FlattenAppend<T>(a: seq<seq<T>>, b: seq<seq<T>>)
    ensures Flatten(a + b) == Flatten(a) + Flatten(b)
  {
    if b == [] {
      assert a + b == a;
    } else {
      var b', x := b[..|b| - 1], b[|b| - 1];
      FlattenAppend(a, b');
      FlattenSnoc(a + b', x);
      FlattenSnoc(b', x);
      hide Flatten;
      assert b == b' + [x] && a + b == (a + b') + [x];
      var f, g := Flatten(a), Flatten(b');
      assert (f + g) + x == f + (g + x);
    }
  }

  /** The low n bytes of x, most significant first. */
  function BigEndian(x: nat, n: nat): (s: seq<byte>)
    ensures |s| == n
  {
    if n == 0 then [] else BigEndian(x / 0x100, n - 1) + [x % 0x100]
  }

  function FromBigEndian(s: seq<byte>): nat {
    if s == [] then 0 else 0x100 * FromBigEndian(s[..|s| - 1]) + s[|s| - 1]
  }

  lemma {:induction false} BigEndianInverts(s: seq<byte>)
    ensures BigEndian(FromBigEndian(s), |s|) == s
  {
    if s != [] {
      BigEndianInverts(s[..|s| - 1]);
    }
  }

  lemma FromBigEndianStep(s: seq<byte>)
    requires s != []
    ensures FromBigEndian(s) == 0x100 * FromBigEndian(s[..|s| - 1]) + s[|s| - 1] && FromBigEndian([]) == 0
  {
  }

  lemma BigEndianStep(x: nat, n: nat)
    ensures BigEndian(x, n + 1) == BigEndian(x / 0x100, n) + [x % 0x100]
    ensures BigEndian(x, 0) == []
  {
  }

  lemma {:induction false} FromBigEndianInverts(x: nat, n: nat)
    ensures FromBigEndian(BigEndian(x, n)) <= x
    ensures x < Pow256(n) ==> FromBigEndian(BigEndian(x, n)) == x
  {
    if n > 0 {
      FromBigEndianInverts(x / 0x100, n - 1);
      var s := BigEndian(x, n);
      assert s[..n - 1] == BigEndian(x / 0x100, n - 1);
    }
  }

  /** Shifting each byte of a 64-bit number into place. */
  lemma ShiftedBytes(x: nat)
    ensures BigEndian(x, 8) == [
      (x / 0x100_0000_0000_0000) % 0x100, (x / 0x1_0000_0000_0000) % 0x100,
      (x / 0x100_0000_0000) % 0x100, (x / 0x1_0000_0000) % 0x100,
      (x / 0x100_0000) % 0x100, (x / 0x1_0000) % 0x100,
      (x / 0x100) % 0x100, x % 0x100]
  {
    hide BigEndian;
    var x1, x2, x3, x4 := x / 0x100, x / 0x1_0000, x / 0x100_0000, x / 0x1_0000_0000;
    var x5, x6, x7 := x / 0x100_0000_0000, x / 0x1_0000_0000_0000, x / 0x100_0000_0000_0000;
    assert x1 / 0x100 == x2 && x2 / 0x100 == x3 && x3 / 0x100 == x4;
    assert x4 / 0x100 == x5 && x5 / 0x100 == x6 && x6 / 0x100 == x7;
    BigEndianStep(x, 7);
    BigEndianStep(x1, 6);
    BigEndianStep(x2, 5);
    BigEndianStep(x3, 4);
    BigEndianStep(x4, 3);
    BigEndianStep(x5, 2);
    BigEndianStep(x6, 1);
    BigEndianStep(x7, 0);
  }

  function Pow256(n: nat): nat {
    if n == 0 then 1 else 0x100 * Pow256(n - 1)
  }
}
