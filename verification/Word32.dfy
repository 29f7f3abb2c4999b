/** 32-bit words as numbers, and the bit operations of C on them, defined bit by bit. */
module Word32 {
  import opened Bytes

  type Word = x: int | 0 <= x < 0x1_0000_0000

  function Pow2(n: nat): (p: nat)
    ensures p > 0
  {
    if n == 0 then 1 else 2 * Pow2(n - 1)
  }

  lemma {:induction false} Pow2Sum(m: nat, n: nat)
    ensures Pow2(m + n) == Pow2(m) * Pow2(n)
  {
    if m > 0 {
      Pow2Sum(m - 1, n);
    }
  }

  lemma Pow2Values()
    ensures Pow2(8) == 0x100 && Pow2(16) == 0x1_0000 && Pow2(24) == 0x100_0000 && Pow2(32) == 0x1_0000_0000
  {
    assert Pow2(4) == 16;
    Pow2Sum(4, 4);
    hide Pow2;
    Pow2Sum(8, 8);
    Pow2Sum(8, 16);
    Pow2Sum(16, 16);
  }

  function Bit(b: bool): nat {
    if b then 1 else 0
  }

  /** The operations on numbers of n bits. */
  function AndN(x: nat, y: nat, n: nat): nat {
    if n == 0 then 0 else 2 * AndN(x / 2, y / 2, n - 1) + Bit(x % 2 == 1 && y % 2 == 1)
  }

  function OrN(x: nat, y: nat, n: nat): nat {
    if n == 0 then 0 else 2 * OrN(x / 2, y / 2, n - 1) + Bit(x % 2 == 1 || y % 2 == 1)
  }

  function XorN(x: nat, y: nat, n: nat): nat {
    if n == 0 then 0 else 2 * XorN(x / 2, y / 2, n - 1) + Bit(x % 2 != y % 2)
  }

  function NotN(x: nat, n: nat): nat {
    if n == 0 then 0 else 2 * NotN(x / 2, n - 1) + Bit(x % 2 == 0)
  }

  lemma {:induction false} Bounded(x: nat, y: nat, n: nat)
    ensures AndN(x, y, n) < Pow2(n) && OrN(x, y, n) < Pow2(n) && XorN(x, y, n) < Pow2(n) && NotN(x, n) < Pow2(n)
  {
    if n > 0 {
      Bounded(x / 2, y / 2, n - 1);
    }
  }

  function And(x: Word, y: Word): Word {
    Bounded(x, y, 32); Pow2Values(); AndN(x, y, 32)
  }

  function Or(x: Word, y: Word): Word {
    Bounded(x, y, 32); Pow2Values(); OrN(x, y, 32)
  }

  function Xor(x: Word, y: Word): Word {
    Bounded(x, y, 32); Pow2Values(); XorN(x, y, 32)
  }

  function Not(x: Word): Word {
    Bounded(x, 0, 32); Pow2Values(); NotN(x, 32)
  }

  /** Addition and the shifts drop what does not fit. */
  function Add(x: Word, y: Word): Word {
    (x + y) % 0x1_0000_0000
  }

  function Shl(x: Word, n: nat): Word {
    (x * Pow2(n)) % 0x1_0000_0000
  }

  function Shr(x: Word, n: nat): (r: Word)
    ensures r <= x
  {
    if n == 0 then x else Shr(x / 2, n - 1)
  }

  lemma ShrStep(x: Word, n: nat)
    ensures Shr(x, 0) == x && Shr(x, n + 1) == Shr(x / 2, n)
  {
  }

  lemma ShrNibble(x: Word, n: nat)
    ensures Shr(x, n + 4) == Shr(x / 16, n)
  {
    hide Shr;
    ShrStep(x, n + 3);
    ShrStep(x / 2, n + 2);
    ShrStep(x / 4, n + 1);
    ShrStep(x / 8, n);
  }

  lemma ShrByte(x: Word, n: nat)
    ensures Shr(x, n + 8) == Shr(x / 0x100, n)
  {
    hide Shr;
    ShrNibble(x, n + 4);
    ShrNibble(x / 16, n);
  }

  lemma {:induction false} ChOrForm(x: nat, y: nat, z: nat, n: nat)
    ensures OrN(AndN(x, y, n), AndN(NotN(x, n), z, n), n) == XorN(AndN(x, y, n), AndN(NotN(x, n), z, n), n)
  {
    if n > 0 {
      ChOrForm(x / 2, y / 2, z / 2, n - 1);
    }
  }

  lemma {:induction false} MajOrForm(x: nat, y: nat, z: nat, n: nat)
    ensures OrN(OrN(AndN(x, y, n), AndN(x, z, n), n), AndN(y, z, n), n)
            == XorN(XorN(AndN(x, y, n), AndN(x, z, n), n), AndN(y, z, n), n)
  {
    if n > 0 {
      MajOrForm(x / 2, y / 2, z / 2, n - 1);
    }
  }

  lemma {:induction false} OrZero(x: nat, n: nat)
    requires x < Pow2(n)
    ensures OrN(x, 0, n) == x
  {
    if n > 0 {
      OrZero(x / 2, n - 1);
    }
  }

  /** Numbers that share no bit position are or-ed by adding them. */
  lemma {:induction false} OrDisjoint(q: nat, y: nat, k: nat, n: nat)
    requires y < Pow2(k) && q * Pow2(k) + y < Pow2(n)
    ensures OrN(q * Pow2(k), y, n) == q * Pow2(k) + y
  {
    if k == 0 {
      OrZero(q, n);
    } else if n > 0 {
      var p := q * Pow2(k - 1);
      assert q * Pow2(k) == 2 * p;
      OrDisjoint(q, y / 2, k - 1, n - 1);
    }
  }

  lemma OrAdds(q: nat, y: nat, k: nat, p: nat)
    requires k in {8, 16, 24} && p == (if k == 8 then 0x100 else if k == 16 then 0x1_0000 else 0x100_0000)
    requires y < p && q * p + y < 0x1_0000_0000
    ensures q * p < 0x1_0000_0000 && Or(q * p, y) == q * p + y
  {
    Pow2Values();
    hide Pow2, OrN;
    OrDisjoint(q, y, k, 32);
  }

  /** Loading four bytes by shifts and ors yields their big-endian value. */
  function LoadBe32(p: seq<byte>): Word
    requires |p| == 4
  {
    Or(Or(Or(Shl(p[0], 24), Shl(p[1], 16)), Shl(p[2], 8)), p[3])
  }

  /** The four bytes stored for x by shifts and masks. */
  function StoreBe32(x: Word): (s: seq<byte>)
    ensures |s| == 4
  {
    [Shr(x, 24) % 0x100, Shr(x, 16) % 0x100, Shr(x, 8) % 0x100, x % 0x100]
  }

  lemma FromBigEndian4(p: seq<byte>)
    requires |p| == 4
    ensures FromBigEndian(p) == 0x100_0000 * (p[0] as int) + 0x1_0000 * (p[1] as int) + 0x100 * (p[2] as int) + p[3]
  {
    FromBigEndianStep(p);
    FromBigEndianStep(p[..3]);
    FromBigEndianStep(p[..2]);
    FromBigEndianStep(p[..1]);
    hide FromBigEndian;
    assert p[..3][..2] == p[..2] && p[..2][..1] == p[..1] && p[..1][..0] == [];
  }

  lemma LoadShifts(a: byte, b: byte, c: byte)
    ensures Shl(a, 24) == a as int * 0x100_0000 && Shl(b, 16) == b as int * 0x1_0000 && Shl(c, 8) == c as int * 0x100
  {
    Pow2Values();
    hide Pow2;
  }

  lemma LoadIsBigEndian(p: seq<byte>)
    requires |p| == 4
    ensures LoadBe32(p) == FromBigEndian(p)
  {
    FromBigEndian4(p);
    hide FromBigEndian, Or, Shl;
    var b0: int, b1: int, b2: int, b3: int := p[0], p[1], p[2], p[3];
    LoadShifts(p[0], p[1], p[2]);
    OrAdds(b0, b1 * 0x1_0000, 24, 0x100_0000);
    OrAdds(b0 * 0x100 + b1, b2 * 0x100, 16, 0x1_0000);
    OrAdds(b0 * 0x1_0000 + b1 * 0x100 + b2, b3, 8, 0x100);
  }

  lemma StoreIsBigEndian(x: Word)
    ensures StoreBe32(x) == BigEndian(x, 4)
  {
    hide Shr, BigEndian;
    var x1: Word, x2: Word, x3: Word := x / 0x100, x / 0x1_0000, x / 0x100_0000;
    assert x1 / 0x100 == x2 && x2 / 0x100 == x3;
    ShrByte(x, 16);
    ShrByte(x, 8);
    ShrByte(x, 0);
    ShrByte(x1, 8);
    ShrByte(x1, 0);
    ShrByte(x2, 0);
    ShrStep(x1, 0);
    ShrStep(x2, 0);
    ShrStep(x3, 0);
    BigEndianStep(x, 3);
    BigEndianStep(x1, 2);
    BigEndianStep(x2, 1);
    BigEndianStep(x3, 0);
  }

  /** Storing a word and loading it again are inverse. */
  lemma LoadStore(x: Word, p: seq<byte>)
    ensures LoadBe32(StoreBe32(x)) == x
    ensures |p| == 4 ==> StoreBe32(LoadBe32(p)) == p
  {
    hide Shr, Shl, OrN;
    StoreIsBigEndian(x);
    LoadIsBigEndian(StoreBe32(x));
    assert Pow256(4) == 0x1_0000_0000;
    FromBigEndianInverts(x, 4);
    if |p| == 4 {
      LoadIsBigEndian(p);
      StoreIsBigEndian(LoadBe32(p));
      BigEndianInverts(p);
    }
  }
}
