/** SHA-1 as FIPS 180-4 defines it, on messages that are whole bytes. */
module Sha1Spec {
  import opened Bytes
  import opened Word32

  datatype Hash = Hash(a: Word, b: Word, c: Word, d: Word, e: Word)

  /** Section 5.3.1. */
  const INITIAL_HASH: Hash := Hash(0x67452301, 0xEFCDAB89, 0x98BADCFE, 0x10325476, 0xC3D2E1F0)

  /** Section 3.2: rotation left. */
  function Rotl(x: Word, n: nat): Word
    requires 0 < n < 32
  {
    Or(Shl(x, n), Shr(x, 32 - n))
  }

  lemma Halved(x: nat, y: nat, q: nat, p: nat)
    requires x == y * (2 * p) + q && q < 2 * p
    ensures x / 2 == y * p + q / 2 && q / 2 < p
  {
    var z := y * p;
    assert y * (2 * p) == 2 * z;
  }

  lemma {:induction false} ShrIs(x: Word, y: nat, q: nat, k: nat)
    requires x == y * Pow2(k) + q && q < Pow2(k)
    ensures Shr(x, k) == y
  {
    if k > 0 {
      Halved(x, y, q, Pow2(k - 1));
      ShrIs(x / 2, y, q / 2, k - 1);
      hide Pow2;
    }
  }

  lemma Distributes(p: nat, q: nat, b: nat)
    ensures (p + q) * b == p * b + q * b
  {
  }

  lemma Associates(y: nat, a: nat, b: nat)
    ensures (y * a) * b == y * (a * b)
  {
  }

  lemma Grows(c: nat, a: nat, b: nat)
    requires c <= a
    ensures c * b <= a * b
  {
    Distributes(c, a - c, b);
  }

  lemma Product(x: nat, y: nat, q: nat, a: nat, b: nat)
    requires x == y * a + q && q < a
    ensures x * b == y * (a * b) + q * b && q * b + b <= a * b
  {
    Distributes(y * a, q, b);
    Associates(y, a, b);
    Grows(q + 1, a, b);
    Distributes(q, 1, b);
  }

  lemma UpperDropped(y: nat, z: nat)
    requires z < 0x1_0000_0000
    ensures (y * 0x1_0000_0000 + z) % 0x1_0000_0000 == z
  {
  }

  /** The upper n bits of a word, y, become the lower ones, and the others, q, move up. */
  lemma RotlMoves(x: Word, n: nat, y: nat, q: nat)
    requires 0 < n < 32 && x == y * Pow2(32 - n) + q && q < Pow2(32 - n) && y < Pow2(n)
    ensures Rotl(x, n) == q * Pow2(n) + y
  {
    hide Pow2, OrN, Shr, Or;
    ShrIs(x, y, q, 32 - n);
    Pow2Sum(32 - n, n);
    Pow2Values();
    Product(x, y, q, Pow2(32 - n), Pow2(n));
    UpperDropped(y, q * Pow2(n));
    assert Shl(x, n) == q * Pow2(n);
    hide Shl;
    OrIsSum(q, y, n);
  }

  lemma OrIsSum(q: nat, y: nat, n: nat)
    requires y < Pow2(n) && q * Pow2(n) + y < 0x1_0000_0000
    ensures q * Pow2(n) < 0x1_0000_0000 && Or(q * Pow2(n), y) == q * Pow2(n) + y
  {
    Pow2Values();
    hide Pow2, OrN;
    OrDisjoint(q, y, n, 32);
  }

  /** Section 4.1.1. */
  function Ch(x: Word, y: Word, z: Word): Word { Xor(And(x, y), And(Not(x), z)) }
  function Parity(x: Word, y: Word, z: Word): Word { Xor(Xor(x, y), z) }
  function Maj(x: Word, y: Word, z: Word): Word { Xor(Xor(And(x, y), And(x, z)), And(y, z)) }

  function F(t: nat, x: Word, y: Word, z: Word): Word {
    if t < 20 then Ch(x, y, z) else if t < 40 then Parity(x, y, z) else if t < 60 then Maj(x, y, z) else Parity(x, y, z)
  }

  /** Section 4.2.1. */
  function K(t: nat): Word {
    if t < 20 then 0x5A827999 else if t < 40 then 0x6ED9EBA1 else if t < 60 then 0x8F1BBCDC else 0xCA62C1D6
  }

  /** The four constants are the integer parts of 2^30 times the square roots of 2, 3, 5 and 10. */
  lemma ConstantsAreRoots(t: nat)
    ensures var r := if t < 20 then 2 else if t < 40 then 3 else if t < 60 then 5 else 10;
            K(t) * K(t) <= r * 0x1000_0000_0000_0000 < (K(t) + 1) * (K(t) + 1)
  {
  }

  /** Four bytes as a big-endian word. */
  function WordAt(s: seq<byte>, i: nat): Word
    requires i + 4 <= |s|
  {
    LoadIsBigEndian(s[i..i + 4]);
    FromBigEndian(s[i..i + 4])
  }

  /** Section 6.1.2, step 1: the message schedule, its first n words. */
  function Schedule(block: seq<byte>, n: nat): (w: seq<Word>)
    requires |block| == 64
    ensures |w| == n
  {
    if n == 0 then []
    else
      var w := Schedule(block, n - 1);
      var t := n - 1;
      w + [if t < 16 then WordAt(block, 4 * t) else Rotl(Xor(Xor(Xor(w[t - 3], w[t - 8]), w[t - 14]), w[t - 16]), 1)]
  }

  /** Step 3: one round, then t rounds. */
  function Round(t: nat, w: Word, h: Hash): Hash {
    Hash(Add(Add(Add(Add(Rotl(h.a, 5), F(t, h.b, h.c, h.d)), h.e), K(t)), w), h.a, Rotl(h.b, 30), h.c, h.d)
  }

  function Rounds(w: seq<Word>, t: nat, h: Hash): Hash
    requires t <= |w|
  {
    if t == 0 then h else Round(t - 1, w[t - 1], Rounds(w, t - 1, h))
  }

  function Plus(x: Hash, y: Hash): Hash {
    Hash(Add(x.a, y.a), Add(x.b, y.b), Add(x.c, y.c), Add(x.d, y.d), Add(x.e, y.e))
  }

  /** Steps 2 and 4. */
  function Compress(h: Hash, block: seq<byte>): Hash
    requires |block| == 64
  {
    Plus(h, Rounds(Schedule(block, 80), 80, h))
  }

  /** The hash value after the first n blocks of a padded message. */
  function AfterBlocks(m: seq<byte>, n: nat): Hash
    requires 64 * n <= |m|
  {
    if n == 0 then INITIAL_HASH else Compress(AfterBlocks(m, n - 1), m[64 * (n - 1)..64 * n])
  }

  const TWO_64: nat := 0x1_0000_0000_0000_0000

  function Be64(x: nat): (s: seq<byte>)
    requires x < TWO_64
    ensures |s| == 8
  {
    BigEndian(x, 8)
  }

  /** Bytes of zero padding after the 0x80 byte. */
  function ZeroBytes(n: nat): (z: nat)
    ensures z < 64
  {
    (119 - n % 64) % 64
  }

  /** The one bit after the message, in its byte. */
  function OneBit(): seq<byte> {
    [0x80]
  }

  function Zeros(z: nat): (s: seq<byte>)
    ensures |s| == z
  {
    if z == 0 then [] else Zeros(z - 1) + [0]
  }

  /** Section 5.1.1, for a message of n bytes whose length field carries `bits`. */
  function Padding(n: nat, bits: nat): (p: seq<byte>)
    requires bits < TWO_64
    ensures |p| == ZeroBytes(n) + 9
  {
    OneBit() + Zeros(ZeroBytes(n)) + Be64(bits)
  }

  lemma PaddedLength(n: nat)
    ensures (n + ZeroBytes(n) + 9) % 64 == 0
    ensures (n + 1 + ZeroBytes(n)) % 64 == 56
  {
    var r := n % 64;
    assert n == 64 * (n / 64) + r;
    if r <= 55 {
      assert ZeroBytes(n) == 55 - r;
    } else {
      assert ZeroBytes(n) == 119 - r;
    }
  }

  /** With the one bit inside 0x80, the padding has k = 7 + 8z zero bits, the least k with
      l + 1 + k = 448 modulo 512. */
  lemma PaddingIsMinimal(n: nat, k: nat)
    ensures var l := 8 * n;
            && (l + 1 + (7 + 8 * ZeroBytes(n))) % 512 == 448
            && ((l + 1 + k) % 512 == 448 ==> 7 + 8 * ZeroBytes(n) <= k)
  {
    PaddedLength(n);
    var z, q := ZeroBytes(n), (n + 1 + ZeroBytes(n)) / 64;
    assert n + 1 + z == 64 * q + 56;
    var d := 7 + 8 * z - k;
    if (8 * n + 1 + k) % 512 == 448 {
      var p := (8 * n + 1 + k) / 512;
      assert 8 * n + 1 + k == 512 * p + 448;
      assert d == 512 * (q - p);
    }
  }

  function DigestBytes(h: Hash): seq<byte> {
    BigEndian(h.a, 4) + BigEndian(h.b, 4) + BigEndian(h.c, 4) + BigEndian(h.d, 4) + BigEndian(h.e, 4)
  }

  /** The digest of a message whose 64-bit length field carries `bits`. */
  function DigestWith(m: seq<byte>, bits: nat): seq<byte>
    requires bits < TWO_64
  {
    var padded := m + Padding(|m|, bits);
    PaddedLength(|m|);
    DigestBytes(AfterBlocks(padded, |padded| / 64))
  }

  /** The standard digest, defined for messages below 2^64 bits. */
  function Digest(m: seq<byte>): seq<byte>
    requires 8 * |m| < TWO_64
  {
    DigestWith(m, 8 * |m|)
  }

  /** The or-forms of Ch and Maj that programs use. */
  lemma OrForms(x: Word, y: Word, z: Word)
    ensures Ch(x, y, z) == Or(And(x, y), And(Not(x), z))
    ensures Maj(x, y, z) == Or(Or(And(x, y), And(x, z)), And(y, z))
  {
    ChOrForm(x, y, z, 32);
    MajOrForm(x, y, z, 32);
    hide AndN, OrN, XorN, NotN;
  }
}
