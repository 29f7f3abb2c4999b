/** The streaming SHA-1 of the library, over a context updated in place. */
module Sha1 {
  import opened Bytes
  import opened Word32
  import opened Sha1Spec

  /** One pass of feeding bytes: whole blocks are compressed, the rest stays in the buffer. */
  datatype Absorbed = Absorbed(h: Hash, rest: seq<byte>)

  function Absorb(h: Hash, s: seq<byte>): (r: Absorbed)
    ensures |r.rest| < 64
    decreases |s|
  {
    if |s| < 64 then Absorbed(h, s) else Absorb(Compress(h, s[..64]), s[64..])
  }

  /** Feeding in two parts is feeding at once. */
  lemma {:induction false} AbsorbInParts(h: Hash, s: seq<byte>, t: seq<byte>)
    ensures var a := Absorb(h, s); Absorb(h, s + t) == Absorb(a.h, a.rest + t)
    decreases |s|
  {
    hide Compress;
    if |s| >= 64 {
      assert (s + t)[..64] == s[..64] && (s + t)[64..] == s[64..] + t;
      AbsorbInParts(Compress(h, s[..64]), s[64..], t);
    }
  }

  lemma {:induction false} AbsorbRest(h: Hash, s: seq<byte>)
    ensures |Absorb(h, s).rest| == |s| % 64
    decreases |s|
  {
    hide Compress;
    if |s| >= 64 {
      AbsorbRest(Compress(h, s[..64]), s[64..]);
    }
  }

  lemma AbsorbShort(h: Hash, s: seq<byte>)
    requires |s| < 64
    ensures Absorb(h, s) == Absorbed(h, s)
  {
  }

  lemma AbsorbNext(h: Hash, s: seq<byte>)
    requires |s| >= 64
    ensures Absorb(h, s) == Absorb(Compress(h, s[..64]), s[64..])
  {
  }

  lemma AbsorbOneBlock(h: Hash, block: seq<byte>)
    requires |block| == 64
    ensures Absorb(h, block) == Absorbed(Compress(h, block), [])
  {
    hide Compress;
    assert block[..64] == block && block[64..] == [];
  }

  lemma AbsorbOneMore(m: seq<byte>, before: seq<byte>, block: seq<byte>, h: Hash)
    requires |block| == 64 && m == before + block && Absorb(INITIAL_HASH, before) == Absorbed(h, [])
    ensures Absorb(INITIAL_HASH, m) == Absorbed(Compress(h, block), [])
  {
    hide Compress, Absorb;
    AbsorbInParts(INITIAL_HASH, before, block);
    AbsorbOneBlock(h, block);
    assert [] + block == block;
  }

  /** Absorbing whole blocks is the standard's block iteration. */
  lemma {:induction false} AbsorbIsBlockIteration(m: seq<byte>, n: nat)
    requires 64 * n <= |m|
    ensures Absorb(INITIAL_HASH, m[..64 * n]) == Absorbed(AfterBlocks(m, n), [])
  {
    hide Compress;
    if n > 0 {
      AbsorbIsBlockIteration(m, n - 1);
      hide Absorb;
      var before, block := m[..64 * (n - 1)], m[64 * (n - 1)..64 * n];
      assert m[..64 * n] == before + block;
      AbsorbOneMore(m[..64 * n], before, block, AfterBlocks(m, n - 1));
    }
  }

  lemma AbsorbWholeBlocks(p: seq<byte>)
    requires |p| % 64 == 0
    ensures Absorb(INITIAL_HASH, p).h == AfterBlocks(p, |p| / 64)
  {
    AbsorbIsBlockIteration(p, |p| / 64);
    assert p[..64 * (|p| / 64)] == p;
  }

  lemma DigestFromAbsorb(m: seq<byte>, bits: nat, p: seq<byte>)
    requires bits < TWO_64 && p == m + Padding(|m|, bits)
    ensures DigestBytes(Absorb(INITIAL_HASH, p).h) == DigestWith(m, bits)
  {
    hide DigestBytes, Absorb, AfterBlocks, Padding, ZeroBytes;
    PaddedLength(|m|);
    AbsorbWholeBlocks(p);
  }

  method StoreBe64(x: nat) returns (p: array<byte>)
    requires x < TWO_64
    ensures fresh(p) && p[..] == Be64(x)
  {
    p := new byte[8];
    p[0] := (x / 0x100_0000_0000_0000) % 0x100;
    p[1] := (x / 0x1_0000_0000_0000) % 0x100;
    p[2] := (x / 0x100_0000_0000) % 0x100;
    p[3] := (x / 0x1_0000_0000) % 0x100;
    p[4] := (x / 0x100_0000) % 0x100;
    p[5] := (x / 0x1_0000) % 0x100;
    p[6] := (x / 0x100) % 0x100;
    p[7] := x % 0x100;
    ShiftedBytes(x);
  }

  lemma ScheduleStep(block: seq<byte>, t: nat)
    requires |block| == 64
    ensures Schedule(block, 0) == []
    ensures Schedule(block, t + 1) ==
              var w := Schedule(block, t);
              w + [if t < 16 then WordAt(block, 4 * t) else Rotl(Xor(Xor(Xor(w[t - 3], w[t - 8]), w[t - 14]), w[t - 16]), 1)]
  {
  }

  lemma RoundsStep(w: seq<Word>, t: nat, h: Hash)
    requires t < |w|
    ensures Rounds(w, 0, h) == h
    ensures Rounds(w, t + 1, h) == Round(t, w[t], Rounds(w, t, h))
  {
  }

  /** The function and constant the round loop selects, in the or-forms it computes. */
  lemma RoundInOrForms(t: nat, w: Word, h: Hash)
    requires t < 80
    ensures var f := if t < 20 then Or(And(h.b, h.c), And(Not(h.b), h.d)) else if t < 40 then Xor(Xor(h.b, h.c), h.d)
                     else if t < 60 then Or(Or(And(h.b, h.c), And(h.b, h.d)), And(h.c, h.d)) else Xor(Xor(h.b, h.c), h.d);
            Round(t, w, h) == Hash(Add(Add(Add(Add(Rotl(h.a, 5), f), h.e), K(t)), w), h.a, Rotl(h.b, 30), h.c, h.d)
  {
    OrForms(h.b, h.c, h.d);
  }

  class Ctx {
    const state: array<Word>
    const buffer: array<byte>
    var totalLenBytes: nat
    var bufferLen: nat
    /** Everything fed in since init. */
    ghost var message: seq<byte>

    ghost predicate Valid()
      reads this, state, buffer
    {
      && state.Length == 5 && buffer.Length == 64 && bufferLen < 64
      && totalLenBytes == |message| % TWO_64
      && Absorb(INITIAL_HASH, message) == Absorbed(HashNow(), buffer[..bufferLen])
    }

    ghost function HashNow(): Hash
      requires state.Length == 5
      reads state
    {
      Hash(state[0], state[1], state[2], state[3], state[4])
    }

    /** dtsha1_init. */
    constructor ()
      ensures Valid() && fresh(state) && fresh(buffer) && message == []
    {
      state := new Word[5];
      buffer := new byte[64];
      totalLenBytes, bufferLen, message := 0, 0, [];
      new;
      state[0], state[1], state[2], state[3], state[4] := 0x67452301, 0xEFCDAB89, 0x98BADCFE, 0x10325476, 0xC3D2E1F0;
    }

    /** One full buffer into the state: schedule, eighty rounds, addition. */
    method ProcessBlock()
      requires state.Length == 5 && buffer.Length == 64
      modifies state
      ensures HashNow() == Compress(old(HashNow()), buffer[..])
    {
      hide Rounds, Schedule, Rotl, WordAt;
      ghost var h := HashNow();
      var w := BuildSchedule();
      var a, b, c, d, e := RunRounds(w);
      assert w[..] == Schedule(buffer[..], 80);
      state[0] := Add(state[0], a);
      state[1] := Add(state[1], b);
      state[2] := Add(state[2], c);
      state[3] := Add(state[3], d);
      state[4] := Add(state[4], e);
    }

    method BuildSchedule() returns (w: array<Word>)
      requires buffer.Length == 64
      ensures fresh(w) && w.Length == 80 && w[..] == Schedule(buffer[..], 80)
    {
      hide Schedule, Rotl, LoadBe32, FromBigEndian;
      w := new Word[80];
      ScheduleStep(buffer[..], 0);
      for t := 0 to 16
        invariant w[..t] == Schedule(buffer[..], t)
      {
        ScheduleStep(buffer[..], t);
        LoadIsBigEndian(buffer[4 * t..4 * t + 4]);
        w[t] := LoadBe32(buffer[4 * t..4 * t + 4]);
        assert buffer[..][4 * t..4 * t + 4] == buffer[4 * t..4 * t + 4];
        assert w[t] == WordAt(buffer[..], 4 * t);
        assert w[..t + 1] == w[..t] + [w[t]];
      }
      for t := 16 to 80
        invariant w[..t] == Schedule(buffer[..], t)
      {
        ScheduleStep(buffer[..], t);
        ghost var s := w[..t];
        assert s[t - 3] == w[t - 3] && s[t - 8] == w[t - 8] && s[t - 14] == w[t - 14] && s[t - 16] == w[t - 16];
        w[t] := Rotl(Xor(Xor(Xor(w[t - 3], w[t - 8]), w[t - 14]), w[t - 16]), 1);
        assert w[..t + 1] == s + [w[t]];
      }
      assert w[..80] == w[..];
    }

    method RunRounds(w: array<Word>) returns (a: Word, b: Word, c: Word, d: Word, e: Word)
      requires state.Length == 5 && w.Length == 80
      ensures Hash(a, b, c, d, e) == Rounds(w[..], 80, HashNow())
    {
      hide Rounds, Round, Rotl;
      a, b, c, d, e := state[0], state[1], state[2], state[3], state[4];
      RoundsStep(w[..], 0, HashNow());
      for t := 0 to 80
        invariant Hash(a, b, c, d, e) == Rounds(w[..], t, HashNow())
      {
        RoundsStep(w[..], t, HashNow());
        RoundInOrForms(t, w[t], Hash(a, b, c, d, e));
        var f: Word, k: Word;
        if t < 20 {
          f := Or(And(b, c), And(Not(b), d));
          k := 0x5A827999;
        } else if t < 40 {
          f := Xor(Xor(b, c), d);
          k := 0x6ED9EBA1;
        } else if t < 60 {
          f := Or(Or(And(b, c), And(b, d)), And(c, d));
          k := 0x8F1BBCDC;
        } else {
          f := Xor(Xor(b, c), d);
          k := 0xCA62C1D6;
        }
        var temp := Add(Add(Add(Add(Rotl(a, 5), f), e), k), w[t]);
        e := d;
        d := c;
        c := Rotl(b, 30);
        b := a;
        a := temp;
      }
    }

    /** dtsha1_update: any split of the input leaves the same context. */
    method Update(data: seq<byte>)
      requires Valid()
      modifies this, state, buffer
      ensures Valid() && message == old(message) + data
    {
      hide Compress, Absorb;
      ghost var m := message;
      totalLenBytes := (totalLenBytes + |data|) % TWO_64;
      AbsorbInParts(INITIAL_HASH, message, data);
      message := message + data;
      var at := 0;
      while at < |data|
        invariant at <= |data|
        invariant state.Length == 5 && buffer.Length == 64 && bufferLen < 64
        invariant message == m + data
        invariant totalLenBytes == |message| % TWO_64
        invariant Absorb(INITIAL_HASH, message) == Absorb(HashNow(), buffer[..bufferLen] + data[at..])
        decreases |data| - at
      {
        at := TakeSome(data, at);
      }
      assert buffer[..bufferLen] + data[at..] == buffer[..bufferLen];
      AbsorbShort(HashNow(), buffer[..bufferLen]);
    }

    /** One pass of the update loop: fill the buffer as far as the input goes, compress it if full. */
    method TakeSome(data: seq<byte>, at: nat) returns (next: nat)
      requires state.Length == 5 && buffer.Length == 64 && bufferLen < 64 && at < |data|
      modifies this`bufferLen, state, buffer
      ensures at < next <= |data| && bufferLen < 64
      ensures Absorb(HashNow(), buffer[..bufferLen] + data[next..]) == old(Absorb(HashNow(), buffer[..bufferLen] + data[at..]))
    {
      hide Compress, Absorb;
      var toCopy := 64 - bufferLen;
      if toCopy > |data| - at {
        toCopy := |data| - at;
      }
      ghost var was, h := buffer[..bufferLen], HashNow();
      forall i | 0 <= i < toCopy {
        buffer[bufferLen + i] := data[at + i];
      }
      bufferLen := bufferLen + toCopy;
      next := at + toCopy;
      assert buffer[..bufferLen] == was + data[at..next];
      assert was + data[at..] == buffer[..bufferLen] + data[next..];
      if bufferLen == 64 {
        ghost var all := was + data[at..];
        AbsorbNext(h, all);
        assert all[..64] == buffer[..] && all[64..] == data[next..];
        ProcessBlock();
        bufferLen := 0;
        assert buffer[..0] + data[next..] == data[next..];
      }
    }

    /** The loop of dtsha1_final that feeds zero bytes until 56 bytes are buffered, after a message
        of n bytes and the byte with its one bit. */
    method FeedZeros(ghost n: nat)
      requires Valid() && |message| == n + 1
      modifies this, state, buffer
      ensures Valid() && message == old(message) + Zeros(ZeroBytes(n))
    {
      hide Compress, Absorb, ZeroBytes;
      ghost var z := 0;
      while bufferLen != 56
        invariant Valid() && z <= ZeroBytes(n)
        invariant message == old(message) + Zeros(z)
        decreases ZeroBytes(n) - z
      {
        BufferedIsRemainder();
        ZerosStopInTime(n, z);
        ghost var was := message;
        Update([0]);
        z := z + 1;
        assert message == old(message) + Zeros(z) by {
          assert was + [0] == old(message) + (Zeros(z - 1) + [0]);
        }
      }
      BufferedIsRemainder();
      ZerosStopInTime(n, z);
    }

    lemma BufferedIsRemainder()
      requires Valid()
      ensures bufferLen == |message| % 64
    {
      AbsorbRest(INITIAL_HASH, message);
    }

    /** dtsha1_final: the padded message's digest, the standard one below 2^61 bytes. */
    method Final() returns (digest: seq<byte>)
      requires Valid()
      modifies this, state, buffer
      ensures digest == DigestWith(old(message), (8 * |old(message)|) % TWO_64)
      ensures |old(message)| < 0x2000_0000_0000_0000 ==> digest == Digest(old(message))
    {
      hide Compress, Absorb, Be64, DigestWith, DigestBytes, Digest, Zeros, ZeroBytes, StoreBe32, BigEndian;
      ghost var m := message;
      var totalBits := (totalLenBytes * 8) % TWO_64;
      BitsOfBytes(m);
      var lenBlock := StoreBe64(totalBits);
      Update(OneBit());
      FeedZeros(|m|);
      Update(lenBlock[..]);
      assert message == m + Padding(|m|, totalBits) by {
        assert m + (OneBit() + Zeros(ZeroBytes(|m|)) + Be64(totalBits))
            == m + OneBit() + Zeros(ZeroBytes(|m|)) + Be64(totalBits);
      }
      DigestFromAbsorb(m, totalBits, message);
      digest := DigestOut();
    }

    /** The five stores at the end of dtsha1_final. */
    method DigestOut() returns (digest: seq<byte>)
      requires Valid()
      ensures digest == DigestBytes(HashNow())
    {
      hide StoreBe32, BigEndian;
      forall i | 0 <= i < 5 {
        StoreIsBigEndian(state[i]);
      }
      digest := [];
      for i := 0 to 5
        invariant i == 0 ==> digest == []
        invariant i >= 1 ==> digest == BigEndian(state[0], 4)
                             + (if i >= 2 then BigEndian(state[1], 4) else [])
                             + (if i >= 3 then BigEndian(state[2], 4) else [])
                             + (if i >= 4 then BigEndian(state[3], 4) else [])
                             + (if i >= 5 then BigEndian(state[4], 4) else [])
      {
        digest := digest + StoreBe32(state[i]);
      }
    }
  }

  lemma {:induction false} WrapsAround(r: nat, q: nat)
    ensures (r + TWO_64 * q) % TWO_64 == r % TWO_64
  {
    if q > 0 {
      WrapsAround(r, q - 1);
      assert r + TWO_64 * q == (r + TWO_64 * (q - 1)) + TWO_64;
    }
  }

  /** The byte count wraps at 64 bits, and so does the bit count; below 2^61 bytes neither does. */
  lemma BitsOfBytes(m: seq<byte>)
    ensures ((|m| % TWO_64) * 8) % TWO_64 == (8 * |m|) % TWO_64
    ensures |m| < 0x2000_0000_0000_0000 ==> DigestWith(m, (8 * |m|) % TWO_64) == Digest(m)
  {
    hide DigestWith;
    var q, r := |m| / TWO_64, |m| % TWO_64;
    WrapsAround(8 * r, 8 * q);
  }

  /** The zero bytes stop exactly where the buffer holds 56 bytes. */
  lemma ZerosStopInTime(n: nat, z: nat)
    requires z <= ZeroBytes(n)
    ensures (n + 1 + z) % 64 == 56 <==> z == ZeroBytes(n)
  {
    PaddedLength(n);
    var d := ZeroBytes(n) - z;
    if (n + 1 + z) % 64 == 56 {
      assert d == 64 * ((n + 1 + ZeroBytes(n)) / 64 - (n + 1 + z) / 64);
    }
  }

  /** dtsha1_compute. */
  method Compute(data: seq<byte>) returns (digest: seq<byte>)
    ensures digest == DigestWith(data, (8 * |data|) % TWO_64)
    ensures |data| < 0x2000_0000_0000_0000 ==> digest == Digest(data)
  {
    var ctx := new Ctx();
    ctx.Update(data);
    assert [] + data == data;
    digest := ctx.Final();
  }

  function Joined(chunks: seq<seq<byte>>): seq<byte> {
    if chunks == [] then [] else Joined(chunks[..|chunks| - 1]) + chunks[|chunks| - 1]
  }

  /** However a message is cut into update calls, the digest is that of the whole. */
  method ComputeChunked(chunks: seq<seq<byte>>) returns (digest: seq<byte>)
    ensures digest == DigestWith(Joined(chunks), (8 * |Joined(chunks)|) % TWO_64)
    ensures |Joined(chunks)| < 0x2000_0000_0000_0000 ==> digest == Digest(Joined(chunks))
  {
    var ctx := new Ctx();
    for i := 0 to |chunks|
      invariant ctx.Valid() && ctx.message == Joined(chunks[..i]) && fresh(ctx) && fresh(ctx.state) && fresh(ctx.buffer)
    {
      ctx.Update(chunks[i]);
      assert chunks[..i + 1][..i] == chunks[..i];
    }
    assert chunks[..|chunks|] == chunks;
    digest := ctx.Final();
  }
}
