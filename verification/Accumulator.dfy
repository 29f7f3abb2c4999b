/** The HTTP client's body accumulator: a byte buffer grown by doubling within int32. */
module Accumulator {
  import opened Bytes

  const INT32_MAX: int := 0x7fff_ffff

  /** Arithmetic on this type is checked to stay inside int32. */
  newtype int32 = x: int | -0x8000_0000 <= x <= 0x7fff_ffff

  const INITIAL_CAPACITY: int32 := 4096
  const HALF_MAX: int32 := 0x3fff_ffff

  /** A capacity reached by doubling from 4096; the last one, 2^30, cannot be doubled again. */
  predicate Doubled(c: int)
    decreases c
  {
    c == 4096 || (c > 4096 && c % 2 == 0 && Doubled(c / 2))
  }

  /** Two doubled capacities within a factor of two of each other are equal. */
  lemma {:induction false} DoubledApart(c: int, m: int)
    requires Doubled(c) && Doubled(m) && c < 2 * m
    ensures c <= m
    decreases c
  {
    if c > 4096 && m > 4096 {
      DoubledApart(c / 2, m / 2);
    }
  }

  lemma TwoToThirtyIsDoubled()
    ensures Doubled(0x4000_0000)
  {
    assert Doubled(0x2000) && Doubled(0x4000) && Doubled(0x8000) && Doubled(0x1_0000) && Doubled(0x2_0000)
        && Doubled(0x4_0000) && Doubled(0x8_0000) && Doubled(0x10_0000) && Doubled(0x20_0000) && Doubled(0x40_0000)
        && Doubled(0x80_0000) && Doubled(0x100_0000) && Doubled(0x200_0000) && Doubled(0x400_0000)
        && Doubled(0x800_0000) && Doubled(0x1000_0000) && Doubled(0x2000_0000);
  }

  lemma DoubledAgain(c: int)
    requires Doubled(c) && c <= INT32_MAX
    ensures c <= 0x4000_0000 && Doubled(2 * c)
  {
    TwoToThirtyIsDoubled();
    DoubledApart(c, 0x4000_0000);
  }

  /** Where doubling `c` stops: at or above what is required, or exactly there once doubling again
      would pass INT32_MAX. */
  function Grown(c: int, required: int): (g: int)
    requires 0 < c
    ensures required <= g
    decreases required - c
  {
    if c >= required then c else if c > INT32_MAX / 2 then required else Grown(2 * c, required)
  }

  lemma {:induction false} GrownBounds(c: int, required: int)
    requires 0 < c <= INT32_MAX && required <= INT32_MAX
    ensures c <= Grown(c, required) <= INT32_MAX
    ensures Grown(c, required) == c || Grown(c, required) < 2 * required
    ensures Doubled(c) ==>
              if required <= 0x4000_0000
              then Doubled(Grown(c, required)) && (c < required ==> Grown(c, required) >= 2 * c)
              else Grown(c, required) == required
    decreases required - c
  {
    if Doubled(c) {
      DoubledAgain(c);
    }
    hide Doubled;
    if c < required && c <= INT32_MAX / 2 {
      GrownBounds(2 * c, required);
    }
  }

  // ---- a whole transfer, as values ------------------------------------------------------------

  /** `moved` counts the bytes realloc has copied. */
  datatype Acc = Acc(contents: seq<byte>, capacity: int, moved: nat)

  datatype Call = Call(data: seq<byte>, allocates: bool)

  function Capacity(a: Acc, required: int): int
    requires a.capacity >= 0
  {
    if required <= a.capacity then a.capacity else Grown(if a.capacity == 0 then 4096 else a.capacity, required)
  }

  /** Whether one append succeeds; `allocates` is how a needed realloc ends. */
  predicate Succeeds(a: Acc, c: Call) {
    || c.data == []
    || (|a.contents| + |c.data| <= INT32_MAX && (|a.contents| + |c.data| <= a.capacity || c.allocates))
  }

  function Appended(a: Acc, c: Call): (r: Acc)
    requires a.capacity >= 0
    ensures r.capacity >= 0
  {
    if c.data == [] || !Succeeds(a, c) then a
    else
      var required := |a.contents| + |c.data|;
      Acc(a.contents + c.data, Capacity(a, required), a.moved + if required > a.capacity then |a.contents| else 0)
  }

  function Run(cs: seq<Call>): (r: Acc)
    ensures r.capacity >= 0
  {
    if cs == [] then Acc([], 0, 0) else Appended(Run(cs[..|cs| - 1]), cs[|cs| - 1])
  }

  function Chunks(cs: seq<Call>): seq<seq<byte>> {
    if cs == [] then []
    else
      var pre, c := cs[..|cs| - 1], cs[|cs| - 1];
      Chunks(pre) + if Succeeds(Run(pre), c) then [c.data] else []
  }

  /** The buffer always fits, never exceeds twice its use (4096 at least), and up to 2^30 bytes of
      body the capacity is a doubled one that all copying so far fits below. One byte more costs at
      most one more copy of all of them. */
  predicate Frugal(a: Acc) {
    && |a.contents| <= a.capacity <= INT32_MAX
    && (a.capacity == 0 <==> a.contents == []) && (a.capacity == 0 ==> a.moved == 0)
    && a.capacity <= Max(4096, 2 * |a.contents|)
    && (0 < |a.contents| <= 0x4000_0000 ==> Doubled(a.capacity) && a.moved <= a.capacity - 4096)
    && (|a.contents| == 0x4000_0001 ==> a.moved <= 0x8000_0000 - 4096)
  }

  lemma AppendKeepsFrugal(a: Acc, c: Call)
    requires Frugal(a)
    ensures Frugal(Appended(a, c))
  {
    var required := |a.contents| + |c.data|;
    if c.data != [] && Succeeds(a, c) && required > a.capacity {
      GrownBounds(if a.capacity == 0 then 4096 else a.capacity, required);
    }
    if 0 < |a.contents| <= 0x4000_0000 {
      DoubledAgain(a.capacity);
    }
    hide Doubled, Grown;
  }

  /** After any transfer: the body is the concatenation of the chunks taken, nothing left int32, and
      while it is at most 2^30 + 1 bytes the copying cost less than twice its length. */
  lemma {:induction false} TransferBounds(cs: seq<Call>)
    ensures var a := Run(cs);
            && a.contents == Flatten(Chunks(cs))
            && |a.contents| <= a.capacity <= INT32_MAX
            && a.capacity <= Max(4096, 2 * |a.contents|)
            && (0 < |a.contents| <= 0x4000_0001 ==> a.moved < 2 * |a.contents|)
            && Frugal(a)
  {
    if cs != [] {
      var pre, c := cs[..|cs| - 1], cs[|cs| - 1];
      TransferBounds(pre);
      AppendKeepsFrugal(Run(pre), c);
      if Succeeds(Run(pre), c) {
        FlattenSnoc(Chunks(pre), c.data);
      } else {
        assert Chunks(cs) == Chunks(pre);
      }
    }
  }

  // ---- where the copying bound ends -------------------------------------------------------------

  function Fill(n: nat): (z: seq<byte>)
    ensures |z| == n
  {
    seq(n, _ => 0)
  }

  /** 4096 bytes, as many as make 2^30 with them, and then k single bytes. */
  function Trickle(k: nat): seq<Call> {
    if k == 0 then [Call(Fill(4096), true), Call(Fill(0x4000_0000 - 4096), true)]
    else Trickle(k - 1) + [Call(Fill(1), true)]
  }

  lemma RunSnoc(cs: seq<Call>, c: Call)
    ensures Run(cs + [c]) == Appended(Run(cs), c) && Run([]) == Acc([], 0, 0)
  {
    assert (cs + [c])[..|cs|] == cs;
  }

  lemma FirstGiB()
    ensures var a := Run(Trickle(0)); |a.contents| == a.capacity == 0x4000_0000 && a.moved == 4096
  {
    var c, d := Call(Fill(4096), true), Call(Fill(0x4000_0000 - 4096), true);
    assert Trickle(0) == ([] + [c]) + [d];
    RunSnoc([], c);
    RunSnoc([] + [c], d);
    assert Doubled(4096);
    GrownBounds(4096, 0x4000_0000);
    DoubledAgain(Grown(4096, 0x4000_0000));
    hide Run, Trickle, Doubled, Fill;
    assert Grown(4096, 4096) == 4096;
  }

  /** From there on the buffer is always full, and every byte makes realloc copy all of it. */
  lemma {:induction false} TrickleCopies(k: nat)
    requires 0x4000_0000 + k <= INT32_MAX
    ensures var a := Run(Trickle(k));
            |a.contents| == a.capacity == 0x4000_0000 + k && a.moved >= 4096 + 0x4000_0000 * k
  {
    if k == 0 {
      FirstGiB();
    } else {
      TrickleCopies(k - 1);
      var c := Call(Fill(1), true);
      RunSnoc(Trickle(k - 1), c);
      hide Run, Fill;
      assert Grown(0x4000_0000 + k - 1, 0x4000_0000 + k) == 0x4000_0000 + k;
    }
  }

  /** A body of n bytes costs less than 2n bytes of copying, however it arrives, exactly while it is
      at most 2^30 + 1 bytes long. */
  lemma {:induction false} CopyingBoundIff(n: nat)
    requires 0 < n <= INT32_MAX
    ensures (forall cs | |Run(cs).contents| == n :: Run(cs).moved < 2 * n) <==> n <= 0x4000_0001
  {
    if n <= 0x4000_0001 {
      forall cs | |Run(cs).contents| == n ensures Run(cs).moved < 2 * n {
        TransferBounds(cs);
      }
    } else {
      TrickleCopies(n - 0x4000_0000);
      assert |Run(Trickle(n - 0x4000_0000)).contents| == n;
    }
  }

  // ---- what is taken ----------------------------------------------------------------------------

  /** All the bytes the calls are given. */
  function Given(cs: seq<Call>): seq<byte> {
    if cs == [] then [] else Given(cs[..|cs| - 1]) + cs[|cs| - 1].data
  }

  /** If memory suffices, a body of up to INT32_MAX bytes is taken whole, whatever its chunks. */
  lemma {:induction false} TransferTakesAll(cs: seq<Call>)
    requires (forall i | 0 <= i < |cs| :: cs[i].allocates) && |Given(cs)| <= INT32_MAX
    ensures Run(cs).contents == Given(cs)
  {
    if cs != [] {
      TransferTakesAll(cs[..|cs| - 1]);
    }
  }

  /** A chunk is refused, and nothing changed, exactly if it would pass INT32_MAX or needs memory that
      is not to be had. */
  lemma {:induction false} RefusedIff(cs: seq<Call>, c: Call)
    requires c.data != []
    ensures var a := Run(cs);
            if |a.contents| + |c.data| <= INT32_MAX && (|a.contents| + |c.data| <= a.capacity || c.allocates)
            then Run(cs + [c]).contents == a.contents + c.data
            else Run(cs + [c]) == a
  {
    RunSnoc(cs, c);
    hide Run, Grown;
  }

  // ---- the object ---------------------------------------------------------------------------------

  method GrownCapacity(capacity: int32, required: int32) returns (c: int32)
    requires 0 <= capacity < required
    ensures c as int == Grown(if capacity == 0 then 4096 else capacity as int, required as int)
  {
    c := if capacity == 0 then INITIAL_CAPACITY else capacity;
    while c < required
      invariant 0 < c
      invariant Grown(c as int, required as int) == Grown(if capacity == 0 then 4096 else capacity as int, required as int)
      decreases required as int - c as int
    {
      if c > HALF_MAX {
        c := required;
        break;
      }
      c := c * 2;
    }
  }

  class Accumulator {
    var bytes: array<byte>
    var length: int32
    var capacity: int32
    var failed: bool
    ghost var moved: nat

    ghost predicate Valid()
      reads this
    {
      0 <= length <= capacity && bytes.Length == capacity as int
    }

    ghost function Abs(): Acc
      requires Valid()
      reads this, bytes
    {
      Acc(bytes[..length], capacity as int, moved)
    }

    constructor ()
      ensures Valid() && Abs() == Run([]) && !failed
    {
      bytes := new byte[0];
      length, capacity, failed := 0, 0, false;
      moved := 0;
    }

    method Accumulate(data: seq<byte>, allocates: bool) returns (ok: bool)
      requires Valid() && |data| <= INT32_MAX
      modifies this, bytes
      ensures Valid() && fresh({bytes} - {old(bytes)})
      ensures Abs() == Appended(old(Abs()), Call(data, allocates))
      ensures ok <==> Succeeds(old(Abs()), Call(data, allocates))
      ensures failed == old(failed)
    {
      var len := |data| as int32;
      if len == 0 {
        return true;
      }
      if length > 0x7fff_ffff - len {
        return false;
      }
      var required := length + len;
      if required > capacity {
        var newCapacity := GrownCapacity(capacity, required);
        if !allocates {
          return false;
        }
        var newBytes := new byte[newCapacity];
        CopyPrefix(newBytes, bytes, length as int);
        moved := moved + length as int;
        bytes := newBytes;
        capacity := newCapacity;
      }
      Append(bytes, length as int, data);
      length := length + len;
      return true;
    }

    /** The libcurl write callback: any result but the byte count it was given aborts the transfer. */
    method WriteBody(data: seq<byte>, allocates: bool) returns (taken: nat)
      requires Valid()
      modifies this, bytes
      ensures Valid() && fresh({bytes} - {old(bytes)})
      ensures if |data| <= INT32_MAX && Succeeds(old(Abs()), Call(data, allocates))
              then taken == |data| && failed == old(failed) && Abs() == Appended(old(Abs()), Call(data, allocates))
              else taken == 0 && failed && Abs() == old(Abs())
    {
      if |data| > INT32_MAX {
        failed := true;
        return 0;
      }
      var ok := Accumulate(data, allocates);
      if !ok {
        failed := true;
        return 0;
      }
      return |data|;
    }
  }

  function Max(a: int, b: int): int {
    if a >= b then a else b
  }

  method CopyPrefix(to: array<byte>, from: array<byte>, n: nat)
    requires n <= to.Length && n <= from.Length && to != from
    modifies to
    ensures to[..n] == from[..n]
  {
    forall i | 0 <= i < n {
      to[i] := from[i];
    }
  }

  method Append(to: array<byte>, at: nat, data: seq<byte>)
    requires at + |data| <= to.Length
    modifies to
    ensures to[..at + |data|] == old(to[..at]) + data
  {
    forall i | 0 <= i < |data| {
      to[at + i] := data[i];
    }
  }
}
