/** The holding-register map both Modbus ends talk through, and the requests that touch it.
    The named constants live in a submodule of the repository that is not part of this model;
    the proofs use only that the commands differ, that the statuses differ, and that the areas
    follow each other as laid out here. */
module ModbusRegisters {
  import opened Bytes

  const CMD_NONE: word := 0
  const CMD_PUT_BLOB: word := 1
  const CMD_GIVE_ME_ANY_DATA: word := 2
  const STATUS_NO_DATA: word := 0
  const STATUS_HAS_DATA: word := 1

  /** Limits: `maxBytes` is the compiled-in blob maximum, the next two are each end's configuration.
      `markAll` tells the RTU master, which raises dead_slave_pending on any failed poll call, from
      the TCP master, which raises it on the first call only. */
  datatype Limits = Limits(maxBytes: nat, slaveBlob: nat, masterBlob: nat, markAll: bool)

  /** What `configure` on each end guarantees of its limit. */
  predicate Configured(c: Limits) {
    && 0 < c.slaveBlob <= c.maxBytes
    && 0 < c.masterBlob <= c.maxBytes
    && c.maxBytes < 0x1_0000
  }

  function RegsFor(n: nat): nat {
    (n + 1) / 2
  }

  const M2S_CMD: nat := 0
  const M2S_LEN: nat := 1
  const M2S_DATA: nat := 2

  function S2mStatus(c: Limits): nat { M2S_DATA + RegsFor(c.maxBytes) }
  function S2mLen(c: Limits): nat { S2mStatus(c) + 1 }
  function S2mData(c: Limits): nat { S2mLen(c) + 1 }

  /** "+1 for safety", as the slave allocates it. */
  function MapSize(c: Limits): nat { S2mData(c) + RegsFor(c.maxBytes) + 1 }

  // ---- packing bytes into registers ----------------------------------------------------

  function Pack(b: seq<byte>): (r: seq<word>)
    ensures |r| == RegsFor(|b|)
  {
    if |b| == 0 then []
    else if |b| == 1 then [b[0] as int * 0x100]
    else [b[0] as int * 0x100 + b[1] as int] + Pack(b[2..])
  }

  function Unpack(r: seq<word>, n: nat): (b: seq<byte>)
    requires RegsFor(n) <= |r|
    ensures |b| == n
  {
    if n == 0 then []
    else if n == 1 then [r[0] / 0x100]
    else [r[0] / 0x100, r[0] % 0x100] + Unpack(r[1..], n - 2)
  }

  /** Unpacking any leading part of a packed blob gives that part, whatever follows in the registers. */
  lemma {:induction false} UnpackPack(b: seq<byte>, rest: seq<word>, n: nat)
    requires n <= |b|
    ensures RegsFor(n) <= |Pack(b) + rest|
    ensures Unpack(Pack(b) + rest, n) == b[..n]
  {
    if n == 1 && |b| >= 2 {
      assert (Pack(b) + rest)[0] == b[0] as int * 0x100 + b[1] as int;
    } else if n >= 2 {
      UnpackPack(b[2..], rest, n - 2);
      assert (Pack(b) + rest)[1..] == Pack(b[2..]) + rest;
      assert b[..n] == [b[0], b[1]] + b[2..][..n - 2];
    }
  }

  /** Only the registers that hold the bytes matter. */
  lemma {:induction false} UnpackPrefix(r: seq<word>, n: nat, m: nat)
    requires RegsFor(n) <= m <= |r|
    ensures Unpack(r[..m], n) == Unpack(r, n)
  {
    if n >= 2 {
      UnpackPrefix(r[1..], n - 2, m - 1);
      assert r[..m][1..] == r[1..][..m - 1];
    }
  }

  lemma {:induction false} UnpackTrunc(r: seq<word>, n: nat, m: nat)
    requires m <= n && RegsFor(n) <= |r|
    ensures RegsFor(m) <= |r|
    ensures Unpack(r, m) == Unpack(r, n)[..m]
  {
    if m >= 2 {
      UnpackTrunc(r[1..], n - 2, m - 2);
    }
  }

  /** The two header cells followed by the packed blob, as both write paths lay them out. */
  function Framed(first: word, blob: seq<byte>): (r: seq<word>)
    requires |blob| < 0x1_0000
    ensures |r| == 2 + RegsFor(|blob|) && r[0] == first && r[1] == |blob| && r[2..] == Pack(blob)
  {
    [first, |blob|] + Pack(blob)
  }

  // ---- register access -----------------------------------------------------------------

  function Poke(tab: seq<word>, at: nat, vals: seq<word>): (t: seq<word>)
    requires at + |vals| <= |tab|
    ensures |t| == |tab|
    ensures t[at..at + |vals|] == vals
    ensures forall i | 0 <= i < |tab| && !(at <= i < at + |vals|) :: t[i] == tab[i]
  {
    tab[..at] + vals + tab[at + |vals|..]
  }

  lemma PokeParts(tab: seq<word>, k: nat, f: seq<word>)
    requires |f| >= 2 && k + |f| <= |tab|
    ensures var t := Poke(tab, k, f);
            t[k] == f[0] && t[k + 1] == f[1] && t[..k] == tab[..k] && t[k + 2..] == f[2..] + tab[k + |f|..]
  {
    var t := Poke(tab, k, f);
    assert t == tab[..k] + (f + tab[k + |f|..]);
    assert t[k + 2..] == (f + tab[k + |f|..])[2..];
  }

  lemma PokeFramed(tab: seq<word>, k: nat, first: word, blob: seq<byte>)
    requires |blob| < 0x1_0000 && k + 2 + RegsFor(|blob|) <= |tab|
    ensures var t := Poke(tab, k, Framed(first, blob));
            && t[k] == first && t[k + 1] == |blob| && t[..k] == tab[..k]
            && t[k + 2..] == Pack(blob) + tab[k + 2 + RegsFor(|blob|)..]
  {
    hide Pack, Framed, RegsFor, Poke;
    PokeParts(tab, k, Framed(first, blob));
  }

  datatype Request = WriteRegs(at: nat, vals: seq<word>) | ReadRegs(at: nat, count: nat)
  datatype Response = Wrote(count: nat) | Values(vals: seq<word>) | Refused

  function RequestFits(tab: seq<word>, r: Request): bool {
    match r
    case WriteRegs(at, vals) => at + |vals| <= |tab|
    case ReadRegs(at, count) => at + count <= |tab|
  }

  /** modbus_reply: apply the request to the map and answer, in one step. */
  function Served(tab: seq<word>, r: Request): (t: seq<word>)
    ensures |t| == |tab|
  {
    if RequestFits(tab, r) && r.WriteRegs? then Poke(tab, r.at, r.vals) else tab
  }

  function Answer(tab: seq<word>, r: Request): Response {
    if !RequestFits(tab, r) then Refused
    else match r
      case WriteRegs(_, vals) => Wrote(|vals|)
      case ReadRegs(at, count) => Values(tab[at..at + count])
  }

  // ---- the four requests a master ever makes --------------------------------------------

  const POLL_REQUEST: Request := WriteRegs(M2S_CMD, [CMD_GIVE_ME_ANY_DATA, 0])

  function HeaderRequest(c: Limits): Request { ReadRegs(S2mStatus(c), 2) }

  function PayloadRequest(c: Limits, n: nat): Request { ReadRegs(S2mData(c), RegsFor(n)) }

  function PutRequest(c: Limits, blob: seq<byte>): Request
    requires |blob| < 0x1_0000
  {
    WriteRegs(M2S_CMD, Framed(CMD_PUT_BLOB, blob))
  }
}
