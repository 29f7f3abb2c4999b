/** How a publish request travels through the buffer queue: topic, NUL, payload in one buffer. */
module CoapPubwork {
  import opened Bytes

  datatype Msg = Msg(topic: seq<byte>, data: seq<byte>)
  datatype Decoded = Decoded(msg: Msg) | BadArgument

  /** A topic is a C string, so it has no NUL of its own. */
  predicate IsCString(s: seq<byte>) {
    0 !in s
  }

  function Enbuf(m: Msg): seq<byte> {
    m.topic + [0] + m.data
  }

  /** strlen on the bytes: the index of the first NUL, or the length if there is none. */
  function StrLen(s: seq<byte>): (n: nat)
    ensures n <= |s| && 0 !in s[..n] && (n < |s| ==> s[n] == 0)
  {
    if s == [] || s[0] == 0 then 0
    else
      var n := StrLen(s[1..]);
      assert s[..n + 1] == [s[0]] + s[1..][..n];
      n + 1
  }

  lemma {:induction false} FirstNul(s: seq<byte>, n: nat)
    requires n <= |s| && 0 !in s[..n] && (n < |s| ==> s[n] == 0)
    ensures StrLen(s) == n
  {
    if n > 0 {
      assert s[0] == s[..n][0];
      assert s[1..][..n - 1] == s[..n][1..];
      FirstNul(s[1..], n - 1);
    }
  }

  /** `debuf` refuses a buffer shorter than two bytes; the topic must be terminated inside it. */
  function Debuf(buf: seq<byte>): Decoded {
    if |buf| < 2 then BadArgument
    else
      var n := StrLen(buf);
      if n == |buf| then BadArgument else Decoded(Msg(buf[..n], buf[n + 1..]))
  }

  /** Decoding undoes encoding exactly when topic and payload are not both empty. */
  lemma RoundTripIff(m: Msg)
    requires IsCString(m.topic)
    ensures Debuf(Enbuf(m)) == Decoded(m) <==> m.topic != [] || m.data != []
    ensures Debuf(Enbuf(m)).BadArgument? <==> m.topic == [] && m.data == []
  {
    var buf, k := Enbuf(m), |m.topic|;
    assert buf[..k] == m.topic && buf[k + 1..] == m.data;
    FirstNul(buf, k);
  }

  /** dtnetportal_coap__pubwork_enbuf into a fresh buffer. */
  method EncodeInto(topic: seq<byte>, data: seq<byte>) returns (payload: array<byte>)
    requires IsCString(topic)
    ensures fresh(payload) && payload[..] == Enbuf(Msg(topic, data))
  {
    var topicLen := |topic| + 1;
    payload := new byte[topicLen + |data|];
    forall i | 0 <= i < |topic| {
      payload[i] := topic[i];
    }
    payload[|topic|] := 0;
    forall i | 0 <= i < |data| {
      payload[topicLen + i] := data[i];
    }
    assert payload[..] == topic + [0] + data;
  }

  /** dtnetportal_coap__pubwork_debuf: the scan strlen makes, then the split. */
  method DecodeFrom(payload: array<byte>) returns (r: Decoded)
    ensures r == Debuf(payload[..])
  {
    if payload.Length < 2 {
      return BadArgument;
    }
    var n := 0;
    while n < payload.Length && payload[n] != 0
      invariant n <= payload.Length && 0 !in payload[..n]
    {
      n := n + 1;
    }
    assert payload[..][..n] == payload[..n];
    FirstNul(payload[..], n);
    if n == payload.Length {
      return BadArgument;
    }
    return Decoded(Msg(payload[..n], payload[n + 1..]));
  }
}
