/** Mux frames: a kind byte, a LEB128 stream id and the payload of one tunnel message. */
module Mux {
  import opened Bits

  type StreamId = u32

  const HEADER_MAX: nat := 6

  datatype FrameKind = Open | Reply | Data | Eof | Close

  function KindByte(kind: FrameKind): byte {
    match kind
    case Open => 0
    case Reply => 1
    case Data => 2
    case Eof => 3
    case Close => 4
  }

  function KindOf(b: byte): Option<FrameKind> {
    match b
    case 0 => Some(Open)
    case 1 => Some(Reply)
    case 2 => Some(Data)
    case 3 => Some(Eof)
    case 4 => Some(Close)
    case _ => None
  }

  // ----- varints

  /** Seven bits a byte, least significant first; all bytes but the last have the high bit set. */
  function Varint(v: nat): (r: Bytes)
    ensures r != []
  {
    if v < 0x80 then [v] else [0x80 + v % 0x80] + Varint(v / 0x80)
  }

  /** What the payload bits from byte `i` on may hold of a 32-bit value. */
  function Room(i: nat): nat {
    if i == 0 then TWO32 else if i == 1 then 0x200_0000 else if i == 2 then 0x4_0000 else if i == 3 then 0x800
    else if i == 4 then 0x10 else 0
  }

  /** The value that starts at byte number `i` of an encoding, and the bytes it takes. */
  function DecodeFrom(buf: Bytes, i: nat): (r: Option<(nat, nat)>)
    ensures r.Some? ==> r.value.0 < Room(i) && 1 <= r.value.1 <= |buf| && r.value.1 + i <= 5
    decreases |buf|
  {
    if buf == [] || i >= 5 || (i == 4 && buf[0] % 0x80 > 0x0f) then None
    else if buf[0] < 0x80 then Some((buf[0], 1))
    else
      match DecodeFrom(buf[1..], i + 1)
      case None => None
      case Some((v, n)) => Some((buf[0] % 0x80 + 0x80 * v, n + 1))
  }

  function DecodedVarint(buf: Bytes): (r: Option<(u32, nat)>) {
    match DecodeFrom(buf, 0)
    case None => None
    case Some((v, n)) => Some((v, n))
  }

  lemma {:induction false} VarintLength(v: nat, i: nat)
    requires i < 5 && v < Room(i)
    ensures |Varint(v)| <= 5 - i
  {
    if v >= 0x80 {
      VarintLength(v / 0x80, i + 1);
    }
  }

  lemma {:induction false} DecodeEncoded(v: nat, i: nat, rest: Bytes)
    requires i < 5 && v < Room(i)
    ensures DecodeFrom(Varint(v) + rest, i) == Some((v, |Varint(v)|))
  {
    if v >= 0x80 {
      DecodeEncoded(v / 0x80, i + 1, rest);
      assert (Varint(v) + rest)[1..] == Varint(v / 0x80) + rest;
    }
  }

  /** Every 32-bit value comes back whatever follows it, from at most five bytes. */
  lemma VarintRoundTrip(v: u32, rest: Bytes)
    ensures DecodedVarint(Varint(v) + rest) == Some((v, |Varint(v)|)) && |Varint(v)| <= 5
  {
    DecodeEncoded(v, 0, rest);
    VarintLength(v, 0);
  }

  lemma {:induction false} DecodeExtends(buf: Bytes, more: Bytes, i: nat)
    requires DecodeFrom(buf, i).Some? || |buf| + i >= 5
    ensures DecodeFrom(buf + more, i) == DecodeFrom(buf, i)
    decreases |buf|
  {
    if buf != [] && i < 5 {
      assert (buf + more)[1..] == buf[1..] + more;
      if buf[0] >= 0x80 {
        DecodeExtends(buf[1..], more, i + 1);
      }
    }
  }

  lemma {:induction false} DecodeCompletes(buf: Bytes, i: nat)
    requires DecodeFrom(buf, i).None? && |buf| + i < 5
    ensures DecodeFrom(buf + [0], i).Some?
    decreases |buf|
  {
    if buf != [] {
      DecodeCompletes(buf[1..], i + 1);
      assert (buf + [0])[1..] == buf[1..] + [0];
    }
  }

  /**
   Bytes that decode keep their meaning however the buffer grows, and bytes that do not decode can
   still become an encoding exactly while there are fewer than five of them.
   */
  lemma VarintIsPrefixStable(buf: Bytes)
    ensures DecodedVarint(buf).Some? ==> forall more :: DecodedVarint(buf + more) == DecodedVarint(buf)
    ensures DecodedVarint(buf).None? ==> ((exists more :: DecodedVarint(buf + more).Some?) <==> |buf| < 5)
  {
    forall more: Bytes | DecodedVarint(buf).Some? || |buf| >= 5 ensures DecodedVarint(buf + more) == DecodedVarint(buf) {
      DecodeExtends(buf, more, 0);
    }
    if DecodedVarint(buf).None? && |buf| < 5 {
      DecodeCompletes(buf, 0);
      assert DecodedVarint(buf + [0]).Some?;
    }
  }

  lemma {:induction false} DecodedForm(buf: Bytes, i: nat)
    requires DecodeFrom(buf, i).Some?
    ensures var (v, n) := DecodeFrom(buf, i).value;
      buf[..n] == Varint(v) <==> n == 1 || buf[n - 1] != 0
    ensures var (v, n) := DecodeFrom(buf, i).value; n > 1 && v == 0 ==> buf[n - 1] == 0
    decreases |buf|
  {
    if buf[0] >= 0x80 {
      DecodedForm(buf[1..], i + 1);
      var (w, m) := DecodeFrom(buf[1..], i + 1).value;
      var v := buf[0] % 0x80 + 0x80 * w;
      assert buf[..m + 1] == [buf[0]] + buf[1..][..m];
      if w > 0 {
        assert Varint(v) == [buf[0]] + Varint(w);
        assert Varint(v)[1..] == Varint(w);
      } else {
        assert buf[1..][m - 1] == 0;
        assert |Varint(v)| == 1;
      }
    }
  }

  /** The decoder also takes padded encodings: what it read is the encoding of the value unless the last of several bytes is zero. */
  lemma OverlongAccepted(buf: Bytes)
    requires DecodedVarint(buf).Some?
    ensures var (v, n) := DecodedVarint(buf).value; buf[..n] == Varint(v) <==> n == 1 || buf[n - 1] != 0
  {
    DecodedForm(buf, 0);
  }

  /** Writes the encoding at `at`; the buffer has room for five bytes there. */
  method EncodeVarint(value: u32, out: array<byte>, at: nat) returns (n: nat)
    requires at + 5 <= out.Length
    modifies out
    ensures 1 <= n <= 5 && out[at..at + n] == Varint(value)
    ensures forall k :: 0 <= k < at || at + n <= k < out.Length ==> out[k] == old(out[k])
  {
    hide Varint;
    VarintLength(value, 0);
    var v: nat := value;
    ghost var done: Bytes := [];
    n := 0;
    while v >= 0x80
      invariant n + |Varint(v)| <= 5 && |done| == n
      invariant done + Varint(v) == Varint(value)
      invariant out[at..at + n] == done
      invariant forall k :: 0 <= k < at || at + n <= k < out.Length ==> out[k] == old(out[k])
      decreases v
    {
      VarintFirst(v);
      done := done + [0x80 + v % 0x80];
      out[at + n] := 0x80 + v % 0x80;
      n := n + 1;
      v := v / 0x80;
    }
    VarintFirst(v);
    out[at + n] := v;
    n := n + 1;
  }

  lemma VarintFirst(v: nat)
    ensures Varint(v) == if v < 0x80 then [v] else [0x80 + v % 0x80] + Varint(v / 0x80)
    ensures |Varint(v)| >= 1
  {
  }

  function Pow128(i: nat): (p: nat)
    ensures p > 0
  {
    if i == 0 then 1 else 0x80 * Pow128(i - 1)
  }

  /** The accumulated low bits put back under what the rest decodes to. */
  function Shifted(low: nat, i: nat, rest: Option<(nat, nat)>): Option<(nat, nat)> {
    match rest
    case None => None
    case Some((v, n)) => Some((low + Pow128(i) * v, i + n))
  }

  /** What the next byte does to the value accumulated so far. */
  lemma DecodeFirst(low: nat, i: nat, buf: Bytes)
    requires buf != [] && i < 5
    ensures var b, whole := buf[0] % 0x80, Shifted(low, i, DecodeFrom(buf, i));
      if i == 4 && b > 0x0f then whole == None
      else if buf[0] < 0x80 then whole == Some((low + Pow128(i) * b, i + 1))
      else whole == Shifted(low + Pow128(i) * b, i + 1, DecodeFrom(buf[1..], i + 1))
  {
    match DecodeFrom(buf[1..], i + 1)
    case None =>
    case Some((v, _)) => ScaleStep(Pow128(i), buf[0] % 0x80, v);
  }

  lemma ScaleStep(p: nat, b: nat, v: nat)
    ensures p * (b + 0x80 * v) == p * b + (0x80 * p) * v
  {
  }

  method DecodeVarint(buf: Bytes) returns (r: Option<(u32, nat)>)
    ensures r == DecodedVarint(buf)
  {
    hide DecodeFrom, Pow128;
    assert Shifted(0, 0, DecodeFrom(buf[0..], 0)) == DecodeFrom(buf, 0) by { assert buf[0..] == buf; ShiftNothing(DecodeFrom(buf, 0)); }
    var v: nat := 0;
    var i := 0;
    while i < |buf| && i < 5
      invariant i <= |buf| && i <= 5
      invariant Shifted(v, i, DecodeFrom(buf[i..], i)) == DecodeFrom(buf, 0)
    {
      ghost var rest := buf[i..];
      var bits := buf[i] % 0x80;
      DecodeFirst(v, i, rest);
      if i == 4 && bits > 0x0f {
        return None;
      }
      if buf[i] < 0x80 {
        return Some((v + Pow128(i) * bits, i + 1));
      }
      assert rest[1..] == buf[i + 1..];
      // The bits below are all there is so far, so `|` adds.
      v := v + Pow128(i) * bits;
      i := i + 1;
    }
    DecodeNothing(buf[i..], i);
    return None;
  }

  lemma ShiftNothing(r: Option<(nat, nat)>)
    ensures Shifted(0, 0, r) == r
  {
  }

  lemma DecodeNothing(buf: Bytes, i: nat)
    requires buf == [] || i >= 5
    ensures DecodeFrom(buf, i) == None
  {
  }

  // ----- frames

  function HeaderBytes(kind: FrameKind, id: StreamId): (r: Bytes)
    ensures r != []
  {
    [KindByte(kind)] + Varint(id)
  }

  datatype Parsed =
    | Frame(kind: FrameKind, id: StreamId, payload: Bytes)
    | Empty
    | TruncatedStreamId
    | UnknownKind(b: byte)

  function Parse(msg: Bytes): Parsed {
    if msg == [] then Empty
    else if KindOf(msg[0]).None? then UnknownKind(msg[0])
    else
      match DecodedVarint(msg[1..])
      case None => TruncatedStreamId
      case Some((id, n)) => Frame(KindOf(msg[0]).value, id, msg[1 + n..])
  }

  /** A frame comes back from its message, every kind, id and payload. */
  lemma FrameRoundTrip(kind: FrameKind, id: StreamId, payload: Bytes)
    ensures Parse(HeaderBytes(kind, id) + payload) == Frame(kind, id, payload)
  {
    var msg := HeaderBytes(kind, id) + payload;
    VarintRoundTrip(id, payload);
    assert msg[1..] == Varint(id) + payload;
    assert msg[1 + |Varint(id)|..] == payload;
  }

  class FrameHeader {
    const buf: array<byte>
    const len: nat

    constructor (kind: FrameKind, id: StreamId)
      ensures fresh(buf) && len <= buf.Length == HEADER_MAX && buf[..len] == HeaderBytes(kind, id)
    {
      var b := new byte[6](_ => 0);
      b[0] := KindByte(kind);
      var n := EncodeVarint(id, b, 1);
      assert b[..1 + n] == [KindByte(kind)] + b[1..1 + n] by { assert b[..1] == [KindByte(kind)]; }
      buf, len := b, 1 + n;
    }
  }
}
