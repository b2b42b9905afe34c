/** The stateful base94 framer: first-frame flags per direction over the pure codec. */
module Framer {
  import opened Bits
  import opened Errors
  import opened Limits
  import opened Base94
  import Ssea
  import Checksum

  /** What a blocking read leaves behind: its result and how many stream bytes it took. */
  datatype Read<+T> = Read(result: Result<T>, taken: nat)

  /** Reading one frame off a stream; running out of bytes is an I/O error that took them all. */
  function ReadFrame(p: Obfuscation, first: bool, stream: Bytes): (r: Read<Bytes>)
    ensures r.taken <= |stream|
  {
    var hs := HeaderSize(first);
    if |stream| < hs then Read(Err(Io), |stream|)
    else
      match DecodeHeader(p, first, stream[..hs])
      case Err(e) => Read(Err(e), hs)
      case Ok(length) =>
        if length > BASE94_MAX_FRAME then Read(Err(FrameTooLarge), hs)
        else if |stream| < hs + length then Read(Err(Io), |stream|)
        else Read(Decode(stream[hs..hs + length], p.kf), hs + length)
  }

  /** Streaming and in-memory decoding agree on every complete packet, honest or not. */
  lemma ReadIsDecode(p: Obfuscation, first: bool, packet: Bytes)
    ensures DecodePacket(p, first, packet).Ok? <==>
            ReadFrame(p, first, packet).result.Ok? && ReadFrame(p, first, packet).taken == |packet|
    ensures DecodePacket(p, first, packet).Ok? ==>
            && ReadFrame(p, first, packet).result == DecodePacket(p, first, packet)
            && PeekFrameLen(p, first, packet) == Ok(Some(|packet|))
  {
    var hs := HeaderSize(first);
    if |packet| >= hs && DecodeHeader(p, first, packet[..hs]).Ok? {
      var length := DecodeHeader(p, first, packet[..hs]).value;
      if hs + length == |packet| {
        assert packet[hs..hs + length] == packet[hs..];
      }
    }
  }

  /** A read takes nothing beyond the first frame of the stream. */
  lemma ReadFront(p: Obfuscation, first: bool, frame: Bytes, rest: Bytes)
    requires DecodePacket(p, first, frame).Ok?
    ensures ReadFrame(p, first, frame + rest) == Read(DecodePacket(p, first, frame), |frame|)
  {
    var hs := HeaderSize(first);
    assert (frame + rest)[..hs] == frame[..hs];
    assert (frame + rest)[hs..|frame|] == frame[hs..];
  }

  class Base94Framer {
    const p: Obfuscation
    var txFirst: bool
    var rxFirst: bool

    constructor (kf: u32)
      ensures p == Derive(kf) && txFirst && rxFirst
    {
      p := Derive(kf);
      txFirst, rxFirst := true, true;
    }

    method EncodeHeader(length: nat, draw: Draw) returns (h: Bytes)
      requires draw.Valid() && 1 <= length <= BASE94_MAX_FRAME
      modifies this`txFirst
      ensures h == Header(p, old(txFirst), length, draw)
      ensures !txFirst
    {
      var n := (length + p.kfMod) % p.modulus;
      var digits := DecimalEncode(n);
      PadDigits(n);
      var a := new byte[HEADER_EXTENDED](_ => 0x20);
      CopyInto(a, HEADER_SIMPLE - |digits|, digits);
      assert a[1..4] == Digits3(n);
      var k := draw.k;
      if a[1] == 0x20 {
        // Filler position: the seed byte must be even.
        if k % 2 != 0 { k := k + 1; }
        a[1] := draw.filler;
      } else if k % 2 == 0 {
        k := k + 1;
        if k > 0x7e { k := 0x21; }
      }
      a[0] := k;
      a[2], a[3] := a[3], a[2];
      assert a[..HEADER_SIMPLE] == SimpleHeader(p, length, draw);
      h := a[..HEADER_SIMPLE];
      if txFirst {
        var c := EncodeCheck(h, length);
        h := h + c;
        txFirst := false;
      }
    }

    method EncodeCheck(h: Bytes, length: nat) returns (c: Bytes)
      ensures c == CheckDigits(p, CheckValue(h, length))
    {
      var chk := Checksum.ComputeInetChecksum(h);
      var cn := (Xor(chk, length) + p.kfMod) % p.modulus;
      var digits := DecimalEncode(cn);
      PadDigits(cn);
      var a := new byte[3](_ => 0x20);
      CopyInto(a, 3 - |digits|, digits);
      assert a[..] == Digits3(cn);
      Ssea.Shuffle(a, p.kf);
      c := a[..];
    }

    /** Appends one frame to `out`; the first-frame flag drops only when a frame was emitted. */
    method EncodeFrame(out: Bytes, binary: Bytes, draw: Draw) returns (r: Result<()>, out': Bytes)
      requires draw.Valid()
      modifies this`txFirst
      ensures binary == [] ==> r == Err(ZeroLength)
      ensures |Encode(binary, p.kf)| > BASE94_MAX_FRAME ==> r == Err(FrameTooLarge)
      ensures r.Ok? <==> 1 <= |Encode(binary, p.kf)| <= BASE94_MAX_FRAME
      ensures r.Ok? ==> out' == out + Frame(p, old(txFirst), binary, draw) && !txFirst
      ensures r.Err? ==> out' == out && txFirst == old(txFirst)
    {
      if binary == [] {
        return Err(ZeroLength), out;
      }
      var encoded := Encode(binary, p.kf);
      if |encoded| > BASE94_MAX_FRAME {
        return Err(FrameTooLarge), out;
      }
      var h := EncodeHeader(|encoded|, draw);
      return Ok(()), out + h + encoded;
    }

    /** Canonical header form, in place on the header copy. */
    method RestoreHeader(h: array<byte>)
      requires h.Length >= HEADER_SIMPLE
      modifies h
      ensures h[..] == Restored(old(h[..HEADER_SIMPLE])) + old(h[HEADER_SIMPLE..])
    {
      if h[0] % 2 == 0 {
        h[1] := 0x20;
      }
      h[0] := 0x20;
      h[2], h[3] := h[3], h[2];
    }

    method DecodeHeaderInPlace(h: array<byte>) returns (r: Result<nat>)
      requires h.Length == HeaderSize(rxFirst)
      modifies h
      ensures r == DecodeHeader(p, rxFirst, old(h[..]))
    {
      ghost var was := h[..];
      var chk := Checksum.ComputeInetChecksum(h[..HEADER_SIMPLE]);
      RestoreHeader(h);
      assert was[..HEADER_SIMPLE] == old(h[..HEADER_SIMPLE]);
      assert h[1..HEADER_SIMPLE] == Restored(was[..HEADER_SIMPLE])[1..];
      var field := DecodeField(p, h[1..HEADER_SIMPLE]);
      if field.Err? {
        return Err(field.error);
      }
      if field.value < 1 {
        return Err(InvalidFrame);
      }
      if !rxFirst {
        assert was == was[..HEADER_SIMPLE];
        return Ok(field.value);
      }
      var c := new byte[3](i requires 0 <= i < 3 && h.Length == HEADER_EXTENDED reads h => h[HEADER_SIMPLE + i]);
      assert c[..] == was[HEADER_SIMPLE..];
      Ssea.Unshuffle(c, p.kf);
      var n := DecodeField(p, c[..]);
      if n.Err? {
        return Err(n.error);
      }
      if n.value != Xor(chk, field.value) {
        return Err(ChecksumMismatch);
      }
      return Ok(field.value);
    }

    /** One complete packet; a failed decode leaves the first-frame flag up. */
    method DecodePacketInto(packet: Bytes) returns (r: Result<Bytes>)
      modifies this`rxFirst
      ensures r == DecodePacket(p, old(rxFirst), packet)
      ensures rxFirst == (old(rxFirst) && r.Err?)
    {
      var hs := HeaderSize(rxFirst);
      if |packet| < hs {
        return Err(InvalidFrame);
      }
      var h := ToArray(packet[..hs]);
      var length := DecodeHeaderInPlace(h);
      if length.Err? {
        return Err(length.error);
      }
      if length.value > BASE94_MAX_FRAME {
        return Err(FrameTooLarge);
      }
      if length.value + hs != |packet| {
        return Err(InvalidFrame);
      }
      r := Decode(packet[hs..], p.kf);
      if r.Ok? {
        rxFirst := false;
      }
    }

    /** One frame off a blocking stream. */
    method ReadFrameInto(stream: Bytes) returns (r: Result<Bytes>, rest: Bytes)
      modifies this`rxFirst
      ensures var read := ReadFrame(p, old(rxFirst), stream); r == read.result && rest == stream[read.taken..]
      ensures rxFirst == (old(rxFirst) && r.Err?)
    {
      var hs := HeaderSize(rxFirst);
      if |stream| < hs {
        return Err(Io), [];
      }
      var h := ToArray(stream[..hs]);
      var length := DecodeHeaderInPlace(h);
      if length.Err? {
        return Err(length.error), stream[hs..];
      }
      if length.value > BASE94_MAX_FRAME {
        return Err(FrameTooLarge), stream[hs..];
      }
      if |stream| < hs + length.value {
        return Err(Io), [];
      }
      r, rest := Decode(stream[hs..hs + length.value], p.kf), stream[hs + length.value..];
      if r.Ok? {
        rxFirst := false;
      }
    }
  }

  /** `copy_from_slice` into a buffer. */
  method CopyInto(a: array<byte>, at: nat, s: Bytes)
    requires at + |s| <= a.Length
    modifies a
    ensures a[..] == old(a[..at]) + s + old(a[at + |s|..])
  {
    forall i | 0 <= i < |s| {
      a[at + i] := s[i];
    }
  }

  method ToArray(s: Bytes) returns (a: array<byte>)
    ensures fresh(a) && a[..] == s
  {
    a := new byte[|s|](i requires 0 <= i < |s| => s[i]);
  }
}
