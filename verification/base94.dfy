/** The printable envelope: base94 bytes and numbers, obfuscated headers, and the stateful framer. */
module Base94 {
  import opened Bits
  import opened Errors
  import opened Limits
  import Ssea
  import Checksum

  const HEADER_SIMPLE: nat := 4
  const HEADER_EXTENDED: nat := 7

  predicate Printable(s: Bytes) {
    forall i :: 0 <= i < |s| ==> 0x20 <= s[i] <= 0x7e
  }

  /** Value of a digit character, negative below the alphabet. */
  function Digit(c: int): int { c - 0x20 }

  // ----- byte codec

  /** One printable character below 93, otherwise an escape pair. */
  function EncodeByte(b: byte, kf: u32): (r: Bytes)
    ensures 1 <= |r| <= 2 && Printable(r)
  {
    var v := SubByte(b, Low(kf));
    if v >= 93 then [0x20 + v / 93 - 1 + 93, 0x20 + v % 93] else [0x20 + v]
  }

  function Encode(s: Bytes, kf: u32): (r: Bytes)
    ensures |s| <= |r| <= 2 * |s| && Printable(r)
  {
    if s == [] then [] else EncodeByte(s[0], kf) + Encode(s[1..], kf)
  }

  /** The first character or escape pair: its byte and its width, or nothing when it is malformed. */
  function DecodeFirst(s: Bytes, kf: u32): (r: Option<(byte, nat)>)
    requires s != []
    ensures r.Some? ==> 1 <= r.value.1 <= |s|
  {
    var b := Digit(s[0]);
    if b < 0 then None
    else if b < 93 then Some((AddByte(b, Low(kf)), 1))
    else if b > 94 || |s| < 2 then None
    else
      var b2 := Digit(s[1]);
      var v := (b - 93 + 1) * 93 + b2;
      if b2 < 0 || b2 > 93 || v > 0xff then None else Some((AddByte(v, Low(kf)), 2))
  }

  function Decode(s: Bytes, kf: u32): Result<Bytes> {
    if s == [] then Ok([])
    else
      match DecodeFirst(s, kf)
      case None => Err(InvalidBase94)
      case Some((b, n)) => var rest :- Decode(s[n..], kf); Ok([b] + rest)
  }

  lemma DecodeEncodedByte(b: byte, kf: u32, rest: Bytes)
    ensures var e := EncodeByte(b, kf); DecodeFirst(e + rest, kf) == Some((b, |e|))
  {
    var v := SubByte(b, Low(kf));
    assert AddByte(v, Low(kf)) == b;
    if v >= 93 {
      assert (v / 93) * 93 + v % 93 == v;
    }
  }

  lemma {:induction false} DecodeInverts(s: Bytes, kf: u32)
    ensures Decode(Encode(s, kf), kf) == Ok(s)
  {
    if s != [] {
      var e := EncodeByte(s[0], kf);
      DecodeEncodedByte(s[0], kf, Encode(s[1..], kf));
      DecodeInverts(s[1..], kf);
      var r := Encode(s, kf);
      assert r == e + Encode(s[1..], kf) && r[|e|..] == Encode(s[1..], kf);
      assert s == [s[0]] + s[1..];
    }
  }

  // ----- number codec

  /** Base 94 digits, most significant first, no leading zero digit. */
  function DecimalEncode(v: nat): (r: Bytes)
    ensures |r| > 0
  {
    if v < 94 then [0x20 + v] else DecimalEncode(v / 94) + [0x20 + v % 94]
  }

  function DecimalDecode(s: Bytes): Result<nat> {
    if s == [] then Ok(0)
    else
      var hi :- DecimalDecode(s[..|s| - 1]);
      var c := s[|s| - 1];
      if 0x20 <= c < 0x20 + 94 then Ok(hi * 94 + Digit(c)) else Err(InvalidBase94)
  }

  /** The three digits of a header field, zero padded. */
  function Digits3(n: nat): (r: Bytes)
    requires n < MOD_MAX
    ensures |r| == 3 && Printable(r)
  {
    [0x20 + n / 8836, 0x20 + (n / 94) % 94, 0x20 + n % 94]
  }

  lemma DecodeDigits3(n: nat)
    requires n < MOD_MAX
    ensures DecimalDecode(Digits3(n)) == Ok(n)
  {
    var d := Digits3(n);
    assert d[..2][..1] == [d[0]] && d[..2] == [d[0], d[1]];
    assert DecimalDecode([d[0]]) == Ok(n / 8836) by { assert [d[0]][..0] == []; }
    assert DecimalDecode(d[..2]) == Ok(n / 8836 * 94 + (n / 94) % 94);
    assert n / 8836 == n / 94 / 94;
  }

  /** Right-aligning the minimal digits in a field of zeros pads them to three. */
  lemma PadDigits(n: nat)
    requires n < MOD_MAX
    ensures var d := DecimalEncode(n); |d| <= 3 && seq(3 - |d|, _ => 0x20) + d == Digits3(n)
    ensures |DecimalEncode(n)| == 3 <==> n >= 8836
  {
    if n >= 94 {
      assert DecimalEncode(n) == DecimalEncode(n / 94) + [0x20 + n % 94];
      if n >= 8836 {
        assert DecimalEncode(n / 94) == DecimalEncode(n / 94 / 94) + [0x20 + n / 94 % 94];
        assert n / 94 / 94 == n / 8836;
      }
    }
  }

  // ----- header arithmetic

  /** What a framer derives from the key once: length modulus and key residue. */
  datatype Params = Params(kf: u32, modulus: nat, kfMod: nat) {
    predicate Valid() { MOD_MIN <= modulus <= MOD_MAX && kfMod < modulus }
  }

  type Obfuscation = p: Params | p.Valid() witness Params(0, MOD_MIN, 0)

  /** The modulus is one LCG draw; the residue is the absolute truncating `i32` remainder of the key. */
  function Derive(kf: u32): (p: Obfuscation)
    ensures p.kf == kf
  {
    var m := Ssea.LcgRange(kf, MOD_MIN, MOD_MAX);
    Params(kf, m, (if kf < 0x8000_0000 then kf else 0x1_0000_0000 - kf) % m)
  }

  function Obfuscate(p: Obfuscation, n: nat): (r: nat)
    ensures r < p.modulus
  {
    (n + p.kfMod) % p.modulus
  }

  function DecodeField(p: Obfuscation, digits: Bytes): (r: Result<nat>)
    ensures r.Ok? ==> r.value < p.modulus
  {
    var n :- DecimalDecode(digits);
    Ok((n + (p.modulus - p.kfMod)) % p.modulus)
  }

  lemma FieldRoundTrip(p: Obfuscation, n: nat)
    requires n < p.modulus
    ensures DecodeField(p, Digits3(Obfuscate(p, n))) == Ok(n)
  {
    DecodeDigits3(Obfuscate(p, n));
    RotateBack(n, p.kfMod, p.modulus);
  }

  lemma RotateBack(n: nat, k: nat, m: nat)
    requires n < m && k < m
    ensures ((n + k) % m + (m - k)) % m == n
  {
    if n + k < m {
      ModUnique(n + k, m, 0, n + k);
      ModUnique(n + m, m, 1, n);
    } else {
      ModUnique(n + k, m, 1, n + k - m);
      ModUnique(n, m, 0, n);
    }
  }

  // ----- headers

  /** The random draws of one header, each in the printable range. */
  datatype Draw = Draw(k: byte, filler: byte) {
    predicate Valid() { 0x20 <= k <= 0x7e && 0x20 <= filler <= 0x7e }
  }

  /** The seed byte, made even over filler and odd over a length digit, staying printable. */
  function SeedByte(k: byte, digit: bool): (r: byte)
    requires 0x20 <= k <= 0x7e
    ensures 0x20 <= r <= 0x7e && (r % 2 == 1 <==> digit)
  {
    if digit then (if k % 2 == 1 then k else if k + 1 > 0x7e then 0x21 else k + 1)
    else if k % 2 == 0 then k else k + 1
  }

  /** Four bytes: seed, filler or first digit, then the last two digits swapped. */
  function SimpleHeader(p: Obfuscation, length: nat, draw: Draw): (h: Bytes)
    requires draw.Valid()
    ensures |h| == HEADER_SIMPLE && Printable(h)
  {
    var n := Obfuscate(p, length);
    var d := Digits3(n);
    var digit := n >= 8836;
    [SeedByte(draw.k, digit), if digit then d[0] else draw.filler, d[2], d[1]]
  }

  /** Checksum of the header bytes mixed with the length. */
  function CheckValue(h: Bytes, length: nat): nat { Xor(Checksum.InetChecksum(h), length) }

  function Header(p: Obfuscation, first: bool, length: nat, draw: Draw): (h: Bytes)
    requires draw.Valid()
    ensures |h| == if first then HEADER_EXTENDED else HEADER_SIMPLE
  {
    var h := SimpleHeader(p, length, draw);
    if first then h + CheckDigits(p, CheckValue(h, length)) else h
  }

  /** The checksum field: obfuscated, padded to three digits, shuffled. */
  function CheckDigits(p: Obfuscation, check: nat): (c: Bytes)
    ensures |c| == 3
  {
    Ssea.Shuffled(Digits3(Obfuscate(p, check)), p.kf)
  }

  /** Canonical form: filler cleared, seed reset, digits swapped back. */
  function Restored(h: Bytes): (r: Bytes)
    requires |h| == HEADER_SIMPLE
    ensures |r| == HEADER_SIMPLE
  {
    [0x20, if h[0] % 2 == 0 then 0x20 else h[1], h[3], h[2]]
  }

  function DecodeSimple(p: Obfuscation, h: Bytes): Result<nat>
    requires |h| == HEADER_SIMPLE
  {
    var length :- DecodeField(p, Restored(h)[1..]);
    if length < 1 then Err(InvalidFrame) else Ok(length)
  }

  function DecodeExtended(p: Obfuscation, h: Bytes): Result<nat>
    requires |h| == HEADER_EXTENDED
  {
    var length :- DecodeSimple(p, h[..HEADER_SIMPLE]);
    var n :- DecodeField(p, Ssea.Unshuffled(h[HEADER_SIMPLE..], p.kf));
    if n != CheckValue(h[..HEADER_SIMPLE], length) then Err(ChecksumMismatch) else Ok(length)
  }

  function HeaderSize(first: bool): nat { if first then HEADER_EXTENDED else HEADER_SIMPLE }

  function DecodeHeader(p: Obfuscation, first: bool, h: Bytes): Result<nat>
    requires |h| == HeaderSize(first)
  {
    if first then DecodeExtended(p, h) else DecodeSimple(p, h)
  }

  lemma SimpleRoundTrip(p: Obfuscation, length: nat, draw: Draw)
    requires draw.Valid() && 1 <= length < p.modulus
    ensures DecodeSimple(p, SimpleHeader(p, length, draw)) == Ok(length)
  {
    var n := Obfuscate(p, length);
    var h := SimpleHeader(p, length, draw);
    assert Restored(h)[1..] == Digits3(n);
    FieldRoundTrip(p, length);
  }

  /** A checksum mixed with a length below 2^18 stays below 64^3, so it survives the modulus. */
  lemma CheckFits(p: Obfuscation, h: Bytes, length: nat)
    requires length <= BASE94_MAX_FRAME
    ensures CheckValue(h, length) < MOD_MIN <= p.modulus
  {
    Pow2Words();
    XorBound(Checksum.InetChecksum(h), length, 18);
  }

  lemma ExtendedDecodes(p: Obfuscation, s: Bytes, c: Bytes, length: nat)
    requires |s| == HEADER_SIMPLE && |c| == 3 && DecodeSimple(p, s) == Ok(length)
    requires DecodeField(p, Ssea.Unshuffled(c, p.kf)) == Ok(CheckValue(s, length))
    ensures DecodeExtended(p, s + c) == Ok(length)
  {
    assert (s + c)[..HEADER_SIMPLE] == s && (s + c)[HEADER_SIMPLE..] == c;
  }

  /** Every header the encoder can emit is printable and decodes to its length, with the checksum accepted. */
  lemma HeaderRoundTrip(p: Obfuscation, first: bool, length: nat, draw: Draw)
    requires draw.Valid() && 1 <= length <= BASE94_MAX_FRAME
    ensures Printable(Header(p, first, length, draw))
    ensures DecodeHeader(p, first, Header(p, first, length, draw)) == Ok(length)
  {
    var s := SimpleHeader(p, length, draw);
    SimpleRoundTrip(p, length, draw);
    if first {
      CheckFits(p, s, length);
      CheckRoundTrip(p, CheckValue(s, length));
      ExtendedDecodes(p, s, CheckDigits(p, CheckValue(s, length)), length);
    }
  }

  lemma CheckRoundTrip(p: Obfuscation, check: nat)
    requires check < p.modulus
    ensures Printable(CheckDigits(p, check))
    ensures DecodeField(p, Ssea.Unshuffled(CheckDigits(p, check), p.kf)) == Ok(check)
  {
    var d := Digits3(Obfuscate(p, check));
    FieldRoundTrip(p, check);
    Ssea.ShuffleInverts(d, p.kf);
    SwapsPrintable(d, p.kf, |d|);
  }

  lemma {:induction false} SwapsPrintable(d: Bytes, kf: u32, k: nat)
    requires k <= |d| < TWO32 && Printable(d)
    ensures Printable(Ssea.Swaps(d, kf, k))
  {
    if k > 0 {
      SwapsPrintable(d, kf, k - 1);
    }
  }

  // ----- frames

  /** Header and body of one frame. */
  function Frame(p: Obfuscation, first: bool, binary: Bytes, draw: Draw): Bytes
    requires draw.Valid()
  {
    Header(p, first, |Encode(binary, p.kf)|, draw) + Encode(binary, p.kf)
  }

  function CheckBound(length: nat): Result<nat> {
    if length > BASE94_MAX_FRAME then Err(FrameTooLarge) else Ok(length)
  }

  /** Total length of the frame at the front of `buf`, or none while its header is incomplete. */
  function PeekFrameLen(p: Obfuscation, first: bool, buf: Bytes): Result<Option<nat>> {
    if |buf| < HeaderSize(first) then Ok(None)
    else
      var length :- DecodeHeader(p, first, buf[..HeaderSize(first)]);
      var bounded :- CheckBound(length);
      Ok(Some(HeaderSize(first) + bounded))
  }

  /** Decodes exactly one complete frame. */
  function DecodePacket(p: Obfuscation, first: bool, packet: Bytes): Result<Bytes> {
    if |packet| < HeaderSize(first) then Err(InvalidFrame)
    else
      var length :- DecodeHeader(p, first, packet[..HeaderSize(first)]);
      var bounded :- CheckBound(length);
      if bounded + HeaderSize(first) != |packet| then Err(InvalidFrame)
      else Decode(packet[HeaderSize(first)..], p.kf)
  }

  /** Every binary packet of the stack fits: even fully escaped it stays below the frame ceiling. */
  lemma EncodedFits(binary: Bytes, kf: u32)
    requires 1 <= |binary| <= PPP_BUFFER_SIZE + 3
    ensures 1 <= |Encode(binary, kf)| <= BASE94_MAX_FRAME
  {
  }

  lemma FrameDecodes(p: Obfuscation, first: bool, h: Bytes, body: Bytes, rest: Bytes)
    requires |h| == HeaderSize(first) && |body| <= BASE94_MAX_FRAME && DecodeHeader(p, first, h) == Ok(|body|)
    ensures PeekFrameLen(p, first, h + body + rest) == Ok(Some(|h + body|))
    ensures DecodePacket(p, first, h + body) == Decode(body, p.kf)
  {
    var f := h + body;
    assert (f + rest)[..|h|] == h && f[..|h|] == h && f[|h|..] == body;
  }

  /** A frame is printable, is recognised at the front of any longer buffer, and decodes to what was framed. */
  lemma FrameRoundTrip(p: Obfuscation, first: bool, binary: Bytes, draw: Draw, rest: Bytes)
    requires draw.Valid() && 1 <= |binary| <= PPP_BUFFER_SIZE + 3
    ensures Printable(Frame(p, first, binary, draw))
    ensures PeekFrameLen(p, first, Frame(p, first, binary, draw) + rest) == Ok(Some(|Frame(p, first, binary, draw)|))
    ensures DecodePacket(p, first, Frame(p, first, binary, draw)) == Ok(binary)
  {
    var body := Encode(binary, p.kf);
    EncodedFits(binary, p.kf);
    HeaderRoundTrip(p, first, |body|, draw);
    DecodeInverts(binary, p.kf);
    FrameDecodes(p, first, Header(p, first, |body|, draw), body, rest);
  }

  // ----- what the readers refuse

  /** The code of a text is the codes of its bytes, in order. */
  lemma {:induction false} EncodeConcat(a: Bytes, b: Bytes, kf: u32)
    ensures Encode(a + b, kf) == Encode(a, kf) + Encode(b, kf)
    ensures |a| == 1 ==> Encode(a, kf) == EncodeByte(a[0], kf)
  {
    if a == [] {
      assert a + b == b;
    } else {
      assert (a + b)[1..] == a[1..] + b && (a + b)[0] == a[0];
      EncodeConcat(a[1..], b, kf);
      assert |a| == 1 ==> Encode(a[1..], kf) == [];
    }
  }

  /** Modulus and residue: one draw in the range, and the absolute value of the signed remainder of the key. */
  lemma DeriveSigned(kf: u32, signed: int)
    requires -0x8000_0000 <= signed < 0x8000_0000 && (signed - kf) % TWO32 == 0
    ensures var p := Derive(kf);
      && p.modulus == 262_144 + Ssea.LcgReference(kf).value % (830_584 - 262_144 + 1)
      && p.kfMod == (if signed >= 0 then signed else -signed) % p.modulus
  {
    hide Ssea.LcgReference;
    assert signed == kf || signed == kf - TWO32;
  }

  /**
   After the four bytes of an honest first header, exactly those check digits are accepted that stand
   for a number congruent to the one sent, modulo the modulus; all others are an error.
   */
  lemma CheckDecides(p: Obfuscation, length: nat, draw: Draw, digits: Bytes)
    requires draw.Valid() && 1 <= length <= BASE94_MAX_FRAME && |digits| == 3
    ensures var s := SimpleHeader(p, length, draw);
      var n := DecimalDecode(Ssea.Unshuffled(digits, p.kf));
      DecodeHeader(p, true, s + digits) ==
        if n.Err? then Err(n.error)
        else if n.value % p.modulus == Obfuscate(p, CheckValue(s, length)) then Ok(length) else Err(ChecksumMismatch)
  {
    hide DecimalDecode, SimpleHeader, CheckValue;
    var s := SimpleHeader(p, length, draw);
    SimpleRoundTrip(p, length, draw);
    CheckFits(p, s, length);
    assert (s + digits)[..HEADER_SIMPLE] == s && (s + digits)[HEADER_SIMPLE..] == digits;
    var n := DecimalDecode(Ssea.Unshuffled(digits, p.kf));
    if n.Ok? {
      FieldDecides(p, n.value, CheckValue(s, length));
    }
  }

  lemma FieldDecides(p: Obfuscation, n: nat, v: nat)
    requires v < p.modulus
    ensures (n + (p.modulus - p.kfMod)) % p.modulus == v <==> n % p.modulus == Obfuscate(p, v)
  {
    var m, k := p.modulus, p.kfMod;
    RotateBack(v, k, m);
    var q, r := n / m, n % m;
    assert n == m * q + r;
    Shifted(m, q, r, m - k);
    if (r + (m - k)) % m == v {
      RotateForth(r, k, m);
    }
  }

  lemma Shifted(m: nat, q: nat, r: nat, d: nat)
    requires m > 0
    ensures (m * q + r + d) % m == (r + d) % m
  {
    var k, e := (r + d) / m, (r + d) % m;
    assert m * q + r + d == m * (q + k) + e;
    ModUnique(m * q + r + d, m, q + k, e);
  }

  lemma RotateForth(r: nat, k: nat, m: nat)
    requires r < m && k < m
    ensures ((r + (m - k)) % m + k) % m == r
  {
    if r + (m - k) < m {
      ModUnique(r + (m - k), m, 0, r + (m - k));
      ModUnique(r + m, m, 1, r);
    } else {
      ModUnique(r + (m - k), m, 1, r - k);
      ModUnique(r, m, 0, r);
    }
  }

  /** No header is accepted for an empty body, and no frame is awaited beyond the largest. */
  lemma HeaderBounds(p: Obfuscation, first: bool, buf: Bytes)
    ensures match PeekFrameLen(p, first, buf)
            case Ok(Some(total)) => HeaderSize(first) < total <= HeaderSize(first) + 131_136
            case Ok(None) => |buf| < HeaderSize(first)
            case Err(_) => true
  {
    hide DecodeField, CheckValue;
  }
}
