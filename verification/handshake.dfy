/** Handshake values: session-id packets, role tags, the flag canary and the noise prelude. */
module Handshake {
  import opened Bits
  import opened Errors
  import opened Config
  import Wire

  // ----- decimal ids

  function Decimal(v: nat): (r: Bytes)
    ensures |r| > 0 && forall i :: 0 <= i < |r| ==> IsDigit(r[i])
  {
    if v < 10 then [48 + v] else Decimal(v / 10) + [48 + v % 10]
  }

  predicate IsDigit(b: int) { 48 <= b <= 57 }

  function Value(digits: Bytes): nat
  {
    if digits == [] then 0 else 10 * Value(digits[..|digits| - 1]) + DigitValue(digits[|digits| - 1])
  }

  function DigitValue(b: int): nat { if IsDigit(b) then b - 48 else 0 }

  lemma {:induction false} ValueOfDecimal(v: nat)
    ensures Value(Decimal(v)) == v
  {
    var d := Decimal(v);
    if v < 10 {
      assert d[..0] == [];
    } else {
      ValueOfDecimal(v / 10);
      assert d[..|d| - 1] == Decimal(v / 10);
    }
  }

  function Pow10(n: nat): (p: nat)
    ensures p > 0
  {
    if n == 0 then 1 else 10 * Pow10(n - 1)
  }

  lemma {:induction false} DecimalLength(v: nat, n: nat)
    requires n > 0 && v < Pow10(n)
    ensures |Decimal(v)| <= n
  {
    if v >= 10 {
      assert v / 10 < Pow10(n - 1);
      DecimalLength(v / 10, n - 1);
    }
  }

  /** A 128-bit id never needs more than 39 digits. */
  lemma DecimalFits(v: u128)
    ensures |Decimal(v)| <= 39
  {
    assert Pow10(9) == 1_000_000_000 by { assert Pow10(5) == 100_000; }
    assert Pow10(14) == 100_000_000_000_000;
    assert Pow10(19) == 10_000_000_000_000_000_000;
    assert Pow10(24) == 1_000_000_000_000_000_000_000_000;
    assert Pow10(29) == 100_000_000_000_000_000_000_000_000_000;
    assert Pow10(34) == 10_000_000_000_000_000_000_000_000_000_000_000;
    assert Pow10(39) == 1_000_000_000_000_000_000_000_000_000_000_000_000_000;
    DecimalLength(v, 39);
  }

  /** Digits are produced least significant first into a 40-byte buffer, then appended reversed. */
  method AppendDecimal(out: Bytes, id: u128) returns (out': Bytes)
    ensures out' == out + Decimal(id)
  {
    DecimalFits(id);
    var buf := new byte[40];
    var v: nat := id;
    buf[0] := 48 + v % 10;
    var len := 1;
    v := v / 10;
    assert Reversed(buf[..1]) == [buf[0]];
    while v != 0
      invariant 1 <= len <= 40
      invariant (if v == 0 then [] else Decimal(v)) + Reversed(buf[..len]) == Decimal(id)
      decreases v
    {
      assert len < 40;
      buf[len] := 48 + v % 10;
      assert Reversed(buf[..len + 1]) == [buf[len]] + Reversed(buf[..len]);
      len := len + 1;
      v := v / 10;
    }
    out' := out + Reversed(buf[..len]);
  }

  function Reversed(s: Bytes): (r: Bytes)
    ensures |r| == |s|
  {
    seq(|s|, i requires 0 <= i < |s| => s[|s| - 1 - i])
  }

  /** Length of the run of digits at the front. */
  function DigitRun(s: Bytes): (n: nat)
    ensures n <= |s|
  {
    if s == [] || !IsDigit(s[0]) then 0 else 1 + DigitRun(s[1..])
  }

  /** The id written at the front, provided there is one and it fits 128 bits. */
  function ParseId(s: Bytes): Result<u128> {
    var n := DigitRun(s);
    if n == 0 || Value(s[..n]) >= TWO128 then Err(InvalidSessionId) else Ok(Value(s[..n]))
  }

  lemma {:induction false} DigitRunAt(s: Bytes, n: nat)
    requires n <= |s| && forall i :: 0 <= i < n ==> IsDigit(s[i])
    requires n < |s| ==> !IsDigit(s[n])
    ensures DigitRun(s) == n
  {
    if n > 0 {
      DigitRunAt(s[1..], n - 1);
    }
  }

  lemma {:induction false} ValueGrows(s: Bytes, m: nat, n: nat)
    requires m <= n <= |s|
    ensures Value(s[..m]) <= Value(s[..n])
  {
    if m < n {
      ValueGrows(s, m, n - 1);
      assert s[..n][..n - 1] == s[..n - 1];
    }
  }

  /** Overflow is checked at every digit; that rejects exactly the ids that do not fit as a whole. */
  method ParseDecimal(s: Bytes) returns (r: Result<u128>)
    ensures r == ParseId(s)
  {
    var id: nat := 0;
    var n := 0;
    while n < |s| && IsDigit(s[n])
      invariant n <= |s| && id == Value(s[..n]) < TWO128
      invariant forall i :: 0 <= i < n ==> IsDigit(s[i])
    {
      assert s[..n + 1][..n] == s[..n];
      var next := 10 * id + DigitValue(s[n]);
      if next >= TWO128 {
        RunCovers(s, n + 1);
        ValueGrows(s, n + 1, DigitRun(s));
        return Err(InvalidSessionId);
      }
      id := next;
      n := n + 1;
    }
    DigitRunAt(s, n);
    return if n == 0 then Err(InvalidSessionId) else Ok(id);
  }

  lemma {:induction false} RunCovers(s: Bytes, n: nat)
    requires n <= |s| && forall i :: 0 <= i < n ==> IsDigit(s[i])
    ensures n <= DigitRun(s)
  {
    if n > 0 {
      RunCovers(s[1..], n - 1);
    }
  }

  // ----- the xor layer

  function XorAll(s: Bytes, b: byte): (r: Bytes)
    ensures |r| == |s|
  {
    seq(|s|, i requires 0 <= i < |s| => XorByte(s[i], b))
  }

  /** One round: the running key absorbs a key byte and masks the body with its low byte. */
  function Rounds(s: Bytes, kf: u32, kfs: Bytes): (r: Bytes)
    ensures |r| == |s|
    decreases |kfs|
  {
    if kfs == [] then s
    else var k := XorWord(kf, kfs[0]); Rounds(XorAll(s, Low(k)), k, kfs[1..])
  }

  lemma LowOfXor(kf: u32, b: byte)
    ensures Low(XorWord(kf, b)) == XorByte(Low(kf), b)
  {
    hide Xor;
    Pow2Words();
    XorLow(kf, b, 8);
    assert b % 0x100 == b;
  }

  /** Two consecutive rounds cancel the running key and leave the second key byte. */
  lemma RoundPair(s: Bytes, kf: u32, a: byte, b: byte)
    ensures var k := XorWord(kf, a); XorAll(XorAll(s, Low(k)), Low(XorWord(k, b))) == XorAll(s, b)
  {
    var k := Low(XorWord(kf, a));
    LowOfXor(XorWord(kf, a), b);
    forall i | 0 <= i < |s| ensures XorByte(XorByte(s[i], k), XorByte(k, b)) == XorByte(s[i], b) {
      XorAssociates(s[i], k, XorByte(k, b));
      XorAssociates(k, k, b);
      XorZero(k);
      XorZero(b);
    }
  }

  /** After all four rounds the configured key is gone: the net mask is the second and fourth key byte. */
  lemma NetMask(s: Bytes, kf: u32, kfs: Bytes)
    requires |kfs| == 4
    ensures Rounds(s, kf, kfs) == XorAll(XorAll(s, kfs[1]), kfs[3])
  {
    var k0 := XorWord(kf, kfs[0]);
    var k1 := XorWord(k0, kfs[1]);
    var k2 := XorWord(k1, kfs[2]);
    var k3 := XorWord(k2, kfs[3]);
    RoundPair(s, kf, kfs[0], kfs[1]);
    var t := XorAll(s, kfs[1]);
    RoundPair(t, k1, kfs[2], kfs[3]);
    assert kfs[1..][1..] == kfs[2..] && kfs[2..][1..] == kfs[3..] && kfs[3..][1..] == [];
    assert Rounds(s, kf, kfs) == Rounds(t, k1, kfs[2..]);
    assert Rounds(t, k1, kfs[2..]) == Rounds(XorAll(XorAll(t, Low(k2)), Low(k3)), k3, []);
  }

  lemma XorAllTwice(s: Bytes, a: byte, b: byte)
    ensures XorAll(XorAll(XorAll(XorAll(s, a), b), a), b) == s
  {
    forall i | 0 <= i < |s| ensures XorByte(XorByte(XorByte(XorByte(s[i], a), b), a), b) == s[i] {
      var x := s[i];
      XorAssociates(x, a, b);
      XorAssociates(Xor(x, Xor(a, b)), a, b);
      XorCancel(x, Xor(a, b));
    }
  }

  /** The layer is its own inverse, even when the two ends disagree on the key. */
  lemma RoundsInvert(s: Bytes, kf: u32, kf': u32, kfs: Bytes)
    requires |kfs| == 4
    ensures Rounds(Rounds(s, kf, kfs), kf', kfs) == s
  {
    NetMask(s, kf, kfs);
    NetMask(Rounds(s, kf, kfs), kf', kfs);
    XorAllTwice(s, kfs[1], kfs[3]);
  }

  // ----- session-id packets

  /** The random draws of one packet: key bytes, noise value, separator and the two paddings. */
  datatype IdDraws = IdDraws(kfs: Bytes, noise: u128, separator: byte, pad1: Bytes, pad2: Bytes)

  /** The number written into the body: a nonzero noise value stands in for id 0. */
  function Written(id: u128, draws: IdDraws): u128 {
    if id != 0 then id else if draws.noise == 0 then 1 else draws.noise
  }

  predicate InRange(s: Bytes, lo: int, hi: int) {
    forall i :: 0 <= i < |s| ==> lo <= s[i] <= hi
  }

  function Max(a: nat, b: nat): nat { if a >= b then a else b }

  /** The ranges every draw of the packer stays in. */
  predicate ValidDraws(key: ObfuscationKey, id: u128, draws: IdDraws) {
    var max := key.kx % 0x100;
    && |draws.kfs| == 4 && (draws.kfs[0] >= 0x80 <==> id == 0) && InRange(draws.kfs[1..], 0x01, 0xff)
    && 0x20 <= draws.separator <= 0x2f
    && |draws.pad1| == max && InRange(draws.pad1, 0x20, 0x7e) && InRange(draws.pad2, 0x20, 0x7e)
    && (max == 0 ==> draws.pad2 == [])
    && (max > 0 ==> 1 <= |draws.pad2| <= 4 * Max(max, |Decimal(Written(id, draws))| + 1 + max + 1 + 4))
  }

  function IdBody(key: ObfuscationKey, id: u128, draws: IdDraws): Bytes {
    Decimal(Written(id, draws)) + [draws.separator]
    + if key.kx % 0x100 > 0 then draws.pad1 + [47] + draws.pad2 else []
  }

  function PackedId(key: ObfuscationKey, id: u128, draws: IdDraws): Bytes {
    draws.kfs + Rounds(IdBody(key, id, draws), key.kf, draws.kfs)
  }

  datatype SessionPacket = Dummy | Session(id: u128)

  function Unpacked(key: ObfuscationKey, packet: Bytes): Result<SessionPacket> {
    if |packet| < 4 then Err(InvalidFrame)
    else if packet[0] >= 0x80 then Ok(Dummy)
    else if |packet| == 4 then Err(InvalidFrame)
    else
      var id :- ParseId(Rounds(packet[4..], key.kf, packet[..4]));
      Ok(Session(id))
  }

  /** Id packets fit one message whatever the padding. */
  lemma PackedSendable(key: ObfuscationKey, id: u128, draws: IdDraws)
    requires ValidDraws(key, id, draws)
    ensures Wire.Sendable(PackedId(key, id, draws))
  {
    DecimalFits(Written(id, draws));
    var n := |Decimal(Written(id, draws))|;
    assert Max(key.kx % 0x100, n + 1 + key.kx % 0x100 + 1 + 4) <= 300;
    assert |IdBody(key, id, draws)| <= n + 1 + 255 + 1 + 1200;
  }

  lemma ParseBack(v: u128, rest: Bytes)
    requires rest != [] && !IsDigit(rest[0])
    ensures ParseId(Decimal(v) + rest) == Ok(v)
  {
    var s := Decimal(v) + rest;
    DigitRunAt(s, |Decimal(v)|);
    assert s[..|Decimal(v)|] == Decimal(v);
    ValueOfDecimal(v);
  }

  /** Every id survives, under any key of the reader; id 0 always reads back as noise. */
  lemma IdRoundTrip(key: ObfuscationKey, other: ObfuscationKey, id: u128, draws: IdDraws)
    requires ValidDraws(key, id, draws)
    ensures Unpacked(other, PackedId(key, id, draws)) == Ok(if id == 0 then Dummy else Session(id))
  {
    var body := IdBody(key, id, draws);
    var packet := PackedId(key, id, draws);
    assert packet[..4] == draws.kfs && packet[4..] == Rounds(body, key.kf, draws.kfs);
    if id != 0 {
      RoundsInvert(body, key.kf, other.kf, draws.kfs);
      var rest := [draws.separator] + if key.kx % 0x100 > 0 then draws.pad1 + [47] + draws.pad2 else [];
      assert body == Decimal(id) + rest;
      ParseBack(id, rest);
    }
  }

  method XorRounds(body: array<byte>, kf: u32, kfs: Bytes)
    modifies body
    ensures body[..] == Rounds(old(body[..]), kf, kfs)
  {
    var k := kf;
    var i := 0;
    while i < |kfs|
      invariant i <= |kfs|
      invariant Rounds(body[..], k, kfs[i..]) == Rounds(old(body[..]), kf, kfs)
    {
      k := XorWord(k, kfs[i]);
      ghost var was := body[..];
      XorEach(body, Low(k));
      assert kfs[i..][1..] == kfs[i + 1..];
      i := i + 1;
    }
  }

  method XorEach(body: array<byte>, b: byte)
    modifies body
    ensures body[..] == XorAll(old(body[..]), b)
  {
    for j := 0 to body.Length
      invariant forall i :: 0 <= i < j ==> body[i] == XorByte(old(body[i]), b)
      invariant forall i :: j <= i < body.Length ==> body[i] == old(body[i])
    {
      body[j] := XorByte(body[j], b);
    }
  }

  method PackSessionId(key: ObfuscationKey, id: u128, draws: IdDraws) returns (packet: Bytes)
    requires ValidDraws(key, id, draws)
    ensures packet == PackedId(key, id, draws)
  {
    hide Decimal, Rounds;
    var body := AppendDecimal([], if id != 0 then id else if draws.noise == 0 then 1 else draws.noise);
    body := body + [draws.separator];
    if key.kx % 0x100 > 0 {
      body := body + draws.pad1 + [47] + draws.pad2;
    }
    assert body == IdBody(key, id, draws);
    var buffer := new byte[|body|](i requires 0 <= i < |body| => body[i]);
    assert buffer[..] == body;
    XorRounds(buffer, key.kf, draws.kfs);
    packet := draws.kfs + buffer[..];
  }

  method UnpackSessionId(key: ObfuscationKey, packet: Bytes) returns (r: Result<SessionPacket>)
    ensures r == Unpacked(key, packet)
  {
    if |packet| < 4 {
      return Err(InvalidFrame);
    }
    if packet[0] >= 0x80 {
      return Ok(Dummy);
    }
    if |packet| == 4 {
      return Err(InvalidFrame);
    }
    var buffer := new byte[|packet| - 4](i requires 0 <= i < |packet| - 4 => packet[4 + i]);
    assert buffer[..] == packet[4..];
    XorRounds(buffer, key.kf, packet[..4]);
    var id := ParseDecimal(buffer[..]);
    return if id.Ok? then Ok(Session(id.value)) else Err(id.error);
  }

  // ----- role tags

  datatype SessionRole = MuxTunnel | BondLink

  const TWO48 := 0x1_0000_0000_0000
  const ROLE_MAGIC: nat := 0xfeed_c0de_5eed
  const CANARY_MAGIC: nat := 0xc0de_c0de_c0de

  /** The magic occupies the low 48 bits, the bond flag is bit 48. */
  function RoleTag(role: SessionRole): u64 {
    ROLE_MAGIC + if role == BondLink then TWO48 else 0
  }

  function RoleFromIvv(ivv: u128): SessionRole {
    var high := ivv / TWO64;
    if high % TWO48 == ROLE_MAGIC && (high / TWO48) % 2 == 1 then BondLink else MuxTunnel
  }

  function Ivv(role: SessionRole, nonce: u64): u128 { RoleTag(role) * TWO64 + nonce }

  /** A tagged ivv is never zero and carries its role, whatever the nonce. */
  lemma IvvCarriesRole(role: SessionRole, nonce: u64)
    ensures Ivv(role, nonce) != 0 && RoleFromIvv(Ivv(role, nonce)) == role
  {
    ModUnique(Ivv(role, nonce), TWO64, RoleTag(role), nonce);
  }

  // ----- canary and role echo

  function Bit(b: bool): nat { if b then 1 else 0 }

  /** The four switches below the low twelve bits of kf. */
  function CanaryWord(key: ObfuscationKey): (w: nat)
    ensures w < 0x1_0000
  {
    Bit(key.masked) + 2 * Bit(key.plaintext) + 4 * Bit(key.deltaEncode) + 8 * Bit(key.shuffleData) + 16 * (key.kf % 0x1000)
  }

  /** magic(48) | masked, plaintext, delta, shuffle | kf & 0xfff (12). */
  function FlagCanary(key: ObfuscationKey): u64 { CANARY_MAGIC + CanaryWord(key) * TWO48 }

  predicate HasCanary(high: u64) { high % TWO48 == CANARY_MAGIC }

  /** Two canaries agree exactly when the four switches and the low twelve key bits do. */
  lemma CanaryPins(a: ObfuscationKey, b: ObfuscationKey)
    ensures HasCanary(FlagCanary(a))
    ensures FlagCanary(a) == FlagCanary(b) <==>
      && a.masked == b.masked && a.plaintext == b.plaintext && a.deltaEncode == b.deltaEncode
      && a.shuffleData == b.shuffleData && a.kf % 0x1000 == b.kf % 0x1000
  {
    WordPins(a, b);
    hide CanaryWord;
    ModUnique(FlagCanary(a), TWO48, CanaryWord(a), CANARY_MAGIC);
  }

  lemma WordPins(a: ObfuscationKey, b: ObfuscationKey)
    ensures CanaryWord(a) == CanaryWord(b) <==>
      && a.masked == b.masked && a.plaintext == b.plaintext && a.deltaEncode == b.deltaEncode
      && a.shuffleData == b.shuffleData && a.kf % 0x1000 == b.kf % 0x1000
  {
    var x, y := a.kf % 0x1000, b.kf % 0x1000;
    if CanaryWord(a) == CanaryWord(b) {
      assert x == y;
    }
  }

  /** Canary above a random word whose last bit echoes the role. */
  function Nmux(key: ObfuscationKey, role: SessionRole, low: u64): u128 {
    FlagCanary(key) * TWO64 + (low - low % 2) + Bit(role == MuxTunnel)
  }

  predicate EchoesMux(nmux: u128) { nmux % 2 == 1 }

  lemma NmuxCarries(key: ObfuscationKey, role: SessionRole, low: u64)
    ensures var n := Nmux(key, role, low);
      n != 0 && n / TWO64 == FlagCanary(key) && (EchoesMux(n) <==> role == MuxTunnel)
  {
    var w := (low - low % 2) + Bit(role == MuxTunnel);
    ModUnique(Nmux(key, role, low), TWO64, FlagCanary(key), w);
    assert Nmux(key, role, low) == 2 * (FlagCanary(key) * (TWO64 / 2) + low / 2) + Bit(role == MuxTunnel);
  }

  // ----- noise prelude

  function Exponent(key: ObfuscationKey): nat { Max(key.kl, key.kh) }

  /** Dummy packets a reader skips before giving up. */
  function MaxNopPackets(key: ObfuscationKey): nat { Pow2(Exponent(key)) }

  /** What the draw `sample` between the two powers turns into. */
  function NopRounds(sample: nat): nat { (sample + 1399) / 1400 }

  predicate ValidSample(key: ObfuscationKey, sample: nat) {
    Pow2(if key.kl > key.kh then key.kh else key.kl) <= sample <= Pow2(Exponent(key))
  }

  /** An honest prelude is never empty and never exceeds the skip budget of its reader. */
  lemma PreludeWithinBudget(key: ObfuscationKey, sample: nat)
    requires ValidSample(key, sample)
    ensures 1 <= NopRounds(sample) <= MaxNopPackets(key)
    ensures 1400 * (NopRounds(sample) - 1) < sample <= 1400 * NopRounds(sample)
  {
  }

  lemma {:induction false} Pow2Grows(m: nat, n: nat)
    requires m <= n
    ensures Pow2(m) <= Pow2(n)
  {
    if m < n {
      Pow2Grows(m, n - 1);
    }
  }

  /** Under a validated key the shifts behind sample and budget stay far inside 32 bits. */
  lemma BudgetFits(key: ObfuscationKey, sample: nat)
    requires key.Valid() && ValidSample(key, sample)
    ensures 1 <= sample <= MaxNopPackets(key) <= Pow2(MAX_NOP_EXPONENT) == 0x10_0000
    ensures NopRounds(sample) <= 749
  {
    Pow2Words();
    Pow2Grows(Exponent(key), MAX_NOP_EXPONENT);
  }

  /** The skip budget is the larger of the two powers a sample may lie between. */
  lemma BudgetIsLarger(key: ObfuscationKey)
    ensures MaxNopPackets(key) == Max(Pow2(key.kl), Pow2(key.kh))
  {
    if key.kl <= key.kh {
      Pow2Grows(key.kl, key.kh);
    } else {
      Pow2Grows(key.kh, key.kl);
    }
  }

  // ----- the bytes of an id packet

  /** The digits of a number, counted from the last, without a leading zero. */
  lemma {:induction false} DecimalDigit(v: nat, i: nat)
    requires i < |Decimal(v)|
    ensures var d := Decimal(v); d[|d| - 1 - i] == 48 + v / Pow10(i) % 10 && (v > 0 ==> d[0] != 48)
  {
    if v >= 10 {
      var rest := Decimal(v / 10);
      assert Decimal(v) == rest + [48 + v % 10] && |rest| > 0;
      DecimalDigit(v / 10, if i == 0 then 0 else i - 1);
      hide Decimal;
      if i > 0 {
        assert Pow10(i) == 10 * Pow10(i - 1);
        TenTimes(v, Pow10(i - 1));
      } else {
        assert Pow10(0) == 1;
      }
    }
  }

  lemma TenTimes(v: nat, p: nat)
    requires p > 0
    ensures v / 10 / p == v / (10 * p)
  {
    var q, r := v / 10 / p, v / 10 % p;
    assert v / 10 == p * q + r;
    assert v == (10 * p) * q + (10 * r + v % 10);
    ModUnique(v, 10 * p, q, 10 * r + v % 10);
  }

  /** Four key bytes, then number, separator and padding, each byte under the second and fourth key byte. */
  lemma PackedBytes(key: ObfuscationKey, id: u128, draws: IdDraws, i: nat)
    requires ValidDraws(key, id, draws)
    ensures var packet := PackedId(key, id, draws);
      var number := if id != 0 then id else if draws.noise != 0 then draws.noise else 1;
      var body := Decimal(number) + [draws.separator] + (if key.kx % 0x100 == 0 then [] else draws.pad1 + [0x2f] + draws.pad2);
      && |packet| == 4 + |body| && packet[..4] == draws.kfs
      && (i < |body| ==> packet[4 + i] == XorByte(XorByte(body[i], draws.kfs[1]), draws.kfs[3]))
  {
    hide Rounds;
    NetMask(IdBody(key, id, draws), key.kf, draws.kfs);
  }

  // ----- untagged values

  /** Only the role magic with the bond bit asks for a bond link; everything else is a mux tunnel. */
  lemma RoleDecides(ivv: u128)
    ensures RoleFromIvv(ivv) == BondLink <==>
      ivv / TWO64 % 0x1_0000_0000_0000 == 0xfeed_c0de_5eed && ivv / TWO64 / 0x1_0000_0000_0000 % 2 == 1
  {
  }
}
