/** What the bytes of a packet are and under which keys and numbers, in terms of the primitives. */
module PacketForm {
  import opened Bits
  import opened Errors
  import opened Config
  import opened SessionCiphers
  import opened Wire
  import opened Incremental
  import Base94
  import Simd
  import Ssea

  // ----- keys

  function Material(k: Keyed): KeyMaterial { KeyMaterial(k.key, k.iv) }

  /** Before the handshake the keys come from the passwords alone, and counting starts at 0. */
  lemma InitialKeys(prim: Primitives, key: ObfuscationKey)
    ensures var d := NewDir(prim, key);
      && Material(d.protocol) == prim.kdf(Protocol, key.protocol, key.protocolKey, None)
      && Material(d.transport) == prim.kdf(Transport, key.transport, key.transportKey, None)
      && d.protocol.mode == key.protocol && d.transport.mode == key.transport
      && d.protocol.prim == prim && d.transport.prim == prim
      && d.pseq == 0 && d.tseq == 0 && d.first && !d.handshaked
      && d.key == key && d.p == Base94.Derive(key.kf)
  {
  }

  /** Rekeying derives both ciphers from their passwords and the ivv; the framing state stays. */
  lemma RekeyedKeys(prim: Primitives, d: Dir, ivv: u128)
    ensures var r := d.Rekeyed(prim, ivv);
      && Material(r.protocol) == prim.kdf(Protocol, d.key.protocol, d.key.protocolKey, Some(ivv))
      && Material(r.transport) == prim.kdf(Transport, d.key.transport, d.key.transportKey, Some(ivv))
      && r.protocol.mode == d.key.protocol && r.transport.mode == d.key.transport
      && r.protocol.prim == prim && r.transport.prim == prim
      && r.pseq == 0 && r.tseq == 0 && r.first == d.first && r.handshaked == d.handshaked
      && r.key == d.key && r.p == d.p
  {
  }

  // ----- packet numbers

  /** After `n` packets both counters are `n` further, modulo 2^64, and only the first envelope was a first one. */
  lemma {:induction false} CountersAfter(d: Dir, n: nat)
    ensures var a := After(d, n);
      && a.pseq == (d.pseq + n) % TWO64 && a.tseq == (d.tseq + n) % TWO64
      && a == d.(pseq := a.pseq, tseq := a.tseq, first := d.first && (n == 0 || !d.Enveloped()))
    decreases n
  {
    if n > 0 {
      CountersAfter(d.Sent(), n - 1);
      OneMore(d.pseq, n);
      OneMore(d.tseq, n);
    }
  }

  lemma OneMore(c: u64, n: nat)
    requires n > 0
    ensures ((c + 1) % TWO64 + (n - 1)) % TWO64 == (c + n) % TWO64
  {
  }

  /** Two packets of a direction use the same nonce exactly when whole periods lie between them. */
  lemma NoncesOfPackets(d: Dir, i: nat, j: nat)
    requires i <= j
    ensures var k := d.transport;
      Nonce(k.mode, k.iv, After(d, i).tseq)[..IvLen(k.mode)] == Nonce(k.mode, k.iv, After(d, j).tseq)[..IvLen(k.mode)]
      <==> (j - i) % Period(k.mode) == 0
    ensures var k := d.protocol;
      Nonce(k.mode, k.iv, After(d, i).pseq)[..IvLen(k.mode)] == Nonce(k.mode, k.iv, After(d, j).pseq)[..IvLen(k.mode)]
      <==> (j - i) % Period(k.mode) == 0
  {
    hide Nonce, Period;
    CountersAfter(d, i);
    CountersAfter(d, j);
    NonceCollision(d.transport.mode, d.transport.iv, After(d, i).tseq, After(d, j).tseq);
    NonceCollision(d.protocol.mode, d.protocol.iv, After(d, i).pseq, After(d, j).pseq);
    SamePeriod(d.transport.mode, d.tseq, i, j);
    SamePeriod(d.protocol.mode, d.pseq, i, j);
  }

  lemma SamePeriod(m: Method, c: u64, i: nat, j: nat)
    requires i <= j
    ensures (c + i) % TWO64 % Period(m) == (c + j) % TWO64 % Period(m) <==> (j - i) % Period(m) == 0
  {
    Periods(m);
    hide Period;
    if m.ChaCha20? {
      LowerMod(c + i);
      LowerMod(c + j);
      Congruent(c + i, c + j, 0x1_0000_0000);
    } else {
      Congruent(c + i, c + j, TWO64);
    }
  }

  lemma LowerMod(n: nat)
    ensures n % TWO64 % 0x1_0000_0000 == n % 0x1_0000_0000
  {
  }

  lemma MulNext(p: nat, t: nat, q: nat)
    requires t < q
    ensures p * t + p <= p * q
  {
    Ssea.MulMono(p, t + 1, q);
  }

  lemma Quotients(a: nat, b: nat, p: nat)
    requires p > 0 && a <= b
    ensures a / p <= b / p
  {
    var q, t := a / p, b / p;
    assert a == p * q + a % p && b == p * t + b % p;
    if t < q {
      MulNext(p, t, q);
    }
  }

  lemma Congruent(a: nat, b: nat, p: nat)
    requires p > 0 && a <= b
    ensures a % p == b % p <==> (b - a) % p == 0
  {
    var q, r, k := a / p, a % p, (b - a) / p;
    assert a == p * q + r;
    if (b - a) % p == 0 {
      assert b == p * (q + k) + r;
      ModUnique(b, p, q + k, r);
    }
    if a % p == b % p {
      assert b - a == p * (b / p - q) + 0;
      Quotients(a, b, p);
      ModUnique(b - a, p, b / p - q, 0);
    }
  }

  // ----- bytes

  /** The binary packet: bare once the handshake is over, unless in plaintext mode; else inside the envelope. */
  function BinaryOf(d: Dir, packet: Bytes): Result<Bytes> {
    var size := if d.first then 7 else 4;
    if d.handshaked && !d.key.plaintext then Ok(packet)
    else if |packet| < size then Err(InvalidFrame)
    else Base94.Decode(packet[size..], d.p.kf)
  }

  /** Length less one, big endian, under the protocol cipher; then masked and shuffled under the header key; then delta coded. */
  function HeaderForm(d: Dir, length: nat, seed: byte): Bytes
    requires 1 <= length <= 65536
  {
    var hk := XorWord(d.key.kf, seed);
    var e := Applied(d.protocol, d.pseq, true, [(length - 1) / 0x100, (length - 1) % 0x100]);
    Simd.DeltaEncoded([seed] + Ssea.Shuffled([XorByte(e[0], Low(hk)), XorByte(e[1], Low(hk))], hk), Low(d.key.kf))
  }

  /** The message under the transport cipher; then masked, shuffled under the header key, and delta coded, as switched on. */
  function BodyForm(d: Dir, msg: Bytes, seed: byte): Bytes
    requires |msg| <= 65536
  {
    var hk := XorWord(d.key.kf, seed);
    var c := Applied(d.transport, d.tseq, true, msg);
    var m := if !d.handshaked || d.key.masked then Ssea.Masked(c, hk) else c;
    var t := if !d.handshaked || d.key.shuffleData then Ssea.Shuffled(m, hk) else m;
    if !d.handshaked || d.key.deltaEncode then Simd.DeltaEncoded(t, Low(d.key.kf)) else t
  }

  /** Which transforms, in which order, under which keys: before the handshake all of them, after it the configured ones. */
  lemma PacketBytes(d: Dir, msg: Bytes, draws: Draws)
    requires Sendable(msg) && draws.Valid()
    ensures BinaryOf(d, Packet(d, msg, draws)) == Ok(HeaderForm(d, |msg|, draws.seed) + BodyForm(d, msg, draws.seed))
  {
    hide Base94.Decode, Base94.Encode;
    var bin := BinaryPacket(d, msg, draws.seed);
    assert bin == HeaderForm(d, |msg|, draws.seed) + BodyForm(d, msg, draws.seed);
    if d.Enveloped() {
      var packet := Packet(d, msg, draws);
      Base94.DecodeInverts(bin, d.p.kf);
      assert packet[if d.first then 7 else 4..] == Base94.Encode(bin, d.p.kf);
    }
  }
}
