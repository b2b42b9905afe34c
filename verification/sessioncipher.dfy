/** One-directional session ciphers: derived keys, per-packet nonces, a strictly advancing counter. */
module SessionCiphers {
  import opened Bits
  import opened Cipher

  datatype Role = Protocol | Transport

  datatype Method = Aes128Cfb | Aes256Cfb | Aes128Ctr | Aes256Ctr | ChaCha20

  type Key = k: Bytes | |k| == 32 witness seq(32, _ => 0)

  datatype KeyMaterial = KeyMaterial(key: Key, iv: Block)

  /**
   The cryptographic primitives, as arbitrary functions: AES under a key, ChaCha20 keystream bytes
   by key, 12-byte nonce and position, and the HKDF derivation from role, method, password and
   per-connection value.
   */
  datatype Primitives = Primitives(
    aes128: Bytes -> BlockFn,
    aes256: Bytes -> BlockFn,
    chacha: (Key, Bytes, nat) -> byte,
    kdf: (Role, Method, string, Option<u128>) -> KeyMaterial)

  /** A keyed cipher without its counter. */
  datatype Keyed = Keyed(prim: Primitives, mode: Method, key: Key, iv: Block)

  function Derived(prim: Primitives, mode: Method, role: Role, password: string, ivv: Option<u128>): Keyed {
    var material := prim.kdf(role, mode, password, ivv);
    Keyed(prim, mode, material.key, material.iv)
  }

  // ----- nonces

  function IvLen(m: Method): nat { if m.ChaCha20? then 12 else 16 }

  /** How many low bytes of the counter enter the nonce. */
  function XorWidth(m: Method): nat { if m.ChaCha20? then 4 else 8 }

  /** Packets after which the nonces of a direction start over. */
  function Period(m: Method): nat { Pow256(XorWidth(m)) }

  /** The base IV with the big-endian counter xored into the end of the part the method uses. */
  function Nonce(m: Method, iv: Block, counter: nat): Block {
    var start := IvLen(m) - XorWidth(m);
    seq(16, i requires 0 <= i < 16 =>
      if start <= i < IvLen(m) then XorByte(iv[i], ToBe(counter, 8)[8 - XorWidth(m) + i - start]) else iv[i])
  }

  lemma LowByteMod(n: nat, k: nat)
    requires k > 0
    ensures n % Pow256(k) == 0x100 * ((n / 0x100) % Pow256(k - 1)) + n % 0x100
  {
    var p := Pow256(k - 1);
    var q, r := (n / 0x100) / p, (n / 0x100) % p;
    assert n == (0x100 * p) * q + (0x100 * r + n % 0x100);
    ModUnique(n, 0x100 * p, q, 0x100 * r + n % 0x100);
  }

  /** `k` big-endian bytes determine a number exactly up to 256^k. */
  lemma {:induction false} ToBeDetermines(m: nat, n: nat, k: nat)
    ensures ToBe(m, k) == ToBe(n, k) <==> m % Pow256(k) == n % Pow256(k)
  {
    if k > 0 {
      ToBeDetermines(m / 0x100, n / 0x100, k - 1);
      LowByteMod(m, k);
      LowByteMod(n, k);
      var a, b := ToBe(m, k), ToBe(n, k);
      assert a[..k - 1] == ToBe(m / 0x100, k - 1) && b[..k - 1] == ToBe(n / 0x100, k - 1);
      assert a == a[..k - 1] + [Low(m)] && b == b[..k - 1] + [Low(n)];
      assert a[k - 1] == Low(m) && b[k - 1] == Low(n);
    }
  }

  lemma {:induction false} ToBeSuffix(n: nat, j: nat, k: nat)
    ensures ToBe(n, j + k)[j..] == ToBe(n, k)
  {
    if k > 0 {
      ToBeSuffix(n / 0x100, j, k - 1);
      assert ToBe(n, j + k)[j..] == ToBe(n / 0x100, j + k - 1)[j..] + [Low(n)];
    }
  }

  lemma XorInjective(a: byte, x: byte, y: byte)
    requires XorByte(a, x) == XorByte(a, y)
    ensures x == y
  {
    XorCommutes(a, x);
    XorCommutes(a, y);
    XorCancel(x, a);
    XorCancel(y, a);
  }

  /** Two packets of a direction share the nonce their method uses exactly when their counters agree mod the period. */
  lemma NonceCollision(m: Method, iv: Block, s: nat, t: nat)
    ensures Nonce(m, iv, s)[..IvLen(m)] == Nonce(m, iv, t)[..IvLen(m)] <==> s % Period(m) == t % Period(m)
  {
    var w := XorWidth(m);
    var start := IvLen(m) - w;
    var a, b := Nonce(m, iv, s), Nonce(m, iv, t);
    ToBeSuffix(s, 8 - w, w);
    ToBeSuffix(t, 8 - w, w);
    ToBeDetermines(s, t, w);
    if a[..IvLen(m)] == b[..IvLen(m)] {
      forall i | 0 <= i < w ensures ToBe(s, w)[i] == ToBe(t, w)[i] {
        assert a[..IvLen(m)][start + i] == b[..IvLen(m)][start + i];
        XorInjective(iv[start + i], ToBe(s, 8)[8 - w + i], ToBe(t, 8)[8 - w + i]);
      }
      assert ToBe(s, w) == ToBe(t, w);
    }
  }

  /** AES nonces repeat only after 2^64 packets, ChaCha20 nonces after 2^32. */
  lemma Periods(m: Method)
    ensures Period(m) == if m.ChaCha20? then 0x1_0000_0000 else 0x1_0000_0000_0000_0000
  {
    assert Pow256(2) == 0x1_0000;
    assert Pow256(4) == 0x1_0000_0000;
    assert Pow256(6) == 0x1_0000_0000_0000;
    assert Pow256(8) == 0x1_0000_0000_0000_0000;
  }

  // ----- one packet

  function Core(c: Keyed): BlockFn {
    match c.mode
    case Aes128Cfb | Aes128Ctr => c.prim.aes128(c.key[..16])
    case _ => c.prim.aes256(c.key)
  }

  function KeystreamByte(c: Keyed, nonce: Bytes, i: nat): byte { c.prim.chacha(c.key, nonce, i) }

  function Keystream(c: Keyed, nonce: Bytes, n: nat): (r: Bytes)
    ensures |r| == n
  {
    seq(n, i requires 0 <= i < n => KeystreamByte(c, nonce, i))
  }

  /** The packet with number `counter`, in one direction. */
  function Applied(c: Keyed, counter: nat, encrypting: bool, data: Bytes): (r: Bytes)
    ensures |r| == |data|
  {
    var nonce := Nonce(c.mode, c.iv, counter);
    match c.mode
    case Aes128Cfb | Aes256Cfb =>
      if encrypting then CfbEncrypted(Core(c), nonce, data) else CfbDecrypted(Core(c), nonce, data)
    case Aes128Ctr | Aes256Ctr => CtrApplied(CounterStream(Core(c)), CounterOf(nonce), data)
    case ChaCha20 => XorStream(data, Keystream(c, nonce[..12], |data|))
  }

  /** The decrypting side undoes the encrypting side whenever both are at the same packet number. */
  lemma AppliedInverts(c: Keyed, counter: nat, data: Bytes)
    ensures Applied(c, counter, false, Applied(c, counter, true, data)) == data
  {
    var nonce := Nonce(c.mode, c.iv, counter);
    match c.mode
    case Aes128Cfb | Aes256Cfb => CfbInverts(Core(c), nonce, data);
    case Aes128Ctr | Aes256Ctr => CtrTwice(CounterStream(Core(c)), CounterOf(nonce), data);
    case ChaCha20 => XorStreamTwice(data, Keystream(c, nonce[..12], |data|));
  }

  // ----- what a packet is, byte by byte

  /** AES: the eight bytes of the packet number go into the last eight of the base IV; ChaCha20: the low four into bytes 8 to 11. */
  lemma NonceBytes(m: Method, iv: Block, counter: u64, j: nat)
    requires j < 16
    ensures var n := Nonce(m, iv, counter);
      if m.ChaCha20? then n[j] == if 8 <= j < 12 then XorByte(iv[j], counter / Pow256(11 - j) % 0x100) else iv[j]
      else n[j] == if 8 <= j then XorByte(iv[j], counter / Pow256(15 - j) % 0x100) else iv[j]
  {
    if m.ChaCha20? {
      if 8 <= j < 12 {
        ToBeByte(counter, 8, j - 4);
      }
    } else if j >= 8 {
      ToBeByte(counter, 8, j - 8);
    }
  }

  /** The block cipher a method keys: 16 or all 32 key bytes. */
  function BlockCipher(c: Keyed): BlockFn {
    if c.mode.Aes128Cfb? || c.mode.Aes128Ctr? then c.prim.aes128(c.key[..16]) else c.prim.aes256(c.key)
  }

  /** Every byte of a packet, by the equation of its method over the primitives themselves. */
  lemma AppliedByte(c: Keyed, counter: nat, encrypting: bool, data: Bytes, i: nat)
    requires i < |data|
    ensures var nonce, out := Nonce(c.mode, c.iv, counter), Applied(c, counter, encrypting, data);
      if c.mode.ChaCha20? then out[i] == XorByte(data[i], c.prim.chacha(c.key, nonce[..12], i))
      else if c.mode.Aes128Ctr? || c.mode.Aes256Ctr? then
        out[i] == XorByte(data[i], Run(BlockCipher(c), CounterBlock((FromBe(nonce) + i / 16) % TWO128))[i % 16])
      else out[i] == XorByte(data[i], Run(BlockCipher(c), FeedbackOf(nonce, if encrypting then out else data, i))[i % 16])
  {
    var nonce := Nonce(c.mode, c.iv, counter);
    match c.mode
    case Aes128Cfb | Aes256Cfb =>
      CfbEncryptedByte(Core(c), nonce, data, i);
      CfbDecryptedByte(Core(c), nonce, data, i);
    case Aes128Ctr | Aes256Ctr => CounterByte(Core(c), nonce, data, i);
    case ChaCha20 => assert Keystream(c, nonce[..12], |data|)[i] == c.prim.chacha(c.key, nonce[..12], i);
  }

  /** The `u64` packet counter wraps. */
  function Advance(counter: u64): u64 { (counter + 1) % TWO64 }

  class SessionCipher {
    const keyed: Keyed
    const encrypting: bool
    var counter: u64

    constructor (keyed: Keyed, encrypting: bool)
      ensures this.keyed == keyed && this.encrypting == encrypting && counter == 0
    {
      this.keyed := keyed;
      this.encrypting := encrypting;
      counter := 0;
    }

    /** The nonce of the current packet; the counter advances. */
    method NextNonce() returns (nonce: Block)
      modifies this
      ensures nonce == Nonce(keyed.mode, keyed.iv, old(counter)) && counter == Advance(old(counter))
    {
      var width := XorWidth(keyed.mode);
      var start := IvLen(keyed.mode) - width;
      var be := ToBe(counter, 8);
      nonce := keyed.iv;
      for i := 0 to width
        invariant forall k :: 0 <= k < 16 ==>
          nonce[k] == if start <= k < start + i then XorByte(keyed.iv[k], be[8 - width + k - start]) else keyed.iv[k]
      {
        nonce := nonce[start + i := XorByte(nonce[start + i], be[8 - width + i])];
      }
      counter := Advance(counter);
    }

    /** Encrypts or decrypts `data` in place, consuming one nonce. */
    method Apply(data: array<byte>)
      modifies this, data
      ensures data[..] == Applied(keyed, old(counter), encrypting, old(data[..]))
      ensures counter == Advance(old(counter))
    {
      var nonce := NextNonce();
      match keyed.mode
      case Aes128Cfb | Aes256Cfb =>
        if encrypting {
          CfbEncrypt(Core(keyed), nonce, data);
        } else {
          CfbDecrypt(Core(keyed), nonce, data);
        }
      case Aes128Ctr | Aes256Ctr =>
        CtrApply(Core(keyed), nonce, data);
      case ChaCha20 =>
        XorAt(data, 0, data.Length, Keystream(keyed, nonce[..12], data.Length));
    }
  }
}
