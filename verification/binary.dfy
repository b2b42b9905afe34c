/** Binary framing: the encrypted three-byte header and the payload transform chain. */
module Binary {
  import opened Bits
  import opened Errors
  import opened Limits
  import opened SessionCiphers
  import Ssea
  import Simd

  const HEADER_SIZE: nat := 3

  datatype PayloadFlags = PayloadFlags(masked: bool, shuffle: bool, delta: bool)

  /** All transforms on, as before the handshake. */
  const SAFEST := PayloadFlags(true, true, true)

  // ----- payload

  /** Mask, then shuffle, then delta. */
  function Obfuscated(s: Bytes, flags: PayloadFlags, headerKf: u32, kf: u32): (r: Bytes)
    requires |s| < TWO32
    ensures |r| == |s|
  {
    var m := if flags.masked then Ssea.Masked(s, headerKf) else s;
    var t := if flags.shuffle then Ssea.Shuffled(m, headerKf) else m;
    if flags.delta then Simd.DeltaEncoded(t, Low(kf)) else t
  }

  function Deobfuscated(s: Bytes, flags: PayloadFlags, headerKf: u32, kf: u32): (r: Bytes)
    requires |s| < TWO32
    ensures |r| == |s|
  {
    var d := if flags.delta then Simd.DeltaDecoded(s, Low(kf)) else s;
    var t := if flags.shuffle then Ssea.Unshuffled(d, headerKf) else d;
    if flags.masked then Ssea.Masked(t, headerKf) else t
  }

  /** The reversed chain undoes the chain, for every flag combination and all keys. */
  lemma ObfuscationInverts(s: Bytes, flags: PayloadFlags, headerKf: u32, kf: u32)
    requires |s| < TWO32
    ensures Deobfuscated(Obfuscated(s, flags, headerKf, kf), flags, headerKf, kf) == s
  {
    var m := if flags.masked then Ssea.Masked(s, headerKf) else s;
    var t := if flags.shuffle then Ssea.Shuffled(m, headerKf) else m;
    Simd.DeltaInverts(t, Low(kf));
    Ssea.ShuffleInverts(m, headerKf);
    Ssea.MaskedTwice(s, headerKf);
  }

  method PayloadObfuscate(data: array<byte>, flags: PayloadFlags, headerKf: u32, kf: u32)
    requires data.Length < TWO32
    modifies data
    ensures data[..] == Obfuscated(old(data[..]), flags, headerKf, kf)
  {
    if flags.masked {
      Ssea.MaskedXorRandomNext(data, headerKf);
    }
    if flags.shuffle {
      Ssea.Shuffle(data, headerKf);
    }
    if flags.delta {
      Simd.DeltaEncode(data, Low(kf));
    }
  }

  method PayloadDeobfuscate(data: array<byte>, flags: PayloadFlags, headerKf: u32, kf: u32)
    requires data.Length < TWO32
    modifies data
    ensures data[..] == Deobfuscated(old(data[..]), flags, headerKf, kf)
  {
    if flags.delta {
      Simd.DeltaDecode(data, Low(kf));
    }
    if flags.shuffle {
      Ssea.Unshuffle(data, headerKf);
    }
    if flags.masked {
      Ssea.MaskedXorRandomNext(data, headerKf);
    }
  }

  // ----- header

  function XorLowByte(s: Bytes, w: u32): (r: Bytes)
    requires |s| == 2
    ensures |r| == 2
  {
    [XorByte(s[0], Low(w)), XorByte(s[1], Low(w))]
  }

  /** The length less one, big endian. */
  function LengthBytes(length: nat): (r: Bytes)
    requires 1 <= length <= PPP_BUFFER_SIZE
    ensures |r| == 2
  {
    [(length - 1) / 0x100, (length - 1) % 0x100]
  }

  function LengthOf(s: Bytes): (n: nat)
    requires |s| == 2
    ensures 1 <= n <= PPP_BUFFER_SIZE
  {
    0x100 * (s[0] as int) + s[1] + 1
  }

  /** Seed, then two length bytes masked and shuffled by kf ^ seed, all delta coded. */
  function Wrapped(kf: u32, e: Bytes, seed: byte): (h: Bytes)
    requires |e| == 2
    ensures |h| == HEADER_SIZE
  {
    var headerKf := XorWord(kf, seed);
    Simd.DeltaEncoded([seed] + Ssea.Shuffled(XorLowByte(e, headerKf), headerKf), Low(kf))
  }

  function Unwrapped(kf: u32, h: Bytes): (r: (Bytes, u32))
    requires |h| == HEADER_SIZE
    ensures |r.0| == 2
  {
    var a := Simd.DeltaDecoded(h, Low(kf));
    var headerKf := XorWord(kf, a[0]);
    (XorLowByte(Ssea.Unshuffled(a[1..], headerKf), headerKf), headerKf)
  }

  lemma XorLowByteTwice(s: Bytes, w: u32)
    requires |s| == 2
    ensures XorLowByte(XorLowByte(s, w), w) == s
  {
    XorCancel(s[0], Low(w));
    XorCancel(s[1], Low(w));
  }

  lemma UnwrapInverts(kf: u32, e: Bytes, seed: byte)
    requires |e| == 2
    ensures Unwrapped(kf, Wrapped(kf, e, seed)) == (e, XorWord(kf, seed))
  {
    var headerKf := XorWord(kf, seed);
    var x := XorLowByte(e, headerKf);
    var a := [seed] + Ssea.Shuffled(x, headerKf);
    Simd.DeltaInverts(a, Low(kf));
    assert a[1..] == Ssea.Shuffled(x, headerKf);
    Ssea.ShuffleInverts(x, headerKf);
    XorLowByteTwice(e, headerKf);
  }

  /** The length travels under the protocol cipher inside the wrapping. */
  function EncryptedHeader(kf: u32, c: Keyed, counter: nat, length: nat, seed: byte): (h: Bytes)
    requires 1 <= length <= PPP_BUFFER_SIZE
    ensures |h| == HEADER_SIZE
  {
    Wrapped(kf, Applied(c, counter, true, LengthBytes(length)), seed)
  }

  function DecryptedHeader(kf: u32, c: Keyed, counter: nat, h: Bytes): (r: (nat, u32))
    requires |h| == HEADER_SIZE
    ensures 1 <= r.0 <= PPP_BUFFER_SIZE
  {
    var u := Unwrapped(kf, h);
    (LengthOf(Applied(c, counter, false, u.0)), u.1)
  }

  /** At the same packet number the reader recovers the length and the header key. */
  lemma HeaderInverts(kf: u32, c: Keyed, counter: nat, length: nat, seed: byte)
    requires 1 <= length <= PPP_BUFFER_SIZE
    ensures DecryptedHeader(kf, c, counter, EncryptedHeader(kf, c, counter, length, seed))
         == (length, XorWord(kf, seed))
  {
    UnwrapInverts(kf, Applied(c, counter, true, LengthBytes(length)), seed);
    AppliedInverts(c, counter, LengthBytes(length));
  }

  method HeaderEncrypt(kf: u32, cipher: SessionCipher, length: nat, seed: byte) returns (r: Result<(Bytes, u32)>)
    requires cipher.encrypting
    modifies cipher
    ensures r.Ok? <==> 1 <= length <= PPP_BUFFER_SIZE
    ensures r.Ok? ==> r.value == (EncryptedHeader(kf, cipher.keyed, old(cipher.counter), length, seed), XorWord(kf, seed))
    ensures r.Ok? ==> cipher.counter == Advance(old(cipher.counter))
    ensures r.Err? ==> r == Err(FrameTooLarge) && cipher.counter == old(cipher.counter)
  {
    if length == 0 || length > PPP_BUFFER_SIZE {
      return Err(FrameTooLarge);
    }
    var adjusted := length - 1;
    var headerKf := XorWord(kf, seed);
    var tail := new byte[2];
    tail[0], tail[1] := adjusted / 0x100, adjusted % 0x100;
    assert tail[..] == LengthBytes(length);
    cipher.Apply(tail);
    ghost var e := tail[..];
    tail[0], tail[1] := XorByte(tail[0], Low(headerKf)), XorByte(tail[1], Low(headerKf));
    assert tail[..] == XorLowByte(e, headerKf);
    Ssea.Shuffle(tail, headerKf);
    var a := new byte[3];
    a[0], a[1], a[2] := seed, tail[0], tail[1];
    assert a[..] == [seed] + tail[..];
    Simd.DeltaEncode(a, Low(kf));
    return Ok((a[..], headerKf));
  }

  method HeaderDecrypt(kf: u32, cipher: SessionCipher, header: Bytes) returns (length: nat, headerKf: u32)
    requires !cipher.encrypting && |header| == HEADER_SIZE
    modifies cipher
    ensures (length, headerKf) == DecryptedHeader(kf, cipher.keyed, old(cipher.counter), header)
    ensures cipher.counter == Advance(old(cipher.counter))
  {
    var tail;
    tail, headerKf := Unwrap(kf, header);
    cipher.Apply(tail);
    var bytes := tail[..];
    length := LengthOf(bytes);
  }

  /** Everything up to the protocol cipher, on a copy of the header. */
  method Unwrap(kf: u32, header: Bytes) returns (tail: array<byte>, headerKf: u32)
    requires |header| == HEADER_SIZE
    ensures fresh(tail) && (tail[..], headerKf) == Unwrapped(kf, header)
  {
    var a := new byte[3](i requires 0 <= i < 3 && |header| == 3 => header[i]);
    assert a[..] == header;
    Simd.DeltaDecode(a, Low(kf));
    headerKf := XorWord(kf, a[0]);
    tail := new byte[2];
    tail[0], tail[1] := a[1], a[2];
    assert tail[..] == a[1..];
    Ssea.Unshuffle(tail, headerKf);
    ghost var u := tail[..];
    tail[0], tail[1] := XorByte(tail[0], Low(headerKf)), XorByte(tail[1], Low(headerKf));
    assert tail[..] == XorLowByte(u, headerKf);
  }
}
