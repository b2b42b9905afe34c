/** The obfuscation primitives: LCG, Lemire remainder, keyed shuffle and evolving xor mask. */
module Ssea {
  import opened Bits

  const LCG_A: u32 := 1_103_515_245
  const LCG_C: u32 := 12_345
  // Two and three steps at once; LcgCoefficients derives these values.
  const LCG_A2: u32 := 3_265_436_265
  const LCG_C2: u32 := 3_554_416_254
  const LCG_A3: u32 := 2_155_723_957
  const LCG_C3: u32 := 2_802_067_423

  // ----- linear congruential generator

  datatype Lcg = Lcg(seed: u32, value: u32)

  function LcgStep(x: u32): u32 { (x * LCG_A + LCG_C) % TWO32 }

  /** The original formulation: three chained steps contributing 11, 10 and 10 bits. */
  function LcgReference(seed: u32): (r: Lcg)
    ensures r.value < 0x8000_0000
  {
    var n1 := LcgStep(seed);
    var n2 := LcgStep(n1);
    var n3 := LcgStep(n2);
    Lcg(n3, ((n1 / 65536) % 2048) * 0x10_0000 + ((n2 / 65536) % 1024) * 0x400 + (n3 / 65536) % 1024)
  }

  /** An affine map followed by one LCG step is the affine map with both coefficients stepped. */
  lemma AffineStep(x: u32, a: nat, c: nat, a': nat, c': nat)
    requires a' == (a * LCG_A) % TWO32 && c' == (c * LCG_A + LCG_C) % TWO32
    ensures LcgStep((x * a + c) % TWO32) == (x * a' + c') % TWO32
  {
    var q := (x * a + c) / TWO32;
    var ga, gc := (a * LCG_A) / TWO32, (c * LCG_A + LCG_C) / TWO32;
    var lhs, rhs := ((x * a + c) % TWO32) * LCG_A + LCG_C, x * a' + c';
    assert x * a' == x * (a * LCG_A) - TWO32 * (x * ga) by {
      assert a' == a * LCG_A - TWO32 * ga;
    }
    assert (x * a) * LCG_A == x * (a * LCG_A);
    assert lhs == rhs + TWO32 * (x * ga + gc - q * LCG_A);
    ModShift(rhs, TWO32, x * ga + gc - q * LCG_A);
  }

  lemma ModShift(x: int, d: int, k: int)
    requires d > 0
    ensures (x + d * k) % d == x % d
  {
    var q, r := x / d, x % d;
    assert x + d * k == d * (q + k) + r;
    ModUnique(x + d * k, d, q + k, r);
  }

  /** The wrapping products the two- and three-step coefficients are defined by. */
  lemma LcgCoefficients()
    ensures LCG_A2 == (LCG_A * LCG_A) % TWO32 && LCG_C2 == (LCG_C * (LCG_A + 1)) % TWO32
    ensures LCG_A3 == (LCG_A2 * LCG_A) % TWO32 && LCG_C3 == (LCG_C * LCG_A2 + LCG_C * LCG_A + LCG_C) % TWO32
  {
  }

  lemma LcgAffineTwo(seed: u32)
    ensures LcgStep((seed * LCG_A + LCG_C) % TWO32) == (seed * LCG_A2 + LCG_C2) % TWO32
  {
    AffineStep(seed, 1_103_515_245, 12_345, 3_265_436_265, 3_554_416_254);
  }

  lemma LcgAffineThree(seed: u32)
    ensures LcgStep((seed * LCG_A2 + LCG_C2) % TWO32) == (seed * LCG_A3 + LCG_C3) % TWO32
  {
    AffineStep(seed, 3_265_436_265, 3_554_416_254, 2_155_723_957, 2_802_067_423);
  }

  /** Advances the seed; every step is an affine map of the seed, so all three are independent multiplies. */
  method LcgNext(seed: u32) returns (next: u32, value: u32)
    ensures Lcg(next, value) == LcgReference(seed)
  {
    var next1 := (seed * LCG_A + LCG_C) % TWO32;
    var next2 := (seed * LCG_A2 + LCG_C2) % TWO32;
    var next3 := (seed * LCG_A3 + LCG_C3) % TWO32;
    LcgAffineTwo(seed);
    LcgAffineThree(seed);
    next := next3;
    // The three bit fields are disjoint, so `|` adds them.
    value := ((next1 / 65536) % 2048) * 0x10_0000 + ((next2 / 65536) % 1024) * 0x400 + (next3 / 65536) % 1024;
  }

  function LcgRange(seed: u32, min: u32, max: u32): (r: u32)
    requires min <= max && max - min + 1 < TWO32
    ensures min <= r <= max
  {
    LcgReference(seed).value % (max - min + 1) + min
  }

  // ----- Lemire remainder

  function FastmodMagic(d: u32): u64
    requires d >= 2
  {
    (TWO64 - 1) / d + 1
  }

  /** The `u64` multiplication wraps, the `u128` one does not. */
  function FastMod(x: u32, magic: u64, d: u32): (r: nat)
    requires d >= 2
  {
    var lowbits := (magic * x) % TWO64;
    (lowbits * d) / TWO64
  }

  /** The magic number exceeds 2^64 / d by less than one part in 2^64. */
  lemma MagicNumber(d: u32)
    requires d >= 2
    ensures TWO64 <= FastmodMagic(d) * d < TWO64 + d
  {
    var m := FastmodMagic(d);
    assert TWO64 - 1 == d * (m - 1) + (TWO64 - 1) % d;
    assert m * d == d * (m - 1) + d;
  }

  /** Product of the magic number and the dividend, quotient and low part. */
  lemma MagicProduct(x: u32, d: nat, m: nat, e: nat, q: nat, r: nat, low: nat)
    requires x == d * q + r && m * d == TWO64 + e && low == q * e + m * r
    ensures m * x == TWO64 * q + low
  {
    assert m * x == (m * d) * q + m * r;
    assert (TWO64 + e) * q == TWO64 * q + e * q;
  }

  /** Low part times the divisor, remainder above 2^64. */
  lemma LowProduct(x: u32, d: nat, m: nat, e: nat, q: nat, r: nat, low: nat)
    requires x == d * q + r && m * d == TWO64 + e && low == q * e + m * r
    ensures low * d == TWO64 * r + e * x
  {
    assert (q * e + m * r) * d == (q * e) * d + (m * r) * d;
    assert (m * r) * d == (m * d) * r;
    assert (TWO64 + e) * r == TWO64 * r + e * r;
    assert (q * e) * d == e * (d * q);
    assert e * x == e * (d * q) + e * r;
  }

  /** Two multiplications and a shift give the exact remainder, for every dividend and divisor. */
  lemma FastModExact(x: u32, d: u32)
    requires d >= 2
    ensures FastMod(x, FastmodMagic(d), d) == x % d
  {
    hide FastmodMagic, FastMod;
    MagicNumber(d);
    Division(x, d);
    var m := FastmodMagic(d);
    var e, q, r := m * d - TWO64, x / d, x % d;
    var low := q * e + m * r;
    LowBitsFit(x, d, m, e, q, r);
    MagicProduct(x, d, m, e, q, r, low);
    LowProduct(x, d, m, e, q, r, low);
    SmallProduct(e, x, d);
    FromProducts(x, d, m, e, q, r, low);
  }

  lemma SmallProduct(e: nat, x: u32, d: u32)
    requires e < d
    ensures e * x < TWO64
  {
    MulMono(e, x, TWO32);
  }

  lemma Division(x: nat, d: nat)
    requires d > 0
    ensures x == d * (x / d) + x % d && x % d < d
  {
  }

  lemma FromProducts(x: u32, d: u32, m: u64, e: nat, q: nat, r: nat, low: nat)
    requires d >= 2 && m * x == TWO64 * q + low && low < TWO64 && low * d == TWO64 * r + e * x && e * x < TWO64
    ensures FastMod(x, m, d) == r
  {
    ModUnique(m * x, TWO64, q, low);
    ModUnique(low * d, TWO64, r, e * x);
  }

  lemma MulMono(a: nat, b: nat, c: nat)
    requires b <= c
    ensures a * b <= a * c
  {
  }

  lemma LowBitsFit(x: u32, d: u32, m: nat, e: nat, q: nat, r: nat)
    requires d >= 2 && m * d == TWO64 + e && e < d && x == d * q + r && r < d
    ensures q * e + m * r < TWO64
  {
    var t := d - r;
    MagicAboveWord(d, m);
    assert m * r == TWO64 + e - m * t by { assert m * d == m * r + m * t; }
    MulMono(1 + q, e, d);
    assert (1 + q) * e == e + q * e && (1 + q) * d == x + t;
    MulMono(m - 1, 1, t);
    assert (m - 1) * t == m * t - t;
  }

  lemma MagicAboveWord(d: u32, m: nat)
    requires m * d >= TWO64
    ensures m > TWO32
  {
    if m <= TWO32 {
      MulMono(d, m, TWO32);
    }
  }

  // ----- keyed permutation

  /** Partner of position `i` in the swap chain: `(i ^ key) % size`. */
  function SwapIndex(i: u32, key: u32, size: nat): (j: nat)
    requires size > 0
    ensures j < size
  {
    XorWord(i, key) % size
  }

  function Swap(s: Bytes, i: nat, j: nat): (r: Bytes)
    requires i < |s| && j < |s|
    ensures |r| == |s|
  {
    s[i := s[j]][j := s[i]]
  }

  /** The first `k` swaps of the chain, in increasing order. */
  function Swaps(s: Bytes, key: u32, k: nat): (r: Bytes)
    requires k <= |s| < TWO32
    ensures |r| == |s|
  {
    if k == 0 then s else Swap(Swaps(s, key, k - 1), k - 1, SwapIndex(k - 1, key, |s|))
  }

  /** The same swaps, in decreasing order. */
  function Unswaps(s: Bytes, key: u32, k: nat): (r: Bytes)
    requires k <= |s| < TWO32
    ensures |r| == |s|
    decreases k
  {
    if k == 0 then s else Unswaps(Swap(s, k - 1, SwapIndex(k - 1, key, |s|)), key, k - 1)
  }

  function Shuffled(s: Bytes, key: u32): (r: Bytes)
    requires |s| < TWO32
    ensures |r| == |s|
  {
    if |s| < 2 then s else Swaps(s, key, |s|)
  }

  function Unshuffled(s: Bytes, key: u32): (r: Bytes)
    requires |s| < TWO32
    ensures |r| == |s|
  {
    if |s| < 2 then s else Unswaps(s, key, |s|)
  }

  lemma SwapTwice(s: Bytes, i: nat, j: nat)
    requires i < |s| && j < |s|
    ensures Swap(Swap(s, i, j), i, j) == s
  {
  }

  lemma {:induction false} UnswapsUndo(s: Bytes, key: u32, k: nat)
    requires k <= |s| < TWO32
    ensures Unswaps(Swaps(s, key, k), key, k) == s
  {
    if k > 0 {
      SwapTwice(Swaps(s, key, k - 1), k - 1, SwapIndex(k - 1, key, |s|));
      UnswapsUndo(s, key, k - 1);
    }
  }

  lemma {:induction false} SwapsUndo(s: Bytes, key: u32, k: nat)
    requires k <= |s| < TWO32
    ensures Swaps(Unswaps(s, key, k), key, k) == s
    decreases k
  {
    if k > 0 {
      var t := Swap(s, k - 1, SwapIndex(k - 1, key, |s|));
      SwapTwice(s, k - 1, SwapIndex(k - 1, key, |s|));
      SwapsUndo(t, key, k - 1);
    }
  }

  lemma {:induction false} SwapsPermute(s: Bytes, key: u32, k: nat)
    requires k <= |s| < TWO32
    ensures multiset(Swaps(s, key, k)) == multiset(s)
  {
    hide SwapIndex, Swap;
    if k > 0 {
      SwapsPermute(s, key, k - 1);
      SwapKeeps(Swaps(s, key, k - 1), k - 1, SwapIndex(k - 1, key, |s|), Swaps(s, key, k));
    }
  }

  lemma SwapKeeps(s: Bytes, i: nat, j: nat, t: Bytes)
    requires i < |s| && j < |s| && t == Swap(s, i, j)
    ensures multiset(t) == multiset(s)
  {
  }

  /** Shuffling permutes the bytes, and `unshuffle` is its two-sided inverse. */
  lemma ShuffleInverts(s: Bytes, key: u32)
    requires |s| < TWO32
    ensures Unshuffled(Shuffled(s, key), key) == s
    ensures Shuffled(Unshuffled(s, key), key) == s
    ensures multiset(Shuffled(s, key)) == multiset(s)
  {
    UnswapsUndo(s, key, |s|);
    SwapsUndo(s, key, |s|);
    SwapsPermute(s, key, |s|);
  }

  method Shuffle(a: array<byte>, key: u32)
    requires a.Length < TWO32
    modifies a
    ensures a[..] == Shuffled(old(a[..]), key)
  {
    var size := a.Length;
    ghost var was := a[..];
    if size >= 2 {
      var magic := FastmodMagic(size);
      for i := 0 to size
        invariant a[..] == Swaps(was, key, i)
      {
        FastModExact(XorWord(i, key), size);
        var j := FastMod(XorWord(i, key), magic, size);
        ghost var cur := a[..];
        a[i], a[j] := a[j], a[i];
        assert a[..] == Swap(cur, i, j);
      }
    }
  }

  method Unshuffle(a: array<byte>, key: u32)
    requires a.Length < TWO32
    modifies a
    ensures a[..] == Unshuffled(old(a[..]), key)
  {
    var size := a.Length;
    ghost var was := a[..];
    if size >= 2 {
      var magic := FastmodMagic(size);
      for i := size downto 0
        invariant Unswaps(a[..], key, i) == Unswaps(was, key, size)
      {
        FastModExact(XorWord(i, key), size);
        var j := FastMod(XorWord(i, key), magic, size);
        ghost var cur := a[..];
        a[i], a[j] := a[j], a[i];
        assert a[..] == Swap(cur, i, j);
      }
    }
  }

  // ----- evolving xor mask

  /** The next mask key is the returned value, not the LCG state. */
  function NextKey(kf: u32): u32 { LcgReference(kf).value }

  function Byte(w: u32, k: nat): byte
    requires k < 4
  {
    match k
    case 0 => w % 0x100
    case 1 => (w / 0x100) % 0x100
    case 2 => (w / 0x1_0000) % 0x100
    case _ => (w / 0x100_0000) % 0x100
  }

  function XorFour(s: Bytes, kf: u32): (r: Bytes)
    requires |s| >= 4
    ensures |r| == 4
  {
    [XorByte(s[0], Byte(kf, 0)), XorByte(s[1], Byte(kf, 1)), XorByte(s[2], Byte(kf, 2)), XorByte(s[3], Byte(kf, 3))]
  }

  /** Little-endian words, then a half word, then a last byte, each under the next key of the chain. */
  function MaskFrom(s: Bytes, kf: u32): (r: Bytes)
    ensures |r| == |s|
  {
    if |s| >= 4 then XorFour(s, kf) + MaskFrom(s[4..], NextKey(kf))
    else if |s| >= 2 then
      [XorByte(s[0], Byte(kf, 0)), XorByte(s[1], Byte(kf, 1))] + MaskFrom(s[2..], NextKey(kf))
    else if |s| == 1 then [XorByte(s[0], Byte(kf, 0))]
    else []
  }

  function Masked(s: Bytes, kf: u32): (r: Bytes)
    ensures |r| == |s|
  {
    MaskFrom(s, NextKey(kf))
  }

  lemma {:induction false} MaskFromTwice(s: Bytes, kf: u32)
    ensures MaskFrom(MaskFrom(s, kf), kf) == s
  {
    forall i | 0 <= i < |s| && i < 4 ensures XorByte(XorByte(s[i], Byte(kf, i)), Byte(kf, i)) == s[i] {
      XorCancel(s[i], Byte(kf, i));
    }
    var step := if |s| >= 4 then 4 else if |s| >= 2 then 2 else |s|;
    var r := MaskFrom(s, kf);
    if |s| >= 2 {
      MaskFromTwice(s[step..], NextKey(kf));
      assert r[step..] == MaskFrom(s[step..], NextKey(kf));
    }
    assert s == s[..step] + s[step..];
  }

  /** The key chain does not depend on the data, so masking twice is the identity. */
  lemma MaskedTwice(s: Bytes, kf: u32)
    ensures Masked(Masked(s, kf), kf) == s
  {
    MaskFromTwice(s, NextKey(kf));
  }

  /** Key number `j` of the chain that starts at `kf`; the data plays no part in it. */
  function ChainKey(kf: u32, j: nat): u32
    decreases j
  {
    if j == 0 then kf else ChainKey(NextKey(kf), j - 1)
  }

  /** Position of a byte's key in the chain, and the byte of that key: whole words, then a half word, then an odd byte. */
  function KeyPlace(size: nat, i: nat): (nat, nat)
    requires i < size
  {
    var whole := size / 4 * 4;
    if i < whole || i < whole + 2 then (i / 4, i % 4) else (i / 4 + 1, 0)
  }

  lemma {:induction false} MaskFromByte(s: Bytes, kf: u32, i: nat)
    requires i < |s|
    ensures var (j, b) := KeyPlace(|s|, i); b < 4 && MaskFrom(s, kf)[i] == XorByte(s[i], Byte(ChainKey(kf, j), b))
    decreases |s|
  {
    hide XorByte, Byte, NextKey, MaskFrom;
    if |s| >= 4 && i >= 4 {
      MaskFromByte(s[4..], NextKey(kf), i - 4);
      MaskFirst(s, kf, i);
      PlaceShifts(|s|, i);
      hide KeyPlace;
    } else {
      MaskFirst(s, kf, i);
      assert ChainKey(kf, 1) == ChainKey(NextKey(kf), 0);
    }
  }

  /** One piece of the mask, and where the rest goes on. */
  lemma MaskFirst(s: Bytes, kf: u32, i: nat)
    requires i < |s|
    ensures |s| >= 4 && i >= 4 ==> MaskFrom(s, kf)[i] == MaskFrom(s[4..], NextKey(kf))[i - 4]
    ensures |s| >= 4 && i < 4 ==> MaskFrom(s, kf)[i] == XorByte(s[i], Byte(kf, i))
    ensures |s| < 4 && i < 2 ==> MaskFrom(s, kf)[i] == XorByte(s[i], Byte(kf, i))
    ensures |s| < 4 && i == 2 ==> MaskFrom(s, kf)[i] == XorByte(s[i], Byte(NextKey(kf), 0))
  {
    hide XorByte, Byte, NextKey;
    if |s| < 4 && i == 2 {
      assert MaskFrom(s[2..], NextKey(kf)) == [XorByte(s[2], Byte(NextKey(kf), 0))];
    }
  }

  lemma PlaceShifts(size: nat, i: nat)
    requires 4 <= i < size
    ensures KeyPlace(size, i).0 == KeyPlace(size - 4, i - 4).0 + 1 && KeyPlace(size, i).1 == KeyPlace(size - 4, i - 4).1
  {
    assert (size - 4) / 4 == size / 4 - 1 && (i - 4) / 4 == i / 4 - 1 && (i - 4) % 4 == i % 4;
  }

  /** Every byte of a masked buffer: xored with one byte of one key of the chain, the seed itself never being used. */
  lemma MaskedByte(s: Bytes, seed: u32, i: nat)
    requires i < |s|
    ensures var (j, b) := KeyPlace(|s|, i); b < 4 && Masked(s, seed)[i] == XorByte(s[i], Byte(ChainKey(seed, j + 1), b))
  {
    MaskFromByte(s, NextKey(seed), i);
  }

  function FromLe(b0: byte, b1: byte, b2: byte, b3: byte): u32 {
    b0 + 0x100 * b1 + 0x1_0000 * b2 + 0x100_0000 * b3
  }

  /** Xor of little-endian words is xor of their bytes. */
  lemma WordXor(b0: byte, b1: byte, b2: byte, b3: byte, kf: u32)
    ensures var v := XorWord(FromLe(b0, b1, b2, b3), kf);
      && Byte(v, 0) == XorByte(b0, Byte(kf, 0)) && Byte(v, 1) == XorByte(b1, Byte(kf, 1))
      && Byte(v, 2) == XorByte(b2, Byte(kf, 2)) && Byte(v, 3) == XorByte(b3, Byte(kf, 3))
  {
    var w := FromLe(b0, b1, b2, b3);
    Pow2Words();
    ShrBytes(w);
    ShrBytes(kf);
    ShrBytes(XorWord(w, kf));
    XorLow(w, kf, 8);
    XorHigh(w, kf, 8);
    XorLow(w / 0x100, kf / 0x100, 8);
    XorHigh(w, kf, 16);
    XorLow(w / 0x1_0000, kf / 0x1_0000, 8);
    XorHigh(w, kf, 24);
    XorLow(w / 0x100_0000, kf / 0x100_0000, 8);
    LeDigits(b0, b1, b2, b3);
  }

  lemma LeDigits(b0: byte, b1: byte, b2: byte, b3: byte)
    ensures var w := FromLe(b0, b1, b2, b3);
      Byte(w, 0) == b0 && Byte(w, 1) == b1 && Byte(w, 2) == b2 && Byte(w, 3) == b3
  {
    var w := FromLe(b0, b1, b2, b3);
    assert w / 0x100 == b1 + 0x100 * b2 + 0x1_0000 * b3;
    assert w / 0x1_0000 == b2 + 0x100 * b3;
    assert w / 0x100_0000 == b3;
  }

  method MaskedXorRandomNext(a: array<byte>, seed: u32)
    modifies a
    ensures a[..] == Masked(old(a[..]), seed)
  {
    ghost var goal := Masked(a[..], seed);
    var next, kf := LcgNext(seed);
    var p := 0;
    while a.Length - p >= 4
      invariant p <= a.Length
      invariant goal == a[..p] + MaskFrom(a[p..], kf)
    {
      ghost var head, rest := a[..p], a[p..];
      MaskStep(head, rest, kf);
      XorWordAt(a, p, kf);
      assert a[..p + 4] == head + XorFour(rest, kf) && a[p + 4..] == rest[4..];
      next, kf := LcgNext(kf);
      p := p + 4;
    }
    MaskTail(a, p, kf);
  }

  lemma MaskStep(head: Bytes, rest: Bytes, kf: u32)
    requires |rest| >= 4
    ensures head + MaskFrom(rest, kf) == (head + XorFour(rest, kf)) + MaskFrom(rest[4..], NextKey(kf))
  {
  }

  /** One little-endian word of the buffer xored with `kf`. */
  method XorWordAt(a: array<byte>, p: nat, kf: u32)
    requires p + 4 <= a.Length
    modifies a
    ensures a[..] == old(a[..p]) + XorFour(old(a[p..]), kf) + old(a[p + 4..])
  {
    hide XorByte, XorWord, Byte, FromLe;
    var v := XorWord(FromLe(a[p], a[p + 1], a[p + 2], a[p + 3]), kf);
    WordXor(a[p], a[p + 1], a[p + 2], a[p + 3], kf);
    a[p], a[p + 1], a[p + 2], a[p + 3] := Byte(v, 0), Byte(v, 1), Byte(v, 2), Byte(v, 3);
  }

  /** One little-endian half word of the buffer xored with the low half of `kf`. */
  method XorHalfAt(a: array<byte>, p: nat, kf: u32)
    requires p + 2 <= a.Length
    modifies a
    ensures a[..] == old(a[..p]) + [XorByte(old(a[p]), Byte(kf, 0)), XorByte(old(a[p + 1]), Byte(kf, 1))] + old(a[p + 2..])
  {
    hide XorByte, XorWord, Byte, FromLe;
    var v := XorWord(FromLe(a[p], a[p + 1], 0, 0), kf % 0x1_0000);
    WordXor(a[p], a[p + 1], 0, 0, kf % 0x1_0000);
    HalfWord(kf);
    a[p], a[p + 1] := Byte(v, 0), Byte(v, 1);
  }

  /** The last zero to three bytes: a half word, then an odd byte under the next key. */
  method MaskTail(a: array<byte>, p: nat, key: u32)
    requires p <= a.Length < p + 4
    modifies a
    ensures a[..] == old(a[..p]) + MaskFrom(old(a[p..]), key)
  {
    hide XorByte, Low, Byte;
    ghost var head, rest := a[..p], a[p..];
    MaskFromTail(rest, key);
    var kf := key;
    if a.Length - p >= 2 {
      XorHalfAt(a, p, kf);
      var next, value := LcgNext(kf);
      kf := value;
    }
    if (a.Length - p) % 2 == 1 {
      a[a.Length - 1] := XorByte(a[a.Length - 1], Low(kf));
    }
  }

  lemma MaskFromOne(s: Bytes, kf: u32)
    requires |s| < 2
    ensures MaskFrom(s, kf) == if |s| == 1 then [XorByte(s[0], Low(kf))] else []
  {
  }

  lemma MaskFromTail(s: Bytes, kf: u32)
    requires |s| < 4
    ensures MaskFrom(s, kf) ==
      (if |s| >= 2 then [XorByte(s[0], Byte(kf, 0)), XorByte(s[1], Byte(kf, 1))] else []) +
      (if |s| % 2 == 1 then [XorByte(s[|s| - 1], Low(if |s| >= 2 then NextKey(kf) else kf))] else [])
  {
    hide XorByte, NextKey;
    if |s| >= 2 {
      MaskFromOne(s[2..], NextKey(kf));
    } else {
      MaskFromOne(s, kf);
    }
  }

  lemma HalfWord(kf: u32)
    ensures Byte(kf % 0x1_0000, 0) == Byte(kf, 0) && Byte(kf % 0x1_0000, 1) == Byte(kf, 1)
  {
    var h := kf / 0x1_0000;
    assert kf / 0x100 == 0x100 * h + (kf % 0x1_0000) / 0x100;
    assert kf % 0x100 == (kf % 0x1_0000) % 0x100 by { ModShift(kf % 0x1_0000, 0x100, 0x100 * h); }
  }
}
