/** Machine words as bounded integers, and exclusive or on them. */
module Bits {

  const TWO32 := 0x1_0000_0000
  const TWO64 := 0x1_0000_0000_0000_0000
  const TWO128 := 0x1_0000_0000_0000_0000_0000_0000_0000_0000

  type byte = x: int | 0 <= x < 0x100
  type u32 = x: int | 0 <= x < 0x1_0000_0000
  type u64 = x: int | 0 <= x < 0x1_0000_0000_0000_0000
  type u128 = x: int | 0 <= x < 0x1_0000_0000_0000_0000_0000_0000_0000_0000

  type Bytes = seq<byte>

  datatype Option<+T> = None | Some(value: T)

  /** Bitwise exclusive or of two naturals, one binary digit at a time. */
  function Xor(a: nat, b: nat): nat
    decreases a + b
  {
    if a + b == 0 then 0 else BitXor(a, b) + 2 * Xor(a / 2, b / 2)
  }

  function BitXor(a: nat, b: nat): (r: nat)
    ensures r < 2
  {
    if a % 2 == b % 2 then 0 else 1
  }

  function Pow2(k: nat): (p: nat)
    ensures p >= 1
  {
    if k == 0 then 1 else 2 * Pow2(k - 1)
  }

  lemma {:induction false} XorBound(a: nat, b: nat, k: nat)
    requires a < Pow2(k) && b < Pow2(k)
    ensures Xor(a, b) < Pow2(k)
  {
    if k != 0 {
      XorBound(a / 2, b / 2, k - 1);
      XorDigits(a, b);
    }
  }

  /** The two halves of an xor: its last binary digit and the rest. */
  lemma {:induction false} XorDigits(a: nat, b: nat)
    ensures Xor(a, b) % 2 == BitXor(a, b) && Xor(a, b) / 2 == Xor(a / 2, b / 2)
  {
    Digits(BitXor(a, b), Xor(a / 2, b / 2));
  }

  lemma Digits(d: nat, h: nat)
    requires d < 2
    ensures (d + 2 * h) % 2 == d && (d + 2 * h) / 2 == h
  {
  }

  lemma {:induction false} XorZero(a: nat)
    ensures Xor(a, 0) == a && Xor(0, a) == a && Xor(a, a) == 0
  {
    if a != 0 {
      XorZero(a / 2);
    }
  }

  lemma {:induction false} XorCommutes(a: nat, b: nat)
    ensures Xor(a, b) == Xor(b, a)
    decreases a + b
  {
    if a + b != 0 {
      XorCommutes(a / 2, b / 2);
    }
  }

  lemma {:induction false} XorAssociates(a: nat, b: nat, c: nat)
    ensures Xor(Xor(a, b), c) == Xor(a, Xor(b, c))
    decreases a + b + c
  {
    if a + b + c > 0 {
      var l, r := Xor(a, b), Xor(b, c);
      XorDigits(a, b);
      XorDigits(b, c);
      XorDigits(l, c);
      XorDigits(a, r);
      XorAssociates(a / 2, b / 2, c / 2);
      assert BitXor(l, c) == BitXor(a, r);
    }
  }

  /** Applying the same mask twice restores the original. */
  lemma XorCancel(a: nat, b: nat)
    ensures Xor(Xor(a, b), b) == a
  {
    XorAssociates(a, b, b);
    XorZero(b);
    XorZero(a);
  }

  /** Truncating to the low `k` bits commutes with xor. */
  lemma {:induction false} XorLow(a: nat, b: nat, k: nat)
    ensures Xor(a, b) % Pow2(k) == Xor(a % Pow2(k), b % Pow2(k))
  {
    if k != 0 {
      var w := Xor(a, b);
      LowDigits(a, k);
      LowDigits(b, k);
      LowDigits(w, k);
      XorDigits(a, b);
      XorDigits(a % Pow2(k), b % Pow2(k));
      XorLow(a / 2, b / 2, k - 1);
    }
  }

  function Shr(a: nat, k: nat): nat {
    if k == 0 then a else Shr(a / 2, k - 1)
  }

  /** Shifting right commutes with xor. */
  lemma {:induction false} XorHigh(a: nat, b: nat, k: nat)
    ensures Shr(Xor(a, b), k) == Xor(Shr(a, k), Shr(b, k))
  {
    if k != 0 {
      XorDigits(a, b);
      XorHigh(a / 2, b / 2, k - 1);
    }
  }

  lemma {:induction false} ShrAdds(a: nat, j: nat, k: nat)
    ensures Shr(a, j + k) == Shr(Shr(a, j), k)
  {
    if j != 0 {
      ShrAdds(a / 2, j - 1, k);
    }
  }

  /** Byte-sized shifts are divisions. */
  lemma ShrBytes(a: nat)
    ensures Shr(a, 8) == a / 0x100 && Shr(a, 16) == a / 0x1_0000 && Shr(a, 24) == a / 0x100_0000
  {
    ShrByte(a);
    ShrByte(a / 0x100);
    ShrByte(a / 0x1_0000);
    ShrAdds(a, 8, 8);
    ShrAdds(a, 16, 8);
  }

  lemma ShrByte(a: nat)
    ensures Shr(a, 8) == a / 0x100
  {
    ShrAdds(a, 4, 4);
    ShrNibble(a);
    ShrNibble(a / 16);
  }

  lemma ShrNibble(a: nat)
    ensures Shr(a, 4) == a / 16
  {
    assert Shr(a, 4) == Shr(a / 2, 3);
    assert Shr(a / 2, 3) == Shr(a / 4, 2);
    assert Shr(a / 4, 2) == Shr(a / 8, 1);
    assert Shr(a / 8, 1) == Shr(a / 16, 0);
  }

  lemma LowDigits(a: nat, k: nat)
    requires k > 0
    ensures (a % Pow2(k)) / 2 == (a / 2) % Pow2(k - 1) && (a % Pow2(k)) % 2 == a % 2
  {
    var p := Pow2(k - 1);
    var q, r := (a / 2) / p, (a / 2) % p;
    assert a == (2 * p) * q + (2 * r + a % 2);
    ModUnique(a, 2 * p, q, 2 * r + a % 2);
    Digits(a % 2, r);
  }

  /** Division with remainder is unique. */
  lemma ModUnique(x: int, d: int, q: int, r: int)
    requires d > 0 && x == d * q + r && 0 <= r < d
    ensures x % d == r && x / d == q
  {
    var e := x / d - q;
    assert d * (x / d) + x % d == x;
    assert d * e == r - x % d by { assert d * e == d * (x / d) - d * q; }
    MultipleBelow(d, e);
  }

  lemma MultipleBelow(d: int, e: int)
    requires -d < d * e < d
    ensures e == 0
  {
  }

  lemma Pow2Words()
    ensures Pow2(8) == 0x100 && Pow2(16) == 0x1_0000 && Pow2(18) == 0x4_0000 && Pow2(32) == 0x1_0000_0000
  {
    assert Pow2(4) == 16;
    assert Pow2(8) == 256;
    assert Pow2(12) == 4096;
    assert Pow2(16) == 0x1_0000;
    assert Pow2(18) == 0x4_0000;
    assert Pow2(20) == 0x10_0000;
    assert Pow2(24) == 0x100_0000;
    assert Pow2(28) == 0x1000_0000;
  }

  function XorByte(a: byte, b: byte): byte {
    Pow2Words();
    XorBound(a, b, 8);
    Xor(a, b)
  }

  function XorWord(a: u32, b: u32): u32 {
    Pow2Words();
    XorBound(a, b, 32);
    Xor(a, b)
  }

  /** `wrapping_add` and `wrapping_sub` on bytes. */
  function AddByte(a: int, b: int): byte { (a + b) % 0x100 }

  function SubByte(a: int, b: int): byte { (a - b) % 0x100 }

  /** The truncating cast to `u8`. */
  function Low(w: nat): byte { w % 0x100 }
}
