/** Byte-level examples from the repository's own tests: they pin the formats that the laws elsewhere leave open. */
module Vectors {
  import opened Bits
  import opened Errors
  import opened Ssea
  import Base94
  import Binary
  import Checksum
  import Mux
  import Simd
  import Handshake

  const KF: u32 := 0x0936_2737

  lemma Varints()
    ensures Mux.Varint(0) == [0] && Mux.Varint(300) == [0xac, 0x02]
    ensures Mux.Varint(0xffff_ffff) == [0xff, 0xff, 0xff, 0xff, 0x0f]
    ensures Mux.DecodedVarint([0xff, 0xff, 0xff, 0xff, 0x1f]) == None
    ensures Mux.DecodedVarint([0x80, 0x80, 0x80, 0x80, 0x80]) == None
  {
  }

  lemma Checksums()
    ensures Checksum.InetChecksum([0x00, 0x01, 0xf2, 0x03, 0xf4, 0xf5, 0xf6, 0xf7]) == 0x220d
    ensures Checksum.InetChecksum([0x00, 0x01, 0xf2, 0x03, 0xf4, 0xf5, 0xf7]) == 0x2204
    ensures Checksum.InetChecksum([0x21, 0x22, 0x7d, 0x20, 0x41]) == 0x20bd
  {
  }

  lemma Decimals()
    ensures Base94.DecimalEncode(0) == [0x20] && Base94.DecimalEncode(1) == [0x21]
    ensures Base94.DecimalEncode(93) == [0x7d] && Base94.DecimalEncode(94) == [0x21, 0x20]
    ensures Base94.DecimalEncode(830_583) == [0x7d, 0x7d, 0x7d]
  {
  }

  lemma Bytewise()
    ensures Base94.EncodeByte(0, 0) == [0x20] && Base94.EncodeByte(92, 0) == [0x7c]
    ensures Base94.EncodeByte(93, 0) == [0x7d, 0x20] && Base94.EncodeByte(255, 0) == [0x7e, 0x65]
    ensures Base94.EncodeByte(0, 0xffff_ffff) == [0x21] && Base94.EncodeByte(255, 0xffff_ffff) == [0x20]
    ensures Base94.EncodeByte(0, 0x5d) == [0x7d, 0x66] && Base94.EncodeByte(0, KF) == [0x7e, 0x2f]
  {
  }

  // ----- evaluating an xor

  lemma XorPair(a: nat, b: nat)
    requires a < 4 && b < 4
    ensures Xor(a, b) == BitXor(a, b) + 2 * BitXor(a / 2, b / 2)
  {
    assert Xor(a / 2, b / 2) == BitXor(a / 2, b / 2);
  }

  lemma XorFourth(a: nat, b: nat)
    ensures Xor(a, b) == BitXor(a, b) + 2 * BitXor(a / 2, b / 2) + 4 * Xor(a / 4, b / 4)
  {
    assert a / 2 / 2 == a / 4 && b / 2 / 2 == b / 4;
    assert Xor(a / 2, b / 2) == BitXor(a / 2, b / 2) + 2 * Xor(a / 2 / 2, b / 2 / 2);
  }

  lemma XorNibble(a: nat, b: nat)
    requires a < 16 && b < 16
    ensures Xor(a, b) == (if a % 2 == b % 2 then 0 else 1) + (if a / 2 % 2 == b / 2 % 2 then 0 else 2) + (if a / 4 % 2 == b / 4 % 2 then 0 else 4) + (if a / 8 % 2 == b / 8 % 2 then 0 else 8)
  {
    hide Xor;
    XorFourth(a, b);
    XorPair(a / 4, b / 4);
    assert a / 4 / 2 == a / 8 && b / 4 / 2 == b / 8;
  }

  lemma XorBytes(a: byte, b: byte)
    ensures var (h, l) := (Xor(a / 16, b / 16), Xor(a % 16, b % 16)); Xor(a, b) == 16 * h + l
  {
    var w := Xor(a, b);
    assert Pow2(4) == 16;
    XorLow(a, b, 4);
    XorHigh(a, b, 4);
    ShrNibble(a);
    ShrNibble(b);
    ShrNibble(w);
    hide Xor;
    assert w == 16 * (w / 16) + w % 16;
  }

  /** Only the low byte of a word changes. */
  lemma XorFront(w: nat, b: byte)
    ensures Xor(w, b) == 0x100 * (w / 0x100) + Xor(w % 0x100, b)
  {
    assert Pow2(8) == 0x100 by { Pow2Words(); }
    var x, front, back := Xor(w, b), Xor(w / 0x100, 0), Xor(w % 0x100, b);
    XorLow(w, b, 8);
    XorHigh(w, b, 8);
    ShrByte(w);
    ShrByte(b);
    ShrByte(x);
    XorZero(w / 0x100);
    assert b / 0x100 == 0 && b % 0x100 == b;
    hide Xor, Shr, Pow2;
    assert x / 0x100 == w / 0x100 && x % 0x100 == back;
  }

  // ----- examples

  lemma Draw1()
    ensures LcgReference(0x9362737) == Lcg(0x94f545c2, 0x78b5dcf5)
  {
    assert LcgStep(0x9362737) == 0xb78ba4a4;
    assert LcgStep(0xb78ba4a4) == 0xad77420d;
    assert LcgStep(0xad77420d) == 0x94f545c2;
  }

  lemma Draw2()
    ensures LcgReference(0x94f545c2) == Lcg(0x2762f209, 0x5bb4c362)
  {
    assert LcgStep(0x94f545c2) == 0x5dbbffd3;
    assert LcgStep(0x5dbbffd3) == 0xa1306710;
    assert LcgStep(0xa1306710) == 0x2762f209;
  }

  lemma Draw3()
    ensures LcgReference(0x2762f209) == Lcg(0xd81ce43c, 0x6d52f01c)
  {
    assert LcgStep(0x2762f209) == 0x66d5fc0e;
    assert LcgStep(0x66d5fc0e) == 0x7cbcc62f;
    assert LcgStep(0x7cbcc62f) == 0xd81ce43c;
  }

  lemma Draw4()
    ensures LcgReference(0xd81ce43c) == Lcg(0x1c59964b, 0x43fbe459)
  {
    assert LcgStep(0xd81ce43c) == 0x943fa5c5;
    assert LcgStep(0x943fa5c5) == 0xbef9cb1a;
    assert LcgStep(0xbef9cb1a) == 0x1c59964b;
  }

  /** Four draws from the default key. */
  lemma Generator()
    ensures LcgReference(LcgReference(LcgReference(LcgReference(KF).seed).seed).seed).seed == 0x1c59_964b
  {
    Draw1();
    Draw2();
    Draw3();
    Draw4();
  }

  /** Length modulus and key residue of the default key. */
  lemma DefaultParams()
    ensures Base94.Derive(KF) == Base94.Params(KF, 659_803, 150_025)
  {
    hide LcgReference;
    Draw1();
    ModUnique(0x78b5dcf5, 568_441, 3562, 397_659);
    ModUnique(KF, 659_803, 234, 150_025);
  }

  lemma MaskKey1()
    ensures LcgReference(0x12345678) == Lcg(0x2e1d6ab7, 0x371d1e1d)
  {
    assert LcgStep(0x12345678) == 0xb719151;
    assert LcgStep(0xb719151) == 0x6f47bdb6;
    assert LcgStep(0x6f47bdb6) == 0x2e1d6ab7;
  }

  lemma MaskKey2()
    ensures LcgReference(0x371d1e1d) == Lcg(0x34e0be60, 0x600d10e0)
  {
    assert LcgStep(0x371d1e1d) == 0xfe00d892;
    assert LcgStep(0xfe00d892) == 0xfb44e263;
    assert LcgStep(0xfb44e263) == 0x34e0be60;
  }

  lemma MaskXors()
    ensures Xor(3, 0x1d) == 0x1e
    ensures Xor(10, 0x1e) == 0x14
    ensures Xor(17, 0x1d) == 0x0c
    ensures Xor(24, 0x37) == 0x2f
    ensures Xor(31, 0xe0) == 0xff
  {
    hide Xor;
    XorBytes(0x3, 0x1d);
    XorNibble(0, 1);
    XorNibble(3, 13);
    XorBytes(0xa, 0x1e);
    XorNibble(0, 1);
    XorNibble(10, 14);
    XorBytes(0x11, 0x1d);
    XorNibble(1, 1);
    XorNibble(1, 13);
    XorBytes(0x18, 0x37);
    XorNibble(1, 3);
    XorNibble(8, 7);
    XorBytes(0x1f, 0xe0);
    XorNibble(1, 14);
    XorNibble(15, 0);
  }

  lemma MaskPieces()
    ensures XorFour([3, 10, 17, 24, 31], 0x371d1e1d) == [0x1e, 0x14, 0x0c, 0x2f]
    ensures MaskFrom([31], 0x600d10e0) == [0xff]
  {
    hide Xor;
    MaskXors();
  }

  lemma Mask()
    ensures Masked([3, 10, 17, 24, 31], 0x1234_5678) == [0x1e, 0x14, 0x0c, 0x2f, 0xff]
  {
    MaskKey1();
    MaskKey2();
    MaskPieces();
    assert NextKey(0x1234_5678) == 0x371d1e1d && NextKey(0x371d1e1d) == 0x600d10e0;
    hide NextKey, XorFour, XorByte;
    assert [3, 10, 17, 24, 31][4..] == [31];
  }

  lemma ShuffleXors()
    ensures Xor(0, 1) == 1
    ensures Xor(1, 1) == 0
    ensures Xor(2, 1) == 3
    ensures Xor(3, 1) == 2
    ensures Xor(4, 1) == 5
    ensures Xor(5, 1) == 4
    ensures Xor(6, 1) == 7
  {
    hide Xor;
    XorBytes(0x0, 0x1);
    XorNibble(0, 0);
    XorNibble(0, 1);
    XorBytes(0x1, 0x1);
    XorNibble(0, 0);
    XorNibble(1, 1);
    XorBytes(0x2, 0x1);
    XorNibble(0, 0);
    XorNibble(2, 1);
    XorBytes(0x3, 0x1);
    XorNibble(0, 0);
    XorNibble(3, 1);
    XorBytes(0x4, 0x1);
    XorNibble(0, 0);
    XorNibble(4, 1);
    XorBytes(0x5, 0x1);
    XorNibble(0, 0);
    XorNibble(5, 1);
    XorBytes(0x6, 0x1);
    XorNibble(0, 0);
    XorNibble(6, 1);
  }

  lemma Shuffle()
    ensures Shuffled([0x03, 0x0a, 0x11, 0x18, 0x1f, 0x26, 0x2d], 1) == [0x2d, 0x0a, 0x11, 0x18, 0x1f, 0x26, 0x03]
  {
    hide Xor;
    ShuffleXors();
    assert SwapIndex(0, 0x1, 7) == 1 by { assert XorWord(0, 0x1) == 0x1; }
    assert SwapIndex(1, 0x1, 7) == 0 by { assert XorWord(1, 0x1) == 0x0; }
    assert SwapIndex(2, 0x1, 7) == 3 by { assert XorWord(2, 0x1) == 0x3; }
    assert SwapIndex(3, 0x1, 7) == 2 by { assert XorWord(3, 0x1) == 0x2; }
    assert SwapIndex(4, 0x1, 7) == 5 by { assert XorWord(4, 0x1) == 0x5; }
    assert SwapIndex(5, 0x1, 7) == 4 by { assert XorWord(5, 0x1) == 0x4; }
    assert SwapIndex(6, 0x1, 7) == 0 by { assert XorWord(6, 0x1) == 0x7; }
    assert Swaps([0x03, 0x0a, 0x11, 0x18, 0x1f, 0x26, 0x2d], 1, 0) == [0x03, 0x0a, 0x11, 0x18, 0x1f, 0x26, 0x2d];
    assert Swaps([0x03, 0x0a, 0x11, 0x18, 0x1f, 0x26, 0x2d], 1, 1) == [0x0a, 0x03, 0x11, 0x18, 0x1f, 0x26, 0x2d];
    assert Swaps([0x03, 0x0a, 0x11, 0x18, 0x1f, 0x26, 0x2d], 1, 2) == [0x03, 0x0a, 0x11, 0x18, 0x1f, 0x26, 0x2d];
    assert Swaps([0x03, 0x0a, 0x11, 0x18, 0x1f, 0x26, 0x2d], 1, 3) == [0x03, 0x0a, 0x18, 0x11, 0x1f, 0x26, 0x2d];
    assert Swaps([0x03, 0x0a, 0x11, 0x18, 0x1f, 0x26, 0x2d], 1, 4) == [0x03, 0x0a, 0x11, 0x18, 0x1f, 0x26, 0x2d];
    assert Swaps([0x03, 0x0a, 0x11, 0x18, 0x1f, 0x26, 0x2d], 1, 5) == [0x03, 0x0a, 0x11, 0x18, 0x26, 0x1f, 0x2d];
    assert Swaps([0x03, 0x0a, 0x11, 0x18, 0x1f, 0x26, 0x2d], 1, 6) == [0x03, 0x0a, 0x11, 0x18, 0x1f, 0x26, 0x2d];
    assert Swaps([0x03, 0x0a, 0x11, 0x18, 0x1f, 0x26, 0x2d], 1, 7) == [0x2d, 0x0a, 0x11, 0x18, 0x1f, 0x26, 0x03];
  }

  lemma Three(a: byte, b: byte, c: byte)
    requires 0x20 <= a < 0x7e && 0x20 <= b < 0x7e && 0x20 <= c < 0x7e
    ensures Base94.DecimalDecode([a, b, c]) == Ok(8836 * (a - 0x20) + 94 * (b - 0x20) + (c - 0x20))
  {
    assert [a, b, c][..2] == [a, b] && [a, b][..1] == [a] && [a][..0] == [];
    assert Base94.DecimalDecode([a]) == Ok(a - 0x20);
    assert Base94.DecimalDecode([a, b]) == Ok(94 * (a - 0x20) + (b - 0x20));
  }

  lemma SimpleHeader1()
    ensures Base94.DecodeSimple(Base94.Derive(KF), [0x27, 0x30, 0x26, 0x7c]) == Ok(5)
  {
    hide Base94.DecimalDecode, LcgReference;
    DefaultParams();
    assert Base94.Restored([0x27, 0x30, 0x26, 0x7c])[1..] == [0x30, 0x7c, 0x26];
    Three(0x30, 0x7c, 0x26);
  }

  lemma SimpleHeader2()
    ensures Base94.DecodeSimple(Base94.Derive(KF), [0x33, 0x31, 0x22, 0x7a]) == Ok(8649)
  {
    hide Base94.DecimalDecode, LcgReference;
    DefaultParams();
    assert Base94.Restored([0x33, 0x31, 0x22, 0x7a])[1..] == [0x31, 0x7a, 0x22];
    Three(0x31, 0x7a, 0x22);
  }

  lemma SimpleHeader3()
    ensures Base94.DecodeSimple(Base94.Derive(KF), [0x2f, 0x3f, 0x27, 0x6d]) == Ok(131136)
  {
    hide Base94.DecimalDecode, LcgReference;
    DefaultParams();
    assert Base94.Restored([0x2f, 0x3f, 0x27, 0x6d])[1..] == [0x3f, 0x6d, 0x27];
    Three(0x3f, 0x6d, 0x27);
  }

  lemma CheckDigitsXors()
    ensures Xor(0, KF) == KF
    ensures Xor(1, KF) == 0x9362736
    ensures Xor(2, KF) == 0x9362735
  {
    hide Xor;
    XorCommutes(0x0, 0x9362737);
    XorFront(0x9362737, 0x0);
    XorBytes(0x37, 0x0);
    XorNibble(3, 0);
    XorNibble(7, 0);
    XorCommutes(0x1, 0x9362737);
    XorFront(0x9362737, 0x1);
    XorBytes(0x37, 0x1);
    XorNibble(3, 0);
    XorNibble(7, 1);
    XorCommutes(0x2, 0x9362737);
    XorFront(0x9362737, 0x2);
    XorBytes(0x37, 0x2);
    XorNibble(3, 0);
    XorNibble(7, 2);
  }

  lemma CheckDigits()
    ensures Unshuffled([0x35, 0x60, 0x27], KF) == [0x35, 0x60, 0x27]
  {
    hide Xor;
    CheckDigitsXors();
    assert SwapIndex(0, KF, 3) == 1 by { assert XorWord(0, KF) == 0x9362737; }
    assert SwapIndex(1, KF, 3) == 0 by { assert XorWord(1, KF) == 0x9362736; }
    assert SwapIndex(2, KF, 3) == 2 by { assert XorWord(2, KF) == 0x9362735; }
    assert Swap([0x35, 0x60, 0x27], 2, 2) == [0x35, 0x60, 0x27];
    assert Swap([0x35, 0x60, 0x27], 1, 0) == [0x60, 0x35, 0x27];
    assert Swap([0x60, 0x35, 0x27], 0, 1) == [0x35, 0x60, 0x27];
    assert Unswaps([0x35, 0x60, 0x27], KF, 0) == [0x35, 0x60, 0x27];
    assert Unswaps([0x60, 0x35, 0x27], KF, 1) == [0x35, 0x60, 0x27];
    assert Unswaps([0x35, 0x60, 0x27], KF, 2) == [0x35, 0x60, 0x27];
  }

  lemma CheckValue()
    ensures Base94.CheckValue([0x3b, 0x30, 0x22, 0x7c], 1) == 0xa252
  {
    hide Xor;
    assert Checksum.InetChecksum([0x3b, 0x30, 0x22, 0x7c]) == 0xa253;
    XorFront(0xa253, 0x1);
    XorBytes(0x53, 0x1);
    XorNibble(5, 0);
    XorNibble(3, 1);
  }

  lemma FirstHeader()
    ensures Base94.DecodeSimple(Base94.Derive(KF), [0x3b, 0x30, 0x22, 0x7c]) == Ok(1)
  {
    hide Base94.DecimalDecode, LcgReference;
    DefaultParams();
    assert Base94.Restored([0x3b, 0x30, 0x22, 0x7c])[1..] == [0x30, 0x7c, 0x22];
    Three(0x30, 0x7c, 0x22);
  }

  lemma CheckField()
    ensures Base94.DecodeField(Base94.Derive(KF), [0x35, 0x60, 0x27]) == Ok(0xa252)
  {
    hide Base94.DecimalDecode, LcgReference;
    DefaultParams();
    Three(0x35, 0x60, 0x27);
  }

  lemma ExtendedHeader()
    ensures Base94.DecodeExtended(Base94.Derive(KF), [0x3b, 0x30, 0x22, 0x7c, 0x35, 0x60, 0x27]) == Ok(1)
  {
    hide Base94.CheckValue, Base94.DecodeSimple, Base94.DecodeExtended, Base94.DecodeField, Base94.Derive, Unshuffled;
    var p, s, c: Bytes := Base94.Derive(KF), [0x3b, 0x30, 0x22, 0x7c], [0x35, 0x60, 0x27];
    FirstHeader();
    CheckDigits();
    CheckValue();
    CheckField();
    Base94.ExtendedDecodes(p, s, c, 1);
    assert s + c == [0x3b, 0x30, 0x22, 0x7c, 0x35, 0x60, 0x27];
  }

  /** Length 256. */
  lemma BinaryHeaderXors()
    ensures Xor(KF, 0x80) == 0x93627b7
    ensures Xor(0, 0x93627b7) == 0x93627b7
    ensures Xor(1, 0x93627b7) == 0x93627b6
    ensures Xor(0xb7, 0xb7) == 0
    ensures Xor(0x48, 0xb7) == 0xff
  {
    hide Xor;
    XorFront(0x9362737, 0x80);
    XorBytes(0x37, 0x80);
    XorNibble(3, 8);
    XorNibble(7, 0);
    XorCommutes(0x0, 0x93627b7);
    XorFront(0x93627b7, 0x0);
    XorBytes(0xb7, 0x0);
    XorNibble(11, 0);
    XorNibble(7, 0);
    XorCommutes(0x1, 0x93627b7);
    XorFront(0x93627b7, 0x1);
    XorBytes(0xb7, 0x1);
    XorNibble(11, 0);
    XorNibble(7, 1);
    XorBytes(0xb7, 0xb7);
    XorNibble(11, 11);
    XorNibble(7, 7);
    XorBytes(0x48, 0xb7);
    XorNibble(4, 11);
    XorNibble(8, 7);
  }

  lemma BinaryHeader()
    ensures Binary.Unwrapped(KF, [0x49, 0x37, 0x91]) == (Binary.LengthBytes(256), 0x93627b7)
  {
    hide Xor;
    BinaryHeaderXors();
    assert XorWord(KF, 0x80) == 0x93627b7;
    assert SwapIndex(0, 0x93627b7, 2) == 1 by { assert XorWord(0, 0x93627b7) == 0x93627b7; }
    assert SwapIndex(1, 0x93627b7, 2) == 0 by { assert XorWord(1, 0x93627b7) == 0x93627b6; }
    assert Swap([0xb7, 0x48], 1, 0) == [0x48, 0xb7] && Swap([0x48, 0xb7], 0, 1) == [0xb7, 0x48];
    assert Unswaps([0xb7, 0x48], 0x93627b7, 0) == [0xb7, 0x48];
    assert Unswaps([0x48, 0xb7], 0x93627b7, 1) == [0xb7, 0x48];
    assert Unshuffled([0xb7, 0x48], 0x93627b7) == [0xb7, 0x48];
    assert XorByte(0xb7, 0xb7) == 0x0 && XorByte(0x48, 0xb7) == 0xff;
    var a := Simd.DeltaDecoded([0x49, 0x37, 0x91], 0x37);
    assert a == [0x80, 0xb7, 0x48] && a[1..] == [0xb7, 0x48];
  }

  lemma PayloadKey()
    ensures LcgReference(0x7) == Lcg(0x2a7450d2, 0x46c93a74)
  {
    assert LcgStep(0x7) == 0xcc6c5534;
    assert LcgStep(0xcc6c5534) == 0x264e4f5d;
    assert LcgStep(0x264e4f5d) == 0x2a7450d2;
  }

  lemma PayloadXors()
    ensures Xor(3, 0x74) == 0x77
  {
    hide Xor;
    XorBytes(0x3, 0x74);
    XorNibble(0, 7);
    XorNibble(3, 4);
  }

  lemma MaskedThree()
    ensures Masked([3], 7) == [0x77]
  {
    hide Xor;
    PayloadXors();
    PayloadKey();
    assert NextKey(7) == 0x46c93a74 && Low(0x46c93a74) == 0x74 && XorByte(3, 0x74) == 0x77;
    hide NextKey, LcgReference, MaskFrom, XorByte, Low;
    MaskFromOne([3], 0x46c93a74);
  }

  lemma Payload()
    ensures Binary.Obfuscated([3], Binary.SAFEST, 7, KF) == [0x40]
  {
    MaskedThree();
    hide Masked;
    assert Shuffled([0x77], 7) == [0x77];
    hide Shuffled;
    assert Simd.DeltaEncoded([0x77], 0x37) == [0x40];
  }

  lemma Delta()
    ensures Simd.DeltaEncoded([3, 10, 17], 0) == [0x03, 0x07, 0x07]
    ensures Simd.DeltaEncoded([3, 10, 17], 0xab) == [0x58, 0x07, 0x07]
    ensures Simd.DeltaEncoded([3, 10, 17], Low(KF)) == [0xcc, 0x07, 0x07]
  {
  }

  lemma Roles()
    ensures Handshake.RoleTag(Handshake.MuxTunnel) == 0x0000_feed_c0de_5eed
    ensures Handshake.RoleTag(Handshake.BondLink) == 0x0001_feed_c0de_5eed
    ensures Handshake.RoleFromIvv(0xffff_ffff_ffff_ffff_ffff_ffff_ffff_ffff) == Handshake.MuxTunnel
    ensures Handshake.RoleFromIvv(0x0002_feed_c0de_5eed * TWO64) == Handshake.MuxTunnel
    ensures Handshake.RoleFromIvv(0x0001_feed_c0de_5eec * TWO64) == Handshake.MuxTunnel
  {
  }

  lemma Malformed()
    ensures Mux.Parse([]) == Mux.Empty && Mux.Parse([0x02]) == Mux.TruncatedStreamId
    ensures Mux.Parse([0x02, 0x80]) == Mux.TruncatedStreamId && Mux.Parse([0x7f, 0x01]) == Mux.UnknownKind(0x7f)
  {
  }
}
