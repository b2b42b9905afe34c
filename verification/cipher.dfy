/**
 Session ciphers: CFB128 and CTR over an arbitrary block function, a stream cipher over an
 arbitrary keystream, and the per-packet nonce counter.
 */
module Cipher {
  import opened Bits

  type Block = b: Bytes | |b| == 16 witness seq(16, _ => 0)
  type BlockFn = Block -> Block

  /** `data` xored with the keystream `ks`, which may be longer. */
  function XorStream(data: Bytes, ks: Bytes): (r: Bytes)
    requires |data| <= |ks|
    ensures |r| == |data|
  {
    seq(|data|, i requires 0 <= i < |data| => XorByte(data[i], ks[i]))
  }

  lemma XorStreamTwice(data: Bytes, ks: Bytes)
    requires |data| <= |ks|
    ensures XorStream(XorStream(data, ks), ks) == data
  {
    forall i | 0 <= i < |data| ensures XorStream(XorStream(data, ks), ks)[i] == data[i] {
      XorCancel(data[i], ks[i]);
    }
  }

  /** The cipher applied to one block. */
  function Run(e: BlockFn, b: Block): Block { e(b) }

  // ----- textbook modes: one block at a time

  /** CFB128 encryption, section 6.3 of NIST SP 800-38A; the last segment may be short. */
  function CfbEncrypted(e: BlockFn, iv: Block, s: Bytes): (r: Bytes)
    ensures |r| == |s|
    decreases |s|
  {
    if |s| < 16 then XorStream(s, Run(e, iv))
    else var c := XorStream(s[..16], Run(e, iv)); c + CfbEncrypted(e, c, s[16..])
  }

  function CfbDecrypted(e: BlockFn, iv: Block, s: Bytes): (r: Bytes)
    ensures |r| == |s|
    decreases |s|
  {
    if |s| < 16 then XorStream(s, Run(e, iv))
    else XorStream(s[..16], Run(e, iv)) + CfbDecrypted(e, s[..16], s[16..])
  }

  lemma {:induction false} CfbInverts(e: BlockFn, iv: Block, s: Bytes)
    ensures CfbDecrypted(e, iv, CfbEncrypted(e, iv, s)) == s
    decreases |s|
  {
    if |s| < 16 {
      XorStreamTwice(s, Run(e, iv));
    } else {
      var c := XorStream(s[..16], Run(e, iv));
      var r := CfbEncrypted(e, iv, s);
      assert r[..16] == c && r[16..] == CfbEncrypted(e, c, s[16..]);
      XorStreamTwice(s[..16], Run(e, iv));
      CfbInverts(e, c, s[16..]);
      assert s == s[..16] + s[16..];
    }
  }

  /** Big-endian bytes of `n`, `k` of them. */
  function ToBe(n: nat, k: nat): (r: Bytes)
    ensures |r| == k
  {
    if k == 0 then [] else ToBe(n / 0x100, k - 1) + [Low(n)]
  }

  function FromBe(s: Bytes): nat {
    if s == [] then 0 else 0x100 * FromBe(s[..|s| - 1]) + s[|s| - 1]
  }

  /** Keystream block of counter value `c`. */
  type StreamFn = nat -> Block

  function At(e: StreamFn, c: nat): Block { e(c) }

  /** CTR mode, section 6.5 of NIST SP 800-38A, with the whole block as the counter. */
  function CtrApplied(e: StreamFn, c: nat, s: Bytes): (r: Bytes)
    ensures |r| == |s|
    decreases |s|
  {
    if |s| < 16 then XorStream(s, At(e, c))
    else XorStream(s[..16], At(e, c)) + CtrApplied(e, c + 1, s[16..])
  }

  /** The `u128` counter wraps. */
  function CounterStream(e: BlockFn): StreamFn { (c: nat) => Run(e, CounterBlock(c % TWO128)) }

  function CounterBlock(c: u128): Block { ToBe(c, 16) }

  /** Sixteen bytes are below 2^128, so the reduction changes nothing. */
  function CounterOf(iv: Block): u128 { FromBe(iv) % TWO128 }

  lemma {:induction false} CtrTwice(e: StreamFn, c: nat, s: Bytes)
    ensures CtrApplied(e, c, CtrApplied(e, c, s)) == s
    decreases |s|
  {
    if |s| < 16 {
      XorStreamTwice(s, At(e, c));
    } else {
      var r := CtrApplied(e, c, s);
      assert r[..16] == XorStream(s[..16], At(e, c)) && r[16..] == CtrApplied(e, c + 1, s[16..]);
      XorStreamTwice(s[..16], At(e, c));
      CtrTwice(e, c + 1, s[16..]);
      assert s == s[..16] + s[16..];
    }
  }

  // ----- what the modes are, byte by byte

  /** The block a byte of a CFB stream is fed from: the initial value, or the ciphertext block before. */
  function FeedbackOf(iv: Block, cipher: Bytes, i: nat): Block
    requires i < |cipher|
  {
    if i < 16 then iv else cipher[i / 16 * 16 - 16..i / 16 * 16]
  }

  lemma FeedbackShifts(iv: Block, c: Block, rest: Bytes, i: nat)
    requires 16 <= i < 16 + |rest|
    ensures FeedbackOf(iv, c + rest, i) == FeedbackOf(c, rest, i - 16)
  {
    if i >= 32 {
      var p := i / 16 * 16;
      assert (i - 16) / 16 * 16 == p - 16;
      assert (c + rest)[p - 16..p] == rest[p - 32..p - 16];
    }
  }

  /** The first block of a CFB stream and the rest, or a last segment shorter than a block. */
  lemma CfbFirst(e: BlockFn, iv: Block, s: Bytes)
    ensures |s| < 16 ==> CfbEncrypted(e, iv, s) == XorStream(s, Run(e, iv)) && CfbDecrypted(e, iv, s) == XorStream(s, Run(e, iv))
    ensures |s| >= 16 ==> var c := XorStream(s[..16], Run(e, iv)); CfbEncrypted(e, iv, s) == c + CfbEncrypted(e, c, s[16..])
    ensures |s| >= 16 ==>
      CfbDecrypted(e, iv, s) == XorStream(s[..16], Run(e, iv)) + CfbDecrypted(e, s[..16], s[16..])
  {
  }

  lemma CtrFirst(e: StreamFn, c: nat, s: Bytes)
    ensures |s| < 16 ==> CtrApplied(e, c, s) == XorStream(s, At(e, c))
    ensures |s| >= 16 ==> CtrApplied(e, c, s) == XorStream(s[..16], At(e, c)) + CtrApplied(e, c + 1, s[16..])
  {
  }

  lemma Behind(front: Bytes, back: Bytes, i: nat)
    requires 16 == |front| <= i < 16 + |back|
    ensures (front + back)[i] == back[i - 16] && (i - 16) % 16 == i % 16 && (i - 16) / 16 == i / 16 - 1
    ensures (front + back)[..16] == front && (front + back)[16..] == back
  {
  }

  /** A byte of the first block, or of a short segment. */
  lemma CfbFirstByte(e: BlockFn, iv: Block, s: Bytes, i: nat)
    requires i < |s| && i < 16
    ensures CfbEncrypted(e, iv, s)[i] == XorByte(s[i], Run(e, iv)[i])
  {
    hide XorByte, Run;
  }

  /** Every byte, a short last segment included, is xored with the enciphered ciphertext block before it. */
  lemma {:induction false} CfbEncryptedByte(e: BlockFn, iv: Block, s: Bytes, i: nat)
    requires i < |s|
    ensures var c := CfbEncrypted(e, iv, s); c[i] == XorByte(s[i], Run(e, FeedbackOf(iv, c, i))[i % 16])
    decreases |s|
  {
    hide CfbEncrypted, XorByte, Run, FeedbackOf, XorStream;
    FeedbackFirst(iv, CfbEncrypted(e, iv, s), i);
    if i < 16 {
      CfbFirstByte(e, iv, s, i);
      assert i % 16 == i;
    } else {
      var c := XorStream(s[..16], Run(e, iv));
      CfbFirst(e, iv, s);
      CfbEncryptedByte(e, c, s[16..], i - 16);
      ShiftedByte(e, iv, c, s, CfbEncrypted(e, c, s[16..]), i);
    }
  }

  lemma FeedbackFirst(iv: Block, cipher: Bytes, i: nat)
    requires i < |cipher|
    ensures i < 16 ==> FeedbackOf(iv, cipher, i) == iv
  {
  }

  /** A byte past the first block, from the stream that starts with the second. */
  lemma ShiftedByte(e: BlockFn, iv: Block, c: Block, s: Bytes, rest: Bytes, i: nat)
    requires 16 <= i < |s| && |rest| == |s| - 16
    requires rest[i - 16] == XorByte(s[16..][i - 16], Run(e, FeedbackOf(c, rest, i - 16))[(i - 16) % 16])
    ensures (c + rest)[i] == XorByte(s[i], Run(e, FeedbackOf(iv, c + rest, i))[i % 16])
  {
    hide XorByte, Run, FeedbackOf;
    Behind(c, rest, i);
    FeedbackShifts(iv, c, rest, i);
  }

  lemma {:induction false} CfbDecryptedByte(e: BlockFn, iv: Block, s: Bytes, i: nat)
    requires i < |s|
    ensures CfbDecrypted(e, iv, s)[i] == XorByte(s[i], Run(e, FeedbackOf(iv, s, i))[i % 16])
    decreases |s|
  {
    hide CfbDecrypted, XorByte;
    CfbFirst(e, iv, s);
    if i >= 16 {
      hide FeedbackOf;
      CfbDecryptedByte(e, s[..16], s[16..], i - 16);
      Behind(XorStream(s[..16], Run(e, iv)), CfbDecrypted(e, s[..16], s[16..]), i);
      FeedbackShifts(iv, s[..16], s[16..], i);
      assert s[..16] + s[16..] == s;
    }
  }

  lemma {:induction false} CtrAppliedByte(e: StreamFn, c: nat, s: Bytes, i: nat)
    requires i < |s|
    ensures CtrApplied(e, c, s)[i] == XorByte(s[i], At(e, c + i / 16)[i % 16])
    decreases |s|
  {
    hide CtrApplied, XorByte, At;
    CtrFirst(e, c, s);
    if i >= 16 {
      CtrAppliedByte(e, c + 1, s[16..], i - 16);
      Behind(XorStream(s[..16], At(e, c)), CtrApplied(e, c + 1, s[16..]), i);
    }
  }

  /** Counter mode from a nonce: byte `i` is xored with the block whose number is the nonce's plus i / 16. */
  lemma CounterByte(e: BlockFn, iv: Block, s: Bytes, i: nat)
    requires i < |s|
    ensures var b := CounterBlock((FromBe(iv) + i / 16) % TWO128);
      CtrApplied(CounterStream(e), CounterOf(iv), s)[i] == XorByte(s[i], Run(e, b)[i % 16])
  {
    hide CtrApplied, CounterStream, FromBe, ToBe, CounterBlock, At;
    CtrAppliedByte(CounterStream(e), CounterOf(iv), s, i);
    CounterWraps(FromBe(iv), i / 16);
    StreamBlock(e, CounterOf(iv) + i / 16);
  }

  lemma StreamBlock(e: BlockFn, c: nat)
    ensures At(CounterStream(e), c) == Run(e, CounterBlock(c % TWO128))
  {
  }

  lemma CounterWraps(n: nat, k: nat)
    ensures (n % TWO128 + k) % TWO128 == (n + k) % TWO128
  {
    var q, m := n / TWO128, n % TWO128;
    assert n + k == TWO128 * (q + (m + k) / TWO128) + (m + k) % TWO128;
    ModUnique(n + k, TWO128, q + (m + k) / TWO128, (m + k) % TWO128);
  }

  function Pow256(k: nat): (p: nat)
    ensures p > 0
  {
    if k == 0 then 1 else 0x100 * Pow256(k - 1)
  }

  /** Big endian: the last byte is the lowest. */
  lemma {:induction false} ToBeByte(n: nat, k: nat, i: nat)
    requires i < k
    ensures ToBe(n, k)[i] == n / Pow256(k - 1 - i) % 0x100
  {
    if i < k - 1 {
      ToBeByte(n / 0x100, k - 1, i);
      var p := Pow256(k - 2 - i);
      assert ToBe(n, k)[i] == ToBe(n / 0x100, k - 1)[i];
      DivDiv(n, p);
    }
  }

  lemma DivDiv(n: nat, p: nat)
    requires p > 0
    ensures n / 0x100 / p == n / (0x100 * p)
  {
    var q, r := n / 0x100 / p, n / 0x100 % p;
    assert n == (0x100 * p) * q + (0x100 * r + n % 0x100) by {
      assert n / 0x100 == p * q + r;
    }
    ModUnique(n, 0x100 * p, q, 0x100 * r + n % 0x100);
  }

  lemma {:induction false} FromBeByte(s: Bytes, k: nat)
    requires k == |s|
    ensures forall i :: 0 <= i < k ==> s[i] == FromBe(s) / Pow256(k - 1 - i) % 0x100
  {
    if k > 0 {
      var t := s[..k - 1];
      FromBeByte(t, k - 1);
      forall i | 0 <= i < k ensures s[i] == FromBe(s) / Pow256(k - 1 - i) % 0x100 {
        if i < k - 1 {
          assert s[i] == t[i] && FromBe(s) / 0x100 == FromBe(t);
          DivDiv(FromBe(s), Pow256(k - 2 - i));
        }
      }
    }
  }

  // ----- in-place batched modes

  /** `xor16_store`, and `xor_tail` for a short rest: `ks` xored into the buffer at `p`. */
  method XorAt(a: array<byte>, p: nat, n: nat, ks: Bytes)
    requires p + n <= a.Length && n <= |ks|
    modifies a
    ensures a[..] == old(a[..p]) + XorStream(old(a[p..p + n]), ks) + old(a[p + n..])
  {
    for k := 0 to n
      invariant forall i :: 0 <= i < a.Length && !(p <= i < p + k) ==> a[i] == old(a[i])
      invariant forall i :: 0 <= i < k ==> a[p + i] == XorByte(old(a[p + i]), ks[i])
    {
      a[p + k] := XorByte(a[p + k], ks[k]);
    }
  }

  /** Keystream prefix for the segment shorter than a block at the end. */
  method XorTail(e: BlockFn, feedback: Block, a: array<byte>, p: nat)
    requires p <= a.Length < p + 16
    modifies a
    ensures a[..] == old(a[..p]) + XorStream(old(a[p..]), Run(e, feedback))
  {
    ghost var rest := a[p..];
    assert a[p..p + (a.Length - p)] == rest && a[a.Length..] == [];
    XorAt(a, p, a.Length - p, Run(e, feedback));
  }

  lemma EncryptStep(e: BlockFn, fb: Block, head: Bytes, rest: Bytes)
    requires |rest| >= 16
    ensures var c: Block := XorStream(rest[..16], Run(e, fb));
      head + CfbEncrypted(e, fb, rest) == (head + c) + CfbEncrypted(e, c, rest[16..])
  {
  }

  /** Encryption is serial: each keystream block depends on the previous ciphertext block. */
  method CfbEncrypt(e: BlockFn, iv: Block, a: array<byte>)
    modifies a
    ensures a[..] == CfbEncrypted(e, iv, old(a[..]))
  {
    ghost var goal := CfbEncrypted(e, iv, a[..]);
    var fb: Block := iv;
    var p := 0;
    while a.Length - p >= 16
      invariant p <= a.Length
      invariant goal == a[..p] + CfbEncrypted(e, fb, a[p..])
    {
      hide CfbEncrypted;
      ghost var head, rest := a[..p], a[p..];
      EncryptStep(e, fb, head, rest);
      assert a[p..p + 16] == rest[..16] && a[p + 16..] == rest[16..];
      XorAt(a, p, 16, Run(e, fb));
      ghost var c := XorStream(rest[..16], Run(e, fb));
      SplitAt(a[..], head + c, rest[16..]);
      assert a[p..p + 16] == c;
      fb := a[p..p + 16];
      p := p + 16;
    }
    XorTail(e, fb, a, p);
  }

  lemma SplitAt(whole: Bytes, front: Bytes, back: Bytes)
    requires whole == front + back
    ensures whole[..|front|] == front && whole[|front|..] == back
  {
  }

  const BATCH: nat := 8

  /** The ciphertext block that feeds block `n` of `r`. */
  function Feedback(prev: Block, r: Bytes, n: nat): Block
    requires 16 * n <= |r|
  {
    if n == 0 then prev else r[16 * (n - 1)..16 * n]
  }

  /** What is decrypted so far, followed by the decryption of what is left, makes up `goal`. */
  ghost predicate Decrypting(e: BlockFn, goal: Bytes, now: Bytes, p: nat, fb: Block) {
    p <= |now| && goal == now[..p] + CfbDecrypted(e, fb, now[p..])
  }

  /** Decryption knows every ciphertext block up front, so up to eight go through the cipher together. */
  method CfbDecrypt(e: BlockFn, iv: Block, a: array<byte>)
    modifies a
    ensures a[..] == CfbDecrypted(e, iv, old(a[..]))
  {
    ghost var goal := CfbDecrypted(e, iv, a[..]);
    DecryptingAll(e, a[..], iv);
    hide CfbDecrypted, Decrypting;
    var prev: Block := iv;
    var p := 0;
    while a.Length - p >= 16
      invariant p <= a.Length && Decrypting(e, goal, a[..], p, prev)
    {
      var blocks := (a.Length - p) / 16;
      var n := if blocks < BATCH then blocks else BATCH;
      var q := p + 16 * n;
      // The batch overwrites its last ciphertext block, which feeds the next batch.
      var last: Block := a[q - 16..q];
      DecryptBatch(e, prev, a, p, n, goal);
      prev := last;
      p := q;
    }
    DecryptingLast(e, goal, a[..], p, prev);
    XorTail(e, prev, a, p);
  }

  lemma DecryptingAll(e: BlockFn, now: Bytes, fb: Block)
    ensures Decrypting(e, CfbDecrypted(e, fb, now), now, 0, fb)
  {
    hide CfbDecrypted;
    assert now[0..] == now && now[..0] + CfbDecrypted(e, fb, now) == CfbDecrypted(e, fb, now);
  }

  /** Less than a block is left. */
  lemma DecryptingLast(e: BlockFn, goal: Bytes, now: Bytes, p: nat, fb: Block)
    requires Decrypting(e, goal, now, p, fb) && p <= |now| < p + 16
    ensures goal == now[..p] + XorStream(now[p..], Run(e, fb))
  {
  }

  /** One batch: feedback blocks saved, encrypted together, then xored into the data. */
  method DecryptBatch(e: BlockFn, prev: Block, a: array<byte>, p: nat, n: nat, ghost goal: Bytes)
    requires 0 < n <= BATCH && p + 16 * n <= a.Length
    requires Decrypting(e, goal, a[..], p, prev)
    modifies a
    ensures Decrypting(e, goal, a[..], p + 16 * n, old(a[p + 16 * n - 16..p + 16 * n]))
  {
    hide CfbDecrypted, Run;
    ghost var r := a[p..];
    assert Feedback(prev, r, n) == a[p + 16 * n - 16..p + 16 * n];
    var saved := SaveFeedback(prev, a, p, n);
    var ks := EncryptBlocks(e, saved);
    for k := 0 to n
      invariant Decrypting(e, goal, a[..], p + 16 * k, Feedback(prev, r, k)) && a[p + 16 * k..] == r[16 * k..]
    {
      DecryptNext(e, prev, a, p, k, ks[k], r, goal);
    }
  }

  /** Block `k` of the batch, under the keystream computed from the saved feedback. */
  method DecryptNext(ghost e: BlockFn, ghost prev: Block, a: array<byte>, p: nat, k: nat, ks: Block,
                     ghost r: Bytes, ghost goal: Bytes)
    requires 16 * (k + 1) <= |r| && p + |r| == a.Length && ks == Run(e, Feedback(prev, r, k))
    requires Decrypting(e, goal, a[..], p + 16 * k, Feedback(prev, r, k)) && a[p + 16 * k..] == r[16 * k..]
    modifies a
    ensures Decrypting(e, goal, a[..], p + 16 * (k + 1), Feedback(prev, r, k + 1))
    ensures a[p + 16 * (k + 1)..] == r[16 * (k + 1)..]
  {
    hide CfbDecrypted, Run;
    NextSlice(r, k);
    DecryptBlockAt(e, Feedback(prev, r, k), a, p + 16 * k, ks, goal);
  }

  /** The blocks of a batch go through the cipher independently. */
  function EncryptBlocks(e: BlockFn, blocks: seq<Block>): (ks: seq<Block>)
    ensures |ks| == |blocks| && forall k :: 0 <= k < |ks| ==> ks[k] == Run(e, blocks[k])
  {
    if blocks == [] then [] else [Run(e, blocks[0])] + EncryptBlocks(e, blocks[1..])
  }

  lemma NextSlice(r: Bytes, k: nat)
    requires 16 * (k + 1) <= |r|
    ensures r[16 * k..][..16] == r[16 * k..16 * (k + 1)] && r[16 * k..][16..] == r[16 * (k + 1)..]
  {
  }

  method SaveFeedback(prev: Block, a: array<byte>, p: nat, n: nat) returns (ks: seq<Block>)
    requires 0 < n && p + 16 * n <= a.Length
    ensures |ks| == n && forall j :: 0 <= j < n ==> ks[j] == Feedback(prev, a[p..], j)
  {
    ks := [prev];
    for k := 1 to n
      invariant |ks| == k && forall j :: 0 <= j < k ==> ks[j] == Feedback(prev, a[p..], j)
    {
      assert a[p..][16 * (k - 1)..16 * k] == a[p + 16 * (k - 1)..p + 16 * k];
      ks := ks + [a[p + 16 * (k - 1)..p + 16 * k]];
    }
  }

  method DecryptBlockAt(ghost e: BlockFn, ghost fb: Block, a: array<byte>, p: nat, ks: Block, ghost goal: Bytes)
    requires p + 16 <= a.Length && ks == Run(e, fb) && Decrypting(e, goal, a[..], p, fb)
    modifies a
    ensures Decrypting(e, goal, a[..], p + 16, old(a[p..])[..16]) && a[p + 16..] == old(a[p..])[16..]
  {
    hide Run;
    ghost var head, rest := a[..p], a[p..];
    assert a[..][p..] == rest && a[..][..p] == head;
    XorAt(a, p, 16, ks);
    assert a[..][..p + 16] == head + XorStream(rest[..16], ks);
    assert a[..][p + 16..] == rest[16..];
  }

  // ----- CTR

  /** As `Decrypting`, for counter mode. */
  ghost predicate Counting(e: StreamFn, goal: Bytes, now: Bytes, p: nat, c: nat) {
    p <= |now| && goal == now[..p] + CtrApplied(e, c, now[p..])
  }

  method CtrApply(cipher: BlockFn, iv: Block, a: array<byte>)
    modifies a
    ensures a[..] == CtrApplied(CounterStream(cipher), CounterOf(iv), old(a[..]))
  {
    CountFrom(CounterStream(cipher), CounterOf(iv), a);
  }

  /** Up to eight counter blocks are encrypted together, then xored in; the last block may be short. */
  method CountFrom(e: StreamFn, c: nat, a: array<byte>)
    modifies a
    ensures a[..] == CtrApplied(e, c, old(a[..]))
  {
    ghost var goal := CtrApplied(e, c, a[..]);
    var counter: nat := c;
    var pos := 0;
    while pos < a.Length
      invariant Counting(e, goal, a[..], pos, counter)
    {
      hide CtrApplied;
      var take := if a.Length - pos < BATCH * 16 then a.Length - pos else BATCH * 16;
      var n := (take + 15) / 16;
      CountBatch(e, counter, a, pos, take, n, goal);
      counter := counter + n;
      pos := pos + take;
    }
  }

  method CountBatch(e: StreamFn, counter: nat, a: array<byte>, pos: nat, take: nat, n: nat, ghost goal: Bytes)
    requires n <= BATCH && 16 * (n - 1) < take <= 16 * n && pos + take <= a.Length
    requires 16 * n == take || pos + take == a.Length
    requires Counting(e, goal, a[..], pos, counter)
    modifies a
    ensures Counting(e, goal, a[..], pos + take, counter + n)
  {
    hide CtrApplied;
    var ks := CounterBlocks(e, counter, n);
    var k, q := 0, pos;
    while k < n
      invariant k <= n && q == (if k < n then pos + 16 * k else pos + take)
      invariant Counting(e, goal, a[..], q, counter + k)
    {
      var end := if k + 1 < n then q + 16 else pos + take;
      CountBlockAt(e, counter + k, a, q, end, ks[k], goal);
      k, q := k + 1, end;
    }
  }

  function CounterBlocks(e: StreamFn, c: nat, n: nat): (ks: seq<Block>)
    ensures |ks| == n && forall k :: 0 <= k < n ==> ks[k] == At(e, c + k)
  {
    if n == 0 then [] else CounterBlocks(e, c, n - 1) + [At(e, c + n - 1)]
  }

  /** One block of counter mode; a short block is the last. */
  lemma CountStep(e: StreamFn, c: nat, s: Bytes, m: nat)
    requires m <= 16 && m <= |s| && (m < 16 ==> m == |s|)
    ensures CtrApplied(e, c, s) == XorStream(s[..m], At(e, c)) + CtrApplied(e, c + 1, s[m..])
  {
    if m < 16 {
      assert s[..m] == s && CtrApplied(e, c + 1, s[m..]) == [];
    }
  }

  method CountBlockAt(ghost e: StreamFn, ghost c: nat, a: array<byte>, p: nat, q: nat, ks: Block, ghost goal: Bytes)
    requires p < q <= a.Length && q - p <= 16 && (q - p < 16 ==> q == a.Length)
    requires ks == At(e, c) && Counting(e, goal, a[..], p, c)
    modifies a
    ensures Counting(e, goal, a[..], q, c + 1)
  {
    hide At, CtrApplied;
    ghost var head, rest := a[..p], a[p..];
    CountStep(e, c, rest, q - p);
    assert a[..][p..] == rest && a[..][..p] == head && a[p..q] == rest[..q - p];
    XorAt(a, p, q - p, ks);
    assert a[..][..q] == head + XorStream(rest[..q - p], ks);
    assert a[..][q..] == rest[q - p..];
  }
}
