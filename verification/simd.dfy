/** Delta coding: the scalar definition and the 16-lane vector kernels that must equal it. */
module Simd {
  import opened Bits

  /** `out[i] = in[i] - in[i - 1]` with the key byte before the first input. */
  function DeltaEncoded(s: Bytes, kf8: byte): (r: Bytes)
    ensures |r| == |s|
  {
    seq(|s|, i requires 0 <= i < |s| => SubByte(s[i], if i == 0 then kf8 else s[i - 1]))
  }

  /** The key byte plus the first `n` inputs, mod 256. */
  function Running(s: Bytes, kf8: byte, n: nat): byte
    requires n <= |s|
  {
    if n == 0 then kf8 else AddByte(Running(s, kf8, n - 1), s[n - 1])
  }

  function DeltaDecoded(s: Bytes, kf8: byte): (r: Bytes)
    ensures |r| == |s|
  {
    seq(|s|, i requires 0 <= i < |s| => Running(s, kf8, i + 1))
  }

  lemma AddSub(a: byte, b: byte)
    ensures AddByte(b, SubByte(a, b)) == a && SubByte(AddByte(a, b), a) == b
  {
    Wrapped(a - b);
    Wrapped(a + b);
    Wrapped(b + SubByte(a, b));
    Wrapped(AddByte(a, b) - a);
  }

  /** One wrap-around at most. */
  lemma Wrapped(x: int)
    requires -0x100 < x < 0x200
    ensures x % 0x100 == if x < 0 then x + 0x100 else if x < 0x100 then x else x - 0x100
  {
  }

  /** Reducing mod 256 early changes nothing. */
  lemma AddReduced(x: int, b: int)
    ensures AddByte(x % 0x100, b) == (x + b) % 0x100 == AddByte(b, x % 0x100)
  {
  }

  lemma {:induction false} RunningOfDelta(s: Bytes, kf8: byte, n: nat)
    requires n <= |s|
    ensures Running(DeltaEncoded(s, kf8), kf8, n) == if n == 0 then kf8 else s[n - 1]
  {
    if n > 0 {
      RunningOfDelta(s, kf8, n - 1);
      AddSub(s[n - 1], if n == 1 then kf8 else s[n - 2]);
    }
  }

  lemma DecodeOfEncode(s: Bytes, kf8: byte)
    ensures DeltaDecoded(DeltaEncoded(s, kf8), kf8) == s
  {
    var d := DeltaEncoded(s, kf8);
    forall i | 0 <= i < |s| ensures DeltaDecoded(d, kf8)[i] == s[i] {
      RunningOfDelta(s, kf8, i + 1);
    }
  }

  lemma EncodeOfDecode(s: Bytes, kf8: byte)
    ensures DeltaEncoded(DeltaDecoded(s, kf8), kf8) == s
  {
    var d := DeltaDecoded(s, kf8);
    forall i | 0 <= i < |s| ensures DeltaEncoded(d, kf8)[i] == s[i] {
      AddSub(Running(s, kf8, i), s[i]);
      assert d[i] == AddByte(Running(s, kf8, i), s[i]);
    }
  }

  /** Delta coding is a bijection for every key byte. */
  lemma DeltaInverts(s: Bytes, kf8: byte)
    ensures DeltaDecoded(DeltaEncoded(s, kf8), kf8) == s
    ensures DeltaEncoded(DeltaDecoded(s, kf8), kf8) == s
  {
    DecodeOfEncode(s, kf8);
    EncodeOfDecode(s, kf8);
  }

  // ----- 16-lane vectors

  type Lanes = v: Bytes | |v| == 16 witness seq(16, _ => 0)

  function AddLanes(v: Lanes, w: Lanes): Lanes {
    seq(16, i requires 0 <= i < 16 => AddByte(v[i], w[i]))
  }

  function SubLanes(v: Lanes, w: Lanes): Lanes {
    seq(16, i requires 0 <= i < 16 => SubByte(v[i], w[i]))
  }

  /** `_mm_slli_si128`: lane `i` receives lane `i - k`, zeros shift in. */
  function ShiftLanes(v: Lanes, k: nat): Lanes {
    seq(16, i requires 0 <= i < 16 => if i < k then 0 else v[i - k])
  }

  /** A broadcast byte masked down to lane 0. */
  function Lane0(x: byte): Lanes {
    seq(16, i requires 0 <= i < 16 => if i == 0 then x else 0)
  }

  /** `(v & keep15) | (set1(x) & lane0)`: lane 0 replaced. */
  function ReplaceLane0(v: Lanes, x: byte): Lanes { v[0 := x] }

  function Load(s: Bytes, p: nat): Lanes
    requires p + 16 <= |s|
  {
    s[p..p + 16]
  }

  method Store(a: array<byte>, p: nat, v: Lanes)
    requires p + 16 <= a.Length
    modifies a
    ensures a[..] == old(a[..p]) + v + old(a[p + 16..])
  {
    forall k | 0 <= k < 16 {
      a[p + k] := v[k];
    }
  }

  // ----- the shifted-add scan

  function Sum(v: Bytes, lo: nat, hi: nat): nat
    requires hi <= |v|
  {
    if hi <= lo then 0 else Sum(v, lo, hi - 1) + v[hi - 1]
  }

  lemma {:induction false} SumSplits(v: Bytes, lo: nat, mid: nat, hi: nat)
    requires lo <= mid <= hi <= |v|
    ensures Sum(v, lo, hi) == Sum(v, lo, mid) + Sum(v, mid, hi)
  {
    if mid < hi {
      SumSplits(v, lo, mid, hi - 1);
    }
  }

  function From(i: nat, w: nat): nat { if i + 1 < w then 0 else i + 1 - w }

  /** Every lane holds the sum of the last `w` inputs up to it. */
  ghost predicate Windows(x: Lanes, v: Lanes, w: nat) {
    forall i :: 0 <= i < 16 ==> x[i] == Sum(v, From(i, w), i + 1) % 0x100
  }

  /** Adding the vector shifted by `w` lanes doubles the window. */
  lemma ScanStep(x: Lanes, v: Lanes, w: nat)
    requires w > 0 && Windows(x, v, w)
    ensures Windows(AddLanes(x, ShiftLanes(x, w)), v, 2 * w)
  {
    forall i | 0 <= i < 16
      ensures AddLanes(x, ShiftLanes(x, w))[i] == Sum(v, From(i, 2 * w), i + 1) % 0x100
    {
      if i >= w {
        JoinWindows(v, From(i - w, w), From(i, w), i + 1, x[i - w], x[i]);
      }
    }
  }

  lemma JoinWindows(v: Bytes, lo: nat, mid: nat, hi: nat, x: byte, y: byte)
    requires lo <= mid <= hi <= |v| && x == Sum(v, lo, mid) % 0x100 && y == Sum(v, mid, hi) % 0x100
    ensures AddByte(y, x) == Sum(v, lo, hi) % 0x100
  {
    SumSplits(v, lo, mid, hi);
    AddReduced(Sum(v, lo, mid), y);
    AddReduced(Sum(v, mid, hi), Sum(v, lo, mid));
  }

  /** Four shifted adds: an inclusive prefix sum over the sixteen lanes. */
  function Scan(v: Lanes): Lanes {
    var v1 := AddLanes(v, ShiftLanes(v, 1));
    var v2 := AddLanes(v1, ShiftLanes(v1, 2));
    var v4 := AddLanes(v2, ShiftLanes(v2, 4));
    AddLanes(v4, ShiftLanes(v4, 8))
  }

  lemma ScanSums(v: Lanes)
    ensures forall i :: 0 <= i < 16 ==> Scan(v)[i] == Sum(v, 0, i + 1) % 0x100
  {
    forall i | 0 <= i < 16 ensures v[i] == Sum(v, From(i, 1), i + 1) % 0x100 {
      assert Sum(v, i, i + 1) == Sum(v, i, i) + v[i];
    }
    assert Windows(v, v, 1);
    var v1 := AddLanes(v, ShiftLanes(v, 1));
    ScanStep(v, v, 1);
    var v2 := AddLanes(v1, ShiftLanes(v1, 2));
    ScanStep(v1, v, 2);
    var v4 := AddLanes(v2, ShiftLanes(v2, 4));
    ScanStep(v2, v, 4);
    ScanStep(v4, v, 8);
    assert Windows(Scan(v), v, 16);
    assert forall i :: 0 <= i < 16 ==> From(i, 16) == 0;
  }

  lemma {:induction false} RunningBlock(s: Bytes, kf8: byte, p: nat, v: Lanes, n: nat)
    requires 0 < n <= 16 && p + 16 <= |s|
    requires v[0] == AddByte(Running(s, kf8, p), s[p]) && forall i :: 0 < i < 16 ==> v[i] == s[p + i]
    ensures Running(s, kf8, p + n) == Sum(v, 0, n) % 0x100
  {
    assert Sum(v, 0, n) == Sum(v, 0, n - 1) + v[n - 1];
    if n == 1 {
      assert Sum(v, 0, 0) == 0;
    } else {
      RunningBlock(s, kf8, p, v, n - 1);
      AddReduced(Sum(v, 0, n - 1), v[n - 1]);
      assert Running(s, kf8, p + n) == AddByte(Running(s, kf8, p + n - 1), s[p + n - 1]);
    }
  }

  /** One block: the carry folded into lane 0 and scanned gives the next sixteen running sums. */
  lemma ScanBlock(s: Bytes, kf8: byte, p: nat)
    requires p + 16 <= |s|
    ensures Scan(AddLanes(s[p..p + 16], Lane0(Running(s, kf8, p)))) == DeltaDecoded(s, kf8)[p..p + 16]
  {
    var v := AddLanes(s[p..p + 16], Lane0(Running(s, kf8, p)));
    ScanSums(v);
    assert v[0] == AddByte(Running(s, kf8, p), s[p]);
    assert forall i :: 0 < i < 16 ==> v[i] == s[p + i];
    hide Scan, Sum, AddLanes, Lane0, Running, AddByte;
    forall i | 0 <= i < 16 ensures Scan(v)[i] == DeltaDecoded(s, kf8)[p..p + 16][i] {
      RunningBlock(s, kf8, p, v, i + 1);
    }
  }

  /** One block: subtracting the vector shifted by one lane, with the previous byte in lane 0. */
  lemma EncodeBlock(s: Bytes, kf8: byte, p: nat)
    requires 0 < p && p + 16 <= |s|
    ensures var v := s[p..p + 16];
      SubLanes(v, ReplaceLane0(ShiftLanes(v, 1), s[p - 1])) == DeltaEncoded(s, kf8)[p..p + 16]
  {
  }

  /** A buffer whose first `p` bytes are converted and whose rest is still the input. */
  ghost predicate Half(now: Bytes, done: Bytes, was: Bytes, p: nat) {
    |now| == |done| == |was| && p <= |was| && now == done[..p] + was[p..]
  }

  lemma HalfBlock(now: Bytes, done: Bytes, was: Bytes, p: nat)
    requires Half(now, done, was, p) && p + 16 <= |was|
    ensures now[p..p + 16] == was[p..p + 16]
    ensures Half(now[..p] + done[p..p + 16] + now[p + 16..], done, was, p + 16)
  {
  }

  lemma HalfByte(now: Bytes, done: Bytes, was: Bytes, p: nat)
    requires Half(now, done, was, p) && p < |was|
    ensures now[p] == was[p] && Half(now[p := done[p]], done, was, p + 1)
  {
  }

  lemma HalfStart(done: Bytes, was: Bytes)
    requires |done| == |was| > 0
    ensures Half(was[0 := done[0]], done, was, 1)
  {
  }

  lemma HalfEnd(now: Bytes, done: Bytes, was: Bytes)
    requires Half(now, done, was, |was|)
    ensures now == done
  {
  }

  lemma DeltaAt(s: Bytes, kf8: byte, p: nat)
    requires p < |s|
    ensures |DeltaEncoded(s, kf8)| == |s| && DeltaEncoded(s, kf8)[p] == SubByte(s[p], if p == 0 then kf8 else s[p - 1])
  {
  }

  method DeltaEncode(a: array<byte>, kf8: byte)
    modifies a
    ensures a[..] == DeltaEncoded(old(a[..]), kf8)
  {
    hide DeltaEncoded, SubLanes, ShiftLanes, ReplaceLane0, SubByte, Half;
    if a.Length == 0 { return; }
    ghost var was, done := a[..], DeltaEncoded(a[..], kf8);
    DeltaAt(was, kf8, 0);
    HalfStart(done, was);
    var prev := a[0];
    a[0] := SubByte(a[0], kf8);
    var p := 1;
    while a.Length - p >= 16
      invariant 1 <= p <= a.Length && prev == was[p - 1] && Half(a[..], done, was, p)
    {
      HalfBlock(a[..], done, was, p);
      EncodeBlock(was, kf8, p);
      var v := Load(a[..], p);
      var out := SubLanes(v, ReplaceLane0(ShiftLanes(v, 1), prev));
      assert out == done[p..p + 16] && v[15] == was[p + 15];
      Store(a, p, out);
      prev := v[15];
      p := p + 16;
    }
    while p < a.Length
      invariant 1 <= p <= a.Length && prev == was[p - 1] && Half(a[..], done, was, p)
    {
      HalfByte(a[..], done, was, p);
      DeltaAt(was, kf8, p);
      var cur := a[p];
      a[p] := SubByte(cur, prev);
      prev := cur;
      p := p + 1;
    }
    HalfEnd(a[..], done, was);
  }

  method DeltaDecode(a: array<byte>, kf8: byte)
    modifies a
    ensures a[..] == DeltaDecoded(old(a[..]), kf8)
  {
    if a.Length == 0 { return; }
    ghost var was, done := a[..], DeltaDecoded(a[..], kf8);
    a[0] := AddByte(a[0], kf8);
    var carry := a[0];
    assert Running(was, kf8, 1) == AddByte(Running(was, kf8, 0), was[0]);
    var p := 1;
    while a.Length - p >= 16
      invariant 1 <= p <= a.Length && carry == Running(was, kf8, p) && Half(a[..], done, was, p)
    {
      HalfBlock(a[..], done, was, p);
      ScanBlock(was, kf8, p);
      var v := Scan(AddLanes(Load(a[..], p), Lane0(carry)));
      assert v == done[p..p + 16] && v[15] == done[p + 15];
      Store(a, p, v);
      carry := v[15];
      p := p + 16;
    }
    while p < a.Length
      invariant 1 <= p <= a.Length && carry == Running(was, kf8, p) && Half(a[..], done, was, p)
    {
      HalfByte(a[..], done, was, p);
      carry := AddByte(carry, a[p]);
      a[p] := carry;
      p := p + 1;
    }
  }

  // ----- the portable fallback, which is also the reference

  method ScalarDeltaEncode(a: array<byte>, kf8: byte)
    modifies a
    ensures a[..] == DeltaEncoded(old(a[..]), kf8)
  {
    if a.Length == 0 { return; }
    ghost var was, done := a[..], DeltaEncoded(a[..], kf8);
    var prev := a[0];
    a[0] := SubByte(prev, kf8);
    for p := 1 to a.Length
      invariant prev == was[p - 1] && Half(a[..], done, was, p)
    {
      HalfByte(a[..], done, was, p);
      var cur := a[p];
      a[p] := SubByte(cur, prev);
      prev := cur;
    }
  }

  method ScalarDeltaDecode(a: array<byte>, kf8: byte)
    modifies a
    ensures a[..] == DeltaDecoded(old(a[..]), kf8)
  {
    if a.Length == 0 { return; }
    ghost var was, done := a[..], DeltaDecoded(a[..], kf8);
    var prev := AddByte(a[0], kf8);
    a[0] := prev;
    assert Running(was, kf8, 1) == AddByte(Running(was, kf8, 0), was[0]);
    for p := 1 to a.Length
      invariant prev == Running(was, kf8, p) && Half(a[..], done, was, p)
    {
      HalfByte(a[..], done, was, p);
      prev := AddByte(prev, a[p]);
      a[p] := prev;
    }
  }
}
