/** The Internet checksum of RFC 1071. */
module Checksum {
  import opened Bits

  /** Sum of the big-endian 16-bit words; an odd last byte is the high byte of a padded word. */
  function WordSum(s: Bytes): nat
  {
    if |s| == 0 then 0
    else if |s| == 1 then Word(s[0], 0)
    else Word(s[0], s[1]) + WordSum(s[2..])
  }

  function Word(hi: nat, lo: nat): nat { 0x100 * hi + lo }

  /** One's complement reduction: zero stays zero, everything else lands in 1..0xffff mod 0xffff. */
  function Reduced(sum: nat): (r: nat)
    ensures r < 0x1_0000
  {
    if sum == 0 then 0 else (sum - 1) % 0xffff + 1
  }

  function InetChecksum(s: Bytes): (r: nat)
    ensures r < 0x1_0000
  {
    0xffff - Reduced(WordSum(s))
  }

  /** The complement of the checksum is congruent to the word sum, and is zero only for a zero sum (section 1). */
  lemma ChecksumMeaning(s: Bytes)
    ensures (0xffff - InetChecksum(s)) % 0xffff == WordSum(s) % 0xffff
    ensures InetChecksum(s) == 0xffff <==> WordSum(s) == 0
  {
    var sum := WordSum(s);
    if sum > 0 {
      var q, r := (sum - 1) / 0xffff, (sum - 1) % 0xffff;
      if r + 1 == 0xffff {
        ModUnique(sum, 0xffff, q + 1, 0);
      } else {
        ModUnique(sum, 0xffff, q, r + 1);
      }
    }
  }

  lemma {:induction false} WordSumSplits(s: Bytes, n: nat)
    requires 2 * n <= |s|
    ensures WordSum(s) == WordSum(s[..2 * n]) + WordSum(s[2 * n..])
  {
    if n == 0 {
      assert s[0..] == s;
    } else {
      WordSumSplits(s[2..], n - 1);
      assert s[..2 * n][2..] == s[2..][..2 * (n - 1)] && s[2 * n..] == s[2..][2 * (n - 1)..];
    }
  }

  /** Folding the carries back keeps the reduction. */
  lemma FoldKeeps(sum: nat)
    requires sum >= 0x1_0000
    ensures var f := sum % 0x1_0000 + sum / 0x1_0000; 0 < f < sum && Reduced(f) == Reduced(sum)
  {
    var h, l := sum / 0x1_0000, sum % 0x1_0000;
    var f := l + h;
    var q, r := (f - 1) / 0xffff, (f - 1) % 0xffff;
    ModUnique(sum - 1, 0xffff, h + q, r);
  }

  method ComputeInetChecksum(data: Bytes) returns (r: nat)
    ensures r == InetChecksum(data)
  {
    var sum: nat := 0;
    var words := |data| / 2;
    for i := 0 to words
      invariant sum == WordSum(data[..2 * i])
    {
      sum := sum + Word(data[2 * i], data[2 * i + 1]);
      WordSumSplits(data[..2 * (i + 1)], i);
      assert data[..2 * (i + 1)][..2 * i] == data[..2 * i];
    }
    WordSumSplits(data, words);
    if |data| % 2 == 1 {
      sum := sum + Word(data[|data| - 1], 0);
    }
    while sum >= 0x1_0000
      invariant Reduced(sum) == Reduced(WordSum(data))
    {
      FoldKeeps(sum);
      sum := sum % 0x1_0000 + sum / 0x1_0000;
    }
    assert sum == Reduced(sum);
    r := 0xffff - sum;
  }
}
