/** The Internet checksum (RFC 1071, sections 1 and 2) as the packet scenario computes it. */
module Checksum {
  import opened Bytes

  const WORD32: int := 0x1_0000_0000

  /** The word at `i`; an odd last byte is the high half of a word. */
  function WordAt(data: seq<byte>, i: nat): u16
    requires i < |data|
  {
    Word(data[i], if i + 1 < |data| then data[i + 1] else 0)
  }

  function SumFrom(data: seq<byte>, i: nat): nat
    decreases |data| - i
  {
    if i >= |data| then 0 else WordAt(data, i) + SumFrom(data, i + 2)
  }

  /** Sum of the big-endian 16-bit words of `data`. */
  function WordSum(data: seq<byte>): nat {
    SumFrom(data, 0)
  }

  /** The one's-complement value of a sum: its residue modulo 0xFFFF, with zero kept for the empty sum only. */
  function Fold(sum: nat): u16 {
    if sum == 0 then 0 else 1 + (sum - 1) % 0xFFFF
  }

  function ChecksumOf(data: seq<byte>): u16 {
    0xFFFF - Fold(WordSum(data))
  }

  lemma {:induction false} SumFromBound(data: seq<byte>, i: nat)
    requires i <= |data| + 1
    ensures SumFrom(data, i) <= 0xFFFF * ((|data| + 1 - i) / 2)
    decreases |data| - i
  {
    if i < |data| {
      SumFromBound(data, i + 2);
    }
  }

  lemma {:induction false} SumOfSuffix(whole: seq<byte>, a: seq<byte>, b: seq<byte>, i: nat)
    requires whole == a + b
    ensures SumFrom(whole, |a| + i) == SumFrom(b, i)
    decreases |b| - i
  {
    if i < |b| {
      SumOfSuffix(whole, a, b, i + 2);
    }
  }

  lemma {:induction false} SumOfPrefix(whole: seq<byte>, a: seq<byte>, b: seq<byte>, i: nat)
    requires whole == a + b && |a| % 2 == 0 && i % 2 == 0 && i <= |a|
    ensures SumFrom(whole, i) == SumFrom(a, i) + SumFrom(whole, |a|)
    decreases |a| - i
  {
    if i < |a| {
      SumOfPrefix(whole, a, b, i + 2);
    }
  }

  /** Accumulating over even-length pieces equals accumulating over their concatenation. */
  lemma WordSumJoin(a: seq<byte>, b: seq<byte>, whole: seq<byte>)
    requires |a| % 2 == 0 && whole == a + b
    ensures WordSum(whole) == WordSum(a) + WordSum(b)
  {
    SumOfPrefix(whole, a, b, 0);
    SumOfSuffix(whole, a, b, 0);
  }

  /** The sum around one aligned word. */
  lemma WordSumAround(before: seq<byte>, hi: byte, lo: byte, after: seq<byte>, block: seq<byte>)
    requires |before| % 2 == 0 && block == before + [hi, lo] + after
    ensures WordSum(block) == WordSum(before) + WordSum(after) + Word(hi, lo)
  {
    var word := [hi, lo];
    WordSumJoin(before + word, after, block);
    WordSumJoin(before, word, before + word);
    assert WordSum(word) == Word(hi, lo) + SumFrom(word, 2);
  }

  lemma FoldFull(sum: nat)
    ensures Fold(sum) == 0xFFFF <==> sum > 0 && sum % 0xFFFF == 0
  {
  }

  /** One carry step of the fold loop. */
  lemma FoldStep(sum: nat)
    requires sum >= 0x1_0000
    ensures 0 < sum % 0x1_0000 + sum / 0x1_0000 < sum
    ensures Fold(sum % 0x1_0000 + sum / 0x1_0000) == Fold(sum)
  {
    var q, r := sum / 0x1_0000, sum % 0x1_0000;
    assert sum == 0x1_0000 * q + r && q > 0;
    assert sum - 1 == 0xFFFF * q + (q + r - 1);
    MultipleDropped(q + r - 1, q);
  }

  lemma MultipleDropped(n: nat, q: nat)
    ensures (0xFFFF * q + n) % 0xFFFF == n % 0xFFFF
  {
    var k, m := n / 0xFFFF, n % 0xFFFF;
    assert 0xFFFF * q + n == 0xFFFF * (q + k) + m;
  }

  lemma WrapAdd(a: nat, b: nat, c: nat)
    ensures ((a + b) % WORD32 + c) % WORD32 == (a + b + c) % WORD32
  {
    var k := (a + b) / WORD32;
    assert a + b == WORD32 * k + (a + b) % WORD32;
    WrapDrop((a + b) % WORD32 + c, k);
  }

  lemma WrapDrop(n: nat, k: nat)
    ensures (WORD32 * k + n) % WORD32 == n % WORD32
  {
    var q, m := n / WORD32, n % WORD32;
    assert WORD32 * k + n == WORD32 * (k + q) + m;
  }

  /** The accumulator wraps at 32 bits, as the program's does. */
  method AddChecksumBytes(start: u32, data: seq<byte>) returns (sum: u32)
    ensures sum == (start + WordSum(data)) % WORD32
    ensures start + WordSum(data) < WORD32 ==> sum == start + WordSum(data)
  {
    sum := start;
    var offset := 0;
    while offset + 1 < |data|
      invariant 0 <= offset <= |data|
      invariant (sum + SumFrom(data, offset)) % WORD32 == (start + WordSum(data)) % WORD32
    {
      WrapAdd(sum, Word(data[offset], data[offset + 1]), SumFrom(data, offset + 2));
      sum := (sum + Word(data[offset], data[offset + 1])) % WORD32;
      offset := offset + 2;
    }
    if offset < |data| {
      sum := (sum + Word(data[offset], 0)) % WORD32;
    }
  }

  /** Carries are folded back until none is left; the answer is the complement of the one's-complement value. */
  method FinishChecksum(start: u32) returns (checksum: u16)
    ensures checksum == 0xFFFF - Fold(start)
  {
    var sum := start;
    while sum / 0x1_0000 != 0
      invariant 0 <= sum < WORD32 && Fold(sum) == Fold(start)
      decreases sum
    {
      FoldStep(sum);
      sum := sum % 0x1_0000 + sum / 0x1_0000;
    }
    checksum := 0xFFFF - sum % 0x1_0000;
  }

  /** No datagram of at most 65535 bytes, pseudo-header included, can make the accumulator wrap. */
  lemma SumNeverWraps(data: seq<byte>)
    requires |data| <= 0xFFFF + 12
    ensures WordSum(data) < WORD32
  {
    SumFromBound(data, 0);
  }

  method ComputeChecksum(data: seq<byte>) returns (checksum: u16)
    requires |data| <= 0xFFFF
    ensures checksum == ChecksumOf(data)
  {
    SumNeverWraps(data);
    var sum := AddChecksumBytes(0, data);
    checksum := FinishChecksum(sum);
  }

  /** Storing the checksum of a block that was summed with a zero checksum field makes the whole block sum to zero. */
  lemma StoredChecksumVerifies(sum: nat, stored: u16)
    requires sum > 0
    requires var c := 0xFFFF - Fold(sum); stored == c || (c == 0 && stored == 0xFFFF)
    ensures Fold(sum + stored) == 0xFFFF
  {
    var k, m := (sum - 1) / 0xFFFF, (sum - 1) % 0xFFFF;
    assert sum == 0xFFFF * k + m + 1 && Fold(sum) == m + 1;
    if stored == 0xFFFF - Fold(sum) {
      assert sum + stored == 0xFFFF * (k + 1);
    } else {
      assert sum + stored == 0xFFFF * (k + 2);
    }
  }

  lemma ResidueChange(rest: nat, a: u16, b: u16)
    requires rest + a > 0 && (rest + a) % 0xFFFF == 0
    ensures rest + b > 0 && (rest + b) % 0xFFFF == 0 <==>
            a == b || (rest > 0 && ((a == 0 && b == 0xFFFF) || (a == 0xFFFF && b == 0)))
  {
    var k, l := (rest + a) / 0xFFFF, (rest + b) / 0xFFFF;
    assert rest + a == 0xFFFF * k && rest + b == 0xFFFF * l + (rest + b) % 0xFFFF;
    assert b - a == 0xFFFF * (l - k) + (rest + b) % 0xFFFF;
  }

  lemma WordIsUnique(hi: byte, lo: byte, hi': byte, lo': byte)
    ensures Word(hi, lo) == Word(hi', lo') <==> hi == hi' && lo == lo'
  {
  }

  /**
   * Error detection is exact. Replacing one aligned word of a block that verifies keeps it verifying iff the words are
   * equal, or are the two representations of zero with something else to sum.
   */
  lemma WordChangeDetection(before: seq<byte>, hi: byte, lo: byte, hi': byte, lo': byte, after: seq<byte>,
                            block: seq<byte>, block': seq<byte>)
    requires |before| % 2 == 0
    requires block == before + [hi, lo] + after && block' == before + [hi', lo'] + after
    requires ChecksumOf(block) == 0
    ensures ChecksumOf(block') == 0 <==>
            || (hi == hi' && lo == lo')
            || (WordSum(before) + WordSum(after) > 0
                && ((hi == lo == 0 && hi' == lo' == 0xFF) || (hi == lo == 0xFF && hi' == lo' == 0)))
  {
    WordSumAround(before, hi, lo, after, block);
    WordSumAround(before, hi', lo', after, block');
    FoldChange(WordSum(before) + WordSum(after), hi, lo, hi', lo', WordSum(block), WordSum(block'));
  }

  lemma FoldChange(rest: nat, hi: byte, lo: byte, hi': byte, lo': byte, sum: nat, sum': nat)
    requires sum == rest + Word(hi, lo) && sum' == rest + Word(hi', lo')
    requires Fold(sum) == 0xFFFF
    ensures Fold(sum') == 0xFFFF <==>
            || (hi == hi' && lo == lo')
            || (rest > 0 && ((hi == lo == 0 && hi' == lo' == 0xFF) || (hi == lo == 0xFF && hi' == lo' == 0)))
  {
    FoldFull(sum);
    FoldFull(sum');
    ResidueChange(rest, Word(hi, lo), Word(hi', lo'));
    WordIsUnique(hi, lo, hi', lo');
    WordIsUnique(hi, lo, 0, 0);
    WordIsUnique(hi, lo, 0xFF, 0xFF);
    WordIsUnique(hi', lo', 0, 0);
    WordIsUnique(hi', lo', 0xFF, 0xFF);
  }
}
