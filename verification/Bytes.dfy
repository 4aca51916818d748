/** Fixed-width unsigned integers and their big- and little-endian byte encodings. */
module Bytes {
  type byte = n: int | 0 <= n < 0x100
  type u16 = n: int | 0 <= n < 0x1_0000
  type u32 = n: int | 0 <= n < 0x1_0000_0000
  type u64 = n: int | 0 <= n < 0x1_0000_0000_0000_0000

  /** Two bytes as a big-endian word. */
  function Word(hi: byte, lo: byte): u16 {
    0x100 * (hi as int) + lo as int
  }

  function Pow256(n: nat): (p: nat)
    ensures p > 0
  {
    if n == 0 then 1 else 0x100 * Pow256(n - 1)
  }

  /** The `width` low-order bytes of `value`, most significant byte first. */
  function BigEndian(value: nat, width: nat): (bytes: seq<byte>)
    ensures |bytes| == width
  {
    if width == 0 then [] else BigEndian(value / 0x100, width - 1) + [value % 0x100]
  }

  /** The number whose big-endian digits are `bytes`. */
  function BigEndianValue(bytes: seq<byte>): nat {
    if bytes == [] then 0 else BigEndianValue(bytes[..|bytes| - 1]) * 0x100 + bytes[|bytes| - 1]
  }

  lemma {:induction false} BigEndianValueBound(bytes: seq<byte>)
    ensures BigEndianValue(bytes) < Pow256(|bytes|)
  {
    if bytes == [] {
    } else {
      BigEndianValueBound(bytes[..|bytes| - 1]);
    }
  }

  lemma {:induction false} BigEndianRoundTrip(value: nat, width: nat)
    requires value < Pow256(width)
    ensures BigEndianValue(BigEndian(value, width)) == value
  {
    if width == 0 {
    } else {
      var bytes := BigEndian(value, width);
      assert bytes[..width - 1] == BigEndian(value / 0x100, width - 1);
      BigEndianRoundTrip(value / 0x100, width - 1);
    }
  }

  lemma {:induction false} BigEndianOfValue(bytes: seq<byte>)
    ensures BigEndian(BigEndianValue(bytes), |bytes|) == bytes
  {
    if bytes == [] {
    } else {
      BigEndianOfValue(bytes[..|bytes| - 1]);
    }
  }

  lemma Pow256Values()
    ensures Pow256(1) == 0x100
    ensures Pow256(2) == 0x1_0000
    ensures Pow256(4) == 0x1_0000_0000
    ensures Pow256(8) == 0x1_0000_0000_0000_0000
  {
    assert Pow256(3) == 0x100_0000;
    assert Pow256(5) == 0x100_0000_0000;
    assert Pow256(6) == 0x1_0000_0000_0000;
    assert Pow256(7) == 0x100_0000_0000_0000;
  }

  /** Structure members are stored least significant byte first. */
  function LittleEndian(value: nat, width: nat): (bytes: seq<byte>)
    ensures |bytes| == width
  {
    if width == 0 then [] else [value % 0x100] + LittleEndian(value / 0x100, width - 1)
  }

  function LittleEndianValue(bytes: seq<byte>): nat {
    if bytes == [] then 0 else bytes[0] + 0x100 * LittleEndianValue(bytes[1..])
  }

  lemma {:induction false} LittleEndianRoundTrip(value: nat, width: nat)
    requires value < Pow256(width)
    ensures LittleEndianValue(LittleEndian(value, width)) == value
  {
    if width == 0 {
    } else {
      var bytes := LittleEndian(value, width);
      assert bytes[1..] == LittleEndian(value / 0x100, width - 1);
      LittleEndianRoundTrip(value / 0x100, width - 1);
    }
  }
}
