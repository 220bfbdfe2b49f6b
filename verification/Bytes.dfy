/** Integers of fixed width, and their little-endian fields in the packet and the session file. */
module Bytes {
  import opened Outcomes

  type Byte = n: nat | n < 256

  /** Capacities and intervals that the source checks to be positive. */
  type Positive = n: nat | n > 0 witness 1

  type Int32 = n: int | -0x8000_0000 <= n < 0x8000_0000
  type UInt32 = n: nat | n < 0x1_0000_0000
  type UInt64 = n: nat | n < 0x1_0000_0000_0000_0000

  /** The casts between int and a 32-bit unsigned integer. */
  function ToUnsigned(n: Int32): UInt32 {
    if n < 0 then n + 0x1_0000_0000 else n
  }

  function ToSigned(n: UInt32): Int32 {
    if n < 0x8000_0000 then n else n - 0x1_0000_0000
  }

  function Pow256(n: nat): (p: nat)
    ensures p >= 1
  {
    if n == 0 then 1 else 256 * Pow256(n - 1)
  }

  /** The low `width` bytes of `value`, least significant first. */
  function LittleEndian(value: nat, width: nat): (bytes: seq<Byte>)
    ensures |bytes| == width
  {
    if width == 0 then [] else [value % 256] + LittleEndian(value / 256, width - 1)
  }

  /** The unsigned integer that `bytes` stand for. */
  function Value(bytes: seq<Byte>): nat
  {
    if bytes == [] then 0 else bytes[0] + 256 * Value(bytes[1..])
  }

  lemma {:induction false} ValueOfLittleEndian(value: nat, width: nat)
    requires value < Pow256(width)
    ensures Value(LittleEndian(value, width)) == value
  {
    if width > 0 {
      ValueOfLittleEndian(value / 256, width - 1);
      assert LittleEndian(value, width)[1..] == LittleEndian(value / 256, width - 1);
    }
  }

  lemma {:induction false} LittleEndianOfValue(bytes: seq<Byte>)
    ensures Value(bytes) < Pow256(|bytes|)
    ensures LittleEndian(Value(bytes), |bytes|) == bytes
  {
    if bytes != [] {
      LittleEndianOfValue(bytes[1..]);
      assert bytes == [bytes[0]] + bytes[1..];
    }
  }

  /** The byte written after `n` others is the n-th base-256 digit. */
  lemma {:induction false} LittleEndianSnoc(value: nat, n: nat)
    ensures LittleEndian(value, n + 1) == LittleEndian(value, n) + [value / Pow256(n) % 256]
  {
    if n > 0 {
      LittleEndianSnoc(value / 256, n - 1);
      DivDiv(value, Pow256(n - 1));
    }
  }

  lemma DivDiv(value: nat, d: nat)
    requires d > 0
    ensures value / 256 / d == value / (256 * d)
  {
    var q, r := value / 256, value % 256;
    var a, b := q / d, q % d;
    assert value == 256 * (d * a + b) + r == 256 * d * a + (256 * b + r);
    assert 256 * b + r < 256 * d;
    DivUnique(value, 256 * d, a, 256 * b + r);
  }

  lemma DivUnique(n: nat, d: nat, q: nat, r: nat)
    requires d > 0 && r < d && n == d * q + r
    ensures n / d == q
  {
    MulGap(d, n / d, q);
    MulGap(d, q, n / d);
  }

  lemma MulGap(d: nat, x: nat, y: nat)
    ensures x < y ==> d * x + d <= d * y
  {
    if x < y {
      assert d * y == d * x + d * (y - x);
      assert y - x >= 1;
      assert d * (y - x) >= d * 1;
    }
  }

  lemma {:induction false} ValueSnoc(bytes: seq<Byte>, b: Byte)
    ensures Value(bytes + [b]) == Value(bytes) + b * Pow256(|bytes|)
  {
    if bytes == [] {
      assert bytes + [b] == [b];
      assert [b][1..] == [];
    } else {
      assert (bytes + [b])[1..] == bytes[1..] + [b];
      ValueSnoc(bytes[1..], b);
      assert 256 * (b * Pow256(|bytes| - 1)) == b * (256 * Pow256(|bytes| - 1));
    }
  }

  /** Shifting right by 8 bits per byte and keeping the low byte, for each byte of the field. */
  method AppendLittleEndian(output: seq<Byte>, value: nat, width: nat) returns (grown: seq<Byte>)
    requires value < Pow256(width)
    ensures grown == output + LittleEndian(value, width)
  {
    grown := output;
    for index := 0 to width
      invariant grown == output + LittleEndian(value, index)
    {
      LittleEndianSnoc(value, index);
      grown := grown + [value / Pow256(index) % 256];
    }
  }

  /** Reads a field and advances the offset, or throws and leaves it. */
  method ReadLittleEndian(input: seq<Byte>, offset: nat, width: nat) returns (field: Outcome<nat>, next: nat)
    ensures offset + width <= |input| ==>
              field == Done(Value(input[offset..offset + width])) && next == offset + width
    ensures offset + width > |input| ==> field == Threw(PacketTruncated) && next == offset
  {
    if offset > |input| || |input| - offset < width {
      return Threw(PacketTruncated), offset;
    }
    var value := 0;
    assert input[offset..offset] == [];
    for index := 0 to width
      invariant value == Value(input[offset..offset + index])
    {
      ValueSnoc(input[offset..offset + index], input[offset + index]);
      assert input[offset..offset + index + 1] == input[offset..offset + index] + [input[offset + index]];
      value := value + input[offset + index] * Pow256(index);
    }
    return Done(value), offset + width;
  }
}
