/** Bytes, big-endian integers, and the few Node `Buffer` operations the library uses. */
module Bytes {

  type Byte = b: int | 0 <= b < 256

  type Text = seq<Byte>

  const U16_LIMIT := 0x1_0000
  const U32_LIMIT := 0x1_0000_0000

  function U16(n: nat): (s: seq<Byte>)
    requires n < U16_LIMIT
    ensures |s| == 2
  {
    [n / 256, n % 256]
  }

  function U32(n: nat): (s: seq<Byte>)
    requires n < U32_LIMIT
    ensures |s| == 4
  {
    U16(n / 0x1_0000) + U16(n % 0x1_0000)
  }

  function GetU16(s: seq<Byte>, i: nat): (n: nat)
    requires i + 2 <= |s|
    ensures n < U16_LIMIT
  {
    var high: int := s[i];
    high * 256 + s[i + 1]
  }

  function GetU32(s: seq<Byte>, i: nat): (n: nat)
    requires i + 4 <= |s|
    ensures n < U32_LIMIT
  {
    GetU16(s, i) * 0x1_0000 + GetU16(s, i + 2)
  }

  /** The number a string of bytes stands for, the most significant byte first. */
  function BigEndian(s: Text): nat {
    if s == [] then 0 else BigEndian(s[..|s| - 1]) * 256 + s[|s| - 1]
  }

  lemma BigEndianStep(s: Text, b: Byte)
    ensures BigEndian(s + [b]) == BigEndian(s) * 256 + b
  {
    assert (s + [b])[..|s|] == s;
  }

  lemma BigEndianTwo(a: Byte, b: Byte)
    ensures BigEndian([a, b]) == a * 256 + b
  {
    BigEndianStep([], a);
    BigEndianStep([a], b);
    assert [] + [a] == [a] && [a] + [b] == [a, b];
  }

  lemma BigEndianFour(a: Byte, b: Byte, c: Byte, d: Byte)
    ensures BigEndian([a, b, c, d]) == (a * 256 + b) * 0x1_0000 + (c * 256 + d)
  {
    BigEndianTwo(a, b);
    BigEndianStep([a, b], c);
    BigEndianStep([a, b, c], d);
    assert [a, b] + [c] == [a, b, c] && [a, b, c] + [d] == [a, b, c, d];
  }

  /** Integers are read with the most significant byte first. */
  lemma ReadsBigEndian(s: Text, i: nat)
    ensures i + 2 <= |s| ==> GetU16(s, i) == BigEndian(s[i..i + 2])
    ensures i + 4 <= |s| ==> GetU32(s, i) == BigEndian(s[i..i + 4])
  {
    if i + 2 <= |s| {
      BigEndianTwo(s[i], s[i + 1]);
      assert s[i..i + 2] == [s[i], s[i + 1]];
    }
    if i + 4 <= |s| {
      BigEndianFour(s[i], s[i + 1], s[i + 2], s[i + 3]);
      assert s[i..i + 4] == [s[i], s[i + 1], s[i + 2], s[i + 3]];
    }
  }

  /** And written that way. */
  lemma WritesBigEndian(n: nat)
    ensures n < U16_LIMIT ==> BigEndian(U16(n)) == n
    ensures n < U32_LIMIT ==> BigEndian(U32(n)) == n
  {
    if n < U16_LIMIT {
      BigEndianTwo(n / 256, n % 256);
    }
    if n < U32_LIMIT {
      var h, l := n / 0x1_0000, n % 0x1_0000;
      BigEndianFour(h / 256, h % 256, l / 256, l % 256);
      assert U32(n) == [h / 256, h % 256, l / 256, l % 256];
    }
  }

  /** Writing an integer and reading it back, wherever it sits in a buffer. */
  lemma ReadBackU16(s: seq<Byte>, i: nat, n: nat)
    requires i + 2 <= |s| && n < U16_LIMIT
    requires s[i..i + 2] == U16(n)
    ensures GetU16(s, i) == n
  {
    assert s[i] == s[i..i + 2][0] && s[i + 1] == s[i..i + 2][1];
  }

  lemma ReadBackU32(s: seq<Byte>, i: nat, n: nat)
    requires i + 4 <= |s| && n < U32_LIMIT
    requires s[i..i + 4] == U32(n)
    ensures GetU32(s, i) == n
  {
    assert s[i..i + 2] == s[i..i + 4][..2] == U16(n / 0x1_0000);
    assert s[i + 2..i + 4] == s[i..i + 4][2..] == U16(n % 0x1_0000);
    ReadBackU16(s, i, n / 0x1_0000);
    ReadBackU16(s, i + 2, n % 0x1_0000);
  }

  /** Node's `Buffer.slice` for a non-negative start: both ends are clamped to the buffer,
      and an end before the start yields the empty buffer. */
  function Slice(s: seq<Byte>, start: nat, end: int): (r: seq<Byte>)
    ensures start <= end <= |s| ==> r == s[start..end]
    ensures start <= |s| < end ==> r == s[start..]
    ensures start >= end || start >= |s| ==> r == []
  {
    var a := if start < |s| then start else |s|;
    var b := if end < |s| then end else |s|;
    if a < b then s[a..b] else []
  }

  lemma Assoc(a: seq<Byte>, b: seq<Byte>, c: seq<Byte>)
    ensures a + b + c == a + (b + c)
  {}

  lemma EmptyIsUnit(a: seq<Byte>, b: seq<Byte>)
    requires |a| == 0
    ensures a + b == b && b + a == b
  {}

  method WriteUInt8(output: array<Byte>, v: nat, offset: nat) returns (next: nat)
    requires v < 256 && offset < output.Length
    modifies output
    ensures next == offset + 1
    ensures output[..next] == old(output[..offset]) + [v]
  {
    output[offset] := v;
    next := offset + 1;
  }

  method WriteUInt16BE(output: array<Byte>, v: nat, offset: nat) returns (next: nat)
    requires v < U16_LIMIT && offset + 2 <= output.Length
    modifies output
    ensures next == offset + 2
    ensures output[..next] == old(output[..offset]) + U16(v)
  {
    output[offset] := v / 256;
    output[offset + 1] := v % 256;
    next := offset + 2;
  }

  method WriteUInt32BE(output: array<Byte>, v: nat, offset: nat) returns (next: nat)
    requires v < U32_LIMIT && offset + 4 <= output.Length
    modifies output
    ensures next == offset + 4
    ensures output[..next] == old(output[..offset]) + U32(v)
  {
    var mid := WriteUInt16BE(output, v / 0x1_0000, offset);
    next := WriteUInt16BE(output, v % 0x1_0000, mid);
    Assoc(old(output[..offset]), U16(v / 0x1_0000), U16(v % 0x1_0000));
  }

  /** `source.copy(target, targetStart, sourceStart, sourceEnd)` and `target.write(text, offset)`:
      the bytes land at `offset`. */
  method CopyInto(source: seq<Byte>, target: array<Byte>, offset: nat)
    requires offset + |source| <= target.Length
    modifies target
    ensures target[..offset + |source|] == old(target[..offset]) + source
  {
    forall i | 0 <= i < |source| {
      target[offset + i] := source[i];
    }
  }
}
