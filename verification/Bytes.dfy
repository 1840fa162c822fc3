/** Byte encodings: little-endian integers and the UTF-8 form of a string. */
module Bytes {
  import opened MachineIntegers

  type byte = b: int | 0 <= b < 256

  // ----- Little-endian integers -----

  /** The low `width` bytes of `n`, least significant first: `to_le_bytes` after a truncating cast. */
  function LittleEndian(n: nat, width: nat): (bytes: seq<byte>)
    ensures |bytes| == width
  {
    if width == 0 then [] else [n % 256] + LittleEndian(n / 256, width - 1)
  }

  function FromLittleEndian(bytes: seq<byte>): nat {
    if bytes == [] then 0 else bytes[0] + 256 * FromLittleEndian(bytes[1..])
  }

  predicate FitsIn(n: nat, width: nat) {
    if width == 0 then n == 0 else FitsIn(n / 256, width - 1)
  }

  lemma {:induction false} LittleEndianInverse(n: nat, width: nat)
    requires FitsIn(n, width)
    ensures FromLittleEndian(LittleEndian(n, width)) == n
  {
    if width > 0 {
      LittleEndianInverse(n / 256, width - 1);
      assert LittleEndian(n, width)[1..] == LittleEndian(n / 256, width - 1);
    }
  }

  /** Eight bytes are worth their value with the least significant first. */
  lemma EightBytes(b: seq<byte>)
    requires |b| == 8
    ensures FromLittleEndian(b)
         == b[0] + 256 * (b[1] + 256 * (b[2] + 256 * (b[3]
            + 256 * (b[4] + 256 * (b[5] + 256 * (b[6] + 256 * (b[7] as int)))))))
  {
    LowByte(b, 0);
    LowByte(b, 1);
    LowByte(b, 2);
    LowByte(b, 3);
    LowByte(b, 4);
    LowByte(b, 5);
    LowByte(b, 6);
    LowByte(b, 7);
    assert b[0..] == b && b[8..] == [];
  }

  lemma LowByte(b: seq<byte>, i: nat)
    requires i < |b|
    ensures FromLittleEndian(b[i..]) == b[i] + 256 * FromLittleEndian(b[i + 1..])
  {
    assert b[i..][1..] == b[i + 1..];
  }

  lemma FitsIn32(n: nat)
    ensures FitsIn(n, 4) <==> n < U32_LIMIT
  {
    var third := n / 256 / 256 / 256;
    assert FitsIn(n, 4) <==> FitsIn(n / 256 / 256, 2);
    assert FitsIn(n / 256 / 256, 2) <==> FitsIn(third, 1);
    assert FitsIn(third, 1) <==> third / 256 == 0;
  }

  lemma FitsIn64(n: nat)
    requires n < U64_LIMIT
    ensures FitsIn(n, 8)
  {
    var high := n / 256 / 256 / 256 / 256;
    FitsIn32(high);
    assert FitsIn(n / 256 / 256, 6) <==> FitsIn(high, 4);
    assert FitsIn(n, 8) <==> FitsIn(n / 256 / 256, 6);
  }

  /** A 64-bit length prefix is read back from any stream that starts with it. */
  lemma LittleEndian64Prefix(a: nat, b: nat, restA: seq<byte>, restB: seq<byte>)
    requires a < U64_LIMIT && b < U64_LIMIT
    requires LittleEndian(a, 8) + restA == LittleEndian(b, 8) + restB
    ensures a == b && restA == restB
  {
    var streamA, streamB := LittleEndian(a, 8) + restA, LittleEndian(b, 8) + restB;
    assert streamA[..8] == LittleEndian(a, 8) && streamB[..8] == LittleEndian(b, 8);
    assert streamA[8..] == restA && streamB[8..] == restB;
    FitsIn64(a);
    FitsIn64(b);
    LittleEndianInverse(a, 8);
    LittleEndianInverse(b, 8);
  }

  // ----- UTF-8 -----

  function EncodeChar(c: char): (bytes: seq<byte>)
    ensures 1 <= |bytes| <= 4
  {
    var n := c as int;
    if n < 0x80 then [n]
    else if n < 0x800 then [0xC0 + n / 64, 0x80 + n % 64]
    else if n < 0x1_0000 then [0xE0 + n / 4096, 0x80 + n / 64 % 64, 0x80 + n % 64]
    else [0xF0 + n / 262144, 0x80 + n / 4096 % 64, 0x80 + n / 64 % 64, 0x80 + n % 64]
  }

  /** `str::as_bytes`. */
  function Utf8(s: string): (bytes: seq<byte>)
    ensures |s| <= |bytes|
  {
    if s == "" then [] else EncodeChar(s[0]) + Utf8(s[1..])
  }

  /** The code point a UTF-8 sequence starts with. */
  function LeadingCodePoint(bytes: seq<byte>): int
    requires |bytes| >= 4
  {
    var b0: int, b1: int, b2: int, b3: int := bytes[0], bytes[1], bytes[2], bytes[3];
    if b0 < 0x80 then b0
    else if b0 < 0xE0 then (b0 - 0xC0) * 64 + (b1 - 0x80)
    else if b0 < 0xF0 then (b0 - 0xE0) * 4096 + (b1 - 0x80) * 64 + (b2 - 0x80)
    else (b0 - 0xF0) * 262144 + (b1 - 0x80) * 4096 + (b2 - 0x80) * 64 + (b3 - 0x80)
  }

  lemma LeadingCodePointOf(c: char, rest: seq<byte>)
    requires |rest| >= 3
    ensures LeadingCodePoint(EncodeChar(c) + rest) == c as int
  {
    var n := c as int;
    assert n / 4096 == n / 64 / 64;
    assert n / 262144 == n / 4096 / 64;
  }

  lemma EncodeCharPrefix(a: char, b: char, restA: seq<byte>, restB: seq<byte>)
    requires EncodeChar(a) + restA == EncodeChar(b) + restB
    ensures a == b && restA == restB
  {
    var padding: seq<byte> := [0, 0, 0];
    LeadingCodePointOf(a, restA + padding);
    LeadingCodePointOf(b, restB + padding);
    assert EncodeChar(a) + (restA + padding) == (EncodeChar(a) + restA) + padding;
    assert EncodeChar(b) + (restB + padding) == (EncodeChar(b) + restB) + padding;
    assert restA == (EncodeChar(a) + restA)[|EncodeChar(a)|..];
    assert restB == (EncodeChar(b) + restB)[|EncodeChar(b)|..];
  }

  lemma {:induction false} Utf8Injective(a: string, b: string)
    requires Utf8(a) == Utf8(b)
    ensures a == b
  {
    if a != "" && b != "" {
      EncodeCharPrefix(a[0], b[0], Utf8(a[1..]), Utf8(b[1..]));
      Utf8Injective(a[1..], b[1..]);
      assert a == [a[0]] + a[1..] && b == [b[0]] + b[1..];
    }
  }

  lemma {:induction false} Utf8Concat(a: string, b: string)
    ensures Utf8(a + b) == Utf8(a) + Utf8(b)
  {
    if a == "" {
      assert a + b == b;
    } else {
      assert (a + b)[1..] == a[1..] + b;
      Utf8Concat(a[1..], b);
    }
  }
}
