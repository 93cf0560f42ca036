/** Bytes, big-endian words and exclusive or, written out over integers. */
module Bits {
  type Byte = x: int | 0 <= x < 256
  type Bytes = seq<Byte>
  type Word = x: int | 0 <= x < 0x1_0000_0000

  function Pow2(n: nat): (p: nat)
    ensures p > 0
  {
    if n == 0 then 1 else 2 * Pow2(n - 1)
  }

  /** Exclusive or of the two lowest bits. */
  function BitXor(a: nat, b: nat): (bit: nat)
    ensures bit < 2
  {
    if a % 2 == b % 2 then 0 else 1
  }

  lemma Halves(x: nat, bit: nat)
    requires bit < 2
    ensures (2 * x + bit) / 2 == x && (2 * x + bit) % 2 == bit
  {
  }

  /** Exclusive or of the low `bits` bits. */
  function Xor(a: nat, b: nat, bits: nat): (x: nat)
    ensures x < Pow2(bits)
  {
    if bits == 0 then 0 else 2 * Xor(a / 2, b / 2, bits - 1) + BitXor(a, b)
  }

  lemma {:induction false} XorUndoes(a: nat, b: nat, bits: nat)
    requires a < Pow2(bits)
    ensures Xor(Xor(a, b, bits), b, bits) == a
  {
    if bits > 0 {
      XorUndoes(a / 2, b / 2, bits - 1);
      Halves(Xor(a / 2, b / 2, bits - 1), BitXor(a, b));
    }
  }

  lemma {:induction false} XorSeparates(a: nat, b: nat, c: nat, bits: nat)
    requires b < Pow2(bits) && c < Pow2(bits) && Xor(a, b, bits) == Xor(a, c, bits)
    ensures b == c
  {
    if bits > 0 {
      Halves(Xor(a / 2, b / 2, bits - 1), BitXor(a, b));
      Halves(Xor(a / 2, c / 2, bits - 1), BitXor(a, c));
      XorSeparates(a / 2, b / 2, c / 2, bits - 1);
    }
  }

  /** Bit `n`, the lowest being bit 0. */
  function Bit(x: nat, n: nat): (bit: nat)
    ensures bit < 2
  {
    if n == 0 then x % 2 else Bit(x / 2, n - 1)
  }

  /** Each bit is the sum of the two bits without carry. */
  lemma {:induction false} XorBits(a: nat, b: nat, bits: nat, n: nat)
    requires n < bits
    ensures Bit(Xor(a, b, bits), n) == (Bit(a, n) + Bit(b, n)) % 2
  {
    Halves(Xor(a / 2, b / 2, bits - 1), BitXor(a, b));
    if n > 0 {
      XorBits(a / 2, b / 2, bits - 1, n - 1);
    }
  }

  lemma XorTellsBits(a: nat, b: nat, bits: nat, n: nat)
    requires n < bits
    ensures (Bit(Xor(a, b, bits), n) + Bit(a, n)) % 2 == Bit(b, n)
  {
    XorBits(a, b, bits, n);
  }

  lemma {:induction false} XorOfZero(b: nat, bits: nat)
    requires b < Pow2(bits)
    ensures Xor(0, b, bits) == b
  {
    if bits > 0 {
      XorOfZero(b / 2, bits - 1);
    }
  }

  lemma Pow2Is(n: nat)
    ensures n == 8 ==> Pow2(n) == 256
    ensures n == 32 ==> Pow2(n) == 0x1_0000_0000
  {
    assert Pow2(4) == 16 && Pow2(8) == 16 * Pow2(4);
    assert Pow2(12) == 16 * Pow2(8) && Pow2(16) == 16 * Pow2(12);
    assert Pow2(20) == 16 * Pow2(16) && Pow2(24) == 16 * Pow2(20);
    assert Pow2(28) == 16 * Pow2(24) && Pow2(32) == 16 * Pow2(28);
  }

  // ------------------------------------------------------------------- big-endian

  type Half = x: int | 0 <= x < 0x1_0000

  /** The cast to uint8_t. */
  function Low(x: nat): Byte {
    x % 256
  }

  function U16(v: Half): Bytes {
    [Low(v / 256), Low(v)]
  }

  function U32(v: Word): Bytes {
    [Low(v / 0x100_0000), Low(v / 0x1_0000), Low(v / 256), Low(v)]
  }

  function GetU16(b: Bytes, at: nat): Half
    requires at + 2 <= |b|
  {
    b[at] as int * 256 + b[at + 1]
  }

  function GetU32(b: Bytes, at: nat): Word
    requires at + 4 <= |b|
  {
    b[at] as int * 0x100_0000 + b[at + 1] as int * 0x1_0000 + b[at + 2] as int * 256 + b[at + 3]
  }

  /** The bytes at `at` stand for `v` in network byte order, most significant first. */
  predicate HalfAt(b: Bytes, at: nat, v: int) {
    at + 2 <= |b| && b[at] as int * 256 + b[at + 1] as int == v
  }

  predicate WordAt(b: Bytes, at: nat, v: int) {
    && at + 4 <= |b|
    && ((b[at] as int * 256 + b[at + 1] as int) * 256 + b[at + 2] as int) * 256 + b[at + 3] as int == v
  }

  /** The four bytes of a word. */
  lemma WordDigits(v: Word)
    ensures v == Low(v / 0x100_0000) * 0x100_0000 + Low(v / 0x1_0000) * 0x1_0000 + Low(v / 256) * 256 + Low(v)
  {
    var a := v / 256;
    var b := a / 256;
    assert v == a * 256 + v % 256 && a == b * 256 + a % 256;
    assert v / 0x1_0000 == b;
    assert b == (b / 256) * 256 + b % 256 && v / 0x100_0000 == b / 256;
  }

  lemma DigitsWord(a: Byte, b: Byte, c: Byte, d: Byte)
    ensures U32(a * 0x100_0000 + b * 0x1_0000 + c * 256 + d) == [a, b, c, d]
  {
    var v := a * 0x100_0000 + b * 0x1_0000 + c * 256 + d;
    assert v / 0x100_0000 == a;
    assert v / 0x1_0000 == a * 256 + b;
    assert v / 256 == a * 0x1_0000 + b * 256 + c;
  }

  /** Reading undoes writing. */
  lemma WordReadsBack(v: Word, b: Bytes, at: nat)
    requires at + 4 <= |b| && b[at..at + 4] == U32(v)
    ensures GetU32(b, at) == v
  {
    var w := b[at..at + 4];
    assert w[0] == b[at] && w[1] == b[at + 1] && w[2] == b[at + 2] && w[3] == b[at + 3];
    WordDigits(v);
  }

  /** Writing undoes reading. */
  lemma WordWritesBack(b: Bytes, at: nat)
    requires at + 4 <= |b|
    ensures U32(GetU32(b, at)) == b[at..at + 4]
  {
    DigitsWord(b[at], b[at + 1], b[at + 2], b[at + 3]);
  }

  lemma HalfReadsBack(v: Half, b: Bytes, at: nat)
    requires at + 2 <= |b| && b[at..at + 2] == U16(v)
    ensures GetU16(b, at) == v
  {
    var w := b[at..at + 2];
    assert w[0] == b[at] && w[1] == b[at + 1];
  }

  lemma HalfWritesBack(b: Bytes, at: nat)
    requires at + 2 <= |b|
    ensures U16(GetU16(b, at)) == b[at..at + 2]
  {
  }

  /** Writing `bytes` right after `start` extends what has been written over `was` so far. */
  lemma Written(was: Bytes, start: Bytes, bytes: Bytes, before: Bytes, after: Bytes)
    requires |start| + |bytes| <= |was| && before == start + was[|start|..]
    requires after == before[..|start|] + bytes + before[|start| + |bytes|..]
    ensures after == (start + bytes) + was[|start + bytes|..]
  {
  }

  method PutU16(buffer: array<Byte>, at: nat, v: Half)
    requires at + 2 <= buffer.Length
    modifies buffer
    ensures buffer[..] == old(buffer[..at]) + U16(v) + old(buffer[at + 2..])
  {
    buffer[at] := Low(v / 256);
    buffer[at + 1] := Low(v);
  }

  method PutU32(buffer: array<Byte>, at: nat, v: Word)
    requires at + 4 <= buffer.Length
    modifies buffer
    ensures buffer[..] == old(buffer[..at]) + U32(v) + old(buffer[at + 4..])
  {
    buffer[at] := Low(v / 0x100_0000);
    buffer[at + 1] := Low(v / 0x1_0000);
    buffer[at + 2] := Low(v / 256);
    buffer[at + 3] := Low(v);
  }

  /** memcpy. */
  method Copy(buffer: array<Byte>, at: nat, bytes: Bytes)
    requires at + |bytes| <= buffer.Length
    modifies buffer
    ensures buffer[..] == old(buffer[..at]) + bytes + old(buffer[at + |bytes|..])
  {
    for k := 0 to |bytes|
      invariant buffer[..at + k] == old(buffer[..at]) + bytes[..k]
      invariant buffer[at + k..] == old(buffer[at + k..])
    {
      buffer[at + k] := bytes[k];
    }
  }
}
