/** The FNV-1a call digest (veetee_mcp.c; draft-eastlake-fnv section 2). */
module McpDigest {
  import opened Arithmetic
  import opened Bits

  const OFFSET := 2166136261

  /** Multiplication by the FNV prime, modulo 2^32. */
  function TimesPrime(x: nat): Word {
    x * 16777619 % 0x1_0000_0000
  }

  /** Multiplication by the prime's inverse, modulo 2^32. */
  function TimesInverse(x: nat): Word {
    x * 0x359c449b % 0x1_0000_0000
  }

  function Mix(digest: Word, byte: Byte): Word {
    TimesPrime(Xor(digest, byte, 32))
  }

  function Unmix(digest: Word, byte: Byte): nat {
    Xor(TimesInverse(digest), byte, 32)
  }

  /** The running value after `bytes`, byte by byte. */
  function Fnv(digest: Word, bytes: Bytes): Word {
    if bytes == [] then digest else Mix(Fnv(digest, bytes[..|bytes| - 1]), bytes[|bytes| - 1])
  }

  /** The prime and its inverse multiply to 3513497 * 2^32 + 1. */
  lemma ModularInverse(x: Word, p: nat, i: nat)
    requires p * i == 3513497 * 0x1_0000_0000 + 1
    ensures (x * p % 0x1_0000_0000) * i % 0x1_0000_0000 == x
  {
    var m := 0x1_0000_0000;
    var q, y := x * p / m, x * p % m;
    calc {
      y * i;
      (x * p - q * m) * i;
      x * p * i - q * m * i;
      { assert x * p * i == x * (p * i); }
      x * (3513497 * m + 1) - q * m * i;
      { assert q * m * i == q * i * m; }
      (x * 3513497 - q * i) * m + x;
    }
    DivUnique(y * i, m, x * 3513497 - q * i, x);
  }

  lemma PrimeHasInverse(x: Word)
    ensures TimesInverse(TimesPrime(x)) == x && TimesPrime(TimesInverse(x)) == x
  {
    ModularInverse(x, 16777619, 0x359c449b);
    ModularInverse(x, 0x359c449b, 16777619);
  }

  /** A step is the exclusive or, bit for bit, and then the multiplication by 16777619 on 32 bits. */
  lemma MixIsFnv(digest: Word, byte: Byte) returns (x: Word)
    ensures forall n :: 0 <= n < 32 ==> Bit(x, n) == (Bit(digest, n) + Bit(byte, n)) % 2
    ensures Mix(digest, byte) == x * 16777619 % 0x1_0000_0000
  {
    Pow2Is(32);
    x := Xor(digest, byte, 32);
    forall n | 0 <= n < 32
      ensures Bit(x, n) == (Bit(digest, n) + Bit(byte, n)) % 2
    {
      XorBits(digest, byte, 32, n);
    }
  }

  /** Each step is a bijection on 32-bit states: multiplying by the prime's inverse undoes it. */
  lemma MixIsBijective(digest: Word, byte: Byte)
    ensures Unmix(Mix(digest, byte), byte) == digest
    ensures Unmix(digest, byte) < 0x1_0000_0000 && Mix(Unmix(digest, byte), byte) == digest
  {
    Pow2Is(32);
    PrimeHasInverse(Xor(digest, byte, 32));
    XorUndoes(digest, byte, 32);
    PrimeHasInverse(digest);
    XorUndoes(TimesInverse(digest), byte, 32);
  }

  lemma MixSeparatesBytes(digest: Word, a: Byte, b: Byte)
    requires a != b
    ensures Mix(digest, a) != Mix(digest, b)
  {
    Pow2Is(32);
    PrimeHasInverse(Xor(digest, a, 32));
    PrimeHasInverse(Xor(digest, b, 32));
    if Xor(digest, a, 32) == Xor(digest, b, 32) {
      XorSeparates(digest, a, b, 32);
    }
  }

  lemma {:induction false} EqualTailsKeepApart(d: Word, e: Word, bytes: Bytes)
    requires d != e
    ensures Fnv(d, bytes) != Fnv(e, bytes)
  {
    if bytes != [] {
      var init, last := bytes[..|bytes| - 1], bytes[|bytes| - 1];
      EqualTailsKeepApart(d, e, init);
      MixIsBijective(Fnv(d, init), last);
      MixIsBijective(Fnv(e, init), last);
    }
  }

  lemma {:induction false} FnvAppend(digest: Word, a: Bytes, b: Bytes)
    ensures Fnv(digest, a + b) == Fnv(Fnv(digest, a), b)
  {
    if b == [] {
      assert a + b == a;
    } else {
      var init := b[..|b| - 1];
      FnvAppend(digest, a, init);
      assert (a + b)[..|a + b| - 1] == a + init;
    }
  }

  /** Inputs that differ in exactly one byte never share a digest. */
  lemma OneByteApart(digest: Word, prefix: Bytes, a: Byte, b: Byte, suffix: Bytes)
    requires a != b
    ensures Fnv(digest, prefix + [a] + suffix) != Fnv(digest, prefix + [b] + suffix)
  {
    FnvAppend(digest, prefix + [a], suffix);
    FnvAppend(digest, prefix + [b], suffix);
    assert (prefix + [a])[..|prefix|] == prefix && (prefix + [b])[..|prefix|] == prefix;
    MixSeparatesBytes(Fnv(digest, prefix), a, b);
    EqualTailsKeepApart(Fnv(digest, prefix + [a]), Fnv(digest, prefix + [b]), suffix);
  }

  // ----------------------------------------------------- length-prefixed form

  /** The four length bytes, most significant first. */
  function LengthBytes(n: nat): (b: Bytes)
    requires n < 0x1_0000_0000
    ensures |b| == 4
  {
    [n / 0x100_0000, n / 0x1_0000 % 256, n / 0x100 % 256, n % 256]
  }

  lemma LengthBytesValue(n: nat)
    requires n < 0x1_0000_0000
    ensures var b := LengthBytes(n); n == (((b[0] as int) * 256 + b[1]) * 256 + b[2]) * 256 + b[3]
  {
    var high, middle := n / 0x1_0000, n / 0x100;
    assert middle == high * 256 + middle % 256 && n == middle * 256 + n % 256;
    assert high == (n / 0x100_0000) * 256 + high % 256;
  }

  lemma LengthBytesInjective(m: nat, n: nat)
    requires m < 0x1_0000_0000 && n < 0x1_0000_0000
    requires LengthBytes(m) == LengthBytes(n)
    ensures m == n
  {
    var a, b := LengthBytes(m), LengthBytes(n);
    assert a[0] == b[0] && a[1] == b[1] && a[2] == b[2] && a[3] == b[3];
    LengthBytesValue(m);
    LengthBytesValue(n);
  }

  /** A C string on a 32-bit target is shorter than 4 GiB. */
  predicate Addressable(s: Bytes) {
    |s| < 0x1_0000_0000
  }

  function Prefixed(s: Bytes): Bytes
    requires Addressable(s)
  {
    LengthBytes(|s|) + s
  }

  function Serialise(name: Bytes, tool: Bytes, arguments: Bytes): Bytes
    requires Addressable(name) && Addressable(tool) && Addressable(arguments)
  {
    Prefixed(name) + Prefixed(tool) + Prefixed(arguments)
  }

  lemma PrefixedSplits(s: Bytes, s': Bytes, rest: Bytes, rest': Bytes)
    requires Addressable(s) && Addressable(s')
    requires Prefixed(s) + rest == Prefixed(s') + rest'
    ensures s == s' && rest == rest'
  {
    var whole, whole' := Prefixed(s) + rest, Prefixed(s') + rest';
    assert whole[..4] == LengthBytes(|s|) && whole'[..4] == LengthBytes(|s'|);
    LengthBytesInjective(|s|, |s'|);
    assert whole[4..4 + |s|] == s && whole'[4..4 + |s|] == s';
    assert whole[4 + |s|..] == rest && whole'[4 + |s|..] == rest';
  }

  /** No two different calls serialise alike. */
  lemma SerialiseInjective(m: Bytes, t: Bytes, a: Bytes, m': Bytes, t': Bytes, a': Bytes)
    requires Addressable(m) && Addressable(t) && Addressable(a)
    requires Addressable(m') && Addressable(t') && Addressable(a')
    requires Serialise(m, t, a) == Serialise(m', t', a')
    ensures m == m' && t == t' && a == a'
  {
    assert Serialise(m, t, a) == Prefixed(m) + (Prefixed(t) + Prefixed(a));
    assert Serialise(m', t', a') == Prefixed(m') + (Prefixed(t') + Prefixed(a'));
    PrefixedSplits(m, m', Prefixed(t) + Prefixed(a), Prefixed(t') + Prefixed(a'));
    PrefixedSplits(t, t', Prefixed(a), Prefixed(a'));
    assert Prefixed(a) + [] == Prefixed(a) && Prefixed(a') + [] == Prefixed(a');
    PrefixedSplits(a, a', [], []);
  }

  // ------------------------------------------------------------------ the code

  method DigestBytes(start: Word, bytes: Bytes) returns (digest: Word)
    ensures digest == Fnv(start, bytes)
  {
    digest := start;
    for index := 0 to |bytes|
      invariant digest == Fnv(start, bytes[..index])
    {
      assert bytes[..index + 1][..index] == bytes[..index];
      Pow2Is(32);
      var mixed := Xor(digest, bytes[index], 32);
      digest := TimesPrime(mixed);
    }
    assert bytes[..|bytes|] == bytes;
  }

  method DigestString(start: Word, value: Bytes) returns (digest: Word)
    requires Addressable(value)
    ensures digest == Fnv(start, Prefixed(value))
  {
    var length := |value|;
    digest := DigestBytes(start, LengthBytes(length));
    digest := DigestBytes(digest, value);
    FnvAppend(start, LengthBytes(length), value);
  }

  /** vt_mcp_digest_call is FNV-1a of the length-prefixed serialisation. */
  method DigestCall(name: Bytes, tool: Bytes, arguments: Bytes) returns (digest: Word)
    requires Addressable(name) && Addressable(tool) && Addressable(arguments)
    ensures digest == Fnv(2166136261, Serialise(name, tool, arguments)) // the FNV offset basis
  {
    digest := DigestString(OFFSET, name);
    digest := DigestString(digest, tool);
    digest := DigestString(digest, arguments);
    FnvAppend(OFFSET, Prefixed(name), Prefixed(tool));
    FnvAppend(OFFSET, Prefixed(name) + Prefixed(tool), Prefixed(arguments));
  }

  ghost predicate DifferInOneByte(x: Bytes, y: Bytes) {
    |x| == |y| && exists i :: 0 <= i < |x| && x[i] != y[i] && x[..i] == y[..i] && x[i + 1..] == y[i + 1..]
  }

  lemma SplitAt(x: Bytes, i: nat)
    requires i < |x|
    ensures x == x[..i] + [x[i]] + x[i + 1..]
  {
  }

  /** Any two equally long inputs with a single byte changed get different digests. */
  lemma OneByteChangeIsSeen(digest: Word, x: Bytes, y: Bytes)
    requires DifferInOneByte(x, y)
    ensures Fnv(digest, x) != Fnv(digest, y)
  {
    var i :| 0 <= i < |x| && x[i] != y[i] && x[..i] == y[..i] && x[i + 1..] == y[i + 1..];
    SplitAt(x, i);
    SplitAt(y, i);
    OneByteApart(digest, x[..i], x[i], y[i], x[i + 1..]);
  }

  /** A call whose arguments were changed in one byte never shares the original's digest. */
  lemma ChangedArgumentIsSeen(name: Bytes, tool: Bytes, a: Bytes, a': Bytes)
    requires Addressable(name) && Addressable(tool) && Addressable(a) && Addressable(a')
    requires DifferInOneByte(a, a')
    ensures Fnv(OFFSET, Serialise(name, tool, a)) != Fnv(OFFSET, Serialise(name, tool, a'))
  {
    var head := Prefixed(name) + Prefixed(tool) + LengthBytes(|a|);
    assert Serialise(name, tool, a) == head + a && Serialise(name, tool, a') == head + a';
    FnvAppend(OFFSET, head, a);
    FnvAppend(OFFSET, head, a');
    OneByteChangeIsSeen(Fnv(OFFSET, head), a, a');
  }
}
