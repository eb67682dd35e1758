// Fixed-width big-endian integers, as packages/bam-sdk/src/batch.ts and apps/bam-coprocessor/lib/src/lib.rs write them.
module BigEndian {
  import opened Bytes

  const U32: nat := 0x1_0000_0000
  const U64: nat := 0x1_0000_0000_0000_0000

  function Power(k: nat): (p: nat)
    ensures p > 0
  {
    if k == 0 then 1 else 256 * Power(k - 1)
  }

  /** The low `k` bytes of `n`, most significant first. */
  function BE(n: nat, k: nat): (b: bytes)
    ensures |b| == k
    decreases k
  {
    if k == 0 then [] else BE(n / 256, k - 1) + [n % 256]
  }

  function Value(b: bytes): nat {
    if b == [] then 0 else 256 * Value(b[..|b| - 1]) + b[|b| - 1]
  }

  lemma {:induction false} ValueBound(b: bytes)
    ensures Value(b) < Power(|b|)
  {
    if b != [] {
      ValueBound(b[..|b| - 1]);
    }
  }

  /** Writing keeps a value modulo 256 to the width. */
  lemma {:induction false} ValueOfBE(n: nat, k: nat)
    ensures Value(BE(n, k)) == n % Power(k)
    decreases k
  {
    if k > 0 {
      ValueOfBE(n / 256, k - 1);
      assert BE(n, k)[..k - 1] == BE(n / 256, k - 1);
      SplitMod(n, Power(k - 1));
    }
  }

  lemma {:induction false} SplitMod(n: nat, p: nat)
    requires p > 0
    ensures n % (256 * p) == 256 * ((n / 256) % p) + n % 256
  {
    var q, r := (n / 256) / p, (n / 256) % p;
    assert n / 256 == q * p + r;
    assert n == 256 * (q * p + r) + n % 256;
    Remainder(n, q, 256 * p, 256 * r + n % 256);
  }

  lemma {:induction false} Remainder(n: nat, q: nat, d: nat, r: nat)
    requires 0 <= r < d && n == q * d + r
    ensures n % d == r
  {
    var k := n / d - q;
    assert k >= 1 ==> k * d >= d;
    assert k <= -1 ==> k * d <= -(d as int);
    assert n == (n / d) * d + n % d;
    assert k * d == r - n % d;
  }

  /** Reading then writing gives the bytes back. */
  lemma {:induction false} BEOfValue(b: bytes)
    ensures BE(Value(b), |b|) == b
  {
    if b != [] {
      BEOfValue(b[..|b| - 1]);
      assert b == b[..|b| - 1] + [b[|b| - 1]];
    }
  }

  lemma {:induction false} Powers()
    ensures Power(4) == U32 && Power(8) == U64
  {
    assert Power(2) == 0x1_0000;
    assert Power(4) == 256 * (256 * Power(2));
    assert Power(6) == 256 * (256 * Power(4));
    assert Power(8) == 256 * (256 * Power(6));
  }

  lemma {:induction false} Written32(n: nat)
    ensures Value(BE(n, 4)) == n % U32
  {
    ValueOfBE(n, 4);
    Powers();
  }

  lemma {:induction false} Written64(n: nat)
    ensures Value(BE(n, 8)) == n % U64
  {
    ValueOfBE(n, 8);
    Powers();
  }

  /** `b` with `x` written over it at `o`. */
  function Overwrite(b: bytes, o: nat, x: bytes): (r: bytes)
    requires o + |x| <= |b|
    ensures |r| == |b| && r[o..o + |x|] == x && r[..o] == b[..o] && r[o + |x|..] == b[o + |x|..]
  {
    b[..o] + x + b[o + |x|..]
  }

  // ----- the helpers on buffers -----

  /** Copies a byte string into a buffer. */
  method SetBytes(buf: array<byte>, src: bytes, offset: nat)
    requires offset + |src| <= buf.Length
    modifies buf
    ensures buf[..] == Overwrite(old(buf[..]), offset, src)
  {
    for i := 0 to |src|
      invariant buf[..] == Overwrite(old(buf[..]), offset, src[..i])
    {
      buf[offset + i] := src[i];
    }
    assert src[..|src|] == src;
  }

  method WriteU32BE(buf: array<byte>, offset: nat, value: nat)
    requires offset + 4 <= buf.Length
    modifies buf
    ensures buf[..] == Overwrite(old(buf[..]), offset, BE(value, 4))
  {
    Bytes32(value);
    buf[offset] := value / 0x100_0000 % 0x100;
    buf[offset + 1] := value / 0x1_0000 % 0x100;
    buf[offset + 2] := value / 0x100 % 0x100;
    buf[offset + 3] := value % 0x100;
    assert buf[..] == Overwrite(old(buf[..]), offset, [value / 0x100_0000 % 0x100, value / 0x1_0000 % 0x100,
                                                       value / 0x100 % 0x100, value % 0x100]);
  }

  lemma {:induction false} Bytes32(n: nat)
    ensures BE(n, 4) == [n / 0x100_0000 % 0x100, n / 0x1_0000 % 0x100, n / 0x100 % 0x100, n % 0x100]
  {
    Quotients(n);
    var a, b, c := n / 0x100, n / 0x1_0000, n / 0x100_0000;
    hide BE;
    BEStep(c, 1);
    BEStep(b, 2);
    BEStep(a, 3);
    BEStep(n, 4);
    BEStep(c / 0x100, 0);
  }

  lemma {:induction false} BEStep(n: nat, k: nat)
    ensures BE(n, k) == if k == 0 then [] else BE(n / 0x100, k - 1) + [n % 0x100]
  {
  }

  lemma {:induction false} Quotients(n: nat)
    ensures n / 0x100 / 0x100 == n / 0x1_0000 && n / 0x1_0000 / 0x100 == n / 0x100_0000
  {
  }

  method ReadU32BE(buf: bytes, offset: nat) returns (v: nat)
    requires offset + 4 <= |buf|
    ensures v == Value(buf[offset..offset + 4]) && v < U32
  {
    v := Weigh(buf[offset], 0x100_0000) + Weigh(buf[offset + 1], 0x1_0000) + Weigh(buf[offset + 2], 0x100) + buf[offset + 3];
    var b := buf[offset..offset + 4];
    ValueStep(b, 4);
    ValueStep(b, 3);
    ValueStep(b, 2);
    ValueStep(b, 1);
    assert b[..4] == b;
  }

  lemma {:induction false} ValueStep(b: bytes, k: nat)
    requires 0 < k <= |b|
    ensures Value(b[..k]) == 256 * Value(b[..k - 1]) + b[k - 1]
    ensures k == 1 ==> Value(b[..k - 1]) == 0
  {
    assert b[..k][..k - 1] == b[..k - 1];
  }

  function Weigh(b: byte, w: nat): nat {
    b * w
  }

  method WriteU64BE(buf: array<byte>, offset: nat, value: nat)
    requires offset + 8 <= buf.Length
    modifies buf
    ensures buf[..] == Overwrite(old(buf[..]), offset, BE(value, 8))
  {
    var v := value;
    var i := 7;
    while i >= 0
      invariant -1 <= i <= 7
      invariant BE(value, 8) == BE(v, (i + 1) as nat) + buf[offset + i + 1..offset + 8]
      invariant buf[..offset] == old(buf[..offset]) && buf[offset + 8..] == old(buf[offset + 8..])
    {
      ghost var tail := buf[offset + i + 1..offset + 8];
      assert BE(v, (i + 1) as nat) == BE(v / 0x100, i as nat) + [v % 0x100];
      buf[offset + i] := v % 0x100;
      v := v / 0x100;
      assert buf[offset + i..offset + 8] == [buf[offset + i]] + tail;
      i := i - 1;
    }
    assert buf[..] == buf[..offset] + buf[offset..offset + 8] + buf[offset + 8..];
  }

  method ReadU64BE(buf: bytes, offset: nat) returns (v: nat)
    requires offset + 8 <= |buf|
    ensures v == Value(buf[offset..offset + 8]) && v < U64
  {
    v := 0;
    for i := 0 to 8
      invariant v == Value(buf[offset..offset + i])
    {
      var b := buf[offset..offset + i + 1];
      assert b[..i] == buf[offset..offset + i] && b[i] == buf[offset + i];
      v := v * 0x100 + buf[offset + i];
    }
    ValueBound(buf[offset..offset + 8]);
    Powers();
  }
}
