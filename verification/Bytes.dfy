/** Bytes and the integer encodings that the buffer and the RPC codec put on the wire. */
module Bytes {
  type byte = x: int | 0 <= x < 256

  const TWO_31: int := 0x8000_0000
  const TWO_32: int := 0x1_0000_0000
  const TWO_63: int := 0x8000_0000_0000_0000
  const TWO_64: int := 0x1_0000_0000_0000_0000

  /** The number of values that fit in n bytes. */
  function Pow256(n: nat): (p: nat)
    ensures p >= 1
  {
    if n == 0 then 1 else 256 * Pow256(n - 1)
  }

  lemma Pow256Values()
    ensures Pow256(1) == 0x100 && Pow256(2) == 0x1_0000
    ensures Pow256(4) == TWO_32 && Pow256(8) == TWO_64
  {
    assert Pow256(3) == 0x100_0000;
    assert Pow256(5) == 0x100_0000_0000;
    assert Pow256(6) == 0x1_0000_0000_0000;
    assert Pow256(7) == 0x100_0000_0000_0000;
  }

  /** Unsigned x in n bytes, most significant byte first (network byte order). */
  function BigEndian(x: nat, n: nat): (s: seq<byte>)
    ensures |s| == n
  {
    if n == 0 then [] else BigEndian(x / 256, n - 1) + [x % 256]
  }

  function FromBigEndian(s: seq<byte>): (x: nat)
    ensures x < Pow256(|s|)
  {
    if s == [] then 0 else 256 * FromBigEndian(s[..|s| - 1]) + s[|s| - 1]
  }

  /** Unsigned x in n bytes, least significant byte first. */
  function LittleEndian(x: nat, n: nat): (s: seq<byte>)
    ensures |s| == n
  {
    if n == 0 then [] else [x % 256] + LittleEndian(x / 256, n - 1)
  }

  function FromLittleEndian(s: seq<byte>): (x: nat)
    ensures x < Pow256(|s|)
  {
    if s == [] then 0 else s[0] + 256 * FromLittleEndian(s[1..])
  }

  /** The two's complement of an n-byte signed integer, and back. */
  predicate FitsSigned(x: int, n: nat) {
    0 <= 2 * x + Pow256(n) && 2 * x < Pow256(n)
  }

  function ToUnsigned(x: int, n: nat): (u: nat)
    requires FitsSigned(x, n)
    ensures u < Pow256(n)
  {
    if x < 0 then x + Pow256(n) else x
  }

  function ToSigned(u: nat, n: nat): (x: int)
    requires u < Pow256(n)
    ensures FitsSigned(x, n)
  {
    if 2 * u < Pow256(n) then u else u - Pow256(n)
  }

  /** The low 32 bits of x read as a C++ int. */
  function ToInt32(x: int): (r: int)
    ensures -TWO_31 <= r < TWO_31
    ensures -TWO_31 <= x < TWO_31 ==> r == x
    ensures (x - r) % TWO_32 == 0
  {
    var u := x % TWO_32;
    if u < TWO_31 then u else u - TWO_32
  }

  lemma {:induction false} BigEndianRoundTrip(x: nat, n: nat)
    requires x < Pow256(n)
    ensures FromBigEndian(BigEndian(x, n)) == x
  {
    if n > 0 {
      BigEndianRoundTrip(x / 256, n - 1);
      var s := BigEndian(x, n);
      assert s[..|s| - 1] == BigEndian(x / 256, n - 1);
    }
  }

  lemma {:induction false} BigEndianOnto(s: seq<byte>)
    ensures BigEndian(FromBigEndian(s), |s|) == s
  {
    if s != [] {
      BigEndianOnto(s[..|s| - 1]);
      var x := FromBigEndian(s);
      assert x / 256 == FromBigEndian(s[..|s| - 1]) && x % 256 == s[|s| - 1];
    }
  }

  lemma {:induction false} LittleEndianRoundTrip(x: nat, n: nat)
    requires x < Pow256(n)
    ensures FromLittleEndian(LittleEndian(x, n)) == x
  {
    if n > 0 {
      LittleEndianRoundTrip(x / 256, n - 1);
      assert LittleEndian(x, n)[1..] == LittleEndian(x / 256, n - 1);
    }
  }

  /** A signed integer in n bytes of network byte order. */
  function EncodeInt(x: int, n: nat): (s: seq<byte>)
    requires FitsSigned(x, n)
    ensures |s| == n
  {
    BigEndian(ToUnsigned(x, n), n)
  }

  function DecodeInt(s: seq<byte>): (x: int)
    ensures FitsSigned(x, |s|)
  {
    ToSigned(FromBigEndian(s), |s|)
  }

  /** Network integers, negatives included, survive a trip through the bytes in both directions. */
  lemma IntRoundTrip(x: int, n: nat)
    requires FitsSigned(x, n)
    ensures DecodeInt(EncodeInt(x, n)) == x
  {
    BigEndianRoundTrip(ToUnsigned(x, n), n);
  }

  lemma IntOnto(s: seq<byte>)
    ensures EncodeInt(DecodeInt(s), |s|) == s
  {
    BigEndianOnto(s);
    assert ToUnsigned(DecodeInt(s), |s|) == FromBigEndian(s);
  }

  /** The bytes are the base-256 digits of the two's complement, most significant first. */
  lemma {:induction false} BigEndianDigits(x: nat, n: nat, i: nat)
    requires x < Pow256(n) && i < n
    ensures BigEndian(x, n)[i] == x / Pow256(n - 1 - i) % 256
  {
    if i < n - 1 {
      BigEndianDigits(x / 256, n - 1, i);
      var p := Pow256(n - 2 - i);
      assert BigEndian(x, n)[i] == BigEndian(x / 256, n - 1)[i];
      DivDiv(x, p);
    } else {
      assert Pow256(0) == 1;
    }
  }

  lemma {:induction false} MulStep(p: nat, a: nat, b: nat)
    ensures a < b ==> p * a + p <= p * b
  {
    if a < b {
      MulStep(p, a, b - 1);
      assert p * b == p * (b - 1) + p;
    }
  }

  lemma QuotientIs(x: nat, p: nat, q: nat)
    requires p >= 1 && p * q <= x < p * q + p
    ensures x / p == q
  {
    MulStep(p, q, x / p);
    MulStep(p, x / p, q);
  }

  lemma DivDiv(x: nat, p: nat)
    requires p >= 1
    ensures x / 256 / p == x / (256 * p)
  {
    var q, r := x / (256 * p), x % (256 * p);
    assert x == 256 * p * q + r;
    var a := r / 256;
    assert x / 256 == p * q + a by {
      assert x == 256 * (p * q + a) + r % 256;
    }
    assert 0 <= a < p;
    QuotientIs(p * q + a, p, q);
  }

  /** Least significant byte first is most significant byte first, read backwards. */
  lemma {:induction false} LittleIsBigReversed(x: nat, n: nat, i: nat)
    requires i < n
    ensures LittleEndian(x, n)[i] == BigEndian(x, n)[n - 1 - i]
  {
    if i > 0 {
      LittleIsBigReversed(x / 256, n - 1, i - 1);
      assert LittleEndian(x, n)[i] == LittleEndian(x / 256, n - 1)[i - 1];
      assert BigEndian(x, n)[n - 1 - i] == BigEndian(x / 256, n - 1)[n - 1 - i];
    }
  }

  /** Negative integers are encoded modulo 256^n. */
  lemma TwosComplement(x: int, n: nat)
    requires FitsSigned(x, n)
    ensures x >= 0 ==> EncodeInt(x, n) == BigEndian(x, n)
    ensures x < 0 ==> x + Pow256(n) >= 0 && EncodeInt(x, n) == BigEndian(x + Pow256(n), n)
  {
  }

  // ---------- Concatenation ----------

  lemma Assoc<T>(a: seq<T>, b: seq<T>, c: seq<T>)
    ensures a + (b + c) == (a + b) + c
  {
  }

  lemma Halves<T>(a: seq<T>, b: seq<T>)
    ensures (a + b)[..|a|] == a && (a + b)[|a|..] == b
  {
  }

  /** A prefix of a concatenation stops in the first part or reaches into the second. */
  lemma PrefixOfConcat<T>(a: seq<T>, b: seq<T>, n: nat)
    requires n <= |a + b|
    ensures n <= |a| ==> (a + b)[..n] == a[..n]
    ensures n >= |a| ==> (a + b)[..n] == a + b[..n - |a|]
  {
  }

  lemma SplitAt<T>(s: seq<T>, n: nat)
    requires n <= |s|
    ensures s[..n] + s[n..] == s
  {
  }

  lemma SliceJoin<T>(s: seq<T>, lo: nat, mid: nat, hi: nat)
    requires lo <= mid <= hi <= |s|
    ensures s[lo..mid] + s[mid..hi] == s[lo..hi]
  {
  }

  lemma Cut<T>(a: seq<T>, b: seq<T>, n: nat)
    requires n <= |a|
    ensures a[n..] + b == (a + b)[n..]
  {
  }
}
