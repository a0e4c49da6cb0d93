// Octets, big-endian integers, exclusive or, and the C library's memcpy.

module Bytes {

  type byte = x: int | 0 <= x < 256

  datatype Option<+T> = None | Some(value: T)

  // ---------------------------------------------------------------------
  // Exclusive or, bit by bit from the least significant end.

  function Xor(x: nat, y: nat): nat {
    if x == 0 && y == 0 then 0 else (x + y) % 2 + 2 * Xor(x / 2, y / 2)
  }

  lemma {:induction false} XorInvolutive(x: nat, y: nat)
    ensures Xor(Xor(x, y), y) == x
    decreases x + y
  {
    if x != 0 || y != 0 {
      var b, r := (x + y) % 2, Xor(x / 2, y / 2);
      XorInvolutive(x / 2, y / 2);
      HalfAndParity(b, r);
      ParityCancels(x, y, r);
      calc {
        Xor(Xor(x, y), y);
        Xor(b + 2 * r, y);
        (b + 2 * r + y) % 2 + 2 * Xor(r, y / 2);
        x % 2 + 2 * (x / 2);
        x;
      }
    }
  }

  lemma HalfAndParity(b: nat, r: nat)
    requires b < 2
    ensures (b + 2 * r) / 2 == r
  {}

  lemma ParityCancels(x: nat, y: nat, r: nat)
    ensures ((x + y) % 2 + 2 * r + y) % 2 == x % 2
  {
    assert (x + y) % 2 + 2 * r + y == x + 2 * (y + r - (x + y) / 2);
  }

  lemma {:induction false} XorCommutes(x: nat, y: nat)
    ensures Xor(x, y) == Xor(y, x)
    decreases x + y
  {
    if x != 0 || y != 0 {
      XorCommutes(x / 2, y / 2);
    }
  }

  lemma {:induction false} XorZero(x: nat)
    ensures Xor(x, 0) == x
  {
    if x != 0 {
      XorZero(x / 2);
    }
  }

  lemma {:induction false} XorBounded(x: nat, y: nat, m: nat)
    requires x < Pow2(m) && y < Pow2(m)
    ensures Xor(x, y) < Pow2(m)
    decreases m
  {
    if m > 0 && (x != 0 || y != 0) {
      XorBounded(x / 2, y / 2, m - 1);
    }
  }

  function Pow2(n: nat): (r: nat)
    ensures r > 0
  {
    if n == 0 then 1 else 2 * Pow2(n - 1)
  }

  function XorByte(x: byte, y: byte): byte {
    assert Pow2(8) == 256 by { assert Pow2(4) == 16; }
    XorBounded(x, y, 8);
    Xor(x, y)
  }

  // Octet-wise exclusive or of two strings of the same length.
  function XorBytes(a: seq<byte>, b: seq<byte>): (r: seq<byte>)
    requires |a| == |b|
    ensures |r| == |a|
  {
    seq(|a|, i requires 0 <= i < |a| => XorByte(a[i], b[i]))
  }

  lemma XorBytesInvolutive(a: seq<byte>, b: seq<byte>)
    requires |a| == |b|
    ensures XorBytes(XorBytes(a, b), b) == a
  {
    forall i | 0 <= i < |a|
      ensures XorBytes(XorBytes(a, b), b)[i] == a[i]
    {
      XorInvolutive(a[i], b[i]);
    }
  }

  lemma XorBytesCommutes(a: seq<byte>, b: seq<byte>)
    requires |a| == |b|
    ensures XorBytes(a, b) == XorBytes(b, a)
  {
    forall i | 0 <= i < |a|
      ensures XorBytes(a, b)[i] == XorBytes(b, a)[i]
    {
      XorCommutes(a[i], b[i]);
    }
  }

  lemma XorConcat(a: seq<byte>, b: seq<byte>, c: seq<byte>, d: seq<byte>)
    requires |a| == |c| && |b| == |d|
    ensures XorBytes(a + b, c + d) == XorBytes(a, c) + XorBytes(b, d)
  {
    hide XorByte;
  }

  lemma XorZeroOnly(a: byte, b: byte)
    ensures XorByte(a, b) == a <==> b == 0
  {
    XorZero(a);
    XorCommutes(a, b);
    XorInvolutive(b, a);
    XorCommutes(0, a);
    XorInvolutive(0, a);
  }

  lemma XorPrefix(a: seq<byte>, b: seq<byte>, n: nat)
    requires n <= |a| == |b|
    ensures XorBytes(a[..n], b[..n]) == XorBytes(a, b)[..n]
  {
    hide XorByte;
  }

  // ---------------------------------------------------------------------
  // Division.

  lemma Scale(p: nat, k: int)
    requires p > 0
    ensures k >= 1 ==> p * k >= p
    ensures k <= -1 ==> p * k <= -(p as int)
  {}

  lemma DivModUnique(p: nat, a: int, b: int, r: nat, s: nat)
    requires r < p && s < p && p * a + r == p * b + s
    ensures a == b && r == s
  {
    assert p * (a - b) == s as int - r;
    Scale(p, a - b);
  }

  lemma ModSucc(x: nat, p: nat)
    requires p > 0
    ensures (x + 1) % p == if x % p + 1 == p then 0 else x % p + 1
  {
    var q, r := x / p, x % p;
    var q', r' := (x + 1) / p, (x + 1) % p;
    assert x == p * q + r && x + 1 == p * q' + r';
    if r + 1 == p {
      assert p * (q + 1) == p * q + p;
      DivModUnique(p, q', q + 1, r', 0);
    } else {
      DivModUnique(p, q', q, r', r + 1);
    }
  }

  // ---------------------------------------------------------------------
  // Big-endian integers.

  function BigEndian(s: seq<byte>): nat {
    if s == [] then 0 else BigEndian(s[..|s| - 1]) * 256 + s[|s| - 1]
  }

  function ToBigEndian(n: nat, k: nat): (s: seq<byte>)
    ensures |s| == k
  {
    if k == 0 then [] else ToBigEndian(n / 256, k - 1) + [n % 256]
  }

  function Pow256(k: nat): (r: nat)
    ensures r > 0
  {
    if k == 0 then 1 else 256 * Pow256(k - 1)
  }

  lemma {:induction false} BigEndianRoundTrip(n: nat, k: nat)
    requires n < Pow256(k)
    ensures BigEndian(ToBigEndian(n, k)) == n
  {
    if k > 0 {
      var s := ToBigEndian(n, k);
      BigEndianRoundTrip(n / 256, k - 1);
      assert s[..k - 1] == ToBigEndian(n / 256, k - 1);
    }
  }

  lemma {:induction false} BigEndianBound(s: seq<byte>)
    ensures BigEndian(s) < Pow256(|s|)
  {
    if s != [] {
      BigEndianBound(s[..|s| - 1]);
    }
  }

  lemma {:induction false} ToBigEndianRoundTrip(s: seq<byte>)
    ensures ToBigEndian(BigEndian(s), |s|) == s
  {
    if s != [] {
      ToBigEndianRoundTrip(s[..|s| - 1]);
      assert BigEndian(s) / 256 == BigEndian(s[..|s| - 1]);
    }
  }

  // A two-octet big-endian field.
  function U16(hi: byte, lo: byte): (n: nat)
    ensures n < 0x1_0000
  {
    (hi as int) * 256 + lo
  }

  const UNSIGNED := 0x1_0000_0000

  // Subtraction of 32-bit numbers in unsigned arithmetic.
  function Minus(a: nat, b: nat): nat {
    if a >= b then a - b else (a as int - b) % UNSIGNED
  }

  const SIGN := 0x8000_0000

  // What an unsigned 32-bit number is taken for where a signed one is asked for.
  function Signed(n: nat): int
    requires n < UNSIGNED
  {
    if n < SIGN then n else n - UNSIGNED
  }

  // A length counted down to 0; a negative one is no octets.
  function Count(n: int): nat {
    if n < 0 then 0 else n
  }

  // The least multiple of 16 at or above n: (n + 0xf) & ~0xf.
  function RoundUp16(n: nat): (r: nat)
    ensures r % 16 == 0 && n <= r < n + 16
  {
    (n + 15) / 16 * 16
  }

  // ---------------------------------------------------------------------

  method MemCpy(dst: array<byte>, di: nat, src: array<byte>, si: nat, n: nat)
    requires dst != src
    requires di + n <= dst.Length && si + n <= src.Length
    modifies dst
    ensures dst[..di + n] == old(dst[..di]) + src[si..si + n]
    ensures dst[di + n..] == old(dst[di + n..])
  {
    forall k | 0 <= k < n {
      dst[di + k] := src[si + k];
    }
  }
}
