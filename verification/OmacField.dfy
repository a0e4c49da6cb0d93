// The subkeys of CMAC as numbers: doubling is multiplication by x in the field
// of 2^128 elements (section 2.3 of RFC 4493). And what follows for the code:
// when a short message shares its code with the message padded out.

module OmacField {
  import opened Bytes
  import opened BlockCipher
  import opened Ctr
  import opened Mac
  import opened Omac

  // x^128 + x^7 + x^2 + x + 1.
  function Poly(): nat {
    Pow256(16) + 135
  }

  // Half of 2^128: from here on the top bit is set.
  function Half(): (h: nat)
    ensures Pow256(16) == 2 * h && h > 0
  {
    EvenPower(16);
    Pow256(16) / 2
  }

  // -----------------------------------------------------------------------
  // Exclusive or of numbers.

  lemma XorBit(x: nat, y: nat, b: nat, c: nat)
    requires b < 2 && c < 2
    ensures Xor(2 * x + b, 2 * y + c) == (b + c) % 2 + 2 * Xor(x, y)
  {
    assert (2 * x + b) / 2 == x && (2 * y + c) / 2 == y;
    assert (2 * x + b + (2 * y + c)) % 2 == (b + c) % 2;
    if 2 * x + b == 0 && 2 * y + c == 0 {
      assert Xor(x, y) == 0;
    }
  }

  lemma PowerStep(k: nat)
    requires k > 0
    ensures Pow2(k) == 2 * Pow2(k - 1)
  {}

  lemma TwiceTimes(q: nat, p: nat, x: nat, u: nat)
    requires q == 2 * p
    ensures q * x + u == 2 * (p * x + u / 2) + u % 2
  {
    assert 2 * p * x == 2 * (p * x);
  }

  lemma XorHalves(u: nat, v: nat)
    ensures Xor(u, v) == (u % 2 + v % 2) % 2 + 2 * Xor(u / 2, v / 2)
  {
    hide Xor;
    XorBit(u / 2, v / 2, u % 2, v % 2);
  }

  // Of numbers put together from high and low parts, part by part.
  lemma {:induction false} XorParts(x: nat, y: nat, u: nat, v: nat, k: nat)
    requires u < Pow2(k) && v < Pow2(k)
    ensures Xor(Pow2(k) * x + u, Pow2(k) * y + v) == Pow2(k) * Xor(x, y) + Xor(u, v)
    decreases k
  {
    hide Xor;
    if k == 0 {
      XorZero(0);
    } else {
      PowerStep(k);
      hide Pow2;
      XorParts(x, y, u / 2, v / 2, k - 1);
      XorPartsStep(x, y, u, v, Pow2(k), Pow2(k - 1));
    }
  }

  lemma XorPartsStep(x: nat, y: nat, u: nat, v: nat, q: nat, p: nat)
    requires q == 2 * p && Xor(p * x + u / 2, p * y + v / 2) == p * Xor(x, y) + Xor(u / 2, v / 2)
    ensures Xor(q * x + u, q * y + v) == q * Xor(x, y) + Xor(u, v)
  {
    hide Xor;
    TwiceTimes(q, p, x, u);
    TwiceTimes(q, p, y, v);
    TwiceTimes(q, p, Xor(x, y), 0);
    var i, j := p * x + u / 2, p * y + v / 2;
    assert q * x + u == 2 * i + u % 2 && q * y + v == 2 * j + v % 2;
    XorBit(i, j, u % 2, v % 2);
    XorHalves(u, v);
  }

  lemma {:induction false} PowerOf2(k: nat)
    ensures Pow256(k) == Pow2(8 * k)
  {
    if k > 0 {
      PowerOf2(k - 1);
      EightSteps(8 * k);
    }
  }

  lemma EightSteps(k: nat)
    requires k >= 8
    ensures Pow2(k) == 256 * Pow2(k - 8)
  {
    PowerStep(k);
    PowerStep(k - 1);
    PowerStep(k - 2);
    PowerStep(k - 3);
    PowerStep(k - 4);
    PowerStep(k - 5);
    PowerStep(k - 6);
    PowerStep(k - 7);
    hide Pow2;
  }

  lemma Octet()
    ensures Pow2(8) == 256 && Pow2(7) == 128
  {
    EightSteps(8);
    PowerStep(8);
  }

  lemma LastOctet(s: seq<byte>)
    requires s != []
    ensures BigEndian(s) == 256 * BigEndian(s[..|s| - 1]) + s[|s| - 1]
  {}

  lemma XorFront(a: seq<byte>, b: seq<byte>, n: nat)
    requires n < |a| == |b|
    ensures XorBytes(a, b)[..n] == XorBytes(a[..n], b[..n]) && XorBytes(a, b)[n] == Xor(a[n], b[n])
  {
    hide Xor;
  }

  lemma {:induction false} XorNumbers(a: seq<byte>, b: seq<byte>)
    requires |a| == |b|
    ensures BigEndian(XorBytes(a, b)) == Xor(BigEndian(a), BigEndian(b))
  {
    if a == [] {
      assert Xor(0, 0) == 0;
    } else {
      hide BigEndian, Xor, XorBytes, Pow2;
      var n := |a| - 1;
      XorNumbers(a[..n], b[..n]);
      XorFront(a, b, n);
      LastOctet(a);
      LastOctet(b);
      LastOctet(XorBytes(a, b));
      Octet();
      XorParts(BigEndian(a[..n]), BigEndian(b[..n]), a[n], b[n], 8);
    }
  }

  lemma HalfIsPower()
    ensures Half() == Pow2(127) && Pow256(16) == Pow2(128) == 2 * Half() && Half() >= 256
  {
    PowerOf2(16);
    PowerStep(128);
    SmallPower(127);
    hide Pow2, Pow256;
  }

  lemma {:induction false} SmallPower(k: nat)
    requires k >= 8
    ensures Pow2(k) >= 256
  {
    if k == 8 {
      Octet();
    } else {
      SmallPower(k - 1);
    }
  }

  lemma OnlyLow(x: nat, c: nat, k: nat)
    requires x < Pow2(k) && c < Pow2(k)
    ensures Xor(Pow2(k) + x, c) == Pow2(k) + Xor(x, c)
    ensures Xor(Pow2(k) + x, Pow2(k) + c) == Xor(x, c)
  {
    hide Xor, Pow2;
    Ones();
    var q := Pow2(k);
    XorParts(1, 0, x, c, k);
    XorParts(1, 1, x, c, k);
    OnceAndNever(q, x);
    OnceAndNever(q, c);
    OnceAndNever(q, Xor(x, c));
  }

  lemma OnceAndNever(q: nat, u: nat)
    ensures q * 1 + u == q + u && q * 0 + u == u
  {}

  lemma Ones()
    ensures Xor(1, 1) == 0 && Xor(1, 0) == 1 && Xor(0, 1) == 1 && Xor(0, 0) == 0
  {}

  // A small number does not change the top bit.
  lemma TopStays(w: nat, c: nat)
    requires w < Pow256(16) && c < 256
    ensures Xor(w, c) >= Half() <==> w >= Half()
  {
    hide Xor, Pow2, Pow256, Half;
    HalfIsPower();
    if w >= Half() {
      OnlyLow(w - Half(), c, 127);
    } else {
      XorBounded(w, c, 127);
    }
  }

  // -----------------------------------------------------------------------
  // Doubling.

  lemma {:induction false} ZerosNumber(k: nat)
    ensures BigEndian(Zeros(k)) == 0
  {
    if k > 0 {
      ZerosNumber(k - 1);
      assert Zeros(k)[..k - 1] == Zeros(k - 1);
    }
  }

  lemma RbNumber()
    ensures BigEndian(RB) == 135
  {
    ZerosNumber(15);
    assert RB[..15] == Zeros(15);
  }

  lemma OneTop(v: nat, p: nat)
    requires p <= 2 * v < 2 * p
    ensures 2 * v % p == 2 * v - p
  {
    assert p * 1 + (2 * v - p) == p * (2 * v / p) + 2 * v % p;
    DivModUnique(p, 1, 2 * v / p, 2 * v - p, 2 * v % p);
  }

  // Taking the polynomial off a number of 129 bits.
  lemma Reduced(v: nat)
    requires Half() <= v < Pow256(16)
    ensures Xor(2 * v, Poly()) == Xor(2 * v - Pow256(16), 135)
    ensures 2 * v % Pow256(16) == 2 * v - Pow256(16)
  {
    hide Xor, Pow2, Pow256, Half;
    HalfIsPower();
    OneTop(v, Pow256(16));
    OnlyLow(2 * v - Pow256(16), 135, 128);
  }

  // The number is doubled, and reduced by the polynomial if it then has 129
  // bits.
  lemma DoubleNumber(b: Block)
    ensures var v := BigEndian(b);
      BigEndian(Double(b)) == Xor(2 * v, if v >= Half() then Poly() else 0)
  {
    hide BigEndian, ToBigEndian, Pow256, Pow2, Xor, XorBytes, Half, Poly;
    var v, p := BigEndian(b), Pow256(16);
    BigEndianBound(b);
    HalfIsPower();
    var twice := ToBigEndian(2 * v % p, BLOCK);
    BigEndianRoundTrip(2 * v % p, BLOCK);
    assert p / 2 == Half();
    if v >= Half() {
      Reduced(v);
      XorNumbers(twice, RB);
      RbNumber();
    } else {
      SmallMod(2 * v, p);
      XorZero(2 * v);
    }
  }

  lemma {:induction false} ZeroNumber(s: seq<byte>)
    ensures BigEndian(s) == 0 <==> s == Zeros(|s|)
  {
    if s != [] {
      var front := s[..|s| - 1];
      ZeroNumber(front);
      assert s == front + [s[|s| - 1]];
      assert Zeros(|s|) == Zeros(|front|) + [0];
    }
  }

  // No number is its own double combined with 7.
  lemma NoFixedLow(l: nat)
    ensures l != Xor(2 * l, 7)
  {
    if l == Xor(2 * l, 7) {
      hide Xor;
      XorBit(l, 3, 0, 1);
      var m := Xor(l, 3);
      assert l == 2 * m + 1;
      XorBit(m, 1, 1, 1);
      var p := Xor(m, 1);
      assert m == 2 * p;
      XorBit(p, 0, 0, 1);
      XorZero(p);
    }
  }

  lemma FixedLow(low: nat)
    requires 128 <= low < 256
    ensures low != Xor(2 * low - 256, 135)
  {
    hide Xor, Pow2;
    Octet();
    var l := low - 128;
    if 2 * l < 128 {
      XorParts(0, 1, 2 * l, 7, 7);
      Ones();
      NoFixedLow(l);
    } else {
      OnlyLow(2 * l - 128, 7, 7);
      XorBounded(2 * l - 128, 7, 7);
    }
  }

  lemma SameNumber(a: Block, b: Block)
    ensures BigEndian(a) == BigEndian(b) <==> a == b
  {
    ToBigEndianRoundTrip(a);
    ToBigEndianRoundTrip(b);
  }

  // Doubling moves every block but zero.
  lemma DoubleMoves(b: Block)
    ensures Double(b) == b <==> b == Zeros(BLOCK)
    ensures Double(b) == Zeros(BLOCK) <==> b == Zeros(BLOCK)
  {
    hide BigEndian, ToBigEndian, Double, Xor, Pow256, Half, Poly;
    var v := BigEndian(b);
    DoubleNumber(b);
    ZeroNumber(b);
    ZeroNumber(Double(b));
    SameNumber(b, Double(b));
    BigEndianBound(b);
    if v >= Half() {
      TopMoves(v);
    } else {
      XorZero(2 * v);
    }
  }

  lemma TopMoves(v: nat)
    requires Half() <= v < Pow256(16)
    ensures Xor(2 * v, Poly()) != v && Xor(2 * v, Poly()) != 0
  {
    hide Xor, Pow256, Half, Poly;
    HalfIsPower();
    Reduced(v);
    Sixteen();
    OddNumber(2 * v - Pow256(16));
    FixedNumber(v, Pow256(15));
  }

  lemma Sixteen()
    ensures Pow256(16) == 256 * Pow256(15)
  {}

  lemma OddNumber(w: nat)
    requires w % 2 == 0
    ensures Xor(w, 135) != 0
  {
    hide Xor;
    XorBit(w / 2, 67, 0, 1);
  }

  lemma FixedNumber(v: nat, m: nat)
    requires 256 * m <= 2 * v < 512 * m
    ensures Xor(2 * v - 256 * m, 135) != v
  {
    hide Xor, Pow2;
    var w := 2 * v - 256 * m;
    Octet();
    XorParts(w / 256, 0, w % 256, 135, 8);
    XorZero(w / 256);
    XorBounded(w % 256, 135, 8);
    var n, low := v / 256, v % 256;
    if Xor(w, 135) == v {
      assert n == w / 256 && low == Xor(w % 256, 135);
      assert w == 256 * (2 * n - m) + 2 * low;
      Doubled(n, low, m);
      FixedLow(low);
    }
  }

  // If the high part is not to change the low one must carry.
  lemma Doubled(n: nat, low: nat, m: nat)
    requires low < 256 && 256 * (2 * n - m) + 2 * low >= 0 && n < m
    requires n == (256 * (2 * n - m) + 2 * low) / 256
    ensures low >= 128 && (256 * (2 * n - m) + 2 * low) % 256 == 2 * low - 256
  {}

  // -----------------------------------------------------------------------
  // The subkeys are x and x^2 times the code of the zero block: as numbers
  // twice and four times that, with the multiples of the polynomial that the
  // two top bits ask for taken off.
  lemma SubKeyNumbers(e: Permutation)
    ensures var v := BigEndian(e(Zeros(BLOCK)));
      && BigEndian(SubKey1(e)) == Xor(2 * v, if v >= Half() then Poly() else 0)
      && BigEndian(SubKey2(e)) == Xor(Xor(4 * v, if v >= Half() then 2 * Poly() else 0),
                                      if 2 * v % Pow256(16) >= Half() then Poly() else 0)
  {
    hide BigEndian, Double, Xor, Pow256, Half, Poly;
    var z := e(Zeros(BLOCK));
    DoubleNumber(z);
    DoubleNumber(Double(z));
    BigEndianBound(z);
    TwiceReduced(BigEndian(z));
    SecondBit(BigEndian(z));
  }

  lemma TwiceReduced(v: nat)
    ensures 2 * Xor(2 * v, if v >= Half() then Poly() else 0) == Xor(4 * v, if v >= Half() then 2 * Poly() else 0)
  {
    hide Xor, Half, Poly;
    var c := if v >= Half() then Poly() else 0;
    XorBit(2 * v, c, 0, 0);
  }

  lemma SecondBit(v: nat)
    requires v < Pow256(16)
    ensures Xor(2 * v, if v >= Half() then Poly() else 0) >= Half() <==> 2 * v % Pow256(16) >= Half()
  {
    hide Xor, Pow256, Half, Poly, Pow2;
    HalfIsPower();
    if v >= Half() {
      Reduced(v);
      TopStays(2 * v - Pow256(16), 135);
    } else {
      SmallMod(2 * v, Pow256(16));
      XorZero(2 * v);
    }
  }

  // -----------------------------------------------------------------------
  // Messages of one block, and of less: the first subkey is for whole blocks,
  // the second for padded ones.
  lemma OneBlock(e: Permutation, b: Block)
    ensures Cmac(e, b) == e(XorBlocks(b, SubKey1(e)))
  {
    assert b[0..] == b && b[..0] == [];
    WithZeros(XorBlocks(b, SubKey1(e)));
  }

  lemma ShortBlock(e: Permutation, s: seq<byte>)
    requires |s| < BLOCK
    ensures Cmac(e, s) == e(XorBlocks(s + [128] + Zeros(15 - |s|), SubKey2(e)))
  {
    assert s[0..] == s && s[..0] == [];
    WithZeros(XorBlocks(Pad(s), SubKey2(e)));
  }

  lemma WithZeros(b: Block)
    ensures XorBlocks(b, Zeros(BLOCK)) == b
  {
    XorSame(b, Zeros(BLOCK));
  }

  // Longer ones: the first block is encrypted and combined with the next.
  lemma {:induction false} ChainAbsorbs(e: Permutation, a: Block, b: Block, r: seq<byte>)
    requires |r| % BLOCK == 0
    ensures Chain(e, a + b + r) == Chain(e, XorBlocks(b, e(a)) + r)
    decreases |r|
  {
    var x := XorBlocks(b, e(a));
    if r == [] {
      assert a + b + [] == a + b && x + [] == x;
      ChainEnd(e, a, b);
      ChainEnd(e, [], a);
      ChainEnd(e, [], x);
      assert [] + a == a && [] + x == x;
      WithZeros(a);
      WithZeros(x);
      XorBytesCommutes(b, e(a));
      XorBytesCommutes(a, Zeros(BLOCK));
      XorBytesCommutes(x, Zeros(BLOCK));
    } else {
      var front, last := r[..|r| - BLOCK], r[|r| - BLOCK..];
      ChainAbsorbs(e, a, b, front);
      assert a + b + r == (a + b + front) + last && x + r == (x + front) + last;
      ChainEnd(e, a + b + front, last);
      ChainEnd(e, x + front, last);
    }
  }

  lemma ChainEnd(e: Permutation, s: seq<byte>, b: Block)
    requires |s| % BLOCK == 0
    ensures Chain(e, s + b) == e(XorBlocks(Chain(e, s), b))
  {
    var r := s + b;
    assert r[..|r| - BLOCK] == s && r[|r| - BLOCK..] == b;
  }

  lemma CodeAbsorbs(e: Permutation, k: Block, k': Block, a: Block, b: Block, r: seq<byte>)
    requires r != []
    ensures Code(e, k, k', a + b + r) == Code(e, k, k', XorBlocks(b, e(a)) + r)
  {
    hide Chain, XorBlocks, LastBlock;
    var x := XorBlocks(b, e(a));
    var t := Taken(|r|);
    Behind(a + b, r, t, 32);
    Behind(x, r, t, 16);
    ChainAbsorbs(e, a, b, r[..t]);
  }

  lemma Behind(s: seq<byte>, r: seq<byte>, t: nat, n: nat)
    requires |s| == n && n % 16 == 0 && r != [] && t == Taken(|r|)
    ensures Taken(|s + r|) == n + t && (s + r)[n + t..] == r[t..] && (s + r)[..n + t] == s + r[..t]
  {}

  // The last two blocks, the last of which may be short.
  lemma LastTwo(e: Permutation, a: Block, s: seq<byte>)
    requires 0 < |s| <= BLOCK
    ensures Cmac(e, a + s) ==
      e(XorBlocks(XorBlocks(if |s| == BLOCK then s else s + [128] + Zeros(15 - |s|),
                            if |s| == BLOCK then SubKey1(e) else SubKey2(e)), e(a)))
  {
    hide XorBytes, SubKey1, SubKey2, Chain;
    assert (a + s)[16..] == s && (a + s)[..16] == a;
    FirstBlock(e, a);
  }

  lemma FirstBlock(e: Permutation, a: Block)
    ensures Chain(e, a) == e(a)
  {
    ChainEnd(e, [], a);
    assert [] + a == a;
    WithZeros(a);
    XorBytesCommutes(a, Zeros(BLOCK));
  }

  // -----------------------------------------------------------------------
  // The two subkeys keep a short message apart from the same message padded
  // out, unless the zero block is its own code.

  ghost predicate Injective(e: Permutation) {
    forall a: Block, b: Block :: e(a) == e(b) ==> a == b
  }

  function PaddedOut(m: seq<byte>): seq<byte> {
    m + [128] + Zeros(15 - |m| % 16)
  }

  lemma PaddedApart(e: Permutation, m: seq<byte>)
    requires Injective(e) && (m == [] || |m| % 16 != 0)
    ensures Cmac(e, m) == Cmac(e, PaddedOut(m)) <==> e(Zeros(BLOCK)) == Zeros(BLOCK)
  {
    hide Double, Chain, SubKey1, SubKey2, XorBlocks;
    var t := Taken(|m|);
    SubKeysSame(e);
    PaddedParts(m);
    SameLast(e, Pad(m[t..]), SubKey2(e), SubKey1(e), Chain(e, m[..t]));
  }

  lemma PaddedParts(m: seq<byte>)
    requires m == [] || |m| % 16 != 0
    ensures var t, u := Taken(|m|), PaddedOut(m);
      |m| - t < 16 && |u| == t + 16 && Taken(|u|) == t && u[t..] == Pad(m[t..]) && u[..t] == m[..t]
  {}

  lemma SubKeysSame(e: Permutation)
    ensures SubKey2(e) == SubKey1(e) <==> e(Zeros(BLOCK)) == Zeros(BLOCK)
  {
    DoubleMoves(SubKey1(e));
    DoubleMoves(e(Zeros(BLOCK)));
    hide Double;
  }

  lemma SameLast(e: Permutation, b: Block, k: Block, k': Block, x: Block)
    requires Injective(e)
    ensures e(XorBlocks(XorBlocks(b, k), x)) == e(XorBlocks(XorBlocks(b, k'), x)) <==> k == k'
  {
    SameUnder(XorBlocks(b, k), XorBlocks(b, k'), x);
    XorBytesCommutes(b, k);
    XorBytesCommutes(b, k');
    SameUnder(k, k', b);
    hide XorBytes;
  }

  lemma SameUnder(a: Block, b: Block, x: Block)
    ensures XorBlocks(a, x) == XorBlocks(b, x) <==> a == b
  {
    XorBlocksInvolutive(a, x);
    XorBlocksInvolutive(b, x);
  }
}
