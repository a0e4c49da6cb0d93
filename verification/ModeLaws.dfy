// What the modes of operation compute, on one and on two blocks and octet by
// octet, with the numbers of their standards.

module ModeLaws {
  import opened Bytes
  import opened BlockCipher
  import opened Ctr
  import opened Mac
  import opened Omac
  import opened Xcbc
  import opened Cbc
  import opened Eax
  import OmacField
  import KeyWrap

  // -----------------------------------------------------------------------
  // AES-XCBC-MAC: a whole block is combined with the key derived from twos, a
  // padded one with that from threes, and blocks are chained under the key
  // derived from ones.

  lemma XcbcWhole(aes: Aes, k: Block, b: Block)
    ensures Xcbc.Xcbc(aes, k, b) == aes(aes(k)(Repeat(1)))(XorBlocks(b, aes(k)(Repeat(2))))
  {
    assert b[0..] == b && b[..0] == [];
    OmacField.WithZeros(XorBlocks(b, aes(k)(Repeat(2))));
  }

  lemma XcbcShort(aes: Aes, k: Block, s: seq<byte>)
    requires |s| < 16
    ensures Xcbc.Xcbc(aes, k, s)
         == aes(aes(k)(Repeat(1)))(XorBlocks(s + [128] + Zeros(15 - |s|), aes(k)(Repeat(3))))
  {
    assert s[0..] == s && s[..0] == [];
    OmacField.WithZeros(XorBlocks(Pad(s), aes(k)(Repeat(3))));
  }

  // A longer message: the first block goes into the next.
  lemma XcbcAbsorbs(aes: Aes, k: Block, a: Block, b: Block, r: seq<byte>)
    requires r != []
    ensures Xcbc.Xcbc(aes, k, a + b + r) == Xcbc.Xcbc(aes, k, XorBlocks(b, aes(aes(k)(Repeat(1)))(a)) + r)
  {
    var e := aes(k);
    OmacField.CodeAbsorbs(aes(e(Repeat(1))), e(Repeat(2)), e(Repeat(3)), a, b, r);
  }

  // The last two blocks, the last of which may be short.
  lemma XcbcTwo(aes: Aes, k: Block, a: Block, s: seq<byte>)
    requires 0 < |s| <= 16
    ensures var last := if |s| == 16 then s else s + [128] + Zeros(15 - |s|);
      Xcbc.Xcbc(aes, k, a + s)
        == aes(aes(k)(Repeat(1)))(XorBlocks(XorBlocks(last, aes(k)(Repeat(if |s| == 16 then 2 else 3))),
                                            aes(aes(k)(Repeat(1)))(a)))
  {
    hide Code, XorBytes, Repeat, LastBlock, Zeros;
    var k1, k2, k3 := aes(k)(Repeat(1)), aes(k)(Repeat(2)), aes(k)(Repeat(3));
    CodeTwo(aes(k1), k2, k3, a, s);
    LastOf(s, k2, k3);
  }

  lemma LastOf(s: seq<byte>, k: Block, k': Block)
    requires |s| <= 16
    ensures |s| == 16 ==> LastBlock(s, k, k') == XorBlocks(s, k)
    ensures |s| < 16 ==> LastBlock(s, k, k') == XorBlocks(s + [128] + Zeros(15 - |s|), k')
  {}

  lemma CodeTwo(e: Permutation, k: Block, k': Block, a: Block, s: seq<byte>)
    requires 0 < |s| <= 16
    ensures Code(e, k, k', a + s) == e(XorBlocks(LastBlock(s, k, k'), e(a)))
  {
    hide LastBlock, XorBlocks, Chain;
    OmacField.Behind(a, s, 0, 16);
    OmacField.FirstBlock(e, a);
    assert s[0..] == s && a + s[..0] == a;
  }

  // A key of up to 16 octets may be given with zeros behind it, and one of
  // more than 16 is the same as its own code under the zero key.
  lemma PrfKeys(aes: Aes, key: seq<byte>, m: seq<byte>, n: nat)
    ensures |key| + n <= 16 ==> Prf(aes, key, m) == Prf(aes, key + Zeros(n), m)
    ensures |key| == 16 ==> Prf(aes, key, m) == Xcbc.Xcbc(aes, key, m)
    ensures |key| > 16 ==> Prf(aes, key, m) == Prf(aes, Prf(aes, Zeros(16), key), m)
  {
    hide Xcbc.Xcbc;
    if |key| + n <= 16 {
      assert key + Zeros(16 - |key|) == key + Zeros(n) + Zeros(16 - |key| - n);
      assert key + Zeros(0) == key;
    }
  }

  // -----------------------------------------------------------------------
  // Chaining of packets.

  // Each quarter of the initial block reads as the packet id, so different
  // ids have different ones.
  lemma IvReads(id: nat, i: nat)
    requires id < UNSIGNED && i < 4
    ensures BigEndian(Iv(id)[4 * i..4 * i + 4]) == id
  {
    assert Pow256(4) == UNSIGNED by { assert Pow256(2) == 65536; }
    BigEndianRoundTrip(id, 4);
    assert Iv(id)[4 * i..4 * i + 4] == ToBigEndian(id, 4);
  }

  // Each block is combined with the one encrypted before it.
  lemma {:induction false} CbcBlock(c: Cipher, iv: Block, t: seq<byte>, i: nat)
    requires |t| % 16 == 0 && 16 * i + 16 <= |t|
    ensures var r := CbcEnc(c, iv, t);
      r[16 * i..16 * i + 16]
        == c.enc(XorBlocks(t[16 * i..16 * i + 16], if i == 0 then iv else r[16 * i - 16..16 * i]))
    decreases i
  {
    var b: Block := t[..16];
    var x := c.enc(XorBlocks(b, iv));
    var rest := CbcEnc(c, x, t[16..]);
    var r: seq<byte> := x + rest;
    assert r == CbcEnc(c, iv, t);
    hide CbcEnc, XorBlocks;
    if i == 0 {
      assert r[0..16] == x && t[0..16] == b;
    } else {
      CbcBlock(c, x, t[16..], i - 1);
      Further(x, rest, i);
      Further(b, t[16..], i);
      assert t == b + t[16..];
    }
  }

  lemma Further(x: Block, rest: seq<byte>, i: nat)
    requires 0 < i && 16 * i <= |rest|
    ensures var r: seq<byte> := x + rest;
      && r[16 * i..16 * i + 16] == rest[16 * (i - 1)..16 * (i - 1) + 16]
      && r[16 * i - 16..16 * i] == if i == 1 then x else rest[16 * (i - 1) - 16..16 * (i - 1)]
  {}

  // -----------------------------------------------------------------------
  // EAX.

  // The tag is the exclusive or of three codes, of the nonce, the header and
  // the cipher text behind blocks that read 0, 1 and 2.
  lemma EaxTag(e: Permutation, nonce: seq<byte>, header: seq<byte>, cipher: seq<byte>)
    ensures var z := Zeros(15);
      Tag(e, nonce, header, cipher)
        == XorBytes(XorBytes(Cmac(e, z + [0] + nonce), Cmac(e, z + [1] + header)), Cmac(e, z + [2] + cipher))
  {
    hide XorBytes, Cmac, Zeros;
    var n, h, c := TweakedOmac(e, 0, nonce), TweakedOmac(e, 1, header), TweakedOmac(e, 2, cipher);
    XorRegroup(n, h, c);
  }

  lemma XorRegroup(n: seq<byte>, h: seq<byte>, c: seq<byte>)
    requires |n| == |h| == |c|
    ensures XorBytes(XorBytes(c, n), h) == XorBytes(XorBytes(n, h), c)
  {
    hide XorByte;
    forall i | 0 <= i < |n|
      ensures XorByte(XorByte(c[i], n[i]), h[i]) == XorByte(XorByte(n[i], h[i]), c[i])
    {
      XorRotates(c[i], n[i], h[i]);
    }
  }

  lemma XorRotates(x: byte, y: byte, z: byte)
    ensures XorByte(XorByte(x, y), z) == XorByte(XorByte(y, z), x)
  {
    XorAssociates(y, z, x);
    XorCommutes(x, y);
    XorCommutes(Xor(z, x), y);
    XorAssociates(y, x, z);
    XorCommutes(x, z);
  }

  lemma {:induction false} XorAssociates(x: nat, y: nat, z: nat)
    ensures Xor(Xor(x, y), z) == Xor(x, Xor(y, z))
    decreases x + y + z
  {
    hide Xor;
    if x + y + z > 0 {
      XorAssociates(x / 2, y / 2, z / 2);
      XorStep(x, y);
      XorStep(y, z);
      XorStep(Xor(x, y), z);
      XorStep(x, Xor(y, z));
      Parities(x % 2, y % 2, z % 2);
      SameHalves(Xor(Xor(x, y), z), Xor(x, Xor(y, z)));
    } else {
      XorZero(0);
    }
  }

  lemma Parities(a: nat, b: nat, c: nat)
    requires a < 2 && b < 2 && c < 2
    ensures ((a + b) % 2 % 2 + c) % 2 == (a + (b + c) % 2 % 2) % 2
  {}

  lemma SameHalves(u: nat, v: nat)
    requires u / 2 == v / 2 && u % 2 == v % 2
    ensures u == v
  {}

  lemma XorStep(x: nat, y: nat)
    ensures Xor(x, y) / 2 == Xor(x / 2, y / 2) && Xor(x, y) % 2 == (x % 2 + y % 2) % 2
  {
    OmacField.XorHalves(x, y);
    hide Xor;
    HalfAndParity((x % 2 + y % 2) % 2, Xor(x / 2, y / 2));
  }

  // Bit k of an exclusive or.
  lemma {:induction false} XorBits(x: nat, y: nat, k: nat)
    ensures Xor(x, y) / Pow2(k) % 2 == (x / Pow2(k) + y / Pow2(k)) % 2
  {
    hide Xor, Pow2;
    XorStep(x, y);
    PowStep(k);
    if k > 0 {
      XorBits(x / 2, y / 2, k - 1);
      HalfFirst(x, Pow2(k - 1));
      HalfFirst(y, Pow2(k - 1));
      HalfFirst(Xor(x, y), Pow2(k - 1));
    }
  }

  lemma PowStep(k: nat)
    ensures Pow2(k) == if k == 0 then 1 else 2 * Pow2(k - 1)
  {}

  lemma HalfFirst(x: nat, p: nat)
    requires p > 0
    ensures x / (2 * p) == x / 2 / p
  {
    var q, r := x / 2 / p, x / 2 % p;
    assert x == 2 * p * q + (2 * r + x % 2) by {
      assert x / 2 == p * q + r;
      assert 2 * (p * q) == 2 * p * q;
    }
    DivModUnique(2 * p, x / (2 * p), q, x % (2 * p), 2 * r + x % 2);
  }

  // Octet k of the cipher text is combined with octet k % 16 of the
  // encryption of the code of the nonce, counted up k / 16 times as a number
  // of 128 bits.
  lemma EaxOctet(e: Permutation, nonce: seq<byte>, plain: seq<byte>, k: nat)
    requires k < |plain|
    ensures var n := Cmac(e, Zeros(15) + [0] + nonce);
      Encrypted(e, nonce, plain)[k] == XorByte(plain[k], e(CounterAt(n, 16, k / 16))[k % 16])
  {
    KeystreamAt(e, 16, Start(e, nonce), |plain|, k);
  }

  // -----------------------------------------------------------------------
  // Key wrap: turn i of pass j, in the terms of RFC 3394.

  // The register is half of what was encrypted with half block i behind it,
  // with the number of the turn in it; the other half goes back into place i,
  // and the other places stay.
  lemma WrapTurn(c: Cipher, n: nat, i: nat, j: nat, s: KeyWrap.State, full: bool)
    requires 1 <= i <= n && KeyWrap.Fits(s, n)
    ensures n * j + i > 0
    ensures var s0, s1 := KeyWrap.Rounds(c, n, n * j + i - 1, s, full), KeyWrap.Rounds(c, n, n * j + i, s, full);
      var b := c.enc(s0.a + s0.r[8 * i - 8..8 * i]);
      && (full ==> s1.a == XorBytes(b[..8], ToBigEndian(n * j + i, 8)))
      && (!full ==> s1.a == b[..7] + [XorByte(b[7], (n * j + i) % 256)])
      && s1.r[8 * i - 8..8 * i] == b[8..]
      && s1.r[..8 * i - 8] == s0.r[..8 * i - 8] && s1.r[8 * i..] == s0.r[8 * i..]
  {
    hide KeyWrap.WithHalf, KeyWrap.HalfAt, KeyWrap.Rounds, XorBytes, ToBigEndian;
    var t := n * j + i;
    TurnIs(n, i, j);
    RoundsStep(c, n, t, s, full);
    var s0 := KeyWrap.Rounds(c, n, t - 1, s, full);
    HalfIs(s0.r, i);
    var b := c.enc(s0.a + KeyWrap.HalfAt(s0.r, i - 1));
    Placed(s0.r, i, b[8..]);
    assert b[..8][..7] == b[..7];
  }

  lemma TurnIs(n: nat, i: nat, j: nat)
    requires 1 <= i <= n
    ensures n * j + i > 0 && KeyWrap.Turn(n, n * j + i) == i - 1
  {
    var t := n * j + i;
    assert t > 0;
    DivModUnique(n, (t - 1) / n, j, (t - 1) % n, i - 1);
  }

  lemma RoundsStep(c: Cipher, n: nat, t: nat, s: KeyWrap.State, full: bool)
    requires n > 0 && t > 0 && KeyWrap.Fits(s, n)
    ensures KeyWrap.Rounds(c, n, t, s, full) == KeyWrap.Round(c, n, t, KeyWrap.Rounds(c, n, t - 1, s, full), full)
  {}

  lemma HalfIs(r: seq<byte>, i: nat)
    requires 0 < i && 8 * i <= |r|
    ensures KeyWrap.HalfAt(r, i - 1) == r[8 * i - 8..8 * i]
  {}

  lemma Placed(r: seq<byte>, i: nat, x: KeyWrap.Half)
    requires 0 < i && 8 * i <= |r|
    ensures var s := KeyWrap.WithHalf(r, i - 1, x);
      s[8 * i - 8..8 * i] == x && s[..8 * i - 8] == r[..8 * i - 8] && s[8 * i..] == r[8 * i..]
  {}

  // Wrapping starts from eight octets of 0xa6 and takes six passes.
  lemma WrapSpan(c: Cipher, data: seq<byte>, full: bool)
    requires |data| % 8 == 0
    ensures var n := |data| / 8; var a: KeyWrap.Half := [0xa6, 0xa6, 0xa6, 0xa6, 0xa6, 0xa6, 0xa6, 0xa6];
      KeyWrap.Wrapped(c, data, full) == KeyWrap.Rounds(c, n, 6 * n, KeyWrap.State(a, data), full)
    ensures KeyWrap.Rounds(c, |data| / 8, 0, KeyWrap.State(KeyWrap.INITIAL, data), full).r == data
  {}
}
