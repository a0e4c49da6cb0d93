// What the string says that CCM authenticates (section 2.2 of RFC 3610): each
// of its fields can be read off, no two messages give the same string, and
// none gives a proper prefix of another's. And how it differs from the blocks
// that are encrypted to mask the data (section 2.3).

module CcmFormat {
  import opened Bytes
  import opened BlockCipher
  import opened Ctr
  import opened Mac
  import opened Ccm

  // -----------------------------------------------------------------------
  // The first block.

  lemma FlagOctet(m: nat, l: nat, len: nat, more: bool)
    requires Allowed(m, l, len)
    ensures var f := (if more then 64 else 0) + 8 * ((m - 2) / 2) + (l - 1);
      f < 128 && (f / 64 == 1 <==> more) && f / 8 % 8 == (m - 2) / 2 && f % 8 == l - 1
  {
    var a, b := (m - 2) / 2, l - 1;
    assert 1 <= a <= 7 && 1 <= b <= 7;
    assert (64 + 8 * a + b) / 8 == 8 + a && (8 * a + b) / 8 == a;
  }

  // Bit 6 of the flags tells of further data, bits 3 to 5 and 0 to 2 give the
  // sizes; the nonce and the length of the message follow.
  lemma FirstBlockSays(m: nat, l: nat, nonce: seq<byte>, t: seq<byte>, a: seq<byte>)
    requires Allowed(m, l, |t|) && |nonce| == 15 - l
    ensures var s := Blocks(m, l, nonce, t, a);
      && |s| >= BLOCK
      && s[0] < 128 && (s[0] / 64 == 1 <==> a != [])
      && (s[0] / 8 % 8) * 2 + 2 == m && s[0] % 8 + 1 == l
      && s[1..16 - l] == nonce && BigEndian(s[16 - l..16]) == |t|
  {
    FlagOctet(m, l, |t|, a != []);
    BigEndianRoundTrip(|t|, l);
    var b := FirstBlock(m, l, nonce, |t|, a != []);
    FirstOfBlocks(m, l, nonce, t, a);
    hide ToBigEndian, BigEndian, Blocks;
    var s := Blocks(m, l, nonce, t, a);
    assert s[0] == s[..BLOCK][0];
    assert s[1..16 - l] == s[..BLOCK][1..16 - l] == nonce;
    assert s[16 - l..16] == s[..BLOCK][16 - l..] == ToBigEndian(|t|, l);
  }

  function Further(a: seq<byte>): (s: seq<byte>)
    ensures |s| % BLOCK == 0
  {
    if a == [] then [] else ZeroPad(LengthOf(|a|) + a)
  }

  lemma FirstOfBlocks(m: nat, l: nat, nonce: seq<byte>, t: seq<byte>, a: seq<byte>)
    requires Allowed(m, l, |t|) && |nonce| == 15 - l
    ensures var s := Blocks(m, l, nonce, t, a);
      && |s| == BLOCK + |Further(a)| + |ZeroPad(t)|
      && s[..BLOCK] == FirstBlock(m, l, nonce, |t|, a != []) && s[BLOCK..] == Further(a) + ZeroPad(t)
  {
    hide ZeroPad, LengthOf;
    var b := FirstBlock(m, l, nonce, |t|, a != []);
    hide FirstBlock;
    assert Blocks(m, l, nonce, t, a) == b + (Further(a) + ZeroPad(t));
  }

  // -----------------------------------------------------------------------
  // The further data.

  // Its length in two octets below 2^16 - 2^8; otherwise behind 0xFFFE, in
  // four.
  lemma LengthSays(n: nat)
    ensures n < 65280 ==> LengthOf(n) == [n / 256, n % 256] && LengthOf(n)[0] < 255
    ensures 65280 <= n < UNSIGNED ==>
      |LengthOf(n)| == 6 && LengthOf(n)[..2] == [255, 254] && BigEndian(LengthOf(n)[2..]) == n
  {
    if n < 65280 {
      assert ToBigEndian(n / 256, 1) == ToBigEndian(n / 256 / 256, 0) + [n / 256 % 256];
    } else if n < UNSIGNED {
      assert Pow256(4) == UNSIGNED by {
        assert Pow256(2) == 0x1_0000;
      }
      BigEndianRoundTrip(n, 4);
      assert LengthOf(n)[2..] == ToBigEndian(n, 4);
    }
  }

  // A length and what follows it are told apart.
  lemma LengthReads(n: nat, n': nat, s: seq<byte>, s': seq<byte>)
    requires n < UNSIGNED && n' < UNSIGNED && LengthOf(n) + s <= LengthOf(n') + s'
    ensures n == n' && s <= s'
  {
    LengthSays(n);
    LengthSays(n');
    var h, h' := LengthOf(n), LengthOf(n');
    hide LengthOf, BigEndian;
    var u, u' := h + s, h' + s';
    assert |h| >= 2 && |h'| >= 2;
    assert u[0] == u'[..|u|][0] == u'[0] && u[1] == u'[..|u|][1] == u'[1];
    assert h[0] == u[0] == u'[0] == h'[0] && h[1] == u[1] == u'[1] == h'[1];
    if n < 65280 {
      assert n' < 65280;
      assert n == 256 * (h[0] as int) + h[1] && n' == 256 * (h'[0] as int) + h'[1];
    } else {
      assert n' >= 65280;
      assert h[2..] == u[2..6] == u'[..|u|][2..6] == u'[2..6] == h'[2..];
    }
    SameLength(h, h', s, s');
  }

  lemma PaddedPrefix(u: seq<byte>, s: seq<byte>)
    ensures ZeroPad(u) + s == u + (Zeros(|ZeroPad(u)| - |u|) + s)
  {
    assert ZeroPad(u) == u + Zeros(|ZeroPad(u)| - |u|);
  }

  lemma FurtherReads(a: seq<byte>, a': seq<byte>, s: seq<byte>, s': seq<byte>)
    requires a != [] && a' != [] && |a| < UNSIGNED && |a'| < UNSIGNED
    requires Further(a) + s <= Further(a') + s'
    ensures a == a' && s <= s'
  {
    hide LengthOf, ZeroPad;
    var u, u' := LengthOf(|a|) + a, LengthOf(|a'|) + a';
    PaddedPrefix(u, s);
    PaddedPrefix(u', s');
    var r, r' := Zeros(|ZeroPad(u)| - |u|) + s, Zeros(|ZeroPad(u')| - |u'|) + s';
    assert u + r == LengthOf(|a|) + (a + r) && u' + r' == LengthOf(|a'|) + (a' + r');
    LengthReads(|a|, |a'|, a + r, a' + r');
    SameLength(a, a', r, r');
    SameLength(Further(a), Further(a'), s, s');
  }

  lemma SameLength(a: seq<byte>, a': seq<byte>, s: seq<byte>, s': seq<byte>)
    requires |a| == |a'| && a + s <= a' + s'
    ensures a == a' && s <= s'
  {
    assert a == (a + s)[..|a|] == (a' + s')[..|a|] == a';
    assert s == (a + s)[|a|..] <= (a' + s')[|a|..] == s';
  }

  // -----------------------------------------------------------------------
  // For equal parameters the string gives back all of nonce, message and
  // further data, even when no more is known than that it starts another one.
  lemma BlocksDistinct(m: nat, l: nat, nonce: seq<byte>, t: seq<byte>, a: seq<byte>,
                       nonce': seq<byte>, t': seq<byte>, a': seq<byte>)
    requires Allowed(m, l, |t|) && Allowed(m, l, |t'|) && |nonce| == |nonce'| == 15 - l
    requires |a| < UNSIGNED && |a'| < UNSIGNED
    ensures Blocks(m, l, nonce, t, a) <= Blocks(m, l, nonce', t', a') <==> nonce == nonce' && t == t' && a == a'
  {
    hide Blocks, FirstBlock, Further, ZeroPad;
    var s, s' := Blocks(m, l, nonce, t, a), Blocks(m, l, nonce', t', a');
    if s <= s' {
      FirstBlockSays(m, l, nonce, t, a);
      FirstBlockSays(m, l, nonce', t', a');
      FirstOfBlocks(m, l, nonce, t, a);
      FirstOfBlocks(m, l, nonce', t', a');
      SameLength(s[..BLOCK], s'[..BLOCK], s[BLOCK..], s'[BLOCK..]) by {
        assert s == s[..BLOCK] + s[BLOCK..] && s' == s'[..BLOCK] + s'[BLOCK..];
      }
      SameFirst(s, s', l);
      if a == [] {
        NoFurther(a);
        NoFurther(a');
        assert [] + ZeroPad(t) == ZeroPad(t) && [] + ZeroPad(t') == ZeroPad(t');
      } else {
        FurtherReads(a, a', ZeroPad(t), ZeroPad(t'));
      }
      PadReads(t, t');
    }
  }

  lemma SameFirst(s: seq<byte>, s': seq<byte>, l: nat)
    requires |s| >= BLOCK && |s'| >= BLOCK && s[..BLOCK] == s'[..BLOCK] && 2 <= l <= 8
    ensures s[0] == s'[0] && s[1..16 - l] == s'[1..16 - l] && s[16 - l..16] == s'[16 - l..16]
  {
    InFront(s, BLOCK, 1, 16 - l);
    InFront(s', BLOCK, 1, 16 - l);
    InFront(s, BLOCK, 16 - l, BLOCK);
    InFront(s', BLOCK, 16 - l, BLOCK);
    assert s[0] == s[..BLOCK][0] && s'[0] == s'[..BLOCK][0];
  }

  lemma InFront(s: seq<byte>, n: nat, i: nat, j: nat)
    requires i <= j <= n <= |s|
    ensures s[..n][i..j] == s[i..j]
  {}

  lemma NoFurther(a: seq<byte>)
    requires a == []
    ensures Further(a) == []
  {}

  lemma PadReads(t: seq<byte>, t': seq<byte>)
    requires |t| == |t'| && ZeroPad(t) <= ZeroPad(t')
    ensures t == t'
  {
    SameLength(t, t', Zeros((BLOCK - |t| % BLOCK) % BLOCK), Zeros((BLOCK - |t| % BLOCK) % BLOCK));
  }

  // -----------------------------------------------------------------------
  // The blocks that mask.

  // Block i: the size of the counter, the nonce and the counter. The flags
  // have nothing else in them, while those of the first authenticated block
  // always do: no block of the stream is one that starts a string.
  lemma CounterBlockSays(l: nat, nonce: seq<byte>, i: nat)
    requires 2 <= l <= 8 && |nonce| == 15 - l && i < Pow256(l)
    ensures var b := CounterBlock(l, nonce, i);
      b[0] == l - 1 && b[1..16 - l] == nonce && BigEndian(b[16 - l..]) == i
    ensures forall m: nat, t: seq<byte>, a: seq<byte> :: Allowed(m, l, |t|) ==>
      CounterBlock(l, nonce, i) != Blocks(m, l, nonce, t, a)[..BLOCK]
  {
    BigEndianRoundTrip(i, l);
    var b := CounterBlock(l, nonce, i);
    assert b[16 - l..] == ToBigEndian(i, l);
    hide ToBigEndian, BigEndian;
    forall m: nat, t: seq<byte>, a: seq<byte> | Allowed(m, l, |t|)
      ensures b != Blocks(m, l, nonce, t, a)[..BLOCK]
    {
      FirstBlockSays(m, l, nonce, t, a);
      assert Blocks(m, l, nonce, t, a)[..BLOCK][0] == Blocks(m, l, nonce, t, a)[0];
    }
  }

  // The first octets of the data are masked with block 1, those of the
  // authentication value with block 0.
  lemma MaskSays(e: Permutation, l: nat, nonce: seq<byte>, n: nat, k: nat)
    requires 2 <= l <= 8 && |nonce| == 15 - l && k < n
    ensures Mask(e, l, nonce, n)[k] == e([l - 1] + nonce + ToBigEndian(1 + k / 16, l))[k % 16]
  {}

  lemma SealedSays(e: Permutation, m: nat, l: nat, nonce: seq<byte>, t: seq<byte>, a: seq<byte>, k: nat)
    requires Allowed(m, l, |t|) && |nonce| == 15 - l && k < m
    ensures Sealed(e, m, l, nonce, t, a)[k]
         == XorByte(e([l - 1] + nonce + ToBigEndian(0, l))[k], Chain(e, Blocks(m, l, nonce, t, a))[k])
  {
    hide XorByte, Blocks, ToBigEndian;
  }

  // The chain, section 2.2: X_1 = E(B_0), X_i+1 = E(X_i xor B_i).
  lemma ChainSays(e: Permutation, s: seq<byte>, b: Block)
    requires |s| % BLOCK == 0
    ensures Chain(e, b) == e(b)
    ensures Chain(e, s + b) == e(XorBlocks(Chain(e, s), b))
  {
    ChainFirst(e, b);
    ChainBlock(e, s, b);
    XorBytesCommutes(b, Chain(e, s));
  }

  // -----------------------------------------------------------------------
  // Where things lie in the string.

  // Tags of 4, 6, ..., 16 octets, and messages whose length fits its field.
  lemma AllowedExactly(m: nat, l: nat, len: nat)
    ensures Allowed(m, l, len) <==>
      m in {4, 6, 8, 10, 12, 14, 16} && l in {2, 3, 4, 5, 6, 7, 8} && BigEndian(ToBigEndian(len, l)) == len
  {
    if len < Pow256(l) {
      BigEndianRoundTrip(len, l);
    }
    BigEndianBound(ToBigEndian(len, l));
    hide BigEndian, ToBigEndian, Pow256;
  }

  function UpTo16(n: nat): nat {
    if n % 16 == 0 then n else n + 16 - n % 16
  }

  // Behind the first block: the length of the further data, in two octets or
  // in six, the data, zeros to the end of the block, and in the same way the
  // message, which has no length in front.
  lemma BlocksSay(m: nat, l: nat, nonce: seq<byte>, t: seq<byte>, a: seq<byte>)
    requires Allowed(m, l, |t|) && |nonce| == 15 - l
    ensures var s := Blocks(m, l, nonce, t, a); var h := if a == [] then 0 else if |a| < 65280 then 2 else 6;
      var at := 16 + UpTo16(h + |a|);
      && |s| == at + UpTo16(|t|)
      && s[16..at] == (if a == [] then [] else LengthOf(|a|)) + a + Zeros(at - 16 - h - |a|)
      && s[at..] == t + Zeros(UpTo16(|t|) - |t|)
  {
    hide Blocks, FirstBlock, ZeroPad, LengthOf, Zeros, Further;
    FirstOfBlocks(m, l, nonce, t, a);
    Regroup(Blocks(m, l, nonce, t, a), Further(a), ZeroPad(t));
    FurtherParts(a);
    PadParts(t);
  }

  lemma PadParts(u: seq<byte>)
    ensures |ZeroPad(u)| == UpTo16(|u|) && ZeroPad(u) == u + Zeros(UpTo16(|u|) - |u|)
  {}

  lemma FurtherParts(a: seq<byte>)
    ensures var h := if a == [] then 0 else if |a| < 65280 then 2 else 6;
      && |Further(a)| == UpTo16(h + |a|)
      && Further(a) == (if a == [] then [] else LengthOf(|a|)) + a + Zeros(UpTo16(h + |a|) - h - |a|)
  {
    if a != [] {
      PadParts(LengthOf(|a|) + a);
    }
  }

  lemma Regroup(s: seq<byte>, u: seq<byte>, v: seq<byte>)
    requires |s| >= 16 && s[16..] == u + v
    ensures s[16..16 + |u|] == u && s[16 + |u|..] == v && |s| == 16 + |u| + |v|
  {
    assert s[16..][..|u|] == u && s[16..][|u|..] == v;
  }
}
