// CCM (RFC 3610): a message encrypted in counter mode and authenticated,
// together with further data, by a CBC-MAC.

module Ccm {
  import opened Bytes
  import opened BlockCipher
  import opened Ctr
  import opened Mac

  // -----------------------------------------------------------------------
  // Parameters.

  // The tag takes m octets, the length field l.
  predicate Allowed(m: nat, l: nat, len: nat) {
    m % 2 == 0 && 4 <= m <= 16 && 2 <= l <= 8 && len < Pow256(l)
  }

  // A subtraction in the source's signed arithmetic, cut to an octet.
  function EncodedM(m: byte): byte {
    if m < 2 then 255 else (m - 2) / 2
  }

  method ValidateParams(m: byte, l: byte, len: nat) returns (mp: Option<byte>)
    ensures mp.Some? <==> Allowed(m, l, len)
    ensures mp.Some? ==> mp.value == (m - 2) / 2
  {
    var v, tempL := len, l as int;
    while tempL != 0 && v != 0
      invariant 0 <= tempL <= l && v >= 0
      invariant v < Pow256(tempL) <==> len < Pow256(l)
      decreases tempL
    {
      ShiftBound(v, tempL);
      v, tempL := v / 256, tempL - 1;
    }
    if v != 0 || m % 2 == 1 {
      return None;
    }
    var p := EncodedM(m);
    if p <= 0 || p > 7 || l < 2 || l > 8 {
      return None;
    }
    mp := Some(p);
  }

  lemma ShiftBound(v: nat, k: nat)
    requires k > 0
    ensures v < Pow256(k) <==> v / 256 < Pow256(k - 1)
  {}

  // -----------------------------------------------------------------------
  // What is authenticated, section 2.2 of RFC 3610.

  function ZeroPad(s: seq<byte>): (r: seq<byte>)
    ensures |r| % BLOCK == 0 && |s| <= |r| < |s| + BLOCK
  {
    s + Zeros((BLOCK - |s| % BLOCK) % BLOCK)
  }

  function FirstBlock(m: nat, l: nat, nonce: seq<byte>, len: nat, more: bool): Block
    requires Allowed(m, l, len) && |nonce| == 15 - l
  {
    [(if more then 64 else 0) + 8 * ((m - 2) / 2) + (l - 1)] + nonce + ToBigEndian(len, l)
  }

  function LengthOf(n: nat): seq<byte> {
    if n < 0x1_0000 - 0x100 then ToBigEndian(n, 2) else [0xFF, 0xFE] + ToBigEndian(n, 4)
  }

  function Blocks(m: nat, l: nat, nonce: seq<byte>, t: seq<byte>, a: seq<byte>): (s: seq<byte>)
    requires Allowed(m, l, |t|) && |nonce| == 15 - l
    ensures |s| % BLOCK == 0
  {
    var head := FirstBlock(m, l, nonce, |t|, a != []);
    Joined(Joined(head, if a == [] then [] else ZeroPad(LengthOf(|a|) + a)), ZeroPad(t))
  }

  function Joined(a: seq<byte>, b: seq<byte>): (s: seq<byte>)
    requires |a| % BLOCK == 0 && |b| % BLOCK == 0
    ensures |s| % BLOCK == 0
  {
    a + b
  }

  // The code before it is cut and masked.
  function AuthCode(e: Permutation, m: nat, l: nat, nonce: seq<byte>, t: seq<byte>, a: seq<byte>): Block
    requires Allowed(m, l, |t|) && |nonce| == 15 - l
  {
    Chain(e, Blocks(m, l, nonce, t, a))
  }

  lemma ChainBlock(e: Permutation, s: seq<byte>, b: Block)
    requires |s| % BLOCK == 0
    ensures Chain(e, s + b) == e(XorBlocks(b, Chain(e, s)))
  {
    var r := s + b;
    assert r[..|r| - BLOCK] == s && r[|r| - BLOCK..] == b;
    XorBytesCommutes(b, Chain(e, s));
  }

  lemma ChainFirst(e: Permutation, b: Block)
    ensures Chain(e, b) == e(b)
  {
    ChainBlock(e, [], b);
    assert [] + b == b;
    XorZeros(b);
  }

  lemma XorZeros(b: Block)
    ensures XorBlocks(b, Zeros(BLOCK)) == b
  {
    forall i | 0 <= i < BLOCK
      ensures XorByte(b[i], 0) == b[i]
    {
      XorZero(b[i]);
    }
    hide XorByte;
    assert XorBytes(b, Zeros(BLOCK)) == b;
  }

  lemma ZeroPadMore(b: Block, s: seq<byte>)
    ensures ZeroPad(b + s) == b + ZeroPad(s)
  {
    assert |b + s| % BLOCK == |s| % BLOCK;
  }

  lemma ZeroPadShort(s: seq<byte>)
    requires 0 < |s| <= BLOCK
    ensures ZeroPad(s) == s + Zeros(BLOCK - |s|)
  {}

  // Chains data padded with zeros.
  method AuthenticateAux(e: Permutation, x: Block, data: seq<byte>, ghost done: seq<byte>) returns (y: Block)
    requires |done| % BLOCK == 0 && x == Chain(e, done)
    ensures y == Chain(e, done + ZeroPad(data))
  {
    hide Chain, XorBlocks, ZeroPad;
    y := x;
    var k := 0;
    assert done + data[..0] == done;
    while |data| - k > BLOCK
      invariant 0 <= k <= |data| && k % BLOCK == 0 && y == Chain(e, done + data[..k])
    {
      var b: Block := data[k..k + BLOCK];
      ChainBlock(e, done + data[..k], b);
      assert done + data[..k] + b == done + data[..k + BLOCK];
      y := e(XorBlocks(b, y));
      k := k + BLOCK;
    }
    PadSplits(data, k);
    if |data| > k {
      var b: Block := data[k..] + Zeros(BLOCK - (|data| - k));
      ChainBlock(e, done + data[..k], b);
      assert done + data[..k] + b == done + (data[..k] + b);
      y := e(XorBlocks(b, y));
    } else {
      assert data[..k] == data;
    }
  }

  lemma PadSplits(data: seq<byte>, k: nat)
    requires k <= |data| <= k + BLOCK && k % BLOCK == 0
    ensures ZeroPad(data) == if k < |data| then data[..k] + (data[k..] + Zeros(BLOCK - (|data| - k))) else data
  {}

  // The first block of the further data, and how much of it that takes.
  function FirstOfData(a: seq<byte>): (r: (Block, nat))
    requires a != []
    ensures r.1 <= |a|
  {
    var h := LengthOf(|a|);
    var n := BLOCK - |h|;
    if |a| >= n then (h + a[..n], n) else (h + a + Zeros(n - |a|), |a|)
  }

  lemma FirstOfDataPads(a: seq<byte>)
    requires a != []
    ensures var r := FirstOfData(a); ZeroPad(LengthOf(|a|) + a) == r.0 + ZeroPad(a[r.1..])
  {
    hide ToBigEndian;
    var h := LengthOf(|a|);
    var (b, n) := FirstOfData(a);
    if |a| >= BLOCK - |h| {
      assert h + a == b + a[n..];
      hide ZeroPad, LengthOf;
      ZeroPadMore(b, a[n..]);
    } else {
      ZeroPadShort(h + a);
      assert b == (h + a) + Zeros(BLOCK - |h + a|);
      assert ZeroPad(a[n..]) == [];
    }
  }

  method DoAuthentication(e: Permutation, m: nat, l: nat, nonce: seq<byte>, t: seq<byte>, a: seq<byte>)
    returns (x: Block)
    requires Allowed(m, l, |t|) && |nonce| == 15 - l
    ensures x == AuthCode(e, m, l, nonce, t, a)
  {
    hide Chain, XorBlocks, ZeroPad, FirstBlock, FirstOfData, LengthOf;
    var b0 := FirstBlock(m, l, nonce, |t|, a != []);
    ChainFirst(e, b0);
    x := e(b0);
    ghost var done: seq<byte> := b0;
    if a != [] {
      FirstOfDataPads(a);
      var (b, n) := FirstOfData(a);
      ChainBlock(e, done, b);
      x := e(XorBlocks(b, x));
      x := AuthenticateAux(e, x, a[n..], done + b);
      assert done + b + ZeroPad(a[n..]) == done + (b + ZeroPad(a[n..]));
      done := done + ZeroPad(LengthOf(|a|) + a);
    } else {
      assert b0 + [] == b0;
    }
    x := AuthenticateAux(e, x, t, done);
  }

  // -----------------------------------------------------------------------
  // Encryption, section 2.3 of RFC 3610.

  // Block A_i.
  function CounterBlock(l: nat, nonce: seq<byte>, i: nat): Block
    requires 2 <= l <= 8 && |nonce| == 15 - l
  {
    [l - 1] + nonce + ToBigEndian(i, l)
  }

  // The stream S_1, S_2, ... cut to n octets.
  function Mask(e: Permutation, l: nat, nonce: seq<byte>, n: nat): (s: seq<byte>)
    requires 2 <= l <= 8 && |nonce| == 15 - l
    ensures |s| == n
  {
    seq(n, k requires 0 <= k < n => e(CounterBlock(l, nonce, k / BLOCK + 1))[k % BLOCK])
  }

  function Masked(e: Permutation, l: nat, nonce: seq<byte>, t: seq<byte>): (s: seq<byte>)
    requires 2 <= l <= 8 && |nonce| == 15 - l
    ensures |s| == |t|
  {
    XorBytes(t, Mask(e, l, nonce, |t|))
  }

  // The authentication value: the code under S_0.
  function Sealed(e: Permutation, m: nat, l: nat, nonce: seq<byte>, t: seq<byte>, a: seq<byte>): (u: seq<byte>)
    requires Allowed(m, l, |t|) && |nonce| == 15 - l
    ensures |u| == m
  {
    XorBlocks(e(CounterBlock(l, nonce, 0)), AuthCode(e, m, l, nonce, t, a))[..m]
  }

  lemma {:induction false} BigEndianConcat(s: seq<byte>, r: seq<byte>)
    ensures BigEndian(s + r) == BigEndian(s) * Pow256(|r|) + BigEndian(r)
  {
    if r == [] {
      assert s + r == s;
    } else {
      var front := r[..|r| - 1];
      BigEndianConcat(s, front);
      assert (s + r)[..|s + r| - 1] == s + front;
      assert BigEndian(s) * Pow256(|r|) == BigEndian(s) * Pow256(|front|) * 256;
    }
  }

  // While it fits its l octets the count stays out of the nonce.
  lemma CounterKeepsNonce(l: nat, nonce: seq<byte>, i: nat)
    requires 2 <= l <= 8 && |nonce| == 15 - l && i + 1 < Pow256(l)
    ensures CounterAt(CounterBlock(l, nonce, 1), BLOCK, i) == CounterBlock(l, nonce, i + 1)
  {
    hide Pow256, ToBigEndian, BigEndian;
    var p: seq<byte> := [l - 1] + nonce;
    var b, c := CounterBlock(l, nonce, 1), CounterBlock(l, nonce, i + 1);
    assert b == p + ToBigEndian(1, l) && c == p + ToBigEndian(i + 1, l);
    BigEndianConcat(p, ToBigEndian(1, l));
    BigEndianConcat(p, ToBigEndian(i + 1, l));
    BigEndianRoundTrip(1, l);
    BigEndianRoundTrip(i + 1, l);
    assert BigEndian(c) == BigEndian(b) + i;
    BigEndianBound(c);
    SmallMod(BigEndian(b) + i, Pow256(BLOCK));
    ToBigEndianRoundTrip(c);
    assert b[0..] == b && b[..0] == [];
  }

  // Counter mode from block A_1 gives the stream of RFC 3610.
  lemma StreamIsMask(e: Permutation, l: nat, nonce: seq<byte>, s: Stream, n: nat)
    requires 2 <= l <= 8 && |nonce| == 15 - l && n < Pow256(l)
    requires s.counter == CounterBlock(l, nonce, 1) && s.offset == 0
    ensures Keystream(e, BLOCK, s, n) == Mask(e, l, nonce, n)
  {
    hide CounterAt, CounterBlock, Keystream, Pow256;
    forall k | 0 <= k < n
      ensures Keystream(e, BLOCK, s, n)[k] == Mask(e, l, nonce, n)[k]
    {
      KeystreamAt(e, BLOCK, s, n, k);
      CounterKeepsNonce(l, nonce, k / BLOCK);
    }
  }

  // What becomes of the data. Its length is unsigned here and signed in
  // counter mode, where one of 2^31 or more is negative.
  function Output(e: Permutation, l: nat, nonce: seq<byte>, t: seq<byte>): (s: seq<byte>)
    requires 2 <= l <= 8 && |nonce| == 15 - l
    ensures |s| == |t|
  {
    if |t| < SIGN then Masked(e, l, nonce, t) else t
  }

  // It is the cipher text of section 2.3 exactly up to that length, unless
  // the whole stream is zero.
  lemma OutputExact(e: Permutation, l: nat, nonce: seq<byte>, t: seq<byte>)
    requires 2 <= l <= 8 && |nonce| == 15 - l
    ensures Output(e, l, nonce, t) == Masked(e, l, nonce, t)
       <==> |t| < SIGN || Mask(e, l, nonce, |t|) == Zeros(|t|)
  {
    XorSame(t, Mask(e, l, nonce, |t|));
    hide Mask;
  }

  // For one, under the identity: the first octet of the stream is l - 1. The
  // length is one that the parameters allow.
  lemma LeftAsIs(m: nat, l: nat, nonce: seq<byte>, t: seq<byte>)
    requires m % 2 == 0 && 4 <= m <= 16 && 4 <= l <= 8 && |nonce| == 15 - l && |t| == SIGN
    ensures Allowed(m, l, |t|)
    ensures Output(b => b, l, nonce, t) == t && Masked(b => b, l, nonce, t) != t
  {
    assert Pow256(l) >= Pow256(4) == UNSIGNED by {
      PowGrows(4, l);
    }
    var e := (b: Block) => b;
    OutputExact(e, l, nonce, t);
    var s := Mask(e, l, nonce, |t|);
    assert s[0] == CounterBlock(l, nonce, 1)[0];
    assert Zeros(|t|)[0] == 0;
  }

  lemma {:induction false} PowGrows(j: nat, k: nat)
    requires j <= k
    ensures Pow256(j) <= Pow256(k)
  {
    if j < k {
      PowGrows(j, k - 1);
    }
  }

  // Masks the code, and the data in place.
  method DoCtrEncryption(e: Permutation, m: nat, l: nat, nonce: seq<byte>, data: array<byte>, t: seq<byte>)
    returns (u: seq<byte>)
    requires Allowed(m, l, data.Length) && data.Length < UNSIGNED && |nonce| == 15 - l && |t| == m
    modifies data
    ensures u == XorBytes(e(CounterBlock(l, nonce, 0))[..m], t)
    ensures data[..] == Output(e, l, nonce, old(data[..]))
  {
    hide Pow256, ToBigEndian, Keystream, XorBytes, After, Mask;
    var ctx := new CtrContext(e, [l - 1] + nonce + ToBigEndian(0, l));
    var s0 := e(ctx.counterBlock[..]);
    u := XorBytes(s0[..m], t);
    ctx.counterBlock[15] := 1;
    LastOne(l, nonce, ctx.counterBlock[..]);
    StreamIsMask(e, l, nonce, ctx.State(), data.Length);
    ghost var d, st := data[..], ctx.State();
    var ok := ctx.DoCtr(data, Signed(data.Length), None, BLOCK);
    TakenWhole(d, e, st);
  }

  lemma TakenWhole(d: seq<byte>, e: Permutation, st: Stream)
    requires st.offset < BLOCK
    ensures |d| < SIGN ==> d[..|d|] == d && d[|d|..] == []
    ensures Crypt(e, BLOCK, st, d[..0]) + d[0..] == d
  {}

  lemma LastOne(l: nat, nonce: seq<byte>, b: Block)
    requires 2 <= l <= 8 && |nonce| == 15 - l
    requires b == CounterBlock(l, nonce, 0)[15 := 1]
    ensures b == CounterBlock(l, nonce, 1)
  {
    assert forall i, k :: i < 256 && k > 0 ==> ToBigEndian(i, k) == ToBigEndian(0, k - 1) + [i];
  }

  // -----------------------------------------------------------------------

  method Encrypt(e: Permutation, m: byte, l: byte, nonce: seq<byte>, data: array<byte>, a: seq<byte>)
    returns (u: Option<seq<byte>>)
    requires data.Length < UNSIGNED && |a| < UNSIGNED && (2 <= l <= 8 ==> |nonce| == 15 - l)
    modifies data
    ensures u.Some? <==> Allowed(m, l, data.Length)
    ensures u.Some? ==>
      && u.value == Sealed(e, m, l, nonce, old(data[..]), a)
      && data[..] == Output(e, l, nonce, old(data[..]))
    ensures u.None? ==> data[..] == old(data[..])
  {
    hide Output, AuthCode, CounterBlock, XorBytes, Pow256;
    var mp := ValidateParams(m, l, data.Length);
    if mp.None? {
      return None;
    }
    var t := DoAuthentication(e, m, l, nonce, data[..], a);
    var v := DoCtrEncryption(e, m, l, nonce, data, t[..m]);
    XorPrefix(e(CounterBlock(l, nonce, 0)), t, m);
    u := Some(v);
  }

  // u is the authentication value that belongs to received data c.
  predicate Authentic(e: Permutation, m: nat, l: nat, nonce: seq<byte>, c: seq<byte>, a: seq<byte>, u: seq<byte>)
    requires Allowed(m, l, |c|) && |nonce| == 15 - l
  {
    u == Sealed(e, m, l, nonce, Output(e, l, nonce, c), a)
  }

  datatype Verdict = Accepted | BadArgument | AuthFailed

  // The data is decrypted even when it is then found not to be authentic.
  method Decrypt(e: Permutation, m: byte, l: byte, nonce: seq<byte>, data: array<byte>, a: seq<byte>, u: seq<byte>)
    returns (v: Verdict)
    requires data.Length < UNSIGNED && |a| < UNSIGNED && (2 <= l <= 8 ==> |nonce| == 15 - l) && |u| == m
    modifies data
    ensures v == BadArgument <==> !Allowed(m, l, data.Length)
    ensures v == BadArgument ==> data[..] == old(data[..])
    ensures v != BadArgument ==> data[..] == Output(e, l, nonce, old(data[..]))
    ensures v != BadArgument ==> (v == Accepted <==> Authentic(e, m, l, nonce, old(data[..]), a, u))
  {
    hide Output, AuthCode, CounterBlock, XorBytes, Pow256;
    var mp := ValidateParams(m, l, data.Length);
    if mp.None? {
      return BadArgument;
    }
    var t1 := DoCtrEncryption(e, m, l, nonce, data, u);
    var t2 := DoAuthentication(e, m, l, nonce, data[..], a);
    var s0 := e(CounterBlock(l, nonce, 0));
    XorPrefix(s0, t2, m);
    XorSwap(s0[..m], u, t2[..m]);
    v := if t1 == t2[..m] then Accepted else AuthFailed;
  }

  lemma XorSwap(s: seq<byte>, u: seq<byte>, t: seq<byte>)
    requires |s| == |u| == |t|
    ensures XorBytes(s, u) == t <==> u == XorBytes(s, t)
  {
    XorBytesCommutes(s, u);
    XorBytesCommutes(s, t);
    XorBytesInvolutive(u, s);
    XorBytesInvolutive(t, s);
    hide XorBytes;
  }

  // What was encrypted is decrypted to itself and found authentic, at any
  // length; and of the authentication values for it just one is accepted.
  lemma Opens(e: Permutation, m: nat, l: nat, nonce: seq<byte>, t: seq<byte>, a: seq<byte>)
    requires Allowed(m, l, |t|) && |nonce| == 15 - l
    ensures var c := Output(e, l, nonce, t);
      && Output(e, l, nonce, c) == t
      && (forall u :: Authentic(e, m, l, nonce, c, a, u) <==> u == Sealed(e, m, l, nonce, t, a))
  {
    XorBytesInvolutive(t, Mask(e, l, nonce, |t|));
    hide Mask, XorBytes;
  }
}
