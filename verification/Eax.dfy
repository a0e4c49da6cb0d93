// EAX: counter mode from the code of the nonce, authenticated together with
// a header by three OMACs that differ in a first block.

module Eax {
  import opened Bytes
  import opened BlockCipher
  import opened Ctr
  import opened Mac
  import opened Omac

  function Tweak(t: byte): Block {
    Zeros(BLOCK - 1) + [t]
  }

  function TweakedOmac(e: Permutation, t: byte, m: seq<byte>): Block {
    Cmac(e, Tweak(t) + m)
  }

  // What the context is given of a nonce: its length is unsigned, and signed
  // where the code of the nonce is taken.
  function Kept(nonce: seq<byte>): seq<byte>
    requires |nonce| < UNSIGNED
  {
    nonce[..Count(Signed(|nonce|))]
  }

  // A nonce is kept whole exactly when it is shorter than 2^31 octets; all
  // others stand for the empty one.
  lemma KeptExact(nonce: seq<byte>)
    requires |nonce| < UNSIGNED
    ensures Kept(nonce) == nonce <==> |nonce| < SIGN
    ensures |nonce| >= SIGN ==> Kept(nonce) == []
  {
    assert |Kept(nonce)| == Count(Signed(|nonce|));
  }

  // The key stream of a nonce, from its start.
  function Start(e: Permutation, nonce: seq<byte>): (s: Stream)
    ensures s.offset == 0
  {
    Stream(TweakedOmac(e, 0, nonce), Zeros(BLOCK), 0)
  }

  function Encrypted(e: Permutation, nonce: seq<byte>, plain: seq<byte>): (c: seq<byte>)
    ensures |c| == |plain|
  {
    Crypt(e, BLOCK, Start(e, nonce), plain)
  }

  // The tag of a header and a cipher text.
  function Tag(e: Permutation, nonce: seq<byte>, header: seq<byte>, cipher: seq<byte>): Block {
    XorBlocks(HeadlessTag(e, nonce, cipher), TweakedOmac(e, 1, header))
  }

  function HeadlessTag(e: Permutation, nonce: seq<byte>, cipher: seq<byte>): Block {
    XorBlocks(TweakedOmac(e, 2, cipher), TweakedOmac(e, 0, nonce))
  }

  // Cipher text deciphered in pieces, after k octets, gives the plain text.
  lemma PieceRecovered(e: Permutation, nonce: seq<byte>, plain: seq<byte>, k: nat, n: nat)
    requires k + n <= |plain|
    ensures var c := Encrypted(e, nonce, plain);
      Crypt(e, BLOCK, After(e, BLOCK, Start(e, nonce), k), c[k..k + n]) == plain[k..k + n]
  {
    hide Keystream, After, Start, XorBytes, Crypt;
    var s, c := Start(e, nonce), Encrypted(e, nonce, plain);
    CryptSlice(e, s, plain, k, n);
    CryptInvolutive(e, BLOCK, After(e, BLOCK, s, k), plain[k..k + n]);
  }

  lemma CryptSlice(e: Permutation, s: Stream, t: seq<byte>, k: nat, n: nat)
    requires s.offset < BLOCK && k + n <= |t|
    ensures Crypt(e, BLOCK, s, t)[k..k + n] == Crypt(e, BLOCK, After(e, BLOCK, s, k), t[k..k + n])
  {
    hide Keystream, After, XorBytes, Crypt;
    var a, b, c := t[..k], t[k..k + n], t[k + n..];
    assert t == (a + b) + c;
    Chunks(e, BLOCK, s, a + b, c);
    Chunks(e, BLOCK, s, a, b);
    var x, y := Crypt(e, BLOCK, s, a), Crypt(e, BLOCK, After(e, BLOCK, s, k), b);
    Middle(x, y, Crypt(e, BLOCK, After(e, BLOCK, s, |a + b|), c));
  }

  lemma Middle(a: seq<byte>, b: seq<byte>, c: seq<byte>)
    ensures (a + b + c)[|a|..|a| + |b|] == b
  {}

  // The tag made without a header is the tag for the empty header exactly
  // when the code of the empty header is zero where the tag is taken.
  lemma NullHeaderExact(e: Permutation, nonce: seq<byte>, cipher: seq<byte>, n: nat)
    requires n <= BLOCK
    ensures HeadlessTag(e, nonce, cipher)[..n] == Tag(e, nonce, [], cipher)[..n]
       <==> TweakedOmac(e, 1, [])[..n] == Zeros(n)
  {
    hide TweakedOmac, HeadlessTag, XorByte;
    var a, h := HeadlessTag(e, nonce, cipher), TweakedOmac(e, 1, []);
    forall i | 0 <= i < n
      ensures XorByte(a[i], h[i]) == a[i] <==> h[i] == 0
    {
      XorZeroOnly(a[i], h[i]);
    }
    var t := Tag(e, nonce, [], cipher);
    assert forall i :: 0 <= i < n ==> t[i] == XorByte(a[i], h[i]) && t[..n][i] == t[i] && a[..n][i] == a[i];
    if a[..n] == t[..n] {
      assert h[..n] == Zeros(n);
    }
    if h[..n] == Zeros(n) {
      assert forall i :: 0 <= i < n ==> h[i] == h[..n][i];
      assert a[..n] == t[..n];
    }
  }

  // Two different messages with the same code, as far as it is used.
  predicate Collide(e: Permutation, t: byte, a: seq<byte>, b: seq<byte>, n: nat)
    requires n <= BLOCK
  {
    a != b && n > 0 && TweakedOmac(e, t, a)[..n] == TweakedOmac(e, t, b)[..n]
  }

  // The key stream over a message of n octets is zero.
  predicate Silent(e: Permutation, nonce: seq<byte>, n: nat) {
    Keystream(e, BLOCK, Start(e, nonce), n) == Zeros(n)
  }

  // The name for decrypting in pieces stands for the encrypting call, which
  // authenticates what it leaves behind: on a cipher text, the plain text. The
  // tag so made is the sender's if no tag is asked for or the key stream over
  // the message is zero, as it is over the empty one; otherwise only if two
  // messages have the same code.
  lemma DecryptAliasExact(e: Permutation, nonce: seq<byte>, header: seq<byte>, plain: seq<byte>, n: nat)
    requires n <= BLOCK
    ensures var c := Encrypted(e, nonce, plain);
      && Encrypted(e, nonce, c) == plain
      && (Tag(e, nonce, header, Encrypted(e, nonce, c))[..n] == Tag(e, nonce, header, c)[..n]
          <==> n == 0 || Silent(e, nonce, |plain|) || Collide(e, 2, plain, c, n))
    ensures plain == [] ==> Silent(e, nonce, |plain|)
  {
    CryptInvolutive(e, BLOCK, Start(e, nonce), plain);
    XorSame(plain, Keystream(e, BLOCK, Start(e, nonce), |plain|));
    hide TweakedOmac, XorBytes, Keystream, Start;
    var c := Encrypted(e, nonce, plain);
    assert c == plain <==> Silent(e, nonce, |plain|);
    hide Crypt, Silent;
    SameMask(TweakedOmac(e, 2, plain), TweakedOmac(e, 2, c), TweakedOmac(e, 0, nonce), TweakedOmac(e, 1, header), n);
  }

  // It is not, at any length of tag, for messages and nonces of one octet
  // under the identity.
  lemma DecryptAliasFails(x: byte, y: byte, header: seq<byte>, n: nat)
    requires y != 0 && 1 <= n <= BLOCK
    ensures var e, nonce, plain: seq<byte> := (b: Block) => b, [y], [x]; var c := Encrypted(e, nonce, plain);
      Tag(e, nonce, header, Encrypted(e, nonce, c))[..n] != Tag(e, nonce, header, c)[..n]
  {
    var e, nonce, plain: seq<byte> := (b: Block) => b, [y], [x];
    var c := Encrypted(e, nonce, plain);
    DecryptAliasExact(e, nonce, header, plain, n);
    ShortCode(0, y);
    FreshBlock(e, BLOCK, Start(e, nonce), 1);
    assert !Silent(e, nonce, 1) by {
      assert Keystream(e, BLOCK, Start(e, nonce), 1)[0] == y;
    }
    assert c == [c[0]];
    ShortCode(2, x);
    ShortCode(2, c[0]);
    hide TweakedOmac, Encrypted, Silent;
    FirstOctet(TweakedOmac(e, 2, plain), TweakedOmac(e, 2, c), n);
  }

  lemma FirstOctet(a: Block, b: Block, n: nat)
    requires 1 <= n <= BLOCK
    ensures a[..n] == b[..n] ==> a[0] == b[0]
  {
    assert a[..n][0] == a[0] && b[..n][0] == b[0];
  }

  // Under the identity the code of one octet starts with that octet.
  lemma ShortCode(t: byte, x: byte)
    ensures TweakedOmac((b: Block) => b, t, [x])[0] == x
  {
    var e, m: seq<byte> := (b: Block) => b, Tweak(t) + [x];
    DoubleZeros();
    XorSame(Pad([x]), Zeros(BLOCK));
    XorSame(Zeros(BLOCK), Zeros(BLOCK));
    hide Double, XorByte;
    assert m[..BLOCK] == Tweak(t) && m[BLOCK..] == [x];
    assert Chain(e, Tweak(t))[0] == XorByte(0, 0) by {
      assert Tweak(t)[..0] == [] && Tweak(t)[0..] == Tweak(t);
    }
    XorZeroOnly(0, 0);
    XorZeroOnly(x, 0);
  }

  lemma DoubleZeros()
    ensures Double(Zeros(BLOCK)) == Zeros(BLOCK)
  {
    ZerosAre(BLOCK);
    hide ToBigEndian, BigEndian, Pow256;
    EvenPower(BLOCK);
    SmallMod(0, Pow256(BLOCK));
  }

  lemma {:induction false} ZerosAre(k: nat)
    ensures BigEndian(Zeros(k)) == 0 && ToBigEndian(0, k) == Zeros(k)
  {
    if k > 0 {
      ZerosAre(k - 1);
      assert Zeros(k)[..k - 1] == Zeros(k - 1) && Zeros(k) == Zeros(k - 1) + [0];
    }
  }

  lemma SameMask(a: Block, b: Block, x: Block, y: Block, n: nat)
    requires n <= BLOCK
    ensures XorBlocks(XorBlocks(a, x), y)[..n] == XorBlocks(XorBlocks(b, x), y)[..n] <==> a[..n] == b[..n]
  {
    hide XorByte;
    var s, t := XorBlocks(XorBlocks(a, x), y), XorBlocks(XorBlocks(b, x), y);
    forall i | 0 <= i < n
      ensures s[i] == t[i] <==> a[i] == b[i]
    {
      XorCancels(a[i], b[i], x[i]);
      XorCancels(XorByte(a[i], x[i]), XorByte(b[i], x[i]), y[i]);
    }
    assert forall i :: 0 <= i < n ==> s[..n][i] == s[i] && t[..n][i] == t[i] && a[..n][i] == a[i] && b[..n][i] == b[i];
  }

  lemma XorCancels(a: byte, b: byte, x: byte)
    ensures XorByte(a, x) == XorByte(b, x) <==> a == b
  {
    XorInvolutive(a, x);
    XorInvolutive(b, x);
  }

  // -----------------------------------------------------------------------

  class EaxContext {
    const e: Permutation
    const ctr: CtrContext
    const headerMac: MacState
    const cipherMac: MacState
    const n: Block
    ghost const nonce: seq<byte>
    ghost var header: seq<byte>   // header octets so far
    ghost var plain: seq<byte>    // message octets so far
    ghost var cipher: seq<byte>   // and what they were encrypted to

    ghost predicate Separate() {
      && ctr.e == headerMac.e == cipherMac.e == e
      && headerMac != cipherMac
      && ctr.counterBlock !in {ctr.encBlock} + Arrays(headerMac) + Arrays(cipherMac)
      && ctr.encBlock !in Arrays(headerMac) + Arrays(cipherMac)
      && Arrays(headerMac) !! Arrays(cipherMac)
      && n == TweakedOmac(e, 0, nonce)
    }

    // The stream is as far on as the message.
    ghost predicate Streaming()
      reads this, ctr, ctr.counterBlock, ctr.encBlock
    {
      && Separate() && ctr.Valid()
      && ctr.State() == After(e, BLOCK, Start(e, nonce), |plain|)
    }

    ghost predicate Valid()
      reads this, ctr, ctr.counterBlock, ctr.encBlock
      reads headerMac, headerMac.pending, headerMac.currBlock, cipherMac, cipherMac.pending, cipherMac.currBlock
    {
      && Streaming()
      && headerMac.Has(Tweak(1) + header)
      && cipherMac.Has(Tweak(2) + cipher)
      && cipher == Encrypted(e, nonce, plain)
    }

    constructor (e: Permutation, nonce: seq<byte>)
      requires |nonce| < UNSIGNED
      ensures Valid() && this.e == e && this.nonce == Kept(nonce)
      ensures header == [] && plain == [] && cipher == []
      ensures fresh(ctr) && fresh(ctr.counterBlock) && fresh(ctr.encBlock)
      ensures fresh(headerMac) && fresh(Arrays(headerMac)) && fresh(cipherMac) && fresh(Arrays(cipherMac))
    {
      hide TweakedOmac, Holds, Keystream, Kept;
      this.e := e;
      this.nonce := Kept(nonce);
      var code := NonceCode(e, nonce);
      n := code;
      ctr := new CtrContext(e, code);
      var mac1 := InitOmac(e, 1);
      var mac2 := InitOmac(e, 2);
      headerMac, cipherMac := mac1, mac2;
      header, plain, cipher := [], [], [];
      new;
      assert forall t: byte :: Tweak(t) + [] == Tweak(t);
    }

    // Lengths are signed in these calls; a negative one is no octets.
    method UpdateHeader(data: seq<byte>, dataLength: int)
      requires Valid() && dataLength <= |data| && dataLength < SIGN
      modifies this`header, headerMac`pendingLen, headerMac.pending, headerMac.currBlock
      ensures Valid() && header == old(header) + data[..Count(dataLength)]
    {
      hide Cmac, Crypt, After, Keystream, Holds, XorBytes, TweakedOmac, Encrypted;
      headerMac.Update(data, dataLength, Tweak(1) + header);
      ghost var d := data[..Count(dataLength)];
      assert Tweak(1) + header + d == Tweak(1) + (header + d);
      header := header + d;
    }

    method EncryptMessage(data: array<byte>, msgLen: int)
      requires Valid() && msgLen <= data.Length && msgLen < SIGN
      requires data !in {ctr.counterBlock, ctr.encBlock} + Arrays(headerMac) + Arrays(cipherMac)
      modifies this`plain, this`cipher, data
      modifies ctr`offset, ctr.counterBlock, ctr.encBlock
      modifies cipherMac`pendingLen, cipherMac.pending, cipherMac.currBlock
      ensures Valid()
      ensures var n := Count(msgLen);
        && plain == old(plain) + old(data[..n]) && cipher == old(cipher) + data[..n]
        && data[n..] == old(data[n..])
    {
      hide Cmac, Crypt, After, Keystream, Holds;
      ghost var n := Count(msgLen);
      ghost var m, rest := data[..n], data[n..];
      var ok := ctr.DoCtr(data, msgLen, None, BLOCK);
      ghost var c := Crypt(e, BLOCK, After(e, BLOCK, Start(e, nonce), |plain|), m);
      Leading(data[..], c, rest);
      Chunks(e, BLOCK, Start(e, nonce), plain, m);
      cipherMac.Update(data[..], msgLen, Tweak(2) + cipher);
      assert data[..][..n] == c && data[n..] == rest;
      assert Tweak(2) + cipher + c == Tweak(2) + (cipher + c);
      plain, cipher := plain + m, cipher + c;
    }

    // The tag cut to tagLen octets; the codes are then used up.
    method Final(tagLen: int) returns (tag: Option<seq<byte>>)
      requires Valid()
      modifies headerMac`pendingLen, headerMac.pending, cipherMac`pendingLen, cipherMac.pending
      ensures tag.Some? <==> 0 <= tagLen <= BLOCK
      ensures tag.Some? ==> tag.value == Tag(e, nonce, header, cipher)[..tagLen]
      ensures Streaming()
    {
      hide Cmac, Crypt, After, Keystream, Holds, XorBytes, Encrypted;
      if tagLen > BLOCK || tagLen < 0 {
        return None;
      }
      var code := Omac.Final(cipherMac, Tweak(2) + cipher);
      var t := XorBytes(code[..tagLen], n[..tagLen]);
      var code' := Omac.Final(headerMac, Tweak(1) + header);
      t := XorBytes(t, code'[..tagLen]);
      XorPrefix(code, n, tagLen);
      XorPrefix(XorBytes(code, n), code', tagLen);
      return Some(t);
    }

    // The tag of a whole cipher text; the header may be left out.
    method GenerateTag(cipherText: seq<byte>, cipherLen: int, head: Option<seq<byte>>, headerLen: int, tagLen: int)
      returns (tag: Option<seq<byte>>)
      requires Valid() && cipherLen <= |cipherText| && cipherLen < SIGN
      requires head.Some? ==> headerLen <= |head.value| && headerLen < SIGN
      modifies headerMac`pendingLen, headerMac.pending, headerMac.currBlock
      modifies cipherMac`pendingLen, cipherMac.pending, cipherMac.currBlock
      ensures tag.Some? <==> 0 <= tagLen <= BLOCK
      ensures tag.Some? && head.Some? ==>
        tag.value
        == Tag(e, nonce, header + head.value[..Count(headerLen)], cipher + cipherText[..Count(cipherLen)])[..tagLen]
      ensures tag.Some? && head.None? ==>
        tag.value == HeadlessTag(e, nonce, cipher + cipherText[..Count(cipherLen)])[..tagLen]
      ensures Streaming()
    {
      hide Cmac, Crypt, After, Keystream, Holds, XorBytes, Encrypted;
      if tagLen > BLOCK || tagLen < 0 {
        return None;
      }
      cipherMac.Update(cipherText, cipherLen, Tweak(2) + cipher);
      ghost var c := cipherText[..Count(cipherLen)];
      assert Tweak(2) + cipher + c == Tweak(2) + (cipher + c);
      var code := Omac.Final(cipherMac, Tweak(2) + (cipher + c));
      var t := XorBytes(code[..tagLen], n[..tagLen]);
      XorPrefix(code, n, tagLen);
      if head.Some? {
        headerMac.Update(head.value, headerLen, Tweak(1) + header);
        ghost var h := head.value[..Count(headerLen)];
        assert Tweak(1) + header + h == Tweak(1) + (header + h);
        var code' := Omac.Final(headerMac, Tweak(1) + (header + h));
        t := XorBytes(t, code'[..tagLen]);
        XorPrefix(XorBytes(code, n), code', tagLen);
      }
      return Some(t);
    }

    // Deciphers the next octets of the cipher text of message m.
    method GetPlainText(data: array<byte>, cipherLen: int, ghost m: seq<byte>)
      requires Streaming() && data !in {ctr.counterBlock, ctr.encBlock} && cipherLen <= data.Length && cipherLen < SIGN
      requires |plain| + Count(cipherLen) <= |m|
      requires data[..Count(cipherLen)] == Encrypted(e, nonce, m)[|plain|..|plain| + Count(cipherLen)]
      modifies this`plain, data, ctr`offset, ctr.counterBlock, ctr.encBlock
      ensures Streaming()
      ensures var n := Count(cipherLen);
        && data[..n] == m[|old(plain)|..|old(plain)| + n] && data[n..] == old(data[n..])
        && plain == old(plain) + data[..n]
    {
      hide Cmac, Crypt, After, Keystream, Encrypted, TweakedOmac;
      ghost var n := Count(cipherLen);
      ghost var c, rest := data[..n], data[n..];
      PieceRecovered(e, nonce, m, |plain|, n);
      var ok := ctr.DoCtr(data, cipherLen, None, BLOCK);
      Leading(data[..], m[|plain|..|plain| + n], rest);
      assert data[..][..n] == data[..n] && data[..][n..] == data[n..];
      Chunks(e, BLOCK, Start(e, nonce), plain, c);
      plain := plain + data[..n];
    }
  }

  lemma Leading(d: seq<byte>, c: seq<byte>, rest: seq<byte>)
    ensures d == c + rest ==> d[..|c|] == c && d[|c|..] == rest
  {}

  ghost function Arrays(st: MacState): set<array<byte>> {
    {st.currBlock, st.pending}
  }

  method NonceCode(e: Permutation, nonce: seq<byte>) returns (code: Block)
    requires |nonce| < UNSIGNED
    ensures code == TweakedOmac(e, 0, Kept(nonce))
  {
    hide Cmac, Holds;
    var mac := InitOmac(e, 0);
    mac.Update(nonce, Signed(|nonce|), Tweak(0));
    code := Omac.Final(mac, Tweak(0) + Kept(nonce));
  }

  method InitOmac(e: Permutation, t: byte) returns (st: MacState)
    ensures st.Has(Tweak(t)) && st.e == e && fresh(st) && fresh(st.currBlock) && fresh(st.pending)
  {
    st := new MacState(e);
    st.Update(Tweak(t), BLOCK, []);
    assert [] + Tweak(t) == Tweak(t);
  }
}
