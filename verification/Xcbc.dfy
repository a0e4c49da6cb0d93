// AES-XCBC-MAC-96 (RFC 3566) and the pseudo-random function AES-XCBC-PRF-128
// with keys of any length (RFC 4434).

module Xcbc {
  import opened Bytes
  import opened BlockCipher
  import opened Ctr
  import opened Mac
  import opened Omac

  // The permutation of each 128-bit key.
  type Aes = Block -> Permutation

  const MAC_96 := 12

  function Repeat(b: byte): (r: Block)
    ensures forall i :: 0 <= i < 16 ==> r[i] == b
  {
    seq(BLOCK, _ => b)
  }

  // Keys K1, K2 and K3 of section 4 of RFC 3566.
  function DerivedKey(e: Permutation, kind: byte): Block {
    e(Repeat(kind))
  }

  // The code of message m under key k: chaining under K1, the last block
  // combined with K2, or with K3 after padding.
  function Xcbc(aes: Aes, k: Block, m: seq<byte>): Block {
    var e := aes(k);
    Code(aes(DerivedKey(e, 1)), DerivedKey(e, 2), DerivedKey(e, 3), m)
  }

  // A key of another length than 16 octets: padded, or replaced by its code
  // under the zero key.
  function PrfKey(aes: Aes, key: seq<byte>): Block {
    if |key| == BLOCK then key
    else if |key| < BLOCK then key + Zeros(BLOCK - |key|)
    else Xcbc(aes, Zeros(BLOCK), key)
  }

  function Prf(aes: Aes, key: seq<byte>, m: seq<byte>): Block {
    Xcbc(aes, PrfKey(aes, key), m)
  }

  method GenKey(e: Permutation, kind: byte) returns (key: Block)
    ensures key == DerivedKey(e, kind)
  {
    var keyGen := new byte[BLOCK](_ => kind);
    assert keyGen[..] == Repeat(kind);
    key := e(keyGen[..]);
  }

  class XcbcContext {
    const keyAes: Permutation
    const st: MacState

    ghost predicate For(aes: Aes, k: Block)
    {
      keyAes == aes(k) && st.e == aes(DerivedKey(aes(k), 1))
    }

    constructor (aes: Aes, k: Block)
      ensures For(aes, k) && st.Has([])
      ensures fresh(st) && fresh(st.currBlock) && fresh(st.pending)
    {
      keyAes := aes(k);
      var key := GenKey(aes(k), 1);
      st := new MacState(aes(key));
    }

    // The code cut to n octets.
    method FinalAux(n: nat, ghost aes: Aes, ghost k: Block, ghost m: seq<byte>) returns (cmac: seq<byte>)
      requires For(aes, k) && st.Has(m) && n <= BLOCK
      modifies st`pendingLen, st.pending
      ensures cmac == Xcbc(aes, k, m)[..n]
    {
      hide Code;
      HeldLength(st, m);
      var k2 := GenKey(keyAes, 2);
      var k3 := GenKey(keyAes, 3);
      var code := st.Finish(k2, k3, m);
      cmac := code[..n];
    }
  }

  lemma HeldLength(st: MacState, m: seq<byte>)
    requires st.Has(m)
    ensures st.pendingLen <= BLOCK
  {}

  method HashKey(aes: Aes, key: seq<byte>) returns (k: Block)
    ensures k == Xcbc(aes, Zeros(BLOCK), key)
  {
    hide Xcbc;
    var ctx := new XcbcContext(aes, Zeros(BLOCK));
    ctx.st.Update(key, |key|, []);
    assert [] + key == key;
    k := ctx.FinalAux(BLOCK, aes, Zeros(BLOCK), key);
  }

  // The key set-up of the pseudo-random function.
  method PrfStart(aes: Aes, key: seq<byte>) returns (ctx: XcbcContext)
    ensures ctx.For(aes, PrfKey(aes, key)) && ctx.st.Has([])
    ensures fresh(ctx) && fresh(ctx.st) && fresh(ctx.st.currBlock) && fresh(ctx.st.pending)
  {
    hide Xcbc;
    var k := key;
    if |key| < BLOCK {
      k := key + Zeros(BLOCK - |key|);
    } else if |key| > BLOCK {
      k := HashKey(aes, key);
    }
    ctx := new XcbcContext(aes, k);
  }

  // A start, updates with any pieces, and the end.
  method PrfOf(aes: Aes, key: seq<byte>, pieces: seq<seq<byte>>) returns (code: seq<byte>)
    ensures code == Prf(aes, key, Joined(pieces))
  {
    hide Xcbc, PrfKey;
    var ctx := PrfStart(aes, key);
    Feed(ctx.st, pieces);
    code := ctx.FinalAux(BLOCK, aes, PrfKey(aes, key), Joined(pieces));
  }

  method Mac96Of(aes: Aes, key: Block, pieces: seq<seq<byte>>) returns (code: seq<byte>)
    ensures code == Xcbc(aes, key, Joined(pieces))[..12]
  {
    hide Xcbc;
    var ctx := new XcbcContext(aes, key);
    Feed(ctx.st, pieces);
    code := ctx.FinalAux(MAC_96, aes, key, Joined(pieces));
  }
}
