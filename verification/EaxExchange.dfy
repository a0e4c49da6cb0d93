// A sender and a receiver of EAX: header and message go in by pieces in any
// order, the receiver has the tag of the whole and takes the message out by
// pieces of its own.

module EaxExchange {
  import opened Bytes
  import opened BlockCipher
  import opened Ctr
  import opened Mac
  import opened Omac
  import opened Eax

  datatype Piece = Header(data: seq<byte>) | Message(data: seq<byte>)

  function HeaderOf(ps: seq<Piece>): seq<byte> {
    if ps == [] then []
    else HeaderOf(ps[..|ps| - 1]) + if ps[|ps| - 1].Header? then ps[|ps| - 1].data else []
  }

  function MessageOf(ps: seq<Piece>): seq<byte> {
    if ps == [] then []
    else MessageOf(ps[..|ps| - 1]) + if ps[|ps| - 1].Message? then ps[|ps| - 1].data else []
  }

  lemma {:induction false} PieceShort(ps: seq<Piece>, i: nat)
    requires i < |ps|
    ensures |ps[i].data| <= if ps[i].Header? then |HeaderOf(ps)| else |MessageOf(ps)|
  {
    if i < |ps| - 1 {
      PieceShort(ps[..|ps| - 1], i);
    }
  }

  lemma OneMore(ps: seq<Piece>, i: nat)
    requires i < |ps|
    ensures HeaderOf(ps[..i + 1]) == HeaderOf(ps[..i]) + if ps[i].Header? then ps[i].data else []
    ensures MessageOf(ps[..i + 1]) == MessageOf(ps[..i]) + if ps[i].Message? then ps[i].data else []
  {
    assert ps[..i + 1][..i] == ps[..i];
  }

  // Cipher text comes out piece by piece as message goes in.
  method Put(ctx: EaxContext, p: Piece) returns (out: seq<byte>)
    requires ctx.Valid() && |p.data| < SIGN
    modifies ctx`header, ctx`plain, ctx`cipher, ctx.ctr`offset, ctx.ctr.counterBlock, ctx.ctr.encBlock
    modifies ctx.headerMac`pendingLen, ctx.headerMac.pending, ctx.headerMac.currBlock
    modifies ctx.cipherMac`pendingLen, ctx.cipherMac.pending, ctx.cipherMac.currBlock
    ensures ctx.Valid()
    ensures ctx.header == old(ctx.header) + if p.Header? then p.data else []
    ensures ctx.plain == old(ctx.plain) + if p.Message? then p.data else []
    ensures ctx.cipher == old(ctx.cipher) + out
  {
    hide Holds, Encrypted, TweakedOmac, After, Keystream;
    match p
    case Header(d) =>
      ctx.UpdateHeader(d, |d|);
      out := [];
    case Message(d) =>
      var a := new byte[|d|](i requires 0 <= i < |d| => d[i]);
      assert a[..] == d;
      ctx.EncryptMessage(a, a.Length);
      out := a[..];
      assert a[..a.Length] == out && d[..|d|] == d;
  }

  method Send(e: Permutation, nonce: seq<byte>, ps: seq<Piece>, tagLen: nat) returns (c: seq<byte>, tag: seq<byte>)
    requires |nonce| < UNSIGNED && |HeaderOf(ps)| < SIGN && |MessageOf(ps)| < SIGN && tagLen <= BLOCK
    ensures c == Encrypted(e, Kept(nonce), MessageOf(ps))
    ensures tag == Tag(e, Kept(nonce), HeaderOf(ps), c)[..tagLen]
  {
    hide Holds, Encrypted, TweakedOmac, Kept, After, Keystream, HeaderOf, MessageOf, Tag;
    var ctx := new EaxContext(e, nonce);
    Nothing(ps);
    c := [];
    var i := 0;
    while i < |ps|
      invariant 0 <= i <= |ps| && ctx.Valid()
      invariant ctx.header == HeaderOf(ps[..i]) && ctx.plain == MessageOf(ps[..i]) && ctx.cipher == c
    {
      PieceShort(ps, i);
      var out := Put(ctx, ps[i]);
      OneMore(ps, i);
      c := c + out;
      i := i + 1;
    }
    assert ps[..i] == ps;
    Ciphered(ctx);
    var t := ctx.Final(tagLen);
    tag := t.value;
  }

  lemma Nothing(ps: seq<Piece>)
    ensures HeaderOf(ps[..0]) == [] && MessageOf(ps[..0]) == []
  {}

  lemma Ciphered(ctx: EaxContext)
    requires ctx.Valid()
    ensures ctx.cipher == Encrypted(ctx.e, ctx.nonce, ctx.plain)
  {}

  function Sum(cuts: seq<nat>): nat {
    if cuts == [] then 0 else Sum(cuts[..|cuts| - 1]) + cuts[|cuts| - 1]
  }

  lemma {:induction false} SumPrefix(cuts: seq<nat>, i: nat)
    requires i < |cuts|
    ensures Sum(cuts[..i]) + cuts[i] == Sum(cuts[..i + 1]) <= Sum(cuts)
    decreases |cuts|
  {
    if i + 1 < |cuts| {
      var front := cuts[..|cuts| - 1];
      SumPrefix(front, i);
      assert front[..i] == cuts[..i] && front[..i + 1] == cuts[..i + 1];
    } else {
      assert cuts[..i + 1] == cuts;
    }
  }

  // The next n octets of message m, of whose cipher text they are a copy.
  method TakePiece(ctx: EaxContext, c: seq<byte>, n: nat, ghost m: seq<byte>) returns (p: seq<byte>)
    requires ctx.Streaming() && n == |c| < SIGN && |ctx.plain| + n <= |m|
    requires c == Encrypted(ctx.e, ctx.nonce, m)[|ctx.plain|..|ctx.plain| + n]
    modifies ctx`plain, ctx.ctr`offset, ctx.ctr.counterBlock, ctx.ctr.encBlock
    ensures ctx.Streaming() && ctx.plain == old(ctx.plain) + p
    ensures p == m[|old(ctx.plain)|..|old(ctx.plain)| + n]
  {
    hide Encrypted, TweakedOmac, After;
    var a := new byte[n](j requires 0 <= j < n => c[j]);
    assert a[..] == c;
    ctx.GetPlainText(a, n, m);
    p := a[..];
    assert a[..n] == p;
  }

  method TakeOut(ctx: EaxContext, c: seq<byte>, cuts: seq<nat>, ghost m: seq<byte>) returns (p: seq<byte>)
    requires ctx.Streaming() && ctx.plain == [] && c == Encrypted(ctx.e, ctx.nonce, m)
    requires |c| < SIGN && Sum(cuts) == |c|
    modifies ctx`plain, ctx.ctr`offset, ctx.ctr.counterBlock, ctx.ctr.encBlock
    ensures p == m
  {
    hide Encrypted, TweakedOmac, After, Sum;
    p := [];
    SumNone(cuts);
    var i := 0;
    while i < |cuts|
      invariant 0 <= i <= |cuts| && ctx.Streaming() && ctx.plain == p
      invariant |p| == Sum(cuts[..i]) <= |m| && p == m[..|p|]
    {
      SumPrefix(cuts, i);
      var k, n := |p|, cuts[i];
      var q := TakePiece(ctx, c[k..k + n], n, m);
      assert m[..k] + m[k..k + n] == m[..k + n];
      p := p + q;
      i := i + 1;
    }
    assert cuts[..i] == cuts;
  }

  // The tag of a cipher text that is message m enciphered, and then m.
  method Receive(e: Permutation, nonce: seq<byte>, header: seq<byte>, c: seq<byte>, tagLen: nat, cuts: seq<nat>,
                 ghost m: seq<byte>)
    returns (tag: seq<byte>, p: seq<byte>)
    requires |nonce| < UNSIGNED && |header| < SIGN && |c| < SIGN && tagLen <= BLOCK
    requires c == Encrypted(e, Kept(nonce), m) && Sum(cuts) == |c|
    ensures tag == Tag(e, Kept(nonce), header, c)[..tagLen] && p == m
  {
    hide Encrypted, TweakedOmac, Kept, After, Tag, Sum;
    var ctx := new EaxContext(e, nonce);
    var t := ctx.GenerateTag(c, |c|, Some(header), |header|, tagLen);
    tag := t.value;
    assert [] + header[..|header|] == header && [] + c[..|c|] == c;
    p := TakeOut(ctx, c, cuts, m);
  }

  lemma SumNone(cuts: seq<nat>)
    ensures Sum(cuts[..0]) == 0
  {}

  // The receiver finds the sender's tag and the whole message.
  method Exchange(e: Permutation, nonce: seq<byte>, ps: seq<Piece>, tagLen: nat, cuts: seq<nat>)
    returns (same: bool, p: seq<byte>)
    requires |nonce| < UNSIGNED && |HeaderOf(ps)| < SIGN && |MessageOf(ps)| < SIGN && tagLen <= BLOCK
    requires Sum(cuts) == |MessageOf(ps)|
    ensures same && p == MessageOf(ps)
  {
    hide Encrypted, Tag, Kept;
    var c, tag := Send(e, nonce, ps, tagLen);
    var tag';
    tag', p := Receive(e, nonce, HeaderOf(ps), c, tagLen, cuts, MessageOf(ps));
    same := tag == tag';
  }
}
