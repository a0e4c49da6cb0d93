// Cipher block chaining in place, with which packets are encrypted.

module Cbc {
  import opened Bytes
  import opened BlockCipher

  function CbcEnc(c: Cipher, iv: Block, t: seq<byte>): (r: seq<byte>)
    requires |t| % BLOCK == 0
    ensures |r| == |t|
    decreases |t|
  {
    if t == [] then []
    else
      var x := c.enc(XorBlocks(t[..BLOCK], iv));
      x + CbcEnc(c, x, t[BLOCK..])
  }

  function CbcDec(c: Cipher, iv: Block, t: seq<byte>): (r: seq<byte>)
    requires |t| % BLOCK == 0
    ensures |r| == |t|
    decreases |t|
  {
    if t == [] then []
    else XorBlocks(c.dec(t[..BLOCK]), iv) + CbcDec(c, t[..BLOCK], t[BLOCK..])
  }

  lemma {:induction false} CbcInverse(c: Cipher, iv: Block, t: seq<byte>)
    requires Invertible(c) && |t| % BLOCK == 0
    ensures CbcDec(c, iv, CbcEnc(c, iv, t)) == t
    decreases |t|
  {
    if t != [] {
      var b: Block := t[..BLOCK];
      var x := c.enc(XorBlocks(b, iv));
      var rest := CbcEnc(c, x, t[BLOCK..]);
      var r: seq<byte> := x + rest;
      assert r == CbcEnc(c, iv, t);
      assert r[..BLOCK] == x && r[BLOCK..] == rest;
      XorBlocksInvolutive(b, iv);
      CbcInverse(c, x, t[BLOCK..]);
      assert t == b + t[BLOCK..];
    }
  }

  // The packet id, four times over.
  function Iv(id: nat): Block {
    var b := ToBigEndian(id, 4);
    b + b + b + b
  }

  // -----------------------------------------------------------------------
  // In place, a block at a time.

  function Replaced(s: seq<byte>, p: nat, x: Block): (r: seq<byte>)
    requires p + BLOCK <= |s|
    ensures |r| == |s|
  {
    s[..p] + x + s[p + BLOCK..]
  }

  method PutBlock(data: array<byte>, p: nat, x: Block)
    requires p + BLOCK <= data.Length
    modifies data
    ensures data[..] == Replaced(old(data[..]), p, x)
  {
    forall j | 0 <= j < BLOCK {
      data[p + j] := x[j];
    }
  }

  function BlockIn(s: seq<byte>, p: nat): Block
    requires p + BLOCK <= |s|
  {
    s[p..p + BLOCK]
  }

  // The block at offset i has not been touched.
  lemma NextBlock(s: seq<byte>, d: seq<byte>, at: nat, n: nat, i: nat)
    requires |d| == |s| && i < n && at + n <= |s| && i % BLOCK == 0 && n % BLOCK == 0
    requires d[at + i..] == s[at + i..]
    ensures i + BLOCK <= n
    ensures BlockIn(d, at + i) == s[at + i..at + n][..BLOCK]
    ensures s[at + i..at + n][BLOCK..] == s[at + i + BLOCK..at + n]
  {
    assert BlockIn(d, at + i) == d[at + i..][..BLOCK] == s[at + i..][..BLOCK] == s[at + i..at + n][..BLOCK];
  }

  lemma Splice(d: seq<byte>, d': seq<byte>, s: seq<byte>, at: nat, i: nat, x: Block)
    requires |d| == |s| && at + i + BLOCK <= |s| && d' == Replaced(d, at + i, x)
    requires d[..at] == s[..at] && d[at + i..] == s[at + i..]
    ensures d'[..at] == s[..at] && d'[at + i + BLOCK..] == s[at + i + BLOCK..]
    ensures d'[at..at + i + BLOCK] == d[at..at + i] + x
  {
    assert d'[..at] == d[..at];
    assert d'[at + i + BLOCK..] == d[at + i..][BLOCK..];
  }

  // The first i octets of the area have been encrypted; v is the chaining block.
  ghost predicate EncUpto(c: Cipher, iv: Block, s: seq<byte>, d: seq<byte>, at: nat, n: nat, i: nat, v: Block) {
    && |d| == |s| && i <= n && at + n <= |s| && i % BLOCK == 0 && n % BLOCK == 0
    && d[..at] == s[..at] && d[at + i..] == s[at + i..]
    && d[at..at + i] + CbcEnc(c, v, s[at + i..at + n]) == CbcEnc(c, iv, s[at..at + n])
  }

  lemma EncStarts(c: Cipher, iv: Block, s: seq<byte>, at: nat, n: nat)
    requires at + n <= |s| && n % BLOCK == 0
    ensures EncUpto(c, iv, s, s, at, n, 0, iv)
  {
    assert s[at..at] + CbcEnc(c, iv, s[at..at + n]) == CbcEnc(c, iv, s[at..at + n]);
  }

  lemma EncSteps(c: Cipher, iv: Block, s: seq<byte>, d: seq<byte>, d': seq<byte>, at: nat, n: nat, i: nat, v: Block)
    requires EncUpto(c, iv, s, d, at, n, i, v) && i < n
    requires d' == Replaced(d, at + i, c.enc(XorBlocks(BlockIn(d, at + i), v)))
    ensures EncUpto(c, iv, s, d', at, n, i + BLOCK, c.enc(XorBlocks(BlockIn(d, at + i), v)))
  {
    NextBlock(s, d, at, n, i);
    var x: Block := c.enc(XorBlocks(BlockIn(d, at + i), v));
    Splice(d, d', s, at, i, x);
    var t := s[at + i..at + n];
    assert t != [];
    assert CbcEnc(c, v, t) == x + CbcEnc(c, c.enc(XorBlocks(BlockIn(d, at + i), v)), t[BLOCK..]);
    hide CbcEnc, XorBlocks;
    var rest := CbcEnc(c, c.enc(XorBlocks(BlockIn(d, at + i), v)), t[BLOCK..]);
    assert d[at..at + i] + (x + rest) == (d[at..at + i] + x) + rest;
  }

  lemma EncEnds(c: Cipher, iv: Block, s: seq<byte>, d: seq<byte>, at: nat, n: nat, v: Block)
    requires EncUpto(c, iv, s, d, at, n, n, v)
    ensures |d| == |s| && d[..at] == s[..at] && d[at + n..] == s[at + n..]
    ensures d[at..at + n] == CbcEnc(c, iv, s[at..at + n])
  {
    assert s[at + n..at + n] == [];
    assert d[at..at + n] + [] == d[at..at + n];
  }

  method BlockEncrypt(c: Cipher, iv: Block, data: array<byte>, at: nat, n: nat)
    requires at + n <= data.Length && n % BLOCK == 0
    modifies data
    ensures data[..at] == old(data[..at]) && data[at + n..] == old(data[at + n..])
    ensures data[at..at + n] == CbcEnc(c, iv, old(data[at..at + n]))
  {
    hide EncUpto, CbcEnc, XorBlocks, Replaced, BlockIn;
    ghost var s := data[..];
    var v, i := iv, 0;
    EncStarts(c, iv, s, at, n);
    while i < n
      invariant 0 <= i <= n && i % BLOCK == 0
      invariant EncUpto(c, iv, s, data[..], at, n, i, v)
    {
      ghost var d, u := data[..], v;
      v := c.enc(XorBlocks(BlockIn(data[..], at + i), v));
      PutBlock(data, at + i, v);
      EncSteps(c, iv, s, d, data[..], at, n, i, u);
      i := i + BLOCK;
    }
    EncEnds(c, iv, s, data[..], at, n, v);
    ArrayParts(data, s, at, n);
  }

  lemma ArrayParts(data: array<byte>, s: seq<byte>, at: nat, n: nat)
    requires at + n <= data.Length == |s|
    ensures data[..][..at] == data[..at] && data[..][at + n..] == data[at + n..]
    ensures data[..][at..at + n] == data[at..at + n]
  {}

  // The first i octets of the area have been decrypted; v is the chaining block.
  ghost predicate DecUpto(c: Cipher, iv: Block, s: seq<byte>, d: seq<byte>, at: nat, n: nat, i: nat, v: Block) {
    && |d| == |s| && i <= n && at + n <= |s| && i % BLOCK == 0 && n % BLOCK == 0
    && d[..at] == s[..at] && d[at + i..] == s[at + i..]
    && d[at..at + i] + CbcDec(c, v, s[at + i..at + n]) == CbcDec(c, iv, s[at..at + n])
  }

  lemma DecStarts(c: Cipher, iv: Block, s: seq<byte>, at: nat, n: nat)
    requires at + n <= |s| && n % BLOCK == 0
    ensures DecUpto(c, iv, s, s, at, n, 0, iv)
  {
    assert s[at..at] + CbcDec(c, iv, s[at..at + n]) == CbcDec(c, iv, s[at..at + n]);
  }

  lemma DecSteps(c: Cipher, iv: Block, s: seq<byte>, d: seq<byte>, d': seq<byte>, at: nat, n: nat, i: nat, v: Block)
    requires DecUpto(c, iv, s, d, at, n, i, v) && i < n
    requires d' == Replaced(d, at + i, XorBlocks(c.dec(BlockIn(d, at + i)), v))
    ensures DecUpto(c, iv, s, d', at, n, i + BLOCK, BlockIn(d, at + i))
  {
    hide XorBlocks;
    NextBlock(s, d, at, n, i);
    var x: Block := XorBlocks(c.dec(BlockIn(d, at + i)), v);
    Splice(d, d', s, at, i, x);
    var t := s[at + i..at + n];
    assert t != [];
    assert CbcDec(c, v, t) == x + CbcDec(c, BlockIn(d, at + i), t[BLOCK..]);
    hide CbcDec, XorBlocks;
    var rest := CbcDec(c, BlockIn(d, at + i), t[BLOCK..]);
    assert d[at..at + i] + (x + rest) == (d[at..at + i] + x) + rest;
  }

  lemma DecEnds(c: Cipher, iv: Block, s: seq<byte>, d: seq<byte>, at: nat, n: nat, v: Block)
    requires DecUpto(c, iv, s, d, at, n, n, v)
    ensures |d| == |s| && d[..at] == s[..at] && d[at + n..] == s[at + n..]
    ensures d[at..at + n] == CbcDec(c, iv, s[at..at + n])
  {
    assert s[at + n..at + n] == [];
    assert d[at..at + n] + [] == d[at..at + n];
  }

  method BlockDecrypt(c: Cipher, iv: Block, data: array<byte>, at: nat, n: nat)
    requires at + n <= data.Length && n % BLOCK == 0
    modifies data
    ensures data[..at] == old(data[..at]) && data[at + n..] == old(data[at + n..])
    ensures data[at..at + n] == CbcDec(c, iv, old(data[at..at + n]))
  {
    hide DecUpto, CbcDec, XorBlocks, Replaced, BlockIn;
    ghost var s := data[..];
    var v, i := iv, 0;
    DecStarts(c, iv, s, at, n);
    while i < n
      invariant 0 <= i <= n && i % BLOCK == 0
      invariant DecUpto(c, iv, s, data[..], at, n, i, v)
    {
      ghost var d, u := data[..], v;
      var input := BlockIn(data[..], at + i);
      var block := XorBlocks(c.dec(input), v);
      v := input;
      PutBlock(data, at + i, block);
      DecSteps(c, iv, s, d, data[..], at, n, i, u);
      i := i + BLOCK;
    }
    DecEnds(c, iv, s, data[..], at, n, v);
    ArrayParts(data, s, at, n);
  }

  // Encryption of a packet area under its id; no context, or a length that is
  // not whole blocks, is an error and changes nothing.
  method Encrypt(c: Option<Cipher>, data: array<byte>, at: nat, n: nat, id: nat) returns (ok: bool)
    requires at + n <= data.Length
    modifies data
    ensures ok == (c.Some? && n % BLOCK == 0)
    ensures data[..at] == old(data[..at]) && data[at + n..] == old(data[at + n..])
    ensures data[at..at + n] == if ok then CbcEnc(c.value, Iv(id), old(data[at..at + n])) else old(data[at..at + n])
  {
    if n % BLOCK != 0 || c.None? {
      return false;
    }
    BlockEncrypt(c.value, Iv(id), data, at, n);
    return true;
  }

  method Decrypt(c: Option<Cipher>, data: array<byte>, at: nat, n: nat, id: nat) returns (ok: bool)
    requires at + n <= data.Length
    modifies data
    ensures ok == (c.Some? && n % BLOCK == 0)
    ensures data[..at] == old(data[..at]) && data[at + n..] == old(data[at + n..])
    ensures data[at..at + n] == if ok then CbcDec(c.value, Iv(id), old(data[at..at + n])) else old(data[at..at + n])
  {
    if n % BLOCK != 0 || c.None? {
      return false;
    }
    BlockDecrypt(c.value, Iv(id), data, at, n);
    return true;
  }
}
