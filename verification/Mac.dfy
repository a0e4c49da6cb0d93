// The running state common to OMAC and XCBC: message octets are chained a
// block at a time, and the last block is held back until more octets come or
// the message ends.

module Mac {
  import opened Bytes
  import opened BlockCipher
  import opened Ctr

  // The octets of an n-octet message that can be chained while its last block
  // is held back.
  function Taken(n: nat): (t: nat)
    ensures t <= n && t % BLOCK == 0
    ensures n > 0 ==> 0 < n - t <= BLOCK
  {
    if n == 0 then 0 else (n - 1) / BLOCK * BLOCK
  }

  // Chaining from zero: X := E(X ^ M_i).
  function Chain(e: Permutation, s: seq<byte>): Block
    requires |s| % BLOCK == 0
    decreases |s|
  {
    if s == [] then Zeros(BLOCK)
    else e(XorBlocks(Chain(e, s[..|s| - BLOCK]), s[|s| - BLOCK..]))
  }

  // A short last block: a one bit, then zeros.
  function Pad(s: seq<byte>): Block
    requires |s| < BLOCK
  {
    s + [0x80] + Zeros(BLOCK - 1 - |s|)
  }

  // The block that is chained last; k is for whole blocks, k' for padded ones.
  function LastBlock(last: seq<byte>, k: Block, k': Block): Block
    requires |last| <= BLOCK
  {
    if |last| == BLOCK then XorBlocks(last, k) else XorBlocks(Pad(last), k')
  }

  // The code of a message, given the two subkeys.
  function Code(e: Permutation, k: Block, k': Block, m: seq<byte>): Block {
    var t := Taken(|m|);
    e(XorBlocks(LastBlock(m[t..], k, k'), Chain(e, m[..t])))
  }

  // -----------------------------------------------------------------------
  // What the state holds, on values.

  // Message m has been taken in, its last block held back.
  ghost predicate Holds(e: Permutation, curr: seq<byte>, pend: seq<byte>, n: nat, m: seq<byte>) {
    && |pend| == BLOCK && n == |m| - Taken(|m|)
    && curr == Chain(e, m[..Taken(|m|)])
    && pend[..n] == m[Taken(|m|)..]
  }

  // Message m, whole blocks, has been chained in full.
  ghost predicate Flushed(e: Permutation, curr: seq<byte>, pend: seq<byte>, n: nat, m: seq<byte>) {
    |pend| == BLOCK && n == 0 && |m| % BLOCK == 0 && curr == Chain(e, m)
  }

  lemma TakenSame(n: nat)
    requires n % BLOCK != 0
    ensures Taken(n + 1) == Taken(n)
  {}

  lemma TakenAll(n: nat)
    requires n % BLOCK == 0
    ensures Taken(n + 1) == n
  {}

  // One more octet, when the held block is neither empty nor full.
  lemma HoldsMore(e: Permutation, curr: seq<byte>, pend: seq<byte>, n: nat, m: seq<byte>, b: byte)
    requires Holds(e, curr, pend, n, m) && 0 < n < BLOCK
    ensures Holds(e, curr, pend[n := b], n + 1, m + [b])
  {
    hide Chain;
    var t := Taken(|m|);
    assert |m| % BLOCK != 0;
    TakenSame(|m|);
    assert (m + [b])[..t] == m[..t] && (m + [b])[t..] == m[t..] + [b];
    assert pend[n := b][..n + 1] == pend[..n] + [b];
  }

  lemma HoldsFirst(e: Permutation, curr: seq<byte>, pend: seq<byte>, m: seq<byte>, b: byte)
    requires Flushed(e, curr, pend, 0, m)
    ensures Holds(e, curr, pend[0 := b], 1, m + [b])
  {
    hide Chain;
    TakenAll(|m|);
    assert (m + [b])[..|m|] == m && (m + [b])[|m|..] == [b];
  }

  // A full held block is chained when more is to come.
  lemma HoldsFlush(e: Permutation, curr: seq<byte>, pend: seq<byte>, m: seq<byte>)
    requires Holds(e, curr, pend, BLOCK, m)
    ensures |curr| == BLOCK && forall p: Block :: Flushed(e, e(XorBlocks(pend, curr)), p, 0, m)
  {
    var t := Taken(|m|);
    assert t + BLOCK == |m| && m[t..] == pend[..BLOCK] == pend;
    XorBytesCommutes(pend, curr);
    assert m[..|m| - BLOCK] == m[..t] && m[|m| - BLOCK..] == pend;
  }

  lemma FlushedMore(e: Permutation, curr: seq<byte>, pend: seq<byte>, m: seq<byte>, b: Block)
    requires Flushed(e, curr, pend, 0, m)
    ensures |curr| == BLOCK && forall p: Block :: Flushed(e, e(XorBlocks(curr, b)), p, 0, m + b)
  {
    var s := m + b;
    assert s[..|s| - BLOCK] == m && s[|s| - BLOCK..] == b;
  }

  lemma HoldsNothing(e: Permutation, curr: seq<byte>, pend: seq<byte>)
    requires curr == Zeros(BLOCK) && |pend| == BLOCK
    ensures Holds(e, curr, pend, 0, []) && Flushed(e, curr, pend, 0, [])
  {}

  lemma HoldsEmpty(e: Permutation, curr: seq<byte>, pend: seq<byte>, m: seq<byte>)
    requires Holds(e, curr, pend, 0, m)
    ensures m == [] && Flushed(e, curr, pend, 0, [])
  {}

  // -----------------------------------------------------------------------

  class MacState {
    const e: Permutation
    const currBlock: array<byte>
    const pending: array<byte>
    var pendingLen: nat

    ghost predicate Shaped()
      reads this
    {
      currBlock.Length == pending.Length == BLOCK && currBlock != pending && pendingLen <= BLOCK
    }

    // Exactly the octets m have been given since the start.
    ghost predicate Has(m: seq<byte>)
      reads this, currBlock, pending
    {
      Shaped() && Holds(e, currBlock[..], pending[..], pendingLen, m)
    }

    ghost predicate Chained(m: seq<byte>)
      reads this, currBlock, pending
    {
      Shaped() && Flushed(e, currBlock[..], pending[..], pendingLen, m)
    }

    constructor (e: Permutation)
      ensures Has([]) && fresh(currBlock) && fresh(pending) && this.e == e
    {
      this.e := e;
      currBlock := new byte[BLOCK](_ => 0);
      pending := new byte[BLOCK];
      pendingLen := 0;
      new;
      assert currBlock[..] == Zeros(BLOCK);
      HoldsNothing(e, currBlock[..], pending[..]);
    }

    // One octet joins the held block.
    method Put(b: byte, ghost m: seq<byte>)
      requires pendingLen < BLOCK && (Chained(m) || (pendingLen > 0 && Has(m)))
      modifies this`pendingLen, pending
      ensures Has(m + [b]) && pendingLen == old(pendingLen) + 1
    {
      hide Holds, Flushed;
      ghost var p := pending[..];
      if pendingLen == 0 {
        LenZero(e, currBlock[..], p, pendingLen, m);
        HoldsFirst(e, currBlock[..], p, m, b);
      } else {
        LenZero(e, currBlock[..], p, pendingLen, m);
        HoldsMore(e, currBlock[..], p, pendingLen, m, b);
      }
      pending[pendingLen] := b;
      assert pending[..] == p[pendingLen := b];
      pendingLen := pendingLen + 1;
    }

    method StoreCurr(x: Block)
      requires currBlock.Length == BLOCK
      modifies currBlock
      ensures currBlock[..] == x
    {
      forall i | 0 <= i < BLOCK {
        currBlock[i] := x[i];
      }
    }

    method StorePending(x: Block)
      requires pending.Length == BLOCK
      modifies pending
      ensures pending[..] == x
    {
      forall i | 0 <= i < BLOCK {
        pending[i] := x[i];
      }
    }

    method Flush(ghost m: seq<byte>)
      requires Has(m) && pendingLen == BLOCK
      modifies this`pendingLen, pending, currBlock
      ensures Chained(m)
    {
      hide Holds, Flushed, XorBlocks;
      HoldsFlush(e, currBlock[..], pending[..], m);
      pendingLen := 0;
      StorePending(XorBlocks(pending[..], currBlock[..]));
      StoreCurr(e(pending[..]));
    }

    method ChainBlock(b: Block, ghost m: seq<byte>)
      requires Chained(m)
      modifies pending, currBlock
      ensures Chained(m + b)
    {
      hide Flushed, XorBlocks;
      LenZero(e, currBlock[..], pending[..], pendingLen, m);
      FlushedMore(e, currBlock[..], pending[..], m, b);
      StorePending(XorBlocks(currBlock[..], b));
      StoreCurr(e(pending[..]));
    }

    // k of the octets have been taken; chained in full if more follow.
    ghost predicate Midway(data: seq<byte>, n: nat, k: nat, m: seq<byte>)
      reads this, currBlock, pending
    {
      && k <= n <= |data|
      && (k < n ==> Chained(m + data[..k]))
      && (k == n ==> Has(m + data[..k]))
    }

    // Fills up a block held from an earlier call; chains it if more follows.
    method Resume(data: seq<byte>, dataLength: int, ghost m: seq<byte>) returns (k: nat)
      requires Has(m) && pendingLen > 0 && dataLength <= |data|
      modifies this`pendingLen, pending, currBlock
      ensures Midway(data, Count(dataLength), k, m)
    {
      hide Holds, Flushed;
      k := 0;
      assert m + data[..0] == m;
      while pendingLen < BLOCK && dataLength - k > 0
        invariant 0 <= k <= Count(dataLength) && pendingLen > 0 && Has(m + data[..k])
        decreases dataLength - k
      {
        Put(data[k], m + data[..k]);
        assert m + data[..k] + [data[k]] == m + data[..k + 1];
        k := k + 1;
      }
      if pendingLen == BLOCK && dataLength - k > 0 {
        Flush(m + data[..k]);
      }
    }

    // The length is signed; a negative one is no octets.
    method Update(data: seq<byte>, dataLength: int, ghost m: seq<byte>)
      requires Has(m) && dataLength <= |data|
      modifies this`pendingLen, pending, currBlock
      ensures Has(m + data[..Count(dataLength)])
      ensures dataLength == |data| ==> Has(m + data)
    {
      hide Holds, Flushed;
      var k := 0;
      if pendingLen > 0 {
        k := Resume(data, dataLength, m);
      } else {
        HoldsEmpty(e, currBlock[..], pending[..], m);
        assert m + data[..0] == m;
      }
      while dataLength - k > BLOCK
        invariant Midway(data, Count(dataLength), k, m)
      {
        ChainBlock(data[k..k + BLOCK], m + data[..k]);
        assert m + data[..k] + data[k..k + BLOCK] == m + data[..k + BLOCK];
        k := k + BLOCK;
      }
      Keep(data, dataLength, k, m);
      assert data[..|data|] == data;
    }

    // Holds back what is left.
    method Keep(data: seq<byte>, dataLength: int, start: nat, ghost m: seq<byte>)
      requires Midway(data, Count(dataLength), start, m) && Count(dataLength) <= start + BLOCK
      modifies this`pendingLen, pending
      ensures Has(m + data[..Count(dataLength)])
    {
      hide Holds, Flushed;
      var k := start;
      LenZero(e, currBlock[..], pending[..], pendingLen, m + data[..k]);
      while dataLength - k > 0
        invariant start <= k <= Count(dataLength)
        invariant k == start ==> Midway(data, Count(dataLength), k, m) && (k < Count(dataLength) ==> pendingLen == 0)
        invariant k > start ==> pendingLen == k - start && Has(m + data[..k])
        decreases dataLength - k
      {
        Put(data[k], m + data[..k]);
        assert m + data[..k] + [data[k]] == m + data[..k + 1];
        k := k + 1;
      }
    }

    // Ends the message; the state cannot be used further.
    method Finish(k: Block, k': Block, ghost m: seq<byte>) returns (code: Block)
      requires Has(m)
      modifies this`pendingLen, pending
      ensures code == Code(e, k, k', m)
    {
      ghost var last := m[Taken(|m|)..];
      var subKey := k;
      assert pending[..pendingLen] == last;
      if pendingLen == BLOCK {
        assert pending[..] == last;
      } else {
        PadOut(last);
        subKey := k';
      }
      hide Chain, Taken, XorBytes;
      StorePending(XorBlocks(XorBlocks(pending[..], subKey), currBlock[..]));
      code := e(pending[..]);
    }

    method PadOut(ghost last: seq<byte>)
      requires Shaped() && pendingLen < BLOCK && pending[..pendingLen] == last
      modifies this`pendingLen, pending
      ensures |last| < BLOCK && pending[..] == Pad(last) && pendingLen == BLOCK
    {
      ghost var n := pendingLen;
      pending[pendingLen] := 0x80;
      pendingLen := pendingLen + 1;
      assert pending[..pendingLen] == last + [0x80] + Zeros(0);
      while pendingLen < BLOCK
        invariant n < pendingLen <= BLOCK && pending[..pendingLen] == last + [0x80] + Zeros(pendingLen - n - 1)
      {
        pending[pendingLen] := 0;
        pendingLen := pendingLen + 1;
        assert Zeros(pendingLen - n - 1) == Zeros(pendingLen - n - 2) + [0];
      }
      assert pending[..] == pending[..pendingLen];
    }
  }

  lemma LenZero(e: Permutation, curr: seq<byte>, pend: seq<byte>, n: nat, m: seq<byte>)
    ensures Flushed(e, curr, pend, n, m) ==> n == 0
    ensures n == 0 && Holds(e, curr, pend, n, m) ==> Flushed(e, curr, pend, n, m)
  {}
}
