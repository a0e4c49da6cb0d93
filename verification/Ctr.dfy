// Counter mode: a stream cipher whose context can be used in any number of
// calls on pieces of any length.

module Ctr {
  import opened Bytes
  import opened BlockCipher

  type Permutation = Block -> Block

  // -----------------------------------------------------------------------
  // The counter.

  // Adding one to a big-endian string, modulo 256 to its length.
  function Carry(s: seq<byte>): (r: seq<byte>)
    ensures |r| == |s|
  {
    if s == [] then []
    else
      var front, last := s[..|s| - 1], s[|s| - 1];
      if last == 255 then Carry(front) + [0] else front + [last + 1]
  }

  // The last `limit` octets of the block are counted up.
  function Increment(b: Block, limit: nat): Block
    requires limit <= BLOCK
  {
    b[..BLOCK - limit] + Carry(b[BLOCK - limit..])
  }

  lemma {:induction false} CarryValue(s: seq<byte>)
    ensures BigEndian(Carry(s)) == if BigEndian(s) + 1 == Pow256(|s|) then 0 else BigEndian(s) + 1
  {
    if s != [] {
      var front, last := s[..|s| - 1], s[|s| - 1];
      CarryValue(front);
      BigEndianBound(front);
      if last == 255 {
        var r: seq<byte> := Carry(front) + [0];
        assert r[..|r| - 1] == Carry(front);
      } else {
        var r: seq<byte> := front + [last + 1];
        assert r[..|r| - 1] == front;
      }
    }
  }

  // The block i increments after b.
  function CounterAt(b: Block, limit: nat, i: nat): Block
    requires limit <= BLOCK
  {
    b[..BLOCK - limit] + ToBigEndian((BigEndian(b[BLOCK - limit..]) + i) % Pow256(limit), limit)
  }

  lemma SmallMod(x: nat, p: nat)
    requires x < p
    ensures x % p == x
  {}

  lemma CounterStarts(b: Block, limit: nat)
    requires limit <= BLOCK
    ensures CounterAt(b, limit, 0) == b
  {
    hide BigEndian, ToBigEndian, Pow256;
    var s := b[BLOCK - limit..];
    BigEndianBound(s);
    ToBigEndianRoundTrip(s);
    SmallMod(BigEndian(s), Pow256(limit));
  }

  lemma CounterSteps(b: Block, limit: nat, i: nat)
    requires limit <= BLOCK
    ensures Increment(CounterAt(b, limit, i), limit) == CounterAt(b, limit, i + 1)
  {
    hide BigEndian, ToBigEndian, Pow256, Carry;
    var p, v := Pow256(limit), BigEndian(b[BLOCK - limit..]);
    var s := ToBigEndian((v + i) % p, limit);
    var c := CounterAt(b, limit, i);
    assert c[BLOCK - limit..] == s && c[..BLOCK - limit] == b[..BLOCK - limit];
    BigEndianRoundTrip((v + i) % p, limit);
    CarryValue(s);
    ModSucc(v + i, p);
    ToBigEndianRoundTrip(Carry(s));
  }

  // -----------------------------------------------------------------------
  // The key stream, octet by octet.

  // `offset` is the next unused octet of enc; 0 when a new block is needed.
  datatype Stream = Stream(counter: Block, enc: Block, offset: nat)

  function Next(e: Permutation, limit: nat, s: Stream): Stream
    requires limit <= BLOCK && s.offset < BLOCK
  {
    if s.offset == 0 then Stream(Increment(s.counter, limit), e(s.counter), 1)
    else s.(offset := (s.offset + 1) % BLOCK)
  }

  function Octet(e: Permutation, s: Stream): byte
    requires s.offset < BLOCK
  {
    if s.offset == 0 then e(s.counter)[0] else s.enc[s.offset]
  }

  function After(e: Permutation, limit: nat, s: Stream, n: nat): (r: Stream)
    requires limit <= BLOCK && s.offset < BLOCK
    ensures r.offset < BLOCK
  {
    if n == 0 then s else Next(e, limit, After(e, limit, s, n - 1))
  }

  function Keystream(e: Permutation, limit: nat, s: Stream, n: nat): (k: seq<byte>)
    requires limit <= BLOCK && s.offset < BLOCK
    ensures |k| == n
  {
    if n == 0 then []
    else Keystream(e, limit, s, n - 1) + [Octet(e, After(e, limit, s, n - 1))]
  }

  function Crypt(e: Permutation, limit: nat, s: Stream, t: seq<byte>): (r: seq<byte>)
    requires limit <= BLOCK && s.offset < BLOCK
    ensures |r| == |t|
  {
    XorBytes(t, Keystream(e, limit, s, |t|))
  }

  lemma StreamSnoc(e: Permutation, limit: nat, s: Stream, n: nat)
    requires limit <= BLOCK && s.offset < BLOCK
    ensures After(e, limit, s, n + 1) == Next(e, limit, After(e, limit, s, n))
    ensures Keystream(e, limit, s, n + 1) == Keystream(e, limit, s, n) + [Octet(e, After(e, limit, s, n))]
  {}

  lemma {:induction false} StreamSplits(e: Permutation, limit: nat, s: Stream, m: nat, n: nat)
    requires limit <= BLOCK && s.offset < BLOCK
    ensures After(e, limit, s, m + n) == After(e, limit, After(e, limit, s, m), n)
    ensures Keystream(e, limit, s, m + n) == Keystream(e, limit, s, m) + Keystream(e, limit, After(e, limit, s, m), n)
    decreases n
  {
    hide Next, Octet;
    if n > 0 {
      StreamSplits(e, limit, s, m, n - 1);
      StreamSnoc(e, limit, s, m + n - 1);
      StreamSnoc(e, limit, After(e, limit, s, m), n - 1);
      assert m + n - 1 == m + (n - 1);
      hide Keystream, After;
    } else {
      assert Keystream(e, limit, s, m) + [] == Keystream(e, limit, s, m);
    }
  }

  // Two calls do what one call on the whole does, wherever it is cut.
  lemma Chunks(e: Permutation, limit: nat, s: Stream, t: seq<byte>, u: seq<byte>)
    requires limit <= BLOCK && s.offset < BLOCK
    ensures Crypt(e, limit, s, t + u) == Crypt(e, limit, s, t) + Crypt(e, limit, After(e, limit, s, |t|), u)
    ensures After(e, limit, s, |t + u|) == After(e, limit, After(e, limit, s, |t|), |u|)
  {
    hide Keystream, After, XorBytes;
    StreamSplits(e, limit, s, |t|, |u|);
    var k, l := Keystream(e, limit, s, |t|), Keystream(e, limit, After(e, limit, s, |t|), |u|);
    assert |t + u| == |t| + |u|;
    XorConcat(t, u, k, l);
  }

  // The same call from the same start undoes itself.
  lemma CryptInvolutive(e: Permutation, limit: nat, s: Stream, t: seq<byte>)
    requires limit <= BLOCK && s.offset < BLOCK
    ensures Crypt(e, limit, s, Crypt(e, limit, s, t)) == t
  {
    XorBytesInvolutive(t, Keystream(e, limit, s, |t|));
  }

  lemma StreamNext(e: Permutation, limit: nat, c: Block, s: Stream, n: nat)
    requires limit <= BLOCK && s.offset == n % BLOCK && s.counter == CounterAt(c, limit, (n + 15) / BLOCK)
    requires n > 0 ==> s.enc == e(CounterAt(c, limit, (n - 1) / BLOCK))
    ensures var r := Next(e, limit, s);
      && r.offset == (n + 1) % BLOCK && r.counter == CounterAt(c, limit, (n + 16) / BLOCK)
      && r.enc == e(CounterAt(c, limit, n / BLOCK))
  {
    hide CounterAt, Increment;
    if n % BLOCK == 0 {
      CounterSteps(c, limit, n / BLOCK);
      assert (n + 15) / BLOCK == n / BLOCK && (n + 16) / BLOCK == n / BLOCK + 1;
    } else {
      assert (n + 15) / BLOCK == (n + 16) / BLOCK && (n - 1) / BLOCK == n / BLOCK;
    }
  }

  // The state in terms of the starting block: what counter mode is.
  lemma {:induction false} StreamAt(e: Permutation, limit: nat, s: Stream, n: nat)
    requires limit <= BLOCK && s.offset == 0
    ensures var r := After(e, limit, s, n);
      && r.offset == n % BLOCK && r.counter == CounterAt(s.counter, limit, (n + 15) / BLOCK)
      && (n > 0 ==> r.enc == e(CounterAt(s.counter, limit, (n - 1) / BLOCK)))
    decreases n
  {
    hide CounterAt, Increment;
    if n == 0 {
      CounterStarts(s.counter, limit);
    } else {
      StreamAt(e, limit, s, n - 1);
      StreamNext(e, limit, s.counter, After(e, limit, s, n - 1), n - 1);
    }
  }

  // Octet k of the stream is octet k % 16 of the encryption of the starting
  // block plus k / 16.
  lemma {:induction false} KeystreamAt(e: Permutation, limit: nat, s: Stream, n: nat, k: nat)
    requires limit <= BLOCK && s.offset == 0 && k < n
    ensures Keystream(e, limit, s, n)[k] == e(CounterAt(s.counter, limit, k / BLOCK))[k % BLOCK]
    decreases n
  {
    if k < n - 1 {
      KeystreamAt(e, limit, s, n - 1, k);
    } else {
      StreamAt(e, limit, s, k);
      if k % BLOCK != 0 {
        assert (k - 1) / BLOCK == k / BLOCK;
      } else {
        assert (k + 15) / BLOCK == k / BLOCK;
      }
    }
  }

  lemma FreshStart(e: Permutation, limit: nat, s: Stream)
    requires limit <= BLOCK && s.offset == 0
    ensures After(e, limit, s, 0) == s
  {}

  lemma NextFresh(e: Permutation, limit: nat, s: Stream, n: nat)
    requires limit <= BLOCK && s.offset == 0 && 0 < n <= BLOCK
    ensures var r := if n == 1 then s else Stream(Increment(s.counter, limit), e(s.counter), (n - 1) % BLOCK);
      && Next(e, limit, r) == Stream(Increment(s.counter, limit), e(s.counter), n % BLOCK)
      && Octet(e, r) == e(s.counter)[n - 1]
  {
    hide Increment;
  }

  // A whole block at once, and the part of a block at the end.
  lemma {:induction false} FreshBlock(e: Permutation, limit: nat, s: Stream, n: nat)
    requires limit <= BLOCK && s.offset == 0 && n <= BLOCK
    ensures Keystream(e, limit, s, n) == e(s.counter)[..n]
    ensures n > 0 ==> After(e, limit, s, n) == Stream(Increment(s.counter, limit), e(s.counter), n % BLOCK)
    decreases n
  {
    if n == 0 {
      assert Keystream(e, limit, s, 0) == [];
    } else {
      hide Keystream, After, Next, Octet;
      FreshBlock(e, limit, s, n - 1);
      StreamSnoc(e, limit, s, n - 1);
      FreshStart(e, limit, s);
      NextFresh(e, limit, s, n);
      var b := e(s.counter);
      assert b[..n] == b[..n - 1] + [b[n - 1]];
    }
  }

  // A block given with a call starts the stream anew.
  function Restarted(s: Stream, iv: Option<Block>): (r: Stream)
    requires s.offset < BLOCK
    ensures r.offset < BLOCK
  {
    if iv.None? then s else s.(counter := iv.value, offset := 0)
  }

  // -----------------------------------------------------------------------
  // The context.

  // The first k octets of s have been processed.
  ghost predicate Upto(e: Permutation, limit: nat, st: Stream, s: seq<byte>, d: seq<byte>, k: nat, now: Stream)
    requires limit <= BLOCK && st.offset < BLOCK
  {
    && |d| == |s| && k <= |s|
    && d[..k] == Crypt(e, limit, st, s[..k]) && d[k..] == s[k..]
    && now == After(e, limit, st, k)
  }

  lemma UptoStarts(e: Permutation, limit: nat, st: Stream, s: seq<byte>)
    requires limit <= BLOCK && st.offset < BLOCK
    ensures Upto(e, limit, st, s, s, 0, st)
  {}

  // The next n octets have been combined with the key stream.
  lemma UptoSteps(e: Permutation, limit: nat, st: Stream, s: seq<byte>, d: seq<byte>, d': seq<byte>, k: nat, n: nat,
                  now: Stream)
    requires limit <= BLOCK && st.offset < BLOCK && now.offset < BLOCK
    requires Upto(e, limit, st, s, d, k, now) && k + n <= |s|
    requires d' == d[..k] + XorBytes(d[k..k + n], Keystream(e, limit, now, n)) + d[k + n..]
    ensures Upto(e, limit, st, s, d', k + n, After(e, limit, now, n))
  {
    hide Keystream, After, Crypt, XorBytes;
    Chunks(e, limit, st, s[..k], s[k..k + n]);
    assert s[..k + n] == s[..k] + s[k..k + n];
    Spliced(s, d, d', k, n, XorBytes(d[k..k + n], Keystream(e, limit, now, n)));
    CryptIs(e, limit, now, s[k..k + n]);
  }

  lemma CryptIs(e: Permutation, limit: nat, s: Stream, t: seq<byte>)
    requires limit <= BLOCK && s.offset < BLOCK
    ensures Crypt(e, limit, s, t) == XorBytes(t, Keystream(e, limit, s, |t|))
  {}

  lemma Spliced(s: seq<byte>, d: seq<byte>, d': seq<byte>, k: nat, n: nat, x: seq<byte>)
    requires k + n <= |s| == |d| && |x| == n && d[k..] == s[k..]
    requires d' == d[..k] + x + d[k + n..]
    ensures |d'| == |s| && d'[..k + n] == d[..k] + x && d'[k + n..] == s[k + n..] && d[k..k + n] == s[k..k + n]
  {
    assert d[k..k + n] == d[k..][..n];
    assert d[k + n..] == d[k..][n..];
  }

  lemma UptoEnds(e: Permutation, limit: nat, st: Stream, s: seq<byte>, d: seq<byte>, k: nat, now: Stream)
    requires limit <= BLOCK && st.offset < BLOCK && k <= |s|
    requires Upto(e, limit, st, s, d, k, now)
    ensures d == Crypt(e, limit, st, s[..k]) + s[k..] && now == After(e, limit, st, k)
  {
    assert d == d[..k] + d[k..];
  }

  // Adding one to an octet.
  function Up(b: byte): byte {
    if b == 255 then 0 else b + 1
  }

  // Octets i + 1 and up have been counted over from 255 to 0.
  ghost predicate Carrying(b: Block, c: seq<byte>, lo: nat, i: int) {
    && lo <= BLOCK && lo - 1 <= i < BLOCK && |c| == BLOCK
    && c[..i + 1] == b[..i + 1]
    && Carry(b[lo..]) == Carry(b[lo..i + 1]) + c[i + 1..]
  }

  lemma CarryStarts(b: Block, lo: nat)
    requires lo <= BLOCK
    ensures Carrying(b, b, lo, BLOCK - 1)
  {
    assert b[lo..BLOCK] == b[lo..] && b[BLOCK..] == [];
  }

  lemma CarrySteps(b: Block, c: seq<byte>, lo: nat, i: int)
    requires lo <= i && Carrying(b, c, lo, i)
    ensures var x := Up(b[i]);
      && c[i] == b[i]
      && (x == 0 ==> Carrying(b, c[i := x], lo, i - 1))
      && (x != 0 ==> c[i := x] == Increment(b, BLOCK - lo))
  {
    assert c[i] == c[..i + 1][i] && c[..i] == c[..i + 1][..i] == b[..i];
    var s, x := b[lo..i + 1], Up(b[i]);
    assert s[..|s| - 1] == b[lo..i] && s[|s| - 1] == b[i];
    var d := c[i := x];
    assert d[..i] == b[..i] && d[i..] == [x] + c[i + 1..];
    if x == 0 {
      assert Carry(s) == Carry(b[lo..i]) + [0];
      assert Carry(b[lo..i]) + ([0] + c[i + 1..]) == Carry(b[lo..]);
    } else {
      assert Carry(s) == b[lo..i] + [x];
      assert d == b[..lo] + (b[lo..i] + [x] + c[i + 1..]);
    }
  }

  lemma CarryEnds(b: Block, c: seq<byte>, lo: nat)
    requires Carrying(b, c, lo, lo - 1)
    ensures c == Increment(b, BLOCK - lo)
  {
    assert b[lo..lo] == [] && c == c[..lo] + c[lo..];
  }

  class CtrContext {
    const e: Permutation
    const counterBlock: array<byte>
    const encBlock: array<byte>
    var offset: nat

    ghost predicate Valid()
      reads this
    {
      counterBlock.Length == encBlock.Length == BLOCK && counterBlock != encBlock && offset < BLOCK
    }

    ghost function State(): (s: Stream)
      requires Valid()
      reads this, counterBlock, encBlock
    {
      Stream(counterBlock[..], encBlock[..], offset)
    }

    constructor (e: Permutation, start: Block)
      ensures Valid() && fresh(counterBlock) && fresh(encBlock) && this.e == e
      ensures State() == Stream(start, Zeros(BLOCK), 0)
    {
      this.e := e;
      counterBlock := new byte[BLOCK](i requires 0 <= i < BLOCK => start[i]);
      encBlock := new byte[BLOCK](_ => 0);
      offset := 0;
      new;
      assert counterBlock[..] == start && encBlock[..] == Zeros(BLOCK);
    }

    method CountUp(limit: nat)
      requires Valid() && limit <= BLOCK
      modifies counterBlock
      ensures counterBlock[..] == Increment(old(counterBlock[..]), limit)
    {
      hide Carrying, Increment, Carry;
      ghost var b: Block := counterBlock[..];
      var lo, i := BLOCK - limit, BLOCK - 1;
      CarryStarts(b, lo);
      while i >= lo
        invariant lo - 1 <= i < BLOCK && Carrying(b, counterBlock[..], lo, i)
        decreases i
      {
        ghost var c := counterBlock[..];
        counterBlock[i] := Up(counterBlock[i]);
        assert counterBlock[..] == c[i := counterBlock[i]];
        CarrySteps(b, c, lo, i);
        if counterBlock[i] != 0 {
          return;
        }
        i := i - 1;
      }
      CarryEnds(b, counterBlock[..], lo);
    }

    method GetNewBlock(limit: nat)
      requires Valid() && limit <= BLOCK
      modifies encBlock, counterBlock
      ensures counterBlock[..] == Increment(old(counterBlock[..]), limit)
      ensures encBlock[..] == e(old(counterBlock[..]))
    {
      hide Increment;
      var x := e(counterBlock[..]);
      forall i | 0 <= i < BLOCK {
        encBlock[i] := x[i];
      }
      assert encBlock[..] == x && counterBlock[..] == old(counterBlock[..]);
      CountUp(limit);
    }

    // XORs n octets of the current block, from octet `from`, into the data.
    method XorInto(data: array<byte>, k: nat, from: nat, n: nat)
      requires Valid() && data != encBlock
      requires k + n <= data.Length && from + n <= BLOCK
      modifies data
      ensures data[..] == old(data[..k]) + XorBytes(old(data[k..k + n]), encBlock[from..from + n]) + old(data[k + n..])
    {
      forall i | 0 <= i < n {
        data[k + i] := XorByte(data[k + i], encBlock[from + i]);
      }
    }

    // Uses up what is left of the last block.
    method UseRest(data: array<byte>, dataLength: int, limit: nat) returns (k: nat)
      requires Valid() && limit <= BLOCK && data != encBlock && data != counterBlock && dataLength <= data.Length
      modifies this`offset, data
      ensures Valid() && k <= Count(dataLength) && (k == Count(dataLength) || offset == 0)
      ensures Upto(e, limit, old(State()), old(data[..]), data[..], k, State())
    {
      hide Upto, XorBytes, XorByte, Keystream, Next;
      ghost var s, st := data[..], State();
      UptoStarts(e, limit, st, s);
      k := 0;
      while dataLength - k > 0 && offset > 0
        invariant Valid() && 0 <= k <= Count(dataLength)
        invariant Upto(e, limit, st, s, data[..], k, State())
        decreases dataLength - k
      {
        ghost var d, now := data[..], State();
        XorInto(data, k, offset, 1);
        OneOctet(e, limit, now);
        UptoSteps(e, limit, st, s, d, data[..], k, 1, now);
        offset := (offset + 1) % BLOCK;
        k := k + 1;
      }
    }

    // Whole blocks, or the part of a block at the end.
    method UseNew(data: array<byte>, k: nat, n: nat, limit: nat, ghost st: Stream, ghost s: seq<byte>)
      requires Valid() && offset == 0 && limit <= BLOCK && data != encBlock && data != counterBlock
      requires 0 < n <= BLOCK && k + n <= data.Length == |s| && st.offset < BLOCK
      requires Upto(e, limit, st, s, data[..], k, State())
      modifies this`offset, counterBlock, encBlock, data
      ensures Valid() && offset == n % BLOCK
      ensures Upto(e, limit, st, s, data[..], k + n, State())
    {
      hide Upto, XorBytes, Keystream, Increment;
      ghost var d, now := data[..], State();
      GetNewBlock(limit);
      assert data[..] == d;
      XorInto(data, k, 0, n);
      offset := n % BLOCK;
      FreshBlock(e, limit, now, n);
      UptoSteps(e, limit, st, s, d, data[..], k, n, now);
    }

    method UseBlocks(data: array<byte>, dataLength: int, start: nat, limit: nat, ghost st: Stream, ghost s: seq<byte>)
      returns (k: nat)
      requires Valid() && limit <= BLOCK && data != encBlock && data != counterBlock && st.offset < BLOCK
      requires start <= Count(dataLength) <= data.Length == |s| && (start == Count(dataLength) || offset == 0)
      requires Upto(e, limit, st, s, data[..], start, State())
      modifies this`offset, counterBlock, encBlock, data
      ensures Valid() && k <= Count(dataLength) < k + BLOCK && (k == Count(dataLength) || offset == 0)
      ensures Upto(e, limit, st, s, data[..], k, State())
    {
      hide Upto;
      k := start;
      while dataLength - k >= BLOCK
        invariant Valid() && 0 <= k <= Count(dataLength) && (k == Count(dataLength) || offset == 0)
        invariant Upto(e, limit, st, s, data[..], k, State())
      {
        UseNew(data, k, BLOCK, limit, st, s);
        k := k + BLOCK;
      }
    }

    method Restart(iv: Block)
      requires Valid()
      modifies this`offset, counterBlock
      ensures Valid() && State() == Restarted(old(State()), Some(iv))
    {
      forall i | 0 <= i < BLOCK {
        counterBlock[i] := iv[i];
      }
      offset := 0;
      assert counterBlock[..] == iv;
    }

    // Lengths and limits are signed; a negative length is no octets.
    method DoCtr(data: array<byte>, dataLength: int, iv: Option<Block>, limit: int) returns (ok: bool)
      requires Valid() && data != encBlock && data != counterBlock && dataLength <= data.Length
      modifies this`offset, counterBlock, encBlock, data
      ensures Valid() && ok == (0 <= limit <= BLOCK)
      ensures ok ==> var n, s := Count(dataLength), Restarted(old(State()), iv);
        && data[..] == Crypt(e, limit, s, old(data[..n])) + old(data[n..])
        && State() == After(e, limit, s, n)
      ensures !ok ==> data[..] == old(data[..]) && State() == old(State())
    {
      hide Upto, Crypt, After;
      if BLOCK < limit || limit < 0 {
        return false;
      }
      if iv.Some? {
        Restart(iv.value);
      }
      ghost var s, st := data[..], State();
      var k := UseRest(data, dataLength, limit);
      k := UseBlocks(data, dataLength, k, limit, st, s);
      if dataLength - k > 0 {
        UseNew(data, k, dataLength - k, limit, st, s);
      }
      UptoEnds(e, limit, st, s, data[..], Count(dataLength), State());
      return true;
    }
  }

  lemma OneOctet(e: Permutation, limit: nat, s: Stream)
    requires limit <= BLOCK && 0 < s.offset < BLOCK
    ensures After(e, limit, s, 1) == s.(offset := (s.offset + 1) % BLOCK)
    ensures Keystream(e, limit, s, 1) == s.enc[s.offset..s.offset + 1]
  {
    StreamSnoc(e, limit, s, 0);
  }
}
