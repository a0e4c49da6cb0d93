// What decides where a packet is cut and in which order its blocks go out, and
// what each frame holds.

module CutLaws {
  import opened Bytes
  import opened Layout
  import opened Cuts
  import opened Emission
  import opened Frames
  import opened Padding
  import opened Obfuscate

  // -----------------------------------------------------------------------
  // How many blocks.

  // Packets of 640 octets and more: the low three bits of the clock, with 4
  // and 6 for the two values too low. Smaller ones: two, or three by bit 1.
  lemma BlockCounts(psize: nat, usec: nat)
    ensures var n := BlockCount(psize, usec); var b := usec % 8;
      && (psize < 40 ==> n == 2)
      && (40 <= psize < 640 ==> n == if usec % 4 >= 2 then 2 else 3)
      && (psize >= 640 && b >= 2 ==> n == b)
      && (psize >= 640 && b < 2 ==> n == [4, 6][b])
  {
    BitOne(usec);
  }

  lemma BitOne(x: nat)
    ensures BitSet(x, 2) <==> x % 4 >= 2
  {
    DivModUnique(2, x / 2, 2 * (x / 4) + x % 4 / 2, x % 2, x % 4 % 2);
  }

  // As many blocks as are wished for, or as have room for their headers.
  lemma MostBlocks(psize: nat, len: nat, usec: nat, n: nat)
    requires psize <= len
    ensures n <= ChosenBlocks(psize, len, usec) <==> n <= BlockCount(psize, usec) && psize + 3 * n <= len
  {}

  // -----------------------------------------------------------------------
  // Where the cuts are.

  // The jitter is the widest of 3, 7, 15 and 31 that keeps 4, 8, 16 or 32
  // positions within half a block, and never less than 3.
  lemma WidestJitter(step: nat, m: nat)
    requires m in {8, 16, 32}
    ensures JitterMask(step) in {3, 7, 15, 31}
    ensures m <= JitterMask(step) + 1 <==> 2 * m <= step
  {}

  // The octet moves the cut by its low bits, back if bit 1 is set.
  lemma JitterBits(x: byte, mask: nat)
    requires mask in {3, 7, 15, 31}
    ensures var j := Jitter(x, mask);
      && (x % 4 >= 2 <==> j < 0)
      && (if j < 0 then -j else j) % 32 == x % 32 % (mask + 1)
  {
    BitOne(x);
    LowBits(x, mask + 1);
  }

  lemma LowBits(x: byte, m: nat)
    requires m in {4, 8, 16, 32}
    ensures x % m % 4 == x % 4 && x % 32 % m == x % m
  {
    ModNested(x, m / 4, 4);
    ModNested(x, 32 / m, m);
  }

  lemma ModNested(x: nat, k: nat, m: nat)
    requires k > 0 && m > 0
    ensures k * m > 0 && x % (k * m) % m == x % m
  {
    assert k * m > 0;
    var q, r := x / (k * m), x % (k * m);
    assert x == k * m * q + r;
    assert m * (k * q + r / m) == k * m * q + m * (r / m);
    DivModUnique(m, x / m, k * q + r / m, x % m, r % m);
  }

  lemma JitterApart(x: byte, y: byte, mask: nat)
    requires mask in {3, 7, 15, 31}
    ensures Jitter(x, mask) == Jitter(y, mask) <==> x % (mask + 1) == y % (mask + 1)
  {
    JitterBits(x, mask);
    JitterBits(y, mask);
    LowBits(x, mask + 1);
    LowBits(y, mask + 1);
  }

  // Cut i depends on the size and on one octet, the i-th from the end, and on
  // all of that octet's low bits.
  lemma CutsFollow(p: seq<byte>, q: seq<byte>, blks: nat, i: nat)
    requires |p| == |q| && 5 * blks <= |p| && 0 < i < blks
    ensures var m := JitterMask(|p| / blks) + 1;
      CutAt(p, blks, i) == CutAt(q, blks, i) <==> p[|p| - i] % m == q[|q| - i] % m
  {
    NominalCut(i, |p| / blks);
    JitterApart(p[|p| - i], q[|q| - i], JitterMask(|p| / blks));
  }

  // The cut is within 31 octets of an even division.
  lemma CutNear(p: seq<byte>, blks: nat, i: nat)
    requires 5 * blks <= |p| && 0 < i < blks
    ensures i * (|p| / blks) - 31 <= CutAt(p, blks, i) <= i * (|p| / blks) + 29
  {
    NominalCut(i, |p| / blks);
    JitterRange(p[|p| - i], JitterMask(|p| / blks));
  }

  // Two cases of 100 octets in two blocks, with 50 as the even cut.
  lemma CutOfHundred(p: seq<byte>)
    requires |p| == 100
    ensures p[99] == 0xfd ==> CutAt(p, 2, 1) == 63
    ensures p[99] == 0xff ==> CutAt(p, 2, 1) == 35
  {
    assert 253 % 16 == 13 && 253 / 2 == 126 && 255 / 2 == 127;
  }

  // -----------------------------------------------------------------------
  // In which order the blocks go out.

  function Around(i: nat, d: nat, n: nat): nat
    requires n > 0
  {
    (i + d) % n
  }

  // The block found is d places on, and all before it are used up.
  ghost predicate FirstUnused(lens: seq<int>, i: nat, d: nat) {
    && i < |lens| && d < |lens|
    && lens[Around(i, d, |lens|)] != 0
    && (forall e: nat :: e < d ==> lens[Around(i, e, |lens|)] == 0)
  }

  lemma {:induction false} SkipFinds(lens: seq<int>, i: nat, d: nat, fuel: nat)
    requires FirstUnused(lens, i, d) && d <= fuel
    ensures Skip(lens, i, fuel) == Around(i, d, |lens|)
    decreases fuel
  {
    AroundNone(i, |lens|);
    if d > 0 {
      var i' := if i + 1 == |lens| then 0 else i + 1;
      UnusedNext(lens, i, d);
      SkipFinds(lens, i', d - 1, fuel - 1);
      NextAround(i, d - 1, |lens|);
      hide Around;
    }
  }

  lemma AroundNone(i: nat, n: nat)
    requires i < n
    ensures Around(i, 0, n) == i
  {}

  lemma UnusedNext(lens: seq<int>, i: nat, d: nat)
    requires FirstUnused(lens, i, d) && d > 0
    ensures lens[i] == 0 && FirstUnused(lens, if i + 1 == |lens| then 0 else i + 1, d - 1)
  {
    var i' := if i + 1 == |lens| then 0 else i + 1;
    AroundNone(i, |lens|);
    NextAround(i, d - 1, |lens|);
    hide Around;
    forall e: nat | e < d - 1
      ensures lens[Around(i', e, |lens|)] == 0
    {
      NextAround(i, e, |lens|);
    }
  }

  lemma NextAround(i: nat, e: nat, n: nat)
    requires i < n && e < n
    ensures Around(if i + 1 == n then 0 else i + 1, e, n) == Around(i, e + 1, n)
  {
    if i + 1 == n {
      DivModUnique(n, (n + e) / n, 1, (n + e) % n, e);
    }
  }

  // The bit looked at doubles up to the highest of the clock and starts again
  // at the lowest. If it is set the next unused block is sent.
  lemma NextSent(lens: seq<int>, c: Cursor, usec: nat, d: nat)
    requires c.idx < |lens| <= 10 && c.bct > 0 && FirstUnused(lens, c.idx, d)
    ensures var c' := Advance(lens, c, usec);
      && c'.bct == (if 2 * c.bct <= usec then 2 * c.bct else 1)
      && (usec / c'.bct % 2 == 1 ==> c'.idx == Around(c.idx, d, |lens|))
  {
    hide Skip, Around;
    SkipFinds(lens, c.idx, d, 10);
  }

  // If it is clear that block is passed over and the next unused one is sent.
  lemma NextPassed(lens: seq<int>, c: Cursor, usec: nat, d: nat, e: nat)
    requires c.idx < |lens| <= 10 && c.bct > 0 && FirstUnused(lens, c.idx, d)
    requires FirstUnused(lens, Around(c.idx, d + 1, |lens|), e)
    requires usec / (if 2 * c.bct <= usec then 2 * c.bct else 1) % 2 == 0
    ensures Advance(lens, c, usec).idx == Around(c.idx, d + 1 + e, |lens|)
  {
    hide Skip, Around;
    SkipFinds(lens, c.idx, d, 10);
    NextOne(c.idx, d, |lens|);
    SkipFinds(lens, Around(c.idx, d + 1, |lens|), e, 10);
    AroundMore(c.idx, d + 1, e, |lens|);
  }

  lemma NextOne(i: nat, d: nat, n: nat)
    requires i < n && d < n
    ensures var j := Around(i, d, n); Around(i, d + 1, n) == if j + 1 == n then 0 else j + 1
  {
    ModSucc(i + d, n);
  }

  lemma AroundMore(i: nat, d: nat, e: nat, n: nat)
    requires n > 0
    ensures Around(Around(i, d, n), e, n) == Around(i, d + e, n)
  {
    var q := (i + d) / n;
    assert i + d == n * q + (i + d) % n;
    var q', r' := (i + d + e) / n, (i + d + e) % n;
    var q2, r2 := ((i + d) % n + e) / n, ((i + d) % n + e) % n;
    assert n * (q + q2) == n * q + n * q2;
    DivModUnique(n, q', q + q2, r', r2);
  }

  // The first block never goes first, and the last one always does.
  lemma LastFirst(lens: seq<int>, usec: nat)
    requires |lens| >= 2
    ensures Schedule(lens, usec)[0] == |lens| - 1 != 0
  {}

  // Four blocks with the clock at 10, binary 1010.
  lemma FourBlocks(lens: seq<int>)
    requires |lens| == 4 && forall i :: 0 <= i < 4 ==> lens[i] != 0
    ensures Schedule(lens, 10) == [3, 0, 2, 1]
  {}

  // -----------------------------------------------------------------------
  // What is in each frame.

  // Where cut i of n lies in wire image w.
  function CutIn(w: seq<byte>, psize: nat, n: nat, i: nat): (c: nat)
    requires 28 + psize <= |w| && 0 < n && 5 * n <= psize && i <= n
  {
    CutAt(w[28..28 + psize], n, i)
  }

  // There are as many frames as blocks, the last block's first. Each holds
  // the octets between two cuts; what the packet leaves of its area is behind
  // the last block, and is taken from there on.
  lemma FramesHold(fs: seq<Frame>, w: seq<byte>, psize: nat, len: nat, usec: nat, j: nat)
    requires 28 + psize <= |w| && psize + 6 <= len && 20 <= psize && HeaderReadable(w)
    requires Obfuscated(fs, w, psize, len, usec) && j < |fs|
    ensures var n := |fs|;
      && n == ChosenBlocks(psize, len, usec) && 2 <= n && 5 * n <= psize && psize + 3 * n <= len
      && fs[0].index == n - 1 && fs[j].index < n
      && Holds(fs[j], w, psize, n, len - (psize + 3 * n), usec)
  {
    hide Scatters, Faithful, Schedule, PlanFor, Carries, Sound, Holds, HeaderReadable;
    EnoughBlocks(psize, len, usec);
    hide ChosenBlocks, AllPrintable, Print;
    var n := ChosenBlocks(psize, len, usec);
    var pl := PlanFor(w, psize, n, len - (psize + 3 * n), usec);
    FaithfulAt(fs, pl, j);
    CarriesSays(fs[j], pl, w, psize, n);
    ScattersAll(fs, pl);
    LastFirst(Lengths(pl.cuts), usec);
    assert Indices(fs)[0] == fs[0].index;
  }

  ghost predicate Holds(f: Frame, w: seq<byte>, psize: nat, n: nat, extra: nat, usec: nat)
    requires 28 + psize <= |w| && 20 <= psize && HeaderReadable(w) && 0 < n && 5 * n <= psize && f.index < n
  {
    var a, b := CutIn(w, psize, n, f.index), CutIn(w, psize, n, f.index + 1);
    && a < b <= psize
    && f.data == w[28 + a..28 + b]
                 + if f.index == n - 1 then Recycler(w, psize, usec).Repeated(a, extra) else []
  }

  lemma FaithfulAt(fs: seq<Frame>, pl: Plan, j: nat)
    requires Sound(pl) && Faithful(fs, pl) && j < |fs|
    ensures Carries(fs[j], pl)
  {}

  lemma ScattersAll(fs: seq<Frame>, pl: Plan)
    requires Scatters(fs, pl.p, pl.cuts, pl.extra)
    ensures |fs| == |pl.cuts| - 1
  {}

  lemma CarriesSays(f: Frame, pl: Plan, w: seq<byte>, psize: nat, n: nat)
    requires 28 + psize <= |w| && 20 <= psize && HeaderReadable(w) && 0 < n && 5 * n <= psize
    requires Sound(pl) && Carries(f, pl) && Fixes(pl, w, psize) && pl.cuts == AllCuts(pl.p, n)
    ensures f.index < n && Holds(f, w, psize, n, pl.extra, pl.usec)
  {
    hide IsCutting, HeaderReadable, Recycler, Source.Repeated, Sound, BlockAt, Carries, CutAt;
    CarriedParts(f, pl);
    PlannedBlock(pl, w, psize, f.index);
    SameCuts(pl, w, psize, n, f.index);
  }

  lemma SameCuts(pl: Plan, w: seq<byte>, psize: nat, n: nat, i: nat)
    requires 28 + psize <= |w| && 0 < n && 5 * n <= psize && i < n
    requires pl.p == w[28..28 + psize] && pl.cuts == AllCuts(pl.p, n)
    ensures pl.cuts[i] == CutIn(w, psize, n, i) && pl.cuts[i + 1] == CutIn(w, psize, n, i + 1)
  {
    hide CutAt;
  }

  lemma CarriedParts(f: Frame, pl: Plan)
    requires Sound(pl) && Carries(f, pl)
    ensures f.index < |pl.cuts| - 1 && IsCutting(pl.cuts, |pl.p|)
    ensures f.data == BlockAt(pl.p, pl.cuts, f.index) + if f.index == |pl.cuts| - 2 then pl.pad else []
  {
    var block := BlockAt(pl.p, pl.cuts, f.index);
    assert f.data == f.data[..|block|] + f.data[|block|..];
    hide BlockAt;
  }

  lemma EnoughBlocks(psize: nat, len: nat, usec: nat)
    requires psize + 6 <= len && 20 <= psize
    ensures var n := ChosenBlocks(psize, len, usec); 2 <= n && 5 * n <= psize && psize + 3 * n <= len
  {}
}
