// Where a packet is cut: the number of blocks, their jittered starting
// offsets, and the proof that jitter never makes two cuts collide.

module Cuts {
  import opened Bytes
  import opened Layout
  import opened Frames

  predicate BitSet(x: nat, bit: nat)
    requires bit > 0
  {
    (x / bit) % 2 == 1
  }

  // The number of blocks suggested by the packet size and the clock.
  function BlockCount(psize: nat, usec: nat): (n: nat)
    ensures 2 <= n <= 7
    ensures psize >= 20 ==> psize >= 10 * n
  {
    if psize < PKT_MED then
      if psize < 40 then 2
      else if BitSet(usec, 2) then 2
      else 3
    else
      var b := usec % 8;
      if b == 0 then 4 else if b == 1 then 6 else b
  }

  // The number used: every block needs room for a three-octet header. The
  // room is found by unsigned subtraction.
  function ChosenBlocks(psize: nat, len: nat, usec: nat): nat {
    var n, room := BlockCount(psize, usec), Minus(len, psize);
    if n * 3 > room then room / 3 else n
  }

  // A packet is turned down for want of blocks exactly when it fits its area
  // with less than one header to spare.
  lemma NoBlocks(psize: nat, len: nat, usec: nat)
    requires psize < 0x1_0000
    ensures ChosenBlocks(psize, len, usec) == 0 <==> psize <= len < psize + 3
  {
    if psize > len {
      OversizeRoom(psize, len);
    }
  }

  lemma OversizeRoom(psize: nat, len: nat)
    requires len < psize < 0x1_0000
    ensures Minus(len, psize) == len + UNSIGNED - psize
  {}

  // A packet whose header gives more octets than its area holds is not turned
  // down: the number of blocks is what it would be with room to spare.
  lemma OversizePasses(psize: nat, len: nat, usec: nat)
    requires len < psize < 0x1_0000
    ensures ChosenBlocks(psize, len, usec) == BlockCount(psize, usec) >= 2
  {
    OversizeRoom(psize, len);
  }

  // Such as 100 octets in an area of 50.
  lemma OversizeInput()
    ensures ChosenBlocks(100, 50, 0) == 3
  {
    OversizePasses(100, 50, 0);
  }

  function JitterMask(step: nat): nat {
    if step < 16 then 0x3 else if step < 32 then 0x7 else if step < 64 then 0xf else 0x1f
  }

  // x & mask, negated when bit 1 of x is set; mask is a power of two less one.
  function Jitter(x: byte, mask: nat): int {
    if BitSet(x, 2) then -(x % (mask + 1)) else x % (mask + 1)
  }

  lemma JitterRange(x: byte, mask: nat)
    requires mask in {0x3, 0x7, 0xf, 0x1f}
    ensures -(mask as int) <= Jitter(x, mask) <= mask - 2
  {
    var m := mask + 1;
    if x % m > mask - 2 {
      var q := m / 4;
      assert m == 4 * q;
      TopBits(x, q * (x / m), q, x % m);
    }
  }

  // The top two values of the low bits have bit 1 set.
  lemma TopBits(x: nat, a: nat, q: nat, r: nat)
    requires x == 4 * a + r && q > 0 && r in {4 * q - 2, 4 * q - 1}
    ensures BitSet(x, 2)
  {
    assert x / 2 == 2 * (a + q - 1) + 1;
  }

  function CutAt(p: seq<byte>, blks: nat, i: nat): nat
    requires 0 < blks && 5 * blks <= |p| && i <= blks
  {
    if i == 0 then 0
    else if i == blks then |p|
    else
      var step := |p| / blks;
      NominalCut(i, step);
      JitterRange(p[|p| - i], JitterMask(step));
      i * step + Jitter(p[|p| - i], JitterMask(step))
  }

  lemma NominalCut(i: nat, step: nat)
    requires i > 0
    ensures i * step >= step
  {}

  // Adjacent cuts stay in order whatever the packet holds: twice the jitter
  // mask, less two, is below the nominal block size.
  lemma CutsIncrease(p: seq<byte>, blks: nat, i: nat)
    requires 0 < blks && 5 * blks <= |p| && i < blks
    ensures CutAt(p, blks, i) < CutAt(p, blks, i + 1)
  {
    var step := |p| / blks;
    assert step >= 5 && blks * step <= |p|;
    var mask := JitterMask(step);
    assert step > mask + (mask - 2);
    assert (i + 1) * step == i * step + step;
    if 0 < i {
      JitterRange(p[|p| - i], mask);
    }
    if i + 1 < blks {
      JitterRange(p[|p| - (i + 1)], mask);
    }
  }

  // -----------------------------------------------------------------------
  // Cuttings in general.

  // Offsets that cut n octets into |cuts| - 1 non-empty blocks.
  predicate IsCutting(cuts: seq<nat>, n: nat) {
    && |cuts| >= 2
    && cuts[0] == 0
    && cuts[|cuts| - 1] == n
    && (forall i, j :: 0 <= i < j < |cuts| ==> cuts[i] < cuts[j])
  }

  function BlockAt(p: seq<byte>, cuts: seq<nat>, i: nat): (b: seq<byte>)
    requires IsCutting(cuts, |p|) && i < |cuts| - 1
    ensures 0 < |b| == cuts[i + 1] - cuts[i]
  {
    assert i + 1 < |cuts| - 1 ==> cuts[i + 1] < cuts[|cuts| - 1];
    p[cuts[i]..cuts[i + 1]]
  }

  function AllCuts(p: seq<byte>, blks: nat): (cuts: seq<nat>)
    requires 0 < blks && 5 * blks <= |p|
    ensures |cuts| == blks + 1
    ensures forall i :: 0 <= i <= blks ==> cuts[i] == CutAt(p, blks, i)
  {
    seq(blks + 1, i requires 0 <= i <= blks => CutAt(p, blks, i))
  }

  lemma {:induction false} CutsOrdered(p: seq<byte>, blks: nat, i: nat, j: nat)
    requires 0 < blks && 5 * blks <= |p| && i < j <= blks
    ensures CutAt(p, blks, i) < CutAt(p, blks, j)
    decreases j
  {
    CutsIncrease(p, blks, j - 1);
    if i < j - 1 {
      CutsOrdered(p, blks, i, j - 1);
    }
  }

  // The cuts chosen for a packet divide it into non-empty blocks whose
  // lengths add up to the packet.
  lemma AllCutsCut(p: seq<byte>, blks: nat)
    requires 0 < blks && 5 * blks <= |p|
    ensures IsCutting(AllCuts(p, blks), |p|)
  {
    var cuts := AllCuts(p, blks);
    forall i, j | 0 <= i < j < |cuts|
      ensures cuts[i] < cuts[j]
    {
      CutsOrdered(p, blks, i, j);
    }
  }

  // -----------------------------------------------------------------------
  // What an obfuscated packet must carry.

  // Frame f holds one block of p; the last block is followed by `extra`
  // octets of padding.
  predicate HoldsBlock(f: Frame, p: seq<byte>, cuts: seq<nat>, extra: nat)
    requires IsCutting(cuts, |p|)
  {
    && f.index < |cuts| - 1
    && BlockAt(p, cuts, f.index) <= f.data
    && |f.data| == |BlockAt(p, cuts, f.index)| + (if f.index == |cuts| - 2 then extra else 0)
  }

  ghost predicate Scatters(fs: seq<Frame>, p: seq<byte>, cuts: seq<nat>, extra: nat) {
    && IsCutting(cuts, |p|)
    && |fs| == |cuts| - 1
    && Permutes(fs)
    && (forall k :: 0 <= k < |fs| ==> HoldsBlock(fs[k], p, cuts, extra))
  }

  lemma ScatteredBlock(fs: seq<Frame>, p: seq<byte>, cuts: seq<nat>, extra: nat, i: nat)
    requires Scatters(fs, p, cuts, extra) && i < |fs|
    ensures BlockAt(p, cuts, i) <= BlockOf(fs, i)
    ensures |BlockOf(fs, i)| == |BlockAt(p, cuts, i)| + (if i == |fs| - 1 then extra else 0)
  {
    assert Carried(fs, i);
    var k :| 0 <= k < |fs| && fs[k].index == i;
    BlockOfUnique(fs, k);
    assert HoldsBlock(fs[k], p, cuts, extra);
  }

  lemma {:induction false} AssemblePrefix(fs: seq<Frame>, p: seq<byte>, cuts: seq<nat>, extra: nat, n: nat)
    requires Scatters(fs, p, cuts, extra) && n < |fs|
    ensures cuts[n] < |p| && Assemble(fs, n) == p[..cuts[n]]
  {
    assert cuts[n] < cuts[|cuts| - 1];
    if n > 0 {
      AssemblePrefix(fs, p, cuts, extra, n - 1);
      ScatteredBlock(fs, p, cuts, extra, n - 1);
      BlockJoins(p, cuts, n - 1);
      hide IsCutting, Permutes, HoldsBlock, BlockAt, BlockOf, Scatters;
      assert BlockOf(fs, n - 1) == BlockAt(p, cuts, n - 1);
    }
  }

  lemma BlockJoins(p: seq<byte>, cuts: seq<nat>, i: nat)
    requires IsCutting(cuts, |p|) && i < |cuts| - 1
    ensures cuts[i] <= cuts[i + 1] <= |p| && p[..cuts[i]] + BlockAt(p, cuts, i) == p[..cuts[i + 1]]
  {
    assert i + 1 < |cuts| - 1 ==> cuts[i + 1] < cuts[|cuts| - 1];
  }

  // In whatever order the frames travel, putting the blocks back in index
  // order gives the packet followed by the padding.
  lemma AssembleScattered(fs: seq<Frame>, p: seq<byte>, cuts: seq<nat>, extra: nat)
    requires Scatters(fs, p, cuts, extra)
    ensures |Assemble(fs, |fs|)| == |p| + extra
    ensures Assemble(fs, |fs|)[..|p|] == p
  {
    var n := |fs| - 1;
    AssemblePrefix(fs, p, cuts, extra, n);
    ScatteredBlock(fs, p, cuts, extra, n);
    var last, block := BlockOf(fs, n), BlockAt(p, cuts, n);
    assert block == p[cuts[n]..];
    hide BlockOf, BlockAt, Scatters, IsCutting;
    assert Assemble(fs, |fs|) == p[..cuts[n]] + last;
    assert last[..|block|] == block;
    assert (p[..cuts[n]] + last)[..|p|] == p[..cuts[n]] + block;
  }
}
