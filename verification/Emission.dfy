// The emission of blocks as a state machine on values: which block is sent
// next, what has been sent, and how many octets are still to be written.

module Emission {
  import opened Bytes
  import opened Frames
  import opened Cuts

  // -----------------------------------------------------------------------
  // The order of emission.

  // The next unused block at or after index i, in cyclic order.
  function Skip(lens: seq<int>, i: nat, fuel: nat): (r: nat)
    requires i < |lens|
    ensures r < |lens|
    decreases fuel
  {
    if fuel == 0 || lens[i] != 0 then i
    else Skip(lens, if i + 1 == |lens| then 0 else i + 1, fuel - 1)
  }

  datatype Cursor = Cursor(idx: nat, bct: nat)

  // The next block to send: each round looks at the next higher bit of the
  // clock; a clear bit passes over one unused block.
  function Advance(lens: seq<int>, c: Cursor, usec: nat): (d: Cursor)
    requires c.idx < |lens| && c.bct > 0
    ensures d.idx < |lens| && d.bct > 0
  {
    var i := Skip(lens, c.idx, 10);
    var bct := if 2 * c.bct > usec then 1 else 2 * c.bct;
    if BitSet(usec, bct) then Cursor(i, bct)
    else Cursor(Skip(lens, if i + 1 == |lens| then 0 else i + 1, 10), bct)
  }

  // The indices sent in n further rounds.
  function Order(lens: seq<int>, c: Cursor, usec: nat, n: nat): seq<nat>
    requires c.idx < |lens| && c.bct > 0
    decreases n
  {
    if n == 0 then []
    else
      var d := Advance(lens, c, usec);
      [d.idx] + Order(lens[d.idx := 0], d, usec, n - 1)
  }

  // All indices in the order of emission: the last block goes first.
  function Schedule(lens: seq<int>, usec: nat): seq<nat>
    requires lens != []
  {
    var last := |lens| - 1;
    [last] + Order(lens[last := 0], Cursor(last, 1), usec, last)
  }

  function Indices(fs: seq<Frame>): (s: seq<nat>)
    ensures |s| == |fs|
  {
    seq(|fs|, k requires 0 <= k < |fs| => fs[k].index)
  }

  // -----------------------------------------------------------------------
  // How much is still to be written.

  // Octets needed by the blocks not yet sent, with their headers.
  function Cost(lens: seq<int>): int {
    if lens == [] then 0
    else Cost(lens[..|lens| - 1]) + (var n := lens[|lens| - 1]; if n == 0 then 0 else n + 3)
  }

  function Unused(lens: seq<int>): (n: nat)
    ensures n <= |lens|
  {
    if lens == [] then 0
    else Unused(lens[..|lens| - 1]) + (if lens[|lens| - 1] == 0 then 0 else 1)
  }

  ghost predicate NonNegative(lens: seq<int>) {
    forall i :: 0 <= i < |lens| ==> lens[i] >= 0
  }

  lemma {:induction false} ClearOne(lens: seq<int>, i: nat)
    requires i < |lens| && lens[i] != 0
    ensures Cost(lens[i := 0]) == Cost(lens) - lens[i] - 3
    ensures Unused(lens[i := 0]) == Unused(lens) - 1
  {
    var n := |lens| - 1;
    if i == n {
      assert lens[i := 0][..n] == lens[..n];
    } else {
      ClearOne(lens[..n], i);
      assert lens[i := 0][..n] == lens[..n][i := 0];
    }
  }

  lemma {:induction false} CostCovers(lens: seq<int>)
    requires NonNegative(lens)
    ensures Cost(lens) >= 4 * Unused(lens)
    ensures Unused(lens) == 0 <==> forall i :: 0 <= i < |lens| ==> lens[i] == 0
    ensures Unused(lens) == 0 ==> Cost(lens) == 0
  {
    if lens != [] {
      CostCovers(lens[..|lens| - 1]);
    }
  }

  function Lengths(cuts: seq<nat>): (s: seq<int>)
    requires |cuts| > 0
    ensures |s| == |cuts| - 1
    ensures forall i :: 0 <= i < |s| ==> cuts[i] + s[i] == cuts[i + 1]
  {
    seq(|cuts| - 1, i requires 0 <= i < |cuts| - 1 => (cuts[i + 1] as int) - cuts[i])
  }

  lemma {:induction false} WholeCost(cuts: seq<nat>, n: nat)
    requires n < |cuts|
    requires forall i, j :: 0 <= i < j < |cuts| ==> cuts[i] < cuts[j]
    ensures Cost(Lengths(cuts)[..n]) == cuts[n] - cuts[0] + 3 * n
    ensures Unused(Lengths(cuts)[..n]) == n
  {
    var s := Lengths(cuts);
    if n > 0 {
      WholeCost(cuts, n - 1);
      assert s[..n][..n - 1] == s[..n - 1];
    }
  }

  // -----------------------------------------------------------------------
  // The invariant of the emission loop.

  // What stays fixed: the packet, its cuts, the padding and the clock.
  datatype Plan = Plan(p: seq<byte>, cuts: seq<nat>, pad: seq<byte>, usec: nat) {
    const extra: nat := |pad|
  }

  // What a round changes: lens[i] == 0 once block i has been sent.
  datatype Stage = Stage(lens: seq<int>, starts: seq<int>, fs: seq<Frame>, cur: Cursor)

  ghost predicate Sound(pl: Plan) {
    && IsCutting(pl.cuts, |pl.p|)
    && 3 <= |pl.cuts| <= MAX_FRAMES
  }

  function Total(pl: Plan): int {
    |pl.p| + 3 * (|pl.cuts| - 1) + pl.extra
  }

  // f holds block f.index, with the padding behind the last block.
  ghost predicate Carries(f: Frame, pl: Plan)
    requires Sound(pl)
  {
    && Printable(f)
    && HoldsBlock(f, pl.p, pl.cuts, pl.extra)
    && f.data[|BlockAt(pl.p, pl.cuts, f.index)|..] == if f.index == |pl.cuts| - 2 then pl.pad else []
  }

  ghost predicate Faithful(fs: seq<Frame>, pl: Plan)
    requires Sound(pl)
  {
    forall k :: 0 <= k < |fs| ==> Carries(fs[k], pl)
  }

  ghost predicate Distinct(fs: seq<Frame>) {
    forall j, k :: 0 <= j < k < |fs| ==> fs[j].index != fs[k].index
  }

  ghost predicate Waiting(lens: seq<int>, starts: seq<int>, cuts: seq<nat>) {
    && |lens| == |starts| == |cuts| - 1
    && NonNegative(lens)
    && forall i :: 0 <= i < |lens| && lens[i] != 0 ==> starts[i] == cuts[i] && cuts[i] + lens[i] == cuts[i + 1]
  }

  ghost predicate Matching(lens: seq<int>, fs: seq<Frame>) {
    forall i :: 0 <= i < |lens| ==> (lens[i] == 0 <==> Carried(fs, i))
  }

  ghost predicate Amount(st: Stage, pl: Plan) {
    && AllPrintable(st.fs)
    && |st.fs| + Unused(st.lens) == |st.lens|
    && |Print(st.fs)| + Cost(st.lens) + (if st.fs == [] then pl.extra else 0) == Total(pl)
    && (st.fs != [] ==> st.lens != [] && st.lens[|st.lens| - 1] == 0)
  }

  ghost predicate OnSchedule(st: Stage, all: seq<int>, usec: nat) {
    var c, lens, fs := st.cur, st.lens, st.fs;
    && |fs| <= |lens| == |all| && all != []
    && c.idx < |lens| && c.bct > 0
    && if fs == [] then lens == all && c == Cursor(|lens| - 1, 1)
       else Indices(fs) + Order(lens, c, usec, |lens| - |fs|) == Schedule(all, usec)
  }

  ghost predicate Inv(st: Stage, pl: Plan) {
    && Sound(pl)
    && Waiting(st.lens, st.starts, pl.cuts)
    && Matching(st.lens, st.fs)
    && Faithful(st.fs, pl)
    && Distinct(st.fs)
    && Amount(st, pl)
    && OnSchedule(st, Lengths(pl.cuts), pl.usec)
  }

  lemma InvStarts(pl: Plan, starts: seq<int>)
    requires Sound(pl) && |starts| == |pl.cuts| - 1
    requires forall i :: 0 <= i < |starts| ==> starts[i] == pl.cuts[i]
    ensures Inv(Stage(Lengths(pl.cuts), starts, [], Cursor(|pl.cuts| - 2, 1)), pl)
  {
    var lens := Lengths(pl.cuts);
    WholeCost(pl.cuts, |lens|);
    assert lens[..|lens|] == lens;
  }

  // A round on which block d.idx was sent in frame f.
  ghost predicate Round(st: Stage, st': Stage, f: Frame, pl: Plan)
    requires Inv(st, pl)
  {
    && st'.cur == (if st.fs == [] then st.cur else Advance(st.lens, st.cur, pl.usec))
    && f.index == st'.cur.idx < |st.lens| && st.lens[f.index] != 0
    && Carries(f, pl)
    && st'.fs == st.fs + [f]
    && st'.lens == st.lens[f.index := 0]
    && |st'.starts| == |st.starts|
    && (forall i :: 0 <= i < |st.starts| && i != f.index ==> st'.starts[i] == st.starts[i])
  }

  lemma MatchingStep(lens: seq<int>, fs: seq<Frame>, f: Frame)
    requires Matching(lens, fs) && f.index < |lens| && lens[f.index] != 0
    ensures Matching(lens[f.index := 0], fs + [f])
  {
    var gs := fs + [f];
    forall i | 0 <= i < |lens|
      ensures Carried(gs, i) <==> Carried(fs, i) || i == f.index
    {
      if Carried(fs, i) {
        var k :| 0 <= k < |fs| && fs[k].index == i;
        assert gs[k].index == i;
      }
      assert gs[|fs|].index == f.index;
    }
  }

  lemma DistinctStep(lens: seq<int>, fs: seq<Frame>, f: Frame)
    requires Matching(lens, fs) && Distinct(fs) && f.index < |lens| && lens[f.index] != 0
    ensures Distinct(fs + [f])
  {
    forall k | 0 <= k < |fs|
      ensures fs[k].index != f.index
    {
      assert fs[k].index == f.index ==> Carried(fs, f.index);
    }
  }

  lemma FrameLength(f: Frame, pl: Plan, st: Stage)
    requires Sound(pl) && Waiting(st.lens, st.starts, pl.cuts) && Carries(f, pl) && st.lens[f.index] != 0
    ensures |f.data| == st.lens[f.index] + (if f.index == |st.lens| - 1 then pl.extra else 0)
  {}

  lemma AmountStep(st: Stage, st': Stage, f: Frame, pl: Plan)
    requires Inv(st, pl) && Round(st, st', f, pl)
    ensures Amount(st', pl)
  {
    hide Faithful, Matching, Distinct, Order, Schedule, Waiting, HoldsBlock, IsCutting, Advance;
    ClearOne(st.lens, f.index);
    assert st'.fs[..|st.fs|] == st.fs && st'.fs[|st.fs|] == f;
    assert Print(st'.fs) == Print(st.fs) + PrintFrame(f);
    FrameLength(f, pl, st);
  }

  lemma Unsent(st: Stage, pl: Plan, i: nat)
    requires Inv(st, pl) && i < |st.lens| && st.lens[i] != 0
    ensures |st.fs| < |st.lens|
  {
    hide Faithful, Matching, Distinct, OnSchedule;
    CostCovers(st.lens);
  }

  lemma OrderUnfold(lens: seq<int>, c: Cursor, usec: nat, n: nat)
    requires c.idx < |lens| && c.bct > 0 && n > 0
    ensures var d := Advance(lens, c, usec);
      Order(lens, c, usec, n) == [d.idx] + Order(lens[d.idx := 0], d, usec, n - 1)
  {}

  lemma OrderStep(all: seq<int>, lens: seq<int>, fs: seq<Frame>, f: Frame, c: Cursor, usec: nat)
    requires |all| == |lens| > |fs| && c.idx < |lens| && c.bct > 0
    requires Indices(fs) + Order(lens, c, usec, |lens| - |fs|) == Schedule(all, usec)
    requires f.index == Advance(lens, c, usec).idx
    ensures Indices(fs + [f]) + Order(lens[f.index := 0], Advance(lens, c, usec), usec, |lens| - |fs| - 1)
         == Schedule(all, usec)
  {
    hide Schedule, Advance, Order, Indices;
    OrderUnfold(lens, c, usec, |lens| - |fs|);
    IndicesOne(fs, f);
    OneFromFront(Indices(fs), f.index, Order(lens[f.index := 0], Advance(lens, c, usec), usec, |lens| - |fs| - 1));
  }

  lemma IndicesOne(fs: seq<Frame>, f: Frame)
    ensures Indices(fs + [f]) == Indices(fs) + [f.index]
  {}

  lemma OneFromFront(s: seq<nat>, x: nat, rest: seq<nat>)
    ensures s + ([x] + rest) == (s + [x]) + rest
  {}

  lemma ScheduleStep(st: Stage, st': Stage, f: Frame, pl: Plan)
    requires Inv(st, pl) && Round(st, st', f, pl)
    ensures OnSchedule(st', Lengths(pl.cuts), pl.usec)
  {
    hide Faithful, Carries, Matching, Distinct, Waiting, Amount, Skip;
    Unsent(st, pl, f.index);
    if st.fs != [] {
      OrderStep(Lengths(pl.cuts), st.lens, st.fs, f, st.cur, pl.usec);
    } else {
      assert Indices(st'.fs) == [f.index];
    }
  }

  lemma WaitingStep(st: Stage, st': Stage, f: Frame, pl: Plan)
    requires Inv(st, pl) && Round(st, st', f, pl)
    ensures Waiting(st'.lens, st'.starts, pl.cuts)
  {
    hide Faithful, Matching, Distinct, OnSchedule, Amount, Carries, Advance;
  }

  lemma FaithfulStep(fs: seq<Frame>, f: Frame, pl: Plan)
    requires Sound(pl) && Faithful(fs, pl) && Carries(f, pl)
    ensures Faithful(fs + [f], pl)
  {
    hide Carries;
  }

  lemma InvStep(st: Stage, st': Stage, f: Frame, pl: Plan)
    requires Inv(st, pl) && Round(st, st', f, pl)
    ensures Inv(st', pl)
  {
    MatchingStep(st.lens, st.fs, f);
    DistinctStep(st.lens, st.fs, f);
    AmountStep(st, st', f, pl);
    ScheduleStep(st, st', f, pl);
    WaitingStep(st, st', f, pl);
    FaithfulStep(st.fs, f, pl);
    hide *;
  }

  // What the loop needs of a block before it is sent.
  lemma Ready(st: Stage, pl: Plan, i: nat)
    requires Inv(st, pl) && i < |st.lens| && st.lens[i] != 0
    ensures |st.lens| == |st.starts| == |pl.cuts| - 1
    ensures st.starts[i] == pl.cuts[i] && pl.cuts[i] + st.lens[i] == pl.cuts[i + 1]
  {}

  lemma Bounds(st: Stage, pl: Plan)
    requires Inv(st, pl)
    ensures Sound(pl) && |st.fs| <= |st.lens| == |pl.cuts| - 1 == |st.starts| && 2 <= |st.lens| <= 7
    ensures st.cur.idx < |st.lens| && st.cur.bct > 0
    ensures NonNegative(st.lens) && AllPrintable(st.fs)
    ensures st.fs == [] ==> st.lens[st.cur.idx] != 0
  {
    hide Faithful, Matching, Distinct, Schedule, Order;
    if st.fs == [] {
      assert pl.cuts[|pl.cuts| - 2] < pl.cuts[|pl.cuts| - 1];
    }
  }

  lemma BlockSpan(pl: Plan, i: nat)
    requires Sound(pl) && i < |pl.cuts| - 1
    ensures pl.cuts[i] < pl.cuts[i + 1] <= |pl.p|
    ensures BlockAt(pl.p, pl.cuts, i) == pl.p[pl.cuts[i]..pl.cuts[i + 1]]
  {
    assert i + 1 < |pl.cuts| - 1 ==> pl.cuts[i + 1] < pl.cuts[|pl.cuts| - 1];
  }

  lemma MakeCarries(f: Frame, pl: Plan)
    requires Sound(pl) && f.index < |pl.cuts| - 1 && Printable(f)
    requires var b := BlockAt(pl.p, pl.cuts, f.index);
      f.data == b + if f.index == |pl.cuts| - 2 then pl.pad else []
    ensures Carries(f, pl)
  {}

  // Until all octets are written some block is unused, and it fits.
  lemma Unfinished(st: Stage, pl: Plan)
    requires Inv(st, pl) && |Print(st.fs)| < Total(pl)
    ensures |st.fs| < |st.lens| && exists i :: 0 <= i < |st.lens| && st.lens[i] != 0
  {
    hide Faithful, Matching, Distinct, OnSchedule;
    CostCovers(st.lens);
  }

  lemma Fits(st: Stage, pl: Plan, i: nat)
    requires Inv(st, pl) && i < |st.lens| && st.lens[i] != 0
    ensures |Print(st.fs)| + 3 + st.lens[i] + (if i == |st.lens| - 1 then pl.extra else 0) <= Total(pl)
  {
    hide Faithful, Matching, Distinct, OnSchedule;
    ClearOne(st.lens, i);
    CostCovers(st.lens[i := 0]);
  }

  // When all octets are written, the frames are the scattered packet.
  lemma Finished(st: Stage, pl: Plan)
    requires Inv(st, pl) && |Print(st.fs)| >= Total(pl)
    ensures Scatters(st.fs, pl.p, pl.cuts, pl.extra)
    ensures Indices(st.fs) == Schedule(Lengths(pl.cuts), pl.usec)
    ensures Faithful(st.fs, pl)
  {
    FinishedAmount(st, pl);
    FinishedFrames(st, pl);
    hide Faithful, Carries, Matching, Distinct, Scatters;
    assert Order(st.lens, st.cur, pl.usec, 0) == [];
  }

  lemma FinishedAmount(st: Stage, pl: Plan)
    requires Inv(st, pl) && |Print(st.fs)| >= Total(pl)
    ensures st.fs != [] && |st.fs| == |st.lens| && forall i :: 0 <= i < |st.lens| ==> st.lens[i] == 0
  {
    hide Faithful, Matching, Distinct, OnSchedule;
    CostCovers(st.lens);
  }

  lemma FinishedFrames(st: Stage, pl: Plan)
    requires Inv(st, pl) && |st.fs| == |st.lens| && forall i :: 0 <= i < |st.lens| ==> st.lens[i] == 0
    ensures Scatters(st.fs, pl.p, pl.cuts, pl.extra)
  {
    hide Amount, OnSchedule, IsCutting;
    forall k | 0 <= k < |st.fs|
      ensures HoldsBlock(st.fs[k], pl.p, pl.cuts, pl.extra)
    {
      assert Carries(st.fs[k], pl);
    }
  }
}
