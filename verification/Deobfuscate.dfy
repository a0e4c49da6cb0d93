// The receiver's half of obfuscation: find the blocks, put them back in order.

module Deobfuscate {
  import opened Bytes
  import opened Layout
  import opened Frames
  import opened Cuts
  import opened Emission
  import opened Obfuscate
  import opened BlockTable

  // What the receiver expects of the octets it is given.
  ghost predicate Wellformed(s: seq<byte>) {
    Parse(s).Some? && Permutes(Parse(s).value)
  }

  // The reassembled octets.
  function Reassembled(s: seq<byte>): seq<byte>
    requires Parse(s).Some?
  {
    Assemble(Parse(s).value, |Parse(s).value|)
  }

  lemma {:induction false} AssembleOne(fs: seq<Frame>, n: nat)
    requires fs != []
    ensures |Assemble(fs, n)| <= |Assemble(fs[..|fs| - 1], n)| +
            if fs[|fs| - 1].index < n then |fs[|fs| - 1].data| else 0
  {
    if n > 0 {
      AssembleOne(fs, n - 1);
    }
  }

  // Reassembly never produces more than was received.
  lemma {:induction false} AssembleBound(fs: seq<Frame>, n: nat)
    requires AllPrintable(fs)
    ensures |Assemble(fs, n)| <= |Print(fs)|
  {
    if fs == [] {
      AssembleNothing(n);
    } else {
      AssembleOne(fs, n);
      AssembleBound(fs[..|fs| - 1], n);
    }
  }

  lemma {:induction false} AssembleNothing(n: nat)
    ensures Assemble([], n) == []
  {
    if n > 0 {
      AssembleNothing(n - 1);
    }
  }

  lemma {:induction false} AssembleMonotone(fs: seq<Frame>, m: nat, n: nat)
    requires m <= n
    ensures |Assemble(fs, m)| <= |Assemble(fs, n)|
  {
    if m < n {
      AssembleMonotone(fs, m, n - 1);
    }
  }

  lemma ChosenFits(psize: nat, len: nat, usec: nat)
    requires psize + 6 <= len && MIN_IP <= psize
    ensures var blks := ChosenBlocks(psize, len, usec); 2 <= blks && 5 * blks <= psize && psize + 3 * blks <= len
  {}

  // What obfuscation sends, the receiver accepts and undoes.
  lemma ReassembleObfuscated(fs: seq<Frame>, w: seq<byte>, psize: nat, len: nat, usec: nat)
    requires SESSION_HDR + psize <= |w| && psize + 6 <= len && MIN_IP <= psize
    requires Obfuscated(fs, w, psize, len, usec)
    ensures AllPrintable(fs) && Wellformed(Print(fs)) && |Print(fs)| == len
    ensures var b := Reassembled(Print(fs));
      psize <= |b| <= len && b[..psize] == w[SESSION_HDR..SESSION_HDR + psize]
  {
    hide Faithful, Schedule, Indices, IsCutting, HoldsBlock, Print, Parse, Assemble, AllCuts, ChosenBlocks;
    ChosenFits(psize, len, usec);
    var blks := ChosenBlocks(psize, len, usec);
    var p := w[SESSION_HDR..SESSION_HDR + psize];
    var extra := len - (psize + 3 * blks);
    ParsePrint(fs);
    AssembleScattered(fs, p, AllCuts(p, blks), extra);
    AssembleBound(fs, |fs|);
  }

  // -----------------------------------------------------------------------
  // Frames in order of their headers, and the table of their blocks.

  lemma DropParsed(s: seq<byte>, at: nat)
    requires at <= |s| && StartsWithFrame(s[at..])
    ensures var n := HeaderLength(s[at..]);
      && at + 3 + n <= |s|
      && n == U16(s[at + 1], s[at + 2])
      && FirstFrame(s[at..]) == Frame(s[at], s[at + 3..at + 3 + n])
      && s[at..][3 + n..] == s[at + 3 + n..]
  {}

  // Frame n stands at offset `at`; the rest follows it.
  lemma ParseNext(s: seq<byte>, at: nat, fs: seq<Frame>, n: nat)
    requires at <= |s| && n < |fs| && Parse(s[at..]) == Some(fs[n..])
    ensures at + 3 <= |s|
    ensures var end := at + 3 + U16(s[at + 1], s[at + 2]);
      && end <= |s|
      && fs[n] == Frame(s[at], s[at + 3..end])
      && (end == |s| <==> n + 1 == |fs|)
      && (end < |s| ==> Parse(s[end..]) == Some(fs[n + 1..]))
  {
    DropParsed(s, at);
    assert fs[n..][0] == fs[n] && fs[n..][1..] == fs[n + 1..];
    var f := FirstFrame(s[at..]);
    hide FirstFrame, HeaderLength;
    assert fs[n] == f;
  }

  // The block of frame f is entered at its place in s.
  predicate Found(t: Table, f: Frame, s: seq<byte>)
    requires Shaped(t)
  {
    && f.index < SLOTS
    && t.loc[f.index].Some?
    && t.len[f.index] == |f.data|
    && t.loc[f.index].value + |f.data| <= |s|
    && s[t.loc[f.index].value..t.loc[f.index].value + |f.data|] == f.data
  }

  // What table t says of index i is what frames fs do.
  ghost predicate Entered(t: Table, fs: seq<Frame>, i: nat, s: seq<byte>)
    requires Shaped(t) && i < SLOTS
  {
    if Carried(fs, i) then Found(t, Frame(i, BlockOf(fs, i)), s) else t.loc[i] == None
  }

  ghost predicate Located(t: Table, fs: seq<Frame>, s: seq<byte>)
    requires Shaped(t)
  {
    forall i :: 0 <= i < SLOTS ==> Entered(t, fs, i, s)
  }

  lemma CarriedMore(fs: seq<Frame>, f: Frame, i: int)
    ensures Carried(fs + [f], i) <==> Carried(fs, i) || f.index == i
  {
    var gs := fs + [f];
    if Carried(fs, i) {
      var k :| 0 <= k < |fs| && fs[k].index == i;
      assert gs[k].index == i;
    }
    assert gs[|fs|] == f;
  }

  // One more frame, which replaces an earlier one of its index.
  lemma LocatedMore(t: Table, fs: seq<Frame>, s: seq<byte>, at: nat, f: Frame)
    requires Shaped(t) && Located(t, fs, s) && at + 3 <= |s| && EndOf(s, at) <= |s|
    requires f == Frame(s[at], s[at + 3..EndOf(s, at)]) && f.index < SLOTS
    ensures Located(Note(t, s, at), fs + [f], s)
  {
    forall i: nat | i < SLOTS
      ensures Entered(Note(t, s, at), fs + [f], i, s)
    {
      CarriedMore(fs, f, i);
      LastWins(fs, f, i);
      assert Entered(t, fs, i, s);
    }
  }

  // A packet of whole frames, not more than eight, with indices below eight.
  predicate Indexed(fs: seq<Frame>) {
    |fs| <= SLOTS && forall k :: 0 <= k < |fs| ==> fs[k].index < SLOTS
  }

  // Sorting a packet of frames enters them all.
  lemma {:induction false} SortParsed(s: seq<byte>, at: nat, n: nat, t: Table, fs: seq<Frame>)
    requires at <= |s| && n < |fs| && Parse(s[at..]) == Some(fs[n..]) && Indexed(fs)
    requires Shaped(t) && Located(t, fs[..n], s)
    ensures var r := Sort(s, at, n, t);
      r.Some? && r.value.1 == |fs| && Located(r.value.0, fs, s)
    decreases |fs| - n
  {
    hide Parse, Located, Carried;
    ParseNext(s, at, fs, n);
    assert fs[..n] + [fs[n]] == fs[..n + 1];
    LocatedMore(t, fs[..n], s, at, fs[n]);
    if n + 1 < |fs| {
      SortParsed(s, EndOf(s, at), n + 1, Note(t, s, at), fs);
    } else {
      assert fs[..n + 1] == fs;
    }
  }

  // The blocks that are joined are those in front of the first index missing,
  // and not more than there are frames.
  ghost predicate Leading(fs: seq<Frame>, j: nat) {
    && j <= |fs|
    && (forall i :: 0 <= i < j ==> Carried(fs, i))
    && (j < |fs| ==> !Carried(fs, j))
  }

  // Joining gives them in index order.
  lemma {:induction false} JoinParsed(s: seq<byte>, t: Table, fs: seq<Frame>, i: nat, j: nat)
    requires Shaped(t) && i <= j <= SLOTS && |Assemble(fs, j)| <= |s|
    requires forall n: nat :: n < j ==> Found(t, Frame(n, BlockOf(fs, n)), s)
    requires j < SLOTS ==> t.loc[j].None?
    ensures var r := Join(s, t, i, |Assemble(fs, i)|);
      r.Some? && Assemble(fs, i) + r.value == Assemble(fs, j)
    decreases j - i
  {
    hide BlockOf, Join, Assemble;
    var k := |Assemble(fs, i)|;
    if i < j {
      assert Found(t, Frame(i, BlockOf(fs, i)), s);
      AssembleMonotone(fs, i + 1, j);
      AssembleNext(fs, i);
      JoinParsed(s, t, fs, i + 1, j);
      JoinStep(s, t, i, k, BlockOf(fs, i));
      var r := Join(s, t, i + 1, k + |BlockOf(fs, i)|);
      assert Assemble(fs, i) + (BlockOf(fs, i) + r.value) == Assemble(fs, i + 1) + r.value;
    } else {
      JoinNothing(s, t, i, k);
      assert Assemble(fs, i) + [] == Assemble(fs, i);
    }
  }

  lemma AssembleNext(fs: seq<Frame>, i: nat)
    ensures Assemble(fs, i + 1) == Assemble(fs, i) + BlockOf(fs, i)
  {}

  lemma JoinStep(s: seq<byte>, t: Table, i: nat, k: nat, b: seq<byte>)
    requires Shaped(t) && i < SLOTS && t.loc[i].Some? && t.len[i] == |b| && k + |b| <= |s|
    requires t.loc[i].value + |b| <= |s| && s[t.loc[i].value..t.loc[i].value + |b|] == b
    requires Join(s, t, i + 1, k + |b|).Some?
    ensures Join(s, t, i, k) == Some(b + Join(s, t, i + 1, k + |b|).value)
  {}

  lemma JoinNothing(s: seq<byte>, t: Table, i: nat, k: nat)
    requires Shaped(t) && i <= SLOTS && (i < SLOTS ==> t.loc[i].None?)
    ensures Join(s, t, i, k) == Some([])
  {}

  lemma MarkedLeading(t: Table, fs: seq<Frame>, j: nat, s: seq<byte>)
    requires Shaped(t) && Located(t, fs, s) && |fs| <= SLOTS && Leading(fs, j)
    ensures forall n: nat :: n < j ==> Found(Marked(t, |fs|), Frame(n, BlockOf(fs, n)), s)
    ensures j < SLOTS ==> Marked(t, |fs|).loc[j].None?
  {
    forall n: nat | n < j
      ensures Found(Marked(t, |fs|), Frame(n, BlockOf(fs, n)), s)
    {
      assert Entered(t, fs, n, s);
    }
    if j < |fs| {
      assert Entered(t, fs, j, s);
    }
  }

  // Whole frames are put back in index order, up to the first index missing;
  // of two frames with one index the later counts.
  lemma FramesRestored(s: seq<byte>, fs: seq<Frame>, j: nat)
    requires Parse(s) == Some(fs) && Indexed(fs) && Leading(fs, j)
    ensures Restored(s) == Some(Assemble(fs, j))
  {
    hide Located, Leading, Sort, Join, Assemble, Print, Carried;
    PrintParse(s);
    assert s[0..] == s && fs[0..] == fs;
    assert fs != [] && |Print(fs)| == |s| by {
      ParseUnfold(s);
    }
    LocatedNone(s, fs);
    SortParsed(s, 0, 0, Empty(), fs);
    var t := Sort(s, 0, 0, Empty()).value.0;
    MarkedLeading(t, fs, j, s);
    AssembleBound(fs, j);
    AssembleStart(fs);
    assert j <= SLOTS by {
      LeadingBound(fs, j);
    }
    JoinParsed(s, Marked(t, |fs|), fs, 0, j);
  }

  lemma LeadingBound(fs: seq<Frame>, j: nat)
    requires Leading(fs, j)
    ensures j <= |fs|
  {}

  // A well-formed packet is handled, and put back in order.
  lemma WellformedRestored(s: seq<byte>)
    requires Wellformed(s)
    ensures Parse(s).Some? && Restored(s) == Some(Reassembled(s))
  {
    hide Assemble, Parse;
    var fs := Parse(s).value;
    FramesRestored(s, fs, |fs|);
  }

  lemma LocatedNone(s: seq<byte>, fs: seq<Frame>)
    ensures Located(Empty(), fs[..0], s)
  {}

  lemma AssembleStart(fs: seq<Frame>)
    ensures Assemble(fs, 0) == [] && forall r: seq<byte> :: [] + r == r
  {}

  // -----------------------------------------------------------------------
  // The loops.

  function View(work: Work): Table
    reads work.dloc, work.blen
  {
    Table(work.dloc[..], work.blen[..])
  }

  lemma NothingFound(work: Work)
    requires work.Cleared()
    ensures View(work) == Empty()
  {}

  // Sorts the blocks by index.
  method FindBlocks(packet: array<byte>, size: nat, work: Work) returns (n: nat)
    requires work.Cleared() && size <= packet.Length && Sort(packet[..size], 0, 0, Empty()).Some?
    modifies work.dloc, work.blen
    ensures Shaped(View(work))
    ensures var r := Sort(packet[..size], 0, 0, Empty()).value;
      n == r.1 && View(work) == Marked(r.0, n)
  {
    hide Sort;
    NothingFound(work);
    ghost var s := packet[..size];
    ghost var all := Sort(s, 0, 0, Empty());
    var idx1 := 0;
    n := 0;
    ghost var done := false;
    while n < 8
      invariant 0 <= n <= 8 && 0 <= idx1 && Shaped(View(work)) && work.Valid()
      invariant Sort(s, idx1, n, View(work)) == all
      decreases 8 - n
    {
      ghost var t := View(work);
      SortUnfold(s, idx1, n, t);
      var idx := packet[idx1];
      var len := U16(packet[idx1 + 1], packet[idx1 + 2]);
      work.dloc[idx] := Some(idx1 + 3);
      work.blen[idx] := len;
      assert View(work) == Note(t, s, idx1);
      idx1 := idx1 + 3 + len;
      n := n + 1;
      if idx1 >= size {
        done := true;
        break;
      }
    }
    if !done {
      SortEnd(s, idx1, View(work));
    }
    assert all == Some((View(work), n));
    if n < 8 {
      work.dloc[n] := None;
    }
  }

  lemma SortUnfold(s: seq<byte>, at: nat, n: nat, t: Table)
    requires Shaped(t) && n < SLOTS && Sort(s, at, n, t).Some?
    ensures at + 3 <= |s| && s[at] < SLOTS
    ensures Sort(s, at, n, t) == if EndOf(s, at) >= |s| then Some((Note(t, s, at), n + 1))
                                 else Sort(s, EndOf(s, at), n + 1, Note(t, s, at))
  {}

  lemma SortEnd(s: seq<byte>, at: nat, t: Table)
    requires Shaped(t)
    ensures Sort(s, at, SLOTS, t) == Some((t, SLOTS))
  {}

  // Puts the blocks back in index order.
  method CopyBlocks(packet: array<byte>, size: nat, work: Work) returns (end: nat)
    requires work.Valid() && packet != work.buf && size <= packet.Length && size <= work.buf.Length
    requires Shaped(View(work)) && Join(packet[..size], View(work), 0, 0).Some?
    modifies work.buf
    ensures var b := Join(packet[..size], View(work), 0, 0).value;
      end == |b| <= size && work.buf[..end] == b
  {
    hide Join;
    ghost var s, t := packet[..size], View(work);
    ghost var all := Join(s, t, 0, 0).value;
    var i := 0;
    end := 0;
    assert [] + all == all;
    while i < 8
      invariant 0 <= i <= 8 && 0 <= end <= size
      invariant Join(s, t, i, end).Some? && work.buf[..end] + Join(s, t, i, end).value == all
      decreases 8 - i
    {
      JoinUnfold(s, t, i, end);
      var loc := work.dloc[i];
      if loc == None {
        assert work.buf[..end] + [] == work.buf[..end];
        break;
      }
      ghost var done, block, rest := work.buf[..end], s[loc.value..loc.value + work.blen[i]], end + work.blen[i];
      Regroup(done, block, Join(s, t, i + 1, rest).value);
      end := CopyBlock(packet, size, work, loc.value, work.blen[i], end, block);
      i := i + 1;
    }
    if i == 8 {
      JoinNothing(s, t, SLOTS, end);
      assert work.buf[..end] + [] == work.buf[..end];
    }
  }

  lemma Regroup(a: seq<byte>, b: seq<byte>, c: seq<byte>)
    ensures a + (b + c) == (a + b) + c
  {}

  lemma JoinUnfold(s: seq<byte>, t: Table, i: nat, k: nat)
    requires Shaped(t) && i < SLOTS && Join(s, t, i, k).Some?
    ensures t.loc[i].None? ==> Join(s, t, i, k) == Some([])
    ensures t.loc[i].Some? ==>
      && t.loc[i].value + t.len[i] <= |s| && k + t.len[i] <= |s|
      && Join(s, t, i + 1, k + t.len[i]).Some?
      && Join(s, t, i, k).value
         == s[t.loc[i].value..t.loc[i].value + t.len[i]] + Join(s, t, i + 1, k + t.len[i]).value
  {}

  method CopyBlock(packet: array<byte>, ghost size: nat, work: Work, from: nat, n: nat, at: nat, ghost block: seq<byte>)
    returns (end: nat)
    requires packet != work.buf && from + n <= size <= packet.Length && at + n <= work.buf.Length
    requires packet[..size][from..from + n] == block
    modifies work.buf
    ensures end == at + n && work.buf[..end] == old(work.buf[..at]) + block
  {
    assert packet[..size][from..from + n] == packet[from..from + n];
    MemCpy(work.buf, at, packet, from, n);
    end := at + n;
  }

  // Returns the size the packet's own header gives. Any packet on which the
  // loops stay inside the packet and the table is handled.
  method Deobfuscate(packet: array<byte>, size: nat, work: Work?) returns (stat: int, newSize: nat)
    requires size <= packet.Length
    requires work != null ==> work.Cleared() && packet != work.buf && size <= work.buf.Length && work.buf.Length >= 4
    requires work != null ==> Safe(packet[..size])
    modifies packet
    modifies if work == null then {} else {work.buf as object, work.blen, work.dloc}
    ensures stat == if work == null then -1 else 0
    ensures work == null ==> packet[..] == old(packet[..]) && newSize == size
    ensures work != null ==> Restored(old(packet[..size])).Some?
    ensures work != null ==> var b := Restored(old(packet[..size])).value;
      && |b| <= size && packet[..|b|] == b && packet[size..] == old(packet[size..])
      && (|b| >= 4 ==> newSize == U16(b[2], b[3]))
  {
    if work == null {
      return -1, size;
    }
    hide Safe, Sort, Join;
    ghost var s := packet[..size];
    RestoredExact(s);
    var n := FindBlocks(packet, size, work);
    var end := CopyBlocks(packet, size, work);
    newSize := CopyOut(packet, work.buf, size, end);
    stat := 0;
  }

  method CopyOut(packet: array<byte>, buf: array<byte>, size: nat, ghost end: nat) returns (newSize: nat)
    requires packet != buf && size <= packet.Length && end <= size <= buf.Length && buf.Length >= 4
    modifies packet
    ensures packet[..end] == buf[..end] && packet[size..] == old(packet[size..])
    ensures end >= 4 ==> newSize == U16(buf[..end][2], buf[..end][3])
  {
    MemCpy(packet, 0, buf, 0, size);
    assert packet[..end] == packet[..size][..end] == buf[..size][..end];
    newSize := U16(buf[2], buf[3]);
  }
}
