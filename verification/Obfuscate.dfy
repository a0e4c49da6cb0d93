// The sender's half of obfuscation: cut the packet, emit its blocks in an
// order driven by the clock, and fill the rest with recycled octets.

module Obfuscate {
  import opened Bytes
  import opened Layout
  import opened Frames
  import opened Cuts
  import opened Emission
  import opened Padding

  // The plan is for the packet in wire image w.
  ghost predicate Fixes(pl: Plan, w: seq<byte>, psize: nat)
    requires HeaderReadable(w) && SESSION_HDR + psize <= |w| && MIN_IP <= psize
  {
    && pl.p == w[SESSION_HDR..SESSION_HDR + psize]
    && |pl.cuts| >= 2 && pl.cuts[|pl.cuts| - 2] <= psize
    && pl.pad == Recycler(w, psize, pl.usec).Repeated(pl.cuts[|pl.cuts| - 2], |pl.pad|)
  }

  // The plan that the size fields and the clock give.
  ghost function PlanFor(w: seq<byte>, psize: nat, blks: nat, extra: nat, usec: nat): (pl: Plan)
    requires HeaderReadable(w) && SESSION_HDR + psize <= |w| && MIN_IP <= psize
    requires 0 < blks && 5 * blks <= psize
    ensures pl.p == w[SESSION_HDR..SESSION_HDR + psize] && pl.cuts == AllCuts(pl.p, blks) && IsCutting(pl.cuts, psize)
    ensures pl.extra == extra && pl.usec == usec && Fixes(pl, w, psize)
  {
    var p := w[SESSION_HDR..SESSION_HDR + psize];
    var cuts := AllCuts(p, blks);
    AllCutsCut(p, blks);
    assert cuts[blks - 1] < cuts[blks];
    Plan(p, cuts, Recycler(w, psize, usec).Repeated(cuts[blks - 1], extra), usec)
  }

  // -----------------------------------------------------------------------

  method SetStarts(packet: array<byte>, psize: nat, blks: nat, work: Work)
    requires 0 < blks <= 7 && 5 * blks <= psize
    requires SESSION_HDR + psize <= packet.Length
    requires work.Valid()
    modifies work.bloc
    ensures var cuts := AllCuts(packet[SESSION_HDR..SESSION_HDR + psize], blks);
      forall i :: 0 <= i < blks ==> work.bloc[i] == cuts[i]
  {
    ghost var p := packet[SESSION_HDR..SESSION_HDR + psize];
    var step := psize / blks;
    var i2 := psize - 1;
    var mask := JitterMask(step);
    work.bloc[0] := 0;
    var bct := step;
    var i := 1;
    while i < blks
      invariant 1 <= i <= blks
      invariant bct == i * step && i2 == psize - i
      invariant forall j :: 0 <= j < i ==> work.bloc[j] == CutAt(p, blks, j)
    {
      var start := bct;
      bct := bct + step;
      var x := packet[SESSION_HDR + i2];
      assert x == p[psize - i];
      assert (i + 1) * step == i * step + step;
      if BitSet(x, 2) {
        start := start - x % (mask + 1);
      } else {
        start := start + x % (mask + 1);
      }
      work.bloc[i] := start;
      i2 := i2 - 1;
      i := i + 1;
    }
  }

  method SetLengths(psize: nat, blks: nat, work: Work, ghost cuts: seq<nat>)
    requires 0 < blks <= 7 && |cuts| == blks + 1 && cuts[blks] == psize
    requires work.Valid() && forall i :: 0 <= i < blks ==> work.bloc[i] == cuts[i]
    modifies work.blen
    ensures work.blen[..blks] == Lengths(cuts)
    ensures work.blen[blks..] == old(work.blen[blks..])
  {
    var i := 0;
    while i < blks - 1
      invariant 0 <= i <= blks - 1
      invariant work.blen[blks..] == old(work.blen[blks..])
      invariant forall j :: 0 <= j < i ==> cuts[j] + work.blen[j] == cuts[j + 1]
    {
      work.blen[i] := work.bloc[i + 1] - work.bloc[i];
      i := i + 1;
    }
    work.blen[i] := psize - work.bloc[i];
    ghost var lens := work.blen[..blks];
    assert forall j :: 0 <= j < blks ==> lens[j] == Lengths(cuts)[j];
  }

  // -----------------------------------------------------------------------

  method NextUnused(work: Work, start: nat, blks: nat, ghost live: nat) returns (idx: nat, found: bool)
    requires work.Valid() && start < blks <= 8
    requires live < blks && work.blen[live] != 0
    ensures found && idx < blks && work.blen[idx] != 0
    ensures idx == Skip(work.blen[..blks], start, 10)
  {
    idx := start;
    var tries := 10;
    while work.blen[idx] == 0
      invariant idx < blks
      invariant tries >= 2 + if idx <= live then live - idx else live - idx + blks
      invariant Skip(work.blen[..blks], idx, tries) == Skip(work.blen[..blks], start, 10)
      decreases tries
    {
      if tries == 0 {
        return idx, false;
      }
      tries := tries - 1;
      idx := idx + 1;
      if idx == blks {
        idx := 0;
      }
    }
    return idx, true;
  }

  // Turns to the block that is sent next.
  method Turn(work: Work, idx: nat, bct: nat, blks: nat, usec: nat, ghost live: nat)
    returns (idx': nat, bct': nat, found: bool)
    requires work.Valid() && idx < blks <= 7 && bct > 0
    requires live < blks && work.blen[live] != 0
    ensures found && idx' < blks && bct' > 0 && work.blen[idx'] != 0
    ensures Cursor(idx', bct') == Advance(work.blen[..blks], Cursor(idx, bct), usec)
  {
    idx', found := NextUnused(work, idx, blks, live);
    bct' := 2 * bct;
    if bct' > usec {
      bct' := 1;
    }
    if !BitSet(usec, bct') {
      idx' := idx' + 1;
      if idx' == blks {
        idx' := 0;
      }
      idx', found := NextUnused(work, idx', blks, live);
    }
  }

  // -----------------------------------------------------------------------

  // One piece of padding; the cursor is kept in bloc[idx].
  method PadOnce(packet: array<byte>, work: Work, at: nat, idx: nat, gulp: nat, psize: nat, dloc: nat, step: nat,
                 ghost src: Source)
    returns (end: nat)
    requires packet != work.buf && work.Valid() && idx < 8
    requires src.Valid() && src == Source(packet[..], psize, dloc, src.gulp, step)
    requires 1 <= gulp <= src.gulp && at + gulp <= work.buf.Length
    requires -3 <= work.bloc[idx] <= psize + 14
    modifies work.buf, work.bloc
    ensures end == at + gulp
    ensures var from := src.From(old(work.bloc[idx]), gulp);
      && work.buf[..end] == old(work.buf[..at]) + src.Octets(from, gulp)
      && work.bloc[..] == old(work.bloc[..])[idx := from + gulp + step]
  {
    if work.bloc[idx] + gulp > psize {
      work.bloc[idx] := dloc + (work.bloc[idx] - psize);
    }
    MemCpy(work.buf, at, packet, SESSION_HDR + work.bloc[idx], gulp);
    end := at + gulp;
    work.bloc[idx] := work.bloc[idx] + step + gulp;
  }

  // Padding a few octets at a time.
  method WritePad(packet: array<byte>, work: Work, at: nat, idx: nat, pad: nat, psize: nat, dloc: nat, usec: nat,
                  ghost src: Source)
    returns (end: nat)
    requires packet != work.buf && work.Valid() && idx < 8
    requires at + pad <= work.buf.Length
    requires src == Source(packet[..], psize, dloc, usec % 4 + 1, usec % 8 + 7) && src.Valid()
    requires 0 <= work.bloc[idx] <= psize
    modifies work.buf, work.bloc
    ensures end == at + pad
    ensures work.buf[..end] == old(work.buf[..at]) + src.Repeated(old(work.bloc[idx]), pad)
    ensures forall i :: 0 <= i < 8 && i != idx ==> work.bloc[i] == old(work.bloc[i])
  {
    hide Source.Repeated, Source.Octets, Source.From;
    var left := pad;
    var step := usec % 8 + 7;
    var gulp := usec % 4 + 1;
    ghost var all := work.buf[..at] + src.Repeated(work.bloc[idx], pad);
    ghost var locs := work.bloc[..];
    end := at;
    while left > 0
      invariant at <= end <= at + pad == end + left
      invariant gulp == src.gulp || left == 0
      invariant -3 <= work.bloc[idx] <= psize + 14
      invariant work.buf[..end] + src.Repeated(work.bloc[idx], left) == all
      invariant work.bloc[..] == locs[idx := work.bloc[idx]]
    {
      Unfold(src, work.bloc[idx], left);
      ghost var done, cursor := work.buf[..end], work.bloc[idx];
      if left < gulp {
        gulp := left;
      }
      ghost var from := src.From(cursor, gulp);
      end := PadOnce(packet, work, end, idx, gulp, psize, dloc, step, src);
      PieceAdded(done, src.Octets(from, gulp), src.Repeated(from + gulp + step, left - gulp), work.buf[..end]);
      left := left - gulp;
    }
    NoPiece(src, work.bloc[idx], work.buf[..end]);
    assert forall i :: 0 <= i < 8 && i != idx ==> work.bloc[..][i] == locs[i];
  }

  method PutHeader(buf: array<byte>, at: nat, idx: byte, total: nat) returns (end: nat)
    requires at + 3 <= buf.Length && total < 0x1_0000
    modifies buf
    ensures end == at + 3
    ensures buf[..end] == old(buf[..at]) + [idx, total / 256, total % 256]
  {
    buf[at] := idx;
    buf[at + 1] := total / 256;
    buf[at + 2] := total % 256;
    end := at + 3;
  }

  // Header and block of one round.
  method EmitBlock(packet: array<byte>, buf: array<byte>, at: nat, idx: byte, from: nat, n: nat, total: nat)
    returns (end: nat)
    requires packet != buf && from + n <= packet.Length
    requires at + 3 + n <= buf.Length && total < 0x1_0000
    modifies buf
    ensures end == at + 3 + n
    ensures buf[..end] == old(buf[..at]) + [idx, total / 256, total % 256] + packet[from..from + n]
  {
    end := PutHeader(buf, at, idx, total);
    MemCpy(buf, end, packet, from, n);
    end := end + n;
  }

  lemma SubSlice(w: seq<byte>, psize: nat, i: nat, j: nat)
    requires SESSION_HDR + psize <= |w| && i <= j <= psize
    ensures w[SESSION_HDR..SESSION_HDR + psize][i..j] == w[SESSION_HDR + i..SESSION_HDR + j]
  {
    var v := w[..SESSION_HDR + psize];
    assert v[SESSION_HDR..][i..j] == v[SESSION_HDR + i..SESSION_HDR + j];
  }

  // What has been written is the frame of the block and its padding.
  lemma PaddedFrame(start: seq<byte>, f: Frame, block: seq<byte>, pad: seq<byte>, front: seq<byte>, written: seq<byte>)
    requires f.data == block + pad && |block| + |pad| < 0x1_0000
    requires front == start + [f.index, (|block| + |pad|) / 256, (|block| + |pad|) % 256] + block
    requires written == front + pad
    ensures written == start + PrintFrame(f)
  {
    assert start + ([f.index, |f.data| / 256, |f.data| % 256] + f.data) == written;
  }

  // The last block: its length field covers the padding.
  method EmitLast(packet: array<byte>, work: Work, at: nat, idx: nat, psize: nat, extra: nat, usec: nat,
                  ghost block: seq<byte>, ghost pad: seq<byte>)
    returns (end: nat, ghost f: Frame)
    requires packet != work.buf && work.Valid() && idx < 8
    requires MIN_IP <= psize && SESSION_HDR + psize <= packet.Length && HeaderReadable(packet[..])
    requires 0 <= work.bloc[idx] && 0 < work.blen[idx] && work.bloc[idx] + work.blen[idx] <= psize
    requires var from := SESSION_HDR + work.bloc[idx]; block == packet[from..from + work.blen[idx]]
    requires pad == Recycler(packet[..], psize, usec).Repeated(work.bloc[idx], extra)
    requires psize + extra < 0x1_0000
    requires at + 3 + work.blen[idx] + extra <= work.buf.Length
    modifies work.buf, work.bloc
    ensures f == Frame(idx, block + pad)
    ensures end == at + 3 + |f.data|
    ensures work.buf[..end] == old(work.buf[..at]) + PrintFrame(f)
    ensures forall i :: 0 <= i < 8 && i != idx ==> work.bloc[i] == old(work.bloc[i])
  {
    hide PrintFrame, HeaderReadable, PadOrigin, Source.Repeated;
    var n := work.blen[idx];
    ghost var start := work.buf[..at];
    ghost var src := Recycler(packet[..], psize, usec);
    var mid := EmitBlock(packet, work.buf, at, idx, SESSION_HDR + work.bloc[idx], n, n + extra);
    ghost var front := work.buf[..mid];
    assert front == start + [idx, (n + extra) / 256, (n + extra) % 256] + block;
    end := WritePad(packet, work, mid, idx, extra, psize, PadOrigin(packet[..], psize), usec, src);
    f := Frame(idx, block + pad);
    PaddedFrame(start, f, block, pad, front, work.buf[..end]);
  }

  lemma WholeFrame(start: seq<byte>, f: Frame)
    requires Printable(f)
    ensures start + [f.index, |f.data| / 256, |f.data| % 256] + f.data == start + PrintFrame(f)
  {}

  // What the plan says of block i, in terms of the wire image.
  lemma PlannedBlock(pl: Plan, w: seq<byte>, psize: nat, i: nat)
    requires HeaderReadable(w) && SESSION_HDR + psize <= |w| && MIN_IP <= psize
    requires Sound(pl) && Fixes(pl, w, psize) && i < |pl.cuts| - 1
    ensures i < 7 && IsCutting(pl.cuts, |pl.p|) && pl.cuts[i] < pl.cuts[i + 1] <= psize
    ensures BlockAt(pl.p, pl.cuts, i) == w[SESSION_HDR + pl.cuts[i]..SESSION_HDR + pl.cuts[i + 1]]
    ensures i == |pl.cuts| - 2 ==> pl.pad == Recycler(w, psize, pl.usec).Repeated(pl.cuts[i], |pl.pad|)
  {
    BlockSpan(pl, i);
    hide IsCutting, Recycler, HeaderReadable, Source.Repeated;
    SubSlice(w, psize, pl.cuts[i], pl.cuts[i + 1]);
  }

  // One round: header, block and, behind the last block, the padding.
  method EmitFrame(packet: array<byte>, work: Work, at: nat, idx: nat, blks: nat, psize: nat, extra: nat, usec: nat,
                   ghost pl: Plan)
    returns (end: nat, ghost f: Frame)
    requires packet != work.buf && work.Valid() && idx < blks
    requires MIN_IP <= psize && SESSION_HDR + psize <= packet.Length && HeaderReadable(packet[..])
    requires Sound(pl) && |pl.cuts| == blks + 1 && Fixes(pl, packet[..], psize) && usec == pl.usec
    requires work.bloc[idx] == pl.cuts[idx] && pl.cuts[idx] + work.blen[idx] == pl.cuts[idx + 1]
    requires extra == pl.extra && psize + extra < 0x1_0000
    requires at + 3 + work.blen[idx] + (if idx == blks - 1 then pl.extra else 0) <= work.buf.Length
    modifies work.buf, work.bloc, work.blen
    ensures f.index == idx && Printable(f) && Carries(f, pl)
    ensures |f.data| == old(work.blen[idx]) + if idx == blks - 1 then extra else 0
    ensures end == at + 3 + |f.data| <= work.buf.Length
    ensures work.buf[..end] == old(work.buf[..at]) + PrintFrame(f)
    ensures work.blen[..] == old(work.blen[..])[idx := 0]
    ensures forall i :: 0 <= i < 8 && i != idx ==> work.bloc[i] == old(work.bloc[i])
  {
    hide IsCutting, HoldsBlock, Sound, Recycler, HeaderReadable, Source.Repeated, Fixes, BlockAt, PrintFrame, Carries;
    PlannedBlock(pl, packet[..], psize, idx);
    ghost var start, block := work.buf[..at], BlockAt(pl.p, pl.cuts, idx);
    var n, from := work.blen[idx], SESSION_HDR + work.bloc[idx];
    if idx == blks - 1 {
      end, f := EmitLast(packet, work, at, idx, psize, extra, usec, block, pl.pad);
    } else {
      end := EmitBlock(packet, work.buf, at, idx, from, n, n);
      f := Frame(idx, block);
      WholeFrame(start, f);
    }
    MakeCarries(f, pl);
    work.blen[idx] := 0;
  }

  // -----------------------------------------------------------------------

  ghost function StageOf(work: Work, blks: nat, fs: seq<Frame>, c: Cursor): Stage
    requires work.Valid() && blks <= 8
    reads work.blen, work.bloc
  {
    Stage(work.blen[..blks], work.bloc[..blks], fs, c)
  }

  // The emission loop has written frames fs, `at` octets in all.
  ghost predicate Emitting(work: Work, blks: nat, fs: seq<Frame>, at: int, c: Cursor, pl: Plan)
    requires work.Valid() && blks <= 8
    reads work.buf, work.blen, work.bloc
  {
    && Inv(StageOf(work, blks, fs, c), pl)
    && 0 <= at <= Total(pl) <= work.buf.Length
    && AllPrintable(fs) && work.buf[..at] == Print(fs)
    && (at > 0 <==> fs != [])
  }

  // A single block leaves the first round with block 1, which is empty.
  ghost predicate Single(work: Work, blks: nat, at: nat, idx: nat)
    requires work.Valid()
    reads work.blen
  {
    blks == 1 && at == 0 && idx == 1 && work.blen[1] == 0
  }

  // One pass through the emission loop. It gives up on an empty block.
  method EmitNext(packet: array<byte>, work: Work, at: nat, idx: nat, bct: nat, psize: nat, len: nat, blks: nat,
                  usec: nat, ghost pl: Plan, ghost fs: seq<Frame>)
    returns (end: nat, idx': nat, bct': nat, ok: bool, ghost f: Frame)
    requires packet != work.buf && work.Valid() && blks <= 7
    requires MIN_IP <= psize && SESSION_HDR + psize <= packet.Length && HeaderReadable(packet[..])
    requires |pl.cuts| == blks + 1 && Fixes(pl, packet[..], psize) && usec == pl.usec
    requires len == Total(pl) == psize + 3 * blks + pl.extra < 0x1_0000 && at < len
    requires Single(work, blks, at, idx) || Emitting(work, blks, fs, at, Cursor(idx, bct), pl)
    modifies work.buf, work.bloc, work.blen
    ensures ok <==> !old(Single(work, blks, at, idx))
    ensures ok ==> end <= len && Emitting(work, blks, fs + [f], end, Cursor(idx', bct'), pl)
    ensures ok ==> at < end && |fs| < blks
  {
    hide Inv, Sound, Carries, Order, Schedule, Advance, Skip, Cost, Unused, Print, HeaderReadable, Fixes;
    ghost var st := StageOf(work, blks, fs, Cursor(idx, bct));
    ghost var single := Single(work, blks, at, idx);
    if !single {
      Bounds(st, pl);
      Unfinished(st, pl);
    }
    var extra := len - (psize + 3 * blks);
    end, idx', bct', ok, f := at, idx, bct, true, Frame(0, []);
    if at > 0 {
      ghost var live :| 0 <= live < blks && st.lens[live] != 0;
      idx', bct', ok := Turn(work, idx, bct, blks, usec, live);
    }
    if !ok || work.blen[idx'] <= 0 {
      return at, idx', bct', false, f;
    }
    Fits(st, pl, idx');
    Ready(st, pl, idx');
    end, f := EmitFrame(packet, work, at, idx', blks, psize, extra, usec, pl);
    InvStep(st, StageOf(work, blks, fs + [f], Cursor(idx', bct')), f, pl);
    PrintOne(fs, f);
  }

  lemma EmissionStarts(work: Work, blks: nat, pl: Plan)
    requires work.Valid() && Sound(pl) && |pl.cuts| == blks + 1 && 0 <= Total(pl) <= work.buf.Length
    requires forall i :: 0 <= i < blks ==> work.bloc[i] == pl.cuts[i]
    requires work.blen[..blks] == Lengths(pl.cuts)
    ensures 2 <= blks <= 7 && Emitting(work, blks, [], 0, Cursor(blks - 1, 1), pl)
  {
    hide Inv, IsCutting;
    InvStarts(pl, work.bloc[..blks]);
  }

  lemma Emitted(work: Work, blks: nat, fs: seq<Frame>, c: Cursor, pl: Plan)
    requires work.Valid() && blks <= 8 && Total(pl) >= 0
    requires Emitting(work, blks, fs, Total(pl), c, pl)
    ensures Sound(pl) && AllPrintable(fs) && work.buf[..Total(pl)] == Print(fs)
    ensures Scatters(fs, pl.p, pl.cuts, pl.extra)
    ensures Indices(fs) == Schedule(Lengths(pl.cuts), pl.usec)
    ensures Faithful(fs, pl)
  {
    hide Print, Scatters, Schedule, Indices, Faithful;
    Finished(StageOf(work, blks, fs, c), pl);
    Bounds(StageOf(work, blks, fs, c), pl);
  }

  // How the loop is entered, with several blocks or with one.
  lemma LoopStarts(work: Work, blks: nat, pl: Plan, psize: nat)
    requires work.Valid() && 1 <= blks <= 7 && |pl.cuts| == blks + 1 && IsCutting(pl.cuts, |pl.p|) && psize == |pl.p|
    requires 0 <= Total(pl) <= work.buf.Length
    requires forall i :: 0 <= i < blks ==> work.bloc[i] == pl.cuts[i]
    requires work.blen[..blks] == Lengths(pl.cuts) && work.blen[blks] == 0
    ensures var idx2 := if blks < 3 then 1 else blks - 1;
      if blks == 1 then Single(work, blks, 0, idx2) else Emitting(work, blks, [], 0, Cursor(idx2, 1), pl)
  {
    hide IsCutting, Emitting;
    if blks > 1 {
      EmissionStarts(work, blks, pl);
    }
  }

  method EmitAll(packet: array<byte>, work: Work, psize: nat, len: nat, blks: nat, usec: nat, ghost pl: Plan)
    returns (stat: int, ghost fs: seq<Frame>)
    requires packet != work.buf && work.Valid() && 1 <= blks <= 7
    requires MIN_IP <= psize && SESSION_HDR + psize <= packet.Length && HeaderReadable(packet[..])
    requires IsCutting(pl.cuts, |pl.p|) && |pl.p| == psize && |pl.cuts| == blks + 1
    requires Fixes(pl, packet[..], psize) && usec == pl.usec
    requires 0 < len == Total(pl) == psize + 3 * blks + pl.extra <= work.buf.Length && len < 0x1_0000
    requires forall i :: 0 <= i < blks ==> work.bloc[i] == pl.cuts[i]
    requires work.blen[..blks] == Lengths(pl.cuts) && work.blen[blks] == 0
    modifies work.buf, work.bloc, work.blen
    ensures stat == if blks == 1 then -1 else 0
    ensures stat == 0 ==> Sound(pl) && AllPrintable(fs) && work.buf[..len] == Print(fs)
    ensures stat == 0 ==> Scatters(fs, pl.p, pl.cuts, pl.extra)
    ensures stat == 0 ==> Indices(fs) == Schedule(Lengths(pl.cuts), usec)
    ensures stat == 0 ==> Faithful(fs, pl)
  {
    hide Sound, Emitting, Single, Faithful, Scatters, Indices, Schedule, HeaderReadable, Fixes, Total, Lengths, Print;
    LoopStarts(work, blks, pl, psize);
    fs := [];
    var idx2 := if blks < 3 then 1 else blks - 1;
    var bct := 1;
    var idx1 := 0;
    var tries := 16;
    while idx1 < len
      invariant 0 <= idx1 <= len && idx2 >= 0 && bct >= 0
      invariant if blks == 1 then Single(work, blks, idx1, idx2) && idx1 == 0 && fs == []
                else Emitting(work, blks, fs, idx1, Cursor(idx2, bct), pl)
      invariant tries == 16 - |fs| && |fs| <= blks
    {
      OneOrMore(work, blks, idx1, idx2);
      if tries == 0 {
        return -1, fs;
      }
      tries := tries - 1;
      var ok;
      ghost var f;
      idx1, idx2, bct, ok, f := EmitNext(packet, work, idx1, idx2, bct, psize, len, blks, usec, pl, fs);
      if !ok {
        return -1, fs;
      }
      fs := fs + [f];
    }
    Emitted(work, blks, fs, Cursor(idx2, bct), pl);
    stat := 0;
  }

  lemma OneOrMore(work: Work, blks: nat, at: nat, idx: nat)
    requires work.Valid()
    ensures Single(work, blks, at, idx) ==> blks == 1
  {}

  // What obfuscation makes of the packet in wire image w at a given clock.
  ghost predicate Obfuscated(fs: seq<Frame>, w: seq<byte>, psize: nat, len: nat, usec: nat)
    requires SESSION_HDR + psize <= |w| && psize + 6 <= len && MIN_IP <= psize
  {
    var blks := ChosenBlocks(psize, len, usec);
    && HeaderReadable(w)
    && var pl := PlanFor(w, psize, blks, len - (psize + 3 * blks), usec);
    && Sound(pl)
    && Scatters(fs, pl.p, pl.cuts, pl.extra)
    && Indices(fs) == Schedule(Lengths(pl.cuts), usec)
    && Faithful(fs, pl)
    && AllPrintable(fs) && |Print(fs)| == len
  }

  // Starts and lengths of the blocks; the entry behind them stays empty.
  method CutUp(packet: array<byte>, psize: nat, blks: nat, work: Work) returns (ghost cuts: seq<nat>)
    requires 0 < blks <= 7 && 5 * blks <= psize && SESSION_HDR + psize <= packet.Length && work.Cleared()
    modifies work.bloc, work.blen
    ensures cuts == AllCuts(packet[SESSION_HDR..SESSION_HDR + psize], blks) && IsCutting(cuts, psize)
    ensures forall i :: 0 <= i < blks ==> work.bloc[i] == cuts[i]
    ensures work.blen[..blks] == Lengths(cuts) && work.blen[blks] == 0
  {
    hide IsCutting, Lengths;
    SetStarts(packet, psize, blks, work);
    ghost var p := packet[SESSION_HDR..SESSION_HDR + psize];
    cuts := AllCuts(p, blks);
    AllCutsCut(p, blks);
    SetLengths(psize, blks, work, cuts);
    assert work.blen[blks] == work.blen[blks..][0] == old(work.blen[blks..])[0] == 0;
  }

  method Scatter(packet: array<byte>, work: Work, psize: nat, len: nat, blks: nat, usec: nat)
    returns (stat: int, ghost fs: seq<Frame>)
    requires work.Cleared() && packet != work.buf && len <= work.buf.Length && len < 0x1_0000
    requires MIN_IP <= psize && SESSION_HDR + psize <= packet.Length && HeaderReadable(packet[..])
    requires psize + 3 <= len && blks == ChosenBlocks(psize, len, usec)
    modifies work.buf, work.blen, work.bloc
    ensures stat == if psize + 6 <= len then 0 else -1
    ensures stat == 0 ==> Obfuscated(fs, packet[..], psize, len, usec) && work.buf[..len] == Print(fs)
  {
    hide AllCuts, Lengths, Scatters, Faithful, Schedule, Indices, IsCutting, PlanFor, Fixes;
    ghost var cuts := CutUp(packet, psize, blks, work);
    ghost var pl := PlanFor(packet[..], psize, blks, len - (psize + 3 * blks), usec);
    stat, fs := EmitAll(packet, work, psize, len, blks, usec, pl);
  }

  method CopyBack(packet: array<byte>, buf: array<byte>, len: nat)
    requires packet != buf && len <= buf.Length && SESSION_HDR + len <= packet.Length
    modifies packet
    ensures packet[..] == old(packet[..SESSION_HDR]) + buf[..len] + old(packet[SESSION_HDR + len..])
  {
    MemCpy(packet, SESSION_HDR, buf, 0, len);
    ghost var w := packet[..];
    assert w == w[..SESSION_HDR + len] + w[SESSION_HDR + len..];
  }

  method Obfuscate(packet: array<byte>, size: nat, work: Work?, usec: nat) returns (stat: int, ghost fs: seq<Frame>)
    requires work != null ==> work.Cleared() && packet != work.buf && size <= work.buf.Length + SESSION_HDR
    requires size < 0x1_0000 && SESSION_HDR + MIN_IP <= size <= packet.Length && HeaderReadable(packet[..])
    requires MIN_IP <= IpLength(packet[..]) <= size - SESSION_HDR
    modifies packet
    modifies if work == null then {} else {work.buf as object, work.blen, work.bloc}
    ensures stat == 0 <==> work != null && size - SESSION_HDR - IpLength(old(packet[..])) >= 6
    ensures stat == 0 ==>
      && Obfuscated(fs, old(packet[..]), IpLength(old(packet[..])), size - SESSION_HDR, usec)
      && packet[..] == old(packet[..SESSION_HDR]) + Print(fs) + old(packet[size..])
    ensures stat != 0 ==> stat == -1 && packet[..] == old(packet[..])
  {
    fs := [];
    if work == null {
      return -1, fs;
    }
    var psize := U16(packet[SESSION_HDR + 2], packet[SESSION_HDR + 3]);
    var len := size - SESSION_HDR;
    var blks := ChosenBlocks(psize, len, usec);
    if blks <= 0 {
      return -1, fs;
    }
    hide Obfuscated, HeaderReadable, ChosenBlocks;
    stat, fs := Scatter(packet, work, psize, len, blks, usec);
    if stat != 0 {
      return stat, fs;
    }
    CopyBack(packet, work.buf, len);
  }
}
