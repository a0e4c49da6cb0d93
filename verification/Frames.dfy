// The layout of an obfuscated packet: a run of frames, each a one-octet block
// index, a two-octet length and the block itself.

module Frames {
  import opened Bytes

  // A receiver looks at no more than this many frames.
  const MAX_FRAMES := 8

  datatype Frame = Frame(index: byte, data: seq<byte>)

  predicate Printable(f: Frame) {
    |f.data| < 0x1_0000
  }

  function PrintFrame(f: Frame): (s: seq<byte>)
    requires Printable(f)
    ensures |s| == 3 + |f.data|
  {
    [f.index, |f.data| / 256, |f.data| % 256] + f.data
  }

  predicate AllPrintable(fs: seq<Frame>) {
    forall k :: 0 <= k < |fs| ==> Printable(fs[k])
  }

  function Print(fs: seq<Frame>): seq<byte>
    requires AllPrintable(fs)
  {
    if fs == [] then [] else Print(fs[..|fs| - 1]) + PrintFrame(fs[|fs| - 1])
  }

  lemma PrintOne(fs: seq<Frame>, f: Frame)
    requires AllPrintable(fs) && Printable(f)
    ensures AllPrintable(fs + [f]) && Print(fs + [f]) == Print(fs) + PrintFrame(f)
  {
    assert (fs + [f])[..|fs|] == fs;
  }

  function HeaderLength(s: seq<byte>): (n: nat)
    requires |s| >= 3
    ensures n < 0x1_0000
  {
    U16(s[1], s[2])
  }

  // A whole frame stands at the front of s.
  predicate StartsWithFrame(s: seq<byte>) {
    |s| >= 3 && |s| >= 3 + HeaderLength(s)
  }

  function FirstFrame(s: seq<byte>): (f: Frame)
    requires StartsWithFrame(s)
    ensures Printable(f)
  {
    Frame(s[0], s[3..3 + HeaderLength(s)])
  }

  lemma FirstFramePrints(s: seq<byte>)
    requires StartsWithFrame(s)
    ensures PrintFrame(FirstFrame(s)) == s[..3 + HeaderLength(s)]
  {
    var h := HeaderLength(s);
    assert h / 256 == s[1] && h % 256 == s[2];
  }

  // Reads frames until the string is used up, as the receiver does.
  function Parse(s: seq<byte>): Option<seq<Frame>> {
    if !StartsWithFrame(s) then None
    else
      var f, n := FirstFrame(s), 3 + HeaderLength(s);
      if n == |s| then Some([f])
      else match Parse(s[n..])
           case None => None
           case Some(fs) => Some([f] + fs)
  }

  lemma PrintLast(fs: seq<Frame>)
    requires AllPrintable(fs) && fs != []
    ensures Print(fs) == Print(fs[..|fs| - 1]) + PrintFrame(fs[|fs| - 1])
  {}

  lemma {:induction false} PrintAppend(fs: seq<Frame>, gs: seq<Frame>)
    requires AllPrintable(fs) && AllPrintable(gs)
    ensures Print(fs + gs) == Print(fs) + Print(gs)
  {
    if gs == [] {
      assert fs + gs == fs;
    } else {
      var front, last := gs[..|gs| - 1], gs[|gs| - 1];
      PrintAppend(fs, front);
      assert (fs + gs)[..|fs + gs| - 1] == fs + front;
      PrintLast(fs + gs);
      PrintLast(gs);
      hide Print, PrintFrame;
      assert Print(fs) + Print(front) + PrintFrame(last) == Print(fs) + (Print(front) + PrintFrame(last));
    }
  }

  // Parsing inverts printing, for any non-empty run of frames.
  lemma {:induction false} ParsePrint(fs: seq<Frame>)
    requires AllPrintable(fs) && fs != []
    ensures Parse(Print(fs)) == Some(fs)
  {
    var head, tail := fs[0], fs[1..];
    var s := Print(fs);
    PrintAppend([head], tail);
    assert fs == [head] + tail;
    assert Print([head]) == PrintFrame(head) by {
      assert [head][..0] == [];
    }
    var n := 3 + |head.data|;
    assert s == PrintFrame(head) + Print(tail);
    assert HeaderLength(s) == |head.data|;
    assert s[..n] == PrintFrame(head);
    assert s[3..n] == s[..n][3..] == head.data;
    assert FirstFrame(s) == head;
    if tail == [] {
      assert |s| == n && fs == [head];
    } else {
      ParsePrint(tail);
      assert s[n..] == Print(tail);
      assert |Print(tail)| > 0;
    }
  }

  lemma ParseUnfold(s: seq<byte>)
    requires Parse(s).Some?
    ensures StartsWithFrame(s)
    ensures var n := 3 + HeaderLength(s);
      if n == |s| then Parse(s) == Some([FirstFrame(s)])
      else Parse(s[n..]).Some? && Parse(s) == Some([FirstFrame(s)] + Parse(s[n..]).value)
  {}

  lemma FirstPrinted(s: seq<byte>)
    requires StartsWithFrame(s)
    ensures AllPrintable([FirstFrame(s)]) && Print([FirstFrame(s)]) == s[..3 + HeaderLength(s)]
  {
    FirstFramePrints(s);
    hide PrintFrame, HeaderLength, FirstFrame;
    PrintOne([], FirstFrame(s));
    assert [] + [FirstFrame(s)] == [FirstFrame(s)];
  }

  // Printing inverts parsing.
  lemma {:induction false} PrintParse(s: seq<byte>)
    requires Parse(s).Some?
    ensures AllPrintable(Parse(s).value) && Print(Parse(s).value) == s
  {
    ParseUnfold(s);
    FirstPrinted(s);
    hide Parse, Print, HeaderLength, FirstFrame, Printable;
    var n := 3 + HeaderLength(s);
    if n < |s| {
      PrintParse(s[n..]);
      PrintAppend([FirstFrame(s)], Parse(s[n..]).value);
    }
    assert s == s[..n] + s[n..];
  }

  // Each index below the number of frames is carried by exactly one frame.
  ghost predicate Permutes(fs: seq<Frame>) {
    && |fs| <= MAX_FRAMES
    && (forall k :: 0 <= k < |fs| ==> fs[k].index < |fs|)
    && (forall j, k :: 0 <= j < k < |fs| ==> fs[j].index != fs[k].index)
    && (forall i :: 0 <= i < |fs| ==> Carried(fs, i))
  }

  ghost predicate Carried(fs: seq<Frame>, i: int) {
    exists k :: 0 <= k < |fs| && fs[k].index == i
  }

  // The block carried under index i; the last one wins, as in a table.
  function BlockOf(fs: seq<Frame>, i: nat): seq<byte> {
    if fs == [] then []
    else if fs[|fs| - 1].index == i then fs[|fs| - 1].data
    else BlockOf(fs[..|fs| - 1], i)
  }

  lemma LastWins(fs: seq<Frame>, f: Frame, i: nat)
    ensures BlockOf(fs + [f], i) == if f.index == i then f.data else BlockOf(fs, i)
  {
    assert (fs + [f])[..|fs|] == fs;
  }

  // Blocks 0 to n - 1 in index order.
  function Assemble(fs: seq<Frame>, n: nat): seq<byte> {
    if n == 0 then [] else Assemble(fs, n - 1) + BlockOf(fs, n - 1)
  }

  lemma {:induction false} BlockOfUnique(fs: seq<Frame>, k: nat)
    requires k < |fs|
    requires forall i, j :: 0 <= i < j < |fs| ==> fs[i].index != fs[j].index
    ensures BlockOf(fs, fs[k].index) == fs[k].data
  {
    if k < |fs| - 1 {
      BlockOfUnique(fs[..|fs| - 1], k);
    }
  }
}
