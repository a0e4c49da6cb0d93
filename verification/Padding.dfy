// The octets behind the last block: the packet over again, a few octets at a
// time, from the start of the last block and then from behind the headers.

module Padding {
  import opened Bytes
  import opened Layout

  // Where recycling restarts: behind the headers unless too little is left.
  function PadOrigin(w: seq<byte>, psize: nat): (d: nat)
    requires HeaderReadable(w)
    ensures d == 0 || d + 0x30 <= psize
  {
    var ihl := HeaderSize(w);
    var d := if w[SESSION_HDR + 9] == 6 then ihl + (w[SESSION_HDR + ihl + 9] / 16) * 4 else ihl;
    if psize < d + 0x30 then 0 else d
  }

  // What is repeated: pieces of `gulp` octets, `step` left out between them,
  // until the cursor passes the end.
  datatype Source = Source(w: seq<byte>, psize: nat, origin: nat, gulp: nat, step: nat) {
    predicate Valid() {
      && SESSION_HDR + psize <= |w| && MIN_IP <= psize
      && (origin == 0 || origin + 0x30 <= psize)
      && 1 <= gulp <= 4 && 7 <= step <= 14
    }

    // Where the piece of n octets is read with the cursor at `at`.
    function From(at: int, n: nat): (from: int)
      requires Valid() && -3 <= at <= psize + 14 && 1 <= n <= gulp
      ensures -3 <= from && from + n <= psize
    {
      if at + n > psize then origin + at - psize else at
    }

    function Piece(n: nat): nat {
      if n < gulp then n else gulp
    }

    function Octets(from: int, n: nat): (s: seq<byte>)
      requires Valid() && -3 <= from && from + n <= psize
      ensures |s| == n
    {
      w[SESSION_HDR + from..SESSION_HDR + from + n]
    }

    // n octets of padding with the cursor at `at`.
    function Repeated(at: int, n: nat): (pad: seq<byte>)
      requires Valid() && -3 <= at <= psize + 14
      ensures |pad| == n
      decreases n
    {
      if n == 0 then []
      else
        var from := From(at, Piece(n));
        Octets(from, Piece(n)) + Repeated(from + Piece(n) + step, n - Piece(n))
    }
  }

  // The source of padding at a given clock.
  function Recycler(w: seq<byte>, psize: nat, usec: nat): (s: Source)
    requires HeaderReadable(w) && SESSION_HDR + psize <= |w| && MIN_IP <= psize
    ensures s.Valid()
  {
    Source(w, psize, PadOrigin(w, psize), usec % 4 + 1, usec % 8 + 7)
  }

  // The octets padding may repeat: the last three in front of the packet,
  // and the packet.
  function Window(w: seq<byte>, psize: nat): seq<byte>
    requires SESSION_HDR + psize <= |w|
  {
    w[SESSION_HDR - 3..SESSION_HDR + psize]
  }

  ghost predicate AllIn(pad: seq<byte>, window: seq<byte>) {
    forall k :: 0 <= k < |pad| ==> pad[k] in window
  }

  lemma PieceIn(s: Source, from: int, n: nat)
    requires s.Valid() && -3 <= from && from + n <= s.psize
    ensures AllIn(s.Octets(from, n), Window(s.w, s.psize))
  {
    var piece, window := s.Octets(from, n), Window(s.w, s.psize);
    forall k | 0 <= k < |piece|
      ensures piece[k] in window
    {
      assert window[from + 3 + k] == piece[k];
    }
  }

  lemma Unfold(s: Source, at: int, n: nat)
    requires s.Valid() && -3 <= at <= s.psize + 14 && n > 0
    ensures var g := s.Piece(n); var from := s.From(at, g);
      && 1 <= g <= n && g <= s.gulp <= 4 && -3 <= from && from + g <= s.psize
      && s.Repeated(at, n) == s.Octets(from, g) + s.Repeated(from + g + s.step, n - g)
  {}

  lemma PieceAdded(done: seq<byte>, piece: seq<byte>, rest: seq<byte>, done': seq<byte>)
    requires done' == done + piece
    ensures done' + rest == done + (piece + rest)
  {}

  lemma NoPiece(s: Source, at: int, done: seq<byte>)
    requires s.Valid() && -3 <= at <= s.psize + 14
    ensures done + s.Repeated(at, 0) == done
  {}

  lemma AllJoin(a: seq<byte>, b: seq<byte>, window: seq<byte>)
    requires AllIn(a, window) && AllIn(b, window)
    ensures AllIn(a + b, window)
  {}

  // Nothing but octets of the window goes into padding.
  lemma {:induction false} PadRecycles(s: Source, at: int, n: nat)
    requires s.Valid() && -3 <= at <= s.psize + 14
    ensures AllIn(s.Repeated(at, n), Window(s.w, s.psize))
    decreases n
  {
    hide Window, AllIn, Source.Repeated, Source.Octets, Source.From, Source.Piece;
    if n > 0 {
      Unfold(s, at, n);
      var g := s.Piece(n);
      var from := s.From(at, g);
      PieceIn(s, from, g);
      PadRecycles(s, from + g + s.step, n - g);
      AllJoin(s.Octets(from, g), s.Repeated(from + g + s.step, n - g), Window(s.w, s.psize));
    } else {
      NoneIn(s.Repeated(at, 0), Window(s.w, s.psize));
    }
  }

  lemma NoneIn(pad: seq<byte>, window: seq<byte>)
    requires |pad| == 0
    ensures AllIn(pad, window)
  {}

  // Where the piece with octet k starts, counted from the cursor, and where
  // in it the octet is.
  function Place(s: Source, k: nat): (p: (nat, nat))
    requires s.Valid()
    ensures p.1 < s.gulp
  {
    if k < s.gulp then (0, k)
    else
      var (start, i) := Place(s, k - s.gulp);
      (s.gulp + s.step + start, i)
  }

  lemma {:induction false} PlaceIs(s: Source, k: nat)
    requires s.Valid()
    ensures Place(s, k) == (k / s.gulp * (s.gulp + s.step), k % s.gulp)
  {
    if k >= s.gulp {
      PlaceIs(s, k - s.gulp);
      OnePiece(k, s.gulp, s.gulp + s.step);
    } else {
      assert k / s.gulp == 0;
    }
  }

  // Up to the end of the packet octet k is at a fixed place.
  lemma {:induction false} RepeatedAt(s: Source, at: nat, n: nat, k: nat)
    requires s.Valid() && k < n && at + Place(s, k).0 + s.gulp <= s.psize
    ensures s.Repeated(at, n)[k] == s.w[SESSION_HDR + at + Place(s, k).0 + Place(s, k).1]
    decreases k
  {
    hide Source.Repeated, Source.Octets;
    PlaceStep(s, k);
    if k >= s.gulp {
      FurtherPieces(s, at, n, k);
      RepeatedAt(s, at + s.gulp + s.step, n - s.gulp, k - s.gulp);
    } else {
      FirstPiece(s, at, n, k);
    }
  }

  lemma PlaceStep(s: Source, k: nat)
    requires s.Valid()
    ensures k < s.gulp ==> Place(s, k) == (0, k)
    ensures k >= s.gulp ==>
      && Place(s, k).0 == Place(s, k - s.gulp).0 + s.gulp + s.step
      && Place(s, k).1 == Place(s, k - s.gulp).1
  {}

  lemma FirstPiece(s: Source, at: nat, n: nat, k: nat)
    requires s.Valid() && k < n && k < s.gulp && at + s.gulp <= s.psize
    ensures s.Repeated(at, n)[k] == s.w[SESSION_HDR + at + k]
  {
    Unfold(s, at, n);
    hide Source.Repeated;
  }

  lemma FurtherPieces(s: Source, at: nat, n: nat, k: nat)
    requires s.Valid() && s.gulp <= k < n && at + s.gulp <= s.psize
    ensures s.Repeated(at, n)[k] == s.Repeated(at + s.gulp + s.step, n - s.gulp)[k - s.gulp]
  {
    hide Source.Repeated, Source.Octets, Source.From, Source.Piece;
    Unfold(s, at, n);
    StraightOn(s, at, n);
    Behind(s.Octets(at, s.gulp), s.Repeated(at + s.gulp + s.step, n - s.gulp), k);
  }

  lemma StraightOn(s: Source, at: nat, n: nat)
    requires s.Valid() && s.gulp <= n && at + s.gulp <= s.psize
    ensures s.Piece(n) == s.gulp && s.From(at, s.gulp) == at
  {}

  lemma Behind(a: seq<byte>, b: seq<byte>, k: nat)
    requires |a| <= k < |a| + |b|
    ensures (a + b)[k] == b[k - |a|]
  {}

  lemma OnePiece(k: nat, g: nat, d: nat)
    requires 0 < g <= k
    ensures (k - g) / g == k / g - 1 && (k - g) % g == k % g
    ensures k / g * d == (k - g) / g * d + d
  {
    DivModUnique(g, (k - g) / g, k / g - 1, (k - g) % g, k % g);
  }

  // Pieces of one to four octets, by the low two bits of the clock, and seven
  // to fourteen left out between them, by the low three.
  lemma PadAt(w: seq<byte>, psize: nat, usec: nat, at: nat, n: nat, k: nat)
    requires HeaderReadable(w) && 28 + psize <= |w| && 20 <= psize && k < n
    requires var g := usec % 4 + 1; at + k / g * (g + usec % 8 + 7) + g <= psize
    ensures var g := usec % 4 + 1; var i := 28 + at + k / g * (g + usec % 8 + 7) + k % g;
      && 0 <= at <= psize + 14
      && 0 <= i < |w| && Recycler(w, psize, usec).Repeated(at, n)[k] == w[i]
  {
    var s := Recycler(w, psize, usec);
    PlaceIs(s, k);
    hide HeaderReadable, PadOrigin, Source.Repeated;
    RepeatedAt(s, at, n, k);
  }

  // A piece that would pass the end is taken from as far behind the origin as
  // the cursor is behind the end; a cursor a little short of the end starts
  // in front of the origin.
  lemma PadWraps(w: seq<byte>, psize: nat, usec: nat, at: int, n: nat)
    requires HeaderReadable(w) && 28 + psize <= |w| && 20 <= psize
    requires psize <= at + usec % 4 && at <= psize + 14 && usec % 4 + 1 <= n
    ensures var from := 28 + PadOrigin(w, psize) + at - psize; var g := usec % 4 + 1;
      && at >= -3 && 0 <= from && from + g <= |w|
      && Recycler(w, psize, usec).Repeated(at, n)[..g] == w[from..from + g]
  {
    hide PadOrigin, HeaderReadable;
  }

  // The origin for UDP and for TCP packets with a header of 20 octets.
  lemma Origins(w: seq<byte>, psize: nat)
    requires HeaderReadable(w) && w[28] == 0x45
    ensures w[37] == 17 ==> PadOrigin(w, psize) == (if psize >= 68 then 20 else 0)
    ensures w[37] == 6 ==>
      var d := 20 + w[57] / 16 * 4;
      PadOrigin(w, psize) == if psize >= d + 48 then d else 0
  {}
}
