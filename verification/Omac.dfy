// OMAC, which is AES-CMAC (RFC 4493): the subkeys by doubling, and the code
// of a message however it is cut into pieces.

module Omac {
  import opened Bytes
  import opened BlockCipher
  import opened Ctr
  import opened Mac

  const RB: Block := Zeros(BLOCK - 1) + [0x87]

  // -----------------------------------------------------------------------
  // Doubling.

  // The string shifted left by one bit, c coming in at the right.
  function ShiftIn(s: seq<byte>, c: nat): (r: seq<byte>)
    requires c < 2
    ensures |r| == |s|
  {
    if s == [] then []
    else
      var last := s[|s| - 1];
      ShiftIn(s[..|s| - 1], last / 128) + [last * 2 % 256 + c]
  }

  // Shifting is doubling, less the bit that falls out at the left.
  lemma {:induction false} ShiftDoubles(s: seq<byte>, c: nat)
    requires c < 2
    ensures BigEndian(ShiftIn(s, c)) + (if s != [] && s[0] >= 128 then Pow256(|s|) else if s == [] then c else 0)
         == 2 * BigEndian(s) + c
  {
    if s != [] {
      var front, last := s[..|s| - 1], s[|s| - 1];
      var r: seq<byte> := ShiftIn(s, c);
      ShiftDoubles(front, last / 128);
      assert r[..|r| - 1] == ShiftIn(front, last / 128);
      assert last == last / 128 * 128 + last % 128;
    }
  }

  // The octets of the shifted string, as a loop from the left finds them.
  lemma {:induction false} ShiftAt(s: seq<byte>, c: nat, i: nat)
    requires c < 2 && i < |s|
    ensures ShiftIn(s, c)[i] == (s[i] as int) * 2 % 256 + (if i + 1 < |s| then s[i + 1] / 128 else c)
  {
    if i < |s| - 1 {
      var last := s[|s| - 1];
      ShiftAt(s[..|s| - 1], last / 128, i);
    }
  }

  // Section 2.3 of RFC 4493: doubling in the field of 128-bit strings.
  function Double(b: Block): Block {
    var twice := ToBigEndian(2 * BigEndian(b) % Pow256(BLOCK), BLOCK);
    if BigEndian(b) >= Pow256(BLOCK) / 2 then XorBlocks(twice, RB) else twice
  }

  lemma TopBit(b: Block)
    ensures b[0] >= 128 <==> BigEndian(b) >= Pow256(BLOCK) / 2
    ensures ShiftIn(b, 0) == ToBigEndian(2 * BigEndian(b) % Pow256(BLOCK), BLOCK)
  {
    ShiftDoubles(b, 0);
    hide ShiftIn, BigEndian, ToBigEndian, Pow256;
    var r, p, v := ShiftIn(b, 0), Pow256(BLOCK), BigEndian(b);
    BigEndianBound(b);
    BigEndianBound(r);
    EvenPower(BLOCK);
    TwiceMod(v, p, b[0] >= 128, BigEndian(r));
    ToBigEndianRoundTrip(r);
  }

  lemma EvenPower(k: nat)
    requires k > 0
    ensures Pow256(k) % 2 == 0
  {
    assert Pow256(k) == 256 * Pow256(k - 1);
  }

  lemma TwiceMod(v: nat, p: nat, top: bool, r: nat)
    requires v < p && r < p && p % 2 == 0 && r + (if top then p else 0) == 2 * v
    ensures (top <==> v >= p / 2) && 2 * v % p == r
  {
    if top {
      assert p * 1 + r == p * (2 * v / p) + 2 * v % p;
      DivModUnique(p, 1, 2 * v / p, r, 2 * v % p);
    } else {
      assert p * 0 + r == p * (2 * v / p) + 2 * v % p;
      DivModUnique(p, 0, 2 * v / p, r, 2 * v % p);
    }
  }

  function SubKey1(e: Permutation): Block {
    Double(e(Zeros(BLOCK)))
  }

  function SubKey2(e: Permutation): Block {
    Double(SubKey1(e))
  }

  // AES-CMAC of a message, section 2.4 of RFC 4493.
  function Cmac(e: Permutation, m: seq<byte>): Block {
    Code(e, SubKey1(e), SubKey2(e), m)
  }

  method ShiftLeft(input: Block) returns (out: array<byte>)
    ensures fresh(out) && out.Length == BLOCK && out[..] == ShiftIn(input, 0)
  {
    hide ShiftIn;
    out := new byte[BLOCK];
    for i := 0 to BLOCK - 1
      invariant forall j :: 0 <= j < i ==> out[j] == ShiftIn(input, 0)[j]
    {
      ShiftAt(input, 0, i);
      out[i] := (input[i] as int) * 2 % 256 + input[i + 1] / 128;
    }
    ShiftAt(input, 0, BLOCK - 1);
    out[BLOCK - 1] := (input[BLOCK - 1] as int) * 2 % 256;
  }

  method GenerateSubKey(input: Block, rb: Block) returns (key: Block)
    requires rb == RB
    ensures key == Double(input)
  {
    hide ShiftIn, BigEndian, ToBigEndian, Pow256;
    TopBit(input);
    var out := ShiftLeft(input);
    if input[0] >= 128 {
      XorAll(out, rb);
    } else {
      // As much work as in the other case, and no change.
      XorFirst(out, rb[0]);
    }
    key := out[..];
  }

  method XorAll(a: array<byte>, b: Block)
    requires a.Length == BLOCK
    modifies a
    ensures a[..] == XorBytes(old(a[..]), b)
  {
    hide XorByte;
    for i := 0 to BLOCK
      invariant forall j :: 0 <= j < i ==> a[j] == XorByte(old(a[j]), b[j])
      invariant forall j :: i <= j < BLOCK ==> a[j] == old(a[j])
    {
      a[i] := XorByte(a[i], b[i]);
    }
  }

  method XorFirst(a: array<byte>, b: byte)
    requires a.Length == BLOCK
    modifies a
    ensures b == 0 ==> a[..] == old(a[..])
  {
    for i := 0 to BLOCK
      invariant b == 0 ==> a[..] == old(a[..])
    {
      XorZero(a[0]);
      a[0] := XorByte(a[0], b);
    }
  }

  method GenerateSubKeys(e: Permutation) returns (k1: Block, k2: Block)
    ensures k1 == SubKey1(e) && k2 == SubKey2(e)
  {
    hide Double;
    k1 := GenerateSubKey(e(Zeros(BLOCK)), RB);
    k2 := GenerateSubKey(k1, RB);
  }

  // -----------------------------------------------------------------------

  // Ends the message held in the state.
  method Final(st: MacState, ghost m: seq<byte>) returns (cmac: Block)
    requires st.Has(m)
    modifies st`pendingLen, st.pending
    ensures cmac == Cmac(st.e, m)
  {
    var k1, k2 := GenerateSubKeys(st.e);
    cmac := st.Finish(k1, k2, m);
  }

  function Joined(pieces: seq<seq<byte>>): seq<byte> {
    if pieces == [] then [] else Joined(pieces[..|pieces| - 1]) + pieces[|pieces| - 1]
  }

  // Updates with any number of pieces of any length.
  method Feed(st: MacState, pieces: seq<seq<byte>>)
    requires st.Has([])
    modifies st`pendingLen, st.pending, st.currBlock
    ensures st.Has(Joined(pieces))
  {
    var i := 0;
    while i < |pieces|
      invariant 0 <= i <= |pieces| && st.Has(Joined(pieces[..i]))
    {
      st.Update(pieces[i], |pieces[i]|, Joined(pieces[..i]));
      assert pieces[..i + 1][..i] == pieces[..i];
      i := i + 1;
    }
    assert pieces[..i] == pieces;
  }

  method CmacOf(e: Permutation, pieces: seq<seq<byte>>) returns (cmac: Block)
    ensures cmac == Cmac(e, Joined(pieces))
  {
    var st := new MacState(e);
    Feed(st, pieces);
    cmac := Final(st, Joined(pieces));
  }
}
