// AES key wrap with the round counter cut to one octet, which is that of
// RFC 3394 for up to 42 half blocks.

module KeyWrap {
  import opened Bytes
  import opened BlockCipher

  const HALF := 8   // octets in half a block

  type Half = s: seq<byte> | |s| == HALF witness seq(HALF, _ => 0)

  const INITIAL: Half := [0xA6, 0xA6, 0xA6, 0xA6, 0xA6, 0xA6, 0xA6, 0xA6]

  // The register A, and R[1] to R[n] end to end.
  datatype State = State(a: Half, r: seq<byte>)

  predicate Fits(s: State, n: nat) {
    |s.r| == HALF * n
  }

  function HalfAt(r: seq<byte>, i: nat): Half
    requires HALF * i + HALF <= |r|
  {
    r[HALF * i..HALF * i + HALF]
  }

  function WithHalf(r: seq<byte>, i: nat, x: Half): (s: seq<byte>)
    requires HALF * i + HALF <= |r|
    ensures |s| == |r|
  {
    r[..HALF * i] + x + r[HALF * i + HALF..]
  }

  // The octet A[7] is combined with what an octet holds of t.
  function Stamp(a: Half, t: nat): Half {
    a[..HALF - 1] + [XorByte(a[HALF - 1], t % 256)]
  }

  // RFC 3394 combines A with the whole of t.
  function FullStamp(a: Half, t: nat): Half {
    XorBytes(a, ToBigEndian(t, HALF))
  }

  // Round t, counted from 1, works on R[(t - 1) % n + 1].
  function Turn(n: nat, t: nat): (i: nat)
    requires n > 0 && t > 0
    ensures HALF * i + HALF <= HALF * n
  {
    (t - 1) % n
  }

  // `full` asks for the stamp of RFC 3394.
  function Round(c: Cipher, n: nat, t: nat, s: State, full: bool): (s': State)
    requires n > 0 && t > 0 && Fits(s, n)
    ensures Fits(s', n)
  {
    var i := Turn(n, t);
    var b := c.enc(s.a + HalfAt(s.r, i));
    State(if full then FullStamp(b[..HALF], t) else Stamp(b[..HALF], t), WithHalf(s.r, i, b[HALF..]))
  }

  function Unround(c: Cipher, n: nat, t: nat, s: State): (s': State)
    requires n > 0 && t > 0 && Fits(s, n)
    ensures Fits(s', n)
  {
    var i := Turn(n, t);
    var b := c.dec(Stamp(s.a, t) + HalfAt(s.r, i));
    State(b[..HALF], WithHalf(s.r, i, b[HALF..]))
  }

  // Rounds 1 to t.
  function Rounds(c: Cipher, n: nat, t: nat, s: State, full: bool): (s': State)
    requires (n > 0 || t == 0) && Fits(s, n)
    ensures Fits(s', n)
  {
    if t == 0 then s else Round(c, n, t, Rounds(c, n, t - 1, s, full), full)
  }

  // Rounds t down to u + 1 undone.
  function Unrounds(c: Cipher, n: nat, t: nat, u: nat, s: State): (s': State)
    requires (n > 0 || t == u) && u <= t && Fits(s, n)
    ensures Fits(s', n)
    decreases t - u
  {
    if t == u then s else Unround(c, n, u + 1, Unrounds(c, n, t, u + 1, s))
  }

  function Wrapped(c: Cipher, data: seq<byte>, full: bool): State
    requires |data| % HALF == 0
  {
    var n := |data| / HALF;
    Rounds(c, n, 6 * n, State(INITIAL, data), full)
  }

  function Unwrapped(c: Cipher, s: State): State
    requires |s.r| % HALF == 0
  {
    var n := |s.r| / HALF;
    Unrounds(c, n, 6 * n, 0, s)
  }

  // -----------------------------------------------------------------------
  // Unwrapping inverts wrapping.

  lemma StampInvolutive(a: Half, t: nat)
    ensures Stamp(Stamp(a, t), t) == a
  {
    XorInvolutive(a[HALF - 1], t % 256);
    assert a == a[..HALF - 1] + [a[HALF - 1]];
  }

  lemma HalfReplaced(r: seq<byte>, i: nat, x: Half)
    requires HALF * i + HALF <= |r|
    ensures HalfAt(WithHalf(r, i, x), i) == x
    ensures forall y: Half :: WithHalf(WithHalf(r, i, x), i, y) == WithHalf(r, i, y)
    ensures WithHalf(r, i, HalfAt(r, i)) == r
  {}

  lemma RoundInverse(c: Cipher, n: nat, t: nat, s: State)
    requires n > 0 && t > 0 && Fits(s, n) && Invertible(c)
    ensures Unround(c, n, t, Round(c, n, t, s, false)) == s
  {
    hide HalfAt, WithHalf, Stamp, Invertible;
    var i := Turn(n, t);
    var x: Block := s.a + HalfAt(s.r, i);
    var b := c.enc(x);
    StampInvolutive(b[..HALF], t);
    HalfReplaced(s.r, i, b[HALF..]);
    assert b[..HALF] + b[HALF..] == b;
    Inverts(c, x);
    assert x[..HALF] == s.a && x[HALF..] == HalfAt(s.r, i);
  }

  lemma Inverts(c: Cipher, b: Block)
    requires Invertible(c)
    ensures c.dec(c.enc(b)) == b
  {}

  lemma {:induction false} RoundsInverse(c: Cipher, n: nat, t: nat, u: nat, s: State)
    requires (n > 0 || t == 0) && u <= t && Fits(s, n) && Invertible(c)
    ensures Unrounds(c, n, t, u, Rounds(c, n, t, s, false)) == Rounds(c, n, u, s, false)
    decreases t - u
  {
    hide Round, Unround, Invertible;
    if u < t {
      RoundsInverse(c, n, t, u + 1, s);
      RoundInverse(c, n, u + 1, Rounds(c, n, u, s, false));
    }
  }

  // Unwrapping what was wrapped gives the data and the initial value, for
  // data of any number of half blocks.
  lemma WrapInverse(c: Cipher, data: seq<byte>)
    requires |data| % HALF == 0 && Invertible(c)
    ensures Unwrapped(c, Wrapped(c, data, false)) == State(INITIAL, data)
  {
    var n := |data| / HALF;
    RoundsInverse(c, n, 6 * n, 0, State(INITIAL, data));
    hide Rounds, Unrounds;
    assert Rounds(c, n, 0, State(INITIAL, data), false) == State(INITIAL, data) by {
      NoRounds(c, n, State(INITIAL, data));
    }
  }

  lemma NoRounds(c: Cipher, n: nat, s: State)
    requires Fits(s, n)
    ensures Rounds(c, n, 0, s, false) == s
  {}

  // -----------------------------------------------------------------------
  // Where it is the algorithm of RFC 3394.

  lemma {:induction false} HighOctets(t: nat, k: nat)
    ensures ToBigEndian(t, k + 1)[k] == t % 256
    ensures ToBigEndian(t, k + 1)[..k] == ToBigEndian(t / 256, k)
  {}

  lemma {:induction false} AllZero(t: nat, k: nat)
    requires t < Pow256(k)
    ensures ToBigEndian(t, k) == Zeros(k) <==> t == 0
  {
    if k > 0 {
      HighOctets(t, k - 1);
      AllZero(t / 256, k - 1);
      var s := ToBigEndian(t, k);
      assert s == s[..k - 1] + [t % 256];
      assert Zeros(k) == Zeros(k - 1) + [0];
      assert t == 0 <==> t / 256 == 0 && t % 256 == 0;
    }
  }

  // The short stamp is the full one exactly when t fits in an octet.
  lemma StampExact(a: Half, t: nat)
    requires t < Pow256(HALF)
    ensures Stamp(a, t) == FullStamp(a, t) <==> t < 256
  {
    hide XorByte, ToBigEndian;
    var k := HALF - 1;
    var s := ToBigEndian(t, HALF);
    HighOctets(t, k);
    ShiftedBound(t, k);
    AllZero(t / 256, k);
    assert s == s[..k] + [s[k]] && a == a[..k] + [a[k]];
    XorConcat(a[..k], [a[k]], s[..k], [s[k]]);
    assert XorBytes([a[k]], [s[k]]) == [XorByte(a[k], s[k])];
    XorSame(a[..k], s[..k]);
    var x := [XorByte(a[k], s[k])];
    assert FullStamp(a, t) == XorBytes(a[..k], s[..k]) + x;
    assert Stamp(a, t) == a[..k] + x;
    assert (a[..k] + x)[..k] == a[..k] && (XorBytes(a[..k], s[..k]) + x)[..k] == XorBytes(a[..k], s[..k]);
  }

  lemma ShiftedBound(t: nat, k: nat)
    requires t < Pow256(k + 1)
    ensures t / 256 < Pow256(k)
  {}

  lemma {:induction false} RoundsAgree(c: Cipher, n: nat, t: nat, s: State)
    requires (n > 0 || t == 0) && Fits(s, n) && t < 256
    ensures Rounds(c, n, t, s, false) == Rounds(c, n, t, s, true)
  {
    hide Stamp, FullStamp, HalfAt, WithHalf;
    if t > 0 {
      RoundsAgree(c, n, t - 1, s);
      var s' := Rounds(c, n, t - 1, s, false);
      var b := c.enc(s'.a + HalfAt(s'.r, Turn(n, t)));
      OctetRange(t);
      StampExact(b[..HALF], t);
    }
  }

  lemma OctetRange(t: nat)
    requires t < 256
    ensures t < Pow256(HALF)
  {
    assert Pow256(HALF) == 256 * Pow256(HALF - 1);
  }

  // With up to 42 half blocks the result is that of section 2.2.1.
  lemma WrapIsRfc3394(c: Cipher, data: seq<byte>)
    requires |data| % HALF == 0 && |data| / HALF <= 42
    ensures Wrapped(c, data, false) == Wrapped(c, data, true)
  {
    var n := |data| / HALF;
    RoundsAgree(c, n, 6 * n, State(INITIAL, data));
  }

  // -----------------------------------------------------------------------
  // Where it is not: under the identity the rounds leave the data as it is
  // and only stamp the register, whose first seven octets tell the two apart.

  const SAME: Cipher := Cipher(b => b, b => b)

  const HIGH: nat := HALF - 1   // octets the short stamp leaves alone

  lemma SameInvertible()
    ensures Invertible(SAME)
  {}

  lemma SameRound(n: nat, t: nat, s: State, full: bool)
    requires n > 0 && t > 0 && Fits(s, n)
    ensures Round(SAME, n, t, s, full) == State(if full then FullStamp(s.a, t) else Stamp(s.a, t), s.r)
  {
    hide Stamp, FullStamp;
    var i := Turn(n, t);
    var b: Block := s.a + HalfAt(s.r, i);
    assert b[..HALF] == s.a && b[HALF..] == HalfAt(s.r, i);
    HalfReplaced(s.r, i, s.a);
  }

  // The high octets of what RFC 3394 combines with A in round t.
  function HighOf(t: nat): (s: seq<byte>)
    ensures |s| == HIGH
  {
    ToBigEndian(t / 256, HIGH)
  }

  lemma StampsHigh(a: Half, t: nat)
    ensures Stamp(a, t)[..HIGH] == a[..HIGH]
    ensures FullStamp(a, t)[..HIGH] == XorBytes(a[..HIGH], HighOf(t))
  {
    hide XorByte, ToBigEndian;
    HighOctets(t, HIGH);
    XorPrefix(a, ToBigEndian(t, HALF), HIGH);
  }

  lemma {:induction false} ShortKeepsHigh(n: nat, t: nat, s: State)
    requires (n > 0 || t == 0) && Fits(s, n)
    ensures Rounds(SAME, n, t, s, false).a[..HIGH] == s.a[..HIGH]
  {
    if t > 0 {
      ShortKeepsHigh(n, t - 1, s);
      var r := Rounds(SAME, n, t - 1, s, false);
      SameRound(n, t, r, false);
      StampsHigh(r.a, t);
    }
  }

  // An even round and the odd one after it cancel.
  lemma {:induction false} FullStampsHigh(n: nat, t: nat, s: State)
    requires (n > 0 || t == 0) && Fits(s, n)
    ensures Rounds(SAME, n, t, s, true).a[..HIGH]
         == if t % 2 == 1 then s.a[..HIGH] else XorBytes(s.a[..HIGH], HighOf(t))
  {
    hide XorBytes, ToBigEndian, Round, HighOf, Rounds;
    RoundsStep(n, t, s);
    if t == 0 {
      HighNone(s.a[..HIGH]);
    } else {
      FullStampsHigh(n, t - 1, s);
      RoundHigh(n, t, Rounds(SAME, n, t - 1, s, true));
      HighAdvances(t, s.a[..HIGH], Rounds(SAME, n, t - 1, s, true).a[..HIGH], Rounds(SAME, n, t, s, true).a[..HIGH]);
    }
  }

  lemma RoundHigh(n: nat, t: nat, r: State)
    requires n > 0 && t > 0 && Fits(r, n)
    ensures Round(SAME, n, t, r, true).a[..HIGH] == XorBytes(r.a[..HIGH], HighOf(t))
  {
    hide Round, XorBytes, HighOf;
    SameRound(n, t, r, true);
    StampsHigh(r.a, t);
  }

  lemma HighAdvances(t: nat, high: seq<byte>, before: seq<byte>, after: seq<byte>)
    requires t > 0 && |high| == HIGH == |before|
    requires before == if (t - 1) % 2 == 1 then high else XorBytes(high, HighOf(t - 1))
    requires after == XorBytes(before, HighOf(t))
    ensures after == if t % 2 == 1 then high else XorBytes(high, HighOf(t))
  {
    hide XorBytes, HighOf;
    if t % 2 == 1 {
      HighPair(t);
      XorBytesInvolutive(high, HighOf(t));
    }
  }

  lemma RoundsStep(n: nat, t: nat, s: State)
    requires (n > 0 || t == 0) && Fits(s, n)
    ensures Rounds(SAME, n, t, s, true)
         == if t == 0 then s else Round(SAME, n, t, Rounds(SAME, n, t - 1, s, true), true)
  {}

  lemma HighNone(high: seq<byte>)
    requires |high| == HIGH
    ensures XorBytes(high, HighOf(0)) == high
  {
    AllZero(0, HIGH);
    XorSame(high, HighOf(0));
  }

  lemma HighPair(t: nat)
    requires t % 2 == 1
    ensures HighOf(t) == HighOf(t - 1)
  {
    hide ToBigEndian;
    assert t % 256 != 0 by {
      assert t == 2 * (128 * (t / 256)) + t % 256;
    }
    DivModUnique(256, (t - 1) / 256, t / 256, (t - 1) % 256, t % 256 - 1);
  }

  // So no data of more than 42 half blocks is wrapped as section 2.2.1 has it.
  lemma LongWrapDiffers(data: seq<byte>)
    requires |data| % HALF == 0 && 42 < |data| / HALF && 6 * (|data| / HALF) < Pow256(HALF)
    ensures Wrapped(SAME, data, false) != Wrapped(SAME, data, true)
  {
    hide Rounds, ToBigEndian, XorBytes, HighOf;
    var n, s := |data| / HALF, State(INITIAL, data);
    ShortKeepsHigh(n, 6 * n, s);
    FullStampsHigh(n, 6 * n, s);
    HighSome(6 * n);
    XorSame(INITIAL[..HIGH], HighOf(6 * n));
    assert 6 * n % 2 == 0;
  }

  lemma HighSome(t: nat)
    requires 256 <= t < Pow256(HALF)
    ensures HighOf(t) != Zeros(HIGH)
  {
    ShiftedBound(t, HIGH);
    AllZero(t / 256, HIGH);
  }

  // The first length that fails: 344 octets.
  lemma WrapOf43(data: seq<byte>)
    requires |data| == 43 * HALF
    ensures Wrapped(SAME, data, false) != Wrapped(SAME, data, true)
  {
    OctetSteps(258);
    LongWrapDiffers(data);
  }

  lemma OctetSteps(t: nat)
    requires t < 0x1_0000
    ensures t < Pow256(HALF)
  {
    assert Pow256(HALF) == 256 * (256 * Pow256(HALF - 2));
  }

  // Wrapping n half blocks is that of section 2.2.1, whatever the data and
  // the cipher, exactly when there are no more than 42.
  lemma WrapRfcExact(n: nat)
    requires 6 * n < Pow256(HALF)
    ensures (forall c: Cipher, data: seq<byte> | Invertible(c) && |data| == HALF * n ::
               Wrapped(c, data, false) == Wrapped(c, data, true))
       <==> n <= 42
  {
    hide Wrapped, Invertible;
    if n <= 42 {
      forall c: Cipher, data: seq<byte> | Invertible(c) && |data| == HALF * n
        ensures Wrapped(c, data, false) == Wrapped(c, data, true)
      {
        WrapIsRfc3394(c, data);
      }
    } else {
      var data := Zeros(HALF * n);
      SameInvertible();
      LongWrapDiffers(data);
    }
  }

  // -----------------------------------------------------------------------
  // In place.

  // Round n * j + i works on half block i.
  lemma RoundIndex(n: nat, j: nat, i: nat)
    requires 1 <= i <= n
    ensures n * j + i > 0 && Turn(n, n * j + i) == i - 1
  {
    var x := n * j + (i - 1);
    assert x == n * (x / n) + x % n;
    DivModUnique(n, j, x / n, i - 1, x % n);
  }

  method PutHalf(a: array<byte>, at: nat, x: Half)
    requires at + HALF <= a.Length
    modifies a
    ensures a[..] == old(a[..at]) + x + old(a[at + HALF..])
  {
    forall k | 0 <= k < HALF {
      a[at + k] := x[k];
    }
  }

  // A round on the register and the half blocks that start at `base`.
  method DoRound(c: Cipher, a: Half, ret: array<byte>, base: nat, n: nat, i: nat, t: nat) returns (a': Half)
    requires 1 <= i <= n && ret.Length == base + HALF * n && t > 0 && Turn(n, t) == i - 1
    modifies ret
    ensures State(a', ret[base..]) == Round(c, n, t, State(a, old(ret[base..])), false)
    ensures ret[..base] == old(ret[..base])
  {
    hide Stamp;
    ghost var r := ret[base..];
    var at := base + HALF * (i - 1);
    assert ret[at..at + HALF] == HalfAt(r, i - 1);
    var b := c.enc(a + ret[at..at + HALF]);
    a' := Stamp(b[..HALF], t);
    PutHalf(ret, at, b[HALF..]);
    assert ret[base..] == WithHalf(r, i - 1, b[HALF..]);
  }

  // The first t rounds have been done.
  ghost predicate Reached(c: Cipher, n: nat, t: int, s: State, a: Half, r: seq<byte>) {
    Fits(s, n) && t >= 0 && (n > 0 || t == 0) && State(a, r) == Rounds(c, n, t, s, false)
  }

  lemma ReachedNext(c: Cipher, n: nat, t: nat, s: State, a: Half, r: seq<byte>, a': Half, r': seq<byte>)
    requires n > 0 && t > 0 && Reached(c, n, t - 1, s, a, r)
    requires State(a', r') == Round(c, n, t, State(a, r), false)
    ensures Reached(c, n, t, s, a', r')
  {}

  // One pass over the half blocks, from round t on.
  method WrapPass(c: Cipher, a: Half, ret: array<byte>, n: nat, j: nat, ghost s: State) returns (a': Half)
    requires ret.Length == HALF + HALF * n && Reached(c, n, n * j, s, a, ret[HALF..])
    modifies ret
    ensures Reached(c, n, n * j + n, s, a', ret[HALF..])
  {
    hide Reached, Round;
    a' := a;
    var t, i := n * j, 1;
    while i < n + 1
      invariant 1 <= i <= n + 1 && t == n * j
      invariant Reached(c, n, t + i - 1, s, a', ret[HALF..])
    {
      RoundIndex(n, j, i);
      ghost var b, r := a', ret[HALF..];
      a' := DoRound(c, a', ret, HALF, n, i, t + i);
      ReachedNext(c, n, t + i, s, b, r, a', ret[HALF..]);
      i := i + 1;
    }
  }

  lemma ReachedStart(c: Cipher, n: nat, data: seq<byte>, r: seq<byte>)
    requires |data| == HALF * n && r == data
    ensures Reached(c, n, 0, State(INITIAL, data), INITIAL, r)
  {}

  lemma ReachedEnd(c: Cipher, n: nat, t: nat, data: seq<byte>, a: Half, r: seq<byte>)
    requires |data| % HALF == 0 && n == |data| / HALF && t == 6 * n && Reached(c, n, t, State(INITIAL, data), a, r)
    ensures Wrapped(c, data, false) == State(a, r)
  {
    hide Rounds;
  }

  lemma NextPass(n: nat, j: nat)
    ensures n * j + n == n * (j + 1)
  {}

  method Encrypt(c: Cipher, data: seq<byte>, ret: array?<byte>) returns (ok: bool)
    requires ret != null ==> ret.Length == |data| + HALF
    modifies if ret == null then {} else {ret}
    ensures ok <==> ret != null && |data| % HALF == 0
    ensures ok ==> var s := Wrapped(c, data, false); ret[..] == s.a + s.r
    ensures !ok && ret != null ==> ret[..] == old(ret[..])
  {
    if ret == null || |data| % HALF != 0 {
      return false;
    }
    hide Reached, Rounds, Wrapped;
    var n := |data| / HALF;
    var a: Half := INITIAL;
    forall k | 0 <= k < n * HALF {
      ret[HALF + k] := data[k];
    }
    ReachedStart(c, n, data, ret[HALF..]);
    ghost var s := State(INITIAL, data);
    var j := 0;
    while j < 6
      invariant 0 <= j <= 6 && Reached(c, n, n * j, s, a, ret[HALF..])
    {
      NextPass(n, j);
      a := WrapPass(c, a, ret, n, j, s);
      j := j + 1;
    }
    ReachedEnd(c, n, n * j, data, a, ret[HALF..]);
    PutHalf(ret, 0, a);
    assert ret[..] == a + ret[HALF..];
    return true;
  }

  method UndoRound(c: Cipher, a: Half, ret: array<byte>, n: nat, i: nat, t: nat) returns (a': Half)
    requires 1 <= i <= n && ret.Length == HALF * n && t > 0 && Turn(n, t) == i - 1
    modifies ret
    ensures State(a', ret[..]) == Unround(c, n, t, State(a, old(ret[..])))
  {
    hide Stamp;
    ghost var r := ret[..];
    var at := HALF * (i - 1);
    assert ret[at..at + HALF] == HalfAt(r, i - 1);
    var b := c.dec(Stamp(a, t) + ret[at..at + HALF]);
    a' := b[..HALF];
    PutHalf(ret, at, b[HALF..]);
    assert ret[..] == WithHalf(r, i - 1, b[HALF..]);
  }

  // Rounds 6n down to t + 1 have been undone.
  ghost predicate Undone(c: Cipher, n: nat, t: int, s: State, a: Half, r: seq<byte>) {
    Fits(s, n) && n > 0 && 0 <= t <= 6 * n && State(a, r) == Unrounds(c, n, 6 * n, t, s)
  }

  lemma UndoneNext(c: Cipher, n: nat, t: nat, s: State, a: Half, r: seq<byte>, a': Half, r': seq<byte>)
    requires n > 0 && t > 0 && Undone(c, n, t, s, a, r)
    requires State(a', r') == Unround(c, n, t, State(a, r))
    ensures Undone(c, n, t - 1, s, a', r')
  {}

  method UnwrapPass(c: Cipher, a: Half, ret: array<byte>, n: nat, j: nat, ghost s: State) returns (a': Half)
    requires ret.Length == HALF * n && Undone(c, n, n * j + n, s, a, ret[..])
    modifies ret
    ensures Undone(c, n, n * j, s, a', ret[..])
  {
    hide Undone, Unround;
    a' := a;
    var t, i := n * j, n as int;
    while i >= 1
      invariant 0 <= i <= n && t == n * j
      invariant Undone(c, n, t + i, s, a', ret[..])
    {
      RoundIndex(n, j, i);
      ghost var b, r := a', ret[..];
      a' := UndoRound(c, a', ret, n, i, t + i);
      UndoneNext(c, n, t + i, s, b, r, a', ret[..]);
      i := i - 1;
    }
  }

  lemma UndoneStart(c: Cipher, n: nat, s: State, r: seq<byte>)
    requires n > 0 && Fits(s, n) && r == s.r
    ensures Undone(c, n, n * 5 + n, s, s.a, r)
  {
    assert n * 5 + n == 6 * n;
  }

  lemma UndoneEnd(c: Cipher, n: nat, t: int, s: State, a: Half, r: seq<byte>)
    requires t == 0 && Undone(c, n, t, s, a, r)
    ensures |s.r| % HALF == 0 && Unwrapped(c, s) == State(a, r)
  {
    hide Unrounds;
  }

  // The status is success whatever the lengths and whatever the register
  // ends as; the register itself is not given out.
  method Decrypt(c: Cipher, data: seq<byte>, ret: array?<byte>) returns (ok: bool, ghost last: Half)
    requires ret != null && |data| >= HALF ==> ret.Length == |data| - HALF
    modifies if ret == null then {} else {ret}
    ensures ok
    ensures ret != null && |data| >= 2 * HALF && |data| % HALF == 0 ==>
      State(last, ret[..]) == Unwrapped(c, State(data[..HALF], data[HALF..]))
    ensures ret != null && (|data| < 2 * HALF || |data| % HALF != 0) ==> ret[..] == old(ret[..])
  {
    ok, last := true, INITIAL;
    if |data| < 16 || ret == null || |data| % HALF != 0 {
      return;
    }
    hide Undone, Unrounds, Unwrapped;
    var n := |data| / HALF - 1;
    var a: Half := data[..HALF];
    forall k | 0 <= k < n * HALF {
      ret[k] := data[HALF + k];
    }
    ghost var s := State(data[..HALF], data[HALF..]);
    UndoneStart(c, n, s, ret[..]);
    var j := 5;
    while j >= 0
      invariant -1 <= j <= 5 && Undone(c, n, n * j + n, s, a, ret[..])
      decreases j
    {
      a := UnwrapPass(c, a, ret, n, j, s);
      assert n * (j - 1) + n == n * j;
      j := j - 1;
    }
    UndoneEnd(c, n, n * j + n, s, a, ret[..]);
    last := a;
  }
}
