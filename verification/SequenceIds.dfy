// Packet ids: 32-bit counters that start at 1 and skip 0 when they wrap, and
// the window test by which a receiver picks the key for an id.

module SequenceIds {
  import Bytes

  const WORD := 0x1_0000_0000
  const LAP := WORD - 1   // ids in one lap: 1 to 2^32 - 1

  // Incrementing an id: 0 is used internally and never sent.
  function NextId(id: nat): (r: nat)
    ensures r < WORD
  {
    var r := (id + 1) % WORD;
    if r == 0 then (r + 1) % WORD else r
  }

  // The id of the packet issued after n others.
  function Id(n: nat): nat {
    n % LAP + 1
  }

  lemma NextIdIsId(n: nat)
    ensures NextId(Id(n)) == Id(n + 1)
  {
    Bytes.ModSucc(n, LAP);
  }

  // Ids within one lap of each other differ, and do not wrap while they grow.
  lemma IdAhead(n: nat, d: nat)
    requires d < LAP
    ensures Id(n + d) == if n % LAP + d < LAP then Id(n) + d else Id(n) + d - LAP
  {
    var q, r := n / LAP, n % LAP;
    if r + d < LAP {
      assert n + d == LAP * q + (r + d);
    } else {
      assert n + d == LAP * (q + 1) + (r + d - LAP);
    }
  }

  // Any 2^32 - 1 consecutive ids are distinct.
  lemma IdsDistinct(n: nat, m: nat)
    requires n < m < n + LAP
    ensures Id(n) != Id(m)
  {
    IdAhead(n, m - n);
  }

  // The receiver uses key 1 for id.
  predicate SelectsKey1(rID0: nat, rID1: nat, id: nat) {
    rID1 <= id || id < rID0
  }

  // A packet issued at or after boundary a and within one lap of it selects
  // key 1 exactly when issued at or after boundary b, however late it comes.
  lemma KeyWindow(a: nat, b: nat, n: nat)
    requires a <= b < a + LAP && a <= n < a + LAP
    requires Id(a) <= Id(b)
    ensures SelectsKey1(Id(a), Id(b), Id(n)) <==> n >= b
  {
    IdAhead(a, b - a);
    IdAhead(a, n - a);
  }

  // Once the boundaries have wrapped past each other only key 1 is selected.
  lemma WrappedWindow(a: nat, b: nat, id: nat)
    requires Id(a) > Id(b)
    ensures SelectsKey1(Id(a), Id(b), id)
  {}

  // The test separates the two keys exactly when the boundaries are in order.
  lemma WindowExact(a: nat, b: nat)
    requires a <= b < a + LAP
    ensures (forall n :: a <= n < a + LAP ==> (SelectsKey1(Id(a), Id(b), Id(n)) <==> n >= b)) <==> Id(a) <= Id(b)
  {
    if Id(a) <= Id(b) {
      forall n | a <= n < a + LAP
        ensures SelectsKey1(Id(a), Id(b), Id(n)) <==> n >= b
      {
        KeyWindow(a, b, n);
      }
    } else {
      WrappedWindow(a, b, Id(a));
      assert a < b;
    }
  }

  // One lap after the older boundary is too late: the id is that of the
  // boundary again, and selects key 0.
  lemma WindowTight(a: nat, b: nat)
    requires a < b < a + LAP && Id(a) < Id(b)
    ensures !SelectsKey1(Id(a), Id(b), Id(a + LAP))
  {
    assert a + LAP == LAP * (a / LAP + 1) + a % LAP;
  }

  // A session that has not rekeyed keeps boundary 0, which no id reaches.
  predicate Boundary(raw: nat, n: nat) {
    raw == Id(n) || (raw == 0 && n == 0)
  }

  // A packet of the current generation is read with key 1.
  lemma CurrentSelectsKey1(raw0: nat, raw1: nat, a: nat, b: nat, n: nat)
    requires Boundary(raw0, a) && Boundary(raw1, b)
    requires a <= b <= n < a + LAP
    ensures SelectsKey1(raw0, raw1, Id(n))
  {
    if Id(a) <= Id(b) {
      KeyWindow(a, b, n);
    } else {
      WrappedWindow(a, b, Id(n));
    }
  }
}
