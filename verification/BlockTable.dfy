// What the receiver's two loops do with a packet, on values: the table of
// blocks they build, the octets they join, and exactly which packets they
// handle without leaving the packet or the table.

module BlockTable {
  import opened Bytes
  import opened Frames

  const SLOTS := 8

  // Where the block of each index lies, if one was found, and its length.
  datatype Table = Table(loc: seq<Option<nat>>, len: seq<int>)

  predicate Shaped(t: Table) {
    |t.loc| == |t.len| == SLOTS && forall i :: 0 <= i < SLOTS && t.loc[i].Some? ==> t.len[i] >= 0
  }

  function Empty(): (t: Table)
    ensures Shaped(t)
  {
    Table(seq(SLOTS, _ => None), seq(SLOTS, _ => 0))
  }

  // The frame whose header stands at offset `at`.
  function EndOf(s: seq<byte>, at: nat): nat
    requires at + 3 <= |s|
  {
    at + 3 + U16(s[at + 1], s[at + 2])
  }

  function Note(t: Table, s: seq<byte>, at: nat): (t': Table)
    requires Shaped(t) && at + 3 <= |s| && s[at] < SLOTS
    ensures Shaped(t')
  {
    Table(t.loc[s[at] := Some(at + 3)], t.len[s[at] := U16(s[at + 1], s[at + 2])])
  }

  // -----------------------------------------------------------------------
  // The loops. None says that an access left the packet or the table.

  // Sorts from the n-th header on, which stands at offset `at`.
  function Sort(s: seq<byte>, at: nat, n: nat, t: Table): (r: Option<(Table, nat)>)
    requires Shaped(t) && n <= SLOTS
    ensures r.Some? ==> Shaped(r.value.0) && n <= r.value.1 <= SLOTS
    decreases SLOTS - n
  {
    if n == SLOTS then Some((t, n))
    else if at + 3 > |s| || s[at] >= SLOTS then None
    else if EndOf(s, at) >= |s| then Some((Note(t, s, at), n + 1))
    else Sort(s, EndOf(s, at), n + 1, Note(t, s, at))
  }

  // The entry behind the last frame is cleared, if there is one.
  function Marked(t: Table, n: nat): (t': Table)
    requires Shaped(t)
    ensures Shaped(t')
  {
    if n < SLOTS then t.(loc := t.loc[n := None]) else t
  }

  predicate Within(s: seq<byte>, t: Table, i: nat)
    requires Shaped(t) && i < SLOTS
  {
    t.loc[i].Some? ==> t.loc[i].value + t.len[i] <= |s|
  }

  // Joins the blocks from index i on, behind k octets in a buffer as large as
  // the packet.
  function Join(s: seq<byte>, t: Table, i: nat, k: nat): (r: Option<seq<byte>>)
    requires Shaped(t) && i <= SLOTS
    ensures r.Some? && k <= |s| ==> k + |r.value| <= |s|
    decreases SLOTS - i
  {
    if i == SLOTS || t.loc[i].None? then Some([])
    else if !Within(s, t, i) || k + t.len[i] > |s| then None
    else
      match Join(s, t, i + 1, k + t.len[i])
      case None => None
      case Some(b) => Some(s[t.loc[i].value..t.loc[i].value + t.len[i]] + b)
  }

  // The packet put back together.
  function Restored(s: seq<byte>): (r: Option<seq<byte>>)
    ensures r.Some? ==> |r.value| <= |s|
  {
    match Sort(s, 0, 0, Empty())
    case None => None
    case Some((t, n)) => Join(s, Marked(t, n), 0, 0)
  }

  // -----------------------------------------------------------------------
  // The packets that are handled, in terms of their octets.

  // The offsets at which headers are looked for, at most eight.
  function Heads(s: seq<byte>, at: nat, n: nat): (hs: seq<nat>)
    requires n <= SLOTS
    ensures n < SLOTS ==> hs != [] && hs[0] == at
    ensures |hs| <= SLOTS - n
    decreases SLOTS - n
  {
    if n == SLOTS then []
    else if at + 3 > |s| || EndOf(s, at) >= |s| then [at]
    else [at] + Heads(s, EndOf(s, at), n + 1)
  }

  // All headers lie in the packet and give an index below eight.
  predicate GoodHeads(s: seq<byte>, hs: seq<nat>) {
    forall k :: 0 <= k < |hs| ==> hs[k] + 3 <= |s| && s[hs[k]] < SLOTS
  }

  ghost predicate Given(s: seq<byte>, hs: seq<nat>, i: nat)
    requires GoodHeads(s, hs)
  {
    exists k :: 0 <= k < |hs| && s[hs[k]] == i
  }

  // The block of index i is joined: no index up to it is missing, nor is it
  // cut off by the mark behind the last frame.
  ghost predicate Used(s: seq<byte>, hs: seq<nat>, i: nat)
    requires GoodHeads(s, hs)
  {
    (forall j :: 0 <= j <= i ==> Given(s, hs, j)) && (|hs| == SLOTS || i < |hs|)
  }

  // Every header is good, and the last frame, the only one that can reach
  // past the end of the packet, does not do so unless its block is not used.
  ghost predicate Safe(s: seq<byte>) {
    var hs := Heads(s, 0, 0);
    && GoodHeads(s, hs)
    && (var last := hs[|hs| - 1]; EndOf(s, last) > |s| ==> !Used(s, hs, s[last]))
  }

  // -----------------------------------------------------------------------
  // The table after all headers hs have been noted.

  function NoteAll(t: Table, s: seq<byte>, hs: seq<nat>): (t': Table)
    requires Shaped(t) && GoodHeads(s, hs)
    ensures Shaped(t')
    decreases |hs|
  {
    if hs == [] then t else NoteAll(Note(t, s, hs[0]), s, hs[1..])
  }

  predicate Whole(s: seq<byte>, at: nat) {
    at + 3 <= |s| && s[at] < SLOTS
  }

  lemma SortCases(s: seq<byte>, at: nat, n: nat, t: Table)
    requires Shaped(t) && n < SLOTS
    ensures !Whole(s, at) ==> Sort(s, at, n, t).None? && Heads(s, at, n)[0] == at
    ensures Whole(s, at) && EndOf(s, at) >= |s| ==>
      Sort(s, at, n, t) == Some((Note(t, s, at), n + 1)) && Heads(s, at, n) == [at] + []
    ensures Whole(s, at) && EndOf(s, at) < |s| ==>
      && Sort(s, at, n, t) == Sort(s, EndOf(s, at), n + 1, Note(t, s, at))
      && Heads(s, at, n) == [at] + Heads(s, EndOf(s, at), n + 1)
  {}

  // Sorting works out when the headers are good, and then notes them all.
  predicate SortsAs(s: seq<byte>, at: nat, n: nat, t: Table)
    requires Shaped(t) && n <= SLOTS
  {
    var hs := Heads(s, at, n);
    && (Sort(s, at, n, t).Some? <==> GoodHeads(s, hs))
    && (GoodHeads(s, hs) ==> Sort(s, at, n, t) == Some((NoteAll(t, s, hs), n + |hs|)))
  }

  lemma SortsOn(s: seq<byte>, at: nat, n: nat, t: Table)
    requires Shaped(t) && n < SLOTS && Whole(s, at) && EndOf(s, at) < |s|
    requires SortsAs(s, EndOf(s, at), n + 1, Note(t, s, at))
    ensures SortsAs(s, at, n, t)
  {
    hide NoteAll, Note, EndOf, Sort, Heads, GoodHeads;
    SortCases(s, at, n, t);
    var rest := Heads(s, EndOf(s, at), n + 1);
    GoodCons(s, at, rest);
    if GoodHeads(s, rest) {
      NoteAllCons(t, s, at, rest);
    }
  }

  lemma SortsLast(s: seq<byte>, at: nat, n: nat, t: Table)
    requires Shaped(t) && n < SLOTS && Whole(s, at) && EndOf(s, at) >= |s|
    ensures SortsAs(s, at, n, t)
  {
    hide NoteAll, Note, EndOf, Sort, Heads, GoodHeads;
    SortCases(s, at, n, t);
    NoteAllNone(Note(t, s, at), s);
    GoodCons(s, at, []);
    NoteAllCons(t, s, at, []);
  }

  lemma {:induction false} SortHeads(s: seq<byte>, at: nat, n: nat, t: Table)
    requires Shaped(t) && n <= SLOTS
    ensures SortsAs(s, at, n, t)
    decreases SLOTS - n
  {
    if n == SLOTS {
      NoteAllNone(t, s);
    } else if !Whole(s, at) {
      hide Sort, Heads, GoodHeads;
      SortCases(s, at, n, t);
      BadHead(s, Heads(s, at, n));
    } else if EndOf(s, at) >= |s| {
      SortsLast(s, at, n, t);
    } else {
      hide SortsAs, Note, EndOf;
      SortHeads(s, EndOf(s, at), n + 1, Note(t, s, at));
      SortsOn(s, at, n, t);
    }
  }

  lemma BadHead(s: seq<byte>, hs: seq<nat>)
    requires hs != [] && !Whole(s, hs[0])
    ensures !GoodHeads(s, hs)
  {}

  lemma GoodCons(s: seq<byte>, at: nat, rest: seq<nat>)
    ensures GoodHeads(s, [at] + rest) <==> at + 3 <= |s| && s[at] < SLOTS && GoodHeads(s, rest)
  {
    var hs := [at] + rest;
    assert hs[0] == at;
    assert forall k :: 0 <= k < |rest| ==> hs[k + 1] == rest[k];
    assert forall k :: 0 < k < |hs| ==> hs[k] == rest[k - 1];
  }

  // All entries are blocks inside the packet, save that of index x.
  predicate Others(s: seq<byte>, t: Table, x: int)
    requires Shaped(t)
  {
    forall i :: 0 <= i < SLOTS && i != x ==> Within(s, t, i)
  }

  lemma NoteOthers(s: seq<byte>, t: Table, at: nat)
    requires Shaped(t) && at + 3 <= |s| && s[at] < SLOTS && Others(s, t, -1)
    ensures Others(s, Note(t, s, at), s[at])
    ensures EndOf(s, at) <= |s| ==> Others(s, Note(t, s, at), -1)
    ensures forall i :: 0 <= i < SLOTS ==> (Note(t, s, at).loc[i].Some? <==> t.loc[i].Some? || s[at] == i)
  {
    var u := Note(t, s, at);
    assert EndOf(s, at) <= |s| ==> Within(s, u, s[at]);
    forall i | 0 <= i < SLOTS && i != s[at]
      ensures Within(s, u, i)
    {
      assert Within(s, t, i) && u.loc[i] == t.loc[i] && u.len[i] == t.len[i];
    }
  }

  lemma NoteAllCons(t: Table, s: seq<byte>, at: nat, rest: seq<nat>)
    requires Shaped(t) && GoodHeads(s, [at] + rest)
    ensures at + 3 <= |s| && s[at] < SLOTS && GoodHeads(s, rest)
    ensures NoteAll(t, s, [at] + rest) == NoteAll(Note(t, s, at), s, rest)
  {
    assert ([at] + rest)[0] == at && ([at] + rest)[1..] == rest;
    GoodCons(s, at, rest);
  }

  lemma HeadsCons(s: seq<byte>, at: nat, n: nat)
    requires n < SLOTS
    ensures at + 3 <= |s| && EndOf(s, at) < |s| ==> Heads(s, at, n) == [at] + Heads(s, EndOf(s, at), n + 1)
    ensures at + 3 > |s| || EndOf(s, at) >= |s| || n + 1 == SLOTS ==> Heads(s, at, n) == [at]
  {}

  // From table t, noting headers hs has led to table t'.
  ghost predicate Noted(s: seq<byte>, t: Table, hs: seq<nat>, t': Table)
    requires Shaped(t) && Shaped(t') && hs != [] && GoodHeads(s, hs)
  {
    var last := hs[|hs| - 1];
    && Others(s, t', s[last])
    && t'.loc[s[last]] == Some(last + 3) && t'.len[s[last]] == U16(s[last + 1], s[last + 2])
    && (forall i :: 0 <= i < SLOTS ==> (t'.loc[i].Some? <==> t.loc[i].Some? || Given(s, hs, i)))
  }

  lemma NotedOne(s: seq<byte>, t: Table, at: nat)
    requires Shaped(t) && at + 3 <= |s| && s[at] < SLOTS && Others(s, t, -1)
    ensures GoodHeads(s, [at]) && Noted(s, t, [at], Note(t, s, at))
  {
    NoteOthers(s, t, at);
    hide Others, Within;
    forall i | 0 <= i < SLOTS
      ensures Given(s, [at], i) <==> s[at] == i
    {
      assert [at] + [] == [at];
      GivenRest(s, at, [], i);
      GivenNone(s, i);
    }
  }

  lemma NotedCons(s: seq<byte>, t: Table, at: nat, rest: seq<nat>, t': Table)
    requires Shaped(t) && Shaped(t') && at + 3 <= |s| && s[at] < SLOTS && rest != []
    requires GoodHeads(s, [at] + rest) && GoodHeads(s, rest) && Others(s, t, -1)
    requires Noted(s, Note(t, s, at), rest, t')
    ensures Noted(s, t, [at] + rest, t')
  {
    NoteOthers(s, t, at);
    var hs := [at] + rest;
    assert hs[|hs| - 1] == rest[|rest| - 1];
    hide Others, Within, Note, Given;
    forall i | 0 <= i < SLOTS
      ensures Given(s, hs, i) <==> s[at] == i || Given(s, rest, i)
    {
      GivenRest(s, at, rest, i);
    }
  }

  lemma {:induction false} NotedTable(s: seq<byte>, at: nat, n: nat, t: Table)
    requires Shaped(t) && n < SLOTS && GoodHeads(s, Heads(s, at, n)) && Others(s, t, -1)
    ensures Noted(s, t, Heads(s, at, n), NoteAll(t, s, Heads(s, at, n)))
    decreases SLOTS - n
  {
    hide Within, Others, Note, NoteAll, Heads, EndOf, Given, GoodHeads, Noted;
    var hs := Heads(s, at, n);
    HeadsCons(s, at, n);
    assert hs[0] == at;
    FirstGood(s, hs);
    var last := EndOf(s, at) >= |s| || n + 1 == SLOTS;
    var rest := if last then [] else Heads(s, EndOf(s, at), n + 1);
    assert hs == [at] + rest;
    NoteAllCons(t, s, at, rest);
    NoteOthers(s, t, at);
    if last {
      NotedOne(s, t, at);
      NoteAllNone(Note(t, s, at), s);
      assert [at] + [] == [at];
    } else {
      NotedTable(s, EndOf(s, at), n + 1, Note(t, s, at));
      NotedCons(s, t, at, rest, NoteAll(t, s, hs));
    }
  }

  lemma FirstGood(s: seq<byte>, hs: seq<nat>)
    requires GoodHeads(s, hs) && hs != []
    ensures hs[0] + 3 <= |s| && s[hs[0]] < SLOTS
  {}

  lemma NoteAllNone(t: Table, s: seq<byte>)
    requires Shaped(t)
    ensures GoodHeads(s, []) && NoteAll(t, s, []) == t
  {}

  lemma GivenNone(s: seq<byte>, i: nat)
    ensures !Given(s, [], i)
  {}

  lemma GivenRest(s: seq<byte>, at: nat, rest: seq<nat>, i: nat)
    requires at < |s| && GoodHeads(s, [at] + rest) && GoodHeads(s, rest)
    ensures Given(s, [at] + rest, i) <==> s[at] == i || Given(s, rest, i)
  {
    var hs := [at] + rest;
    assert hs[0] == at;
    if Given(s, rest, i) {
      var k :| 0 <= k < |rest| && s[rest[k]] == i;
      assert hs[k + 1] == rest[k];
    }
    if Given(s, hs, i) {
      var k :| 0 <= k < |hs| && s[hs[k]] == i;
      assert k > 0 ==> rest[k - 1] == hs[k];
    }
  }

  // -----------------------------------------------------------------------
  // Joining never overruns the buffer unless it reads past the packet.

  function Weight(s: seq<byte>, t: Table, k: nat): nat
    requires Shaped(t) && k <= SLOTS
  {
    if k == 0 then 0
    else Weight(s, t, k - 1) + if t.loc[k - 1].Some? && Within(s, t, k - 1) then t.len[k - 1] else 0
  }

  lemma {:induction false} WeightNote(s: seq<byte>, t: Table, at: nat, k: nat)
    requires Shaped(t) && at + 3 <= |s| && s[at] < SLOTS && k <= SLOTS
    ensures Weight(s, Note(t, s, at), k) <= Weight(s, t, k) +
            if s[at] < k && EndOf(s, at) <= |s| then U16(s[at + 1], s[at + 2]) else 0
  {
    if k > 0 {
      WeightNote(s, t, at, k - 1);
    }
  }

  lemma {:induction false} WeightSort(s: seq<byte>, at: nat, n: nat, t: Table)
    requires Shaped(t) && n <= SLOTS && Sort(s, at, n, t).Some?
    requires Weight(s, t, SLOTS) <= at <= |s|
    ensures Weight(s, Sort(s, at, n, t).value.0, SLOTS) <= |s|
    decreases SLOTS - n
  {
    if n < SLOTS {
      WeightNote(s, t, at, SLOTS);
      if EndOf(s, at) < |s| {
        WeightSort(s, EndOf(s, at), n + 1, Note(t, s, at));
      }
    }
  }

  lemma {:induction false} WeightMarked(s: seq<byte>, t: Table, n: nat, k: nat)
    requires Shaped(t) && k <= SLOTS
    ensures Weight(s, Marked(t, n), k) <= Weight(s, t, k)
  {
    if k > 0 {
      WeightMarked(s, t, n, k - 1);
    }
  }

  lemma {:induction false} WeightEmpty(s: seq<byte>, k: nat)
    requires k <= SLOTS
    ensures Weight(s, Empty(), k) == 0
  {
    if k > 0 {
      WeightEmpty(s, k - 1);
    }
  }

  lemma {:induction false} WeightGrows(s: seq<byte>, t: Table, j: nat, k: nat)
    requires Shaped(t) && j <= k <= SLOTS
    ensures Weight(s, t, j) <= Weight(s, t, k)
  {
    if j < k {
      WeightGrows(s, t, j, k - 1);
    }
  }

  ghost predicate Reached(t: Table, i: nat, j: nat)
    requires Shaped(t) && j < SLOTS
  {
    forall l :: i <= l <= j ==> t.loc[l].Some?
  }

  // Joining works out exactly when every block it reaches is inside.
  lemma {:induction false} JoinExact(s: seq<byte>, t: Table, i: nat, k: nat)
    requires Shaped(t) && i <= SLOTS && k <= Weight(s, t, i) && Weight(s, t, SLOTS) <= |s|
    ensures Join(s, t, i, k).Some? <==> forall j :: i <= j < SLOTS && Reached(t, i, j) ==> Within(s, t, j)
    decreases SLOTS - i
  {
    if i < SLOTS && t.loc[i].Some? {
      assert Reached(t, i, i);
      if Within(s, t, i) {
        WeightGrows(s, t, i + 1, SLOTS);
        JoinExact(s, t, i + 1, k + t.len[i]);
        assert forall j :: i < j < SLOTS ==> (Reached(t, i, j) <==> Reached(t, i + 1, j));
      }
    } else if i < SLOTS {
      assert forall j :: i <= j < SLOTS ==> !Reached(t, i, j);
    }
  }

  lemma MarkedReached(s: seq<byte>, hs: seq<nat>, t: Table, j: nat)
    requires Shaped(t) && GoodHeads(s, hs) && j < SLOTS && |hs| <= SLOTS
    requires forall i :: 0 <= i < SLOTS ==> (t.loc[i].Some? <==> Given(s, hs, i))
    ensures Reached(Marked(t, |hs|), 0, j) <==> Used(s, hs, j)
  {
    hide Given;
    var m := Marked(t, |hs|);
    if |hs| < SLOTS {
      assert m.loc[|hs|] == None;
      assert forall i :: 0 <= i < SLOTS && i != |hs| ==> m.loc[i] == t.loc[i];
    }
    if Reached(m, 0, j) && |hs| < SLOTS {
      assert j < |hs|;
    }
  }

  lemma MarkedWithin(s: seq<byte>, t: Table, n: nat, j: nat)
    requires Shaped(t) && j < SLOTS
    ensures Within(s, t, j) ==> Within(s, Marked(t, n), j)
  {}

  // The loops stay inside the packet and the table exactly on safe packets.
  lemma RestoredExact(s: seq<byte>)
    ensures Restored(s).Some? <==> Safe(s)
  {
    hide Heads, GoodHeads, NoteAll, Sort, Join, Used, Given, Weight, Others;
    var hs := Heads(s, 0, 0);
    SortHeads(s, 0, 0, Empty());
    if GoodHeads(s, hs) {
      NothingNoted(s);
      NotedTable(s, 0, 0, Empty());
      WeightEmpty(s, SLOTS);
      WeightSort(s, 0, 0, Empty());
      SafeTable(s, hs, NoteAll(Empty(), s, hs));
    }
  }

  lemma NothingNoted(s: seq<byte>)
    ensures Others(s, Empty(), -1) && forall i :: 0 <= i < SLOTS ==> Empty().loc[i].None?
  {}

  lemma SafeTable(s: seq<byte>, hs: seq<nat>, t: Table)
    requires hs != [] && |hs| <= SLOTS && GoodHeads(s, hs) && Shaped(t) && Weight(s, t, SLOTS) <= |s|
    requires forall i :: 0 <= i < SLOTS ==> (t.loc[i].Some? <==> Given(s, hs, i))
    requires var last := hs[|hs| - 1];
      Others(s, t, s[last]) && t.loc[s[last]] == Some(last + 3) && t.len[s[last]] == U16(s[last + 1], s[last + 2])
    ensures var last := hs[|hs| - 1];
      Join(s, Marked(t, |hs|), 0, 0).Some? <==> (EndOf(s, last) > |s| ==> !Used(s, hs, s[last]))
  {
    hide Given, Used, Join, Reached, Weight;
    var m, x := Marked(t, |hs|), s[hs[|hs| - 1]];
    WeightMarked(s, t, |hs|, SLOTS);
    WeightNone(s, m);
    JoinExact(s, m, 0, 0);
    forall j | 0 <= j < SLOTS
      ensures Reached(m, 0, j) <==> Used(s, hs, j)
      ensures j != x ==> Within(s, m, j)
    {
      MarkedReached(s, hs, t, j);
      MarkedWithin(s, t, |hs|, j);
    }
    if Used(s, hs, x) {
      ReachedSome(m, x);
      assert m.loc[x] == t.loc[x];
    }
  }

  lemma WeightNone(s: seq<byte>, t: Table)
    requires Shaped(t)
    ensures Weight(s, t, 0) == 0
  {}

  lemma ReachedSome(t: Table, j: nat)
    requires Shaped(t) && j < SLOTS && Reached(t, 0, j)
    ensures t.loc[j].Some?
  {}

  // Packets that are not safe: the first index is too large, or the only
  // block is longer than the packet.
  lemma LargeIndex(s: seq<byte>)
    requires |s| >= 3 && s[0] >= SLOTS
    ensures !Safe(s) && Restored(s).None?
  {
    RestoredExact(s);
    assert Heads(s, 0, 0)[0] == 0;
  }

  lemma LongBlock(s: seq<byte>)
    requires |s| >= 3 && s[0] == 0 && 3 + U16(s[1], s[2]) > |s|
    ensures !Safe(s) && Restored(s).None?
  {
    RestoredExact(s);
    assert Heads(s, 0, 0) == [0];
    assert Given(s, [0], 0) by {
      assert s[[0][0]] == 0;
    }
  }

  // And one that is, though its second block reaches past the end: index 0 is
  // missing, so that no block is used.
  lemma UnusedBlock()
    ensures var s: seq<byte> := [1, 0, 9];
      Safe(s) && Restored(s) == Some([])
  {
    var s: seq<byte> := [1, 0, 9];
    assert EndOf(s, 0) == 12;
    assert Restored(s) == Some([]);
    RestoredExact(s);
  }
}
