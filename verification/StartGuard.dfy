// Starting to rekey draws the new keys before it looks at the rekey flag, so
// the test its caller makes is what keeps an offer in progress intact.

module StartGuard {
  import opened Bytes
  import opened SequenceIds
  import opened SessionSpec
  import opened RekeyProtocol
  import opened RekeyInvariant
  import opened RekeySafety

  // The start of rekeying without the caller's test.
  function Unguarded(net: Net, d: Draw, c: Draw, o: Outcome): Net {
    PriSend(net, StartRekeying(net.pri.st, d, c, o))
  }

  // An offer that can be accepted is on its way, or has been accepted.
  predicate Exposed(net: Net) {
    var a, b := Controls(net.toSec), Controls(net.toPri);
    && net.pri.st.rekey
    && ((a != [] && Whole(a[|a| - 1])) || (b != [] && b[0].Rekey? && !b[0].err))
  }

  lemma BusyEffect(s: State, d: Draw, c: Draw, o: Outcome)
    requires s.rekey
    ensures var e := StartRekeying(s, d, c, o);
      && e.sent.None? && e.st == s.(keys := e.st.keys)
      && e.st.keys == s.keys.(dnewkey := e.st.keys.dnewkey, cnewkey := e.st.keys.cnewkey)
  {}

  // b is a but for the new keys the primary holds.
  predicate Near(a: Net, b: Net) {
    && b == a.(pri := a.pri.(st := a.pri.st.(keys := b.pri.st.keys)))
    && b.pri.st.keys == a.pri.st.keys.(dnewkey := b.pri.st.keys.dnewkey, cnewkey := b.pri.st.keys.cnewkey)
  }

  lemma NearHolds(a: Net, b: Net)
    requires Near(a, b) && SideOk(a.pri)
    ensures SideOk(b.pri)
  {
    hide Boundary;
  }

  // Without an offer that can be accepted those keys do not matter.
  lemma NearInv(a: Net, b: Net)
    requires Inv(a) && Near(a, b) && !Exposed(a)
    ensures Inv(b)
  {
    NearHolds(a, b);
    hide Flow, Uniform, SideOk, Controls;
    assert Phase(b);
  }

  lemma BusyNear(net: Net, d: Draw, c: Draw, o: Outcome)
    requires Inv(net) && net.pri.st.rekey
    ensures Near(net, Unguarded(net, d, c, o))
  {
    BusyEffect(net.pri.st, d, c, o);
    hide StartRekeying, Phase, Flow, Uniform, SideOk;
  }

  // While no such offer is out, a start without the test keeps the invariant.
  lemma UnexposedKeeps(net: Net, d: Draw, c: Draw, o: Outcome)
    requires Inv(net) && !Exposed(net)
    ensures Inv(Unguarded(net, d, c, o))
  {
    hide Inv, Exposed;
    if net.pri.st.rekey {
      BusyNear(net, d, c, o);
      NearInv(net, Unguarded(net, d, c, o));
    } else {
      StartKeeps(net, d, c, o);
    }
  }

  // -----------------------------------------------------------------------
  // What follows when an offer is out: the primary holds other new keys than
  // those it has offered, and the exchange under way is carried to its end.

  function Other(k: Key): (r: Key)
    ensures r != k
  {
    k + [0]
  }

  // And the data key differs.
  predicate Twin(a: Net, b: Net) {
    Near(a, b) && b.pri.st.keys.dnewkey != a.pri.st.keys.dnewkey
  }

  // The confirmation of an earlier exchange is still on its way.
  predicate RekeyAhead(net: Net) {
    var a := Controls(net.toSec); a != [] && a[0].Rekey?
  }

  // The ids the secondary will have taken when it has answered.
  function Answered(net: Net): nat {
    net.sec.sent + if Controls(net.toPri) == [] then 1 else 0
  }

  // Ids are left within the lap for the answer, for the confirmation, and then
  // for a data packet of either side.
  predicate Room(net: Net) {
    var m, n := net.pri.sent + 1, Answered(net);
    && Paced(net)
    && n <= net.pri.lo + LAP
    && (if RekeyAhead(net) then m <= net.sec.hi + LAP
        else m <= net.sec.lo + LAP && (m + 1 <= net.sec.hi + LAP || n + 1 <= net.pri.hi + LAP))
  }

  lemma {:induction false} RunCons(net: Net, step: Step, steps: seq<Step>)
    ensures Run(net, [step] + steps) == Run(Next(net, step), steps)
  {
    var all := [step] + steps;
    if steps == [] {
      assert all[..0] == [];
      assert Run(net, []) == net;
    } else {
      RunCons(net, step, steps[..|steps| - 1]);
      assert all[..|all| - 1] == [step] + steps[..|steps| - 1];
      hide Next;
    }
  }

  lemma PacedCons(net: Net, step: Step, steps: seq<Step>)
    requires Paced(net) && PacedRun(Next(net, step), steps)
    ensures PacedRun(net, [step] + steps)
  {
    hide Paced, Next, Run;
    var all := [step] + steps;
    forall i | 0 <= i < |all|
      ensures Paced(Run(net, all[..i]))
    {
      if i == 0 {
        RunNone(net);
      } else {
        RunCons(net, step, steps[..i - 1]);
        assert all[..i] == [step] + steps[..i - 1];
      }
    }
  }

  lemma RunNone(net: Net)
    ensures Run(net, []) == net
  {}

  ghost predicate Garbles(net: Net, steps: seq<Step>) {
    PacedRun(net, steps) && Run(net, steps).garbled
  }

  lemma GarblesCons(net: Net, step: Step, steps: seq<Step>)
    requires Paced(net) && Garbles(Next(net, step), steps)
    ensures Garbles(net, [step] + steps)
  {
    hide Paced, Next, Run, PacedRun;
    RunCons(net, step, steps);
    PacedCons(net, step, steps);
  }

  lemma GarblesNow(net: Net)
    requires net.garbled
    ensures Garbles(net, [])
  {
    RunNone(net);
  }

  lemma NearPaced(a: Net, b: Net)
    requires Near(a, b)
    ensures Paced(a) <==> Paced(b)
  {}

  lemma NearReads(a: Net, b: Net, p: Packet)
    requires Near(a, b)
    ensures Readable(b.pri, p) <==> Readable(a.pri, p)
  {}

  // Reading at the secondary does not look at the primary's new keys.
  lemma NearSec(a: Net, b: Net, o: Outcome)
    requires Near(a, b)
    ensures var a', b' := Next(a, SecReceive(o)), Next(b, SecReceive(o));
      Near(a', b') && a'.pri == a.pri && b'.pri == b.pri
  {
    hide Readable, AnswerReplaceKey, FinishRekey;
  }

  lemma NearPriData(a: Net, b: Net, o: Outcome)
    requires Near(a, b) && a.toPri != [] && a.toPri[0].w.body.Data? && Readable(a.pri, a.toPri[0])
    ensures Next(a, PriReceive(o)) == a.(toPri := a.toPri[1..])
    ensures Next(b, PriReceive(o)) == b.(toPri := b.toPri[1..])
  {
    NearReads(a, b, a.toPri[0]);
    hide Readable;
  }

  lemma Ordered(a: Net)
    requires Inv(a)
    ensures a.sec.lo <= a.sec.hi && a.pri.lo <= a.pri.hi && a.pri.past != []
  {}

  // -----------------------------------------------------------------------
  // Reading at the secondary while the exchange is under way.

  // A data packet is read.
  lemma SecReadsData(a: Net, o: Outcome)
    requires Inv(a) && Paced(a) && a.toSec != [] && a.toSec[0].w.body.Data?
    ensures var a' := Next(a, SecReceive(o));
      a' == a.(toSec := a.toSec[1..]) && Controls(a'.toSec) == Controls(a.toSec)
  {
    SecReads(a);
    SecTakes(a);
    hide Inv, Readable, Controls, Paced;
  }

  // A confirmation is read: the secondary's boundaries move on.
  lemma SecReadsRekey(a: Net, o: Outcome)
    requires Inv(a) && Paced(a) && a.toSec != [] && a.toSec[0].w.body.Rekey?
    ensures var a' := Next(a, SecReceive(o));
      && a'.pri == a.pri && a'.toPri == a.toPri && a'.toSec == a.toSec[1..]
      && a'.sec.sent == a.sec.sent && a'.sec.lo == a.sec.hi && a'.sec.hi > a.sec.hi && !a'.sec.st.rekey
      && Controls(a.toSec) == [a.toSec[0].w.body] + Controls(a'.toSec)
  {
    SecReads(a);
    SecTakes(a);
    SwitchClears(a.sec.st, a.toSec[0].w.body);
    hide Inv, Readable, Controls, Paced, FinishRekey;
  }

  lemma SwitchClears(s: State, b: Body)
    requires b.Rekey?
    ensures !FinishRekey(s, b.err, b.num).rekey
  {}

  // The offer is read, and accepted.
  lemma SecReadsOffer(a: Net, o: Outcome)
    requires Inv(a) && Exposed(a) && Paced(a) && a.toSec != [] && a.toSec[0].w.body.ReplaceKey?
    ensures Controls(a.toSec) == [a.toSec[0].w.body] && Controls(a.toSec[1..]) == [] && Controls(a.toPri) == []
    ensures var a' := Next(a, SecReceive(o));
      && a'.pri == a.pri && a'.toSec == a.toSec[1..] && a'.sec.lo == a.sec.lo && a'.sec.hi == a.sec.hi
      && (if o.Delivered? then
            && a'.sec.sent == a.sec.sent + 1 && |a'.toPri| == |a.toPri| + 1
            && (var b := Controls(a'.toPri); |b| == 1 && b[0].Rekey? && !b[0].err)
          else a'.toPri == a.toPri)
  {
    hide Inv, Paced, Readable, Holds;
    SecReads(a);
    PhaseOffer(a);
    OneControl(a);
    var body := a.toSec[0].w.body;
    assert Whole(body);
    AnswersOffer(a.sec.st, body, o);
    SecTaken(a);
    hide Controls, Exposed, AnswerReplaceKey;
    var e := AnswerReplaceKey(a.sec.st, body.dat, body.ctl, o);
    if o.Delivered? {
      SecPosts(a, e.sent.value.body);
    }
  }

  lemma OneControl(a: Net)
    requires Inv(a) && a.toSec != [] && a.toSec[0].w.body.ReplaceKey? && Controls(a.toSec[1..]) == []
    ensures Controls(a.toSec) == [a.toSec[0].w.body]
  {
    SecTakes(a);
    hide Inv, Controls;
  }

  lemma AnswersOffer(s: State, b: Body, o: Outcome)
    requires Whole(b)
    ensures var e := AnswerReplaceKey(s, b.dat, b.ctl, o);
      && (e.sent.Some? <==> o.Delivered?)
      && (e.sent.Some? ==>
          && e.st.sseq == TakeId(s).sseq && e.sent.value.body.Rekey? && !e.sent.value.body.err
          && e.sent.value == Wire(s.sseq, e.sent.value.body, s.keys.datenc1, s.keys.ctlenc1))
  {}

  lemma SecTaken(a: Net)
    requires Inv(a)
    ensures TakeId(a.sec.st).sseq != a.sec.st.sseq
  {
    TakenOnce(a.sec);
  }

  lemma PriTaken(a: Net)
    requires Inv(a)
    ensures TakeId(a.pri.st).sseq != a.pri.st.sseq
  {
    TakenOnce(a.pri);
  }

  // What the phase is, with an offer that can be accepted.
  lemma ExposedPhase(a: Net)
    requires Inv(a) && Exposed(a)
    ensures var x, y := Controls(a.toSec), Controls(a.toPri);
      || (x == [] && |y| == 1 && y[0].Rekey? && !y[0].err)
      || (|x| == 1 && x[0].ReplaceKey? && y == [])
      || (|x| == 2 && x[0].Rekey? && x[1].ReplaceKey? && y == [])
  {
    hide Flow, Uniform, SideOk, Controls, ConfirmPending;
  }

  // -----------------------------------------------------------------------
  // The primary confirms.

  // Both runs go on alike but for the keys the primary now uses.
  predicate Along(a: Net, b: Net) {
    && b.sec == a.sec && b.toSec == a.toSec && b.toPri == a.toPri && b.garbled == a.garbled
    && b.pri.sent == a.pri.sent && b.pri.lo == a.pri.lo && b.pri.hi == a.pri.hi
    && b.pri.st.sseq == a.pri.st.sseq && b.pri.st.rID0 == a.pri.st.rID0 && b.pri.st.rID1 == a.pri.st.rID1
    && !a.pri.st.rekey && !b.pri.st.rekey && |b.pri.past| == |a.pri.past|
  }

  predicate Parted(a: Net, b: Net) {
    && Along(a, b)
    && var k, l := a.pri.st.keys, b.pri.st.keys;
       l.datenc1 != k.datenc1 && l.datdec1 != k.datdec1
  }

  lemma Confirms(s: State, t: State, num: nat, o: Outcome)
    requires s.rekey && t == s.(keys := t.keys)
    requires t.keys == s.keys.(dnewkey := t.keys.dnewkey, cnewkey := t.keys.cnewkey)
    ensures var d, e := ConfirmRekey(s, false, num, o), ConfirmRekey(t, false, num, o);
      && (d.sent.Some? <==> o.Delivered?) && d.sent == e.sent
      && d.st.sseq == e.st.sseq && d.st.rID0 == e.st.rID0 && d.st.rID1 == e.st.rID1 && !d.st.rekey && !e.st.rekey
      && (o.Delivered? ==>
          && d.st.sseq == TakeId(s).sseq && d.sent.value.body.Rekey?
          && d.st.keys.datenc1 == d.st.keys.datdec1 == Some(s.keys.dnewkey)
          && e.st.keys.datenc1 == e.st.keys.datdec1 == Some(t.keys.dnewkey))
      && (!o.Delivered? ==> d.st.keys == s.keys && e.st == d.st.(keys := t.keys))
  {}

  lemma ExposedAnswer(a: Net)
    requires Inv(a) && Exposed(a) && a.toPri != [] && !a.toPri[0].w.body.Data?
    ensures a.toPri[0].w.body.Rekey? && !a.toPri[0].w.body.err
    ensures a.toPri[1..] == [] && Controls(a.toSec) == [] && Controls(a.toPri) != [] && Controls(a.toPri[1..]) == []
  {
    PriTakes(a);
    PhaseAnswer(a);
    AnswerLast(a);
    hide Inv;
  }

  lemma PriConfirms(a: Net, b: Net, o: Outcome)
    requires Inv(a) && Near(a, b) && Exposed(a) && Paced(a) && a.toPri != [] && !a.toPri[0].w.body.Data?
    ensures var a', b' := Next(a, PriReceive(o)), Next(b, PriReceive(o));
      && a'.toPri == b'.toPri == [] && a'.sec == a.sec
      && (if o.Delivered? then
            && Along(a', b') && |a'.toSec| == |a.toSec| + 1
            && a'.toSec[..|a.toSec|] == a.toSec && a'.toSec[|a.toSec|].w.body.Rekey?
            && a'.pri.sent == a.pri.sent + 1 && a'.pri.lo == a.pri.hi
            && (Twin(a, b) ==> Parted(a', b'))
          else Near(a', b') && a'.toSec == a.toSec && !a'.pri.st.rekey)
  {
    hide Inv, Paced, Readable, Controls, Exposed, ConfirmRekey, TakeId;
    PriReads(a);
    NearReads(a, b, a.toPri[0]);
    ExposedAnswer(a);
    ExposedFlag(a);
    PriTaken(a);
    Confirms(a.pri.st, b.pri.st, a.toPri[0].w.body.num, o);
  }

  lemma ExposedFlag(a: Net)
    requires Exposed(a)
    ensures a.pri.st.rekey
  {}

  // -----------------------------------------------------------------------
  // With room, a run to a garbled packet.

  lemma SecGoesOn(a: Net)
    requires Inv(a) && Exposed(a) && Room(a) && a.toSec != []
    ensures var a' := Next(a, SecReceive(Delivered)); Exposed(a') && Room(a')
    ensures var a' := Next(a, SecReceive(Delivered)); 2 * |a'.toSec| + |a'.toPri| < 2 * |a.toSec| + |a.toPri|
  {
    var body := a.toSec[0].w.body;
    if body.Data? {
      SecReadsData(a, Delivered);
    } else if body.Rekey? {
      SecReadsRekey(a, Delivered);
      ExposedPhase(a);
    } else {
      SecReadsOffer(a, Delivered);
    }
    hide Inv, Next, Controls;
  }

  lemma PriGoesOn(a: Net)
    requires Inv(a) && Exposed(a) && Room(a) && a.toPri != [] && a.toPri[0].w.body.Data?
    ensures Exposed(a.(toPri := a.toPri[1..])) && Room(a.(toPri := a.toPri[1..]))
  {
    PriTakes(a);
    hide Inv, Controls;
  }

  // Ids are left for a data packet after the exchange.
  predicate Left(a: Net) {
    || a.pri.sent + 1 <= (if a.toSec == [] then a.sec.lo else a.sec.hi) + LAP
    || a.sec.sent + 1 <= a.pri.lo + LAP
  }

  lemma Confirming(a: Net, b: Net)
    requires Inv(a) && Twin(a, b) && Exposed(a) && Room(a)
    requires a.toSec == [] && a.toPri != [] && !a.toPri[0].w.body.Data?
    ensures var a', b' := Next(a, PriReceive(Delivered)), Next(b, PriReceive(Delivered));
      && Parted(a', b') && Paced(a') && Left(a')
      && |a'.toSec| == 1 && a'.toSec[0].w.body.Rekey? && a'.toPri == []
  {
    PriConfirms(a, b, Delivered);
    ExposedAnswer(a);
    Ordered(a);
    hide Inv, Next, Exposed, Twin, Parted;
    assert Controls([]) == [];
  }

  lemma AlongPaced(a: Net, b: Net)
    requires Along(a, b)
    ensures Paced(a) <==> Paced(b)
  {}

  lemma AlongSec(a: Net, b: Net)
    requires Inv(a) && Along(a, b) && Paced(a) && a.toSec != [] && !a.toSec[0].w.body.ReplaceKey?
    ensures var a', b' := Next(a, SecReceive(Delivered)), Next(b, SecReceive(Delivered));
      && Along(a', b') && a'.pri == a.pri && b'.pri == b.pri
      && forall o :: Next(a, SecReceive(o)) == a' && Next(b, SecReceive(o)) == b'
  {
    SecReads(a);
    hide Inv, Readable, FinishRekey;
  }

  // The secondary switches.
  lemma Switching(a: Net, b: Net)
    requires Inv(a) && Parted(a, b) && Paced(a) && Left(a)
    requires |a.toSec| == 1 && a.toSec[0].w.body.Rekey? && a.toPri == []
    ensures var a', b' := Next(a, SecReceive(Delivered)), Next(b, SecReceive(Delivered));
      && Parted(a', b') && Paced(a') && Left(a')
      && a'.toSec == [] && a'.toPri == [] && !a'.sec.st.rekey
  {
    SecReadsRekey(a, Delivered);
    AlongSec(a, b);
    Ordered(a);
    hide Inv, Next;
  }

  // Then the next data packet of either side is under a key the other has not.
  lemma Sending(a: Net, b: Net)
    requires Inv(a) && Parted(a, b) && Paced(a) && a.toSec == [] && a.pri.sent + 1 <= a.sec.lo + LAP
    ensures var b' := Next(b, PriData(true)); Paced(b') && Next(b', SecReceive(Delivered)).garbled
  {
    var a', b' := Next(a, PriData(true)), Next(b, PriData(true));
    PriDataKeeps(a, true);
    PriTaken(a);
    hide Inv, SelectsKey1, TakeId;
    SecReads(a');
    var p, q := a'.toSec[0], b'.toSec[0];
    assert DataContext(a'.sec.st, p.w.id) == p.w.dat;
    assert !Readable(b'.sec, q);
  }

  lemma SendingBack(a: Net, b: Net)
    requires Inv(a) && Parted(a, b) && Paced(a) && a.toSec == [] && a.toPri == [] && !a.sec.st.rekey
    requires a.sec.sent + 1 <= a.pri.lo + LAP
    ensures var b' := Next(b, SecData(true)); Paced(b') && Next(b', PriReceive(Delivered)).garbled
  {
    var a', b' := Next(a, SecData(true)), Next(b, SecData(true));
    SecDataKeeps(a, true);
    SecTaken(a);
    LevelEmpty(a);
    hide Inv, SelectsKey1, TakeId;
    PriReads(a');
    var p := a'.toPri[0];
    assert b'.toPri[0] == p && p.gen == Generation(a'.pri);
    assert DataContext(a'.pri.st, p.w.id) == p.w.dat;
    assert !Readable(b'.pri, p);
  }

  // With nothing on its way to it the secondary has switched, and may send.
  lemma LevelEmpty(a: Net)
    requires Inv(a) && a.toSec == [] && a.toPri == [] && !a.pri.st.rekey
    ensures a.sec.past == a.pri.past
  {
    assert Controls(a.toSec) == [];
    Level(a);
  }

  // The last four steps.
  lemma LastSteps(a: Net, b: Net) returns (steps: seq<Step>)
    requires Inv(a) && Twin(a, b) && Exposed(a) && Room(a)
    requires a.toSec == [] && a.toPri != [] && !a.toPri[0].w.body.Data?
    ensures Garbles(b, steps)
  {
    hide Inv, Readable, Garbles, Controls, Exposed, Paced, Next;
    RoomPaced(a);
    NearPaced(a, b);
    PriKeeps(a, Delivered);
    var a1, b1 := Next(a, PriReceive(Delivered)), Next(b, PriReceive(Delivered));
    Confirming(a, b);
    AlongPaced(a1, b1);
    SecKeeps(a1, Delivered);
    var a2, b2 := Next(a1, SecReceive(Delivered)), Next(b1, SecReceive(Delivered));
    Switching(a1, b1);
    AlongPaced(a2, b2);
    steps := LastTwo(a2, b2);
    GarblesCons(b1, SecReceive(Delivered), steps);
    steps := [SecReceive(Delivered)] + steps;
    GarblesCons(b, PriReceive(Delivered), steps);
    steps := [PriReceive(Delivered)] + steps;
  }

  lemma RoomPaced(a: Net)
    requires Room(a)
    ensures Paced(a)
  {}

  lemma LastTwo(a: Net, b: Net) returns (steps: seq<Step>)
    requires Inv(a) && Parted(a, b) && Paced(a) && Paced(b) && Left(a)
    requires a.toSec == [] && a.toPri == [] && !a.sec.st.rekey
    ensures Garbles(b, steps)
  {
    hide Inv, Garbles, Paced, Next, Parted;
    if a.pri.sent + 1 <= a.sec.lo + LAP {
      Sending(a, b);
      GarblesNow(Next(Next(b, PriData(true)), SecReceive(Delivered)));
      GarblesCons(Next(b, PriData(true)), SecReceive(Delivered), []);
      steps := [PriData(true)] + ([SecReceive(Delivered)] + []);
      GarblesCons(b, PriData(true), [SecReceive(Delivered)] + []);
    } else {
      SendingBack(a, b);
      GarblesNow(Next(Next(b, SecData(true)), PriReceive(Delivered)));
      GarblesCons(Next(b, SecData(true)), PriReceive(Delivered), []);
      steps := [SecData(true)] + ([PriReceive(Delivered)] + []);
      GarblesCons(b, SecData(true), [PriReceive(Delivered)] + []);
    }
  }

  // From any state with an offer out, run on beside its twin.
  lemma {:induction false} Parts(a: Net, b: Net) returns (steps: seq<Step>)
    requires Inv(a) && Twin(a, b) && Exposed(a) && Room(a)
    ensures Garbles(b, steps)
    decreases 2 * |a.toSec| + |a.toPri|
  {
    hide Inv, Exposed, Room, Paced, Garbles, Controls, Readable, Next;
    RoomPaced(a);
    NearPaced(a, b);
    if a.toSec != [] {
      SecGoesOn(a);
      SecKeeps(a, Delivered);
      NearSec(a, b, Delivered);
      steps := Parts(Next(a, SecReceive(Delivered)), Next(b, SecReceive(Delivered)));
      GarblesCons(b, SecReceive(Delivered), steps);
      steps := [SecReceive(Delivered)] + steps;
    } else {
      ExposedNotEmpty(a);
      if a.toPri[0].w.body.Data? {
        PriReads(a);
        PriKeeps(a, Delivered);
        NearPriData(a, b, Delivered);
        PriGoesOn(a);
        steps := Parts(Next(a, PriReceive(Delivered)), Next(b, PriReceive(Delivered)));
        GarblesCons(b, PriReceive(Delivered), steps);
        steps := [PriReceive(Delivered)] + steps;
      } else {
        steps := LastSteps(a, b);
      }
    }
  }

  lemma ExposedNotEmpty(a: Net)
    requires Exposed(a) && a.toSec == []
    ensures a.toPri != []
  {}

  // -----------------------------------------------------------------------
  // Without room, no run gets that far.

  predicate Barred(a: Net, b: Net) {
    Inv(a) && Near(a, b) && Exposed(a) && !Room(a)
  }

  // The primary has confirmed; its confirmation, if not read yet, is the last
  // packet on its way.
  predicate Split(a: Net, b: Net) {
    && Inv(a) && Along(a, b) && !Left(a) && a.toPri == []
    && (a.toSec == [] || (a.toSec[|a.toSec| - 1].w.body.Rekey? && |Controls(a.toSec)| == 1))
  }

  // Run b cannot come to a garbled packet; a is a run with the test.
  predicate Harmless(a: Net, b: Net) {
    Inv(b) || Barred(a, b) || Split(a, b)
  }

  predicate StaysHarmless(a: Net, b: Net) {
    !b.garbled && (Paced(b) ==> Harmless(a, b))
  }

  lemma Clean(a: Net)
    requires Inv(a)
    ensures !a.garbled
  {}

  lemma NearClean(a: Net, b: Net)
    requires Inv(a) && Near(a, b)
    ensures !b.garbled
  {}

  // A barred pair after a step that leaves no acceptable offer, or no room.
  lemma NearStays(a: Net, b: Net)
    requires Inv(a) && Near(a, b) && (Exposed(a) && Paced(a) ==> !Room(a))
    ensures StaysHarmless(a, b)
  {
    hide Inv, Exposed, Room;
    NearClean(a, b);
    NearPaced(a, b);
    if !Exposed(a) {
      NearInv(a, b);
    }
  }

  lemma BarredPri(a: Net, b: Net, o: Outcome)
    requires Barred(a, b) && Paced(a)
    ensures StaysHarmless(Next(a, PriReceive(o)), Next(b, PriReceive(o)))
  {
    hide Inv, Exposed, Readable, Next, Paced, Room;
    var a', b' := Next(a, PriReceive(o)), Next(b, PriReceive(o));
    if a.toPri == [] {
      EmptyPri(a, b, o);
      NearStays(a, b);
    } else if a.toPri[0].w.body.Data? {
      PriReads(a);
      PriKeeps(a, o);
      NearPriData(a, b, o);
      DataNoRoom(a);
      NearStays(a', b');
    } else {
      PriKeeps(a, o);
      PriConfirms(a, b, o);
      if o.Delivered? {
        ConfirmedSplit(a, b);
      } else {
        LowFlag(a');
        NearStays(a', b');
      }
    }
  }

  lemma LowFlag(a: Net)
    requires !a.pri.st.rekey
    ensures !Exposed(a)
  {}

  lemma EmptyPri(a: Net, b: Net, o: Outcome)
    requires Near(a, b) && a.toPri == []
    ensures Next(a, PriReceive(o)) == a && Next(b, PriReceive(o)) == b
  {}

  lemma DataNoRoom(a: Net)
    requires Inv(a) && Exposed(a) && !Room(a) && a.toPri != [] && a.toPri[0].w.body.Data?
    ensures !Room(a.(toPri := a.toPri[1..]))
  {
    PriTakes(a);
    hide Inv, Controls;
  }

  lemma ConfirmedSplit(a: Net, b: Net)
    requires Barred(a, b) && Paced(a) && a.toPri != [] && !a.toPri[0].w.body.Data?
    requires Inv(Next(a, PriReceive(Delivered)))
    ensures StaysHarmless(Next(a, PriReceive(Delivered)), Next(b, PriReceive(Delivered)))
  {
    var a', b' := Next(a, PriReceive(Delivered)), Next(b, PriReceive(Delivered));
    PriConfirms(a, b, Delivered);
    ExposedAnswer(a);
    Clean(a');
    ControlsAppend(a.toSec, a'.toSec[|a.toSec|]);
    assert a'.toSec == a.toSec + [a'.toSec[|a.toSec|]];
    hide Inv, Next, Exposed, Controls;
    AlongPaced(a', b');
  }

  lemma BarredSec(a: Net, b: Net, o: Outcome)
    requires Barred(a, b) && Paced(a)
    ensures StaysHarmless(Next(a, SecReceive(o)), Next(b, SecReceive(o)))
  {
    hide Inv, Exposed, Readable, Next, Paced, Room;
    NearSec(a, b, o);
    if a.toSec == [] {
      EmptySec(a, o);
    } else {
      SecKeeps(a, o);
      SecNoRoom(a, o);
    }
    NearStays(Next(a, SecReceive(o)), Next(b, SecReceive(o)));
  }

  lemma EmptySec(a: Net, o: Outcome)
    requires a.toSec == []
    ensures Next(a, SecReceive(o)) == a
  {}

  lemma SecNoRoom(a: Net, o: Outcome)
    requires Inv(a) && Exposed(a) && Paced(a) && !Room(a) && a.toSec != []
    ensures var a' := Next(a, SecReceive(o)); Exposed(a') && Paced(a') ==> !Room(a')
  {
    hide Inv, Next, Exposed, Room, Paced;
    if a.toSec[0].w.body.Data? {
      SecDataReadNoRoom(a, o);
    } else if a.toSec[0].w.body.Rekey? {
      SecRekeyReadNoRoom(a, o);
    } else {
      SecOfferReadNoRoom(a, o);
    }
  }

  lemma SecDataReadNoRoom(a: Net, o: Outcome)
    requires Inv(a) && Exposed(a) && Paced(a) && !Room(a) && a.toSec != [] && a.toSec[0].w.body.Data?
    ensures var a' := Next(a, SecReceive(o)); Exposed(a') && Paced(a') ==> !Room(a')
  {
    hide Inv, Next, Controls;
    SecReadsData(a, o);
  }

  lemma SecRekeyReadNoRoom(a: Net, o: Outcome)
    requires Inv(a) && Exposed(a) && Paced(a) && !Room(a) && a.toSec != [] && a.toSec[0].w.body.Rekey?
    ensures var a' := Next(a, SecReceive(o)); Exposed(a') && Paced(a') ==> !Room(a')
  {
    hide Inv, Next, Controls;
    SecReadsRekey(a, o);
    ExposedPhase(a);
  }

  lemma SecOfferReadNoRoom(a: Net, o: Outcome)
    requires Inv(a) && Exposed(a) && Paced(a) && !Room(a) && a.toSec != [] && a.toSec[0].w.body.ReplaceKey?
    ensures var a' := Next(a, SecReceive(o)); Exposed(a') && Paced(a') ==> !Room(a')
  {
    hide Inv, Next, Controls;
    SecReadsOffer(a, o);
  }

  lemma BarredSecData(a: Net, b: Net, ok: bool)
    requires Barred(a, b)
    ensures StaysHarmless(Next(a, SecData(ok)), Next(b, SecData(ok)))
  {
    var a', b' := Next(a, SecData(ok)), Next(b, SecData(ok));
    hide Inv, Exposed, Room, TakeId;
    SecDataKeeps(a, ok);
    SecDataNoRoom(a, ok);
    assert Near(a', b');
    hide Next;
    NearStays(a', b');
  }

  lemma SecDataNoRoom(a: Net, ok: bool)
    requires Inv(a) && !Room(a)
    ensures !Room(Next(a, SecData(ok)))
  {
    var a' := Next(a, SecData(ok));
    SecTaken(a);
    var w := Wire(a.sec.st.sseq, Data, a.sec.st.keys.datenc1, a.sec.st.keys.ctlenc1);
    ControlsAppend(a.toPri, Packet(w, Generation(a.sec), a.sec.sent));
    hide Inv, Controls, TakeId;
  }

  lemma BarredPriSends(a: Net, b: Net, step: Step)
    requires Barred(a, b) && (step.PriData? || step.Start?)
    ensures Next(a, step) == a && Next(b, step) == b
  {
    hide Inv, Room;
  }

  lemma SplitSec(a: Net, b: Net, o: Outcome)
    requires Split(a, b) && Paced(a)
    ensures StaysHarmless(Next(a, SecReceive(o)), Next(b, SecReceive(o)))
  {
    hide Inv, Next, Controls;
    if a.toSec == [] {
      EmptySec(a, o);
      EmptySec(b, o);
      Clean(a);
    } else {
      SecKeeps(a, o);
      Clean(Next(a, SecReceive(o)));
      OneLeft(a);
      AlongSec(a, b);
      if a.toSec[0].w.body.Data? {
        SecReadsData(a, o);
      } else {
        SecReadsRekey(a, o);
      }
    }
  }

  // The one control message in the channel is its last packet.
  lemma OneLeft(a: Net)
    requires Inv(a) && a.toSec != [] && a.toSec[|a.toSec| - 1].w.body.Rekey? && |Controls(a.toSec)| == 1
    ensures !a.toSec[0].w.body.Data? ==> |a.toSec| == 1 && a.toSec[0].w.body.Rekey?
  {
    SecTakes(a);
    hide Inv;
    if !a.toSec[0].w.body.Data? && |a.toSec| > 1 {
      ControlsSeen(a.toSec[1..], |a.toSec| - 2);
    }
  }

  // Any id that is taken is one too many.
  lemma SplitPriData(a: Net, b: Net, ok: bool)
    requires Split(a, b)
    ensures StaysHarmless(Next(a, PriData(ok)), Next(b, PriData(ok)))
  {
    Clean(a);
    Ordered(a);
    PriTaken(a);
    hide Inv, Controls, TakeId;
  }

  lemma SplitSecData(a: Net, b: Net, ok: bool)
    requires Split(a, b)
    ensures StaysHarmless(Next(a, SecData(ok)), Next(b, SecData(ok)))
  {
    Clean(a);
    SecTaken(a);
    if a.toSec != [] {
      SplitFlag(a);
    }
    hide Inv, Controls, TakeId;
    assert a.sec.st.rekey ==> Next(a, SecData(ok)) == a && Next(b, SecData(ok)) == b;
  }

  // What a start leaves of state s, when it took no id.
  lemma StartTakes(s: State, d: Draw, c: Draw, o: Outcome)
    requires !s.rekey && TakeId(s).sseq != s.sseq
    ensures var e := StartRekeying(s, d, c, o);
      && (e.st.sseq == s.sseq ==> e == Effect(s.(keys := e.st.keys), None))
      && e.st.sseq in {s.sseq, TakeId(s).sseq}
  {
    hide NextId;
  }

  // It takes an id, or changes no more than the keys.
  lemma StartNext(a: Net, d: Draw, c: Draw, o: Outcome)
    requires !a.pri.st.rekey && TakeId(a.pri.st).sseq != a.pri.st.sseq
    ensures var a', e := Next(a, Start(d, c, o)), StartRekeying(a.pri.st, d, c, o);
      && a'.garbled == a.garbled && a'.sec == a.sec
      && (if e.st.sseq == a.pri.st.sseq then a' == a.(pri := a.pri.(st := a.pri.st.(keys := e.st.keys)))
          else a'.pri.sent == a.pri.sent + 1)
  {
    StartTakes(a.pri.st, d, c, o);
    hide StartRekeying, TakeId;
  }

  lemma SameIds(s: State, t: State, d: Draw, c: Draw, o: Outcome)
    requires !s.rekey && !t.rekey && s.sseq == t.sseq
    ensures TakeId(s).sseq == TakeId(t).sseq
    ensures StartRekeying(s, d, c, o).st.sseq == StartRekeying(t, d, c, o).st.sseq
  {
    hide NextId;
  }

  lemma SplitStart(a: Net, b: Net, d: Draw, c: Draw, o: Outcome)
    requires Split(a, b) && Inv(Next(a, Start(d, c, o)))
    ensures StaysHarmless(Next(a, Start(d, c, o)), Next(b, Start(d, c, o)))
  {
    hide Inv, Controls, TakeId, StartRekeying, Next;
    Clean(a);
    Ordered(a);
    PriTaken(a);
    SameIds(a.pri.st, b.pri.st, d, c, o);
    StartNext(a, d, c, o);
    StartNext(b, d, c, o);
    var a', b' := Next(a, Start(d, c, o)), Next(b, Start(d, c, o));
    if StartRekeying(b.pri.st, d, c, o).st.sseq == b.pri.st.sseq {
      assert Along(a', b') && a'.toSec == a.toSec && a'.toPri == a.toPri;
    } else {
      assert b'.pri.lo == b.pri.lo ==> !Paced(b');
    }
  }

  lemma SplitSends(a: Net, b: Net, step: Step)
    requires Split(a, b) && Paced(a) && !step.SecReceive? && !step.PriReceive?
    ensures StaysHarmless(Next(a, step), Next(b, step))
  {
    hide Inv, Along, Left, Controls, StaysHarmless, Next;
    match step
    case PriData(ok) => SplitPriData(a, b, ok);
    case SecData(ok) => SplitSecData(a, b, ok);
    case Start(d, c, o) =>
      PacedInTime(a, step);
      InvNext(a, step);
      SplitStart(a, b, d, c, o);
  }

  lemma SplitFlag(a: Net)
    requires Inv(a) && |Controls(a.toSec)| == 1 && !a.pri.st.rekey
    ensures a.sec.st.rekey
  {
    hide Flow, Uniform, SideOk, Controls;
  }

  lemma HarmlessNext(a: Net, b: Net, step: Step)
    requires Harmless(a, b) && Paced(b)
    ensures StaysHarmless(Next(a, step), Next(b, step))
  {
    hide Inv, Next, Paced, Exposed, Room, Left, Controls;
    if Inv(b) {
      PacedInTime(b, step);
      InvNext(b, step);
      Clean(Next(b, step));
    } else if Barred(a, b) {
      NearPaced(a, b);
      match step
      case PriReceive(o) => BarredPri(a, b, o);
      case SecReceive(o) => BarredSec(a, b, o);
      case SecData(ok) => BarredSecData(a, b, ok);
      case _ =>
        BarredPriSends(a, b, step);
        NearStays(a, b);
    } else {
      AlongPaced(a, b);
      match step
      case PriReceive(o) =>
        NothingToRead(a, b, o);
        Clean(a);
      case SecReceive(o) => SplitSec(a, b, o);
      case _ => SplitSends(a, b, step);
    }
  }

  lemma NothingToRead(a: Net, b: Net, o: Outcome)
    requires a.toPri == b.toPri == []
    ensures Next(a, PriReceive(o)) == a && Next(b, PriReceive(o)) == b
  {}

  lemma PacedRest(net: Net, steps: seq<Step>)
    requires PacedRun(net, steps) && steps != []
    ensures Paced(net) && PacedRun(Next(net, steps[0]), steps[1..])
    ensures Run(net, steps) == Run(Next(net, steps[0]), steps[1..])
  {
    hide Paced, Next, Run;
    var rest := steps[1..];
    assert steps == [steps[0]] + rest && steps[..0] == [];
    RunNone(net);
    RunCons(net, steps[0], rest);
    assert Paced(Run(net, steps[..0]));
    forall i | 0 <= i < |rest|
      ensures Paced(Run(Next(net, steps[0]), rest[..i]))
    {
      RunCons(net, steps[0], rest[..i]);
      assert steps[..i + 1] == [steps[0]] + rest[..i];
    }
  }

  lemma PacedFirst(net: Net, steps: seq<Step>)
    requires PacedRun(net, steps) && steps != []
    ensures Paced(net)
  {
    hide Paced, Next, Run;
    assert steps[..0] == [];
    RunNone(net);
  }

  lemma {:induction false} HarmlessRun(a: Net, b: Net, steps: seq<Step>)
    requires StaysHarmless(a, b) && PacedRun(b, steps)
    ensures !Run(b, steps).garbled
    decreases |steps|
  {
    hide Harmless, Next, Paced, Run, PacedRun;
    if steps == [] {
      RunNone(b);
    } else {
      PacedFirst(b, steps);
      HarmlessNext(a, b, steps[0]);
      PacedRest(b, steps);
      HarmlessRun(Next(a, steps[0]), Next(b, steps[0]), steps[1..]);
    }
  }

  // -----------------------------------------------------------------------
  // The guard, in terms of runs.

  // Safe whatever is drawn and whatever follows.
  ghost predicate SafeUnguarded(net: Net) {
    forall d, c, o, steps :: !Garbles(Unguarded(net, d, c, o), steps)
  }

  lemma StartHarmless(net: Net, d: Draw, c: Draw, o: Outcome)
    requires Inv(net) && !(Exposed(net) && Room(net))
    ensures StaysHarmless(net, Unguarded(net, d, c, o))
  {
    hide Inv, Exposed, Room, Unguarded;
    if Exposed(net) {
      ExposedFlag(net);
      BusyNear(net, d, c, o);
      NearStays(net, Unguarded(net, d, c, o));
    } else {
      UnexposedKeeps(net, d, c, o);
      Clean(Unguarded(net, d, c, o));
    }
  }

  lemma ExposedGarbles(net: Net) returns (d: Draw, c: Draw, steps: seq<Step>)
    requires Inv(net) && Exposed(net) && Room(net)
    ensures Garbles(Unguarded(net, d, c, Delivered), steps)
  {
    d, c := Fresh(Other(net.pri.st.keys.dnewkey)), Fresh(Other(net.pri.st.keys.cnewkey));
    hide Inv, Garbles, Room, Controls;
    BusyNear(net, d, c, Delivered);
    steps := Parts(net, Unguarded(net, d, c, Delivered));
  }

  // A start of rekeying without the test of the flag can lead to a garbled
  // packet exactly when an offer that can be accepted is out and there are ids
  // left to finish the exchange.
  lemma GuardExact(net: Net)
    requires Inv(net)
    ensures SafeUnguarded(net) <==> !(Exposed(net) && Room(net))
  {
    hide Inv, Room, Exposed, Unguarded, StaysHarmless;
    if Exposed(net) && Room(net) {
      hide Garbles;
      var d, c, steps := ExposedGarbles(net);
    } else {
      forall d, c, o, steps
        ensures !Garbles(Unguarded(net, d, c, o), steps)
      {
        StartHarmless(net, d, c, o);
        if PacedRun(Unguarded(net, d, c, o), steps) {
          HarmlessRun(net, Unguarded(net, d, c, o), steps);
        }
      }
    }
  }

  // -----------------------------------------------------------------------
  // A run in which it matters.

  function Offered(k: KeyPair, k': KeyPair): Net {
    Next(Next(Initial(Setup(k, false)), Start(Fresh(k'.dat), Fresh(k'.ctl), Delivered)), SecReceive(Delivered))
  }

  // The secondary has accepted k' and its answer is on its way.
  lemma OfferedState(k: KeyPair, k': KeyPair)
    ensures Inv(Offered(k, k')) && Exposed(Offered(k, k'))
    ensures Offered(k, k') == Net(
      Side(State(2, 0, 0, true, InitCrypto(Blank(k)).(dnewkey := k'.dat, cnewkey := k'.ctl)), [k], 1, 0, 0),
      Side(State(2, 0, 0, true, InitCrypto(Blank(k)).(dnewkey := k'.dat, cnewkey := k'.ctl)), [k], 1, 0, 0),
      [], [Packet(Wire(1, Rekey(false, 2), Some(k.dat), Some(k.ctl)), 0, 0)], false)
  {
    hide Inv, Flow, Uniform, Phase, SideOk;
    var net0 := Initial(Setup(k, false));
    InvInitial(Setup(k, false));
    var net1 := Next(net0, Start(Fresh(k'.dat), Fresh(k'.ctl), Delivered));
    InvNext(net0, Start(Fresh(k'.dat), Fresh(k'.ctl), Delivered));
    SecReads(net1);
    InvNext(net1, SecReceive(Delivered));
    hide Holds, Readable;
    assert Controls(Offered(k, k').toPri[1..]) == [];
  }

  function Blank(k: KeyPair): Keys {
    Keys(None, None, None, None, None, None, None, None, k.dat, k.ctl)
  }

  // Drawing again before the answer is read: the primary takes up the second
  // key, the secondary the first, and the next data packet is garbled.
  lemma UnguardedGarbles(k: KeyPair, k': KeyPair, k'': KeyPair)
    requires k'.dat != k''.dat
    ensures var b := Unguarded(Offered(k, k'), Fresh(k''.dat), Fresh(k''.ctl), Delivered);
      var c := Next(Next(b, PriReceive(Delivered)), SecReceive(Delivered));
      && !b.garbled && !c.garbled
      && c.pri.past == [k, k''] && c.sec.past == [k, k']
      && Next(Next(c, PriData(true)), SecReceive(Delivered)).garbled
  {
    OfferedState(k, k');
    hide Inv, Exposed, Offered;
    var b := Unguarded(Offered(k, k'), Fresh(k''.dat), Fresh(k''.ctl), Delivered);
    assert Readable(b.pri, b.toPri[0]);
    var b1 := Next(b, PriReceive(Delivered));
    assert b1.toSec == [Packet(Wire(2, Rekey(false, 3), Some(k.dat), Some(k.ctl)), 0, 1)];
    assert Readable(b1.sec, b1.toSec[0]);
    var c := Next(b1, SecReceive(Delivered));
    assert c.toSec == [];
    var d := Next(c, PriData(true));
    assert d.toSec == [Packet(Wire(3, Data, Some(k''.dat), Some(k''.ctl)), 1, 2)];
    assert !Readable(d.sec, d.toSec[0]);
  }
}
