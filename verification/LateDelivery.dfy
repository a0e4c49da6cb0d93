// Packets that come late or out of order. A trace keeps every packet either
// side has sent; whichever of them is handed to the receiver, and whenever,
// it is known exactly when the key chosen for it is the right one.

module LateDelivery {
  import opened Bytes
  import opened SequenceIds
  import opened SessionSpec
  import opened RekeyProtocol
  import opened RekeyInvariant
  import opened RekeySafety

  datatype Trace = Trace(net: Net, fromPri: seq<Packet>, fromSec: seq<Packet>)

  // What a step added to a channel.
  function Added(q: seq<Packet>, q': seq<Packet>): seq<Packet> {
    if |q'| > |q| then q'[|q|..] else []
  }

  function NextTrace(t: Trace, step: Step): Trace {
    var net := Next(t.net, step);
    Trace(net, t.fromPri + Added(t.net.toSec, net.toSec), t.fromSec + Added(t.net.toPri, net.toPri))
  }

  function RunTrace(u: Setup, steps: seq<Step>): (t: Trace)
    ensures t.net == Run(Initial(u), steps)
  {
    if steps == [] then Trace(Initial(u), [], [])
    else NextTrace(RunTrace(u, steps[..|steps| - 1]), steps[|steps| - 1])
  }

  // Packet p of sender s stands where the boundaries of reader r say it does.
  predicate Placed(p: Packet, s: Side, r: Side) {
    && 0 <= p.gen < |s.past| && Sealed(p.w, s.past[p.gen]) && p.w.id == Id(p.n) && p.n < s.sent
    && (p.n >= r.hi <==> p.gen >= Generation(r))
    && (p.n >= r.lo <==> p.gen >= Generation(r) - 1)
  }

  // Sent in order, and each in its place.
  ghost predicate AllPlaced(log: seq<Packet>, s: Side, r: Side) {
    && (forall i :: 0 <= i < |log| ==> Placed(log[i], s, r))
    && (forall i, j :: 0 <= i < j < |log| ==> log[i].n < log[j].n)
  }

  // A REKEY from the primary divides what it sent before from what it sent after.
  ghost predicate Divides(log: seq<Packet>, r: Packet) {
    r.w.body.Rekey? ==> forall i :: 0 <= i < |log| ==> (log[i].n > r.n <==> log[i].gen > r.gen)
  }

  ghost predicate AllDivide(log: seq<Packet>, s: Side) {
    forall i :: 0 <= i < |log| ==> Divides(log, log[i]) && (log[i].w.body.Rekey? ==> log[i].gen < Generation(s))
  }

  ghost predicate Within(q: seq<Packet>, log: seq<Packet>) {
    forall i :: 0 <= i < |q| ==> q[i] in log
  }

  ghost predicate Logged(t: Trace) {
    && AllPlaced(t.fromPri, t.net.pri, t.net.sec)
    && AllPlaced(t.fromSec, t.net.sec, t.net.pri)
    && AllDivide(t.fromPri, t.net.pri)
    && Within(t.net.toSec, t.fromPri)
  }

  // -----------------------------------------------------------------------
  // The key for a late packet.

  lemma Chosen(r: Side, p: Packet)
    requires SideOk(r) && r.hi < r.lo + LAP
    requires p.w.id == Id(p.n) && r.lo <= p.n < r.lo + LAP
    ensures SelectsKey1(r.st.rID0, r.st.rID1, p.w.id) <==> p.n >= r.hi || r.st.rID0 > r.st.rID1
  {
    hide Holds;
    if Id(r.lo) <= Id(r.hi) {
      KeyWindow(r.lo, r.hi, p.n);
    }
    IdAhead(r.lo, p.n - r.lo);
    IdAhead(r.lo, r.hi - r.lo);
  }

  lemma PrefixAt(a: seq<KeyPair>, b: seq<KeyPair>, i: nat)
    requires a <= b && i < |a|
    ensures a[i] == b[i]
  {}

  // A packet sent within a lap of the reader's older boundary, however late,
  // is read with its own keys exactly when it is of the reader's generation,
  // or of the one before while the boundaries have not wrapped past each
  // other.
  lemma LateReadable(p: Packet, s: Side, r: Side)
    requires SideOk(r) && r.hi < r.lo + LAP && p.n < r.lo + LAP
    requires Placed(p, s, r) && (r.past <= s.past || s.past <= r.past)
    ensures Readable(r, p) <==>
      (p.gen == Generation(r) || (p.gen == Generation(r) - 1 && r.st.rID0 <= r.st.rID1))
  {
    if Generation(r) - 1 <= p.gen <= Generation(r) {
      Chosen(r, p);
      if r.past <= s.past {
        PrefixAt(r.past, s.past, p.gen);
      } else {
        PrefixAt(s.past, r.past, p.gen);
      }
      hide Boundary, SelectsKey1;
    }
  }

  // -----------------------------------------------------------------------
  // Every step keeps the log in place.

  // The sender goes on: it may take ids and add key pairs.
  lemma SenderMoves(log: seq<Packet>, s: Side, s': Side, r: Side)
    requires AllPlaced(log, s, r) && s.past <= s'.past && s.sent <= s'.sent
    ensures AllPlaced(log, s', r)
  {
    forall i | 0 <= i < |log|
      ensures Placed(log[i], s', r)
    {
      assert Placed(log[i], s, r);
    }
  }

  lemma DivideMoves(log: seq<Packet>, s: Side, s': Side)
    requires AllDivide(log, s) && s.past <= s'.past
    ensures AllDivide(log, s')
  {
    hide Divides;
  }

  // The reader has renewed its keys at a boundary that divides the log.
  lemma ReaderRenews(log: seq<Packet>, s: Side, r: Side, r': Side)
    requires AllPlaced(log, s, r)
    requires Generation(r') == Generation(r) + 1 && r'.lo == r.hi
    requires forall i :: 0 <= i < |log| ==> (log[i].n >= r'.hi <==> log[i].gen > Generation(r))
    ensures AllPlaced(log, s, r')
  {
    forall i | 0 <= i < |log|
      ensures Placed(log[i], s, r')
    {
      assert Placed(log[i], s, r);
    }
  }

  lemma ReaderSame(log: seq<Packet>, s: Side, r: Side, r': Side)
    requires AllPlaced(log, s, r) && r'.past == r.past && r'.lo == r.lo && r'.hi == r.hi
    ensures AllPlaced(log, s, r')
  {
    forall i | 0 <= i < |log|
      ensures Placed(log[i], s, r')
    {
      assert Placed(log[i], s, r);
    }
  }

  // A side posts a packet of its own generation, no generation behind its
  // reader, after which it may renew its keys.
  lemma SenderPosts(log: seq<Packet>, s: Side, s': Side, r: Side, p: Packet)
    requires AllPlaced(log, s, r)
    requires s.past <= s'.past && s'.sent == s.sent + 1 && s.past != []
    requires p.n == s.sent && p.gen == Generation(s) && p.w.id == Id(p.n) && Sealed(p.w, Current(s))
    requires r.lo <= r.hi <= s.sent && Generation(s) >= Generation(r)
    ensures AllPlaced(log + [p], s', r)
  {
    SenderMoves(log, s, s', r);
    forall i | 0 <= i < |log|
      ensures log[i].n < p.n
    {
      assert Placed(log[i], s, r);
    }
    hide Sealed;
  }

  lemma PostDivides(log: seq<Packet>, s: Side, s': Side, r: Side, p: Packet)
    requires AllPlaced(log, s, r) && AllDivide(log, s)
    requires p.n == s.sent && p.gen == Generation(s) && s.past <= s'.past
    requires p.w.body.Rekey? ==> Generation(s') > Generation(s)
    ensures AllDivide(log + [p], s')
  {
    var all := log + [p];
    forall i | 0 <= i < |all|
      ensures Divides(all, all[i]) && (all[i].w.body.Rekey? ==> all[i].gen < Generation(s'))
    {
      if i < |log| {
        assert Divides(log, log[i]);
        assert Placed(log[i], s, r);
      } else {
        forall j | 0 <= j < |all|
          ensures all[j].n > p.n <==> all[j].gen > p.gen
        {
          if j < |log| {
            assert Placed(log[j], s, r);
          }
        }
      }
    }
  }

  // -----------------------------------------------------------------------
  // Steps that send from the primary.

  lemma PrimaryStep(t: Trace, net': Net, p: Packet)
    requires Inv(t.net) && Logged(t)
    requires net'.sec == t.net.sec && net'.toSec == t.net.toSec + [p]
    requires net'.pri.sent == t.net.pri.sent + 1 && t.net.pri.past <= net'.pri.past
    requires p.n == t.net.pri.sent && p.gen == Generation(t.net.pri) && p.w.id == Id(p.n)
    requires Sealed(p.w, Current(t.net.pri))
    requires p.w.body.Rekey? ==> Generation(net'.pri) > Generation(t.net.pri)
    ensures AllPlaced(t.fromPri + [p], net'.pri, net'.sec) && AllDivide(t.fromPri + [p], net'.pri)
    ensures Within(net'.toSec, t.fromPri + [p])
  {
    FlowBounds(t.net.toSec, Generation(t.net.sec), t.net.pri.past, t.net.sec.hi, t.net.pri.sent);
    hide Flow, Uniform, Phase, AllPlaced, AllDivide, Sealed, Boundary;
    SenderPosts(t.fromPri, t.net.pri, net'.pri, t.net.sec, p);
    PostDivides(t.fromPri, t.net.pri, net'.pri, t.net.sec, p);
  }

  lemma PrimaryQuiet(t: Trace, net': Net)
    requires Logged(t) && net'.sec == t.net.sec && net'.toSec == t.net.toSec
    requires net'.pri.past == t.net.pri.past && net'.pri.sent >= t.net.pri.sent
    requires net'.pri.lo == t.net.pri.lo && net'.pri.hi == t.net.pri.hi
    ensures AllPlaced(t.fromPri, net'.pri, net'.sec) && AllDivide(t.fromPri, net'.pri)
    ensures AllPlaced(t.fromSec, net'.sec, net'.pri) && Within(net'.toSec, t.fromPri)
  {
    hide AllPlaced, AllDivide, Within;
    SenderMoves(t.fromPri, t.net.pri, net'.pri, t.net.sec);
    DivideMoves(t.fromPri, t.net.pri, net'.pri);
    ReaderSame(t.fromSec, t.net.sec, t.net.pri, net'.pri);
  }

  // A sending step of the primary's: a packet is posted, or nothing is.
  lemma PrimarySends(t: Trace, e: Effect)
    requires Inv(t.net) && Logged(t)
    requires e.st.sseq in {t.net.pri.st.sseq, TakeId(t.net.pri.st).sseq}
    requires e.sent.Some? ==>
      && e.st.sseq == TakeId(t.net.pri.st).sseq && !e.sent.value.body.Rekey?
      && e.sent.value
         == Wire(t.net.pri.st.sseq, e.sent.value.body, t.net.pri.st.keys.datenc1, t.net.pri.st.keys.ctlenc1)
    ensures var net' := PriSend(t.net, e);
      Logged(Trace(net', t.fromPri + Added(t.net.toSec, net'.toSec), t.fromSec + Added(t.net.toPri, net'.toPri)))
  {
    hide Flow, Uniform, Phase, AllPlaced, AllDivide, Within, Boundary, TakeId;
    TakenOnce(t.net.pri);
    var net' := PriSend(t.net, e);
    if e.sent.None? {
      PrimaryQuiet(t, net');
      Unchanged(t, net');
    } else {
      var p := Packet(e.sent.value, Generation(t.net.pri), t.net.pri.sent);
      PrimaryStep(t, net', p);
      ReaderSame(t.fromSec, t.net.sec, t.net.pri, net'.pri);
      assert Added(t.net.toSec, net'.toSec) == [p];
      assert t.fromSec + [] == t.fromSec;
    }
  }

  lemma Unchanged(t: Trace, net': Net)
    requires |net'.toSec| <= |t.net.toSec| && |net'.toPri| <= |t.net.toPri|
    ensures t.fromPri + Added(t.net.toSec, net'.toSec) == t.fromPri
    ensures t.fromSec + Added(t.net.toPri, net'.toPri) == t.fromSec
  {}

  lemma PriDataLogs(t: Trace, ok: bool)
    requires Inv(t.net) && Logged(t)
    ensures Logged(NextTrace(t, PriData(ok)))
  {
    PrimarySends(t, SendData(t.net.pri.st, ok));
    hide Inv, Logged;
  }

  lemma StartLogs(t: Trace, d: Draw, c: Draw, o: Outcome)
    requires Inv(t.net) && Logged(t)
    ensures Logged(NextTrace(t, Start(d, c, o)))
  {
    hide Logged, StartRekeying, Phase, Flow, Uniform, Boundary, Holds, TakeId;
    if t.net.pri.st.rekey {
      Unchanged(t, t.net);
    } else {
      StartEffect(t.net.pri.st, d, c, o, t.net.pri.past);
      PrimarySends(t, StartRekeying(t.net.pri.st, d, c, o));
    }
  }

  // The answer the primary accepts is the last of the secondary's packets,
  // and all of those are of the generation the primary leaves.
  lemma AnswerDivides(t: Trace)
    requires Inv(t.net) && Logged(t) && t.net.sec.past == t.net.pri.past
    ensures forall i :: 0 <= i < |t.fromSec| ==>
      t.fromSec[i].n < t.net.sec.sent && t.fromSec[i].gen <= Generation(t.net.pri)
  {
    hide Inv, AllDivide, Within;
    forall i | 0 <= i < |t.fromSec|
      ensures t.fromSec[i].n < t.net.sec.sent && t.fromSec[i].gen <= Generation(t.net.pri)
    {
      assert Placed(t.fromSec[i], t.net.sec, t.net.pri);
    }
  }

  lemma ConfirmLogs(t: Trace, o: Outcome)
    requires Inv(t.net) && Logged(t) && t.net.toPri != []
    requires t.net.toPri[0].w.body.Rekey? && !t.net.toPri[0].w.body.err
    ensures var net' := PriHandle(t.net.(toPri := t.net.toPri[1..]), t.net.toPri[0], o);
      Logged(Trace(net', t.fromPri + Added(t.net.toSec, net'.toSec), t.fromSec + Added(t.net.toPri, net'.toPri)))
  {
    hide Flow, Uniform, Phase, AllPlaced, AllDivide, Within, Boundary, Controls, ConfirmRekey, TakeId;
    var p := t.net.toPri[0];
    var net' := PriHandle(t.net.(toPri := t.net.toPri[1..]), p, o);
    TakenOnce(t.net.pri);
    PhaseAnswer(t.net);
    AnswerLast(t.net);
    ConfirmEffect(t.net.pri.st, p.w.body.num, o, t.net.pri.past);
    var e := ConfirmRekey(t.net.pri.st, false, p.w.body.num, o);
    if e.sent.None? {
      PrimaryQuiet(t, net');
      Unchanged(t, net');
    } else {
      var w := Packet(e.sent.value, Generation(t.net.pri), t.net.pri.sent);
      PrimaryStep(t, net', w);
      AnswerDivides(t);
      ReaderRenews(t.fromSec, t.net.sec, t.net.pri, net'.pri);
      assert Added(t.net.toSec, net'.toSec) == [w];
      assert t.fromSec + [] == t.fromSec;
    }
  }

  lemma PriReceiveLogs(t: Trace, o: Outcome)
    requires Inv(t.net) && HeadSelectsKey1(t.net.pri, t.net.toPri) && Logged(t)
    ensures Logged(NextTrace(t, PriReceive(o)))
  {
    hide Inv, Logged, HeadSelectsKey1, Readable, Controls;
    if t.net.toPri == [] {
      Unchanged(t, t.net);
    } else {
      PriReadsExact(t.net);
      var p := t.net.toPri[0];
      if p.w.body.Rekey? && !p.w.body.err {
        ConfirmLogs(t, o);
      } else {
        var net' := Next(t.net, PriReceive(o));
        Unchanged(t, net');
        PriAccepts(t, net');
      }
    }
  }

  lemma PriAccepts(t: Trace, net': Net)
    requires Logged(t) && net'.sec == t.net.sec && net'.toSec == t.net.toSec
    requires net'.pri.past == t.net.pri.past && net'.pri.sent >= t.net.pri.sent
    requires net'.pri.lo == t.net.pri.lo && net'.pri.hi == t.net.pri.hi
    ensures Logged(Trace(net', t.fromPri, t.fromSec))
  {
    PrimaryQuiet(t, net');
    hide AllPlaced, AllDivide, Within;
  }

  // -----------------------------------------------------------------------
  // Steps that send from the secondary.

  lemma SecondaryMoves(t: Trace, net': Net)
    requires Logged(t) && net'.pri == t.net.pri
    requires net'.sec.past == t.net.sec.past && net'.sec.lo == t.net.sec.lo && net'.sec.hi == t.net.sec.hi
    ensures AllPlaced(t.fromPri, net'.pri, net'.sec) && AllDivide(t.fromPri, net'.pri)
    ensures net'.sec.sent >= t.net.sec.sent ==> AllPlaced(t.fromSec, net'.sec, net'.pri)
  {
    hide AllPlaced, AllDivide, Within;
    ReaderSame(t.fromPri, t.net.pri, t.net.sec, net'.sec);
    if net'.sec.sent >= t.net.sec.sent {
      SenderMoves(t.fromSec, t.net.sec, net'.sec, t.net.pri);
    }
  }

  // A secondary that is level posts a packet.
  lemma SecondaryPosts(t: Trace, net': Net, w: Wire)
    requires Inv(t.net) && Logged(t) && t.net.sec.past == t.net.pri.past
    requires net'.pri == t.net.pri && net'.sec.sent == t.net.sec.sent + 1
    requires net'.sec.past == t.net.sec.past && net'.sec.lo == t.net.sec.lo && net'.sec.hi == t.net.sec.hi
    requires w.id == t.net.sec.st.sseq && w.dat == t.net.sec.st.keys.datenc1 && w.ctl == t.net.sec.st.keys.ctlenc1
    requires net'.toPri == Post(t.net.toPri, t.net.sec, Some(w))
    requires net'.toSec == t.net.toSec || (t.net.toSec != [] && net'.toSec == t.net.toSec[1..])
    ensures Logged(Trace(net', t.fromPri + Added(t.net.toSec, net'.toSec), t.fromSec + Added(t.net.toPri, net'.toPri)))
  {
    var p := Packet(w, Generation(t.net.sec), t.net.sec.sent);
    assert Within(net'.toSec, t.fromPri);
    assert t.net.pri.hi <= t.net.sec.sent;
    hide Flow, Uniform, Phase, AllPlaced, AllDivide, Within, Boundary, Controls;
    SecondaryMoves(t, net');
    SenderPosts(t.fromSec, t.net.sec, net'.sec, t.net.pri, p);
    assert Added(t.net.toPri, net'.toPri) == [p];
    assert t.fromPri + [] == t.fromPri;
  }

  lemma SecondaryQuiet(t: Trace, net': Net)
    requires Logged(t) && net'.pri == t.net.pri && net'.sec.sent >= t.net.sec.sent && net'.toPri == t.net.toPri
    requires net'.sec.past == t.net.sec.past && net'.sec.lo == t.net.sec.lo && net'.sec.hi == t.net.sec.hi
    requires net'.toSec == t.net.toSec || (t.net.toSec != [] && net'.toSec == t.net.toSec[1..])
    ensures Logged(Trace(net', t.fromPri + Added(t.net.toSec, net'.toSec), t.fromSec + Added(t.net.toPri, net'.toPri)))
  {
    assert Within(net'.toSec, t.fromPri);
    hide AllPlaced, AllDivide, Within;
    SecondaryMoves(t, net');
    Unchanged(t, net');
  }

  lemma SecDataLogs(t: Trace, ok: bool)
    requires Inv(t.net) && Logged(t)
    ensures Logged(NextTrace(t, SecData(ok)))
  {
    hide Flow, Uniform, Phase, Logged, Boundary, Controls, TakeId, Holds;
    var net' := Next(t.net, SecData(ok));
    var e := SendData(t.net.sec.st, ok);
    TakenOnce(t.net.sec);
    if e.sent.Some? {
      PhaseNoConfirm(t.net);
      Level(t.net);
      SecondaryPosts(t, net', e.sent.value);
    } else {
      SecondaryQuiet(t, net');
    }
  }

  lemma SecReplaceLogs(t: Trace, o: Outcome)
    requires Inv(t.net) && Logged(t) && t.net.toSec != [] && t.net.toSec[0].w.body.ReplaceKey?
    ensures var net' := SecHandle(t.net.(toSec := t.net.toSec[1..]), t.net.toSec[0], o);
      Logged(Trace(net', t.fromPri + Added(t.net.toSec, net'.toSec), t.fromSec + Added(t.net.toPri, net'.toPri)))
  {
    hide Flow, Uniform, Phase, Logged, Boundary, Controls, TakeId, Holds, AnswerReplaceKey, OfferPending;
    var body := t.net.toSec[0].w.body;
    var net' := SecHandle(t.net.(toSec := t.net.toSec[1..]), t.net.toSec[0], o);
    TakenOnce(t.net.sec);
    PhaseOffer(t.net);
    AnswerEffect(t.net.sec.st, body.dat, body.ctl, o, t.net.sec.past);
    var e := AnswerReplaceKey(t.net.sec.st, body.dat, body.ctl, o);
    if e.sent.Some? {
      SecondaryPosts(t, net', e.sent.value);
    } else {
      SecondaryQuiet(t, net');
    }
  }

  lemma SecRekeyLogs(t: Trace, o: Outcome)
    requires Inv(t.net) && Logged(t) && t.net.toSec != [] && t.net.toSec[0].w.body.Rekey?
    ensures var net' := SecHandle(t.net.(toSec := t.net.toSec[1..]), t.net.toSec[0], o);
      Logged(Trace(net', t.fromPri + Added(t.net.toSec, net'.toSec), t.fromSec + Added(t.net.toPri, net'.toPri)))
  {
    var r := t.net.toSec[0];
    var net' := SecHandle(t.net.(toSec := t.net.toSec[1..]), r, o);
    SecTakes(t.net);
    RekeyDivides(t);
    assert Within(net'.toSec, t.fromPri);
    hide Flow, Uniform, Phase, AllPlaced, AllDivide, Within, Boundary, Controls, SideOk;
    ReaderRenews(t.fromPri, t.net.pri, t.net.sec, net'.sec);
    SenderMoves(t.fromSec, t.net.sec, net'.sec, t.net.pri);
    Unchanged(t, net');
  }

  lemma RekeyDivides(t: Trace)
    requires Inv(t.net) && Logged(t) && t.net.toSec != [] && t.net.toSec[0].w.body.Rekey?
    ensures var r := t.net.toSec[0];
      r.gen == Generation(t.net.sec)
      && forall i :: 0 <= i < |t.fromPri| ==> (t.fromPri[i].n > r.n <==> t.fromPri[i].gen > r.gen)
  {
    var r := t.net.toSec[0];
    hide Uniform, Phase, AllPlaced, SideOk, Controls;
    assert r in t.fromPri;
    var i :| 0 <= i < |t.fromPri| && t.fromPri[i] == r;
    assert Divides(t.fromPri, t.fromPri[i]);
  }

  lemma SecReceiveLogs(t: Trace, o: Outcome)
    requires Inv(t.net) && HeadSelectsKey1(t.net.sec, t.net.toSec) && Logged(t)
    ensures Logged(NextTrace(t, SecReceive(o)))
  {
    hide Inv, Logged, HeadSelectsKey1, Readable, AnswerReplaceKey, FinishRekey;
    if t.net.toSec == [] {
      Unchanged(t, t.net);
    } else {
      SecReadsExact(t.net);
      var p := t.net.toSec[0];
      match p.w.body {
        case Data => SecondaryQuiet(t, Next(t.net, SecReceive(o)));
        case ReplaceKey(_, _) => SecReplaceLogs(t, o);
        case Rekey(_, _) => SecRekeyLogs(t, o);
      }
    }
  }

  // -----------------------------------------------------------------------
  // Runs.

  lemma LogsNext(t: Trace, step: Step)
    requires Inv(t.net) && InTime(t.net, step) && Logged(t)
    ensures Logged(NextTrace(t, step))
  {
    hide Inv, Logged, HeadSelectsKey1, NextTrace;
    match step
    case PriData(ok) => PriDataLogs(t, ok);
    case SecData(ok) => SecDataLogs(t, ok);
    case Start(d, c, o) => StartLogs(t, d, c, o);
    case PriReceive(o) => PriReceiveLogs(t, o);
    case SecReceive(o) => SecReceiveLogs(t, o);
  }

  lemma LogsStart(u: Setup)
    ensures Logged(Trace(Initial(u), [], []))
  {}

  lemma {:induction false} LogsRun(u: Setup, steps: seq<Step>)
    requires InTimeRun(Initial(u), steps)
    ensures Logged(RunTrace(u, steps)) && Inv(Run(Initial(u), steps))
  {
    hide Inv, Next, InTime, InTimeRun, Logged, NextTrace, Initial, Run;
    InvInitial(u);
    RunExact(Initial(u), steps);
    if steps == [] {
      LogsStart(u);
    } else {
      InTimeSplit(Initial(u), steps);
      LogsRun(u, steps[..|steps| - 1]);
      LogsNext(RunTrace(u, steps[..|steps| - 1]), steps[|steps| - 1]);
    }
  }

  // Whatever the primary has sent in a run so far, handed to the secondary at
  // any moment and in any order, within a lap of its older boundary.
  lemma LateAtSecondary(u: Setup, steps: seq<Step>, i: nat)
    requires InTimeRun(Initial(u), steps) && i < |RunTrace(u, steps).fromPri|
    requires var r := Run(Initial(u), steps).sec;
      r.hi < r.lo + LAP && RunTrace(u, steps).fromPri[i].n < r.lo + LAP
    ensures var p, r := RunTrace(u, steps).fromPri[i], Run(Initial(u), steps).sec;
      Readable(r, p) <==>
        (p.gen == Generation(r) || (p.gen == Generation(r) - 1 && r.st.rID0 <= r.st.rID1))
  {
    LogsRun(u, steps);
    var t := RunTrace(u, steps);
    hide Flow, Uniform, Phase, AllDivide, Within, Run, RunTrace, Initial, InTimeRun, Readable;
    LateReadable(t.fromPri[i], t.net.pri, t.net.sec);
  }

  lemma LateAtPrimary(u: Setup, steps: seq<Step>, i: nat)
    requires InTimeRun(Initial(u), steps) && i < |RunTrace(u, steps).fromSec|
    requires var r := Run(Initial(u), steps).pri;
      r.hi < r.lo + LAP && RunTrace(u, steps).fromSec[i].n < r.lo + LAP
    ensures var p, r := RunTrace(u, steps).fromSec[i], Run(Initial(u), steps).pri;
      Readable(r, p) <==>
        (p.gen == Generation(r) || (p.gen == Generation(r) - 1 && r.st.rID0 <= r.st.rID1))
  {
    LogsRun(u, steps);
    var t := RunTrace(u, steps);
    hide Flow, Uniform, Phase, AllDivide, Within, Run, RunTrace, Initial, InTimeRun, Readable;
    LateReadable(t.fromSec[i], t.net.sec, t.net.pri);
  }

  // Of all the packets a side has sent in a run no two less than a lap apart
  // have the same id, and none has id 0.
  lemma SentIdsDistinct(u: Setup, steps: seq<Step>, i: nat, j: nat)
    requires InTimeRun(Initial(u), steps)
    ensures var q := RunTrace(u, steps).fromPri;
      i < j < |q| && q[j].n < q[i].n + LAP ==> q[i].w.id != q[j].w.id && q[i].w.id > 0
    ensures var q := RunTrace(u, steps).fromSec;
      i < j < |q| && q[j].n < q[i].n + LAP ==> q[i].w.id != q[j].w.id && q[i].w.id > 0
  {
    LogsRun(u, steps);
    var t := RunTrace(u, steps);
    hide Inv, Run, RunTrace, Initial, InTimeRun, AllDivide, Within, Sealed;
    PlacedIdsDistinct(t.fromPri, t.net.pri, t.net.sec, i, j);
    PlacedIdsDistinct(t.fromSec, t.net.sec, t.net.pri, i, j);
  }

  lemma PlacedIdsDistinct(q: seq<Packet>, s: Side, r: Side, i: nat, j: nat)
    requires AllPlaced(q, s, r)
    ensures i < j < |q| && q[j].n < q[i].n + LAP ==> q[i].w.id != q[j].w.id && q[i].w.id > 0
  {
    if i < j < |q| && q[j].n < q[i].n + LAP {
      assert Placed(q[i], s, r) && Placed(q[j], s, r);
      IdsDistinct(q[i].n, q[j].n);
    }
  }
}
