// What holds in every run: no packet is ever read with the wrong key, the two
// sides agree on their keys, and a lost answer is the one thing that stops
// the primary for good.

module RekeySafety {
  import opened Bytes
  import opened SequenceIds
  import opened SessionSpec
  import opened RekeyProtocol
  import opened RekeyInvariant

  lemma InvInitial(u: Setup)
    ensures Inv(Initial(u))
  {
    assert Controls([]) == [];
  }

  // The packet read in this step, if one is, selects key 1.
  predicate InTime(net: Net, step: Step) {
    && (step.SecReceive? ==> HeadSelectsKey1(net.sec, net.toSec))
    && (step.PriReceive? ==> HeadSelectsKey1(net.pri, net.toPri))
  }

  lemma PacedInTime(net: Net, step: Step)
    requires Inv(net) && Paced(net)
    ensures InTime(net, step)
  {
    hide Inv, Paced, HeadSelectsKey1;
    SecPaced(net);
    PriPaced(net);
  }

  lemma SecReadKeeps(net: Net, o: Outcome)
    requires Inv(net) && HeadSelectsKey1(net.sec, net.toSec) && net.toSec != []
    ensures Inv(Next(net, SecReceive(o)))
  {
    SecReadsExact(net);
    var body := net.toSec[0].w.body;
    if body.Data? {
      SecDataRead(net);
    } else if body.Rekey? {
      SecRekeyRead(net, o);
    } else {
      SecReplaceRead(net, o);
    }
    hide Inv, Readable, FinishRekey, AnswerReplaceKey, HeadSelectsKey1;
  }

  lemma PriReadKeeps(net: Net, o: Outcome)
    requires Inv(net) && HeadSelectsKey1(net.pri, net.toPri) && net.toPri != []
    ensures Inv(Next(net, PriReceive(o)))
  {
    PriReadsExact(net);
    var body := net.toPri[0].w.body;
    if body.Data? {
      PriDataRead(net);
    } else {
      PhaseAnswer(net);
      if body.err {
        PriErrorRead(net, o);
      } else {
        PriRekeyRead(net, o);
      }
    }
    hide Inv, Readable, ConfirmRekey, AnswerPending, Controls, HeadSelectsKey1;
  }

  lemma SecKeeps(net: Net, o: Outcome)
    requires Inv(net) && Paced(net) && net.toSec != []
    ensures Inv(Next(net, SecReceive(o)))
  {
    hide Inv, Paced, Next, HeadSelectsKey1;
    SecPaced(net);
    SecReadKeeps(net, o);
  }

  lemma PriKeeps(net: Net, o: Outcome)
    requires Inv(net) && Paced(net) && net.toPri != []
    ensures Inv(Next(net, PriReceive(o)))
  {
    hide Inv, Paced, Next, HeadSelectsKey1;
    PriPaced(net);
    PriReadKeeps(net, o);
  }

  lemma InvNext(net: Net, step: Step)
    requires Inv(net) && InTime(net, step)
    ensures Inv(Next(net, step))
  {
    hide Inv, HeadSelectsKey1, PriHandle, SecHandle, Readable;
    match step
    case PriData(ok) => PriDataKeeps(net, ok);
    case SecData(ok) => SecDataKeeps(net, ok);
    case Start(d, c, o) =>
      if !net.pri.st.rekey {
        StartKeeps(net, d, c, o);
      }
    case PriReceive(o) =>
      if net.toPri != [] {
        PriReadKeeps(net, o);
      }
    case SecReceive(o) =>
      if net.toSec != [] {
        SecReadKeeps(net, o);
      }
  }

  // A step keeps the invariant exactly when it reads in time; otherwise it
  // decrypts with the wrong key.
  lemma NextExact(net: Net, step: Step)
    requires Inv(net)
    ensures InTime(net, step) <==> !Next(net, step).garbled
  {
    if InTime(net, step) {
      InvNext(net, step);
    } else if step.SecReceive? {
      SecReadsExact(net);
      hide Inv, Readable;
    } else {
      PriReadsExact(net);
      hide Inv, Readable;
    }
  }

  lemma GarbledStays(net: Net, step: Step)
    requires net.garbled
    ensures Next(net, step).garbled
  {
    hide Readable, StartRekeying, ConfirmRekey, AnswerReplaceKey, FinishRekey;
  }

  // Every packet a run reads selects key 1 when it is read.
  ghost predicate InTimeRun(net: Net, steps: seq<Step>) {
    forall i :: 0 <= i < |steps| ==> InTime(Run(net, steps[..i]), steps[i])
  }

  lemma InTimeSplit(net: Net, steps: seq<Step>)
    requires steps != []
    ensures var front, last := steps[..|steps| - 1], steps[|steps| - 1];
      InTimeRun(net, steps) <==> InTimeRun(net, front) && InTime(Run(net, front), last)
  {
    hide Run, InTime;
    var front := steps[..|steps| - 1];
    assert forall i :: 0 <= i < |front| ==> front[..i] == steps[..i] && front[i] == steps[i];
  }

  // A run goes without a wrong decryption exactly when it reads in time; the
  // invariant then holds at its end.
  lemma {:induction false} RunExact(net: Net, steps: seq<Step>)
    requires Inv(net)
    ensures InTimeRun(net, steps) <==> !Run(net, steps).garbled
    ensures InTimeRun(net, steps) ==> Inv(Run(net, steps))
  {
    if steps != [] {
      var front, last := steps[..|steps| - 1], steps[|steps| - 1];
      hide Inv, Next, InTime, InTimeRun;
      RunExact(net, front);
      InTimeSplit(net, steps);
      var before := Run(net, front);
      if InTimeRun(net, front) {
        NextExact(before, last);
        if InTime(before, last) {
          InvNext(before, last);
        }
      } else {
        GarbledStays(before, last);
      }
    }
  }

  // Without any bound on ids: through any number of rekeys, error answers and
  // failed sends, every packet is decrypted with the keys that encrypted it
  // exactly when no packet read is one whose id the test takes for old.
  lemma GarbledExact(u: Setup, steps: seq<Step>)
    ensures !Run(Initial(u), steps).garbled <==> InTimeRun(Initial(u), steps)
  {
    InvInitial(u);
    RunExact(Initial(u), steps);
  }

  // A reader whose boundaries are equal or have wrapped past each other takes
  // no id for old, however many are used.
  lemma NeverOld(r: Side, q: seq<Packet>)
    requires r.st.rID0 >= r.st.rID1
    ensures HeadSelectsKey1(r, q)
  {}

  // No exchange of keys has been begun.
  predicate Untouched(net: Net) {
    && net.pri.st.rID0 == net.pri.st.rID1 && net.sec.st.rID0 == net.sec.st.rID1
    && Controls(net.toSec) == [] && Controls(net.toPri) == []
  }

  lemma UntouchedReads(net: Net, step: Step)
    requires Inv(net) && Untouched(net) && (step.PriReceive? || step.SecReceive?)
    ensures Untouched(Next(net, step))
  {
    if step.PriReceive? && net.toPri != [] {
      PriTakes(net);
      ControlsSeen(net.toPri, 0);
    }
    if step.SecReceive? && net.toSec != [] {
      SecTakes(net);
      ControlsSeen(net.toSec, 0);
    }
    hide Inv, Controls, Readable;
  }

  lemma UntouchedNext(net: Net, step: Step)
    requires Inv(net) && Untouched(net) && !step.Start?
    ensures InTime(net, step) && Untouched(Next(net, step))
  {
    NeverOld(net.pri, net.toPri);
    NeverOld(net.sec, net.toSec);
    match step
    case PriData(ok) =>
      PriPosts(net, Data);
      hide Inv, Controls;
    case SecData(ok) =>
      var w := Wire(net.sec.st.sseq, Data, net.sec.st.keys.datenc1, net.sec.st.keys.ctlenc1);
      ControlsAppend(net.toPri, Packet(w, Generation(net.sec), net.sec.sent));
      hide Inv, Controls;
    case _ => UntouchedReads(net, step);
  }

  lemma {:induction false} UntouchedRun(net: Net, steps: seq<Step>)
    requires Inv(net) && Untouched(net) && forall i :: 0 <= i < |steps| ==> !steps[i].Start?
    ensures InTimeRun(net, steps) && Untouched(Run(net, steps))
  {
    if steps != [] {
      var front, last := steps[..|steps| - 1], steps[|steps| - 1];
      hide Inv, Next, InTime, InTimeRun, Untouched;
      UntouchedRun(net, front);
      RunExact(net, front);
      InTimeSplit(net, steps);
      UntouchedNext(Run(net, front), last);
    } else {
      hide Inv, Untouched;
    }
  }

  // So a session that never rekeys may use any number of ids, round and round.
  lemma NeverRekeyed(u: Setup, steps: seq<Step>)
    requires forall i :: 0 <= i < |steps| ==> !steps[i].Start?
    ensures !Run(Initial(u), steps).garbled
  {
    InvInitial(u);
    assert Controls([]) == [];
    UntouchedRun(Initial(u), steps);
    RunExact(Initial(u), steps);
  }

  // No state of the run has a side more than a lap of ids past a boundary.
  ghost predicate PacedRun(net: Net, steps: seq<Step>) {
    forall i :: 0 <= i < |steps| ==> Paced(Run(net, steps[..i]))
  }

  lemma PacedFront(net: Net, steps: seq<Step>)
    requires PacedRun(net, steps) && steps != []
    ensures PacedRun(net, steps[..|steps| - 1]) && Paced(Run(net, steps[..|steps| - 1]))
  {
    hide Run, Paced;
    var front := steps[..|steps| - 1];
    assert forall i :: 0 <= i < |front| ==> front[..i] == steps[..i];
  }

  lemma {:induction false} PacedRunInTime(net: Net, steps: seq<Step>)
    requires Inv(net) && PacedRun(net, steps)
    ensures InTimeRun(net, steps)
  {
    if steps != [] {
      var front, last := steps[..|steps| - 1], steps[|steps| - 1];
      hide Inv, Next, Paced, PacedRun, InTime, InTimeRun, Run;
      PacedFront(net, steps);
      PacedRunInTime(net, front);
      RunExact(net, front);
      PacedInTime(Run(net, front), last);
      InTimeSplit(net, steps);
    } else {
      assert InTimeRun(net, []);
    }
  }

  lemma InvRun(net: Net, steps: seq<Step>)
    requires Inv(net) && PacedRun(net, steps)
    ensures Inv(Run(net, steps))
  {
    PacedRunInTime(net, steps);
    RunExact(net, steps);
  }

  // So the pace is enough.
  lemma NeverGarbled(u: Setup, steps: seq<Step>)
    requires PacedRun(Initial(u), steps)
    ensures !Run(Initial(u), steps).garbled
  {
    InvInitial(u);
    InvRun(Initial(u), steps);
  }

  // -----------------------------------------------------------------------
  // Agreement on keys.

  ghost predicate RekeyInTransit(q: seq<Packet>) {
    exists i :: 0 <= i < |q| && q[i].w.body.Rekey?
  }

  lemma {:induction false} CountInTransit(q: seq<Packet>)
    ensures RekeyCount(Controls(q)) > 0 <==> RekeyInTransit(q)
  {
    if q != [] {
      var rest := q[1..];
      CountInTransit(rest);
      assert [] + Controls(rest) == Controls(rest);
      assert !q[0].w.body.Data? ==> Controls(q)[1..] == Controls(rest);
      if RekeyInTransit(rest) {
        var i :| 0 <= i < |rest| && rest[i].w.body.Rekey?;
        assert q[i + 1].w.body.Rekey?;
      }
      if RekeyInTransit(q) {
        var i :| 0 <= i < |q| && q[i].w.body.Rekey?;
        assert i > 0 ==> rest[i - 1].w.body.Rekey?;
      }
    }
  }

  lemma RekeyCountShort(a: seq<Body>)
    requires |a| <= 1 || (|a| == 2 && !a[1].Rekey?)
    ensures RekeyCount(a) <= 1
  {
    if |a| > 0 {
      assert |a| == 2 ==> a[1..] == [a[1]] && [a[1]][1..] == [];
    }
  }

  lemma AtMostOneRekey(net: Net)
    requires Phase(net)
    ensures RekeyCount(Controls(net.toSec)) <= 1
  {
    hide Controls, AnswerPending, ConfirmPending, RekeyCount;
    RekeyCountShort(Controls(net.toSec));
  }

  // Same keys in the same slots: sealing by one side opens at the other.
  predicate Agree(a: Keys, b: Keys) {
    && a.datenc1 == b.datdec1 && a.datdec1 == b.datenc1 && a.ctlenc1 == b.ctldec1 && a.ctldec1 == b.ctlenc1
    && a.datenc0 == b.datdec0 && a.datdec0 == b.datenc0 && a.ctlenc0 == b.ctldec0 && a.ctldec0 == b.ctlenc0
  }

  // The secondary's key 1 is the primary's key 0.
  predicate OneBehind(pri: Keys, sec: Keys) {
    && pri.datenc0 == sec.datdec1 && pri.datdec0 == sec.datenc1
    && pri.ctlenc0 == sec.ctldec1 && pri.ctldec0 == sec.ctlenc1
  }

  lemma HoldsAgree(a: Keys, b: Keys, past: seq<KeyPair>)
    requires Holds(a, past) && Holds(b, past)
    ensures Agree(a, b)
  {}

  lemma HoldsBehind(a: Keys, b: Keys, past: seq<KeyPair>, front: seq<KeyPair>)
    requires Holds(a, past) && Holds(b, front)
    requires front <= past && |past| == |front| + 1
    ensures OneBehind(a, b)
  {}

  lemma StateAgreement(net: Net)
    requires Inv(net)
    ensures if RekeyInTransit(net.toSec)
      then Generation(net.pri) == Generation(net.sec) + 1 && OneBehind(net.pri.st.keys, net.sec.st.keys)
      else net.pri.past == net.sec.past && Agree(net.pri.st.keys, net.sec.st.keys)
  {
    hide Controls, Uniform, Boundary, Flow, Phase, Holds, OneBehind, Agree, RekeyInTransit;
    FlowLag(net.toSec, Generation(net.sec), net.pri.past, net.sec.hi, net.pri.sent);
    CountInTransit(net.toSec);
    AtMostOneRekey(net);
    if RekeyInTransit(net.toSec) {
      HoldsBehind(net.pri.st.keys, net.sec.st.keys, net.pri.past, net.sec.past);
    } else {
      assert net.sec.past == net.pri.past;
      HoldsAgree(net.pri.st.keys, net.sec.st.keys, net.pri.past);
    }
  }

  // The secondary is level with the primary, or exactly one rekey behind while
  // the primary's REKEY is on its way and at no other time.
  // On both sides key 1 is the last pair of keys taken up and key 0 the one
  // before.
  lemma Agreement(u: Setup, steps: seq<Step>)
    requires InTimeRun(Initial(u), steps)
    ensures var net := Run(Initial(u), steps);
      if RekeyInTransit(net.toSec)
      then Generation(net.pri) == Generation(net.sec) + 1 && OneBehind(net.pri.st.keys, net.sec.st.keys)
      else net.pri.past == net.sec.past && Agree(net.pri.st.keys, net.sec.st.keys)
    ensures var net := Run(Initial(u), steps);
      Holds(net.pri.st.keys, net.pri.past) && Holds(net.sec.st.keys, net.sec.past) && net.sec.past <= net.pri.past
  {
    hide Inv, Run, OneBehind, Agree, RekeyInTransit, Holds, InTimeRun;
    InvInitial(u);
    RunExact(Initial(u), steps);
    StateAgreement(Run(Initial(u), steps));
    StateHolds(Run(Initial(u), steps));
  }

  lemma StateHolds(net: Net)
    requires Inv(net)
    ensures Holds(net.pri.st.keys, net.pri.past) && Holds(net.sec.st.keys, net.sec.past)
    ensures net.sec.past <= net.pri.past
  {}

  // -----------------------------------------------------------------------
  // Packet ids.

  lemma {:induction false} FlowIds(q: seq<Packet>, g: int, past: seq<KeyPair>, n: nat, m: nat, i: nat)
    requires Flow(q, g, past, n, m) && i < |q|
    ensures q[i].w.id == Id(q[i].n) && n <= q[i].n
  {
    if i > 0 {
      FlowIds(q[1..], g + Renews(q[0]), past, q[0].n + 1, m, i - 1);
    }
  }

  // No packet carries id 0.
  lemma IdsNonZero(u: Setup, steps: seq<Step>)
    requires InTimeRun(Initial(u), steps)
    ensures var net := Run(Initial(u), steps);
      && (forall i :: 0 <= i < |net.toSec| ==> 0 < net.toSec[i].w.id < WORD)
      && (forall i :: 0 <= i < |net.toPri| ==> 0 < net.toPri[i].w.id < WORD)
      && 0 < net.pri.st.sseq < WORD && 0 < net.sec.st.sseq < WORD
  {
    InvInitial(u);
    RunExact(Initial(u), steps);
    var net := Run(Initial(u), steps);
    hide Run, Controls, Boundary, InTimeRun, Initial, Phase, Flow, Holds;
    forall i | 0 <= i < |net.toSec|
      ensures 0 < net.toSec[i].w.id < WORD
    {
      FlowIds(net.toSec, Generation(net.sec), net.pri.past, net.sec.hi, net.pri.sent, i);
    }
  }

  // The primary announces the id of its first packet under the new key, in
  // the last packet under the old one.
  lemma PrimaryAnnounces(net: Net, o: Outcome)
    requires Inv(net)
    requires var net' := Next(net, PriReceive(o)); Generation(net'.pri) > Generation(net.pri)
    ensures var net' := Next(net, PriReceive(o));
      && |net'.toSec| == |net.toSec| + 1
      && net'.toSec[|net.toSec|].w.body == Rekey(false, net'.pri.st.sseq)
      && net'.toSec[|net.toSec|].gen == Generation(net.pri)
      && net'.pri.st.rID1 == net.sec.st.sseq && net.sec.st.rekey
  {
    var p := net.toPri[0];
    assert !p.w.body.Data?;
    PhaseAnswer(net);
    hide Phase, Controls, Flow, Uniform, Boundary, Readable;
    AnswerLast(net);
  }

  // The secondary takes no id between announcing it and using the new key.
  lemma SecondaryKept(net: Net, o: Outcome)
    requires Inv(net)
    requires var net' := Next(net, SecReceive(o)); Generation(net'.sec) > Generation(net.sec)
    ensures var net' := Next(net, SecReceive(o));
      && net'.sec.st.rID1 == net.toSec[0].w.body.num
      && net'.pri.hi == net'.sec.sent
      && Boundary(net'.pri.st.rID1, net'.sec.sent)
      && net'.pri.past == net'.sec.past
      && net'.toPri == []
  {
    PhaseConfirm(net);
    SecTakes(net);
    hide Phase, Controls, Flow, Uniform, Readable, Boundary;
  }

  // -----------------------------------------------------------------------
  // The primary can be stopped for good.

  // The primary waits and nothing that could release it is on its way.
  predicate Stuck(net: Net) {
    net.pri.st.rekey && Controls(net.toSec) == [] && Controls(net.toPri) == []
  }

  // Nothing ever releases it: it will send no further data.
  lemma StuckStays(net: Net, step: Step)
    requires Inv(net) && InTime(net, step) && Stuck(net)
    ensures Stuck(Next(net, step)) && Next(net, step).pri.sent == net.pri.sent
  {
    match step
    case PriData(ok) =>
    case Start(d, c, o) =>
    case SecData(ok) =>
      var w := Wire(net.sec.st.sseq, Data, net.sec.st.keys.datenc1, net.sec.st.keys.ctlenc1);
      ControlsAppend(net.toPri, Packet(w, Generation(net.sec), net.sec.sent));
    case PriReceive(o) =>
      if net.toPri != [] {
        PriReadsExact(net);
        PriTakes(net);
        ControlsSeen(net.toPri, 0);
        hide Inv, Controls, Readable, HeadSelectsKey1;
      }
    case SecReceive(o) =>
      if net.toSec != [] {
        SecReadsExact(net);
        SecTakes(net);
        ControlsSeen(net.toSec, 0);
        hide Inv, Controls, Readable, HeadSelectsKey1;
      }
  }

  lemma {:induction false} StuckForever(net: Net, steps: seq<Step>)
    requires Inv(net) && Stuck(net) && InTimeRun(net, steps)
    ensures Stuck(Run(net, steps)) && Run(net, steps).pri.sent == net.pri.sent
  {
    if steps != [] {
      var front := steps[..|steps| - 1];
      InTimeSplit(net, steps);
      hide Inv, Next, InTime, InTimeRun, Stuck;
      StuckForever(net, front);
      RunExact(net, front);
      StuckStays(Run(net, front), steps[|steps| - 1]);
    }
  }

  // The answer to an offer is lost, or never sent.
  predicate AnswerLost(net: Net, step: Step) {
    && step.SecReceive? && step.o != Delivered
    && net.toSec != [] && net.toSec[0].w.body.ReplaceKey?
  }

  lemma StuckByOffer(net: Net, o: Outcome)
    requires Inv(net) && HeadSelectsKey1(net.sec, net.toSec) && net.toSec != [] && net.toSec[0].w.body.ReplaceKey?
    ensures Stuck(Next(net, SecReceive(o))) <==> o != Delivered
  {
    hide Controls, HeadSelectsKey1, Inv, Holds, Readable;
    SecReadsExact(net);
    PhaseOffer(net);
    var body := net.toSec[0].w.body;
    var e := AnswerReplaceKey(net.sec.st, body.dat, body.ctl, o);
    if o == Delivered {
      SecPosts(net, e.sent.value.body);
    }
  }

  lemma StuckBySec(net: Net, o: Outcome)
    requires Inv(net) && HeadSelectsKey1(net.sec, net.toSec) && !Stuck(net) && net.toSec != []
    ensures Stuck(Next(net, SecReceive(o))) <==> AnswerLost(net, SecReceive(o))
  {
    hide Inv, Controls, Readable, HeadSelectsKey1, FinishRekey;
    SecReadsExact(net);
    SecTakes(net);
    var body := net.toSec[0].w.body;
    if body.ReplaceKey? {
      StuckByOffer(net, o);
    } else if body.Rekey? {
      PhaseConfirm(net);
      ConfirmFree(net);
    }
  }

  // While the primary's REKEY is on its way its flag is set only for an offer.
  lemma ConfirmFree(net: Net)
    requires Inv(net) && net.toSec != [] && net.toSec[0].w.body.Rekey?
    ensures net.pri.st.rekey ==> Controls(net.toSec[1..]) != []
  {
    SecTakes(net);
    hide Flow, Controls, Uniform, SideOk, AnswerPending, ConfirmPending;
    assert Controls(net.toSec)[0] == net.toSec[0].w.body;
  }

  lemma ConfirmClears(s: State, err: bool, num: nat, o: Outcome)
    ensures !ConfirmRekey(s, err, num, o).st.rekey
  {}

  lemma StuckByPri(net: Net, o: Outcome)
    requires Inv(net) && HeadSelectsKey1(net.pri, net.toPri) && !Stuck(net) && net.toPri != []
    ensures !Stuck(Next(net, PriReceive(o)))
  {
    hide Inv, Controls, Readable, HeadSelectsKey1, AnswerPending, ConfirmRekey;
    PriReadsExact(net);
    PriTakes(net);
    var body := net.toPri[0].w.body;
    if !body.Data? {
      PhaseAnswer(net);
      ConfirmClears(net.pri.st, body.err, body.num, o);
    }
  }

  lemma StuckBySending(net: Net, step: Step)
    requires Inv(net) && !Stuck(net) && !step.SecReceive? && !step.PriReceive?
    ensures !Stuck(Next(net, step))
  {
    match step
    case PriData(ok) =>
      PriPosts(net, Data);
      hide Inv, Controls;
    case SecData(ok) =>
      var w := Wire(net.sec.st.sseq, Data, net.sec.st.keys.datenc1, net.sec.st.keys.ctlenc1);
      ControlsAppend(net.toPri, Packet(w, Generation(net.sec), net.sec.sent));
      hide Inv, Controls;
    case Start(d, c, o) =>
      if !net.pri.st.rekey {
        StartEffect(net.pri.st, d, c, o, net.pri.past);
        var e := StartRekeying(net.pri.st, d, c, o);
        if e.sent.Some? {
          PriPosts(net, e.sent.value.body);
        }
        hide Inv, Controls, StartRekeying;
      }
  }

  // The primary is stopped exactly when its offer gets no answer.
  lemma StuckExactly(net: Net, step: Step)
    requires Inv(net) && InTime(net, step) && !Stuck(net)
    ensures Stuck(Next(net, step)) <==> AnswerLost(net, step)
  {
    hide Inv, HeadSelectsKey1, Stuck;
    if step.SecReceive? && net.toSec != [] {
      StuckBySec(net, step.o);
    } else if step.PriReceive? && net.toPri != [] {
      StuckByPri(net, step.o);
    } else if !step.SecReceive? && !step.PriReceive? {
      StuckBySending(net, step);
    }
  }
}
