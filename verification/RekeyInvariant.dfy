// The invariant of the rekeying protocol, kept by every step of every run in
// which no side gets a whole lap of ids ahead of its peer's key boundaries.

module RekeyInvariant {
  import opened Bytes
  import opened SequenceIds
  import opened SessionSpec
  import opened RekeyProtocol

  function Current(s: Side): KeyPair
    requires s.past != []
  {
    s.past[|s.past| - 1]
  }

  // Contexts 1 are those of the last key pair, contexts 0 those before it.
  predicate Holds(k: Keys, past: seq<KeyPair>) {
    && past != []
    && (var c := past[|past| - 1];
        && k.datenc1 == k.datdec1 == Some(c.dat) && k.ctlenc1 == k.ctldec1 == Some(c.ctl))
    && (if |past| == 1 then k.datenc0 == k.datdec0 == k.ctlenc0 == k.ctldec0 == None
        else var c := past[|past| - 2];
          k.datenc0 == k.datdec0 == Some(c.dat) && k.ctlenc0 == k.ctldec0 == Some(c.ctl))
  }

  predicate SideOk(s: Side) {
    && s.st.sseq == Id(s.sent)
    && Boundary(s.st.rID0, s.lo) && Boundary(s.st.rID1, s.hi) && s.lo <= s.hi
    && Holds(s.st.keys, s.past)
  }

  predicate Sealed(w: Wire, k: KeyPair) {
    w.dat == Some(k.dat) && w.ctl == Some(k.ctl)
  }

  function Renews(p: Packet): int {
    if p.w.body.Rekey? then 1 else 0
  }

  // Packets to the secondary: read in order from generation g on, each is of
  // the generation the reader has then reached, and a REKEY moves it on and
  // announces the id that follows. Indices lie between n and m.
  predicate Flow(q: seq<Packet>, g: int, past: seq<KeyPair>, n: nat, m: nat) {
    if q == [] then g == |past| - 1 && n <= m
    else
      var p := q[0];
      && 0 <= g < |past|
      && p.gen == g && Sealed(p.w, past[g]) && p.w.id == Id(p.n) && n <= p.n
      && (p.w.body.Rekey? ==> !p.w.body.err && p.w.body.num == Id(p.n + 1))
      && Flow(q[1..], g + Renews(p), past, p.n + 1, m)
  }

  // Packets to the primary: all of its own generation.
  predicate Uniform(q: seq<Packet>, g: int, k: KeyPair, n: nat, m: nat) {
    && n <= m
    && (forall i :: 0 <= i < |q| ==>
        q[i].gen == g && Sealed(q[i].w, k) && q[i].w.id == Id(q[i].n) && n <= q[i].n < m)
  }

  // The control messages in a channel.
  function Controls(q: seq<Packet>): seq<Body> {
    if q == [] then []
    else (if q[0].w.body.Data? then [] else [q[0].w.body]) + Controls(q[1..])
  }

  // Both keys of an offer are sent in full, so that it can be accepted.
  predicate Whole(b: Body) {
    b.ReplaceKey? && b.dat.Explicit? && b.ctl.Explicit?
  }

  // A whole offer holds the keys the primary will take up.
  predicate OfferPending(net: Net, b: Body) {
    && b.ReplaceKey?
    && net.pri.st.rekey
    && (Whole(b) ==> b.dat.key == net.pri.st.keys.dnewkey && b.ctl.key == net.pri.st.keys.cnewkey)
  }

  // The secondary has accepted the primary's new keys and waits.
  predicate AnswerPending(net: Net, b: Body) {
    && b.Rekey?
    && net.pri.st.rekey
    && (!b.err ==>
        && net.sec.st.rekey
        && net.sec.st.keys.dnewkey == net.pri.st.keys.dnewkey
        && net.sec.st.keys.cnewkey == net.pri.st.keys.cnewkey
        && net.toPri != []
        && (var p := net.toPri[|net.toPri| - 1];
            && p.w.body == b && p.n + 1 == net.sec.sent)
        && b.num == Id(net.sec.sent))
  }

  // The primary has rekeyed; the secondary will on reading its REKEY.
  predicate ConfirmPending(net: Net) {
    && net.sec.st.rekey
    && net.toPri == []
    && net.sec.sent == net.pri.hi
    && net.pri.past == net.sec.past + [KeyPair(net.sec.st.keys.dnewkey, net.sec.st.keys.cnewkey)]
  }

  predicate Phase(net: Net) {
    var a, b := Controls(net.toSec), Controls(net.toPri);
    || (a == [] && b == [])
    || (a == [] && |b| == 1 && AnswerPending(net, b[0]))
    || (b == [] && |a| == 1 && OfferPending(net, a[0]))
    || (b == [] && |a| == 1 && a[0].Rekey? && ConfirmPending(net) && !net.pri.st.rekey)
    || (b == [] && |a| == 2 && a[0].Rekey? && ConfirmPending(net) && OfferPending(net, a[1]))
  }

  predicate Inv(net: Net) {
    && !net.garbled
    && SideOk(net.pri) && SideOk(net.sec)
    && net.sec.past <= net.pri.past
    && Flow(net.toSec, Generation(net.sec), net.pri.past, net.sec.hi, net.pri.sent)
    && Uniform(net.toPri, Generation(net.pri), Current(net.pri), net.pri.hi, net.sec.sent)
    && Phase(net)
  }

  // No id in use is a whole lap past the older boundary of its reader.
  predicate Paced(net: Net) {
    net.pri.sent <= net.sec.lo + LAP && net.sec.sent <= net.pri.lo + LAP
  }

  // -----------------------------------------------------------------------
  // Channels.

  lemma {:induction false} FlowBounds(q: seq<Packet>, g: int, past: seq<KeyPair>, n: nat, m: nat)
    requires Flow(q, g, past, n, m)
    ensures n <= m && g < |past|
  {
    if q != [] {
      FlowBounds(q[1..], g + Renews(q[0]), past, q[0].n + 1, m);
    }
  }

  lemma {:induction false} FlowLater(q: seq<Packet>, g: int, past: seq<KeyPair>, n: nat, m: nat, m': nat)
    requires Flow(q, g, past, n, m) && m <= m'
    ensures Flow(q, g, past, n, m')
  {
    if q != [] {
      FlowLater(q[1..], g + Renews(q[0]), past, q[0].n + 1, m, m');
    }
  }

  // Sending: a data or offer packet keeps the generation, a REKEY adds one.
  lemma {:induction false} FlowAppend(q: seq<Packet>, g: int, past: seq<KeyPair>, n: nat, m: nat, p: Packet,
                                      past': seq<KeyPair>)
    requires Flow(q, g, past, n, m)
    requires p.gen == |past| - 1 >= 0 && Sealed(p.w, past[|past| - 1]) && p.w.id == Id(p.n) && p.n == m
    requires p.w.body.Rekey? ==> !p.w.body.err && p.w.body.num == Id(m + 1)
    requires past <= past' && |past'| == |past| + Renews(p)
    ensures Flow(q + [p], g, past', n, m + 1)
  {
    if q == [] {
      assert (q + [p])[1..] == [];
    } else {
      FlowAppend(q[1..], g + Renews(q[0]), past, q[0].n + 1, m, p, past');
      assert (q + [p])[1..] == q[1..] + [p];
    }
  }

  function RekeyCount(a: seq<Body>): nat {
    if a == [] then 0 else (if a[0].Rekey? then 1 else 0) + RekeyCount(a[1..])
  }

  // A reader is behind by the REKEY messages still to be read.
  lemma {:induction false} FlowLag(q: seq<Packet>, g: int, past: seq<KeyPair>, n: nat, m: nat)
    requires Flow(q, g, past, n, m)
    ensures g + RekeyCount(Controls(q)) == |past| - 1
  {
    if q != [] {
      FlowLag(q[1..], g + Renews(q[0]), past, q[0].n + 1, m);
      assert [] + Controls(q[1..]) == Controls(q[1..]);
      assert !q[0].w.body.Data? ==> Controls(q)[1..] == Controls(q[1..]);
    }
  }

  lemma {:induction false} ControlsAppend(q: seq<Packet>, p: Packet)
    ensures Controls(q + [p]) == Controls(q) + (if p.w.body.Data? then [] else [p.w.body])
  {
    if q == [] {
      assert (q + [p])[1..] == [];
    } else {
      ControlsAppend(q[1..], p);
      assert (q + [p])[1..] == q[1..] + [p];
    }
  }

  // -----------------------------------------------------------------------
  // Reading.

  // The packet next in line is of the reader's generation; it is readable
  // exactly when the test of its id selects key 1.
  predicate HeadSelectsKey1(r: Side, q: seq<Packet>) {
    q != [] ==> SelectsKey1(r.st.rID0, r.st.rID1, q[0].w.id)
  }

  lemma SecReadsExact(net: Net)
    requires Inv(net) && net.toSec != []
    ensures Readable(net.sec, net.toSec[0]) <==> HeadSelectsKey1(net.sec, net.toSec)
  {
    var p := net.toSec[0];
    FlowBounds(net.toSec[1..], Generation(net.sec) + Renews(p), net.pri.past, p.n + 1, net.pri.sent);
    assert net.pri.past[Generation(net.sec)] == Current(net.sec);
  }

  lemma PriReadsExact(net: Net)
    requires Inv(net) && net.toPri != []
    ensures Readable(net.pri, net.toPri[0]) <==> HeadSelectsKey1(net.pri, net.toPri)
  {
    var p := net.toPri[0];
    assert p.gen == Generation(net.pri);
  }

  // While the pace is kept it does.
  lemma SecPaced(net: Net)
    requires Inv(net) && Paced(net)
    ensures HeadSelectsKey1(net.sec, net.toSec)
  {
    if net.toSec != [] {
      var p := net.toSec[0];
      FlowBounds(net.toSec[1..], Generation(net.sec) + Renews(p), net.pri.past, p.n + 1, net.pri.sent);
      CurrentSelectsKey1(net.sec.st.rID0, net.sec.st.rID1, net.sec.lo, net.sec.hi, p.n);
    }
  }

  lemma PriPaced(net: Net)
    requires Inv(net) && Paced(net)
    ensures HeadSelectsKey1(net.pri, net.toPri)
  {
    if net.toPri != [] {
      CurrentSelectsKey1(net.pri.st.rID0, net.pri.st.rID1, net.pri.lo, net.pri.hi, net.toPri[0].n);
    }
  }

  lemma SecReads(net: Net)
    requires Inv(net) && Paced(net) && net.toSec != []
    ensures Readable(net.sec, net.toSec[0])
  {
    hide Inv, Readable;
    SecPaced(net);
    SecReadsExact(net);
  }

  lemma PriReads(net: Net)
    requires Inv(net) && Paced(net) && net.toPri != []
    ensures Readable(net.pri, net.toPri[0])
  {
    hide Inv, Readable;
    PriPaced(net);
    PriReadsExact(net);
  }

  // -----------------------------------------------------------------------
  // Steps.

  lemma TakenOnce(s: Side)
    requires SideOk(s)
    ensures TakeId(s.st).sseq == Id(s.sent + 1) != s.st.sseq
  {
    NextIdIsId(s.sent);
    IdsDistinct(s.sent, s.sent + 1);
  }

  // A packet from the primary that is no REKEY joins the flow.
  lemma PriPosts(net: Net, body: Body)
    requires Inv(net) && !body.Rekey?
    ensures var w := Wire(net.pri.st.sseq, body, net.pri.st.keys.datenc1, net.pri.st.keys.ctlenc1);
      var q := Post(net.toSec, net.pri, Some(w));
      && Flow(q, Generation(net.sec), net.pri.past, net.sec.hi, net.pri.sent + 1)
      && Controls(q) == Controls(net.toSec) + (if body.Data? then [] else [body])
  {
    var w := Wire(net.pri.st.sseq, body, net.pri.st.keys.datenc1, net.pri.st.keys.ctlenc1);
    var p := Packet(w, Generation(net.pri), net.pri.sent);
    FlowAppend(net.toSec, Generation(net.sec), net.pri.past, net.sec.hi, net.pri.sent, p, net.pri.past);
    ControlsAppend(net.toSec, p);
  }

  lemma PriDataKeeps(net: Net, ok: bool)
    requires Inv(net)
    ensures Inv(Next(net, PriData(ok)))
  {
    TakenOnce(net.pri);
    PriPosts(net, Data);
    FlowLater(net.toSec, Generation(net.sec), net.pri.past, net.sec.hi, net.pri.sent, net.pri.sent + 1);
    hide Flow, Controls, Uniform, Holds, Boundary, TakeId;
  }

  // While no offer is out, new drawn keys and spent ids change no phase.
  lemma PhaseQuiet(net: Net, net': Net)
    requires Phase(net) && !net.pri.st.rekey && !net'.pri.st.rekey
    requires net'.sec == net.sec && net'.toPri == net.toPri && Controls(net'.toSec) == Controls(net.toSec)
    requires net'.pri.past == net.pri.past && net'.pri.hi == net.pri.hi
    ensures Phase(net')
  {
    hide Controls;
  }

  lemma PhaseOffered(net: Net, net': Net, b: Body)
    requires Phase(net) && !net.pri.st.rekey
    requires net'.sec == net.sec && net'.toPri == net.toPri && Controls(net'.toSec) == Controls(net.toSec) + [b]
    requires net'.pri.past == net.pri.past && net'.pri.hi == net.pri.hi
    requires OfferPending(net', b)
    ensures Phase(net')
  {
    hide Controls;
  }

  lemma StartEffect(s: State, d: Draw, c: Draw, o: Outcome, past: seq<KeyPair>)
    requires !s.rekey && Holds(s.keys, past)
    ensures var e := StartRekeying(s, d, c, o);
      && Holds(e.st.keys, past)
      && e.st.rID0 == s.rID0 && e.st.rID1 == s.rID1
      && (e.sent.None? ==> !e.st.rekey && e.st.sseq in {s.sseq, TakeId(s).sseq})
      && (e.sent.Some? ==>
          && e.st.rekey && e.st.sseq == TakeId(s).sseq
          && e.sent.value.body.ReplaceKey?
          && e.sent.value == Wire(s.sseq, e.sent.value.body, s.keys.datenc1, s.keys.ctlenc1)
          && (Whole(e.sent.value.body) ==>
              && e.sent.value.body.dat.key == e.st.keys.dnewkey
              && e.sent.value.body.ctl.key == e.st.keys.cnewkey))
  {}

  lemma StartKeeps(net: Net, d: Draw, c: Draw, o: Outcome)
    requires Inv(net) && !net.pri.st.rekey
    ensures Inv(PriSend(net, StartRekeying(net.pri.st, d, c, o)))
  {
    hide Flow, Controls, Uniform, Boundary, TakeId, Holds, Phase, StartRekeying;
    TakenOnce(net.pri);
    StartEffect(net.pri.st, d, c, o, net.pri.past);
    var e := StartRekeying(net.pri.st, d, c, o);
    var net' := PriSend(net, e);
    FlowLater(net.toSec, Generation(net.sec), net.pri.past, net.sec.hi, net.pri.sent, net.pri.sent + 1);
    if e.sent.None? {
      PhaseQuiet(net, net');
    } else {
      PriPosts(net, e.sent.value.body);
      PhaseOffered(net, net', e.sent.value.body);
    }
  }

  // What reading the head of a channel leaves.
  lemma SecTakes(net: Net)
    requires Inv(net) && net.toSec != []
    ensures var p := net.toSec[0];
      && Flow(net.toSec[1..], Generation(net.sec) + Renews(p), net.pri.past, p.n + 1, net.pri.sent)
      && net.sec.hi <= p.n
      && (if p.w.body.Data? then Controls(net.toSec[1..]) == Controls(net.toSec)
          else Controls(net.toSec) == [p.w.body] + Controls(net.toSec[1..]))
      && (p.w.body.Rekey? ==> !p.w.body.err && p.w.body.num == Id(p.n + 1))
  {
    assert [] + Controls(net.toSec[1..]) == Controls(net.toSec[1..]);
  }

  lemma FlowEarlier(q: seq<Packet>, g: int, past: seq<KeyPair>, n: nat, m: nat, n': nat)
    requires Flow(q, g, past, n, m) && n' <= n
    ensures Flow(q, g, past, n', m)
  {}

  // With no REKEY on its way the two sides have used the same keys.
  lemma Level(net: Net)
    requires Inv(net) && RekeyCount(Controls(net.toSec)) == 0
    ensures net.sec.past == net.pri.past
  {
    hide Uniform, SideOk, Phase, Flow, Controls;
    FlowLag(net.toSec, Generation(net.sec), net.pri.past, net.sec.hi, net.pri.sent);
  }

  lemma {:induction false} ControlsSeen(q: seq<Packet>, i: nat)
    requires i < |q| && Controls(q) == []
    ensures q[i].w.body.Data?
  {
    if i > 0 {
      assert q[0].w.body.Data?;
      assert [] + Controls(q[1..]) == Controls(q[1..]);
      ControlsSeen(q[1..], i - 1);
    }
  }

  lemma ShiftHolds(k: Keys, past: seq<KeyPair>)
    requires Holds(k, past)
    ensures Holds(ShiftKeys(k), past + [KeyPair(k.dnewkey, k.cnewkey)])
    ensures ShiftKeys(k).dnewkey == k.dnewkey && ShiftKeys(k).cnewkey == k.cnewkey
  {}

  // -----------------------------------------------------------------------
  // Reading at the secondary.

  // The phase depends on the control messages in the channel only.
  lemma PhaseFramed(net: Net, q: seq<Packet>)
    requires Phase(net) && Controls(q) == Controls(net.toSec)
    ensures Phase(net.(toSec := q))
  {
    hide Controls;
  }

  lemma SecDataRead(net: Net)
    requires Inv(net) && net.toSec != [] && net.toSec[0].w.body.Data?
    ensures Inv(net.(toSec := net.toSec[1..]))
  {
    SecTakes(net);
    PhaseFramed(net, net.toSec[1..]);
    hide Phase;
    FlowEarlier(net.toSec[1..], Generation(net.sec), net.pri.past, net.toSec[0].n + 1, net.pri.sent, net.sec.hi);
    hide Flow, Controls, Uniform, SideOk, AnswerPending, ConfirmPending, OfferPending;
  }

  lemma AnswerEffect(s: State, dat: KeyField, ctl: KeyField, o: Outcome, past: seq<KeyPair>)
    requires Holds(s.keys, past)
    ensures var e := AnswerReplaceKey(s, dat, ctl, o);
      && Holds(e.st.keys, past)
      && e.st.rID0 == s.rID0 && e.st.rID1 == s.rID1
      && (e.sent.None? ==> e.st.sseq in {s.sseq, TakeId(s).sseq})
      && (e.sent.Some? ==>
          && e.st.sseq == TakeId(s).sseq
          && e.sent.value.body.Rekey? && e.sent.value.body.num == TakeId(s).sseq
          && e.sent.value == Wire(s.sseq, e.sent.value.body, s.keys.datenc1, s.keys.ctlenc1)
          && (!e.sent.value.body.err ==>
              e.st.rekey && dat.Explicit? && ctl.Explicit?
              && e.st.keys.dnewkey == dat.key && e.st.keys.cnewkey == ctl.key))
  {}

  // A packet from a secondary that is level joins the channel.
  lemma SecPosts(net: Net, body: Body)
    requires Inv(net) && net.sec.past == net.pri.past
    ensures var w := Wire(net.sec.st.sseq, body, net.sec.st.keys.datenc1, net.sec.st.keys.ctlenc1);
      var q := Post(net.toPri, net.sec, Some(w));
      && Uniform(q, Generation(net.pri), Current(net.pri), net.pri.hi, net.sec.sent + 1)
      && Controls(q) == Controls(net.toPri) + (if body.Data? then [] else [body])
      && q != [] && q[|q| - 1].w.body == body && q[|q| - 1].n == net.sec.sent
  {
    var w := Wire(net.sec.st.sseq, body, net.sec.st.keys.datenc1, net.sec.st.keys.ctlenc1);
    ControlsAppend(net.toPri, Packet(w, Generation(net.sec), net.sec.sent));
    hide Flow, Controls, Phase, Boundary;
  }

  lemma PhaseOffer(net: Net)
    requires Inv(net) && net.toSec != [] && net.toSec[0].w.body.ReplaceKey?
    ensures Controls(net.toSec[1..]) == [] && Controls(net.toPri) == []
    ensures OfferPending(net, net.toSec[0].w.body)
    ensures net.sec.past == net.pri.past
  {
    SecTakes(net);
    hide Flow, Controls, Uniform, SideOk, AnswerPending, ConfirmPending, OfferPending;
    var p := net.toSec[0];
    assert Controls(net.toSec)[0] == p.w.body;
    assert Controls(net.toSec) == [p.w.body];
    Level(net);
  }

  lemma SecReplaceRead(net: Net, o: Outcome)
    requires Inv(net) && net.toSec != [] && net.toSec[0].w.body.ReplaceKey?
    ensures Inv(SecHandle(net.(toSec := net.toSec[1..]), net.toSec[0], o))
  {
    hide Flow, Controls, Uniform, Boundary, TakeId, Holds, AnswerReplaceKey, Phase;
    var p := net.toSec[0];
    var net' := SecHandle(net.(toSec := net.toSec[1..]), p, o);
    SecTakes(net);
    FlowEarlier(net.toSec[1..], Generation(net.sec), net.pri.past, p.n + 1, net.pri.sent, net.sec.hi);
    PhaseOffer(net);
    TakenOnce(net.sec);
    var dat, ctl := p.w.body.dat, p.w.body.ctl;
    AnswerEffect(net.sec.st, dat, ctl, o, net.sec.past);
    var e := AnswerReplaceKey(net.sec.st, dat, ctl, o);
    if e.sent.None? {
      UniformLater(net.toPri, Generation(net.pri), Current(net.pri), net.pri.hi, net.sec.sent, net'.sec.sent);
      PhaseIdle(net');
    } else {
      SecPosts(net, e.sent.value.body);
      PhaseAnswered(net', e.sent.value.body);
    }
  }

  lemma SecDataKeeps(net: Net, ok: bool)
    requires Inv(net)
    ensures Inv(Next(net, SecData(ok)))
  {
    hide Flow, Controls, Uniform, Boundary;
    if !net.sec.st.rekey {
      assert Controls(net.toPri) + [] == Controls(net.toPri);
      TakenOnce(net.sec);
      PhaseNoConfirm(net);
      Level(net);
      SecPosts(net, Data);
      UniformLater(net.toPri, Generation(net.pri), Current(net.pri), net.pri.hi, net.sec.sent, net.sec.sent + 1);
    }
  }

  // A secondary that may send data is not about to rekey.
  lemma PhaseNoConfirm(net: Net)
    requires Phase(net) && !net.sec.st.rekey
    ensures RekeyCount(Controls(net.toSec)) == 0
  {
    hide Controls;
  }

  lemma UniformLater(q: seq<Packet>, g: int, k: KeyPair, n: nat, m: nat, m': nat)
    requires Uniform(q, g, k, n, m) && m <= m'
    ensures Uniform(q, g, k, n, m')
  {}

  lemma PhaseIdle(net: Net)
    requires Controls(net.toSec) == [] && Controls(net.toPri) == []
    ensures Phase(net)
  {}

  lemma PhaseAnswered(net: Net, b: Body)
    requires Controls(net.toSec) == [] && Controls(net.toPri) == [b] && AnswerPending(net, b)
    ensures Phase(net)
  {}

  lemma PhaseConfirm(net: Net)
    requires Inv(net) && net.toSec != [] && net.toSec[0].w.body.Rekey?
    ensures ConfirmPending(net) && Controls(net.toPri) == []
    ensures var a := Controls(net.toSec[1..]); a == [] || (|a| == 1 && OfferPending(net, a[0]))
  {
    SecTakes(net);
    hide Flow, Controls, Uniform, SideOk, AnswerPending, ConfirmPending;
    assert Controls(net.toSec)[0] == net.toSec[0].w.body;
  }

  lemma SecRekeyRead(net: Net, o: Outcome)
    requires Inv(net) && net.toSec != [] && net.toSec[0].w.body.Rekey?
    ensures Inv(SecHandle(net.(toSec := net.toSec[1..]), net.toSec[0], o))
  {
    hide Flow, Controls, Uniform, Boundary, Holds, ShiftKeys, Phase, OfferPending;
    var p := net.toSec[0];
    var net' := SecHandle(net.(toSec := net.toSec[1..]), p, o);
    SecTakes(net);
    PhaseConfirm(net);
    ShiftHolds(net.sec.st.keys, net.sec.past);
    BoundaryAt(p.n + 1);
    var a := Controls(net.toSec[1..]);
    if a == [] {
      PhaseIdle(net');
    } else {
      OfferKept(net, net', a[0]);
      PhaseOfferOnly(net', a[0]);
    }
  }

  lemma BoundaryAt(n: nat)
    ensures Boundary(Id(n), n)
  {}

  lemma OfferKept(net: Net, net': Net, b: Body)
    requires OfferPending(net, b) && net'.pri == net.pri
    ensures OfferPending(net', b)
  {}

  lemma PhaseOfferOnly(net: Net, b: Body)
    requires Controls(net.toSec) == [b] && Controls(net.toPri) == [] && OfferPending(net, b)
    ensures Phase(net)
  {}

  // -----------------------------------------------------------------------
  // Reading at the primary.

  lemma PriTakes(net: Net)
    requires Inv(net) && net.toPri != []
    ensures var p := net.toPri[0];
      && Uniform(net.toPri[1..], Generation(net.pri), Current(net.pri), net.pri.hi, net.sec.sent)
      && net.pri.hi <= p.n < net.sec.sent
      && (if p.w.body.Data? then Controls(net.toPri[1..]) == Controls(net.toPri)
          else Controls(net.toPri) == [p.w.body] + Controls(net.toPri[1..]))
  {
    assert [] + Controls(net.toPri[1..]) == Controls(net.toPri[1..]);
    hide Flow, Phase, SideOk, Controls;
  }

  lemma PriDataRead(net: Net)
    requires Inv(net) && net.toPri != [] && net.toPri[0].w.body.Data?
    ensures Inv(net.(toPri := net.toPri[1..]))
  {
    PriTakes(net);
    PhaseShortened(net);
    hide Phase, Flow, Controls, Uniform, SideOk;
  }

  // An answer is the last packet in the channel; what is in front of it does
  // not matter.
  lemma PhaseShortened(net: Net)
    requires Phase(net) && net.toPri != [] && Controls(net.toPri[1..]) == Controls(net.toPri)
    ensures Phase(net.(toPri := net.toPri[1..]))
  {
    var net' := net.(toPri := net.toPri[1..]);
    assert Controls([]) == [];
    hide Controls, OfferPending;
    assert net'.toPri != [] ==> net'.toPri[|net'.toPri| - 1] == net.toPri[|net.toPri| - 1];
  }

  // What the phase says when an answer is read.
  lemma PhaseAnswer(net: Net)
    requires Inv(net) && net.toPri != [] && !net.toPri[0].w.body.Data?
    ensures Controls(net.toSec) == [] && Controls(net.toPri[1..]) == []
    ensures net.toPri[0].w.body.Rekey? && AnswerPending(net, net.toPri[0].w.body)
    ensures net.sec.past == net.pri.past
  {
    PriTakes(net);
    hide Flow, Controls, Uniform, SideOk, AnswerPending, OfferPending;
    var p := net.toPri[0];
    assert Controls(net.toPri)[0] == p.w.body;
    AnswerIsRekey(net, p.w.body);
    assert Controls(net.toPri) == [p.w.body];
    Level(net);
  }

  lemma AnswerIsRekey(net: Net, b: Body)
    ensures AnswerPending(net, b) ==> b.Rekey?
  {}

  // An accepting answer is the last packet, and the next id it announces is
  // the id the secondary uses next.
  lemma AnswerLast(net: Net)
    requires Inv(net) && net.toPri != [] && !net.toPri[0].w.body.Data? && !net.toPri[0].w.body.err
    ensures net.toPri[1..] == [] && net.toPri[0].n + 1 == net.sec.sent
  {
    PhaseAnswer(net);
    hide Flow, Controls, Uniform, SideOk, Phase;
    if net.toPri[1..] != [] {
      ControlsSeen(net.toPri[1..], |net.toPri| - 2);
    }
  }

  lemma ConfirmEffect(s: State, num: nat, o: Outcome, past: seq<KeyPair>)
    requires Holds(s.keys, past)
    ensures var e := ConfirmRekey(s, false, num, o);
      && !e.st.rekey
      && e.st.keys.dnewkey == s.keys.dnewkey && e.st.keys.cnewkey == s.keys.cnewkey
      && (e.sent.None? ==>
          && e.st.sseq in {s.sseq, TakeId(s).sseq}
          && e.st.keys == s.keys && e.st.rID0 == s.rID0 && e.st.rID1 == s.rID1)
      && (e.sent.Some? ==>
          && e.st.sseq == TakeId(s).sseq
          && e.sent.value == Wire(s.sseq, Rekey(false, TakeId(s).sseq), s.keys.datenc1, s.keys.ctlenc1)
          && e.st.rID0 == s.rID1 && e.st.rID1 == num
          && Holds(e.st.keys, past + [KeyPair(s.keys.dnewkey, s.keys.cnewkey)]))
  {
    ShiftHolds(s.keys, past);
  }

  // The primary's confirmation joins the flow and moves it on.
  lemma ConfirmPosts(net: Net, k: KeyPair)
    requires Inv(net)
    ensures var b := Rekey(false, TakeId(net.pri.st).sseq);
      var w := Wire(net.pri.st.sseq, b, net.pri.st.keys.datenc1, net.pri.st.keys.ctlenc1);
      var q := Post(net.toSec, net.pri, Some(w));
      && Flow(q, Generation(net.sec), net.pri.past + [k], net.sec.hi, net.pri.sent + 1)
      && Controls(q) == Controls(net.toSec) + [b]
  {
    TakenOnce(net.pri);
    var b := Rekey(false, TakeId(net.pri.st).sseq);
    var w := Wire(net.pri.st.sseq, b, net.pri.st.keys.datenc1, net.pri.st.keys.ctlenc1);
    var p := Packet(w, Generation(net.pri), net.pri.sent);
    hide TakeId;
    FlowAppend(net.toSec, Generation(net.sec), net.pri.past, net.sec.hi, net.pri.sent, p, net.pri.past + [k]);
    ControlsAppend(net.toSec, p);
  }

  lemma PriErrorRead(net: Net, o: Outcome)
    requires Inv(net) && net.toPri != [] && net.toPri[0].w.body.Rekey? && net.toPri[0].w.body.err
    ensures Inv(PriHandle(net.(toPri := net.toPri[1..]), net.toPri[0], o))
  {
    PriTakes(net);
    PhaseAnswer(net);
    hide Flow, Controls, Uniform, Boundary, Holds, Phase, AnswerPending;
    PhaseIdle(PriHandle(net.(toPri := net.toPri[1..]), net.toPri[0], o));
  }

  lemma PriRekeyRead(net: Net, o: Outcome)
    requires Inv(net) && net.toPri != [] && net.toPri[0].w.body.Rekey? && !net.toPri[0].w.body.err
    ensures Inv(PriHandle(net.(toPri := net.toPri[1..]), net.toPri[0], o))
  {
    hide Flow, Controls, Uniform, Boundary, Holds, Phase, ConfirmRekey, TakeId;
    var p := net.toPri[0];
    var net' := PriHandle(net.(toPri := net.toPri[1..]), p, o);
    PriTakes(net);
    PhaseAnswer(net);
    AnswerLast(net);
    TakenOnce(net.pri);
    ConfirmEffect(net.pri.st, p.w.body.num, o, net.pri.past);
    var e := ConfirmRekey(net.pri.st, false, p.w.body.num, o);
    if e.sent.None? {
      FlowLater(net.toSec, Generation(net.sec), net.pri.past, net.sec.hi, net.pri.sent, net'.pri.sent);
      PhaseIdle(net');
    } else {
      ConfirmPosts(net, KeyPair(net.pri.st.keys.dnewkey, net.pri.st.keys.cnewkey));
      BoundaryAt(p.n + 1);
      UniformNone(Generation(net'.pri), Current(net'.pri), p.n + 1);
      PhaseConfirming(net', e.sent.value.body);
    }
  }

  lemma UniformNone(g: int, k: KeyPair, n: nat)
    ensures Uniform([], g, k, n, n)
  {}

  lemma PhaseConfirming(net: Net, b: Body)
    requires Controls(net.toSec) == [b] && b.Rekey? && net.toPri == [] && ConfirmPending(net) && !net.pri.st.rekey
    ensures Phase(net)
  {}
}
