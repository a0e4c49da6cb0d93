// What each step of the protocol does and leaves alone, said of the packets
// on their way, the ids taken and the flags: when a side may send, when it is
// held up, and what of its keys and boundaries has changed.

module HandlerLaws {
  import opened Bytes
  import opened SequenceIds
  import opened SessionSpec
  import opened RekeyProtocol
  import opened RekeyInvariant

  lemma NextIdMoves(id: nat)
    ensures NextId(id) != id
  {}

  // The incremented id wraps from 2^32 - 1 to 1.
  lemma NextIdWraps(id: nat)
    requires id < 4294967295
    ensures NextId(4294967295) == 1 && NextId(id) == id + 1
  {}

  // One packet, sealed with the sender's key 1, has joined the channel.
  predicate Posted(q: seq<Packet>, q': seq<Packet>, s: Side, body: Body) {
    && |q'| == |q| + 1 && q'[..|q|] == q
    && var p := q'[|q|];
       p.w == Wire(s.st.sseq, body, s.st.keys.datenc1, s.st.keys.ctlenc1) && p.gen == Generation(s) && p.n == s.sent
  }

  // Nothing but the id has changed, by n steps.
  predicate OnlyIds(s: Side, s': Side, n: nat) {
    && s' == s.(st := s.st.(sseq := s'.st.sseq), sent := s.sent + n)
    && n <= 1
    && s'.st.sseq == if n == 0 then s.st.sseq else NextId(s.st.sseq)
  }

  // -----------------------------------------------------------------------
  // Data.

  // A data packet takes an id unless the flag is set, also when it then fails.
  lemma PrimarySendsData(net: Net, ok: bool)
    ensures var net' := Next(net, PriData(ok));
      && net'.sec == net.sec && net'.toPri == net.toPri && net'.garbled == net.garbled
      && OnlyIds(net.pri, net'.pri, if net.pri.st.rekey then 0 else 1)
      && (if ok && !net.pri.st.rekey then Posted(net.toSec, net'.toSec, net.pri, Data) else net'.toSec == net.toSec)
  {
    NextIdMoves(net.pri.st.sseq);
    hide NextId;
  }

  lemma SecondarySendsData(net: Net, ok: bool)
    ensures var net' := Next(net, SecData(ok));
      && net'.pri == net.pri && net'.toSec == net.toSec && net'.garbled == net.garbled
      && OnlyIds(net.sec, net'.sec, if net.sec.st.rekey then 0 else 1)
      && (if ok && !net.sec.st.rekey then Posted(net.toPri, net'.toPri, net.sec, Data) else net'.toPri == net.toPri)
  {
    NextIdMoves(net.sec.st.sseq);
    hide NextId;
  }

  // -----------------------------------------------------------------------
  // The offer.

  // What an offer says of a key, and what the primary then holds as its new
  // key: a fresh one, the one it held, or an index beside the one it held.
  predicate Says(f: KeyField, d: Draw, before: Key, after: Key) {
    match d
    case Fresh(k) => f == Explicit(k) && after == k
    case Stale => f == Explicit(before) && after == before
    case Index(i) => f == ByIndex(i) && after == before
    case Failed => false
  }

  // The offer is posted, and the flag set, exactly when both draws and the
  // sending succeed; an id is taken unless nothing was handed to the network.
  lemma PrimaryOffers(net: Net, d: Draw, c: Draw, o: Outcome)
    requires !net.pri.st.rekey
    ensures var net' := Next(net, Start(d, c, o)); var s, t, drawn := net.pri.st, net'.pri.st, !d.Failed? && !c.Failed?;
      && net'.sec == net.sec && net'.toPri == net.toPri && net'.garbled == net.garbled
      && (t.rekey <==> drawn && o == Delivered)
      && OnlyIds(net.pri, net'.pri.(st := t.(rekey := false, keys := s.keys)),
                 if drawn && o != LostBefore then 1 else 0)
      && (if t.rekey then
            && |net'.toSec| == |net.toSec| + 1 && net'.toSec[|net.toSec|].w.body.ReplaceKey?
            && (var b := net'.toSec[|net.toSec|].w.body;
                && Posted(net.toSec, net'.toSec, net.pri, b)
                && Says(b.dat, d, s.keys.dnewkey, t.keys.dnewkey) && Says(b.ctl, c, s.keys.cnewkey, t.keys.cnewkey))
          else net'.toSec == net.toSec)
  {
    NextIdMoves(net.pri.st.sseq);
    hide NextId;
  }

  // With the flag set nothing is offered, nor is a new key drawn.
  lemma PrimaryBusy(net: Net, d: Draw, c: Draw, o: Outcome)
    requires net.pri.st.rekey
    ensures Next(net, Start(d, c, o)) == net
  {}

  // -----------------------------------------------------------------------
  // The answer.

  // The secondary's flag is set after reading an offer exactly when it has
  // answered, and accepted it: both keys were sent in full.
  lemma SecondaryAnswers(net: Net, o: Outcome)
    requires net.toSec != [] && Readable(net.sec, net.toSec[0]) && net.toSec[0].w.body.ReplaceKey?
    ensures var net', b := Next(net, SecReceive(o)), net.toSec[0].w.body; var s, t := net.sec.st, net'.sec.st;
      && net'.pri == net.pri && net'.toSec == net.toSec[1..] && net'.garbled == net.garbled
      && (t.rekey <==> Whole(b) && o == Delivered)
      && OnlyIds(net.sec, net'.sec.(st := t.(rekey := s.rekey, keys := s.keys)), if o == LostBefore then 0 else 1)
      && (if o == Delivered then Posted(net.toPri, net'.toPri, net.sec, Rekey(!Whole(b), NextId(s.sseq)))
          else net'.toPri == net.toPri)
      && t.keys == s.keys.(dnewkey := if b.dat.Explicit? then b.dat.key else s.keys.dnewkey,
                           cnewkey := if b.ctl.Explicit? then b.ctl.key else s.keys.cnewkey)
  {
    NextIdMoves(net.sec.st.sseq);
    hide NextId, Readable;
  }

  // The flag is raised by no step but one that posts an accepting answer.
  lemma FlagRaised(net: Net, step: Step)
    ensures var net' := Next(net, step);
      !net.sec.st.rekey && net'.sec.st.rekey ==>
        && |net'.toPri| == |net.toPri| + 1 && net'.toPri[..|net.toPri|] == net.toPri
        && net'.toPri[|net.toPri|].w.body.Rekey? && !net'.toPri[|net.toPri|].w.body.err
  {
    hide Readable, NextId, StartRekeying, ConfirmRekey;
  }

  // An offer that is refused, or whose answer is lost, leaves the secondary
  // free: its next data packet goes out.
  lemma RefusedStaysFree(net: Net, o: Outcome)
    requires net.toSec != [] && Readable(net.sec, net.toSec[0]) && net.toSec[0].w.body.ReplaceKey?
    requires !Whole(net.toSec[0].w.body) || o != Delivered
    ensures var net' := Next(net, SecReceive(o));
      !net'.sec.st.rekey && Posted(net'.toPri, Next(net', SecData(true)).toPri, net'.sec, Data)
  {
    SecondaryAnswers(net, o);
    SecondarySendsData(Next(net, SecReceive(o)), true);
    hide Next, Readable;
  }

  // The primary takes no offers: one it could read would clear its flag, as
  // any message does that is refused.
  lemma PrimaryRefuses(net: Net, o: Outcome)
    requires net.toPri != [] && Readable(net.pri, net.toPri[0]) && net.toPri[0].w.body.ReplaceKey?
    ensures Next(net, PriReceive(o))
         == net.(pri := net.pri.(st := net.pri.st.(rekey := false)), toPri := net.toPri[1..])
  {
    hide Readable;
  }

  // An accepted one holds it up until it reads a REKEY.
  lemma AcceptedWaits(net: Net, step: Step)
    requires net.sec.st.rekey
    ensures var net' := Next(net, step);
      !net'.sec.st.rekey ==> step.SecReceive? && net.toSec != [] && !net.toSec[0].w.body.Data?
  {
    hide Readable, NextId, StartRekeying, ConfirmRekey;
  }

  // -----------------------------------------------------------------------
  // The confirmation.

  // Key 1 becomes key 0, the new pair key 1, and the boundaries move on.
  predicate TookUp(s: Side, s': Side, num: nat, n: nat) {
    var k, k' := s.st.keys, s'.st.keys;
    && s'.past == s.past + [KeyPair(k.dnewkey, k.cnewkey)] && s'.lo == s.hi && s'.hi == n
    && s'.st.rID0 == s.st.rID1 && s'.st.rID1 == num
    && k'.datenc0 == k.datenc1 && k'.datdec0 == k.datdec1 && k'.ctlenc0 == k.ctlenc1 && k'.ctldec0 == k.ctldec1
    && k'.datenc1 == k'.datdec1 == Some(k.dnewkey) && k'.ctlenc1 == k'.ctldec1 == Some(k.cnewkey)
    && k'.dnewkey == k.dnewkey && k'.cnewkey == k.cnewkey
  }

  // Reading any REKEY clears the primary's flag. It takes up the new keys
  // exactly when the answer accepts and the confirmation goes out, which is
  // still sealed with the old ones.
  lemma PrimaryConfirms(net: Net, o: Outcome)
    requires net.toPri != [] && Readable(net.pri, net.toPri[0]) && net.toPri[0].w.body.Rekey?
    ensures var net', p := Next(net, PriReceive(o)), net.toPri[0]; var s, t, b := net.pri.st, net'.pri.st, p.w.body;
      && net'.sec == net.sec && net'.toPri == net.toPri[1..] && net'.garbled == net.garbled && !t.rekey
      && t.sseq == (if !b.err && o != LostBefore then NextId(s.sseq) else s.sseq)
      && net'.pri.sent == (if !b.err && o != LostBefore then net.pri.sent + 1 else net.pri.sent)
      && (if !b.err && o == Delivered then
            && TookUp(net.pri, net'.pri, b.num, p.n + 1)
            && Posted(net.toSec, net'.toSec, net.pri, Rekey(false, NextId(s.sseq)))
          else
            && net'.toSec == net.toSec
            && net'.pri == net.pri.(st := s.(rekey := false, sseq := t.sseq), sent := net'.pri.sent))
  {
    NextIdMoves(net.pri.st.sseq);
    hide NextId, Readable;
  }

  // Reading any REKEY clears the secondary's flag; it takes up the new keys
  // exactly when the message has no error, and answers nothing.
  lemma SecondarySwitches(net: Net, o: Outcome)
    requires net.toSec != [] && Readable(net.sec, net.toSec[0]) && net.toSec[0].w.body.Rekey?
    ensures var net', p := Next(net, SecReceive(o)), net.toSec[0]; var b := p.w.body;
      && net'.pri == net.pri && net'.toPri == net.toPri && net'.toSec == net.toSec[1..] && net'.garbled == net.garbled
      && !net'.sec.st.rekey && net'.sec.st.sseq == net.sec.st.sseq && net'.sec.sent == net.sec.sent
      && (if b.err then net'.sec == net.sec.(st := net.sec.st.(rekey := false))
          else TookUp(net.sec, net'.sec, b.num, p.n + 1))
  {
    hide NextId, Readable;
  }

  // -----------------------------------------------------------------------
  // Which contexts a receiver takes: those of key 0 for ids from the older
  // boundary up to the newer, and of key 1 for all others.

  lemma ContextsTaken(s: State, id: nat)
    ensures DataContext(s, id) == if s.rID0 <= id < s.rID1 then s.keys.datdec0 else s.keys.datdec1
    ensures ControlContext(s, id) == if s.rID0 <= id < s.rID1 then s.keys.ctldec0 else s.keys.ctldec1
  {}
}
