// From handler to handler: the packets of the rekeying protocol carried as
// octets through both layers of the tunnel.

module EndToEnd {
  import opened Bytes
  import opened Layout
  import opened Frames
  import opened SessionSpec
  import opened BlockCipher
  import opened ControlCodec
  import opened Tunnel
  import opened RekeyProtocol
  import opened RekeyInvariant
  import opened RekeySafety

  // -----------------------------------------------------------------------
  // Data.

  // A data packet comes out exactly as it went in, with its size, whatever
  // the clock at the sender and whatever the padding.
  lemma DataDelivered(h: Host, wire: seq<byte>, w: seq<byte>, fs: seq<Frame>, id: nat, k: Key, usec: nat)
    requires |w| >= SESSION_HDR + 4 && Sent(wire, w, fs, id, h.aes(k), IpLength(w), usec)
    requires Invertible(h.aes(k)) && DataContext(h.st, id) == Some(k)
    ensures |wire| >= SESSION_HDR + 4 && Inner(h, wire).Some?
    ensures var b := Inner(h, wire).value;
      && |b| >= IpLength(w) >= MIN_IP
      && b[..IpLength(w)] == w[SESSION_HDR..SESSION_HDR + IpLength(w)]
      && U16(b[2], b[3]) == IpLength(w)
  {
    hide Sent, Inner, Invertible, DataContext, IpLength;
    OuterLayer(h, wire, w, fs, id, k, IpLength(w), usec);
    SentSize(wire, w, fs, id, h.aes(k), IpLength(w), usec);
    SameSize(Inner(h, wire).value, w);
  }

  // The UDP header of p, if it has one, lies inside it.
  predicate WholeUdp(p: seq<byte>) {
    |p| >= MIN_IP && (p[9] == UDP ==> |p| >= UdpAt(p) + 6)
  }

  // It goes to the stack unless it looks like a control message for the very
  // host that receives it, whose address and port it then carries.
  lemma DataDispatched(h: Host, wire: seq<byte>, w: seq<byte>, fs: seq<Frame>, id: nat, k: Key, usec: nat,
                       rest: seq<byte>)
    requires |w| >= SESSION_HDR + 4 && Sent(wire, w, fs, id, h.aes(k), IpLength(w), usec)
    requires Invertible(h.aes(k)) && DataContext(h.st, id) == Some(k)
    requires SESSION_HDR + IpLength(w) <= |w| && WholeUdp(w[SESSION_HDR..SESSION_HDR + IpLength(w)])
    ensures |wire| >= SESSION_HDR + 4 && Inner(h, wire).Some?
    ensures var p, b := w[SESSION_HDR..SESSION_HDR + IpLength(w)], Inner(h, wire).value;
      && (!ForHost(h, p) ==> Receivable(h, wire) && PacketId(wire) == id && Handled(h, id, b, rest) == ForStack)
      && (ForHost(h, p) && Sane(h, id, b) ==> Receivable(h, wire) && Handled(h, id, b, rest) != ForStack)
      && (ForHost(h, p) && !Sane(h, id, b) ==> !Receivable(h, wire))
  {
    hide Inner, Invertible, DataContext, IpLength, Message;
    DataDelivered(h, wire, w, fs, id, k, usec);
    SentId(wire, w, fs, id, h.aes(k), IpLength(w), usec);
    hide Sent;
    SameDispatch(h, w[SESSION_HDR..SESSION_HDR + IpLength(w)], Inner(h, wire).value);
  }

  lemma SentId(wire: seq<byte>, w: seq<byte>, fs: seq<Frame>, id: nat, dat: Cipher, psize: nat, usec: nat)
    requires Sent(wire, w, fs, id, dat, psize, usec)
    ensures |wire| >= SESSION_HDR + 4 && PacketId(wire) == id
  {}

  // The test looks at nothing behind the headers.
  lemma SameDispatch(h: Host, p: seq<byte>, b: seq<byte>)
    requires WholeUdp(p) && |p| <= |b| && b[..|p|] == p
    ensures WholeUdp(b) && (ForHost(h, b) <==> ForHost(h, p))
  {
    assert forall i :: 0 <= i < |p| ==> b[i] == p[i];
    assert b[16..20] == b[..|p|][16..20];
  }

  // A data packet that is taken for a control message: any UDP datagram with
  // the host's address and port. What is then decrypted a second time, under
  // the control key, is its payload; if that is not whole blocks the packet
  // is dropped, whatever padding lies behind it.
  lemma TakenForControl(h: Host, t: Template, id: nat, sum: Sum, payload: seq<byte>, pad: seq<byte>, rest: seq<byte>)
    requires Linked(h, t) && |payload| + P3_CTL_HDR < 0x1_0000
    ensures var p := InnerHeader(t, |payload|, id, h.port, sum) + payload;
      && WholeUdp(p) && U16(p[2], p[3]) == |p| && ForHost(h, p)
      && MessageLength(p) == |payload| && p[P3_CTL_HDR..P3_CTL_HDR + MessageLength(p)] == payload
      && (|payload| % BLOCK != 0 ==> Sane(h, id, p + pad) && Handled(h, id, p + pad, rest) == Dropped)
  {
    var s := InnerHeader(t, |payload|, id, h.port, sum);
    InnerFields(t, |payload|, id, h.port, sum);
    hide InnerHeader, Complete, Parsed, ControlContext;
    var p := s + payload;
    assert p == p + [];
    HeaderFields(s, payload, p);
    HeaderFields(s, payload, p + pad);
  }

  lemma SentSize(wire: seq<byte>, w: seq<byte>, fs: seq<Frame>, id: nat, dat: Cipher, psize: nat, usec: nat)
    requires Sent(wire, w, fs, id, dat, psize, usec)
    ensures SESSION_HDR + 4 <= |w| == |wire| && psize >= MIN_IP && SESSION_HDR + psize <= |w|
  {}

  lemma SameSize(b: seq<byte>, w: seq<byte>)
    requires |w| >= SESSION_HDR + 4 && 4 <= IpLength(w) <= |b| && SESSION_HDR + IpLength(w) <= |w|
    requires b[..IpLength(w)] == w[SESSION_HDR..SESSION_HDR + IpLength(w)]
    ensures U16(b[2], b[3]) == IpLength(w)
  {
    var n := IpLength(w);
    assert b[2] == b[..n][2] && b[3] == b[..n][3];
  }

  // -----------------------------------------------------------------------
  // Control.

  // The octets of a control message: the session's key type goes into
  // REPLACE_KEY, the error flag into REKEY.
  function Encoded(ktype: nat, flag: byte, body: Body): seq<byte>
    requires ktype < 16 && !body.Data?
  {
    match body
    case ReplaceKey(dat, ctl) => CtlMessage(REPLACE_KEY, NewKeyData(ktype, dat, ctl))
    case Rekey(_, num) => CtlMessage(REKEY, RekeyData(flag, num))
  }

  predicate Encodable(ktype: nat, flag: byte, body: Body) {
    match body
    case Data => false
    case ReplaceKey(dat, ctl) => ktype < 16 && Sendable(dat, ktype) && Sendable(ctl, ktype)
    case Rekey(err, num) => ktype < 16 && num < Pow256(4) && (err <==> flag % 16 != 0)
  }

  // The handler is called with what the body says.
  predicate Matches(call: Call, body: Body) {
    match body
    case Data => false
    case ReplaceKey(dat, ctl) => call == ReplaceKeys(dat, ctl)
    case Rekey(err, num) => call.RekeySession? && call.num == num && (call.flag % 16 != 0 <==> err)
  }

  lemma EncodedParses(role: Role, ktype: nat, flag: byte, body: Body, rest: seq<byte>)
    requires Encodable(ktype, flag, body) && (body.ReplaceKey? ==> !role.PrimaryOnly?)
    ensures var m := Encoded(ktype, flag, body) + rest;
      Complete(m) && Matches(Parsed(role, m), body)
  {
    match body
    case ReplaceKey(dat, ctl) => ReplaceKeyRoundTrip(role, ktype, dat, ctl, rest);
    case Rekey(_, num) => RekeyRoundTrip(role, flag, num, rest);
  }

  // The link between the two hosts, seen from the receiver's end.
  predicate Linked(h: Host, t: Template) {
    h.port < 0x1_0000 && t[0] % 16 == 5 && h.addr == t[16..20]
  }

  // A packet of the protocol that its receiver can read reaches the handler
  // for its body, whatever padding was added on the way.
  lemma BodyDelivered(h: Host, s: Side, p: Packet, wire: seq<byte>, w: seq<byte>, fs: seq<Frame>, t: Template, sum: Sum,
                      ktype: nat, flag: byte, pad: seq<byte>, usec: nat, rest: seq<byte>)
    requires h.st == s.st && Readable(s, p) && Linked(h, t) && forall k :: Invertible(h.aes(k))
    requires Encodable(ktype, flag, p.w.body) && (p.w.body.ReplaceKey? ==> !h.role.PrimaryOnly?)
    requires var msg := Encoded(ktype, flag, p.w.body) + pad;
      && |msg| + P3_CTL_HDR < 0x1_0000 && p.w.dat.Some? && p.w.ctl.Some?
      && ControlSent(wire, w, fs, t, p.w.id, sum, h.port, h.aes(p.w.dat.value), h.aes(p.w.ctl.value), msg, usec)
    ensures Receivable(h, wire) && Inner(h, wire).Some?
    ensures var r := Handled(h, p.w.id, Inner(h, wire).value, rest);
      r.Control? && Matches(r.call, p.w.body)
  {
    hide ControlSent, Encoded, Encodable, Matches, Complete, Parsed, Receivable, Handled, DataContext, ControlContext;
    hide Readable, Invertible, Inner;
    NotData(ktype, flag, p.w.body);
    var m := Encoded(ktype, flag, p.w.body);
    EncodedParses(h.role, ktype, flag, p.w.body, pad);
    EncodedParses(h.role, ktype, flag, p.w.body, pad + rest);
    assert m + (pad + rest) == (m + pad) + rest;
    ReadableContexts(s, p);
    ControlDelivered(h, wire, w, fs, t, p.w.id, sum, p.w.dat.value, p.w.ctl.value, m + pad, usec, rest);
  }

  lemma ReadableContexts(s: Side, p: Packet)
    requires Readable(s, p)
    ensures DataContext(s.st, p.w.id) == p.w.dat
    ensures !p.w.body.Data? ==> ControlContext(s.st, p.w.id) == p.w.ctl
  {}

  lemma NotData(ktype: nat, flag: byte, body: Body)
    ensures Encodable(ktype, flag, body) ==> !body.Data? && ktype < 16
  {}

  // In every run that reads in time: the control message next in line for the
  // secondary.
  lemma NextAtSecondary(u: Setup, steps: seq<Step>, h: Host, wire: seq<byte>, w: seq<byte>, fs: seq<Frame>, t: Template,
                        sum: Sum, ktype: nat, flag: byte, pad: seq<byte>, usec: nat, rest: seq<byte>)
    requires InTimeRun(Initial(u), steps) && Run(Initial(u), steps).toSec != []
    requires var net := Run(Initial(u), steps); HeadSelectsKey1(net.sec, net.toSec)
    requires h.st == Run(Initial(u), steps).sec.st && Linked(h, t) && forall k :: Invertible(h.aes(k))
    requires var p := Run(Initial(u), steps).toSec[0];
      && Encodable(ktype, flag, p.w.body) && !h.role.PrimaryOnly?
      && var msg := Encoded(ktype, flag, p.w.body) + pad;
      && |msg| + P3_CTL_HDR < 0x1_0000 && p.w.dat.Some? && p.w.ctl.Some?
      && ControlSent(wire, w, fs, t, p.w.id, sum, h.port, h.aes(p.w.dat.value), h.aes(p.w.ctl.value), msg, usec)
    ensures Receivable(h, wire) && Inner(h, wire).Some?
    ensures var p := Run(Initial(u), steps).toSec[0];
      var r := Handled(h, p.w.id, Inner(h, wire).value, rest);
      r.Control? && Matches(r.call, p.w.body)
  {
    hide Run, Initial, Inv, HeadSelectsKey1, InTimeRun, Readable, ControlSent;
    hide Encodable, Encoded, Matches, Receivable, Handled, Inner;
    InvInitial(u);
    RunExact(Initial(u), steps);
    var net := Run(Initial(u), steps);
    SecReadsExact(net);
    BodyDelivered(h, net.sec, net.toSec[0], wire, w, fs, t, sum, ktype, flag, pad, usec, rest);
  }

  // And the one next in line for the primary.
  lemma NextAtPrimary(u: Setup, steps: seq<Step>, h: Host, wire: seq<byte>, w: seq<byte>, fs: seq<Frame>, t: Template,
                      sum: Sum, ktype: nat, flag: byte, pad: seq<byte>, usec: nat, rest: seq<byte>)
    requires InTimeRun(Initial(u), steps) && Run(Initial(u), steps).toPri != []
    requires var net := Run(Initial(u), steps); HeadSelectsKey1(net.pri, net.toPri)
    requires h.st == Run(Initial(u), steps).pri.st && Linked(h, t) && forall k :: Invertible(h.aes(k))
    requires var p := Run(Initial(u), steps).toPri[0];
      && Encodable(ktype, flag, p.w.body)
      && var msg := Encoded(ktype, flag, p.w.body) + pad;
      && |msg| + P3_CTL_HDR < 0x1_0000 && p.w.dat.Some? && p.w.ctl.Some?
      && ControlSent(wire, w, fs, t, p.w.id, sum, h.port, h.aes(p.w.dat.value), h.aes(p.w.ctl.value), msg, usec)
    ensures Receivable(h, wire) && Inner(h, wire).Some?
    ensures var p := Run(Initial(u), steps).toPri[0];
      var r := Handled(h, p.w.id, Inner(h, wire).value, rest);
      r.Control? && Matches(r.call, p.w.body)
  {
    hide Run, Initial, Inv, HeadSelectsKey1, InTimeRun, Readable, ControlSent;
    hide Encoded, Matches, Receivable, Handled, Inner, Controls;
    InvInitial(u);
    RunExact(Initial(u), steps);
    var net := Run(Initial(u), steps);
    PriReadsExact(net);
    PhaseAnswer(net);
    hide AnswerPending;
    BodyDelivered(h, net.pri, net.toPri[0], wire, w, fs, t, sum, ktype, flag, pad, usec, rest);
  }
}
