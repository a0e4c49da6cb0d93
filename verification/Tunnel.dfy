// Packets on the wire. A data packet is obfuscated and encrypted; a control
// message is encrypted, given an inner IP and UDP header, and then treated
// like a data packet. The receiver undoes both layers.

module Tunnel {
  import opened Bytes
  import opened Layout
  import opened Frames
  import opened SessionSpec
  import opened BlockCipher
  import opened Cbc
  import opened ControlCodec
  import opened BlockTable
  import Obfuscation = Obfuscate
  import Deobfuscation = Deobfuscate
  import Sizing

  const P3_CTL_HDR := 28   // inner IP and UDP headers
  const UDP := 17
  const SEQ_DIFF := 0xa65d
  const LONGEST := 1392    // longest control message the packet sizes allow for

  // A header checksum; computing it is left to the kernel.
  type Sum = s: seq<byte> | |s| == 2 witness [0, 0]

  // The constant part of a session's headers.
  type Template = s: seq<byte> | |s| == SESSION_HDR witness seq(SESSION_HDR, _ => 0)

  // -----------------------------------------------------------------------
  // Headers.

  function OuterHeader(h: Template, newlen: nat, id: nat, sum: Sum): (r: seq<byte>)
    ensures |r| == SESSION_HDR
  {
    h[..2] + ToBigEndian(newlen, 2) + ToBigEndian(id + SEQ_DIFF, 2) + h[6..10] + sum + h[12..24] + ToBigEndian(id, 4)
  }

  // Inner header of a control packet whose message takes r octets.
  function InnerHeader(h: Template, r: nat, id: nat, port: nat, sum: Sum): (s: seq<byte>)
    ensures |s| == P3_CTL_HDR
  {
    h[..2] + ToBigEndian(r + P3_CTL_HDR, 2) + ToBigEndian(id + SEQ_DIFF * 4, 2) + h[6..9] + [UDP] + sum + h[12..20]
    + ToBigEndian(port, 2) + ToBigEndian(port, 2) + ToBigEndian(r, 2) + h[26..]
  }

  lemma TwoBytes(n: nat)
    requires n < 0x1_0000
    ensures var b := ToBigEndian(n, 2); U16(b[0], b[1]) == n
  {
    IndexBytes(n);
  }

  // The fields of the inner header the receiver looks at.
  lemma InnerFields(h: Template, r: nat, id: nat, port: nat, sum: Sum)
    requires r + P3_CTL_HDR < 0x1_0000 && port < 0x1_0000
    ensures var s := InnerHeader(h, r, id, port, sum);
      && s[0] == h[0] && U16(s[2], s[3]) == r + P3_CTL_HDR && s[9] == UDP && s[16..20] == h[16..20]
      && U16(s[20], s[21]) == port && U16(s[22], s[23]) == port && U16(s[24], s[25]) == r
  {
    TwoBytes(r + P3_CTL_HDR);
    TwoBytes(port);
    TwoBytes(r);
    hide ToBigEndian;
  }

  // The outer header carries the size of the packet, an identification that
  // runs with the packet id, and the addresses of the template.
  lemma OuterFields(h: Template, newlen: nat, id: nat, sum: Sum)
    requires newlen < 0x1_0000
    ensures var r := OuterHeader(h, newlen, id, sum);
      && r[..2] == h[..2] && U16(r[2], r[3]) == newlen
      && U16(r[4], r[5]) == (id + SEQ_DIFF) % 0x1_0000
      && r[6..10] == h[6..10] && r[10..12] == sum && r[12..20] == h[12..20]
  {
    TwoBytes(newlen);
    LowTwoBytes(id + SEQ_DIFF);
    var a, b := ToBigEndian(newlen, 2), ToBigEndian(id + SEQ_DIFF, 2);
    hide ToBigEndian;
    var front := h[..2] + a + b + h[6..10] + sum;
    var r := OuterHeader(h, newlen, id, sum);
    assert r == front + (h[12..24] + ToBigEndian(id, 4));
    assert r[12..20] == (h[12..24] + ToBigEndian(id, 4))[..8] == h[12..24][..8] == h[12..20];
    assert r[..12] == front;
    assert r[6..10] == front[6..10] == h[6..10] && r[10..12] == front[10..12] == sum;
  }

  lemma LowTwoBytes(n: nat)
    ensures var b := ToBigEndian(n, 2); U16(b[0], b[1]) == n % 0x1_0000
  {
    assert ToBigEndian(n / 256, 1) == ToBigEndian(n / 256 / 256, 0) + [n / 256 % 256];
    assert n == n / 256 / 256 * 0x1_0000 + n / 256 % 256 * 256 + n % 256;
  }

  lemma OuterId(h: Template, newlen: nat, id: nat, sum: Sum, rest: seq<byte>)
    requires id < Pow256(4)
    ensures PacketId(OuterHeader(h, newlen, id, sum) + rest) == id
  {
    BigEndianRoundTrip(id, 4);
    var w := OuterHeader(h, newlen, id, sum) + rest;
    assert w[24..28] == ToBigEndian(id, 4);
  }

  // -----------------------------------------------------------------------
  // What is sent.

  // w is the packet before its area is obfuscated and encrypted.
  ghost predicate Sent(wire: seq<byte>, w: seq<byte>, fs: seq<Frame>, id: nat, dat: Cipher, psize: nat, usec: nat) {
    && SESSION_HDR <= |w| == |wire|
    && MIN_IP <= psize && SESSION_HDR + psize + 6 <= |w| && (|w| - SESSION_HDR) % BLOCK == 0
    && PacketId(wire) == id
    && AllPrintable(fs) && |Print(fs)| == |w| - SESSION_HDR
    && wire == w[..SESSION_HDR] + CbcEnc(dat, Iv(id), Print(fs))
    && Obfuscation.Obfuscated(fs, w, psize, |w| - SESSION_HDR, usec)
  }

  // The inner packet of a control message.
  function InnerPacket(h: Template, port: nat, id: nat, sum: Sum, ctl: Cipher, msg: seq<byte>): seq<byte>
    requires |msg| % BLOCK == 0
  {
    InnerHeader(h, |msg|, id, port, sum) + CbcEnc(ctl, Iv(id), msg)
  }

  // -----------------------------------------------------------------------
  // What the receiver makes of it.

  function PacketId(wire: seq<byte>): nat
    requires |wire| >= SESSION_HDR
  {
    BigEndian(wire[SESSION_HDR - 4..SESSION_HDR])
  }

  // A receiving host: its session, its own address and port, and the AES
  // permutation each key stands for.
  datatype Host = Host(st: State, addr: seq<byte>, port: nat, role: Role, aes: Key -> Cipher)

  // The area decrypted, or nothing if there is no context or a bad length.
  function Plain(h: Host, wire: seq<byte>): Option<seq<byte>>
    requires |wire| >= SESSION_HDR
  {
    var id := PacketId(wire);
    match DataContext(h.st, id)
    case None => None
    case Some(k) =>
      if (|wire| - SESSION_HDR) % BLOCK != 0 then None
      else Some(CbcDec(h.aes(k), Iv(id), wire[SESSION_HDR..]))
  }

  // The inner packet, if it can be put back together.
  function Inner(h: Host, wire: seq<byte>): (r: Option<seq<byte>>)
    requires |wire| >= SESSION_HDR
    ensures r.Some? ==> Plain(h, wire).Some? && |r.value| <= |wire| - SESSION_HDR
  {
    match Plain(h, wire)
    case None => None
    case Some(s) => Restored(s)
  }

  datatype Inbound = Dropped | Control(call: Call) | ForStack

  function UdpAt(b: seq<byte>): nat
    requires b != []
  {
    (b[0] % 16) * 4
  }

  // The inner packet b is a control message for this host.
  predicate ForHost(h: Host, b: seq<byte>)
    requires |b| >= MIN_IP && (b[9] == UDP ==> |b| >= UdpAt(b) + 6)
  {
    && b[9] == UDP
    && b[16..20] == h.addr
    && var u := UdpAt(b) + (if h.role.SecondaryOnly? then 0 else 2); U16(b[u], b[u + 1]) == h.port
  }

  function MessageLength(b: seq<byte>): nat
    requires |b| >= MIN_IP && |b| >= UdpAt(b) + 6
  {
    U16(b[UdpAt(b) + 4], b[UdpAt(b) + 5])
  }

  // The message of control packet b, decrypted.
  function Message(h: Host, id: nat, b: seq<byte>): Option<seq<byte>>
    requires |b| >= P3_CTL_HDR && |b| >= UdpAt(b) + 6 && |b| >= P3_CTL_HDR + MessageLength(b)
  {
    match ControlContext(h.st, id)
    case None => None
    case Some(k) =>
      if MessageLength(b) % BLOCK != 0 then None
      else Some(CbcDec(h.aes(k), Iv(id), b[P3_CTL_HDR..P3_CTL_HDR + MessageLength(b)]))
  }

  // The octets the receiver reads of inner packet b are there.
  predicate Sane(h: Host, id: nat, b: seq<byte>) {
    && |b| >= MIN_IP && (b[9] == UDP ==> |b| >= UdpAt(b) + 6)
    && (ForHost(h, b) ==>
        && |b| >= P3_CTL_HDR && |b| >= P3_CTL_HDR + MessageLength(b)
        && (Message(h, id, b).Some? ==> Complete(Message(h, id, b).value)))
  }

  // `rest` is what follows the message in the receiver's buffer.
  function Handled(h: Host, id: nat, b: seq<byte>, rest: seq<byte>): Inbound
    requires Sane(h, id, b)
  {
    if !ForHost(h, b) then ForStack
    else match Message(h, id, b)
         case None => Dropped
         case Some(m) =>
           CompleteMore(m, rest);
           Control(Parsed(h.role, m + rest))
  }

  lemma CompleteMore(m: seq<byte>, rest: seq<byte>)
    requires Complete(m)
    ensures Complete(m + rest)
  {}

  // What the receiver needs of the packet as a whole: that its loops and the
  // reading of the inner headers stay inside it.
  ghost predicate Receivable(h: Host, wire: seq<byte>) {
    && |wire| >= SESSION_HDR + 4
    && (Plain(h, wire).Some? ==>
        && Inner(h, wire).Some?
        && Sane(h, PacketId(wire), Inner(h, wire).value))
  }

  // -----------------------------------------------------------------------
  // End to end, on values.

  // The area decrypts to the frames that were sent, and they are put together
  // to the packet that was sent, followed by padding.
  lemma OuterLayer(h: Host, wire: seq<byte>, w: seq<byte>, fs: seq<Frame>, id: nat, k: Key, psize: nat, usec: nat)
    requires Sent(wire, w, fs, id, h.aes(k), psize, usec) && Invertible(h.aes(k))
    requires DataContext(h.st, id) == Some(k)
    ensures |wire| >= SESSION_HDR + 4 && Inner(h, wire).Some?
    ensures var b := Inner(h, wire).value;
      psize <= |b| && b[..psize] == w[SESSION_HDR..SESSION_HDR + psize]
  {
    hide Obfuscation.Obfuscated, Deobfuscation.Wellformed, Deobfuscation.Reassembled, Restored;
    hide CbcEnc, CbcDec, Print, DataContext;
    Deobfuscation.ReassembleObfuscated(fs, w, psize, |w| - SESSION_HDR, usec);
    Deobfuscation.WellformedRestored(Print(fs));
    CbcInverse(h.aes(k), Iv(id), Print(fs));
    assert wire[SESSION_HDR..] == CbcEnc(h.aes(k), Iv(id), Print(fs));
  }

  // The inner packet, with anything behind it, is recognised and its message
  // decrypted.
  lemma InnerLayer(h: Host, t: Template, id: nat, sum: Sum, k: Key, msg: seq<byte>, b: seq<byte>)
    requires |msg| % BLOCK == 0 && |msg| + P3_CTL_HDR < 0x1_0000 && h.port < 0x1_0000 && t[0] % 16 == 5
    requires h.addr == t[16..20] && ControlContext(h.st, id) == Some(k) && Invertible(h.aes(k))
    requires InnerPacket(t, h.port, id, sum, h.aes(k), msg) <= b
    requires Complete(msg)
    ensures Sane(h, id, b) && ForHost(h, b) && Message(h, id, b) == Some(msg)
  {
    hide Complete, ControlContext, CbcEnc, CbcDec;
    var s, x := InnerHeader(t, |msg|, id, h.port, sum), CbcEnc(h.aes(k), Iv(id), msg);
    InnerFields(t, |msg|, id, h.port, sum);
    hide InnerHeader;
    assert InnerPacket(t, h.port, id, sum, h.aes(k), msg) == s + x;
    HeaderFields(s, x, b);
    CbcInverse(h.aes(k), Iv(id), msg);
  }

  lemma HeaderFields(s: seq<byte>, x: seq<byte>, b: seq<byte>)
    requires |s| == P3_CTL_HDR && s + x <= b
    ensures forall i :: 0 <= i < P3_CTL_HDR ==> b[i] == s[i]
    ensures b[16..20] == s[16..20] && b[P3_CTL_HDR..P3_CTL_HDR + |x|] == x
  {
    assert b[..|s + x|] == s + x;
    assert b[..|s + x|][P3_CTL_HDR..] == x;
  }

  // A control message on the wire: padded to whole blocks, in both layers.
  ghost predicate ControlSent(wire: seq<byte>, w: seq<byte>, fs: seq<Frame>, t: Template, id: nat, sum: Sum, port: nat,
                              dat: Cipher, ctl: Cipher, msg: seq<byte>, usec: nat)
  {
    && |msg| % BLOCK == 0
    && Sent(wire, w, fs, id, dat, P3_CTL_HDR + |msg|, usec)
    && w[SESSION_HDR..SESSION_HDR + P3_CTL_HDR + |msg|] == InnerPacket(t, port, id, sum, ctl, msg)
  }

  // A control message reaches the parser of a host that has the sender's keys
  // and goes by the sender's address and port.
  lemma ControlDelivered(h: Host, wire: seq<byte>, w: seq<byte>, fs: seq<Frame>, t: Template, id: nat, sum: Sum,
                         dat: Key, ctl: Key, msg: seq<byte>, usec: nat, rest: seq<byte>)
    requires ControlSent(wire, w, fs, t, id, sum, h.port, h.aes(dat), h.aes(ctl), msg, usec)
    requires |msg| + P3_CTL_HDR < 0x1_0000 && h.port < 0x1_0000 && t[0] % 16 == 5 && h.addr == t[16..20]
    requires DataContext(h.st, id) == Some(dat) && ControlContext(h.st, id) == Some(ctl)
    requires Invertible(h.aes(dat)) && Invertible(h.aes(ctl))
    requires Complete(msg)
    ensures Receivable(h, wire) && Inner(h, wire).Some?
    ensures Complete(msg + rest)
    ensures Handled(h, id, Inner(h, wire).value, rest) == Control(Parsed(h.role, msg + rest))
  {
    OuterLayer(h, wire, w, fs, id, dat, P3_CTL_HDR + |msg|, usec);
    var b := Inner(h, wire).value;
    hide InnerPacket, Inner, Sane, ForHost, Message, Complete, Parsed;
    hide DataContext, ControlContext, Invertible;
    hide Obfuscation.Obfuscated, CbcEnc;
    assert InnerPacket(t, h.port, id, sum, h.aes(ctl), msg) <= b;
    InnerLayer(h, t, id, sum, ctl, msg, b);
    CompleteMore(msg, rest);
  }

  // -----------------------------------------------------------------------
  // The sender.

  method PutAt(a: array<byte>, at: nat, s: seq<byte>)
    requires at + |s| <= a.Length
    modifies a
    ensures a[..at] == old(a[..at]) && a[at..at + |s|] == s
    ensures a[at + |s|..] == old(a[at + |s|..])
  {
    forall i | 0 <= i < |s| {
      a[at + i] := s[i];
    }
  }

  // The buffer before obfuscation: message encrypted, both headers in place.
  method PrepareControl(t: Template, port: nat, id: nat, ctl: Option<Cipher>, msg: array<byte>, newlen: nat,
                        sum0: Sum, sum1: Sum)
    returns (ok: bool, buf: array<byte>, ghost padded: seq<byte>)
    requires SESSION_HDR + P3_CTL_HDR + RoundUp16(msg.Length) <= newlen
    ensures fresh(buf) && buf.Length == newlen
    ensures |padded| == RoundUp16(msg.Length) && msg[..] <= padded
    ensures ok == ctl.Some?
    ensures ok ==> buf[..SESSION_HDR] == OuterHeader(t, newlen, id, sum0)
    ensures ok ==>
      buf[SESSION_HDR..SESSION_HDR + P3_CTL_HDR + |padded|] == InnerPacket(t, port, id, sum1, ctl.value, padded)
  {
    hide OuterHeader, InnerHeader, CbcEnc;
    hide RoundUp16;
    var at := SESSION_HDR + P3_CTL_HDR;
    buf := new byte[newlen];
    PutAt(buf, at, msg[..]);
    var r := RoundUp16(msg.Length);
    padded := buf[at..at + r];
    Leads(buf, at, msg.Length, r);
    ok := Encrypt(ctl, buf, at, r, id);
    if !ok {
      return;
    }
    PutBefore(buf, SESSION_HDR, InnerHeader(t, r, id, port, sum1), r);
    PutBefore(buf, 0, OuterHeader(t, newlen, id, sum0), P3_CTL_HDR + r);
  }

  lemma Leads(a: array<byte>, at: nat, n: nat, r: nat)
    requires n <= r && at + r <= a.Length
    ensures a[at..at + n] <= a[at..at + r]
  {}

  // Writes s in front of n octets that stay as they are.
  method PutBefore(a: array<byte>, at: nat, s: seq<byte>, n: nat)
    requires at + |s| + n <= a.Length
    modifies a
    ensures a[at..at + |s|] == s
    ensures a[at + |s|..at + |s| + n] == old(a[at + |s|..at + |s| + n])
    ensures a[at..at + |s| + n] == s + old(a[at + |s|..at + |s| + n])
  {
    PutAt(a, at, s);
    assert a[at + |s|..][..n] == a[at + |s|..at + |s| + n];
  }

  lemma PreparedFields(t: Template, port: nat, id: nat, ctl: Cipher, padded: seq<byte>, sum0: Sum, sum1: Sum,
                       w: seq<byte>)
    requires |padded| % BLOCK == 0 && |padded| + P3_CTL_HDR < 0x1_0000 && port < 0x1_0000 && id < Pow256(4)
    requires SESSION_HDR + P3_CTL_HDR + |padded| <= |w|
    requires w[..SESSION_HDR] == OuterHeader(t, |w|, id, sum0)
    requires w[SESSION_HDR..SESSION_HDR + P3_CTL_HDR + |padded|] == InnerPacket(t, port, id, sum1, ctl, padded)
    ensures IpLength(w) == |padded| + P3_CTL_HDR && HeaderReadable(w) && PacketId(w) == id
  {
    InnerFields(t, |padded|, id, port, sum1);
    OuterId(t, |w|, id, sum0, w[SESSION_HDR..]);
    assert w == w[..SESSION_HDR] + w[SESSION_HDR..];
    hide OuterHeader, InnerHeader, CbcEnc, PacketId;
    var b := w[SESSION_HDR..SESSION_HDR + P3_CTL_HDR + |padded|];
    assert w[SESSION_HDR + 2] == b[2] && w[SESSION_HDR + 3] == b[3] && w[SESSION_HDR + 9] == b[9];
  }

  // Obfuscates and encrypts a prepared packet of whole blocks.
  method Seal(buf: array<byte>, id: nat, dat: Option<Cipher>, usec: nat) returns (ok: bool, ghost fs: seq<Frame>)
    requires SESSION_HDR + MIN_IP <= buf.Length < 0x1_0000 && HeaderReadable(buf[..])
    requires MIN_IP <= IpLength(buf[..]) && Sizing.Suits(buf.Length - SESSION_HDR, IpLength(buf[..]))
    requires PacketId(buf[..]) == id
    modifies buf
    ensures ok == dat.Some?
    ensures ok ==> Sent(buf[..], old(buf[..]), fs, id, dat.value, IpLength(old(buf[..])), usec)
  {
    hide Obfuscation.Obfuscated, HeaderReadable, CbcEnc, Print, OuterHeader, Iv;
    ghost var w := buf[..];
    var work := new Work(buf.Length);
    var stat;
    stat, fs := Obfuscation.Obfuscate(buf, buf.Length, work, usec);
    PrintLength(fs, w, IpLength(w), buf.Length - SESSION_HDR, usec);
    assert buf[SESSION_HDR..buf.Length] == Print(fs) && buf[..SESSION_HDR] == w[..SESSION_HDR];
    ok := Encrypt(dat, buf, SESSION_HDR, buf.Length - SESSION_HDR, id);
    if ok {
      assert buf[..] == buf[..SESSION_HDR] + buf[SESSION_HDR..buf.Length];
      SameId(w, buf[..]);
    }
  }

  lemma SameId(w: seq<byte>, wire: seq<byte>)
    requires |w| >= SESSION_HDR && |wire| >= SESSION_HDR && w[..SESSION_HDR] == wire[..SESSION_HDR]
    ensures PacketId(wire) == PacketId(w)
  {
    assert w[24..28] == w[..28][24..28] == wire[..28][24..28] == wire[24..28];
  }

  lemma PrintLength(fs: seq<Frame>, w: seq<byte>, psize: nat, len: nat, usec: nat)
    requires SESSION_HDR + psize <= |w| && psize + 6 <= len && MIN_IP <= psize
    requires Obfuscation.Obfuscated(fs, w, psize, len, usec)
    ensures AllPrintable(fs) && |Print(fs)| == len
  {}

  method SendControl(t: Template, port: nat, id: nat, dat: Option<Cipher>, ctl: Option<Cipher>, msg: array<byte>,
                     usec: nat, sum0: Sum, sum1: Sum)
    returns (ok: bool, wire: array<byte>, ghost w: seq<byte>, ghost padded: seq<byte>, ghost fs: seq<Frame>)
    requires msg.Length <= LONGEST && port < 0x1_0000 && id < Pow256(4)
    ensures ok <==> dat.Some? && ctl.Some?
    ensures fresh(wire) && wire.Length == Sizing.ControlSize(msg.Length)
    ensures |padded| == RoundUp16(msg.Length) && msg[..] <= padded
    ensures ok ==> ControlSent(wire[..], w, fs, t, id, sum1, port, dat.value, ctl.value, padded, usec)
    ensures ok ==> wire[..SESSION_HDR] == OuterHeader(t, wire.Length, id, sum0)
  {
    hide InnerPacket, Sent, OuterHeader;
    var newlen := Sizing.ControlSize(msg.Length);
    Sizing.ControlArea(msg.Length);
    ok, wire, padded := PrepareControl(t, port, id, ctl, msg, newlen, sum0, sum1);
    w, fs := wire[..], [];
    if !ok {
      return;
    }
    HeadAndArea(wire, |padded|);
    PreparedFields(t, port, id, ctl.value, padded, sum0, sum1, w);
    ok, fs := Seal(wire, id, dat, usec);
    if ok {
      SameHeader(wire, w, fs, id, dat.value, P3_CTL_HDR + |padded|, usec);
    }
  }

  // Sealing leaves the outer header alone.
  lemma SameHeader(wire: array<byte>, w: seq<byte>, fs: seq<Frame>, id: nat, dat: Cipher, psize: nat, usec: nat)
    requires Sent(wire[..], w, fs, id, dat, psize, usec)
    ensures SESSION_HDR <= wire.Length && wire[..SESSION_HDR] == w[..SESSION_HDR]
  {
    assert wire[..][..SESSION_HDR] == wire[..SESSION_HDR];
  }

  lemma HeadAndArea(a: array<byte>, r: nat)
    requires SESSION_HDR + P3_CTL_HDR + r <= a.Length
    ensures a[..][..SESSION_HDR] == a[..SESSION_HDR]
    ensures a[..][SESSION_HDR..SESSION_HDR + P3_CTL_HDR + r] == a[SESSION_HDR..SESSION_HDR + P3_CTL_HDR + r]
  {}
}
