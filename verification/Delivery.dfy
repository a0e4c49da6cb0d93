// The two ends of a link: what a host sends, what the other makes of it, and
// that nothing is lost between them.

module Delivery {
  import opened Bytes
  import opened Layout
  import opened Frames
  import opened Cuts
  import opened SessionSpec
  import opened BlockCipher
  import opened Cbc
  import opened ControlCodec
  import opened Tunnel
  import opened BlockTable
  import opened Session
  import Obfuscation = Obfuscate
  import Deobfuscation = Deobfuscate
  import Sizing

  // -----------------------------------------------------------------------
  // A data packet at the sender.

  const FORWARD := 4   // header flag of a packet to be sent on

  function Forwarded(b: byte, forward: bool): (r: byte)
    ensures forward ==> BitSet(r, FORWARD)
    ensures !forward ==> r == b
    ensures r % FORWARD == b % FORWARD && r / (2 * FORWARD) == b / (2 * FORWARD)
  {
    if forward && !BitSet(b, FORWARD) then b + FORWARD else b
  }

  lemma HeadersReadable(w: seq<byte>)
    requires |w| >= PKT_SMALL + SESSION_HDR
    ensures HeaderReadable(w)
  {}

  // The receiver of an accepted packet can restore it whole. The copy runs on
  // past the packet to the end of the area; what lies there is padding.
  method SendData(t: Template, id: nat, dat: Option<Cipher>, packet: array<byte>, forward: bool, usec: nat, sum: Sum)
    returns (ok: bool, wire: array<byte>, ghost w: seq<byte>, ghost fs: seq<Frame>)
    requires packet.Length >= MIN_IP && id < Pow256(4)
    requires MIN_IP <= U16(packet[2], packet[3])
    requires var size := Sizing.OutboundSize(U16(packet[2], packet[3])); size.Some? ==> size.value <= packet.Length
    ensures ok <==> dat.Some? && U16(packet[2], packet[3]) <= 1466
    ensures ok ==> var n := U16(packet[2], packet[3]);
      && Sizing.OutboundSize(n) == Some(wire.Length)
      && fresh(wire) && Sent(wire[..], w, fs, id, dat.value, n, usec)
      && SESSION_HDR + n <= |w| && w[SESSION_HDR..SESSION_HDR + n] == packet[..n]
      && var h := OuterHeader(t, wire.Length, id, sum);
         wire[..SESSION_HDR] == h[SESSION_HDR - 5 := Forwarded(h[SESSION_HDR - 5], forward)]
  {
    hide Sent, OuterHeader, HeaderReadable, Sizing.OutboundSize, Sizing.DataArea;
    var n := U16(packet[2], packet[3]);
    var newlen := Sizing.OutboundSize(n);
    Sizing.OutboundArea(n);
    wire, w, fs := new byte[0], [], [];
    if newlen.None? {
      return false, wire, w, fs;
    }
    var len := newlen.value;
    AreaLarge(n);
    wire := new byte[len];
    MemCpy(wire, SESSION_HDR, packet, 0, len - SESSION_HDR);
    Copied(wire, packet, len - SESSION_HDR);
    PlaceHeader(wire, OuterHeader(t, len, id, sum), forward);
    w := wire[..];
    WholeWire(wire, packet, len);
    DataFields(t, id, sum, w, packet[..len - SESSION_HDR], len, n);
    ok, fs := Seal(wire, id, dat, usec);
    if ok {
      SameHeader(wire, w, fs, id, dat.value, n, usec);
    }
  }

  // Writes the header with the forward flag in its octet.
  method PlaceHeader(wire: array<byte>, h: seq<byte>, forward: bool)
    requires |h| == SESSION_HDR <= wire.Length
    modifies wire
    ensures wire[..SESSION_HDR] == h[SESSION_HDR - 5 := Forwarded(h[SESSION_HDR - 5], forward)]
    ensures wire[24..28] == h[24..28]
    ensures wire[SESSION_HDR..] == old(wire[SESSION_HDR..])
  {
    hide Forwarded;
    PutAt(wire, 0, h);
    assert wire[0..SESSION_HDR] == wire[..SESSION_HDR];
    wire[SESSION_HDR - 5] := Forwarded(wire[SESSION_HDR - 5], forward);
  }

  lemma WholeWire(wire: array<byte>, packet: array<byte>, len: nat)
    requires SESSION_HDR <= len == wire.Length && len - SESSION_HDR <= packet.Length
    requires wire[SESSION_HDR..] == packet[..len - SESSION_HDR]
    ensures var w := wire[..];
      && w[..SESSION_HDR] == wire[..SESSION_HDR] && w[SESSION_HDR..] == packet[..len - SESSION_HDR]
      && w[24..28] == wire[24..28]
  {}

  lemma AreaLarge(n: nat)
    requires Sizing.OutboundSize(n).Some?
    ensures PKT_SMALL + SESSION_HDR <= Sizing.OutboundSize(n).value <= PKT_MAX
  {}

  lemma Copied(wire: array<byte>, packet: array<byte>, len: nat)
    requires SESSION_HDR + len <= wire.Length && len <= packet.Length
    requires wire[..SESSION_HDR + len] == wire[..SESSION_HDR] + packet[0..0 + len]
    ensures wire[SESSION_HDR..SESSION_HDR + len] == packet[..len]
  {
    assert wire[SESSION_HDR..SESSION_HDR + len] == wire[..SESSION_HDR + len][SESSION_HDR..];
  }

  // The fields of a data packet's buffer; octet 23 holds the forward flag.
  lemma DataFields(t: Template, id: nat, sum: Sum, w: seq<byte>, p: seq<byte>, len: nat, n: nat)
    requires PKT_SMALL + SESSION_HDR <= |w| == len && id < Pow256(4) && |p| == len - SESSION_HDR && n <= |p|
    requires w[SESSION_HDR..] == p && n == U16(p[2], p[3])
    requires w[24..28] == OuterHeader(t, len, id, sum)[24..28]
    ensures IpLength(w) == n && HeaderReadable(w) && PacketId(w) == id
    ensures w[SESSION_HDR..SESSION_HDR + n] == p[..n]
  {
    OuterId(t, len, id, sum, []);
    var h := OuterHeader(t, len, id, sum);
    assert h + [] == h;
    hide OuterHeader;
    HeadersReadable(w);
    assert w[SESSION_HDR + 2] == w[SESSION_HDR..][2] && w[SESSION_HDR + 3] == w[SESSION_HDR..][3];
    assert w[SESSION_HDR..SESSION_HDR + n] == w[SESSION_HDR..][..n];
  }

  // -----------------------------------------------------------------------
  // The receiver.

  function CipherOf(h: Host, c: Context): (r: Option<Cipher>)
    ensures r.Some? <==> c.Some?
    ensures r.Some? ==> r.value == h.aes(c.value)
  {
    match c
    case None => None
    case Some(k) => Some(h.aes(k))
  }

  lemma AreaOf(packet: array<byte>, size: nat, buf: array<byte>)
    requires SESSION_HDR <= size <= packet.Length && buf.Length == size - SESSION_HDR
    requires buf[..buf.Length] == [] + packet[SESSION_HDR..SESSION_HDR + buf.Length]
    ensures buf[..] == buf[0..buf.Length] == packet[..size][SESSION_HDR..]
  {}

  // The area copied out of the packet and decrypted.
  method OpenArea(h: Host, dat: Option<Cipher>, packet: array<byte>, size: nat) returns (ok: bool, buf: array<byte>)
    requires SESSION_HDR <= size <= packet.Length
    requires dat == CipherOf(h, DataContext(h.st, PacketId(packet[..size])))
    ensures fresh(buf) && buf.Length == size - SESSION_HDR
    ensures ok == Plain(h, packet[..size]).Some?
    ensures ok ==> buf[..] == Plain(h, packet[..size]).value
  {
    hide CbcDec, DataContext, PacketId;
    ghost var wire := packet[..size];
    var id := GetBigEndian(packet, SESSION_HDR - 4, 4);
    SameWireId(packet, size, id);
    buf := new byte[size - SESSION_HDR];
    MemCpy(buf, 0, packet, SESSION_HDR, buf.Length);
    AreaOf(packet, size, buf);
    ok := Decrypt(dat, buf, 0, buf.Length, id);
    assert buf[..] == buf[0..buf.Length];
    assert packet[..size] == wire;
  }

  // The decrypted and reassembled packet.
  method Open(h: Host, dat: Option<Cipher>, packet: array<byte>, size: nat) returns (ok: bool, buf: array<byte>, n: nat)
    requires size <= packet.Length && Receivable(h, packet[..size])
    requires dat == CipherOf(h, DataContext(h.st, PacketId(packet[..size])))
    ensures fresh(buf) && buf.Length == size - SESSION_HDR
    ensures ok == Plain(h, packet[..size]).Some?
    ensures ok ==> Inner(h, packet[..size]).Some?
    ensures ok ==> var b := Inner(h, packet[..size]).value;
      |b| <= buf.Length && buf[..|b|] == b && (|b| >= 4 ==> n == U16(b[2], b[3]))
  {
    hide Restored, Safe, Plain, Sane;
    ghost var wire := packet[..size];
    n := 0;
    ok, buf := OpenArea(h, dat, packet, size);
    if !ok {
      return;
    }
    assert buf[..buf.Length] == buf[..];
    RestoredExact(buf[..]);
    var work := new Work(buf.Length);
    var stat;
    stat, n := Deobfuscation.Deobfuscate(buf, buf.Length, work);
    assert packet[..size] == wire;
  }

  lemma SameOctets(buf: array<byte>, b: seq<byte>)
    requires |b| <= buf.Length && buf[..|b|] == b
    ensures forall i :: 0 <= i < |b| ==> buf[i] == b[i]
    ensures forall i, j :: 0 <= i <= j <= |b| ==> buf[i..j] == b[i..j]
  {}

  // Tells a control message for this host from a packet for the stack.
  method IsControl(h: Host, buf: array<byte>, ghost b: seq<byte>) returns (r: bool)
    requires |b| <= buf.Length && buf[..|b|] == b
    requires |b| >= MIN_IP && (b[9] == UDP ==> |b| >= UdpAt(b) + 6)
    ensures r == ForHost(h, b)
  {
    SameOctets(buf, b);
    if buf[9] != UDP {
      return false;
    }
    var u := (buf[0] % 16) * 4 + (if h.role.SecondaryOnly? then 0 else 2);
    return buf[16..20] == h.addr && U16(buf[u], buf[u + 1]) == h.port;
  }

  lemma SplitAt(a: array<byte>, i: nat, j: nat)
    requires i <= j <= a.Length
    ensures a[i..] == a[i..j] + a[j..]
  {}

  // The message is decrypted where it lies; what follows it is not touched.
  method OpenMessage(h: Host, ctl: Option<Cipher>, id: nat, buf: array<byte>, ghost b: seq<byte>)
    returns (ok: bool, ghost rest: seq<byte>)
    requires |b| <= buf.Length && buf[..|b|] == b && ctl == CipherOf(h, ControlContext(h.st, id))
    requires |b| >= P3_CTL_HDR && |b| >= UdpAt(b) + 6 && |b| >= P3_CTL_HDR + MessageLength(b)
    modifies buf
    ensures ok == Message(h, id, b).Some?
    ensures ok ==> buf[P3_CTL_HDR..] == Message(h, id, b).value + rest
  {
    hide CbcDec, ControlContext;
    SameOctets(buf, b);
    var u := (buf[0] % 16) * 4;
    var len := U16(buf[u + 4], buf[u + 5]);
    ok := Decrypt(ctl, buf, P3_CTL_HDR, len, id);
    rest := buf[P3_CTL_HDR + len..];
    SplitAt(buf, P3_CTL_HDR, P3_CTL_HDR + len);
  }

  // The inbound half of the packet handler, with the session it belongs to.
  method Receive(h: Host, session: Session, packet: array<byte>, size: nat)
    returns (r: Inbound, buf: array<byte>, n: nat, ghost rest: seq<byte>)
    requires session.View() == h.st
    requires size <= packet.Length && Receivable(h, packet[..size])
    ensures Plain(h, packet[..size]).None? ==> r == Dropped
    ensures Plain(h, packet[..size]).Some? ==>
      var b := Inner(h, packet[..size]).value;
      && r == Handled(h, PacketId(packet[..size]), b, rest)
      && (r.ForStack? ==> |b| <= buf.Length && buf[..|b|] == b && n == U16(b[2], b[3]))
  {
    hide Plain, Inner, ForHost, Message, Complete, Parsed, DataContext, ControlContext;
    ghost var wire := packet[..size];
    rest := [];
    var id := GetBigEndian(packet, SESSION_HDR - 4, 4);
    SameWireId(packet, size, id);
    var dat, ctl := session.ChooseContexts(id);
    var ok;
    ok, buf, n := Open(h, CipherOf(h, dat), packet, size);
    if !ok {
      return Dropped, buf, n, rest;
    }
    ghost var b := Inner(h, wire).value;
    var control := IsControl(h, buf, b);
    if !control {
      return ForStack, buf, n, rest;
    }
    IsUdp(h, b);
    ok, rest := OpenMessage(h, CipherOf(h, ctl), id, buf, b);
    if !ok {
      return Dropped, buf, n, rest;
    }
    CompleteMore(Message(h, id, b).value, rest);
    var call := ParseCtlMessage(buf, P3_CTL_HDR, h.role);
    r := Control(call);
  }

  lemma SameWireId(packet: array<byte>, size: nat, id: nat)
    requires SESSION_HDR <= size <= packet.Length && id == BigEndian(packet[24..28])
    ensures PacketId(packet[..size]) == id
  {
    assert packet[..size][24..28] == packet[24..28];
  }

  lemma IsUdp(h: Host, b: seq<byte>)
    requires |b| >= MIN_IP && (b[9] == UDP ==> |b| >= UdpAt(b) + 6) && ForHost(h, b)
    ensures |b| >= UdpAt(b) + 6
  {}
}
