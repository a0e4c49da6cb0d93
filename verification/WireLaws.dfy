// Where things lie on the wire, in octets and numbers.

module WireLaws {
  import opened Bytes
  import opened Layout
  import opened BlockCipher
  import opened SessionSpec
  import opened Cbc
  import opened ControlCodec
  import opened Tunnel
  import opened Delivery
  import Sizing

  lemma TwoOctets(hi: byte, lo: byte)
    ensures U16(hi, lo) == BigEndian([hi, lo])
  {
    var both: seq<byte>, one: seq<byte> := [hi, lo], [hi];
    assert both[..1] == one && one[..0] == [];
    assert BigEndian(one) == hi;
  }

  // A packet travels in an area of 176, 640 or 1440 octets, the longest in
  // one of 1456 or 1472, with 28 octets in front.
  lemma PacketSizes(n: nat)
    ensures n <= 170 ==> Sizing.OutboundSize(n) == Some(204)
    ensures 170 < n <= 633 ==> Sizing.OutboundSize(n) == Some(668)
    ensures 633 < n <= 1434 ==> Sizing.OutboundSize(n) == Some(1468)
    ensures 1434 < n <= 1450 ==> Sizing.OutboundSize(n) == Some(1484)
    ensures 1450 < n <= 1466 ==> Sizing.OutboundSize(n) == Some(1500)
    ensures 1466 < n ==> Sizing.OutboundSize(n) == None
  {}

  // A control message is encrypted in whole blocks and travels in one of the
  // same three areas.
  lemma MessageSizes(n: nat)
    ensures n <= 128 ==> Sizing.ControlSize(n) == 204
    ensures 128 < n <= 592 ==> Sizing.ControlSize(n) == 668
    ensures 592 < n <= 1392 ==> Sizing.ControlSize(n) == 1468
  {
    assert RoundUp16(RoundUp16(n) + 28) == RoundUp16(n) + 32;
  }

  // The header of the wire packet: its id in the last four octets.
  lemma OuterOctets(h: Template, newlen: nat, id: nat, sum: Sum, rest: seq<byte>)
    requires newlen < 0x1_0000 && id < UNSIGNED
    ensures var r := OuterHeader(h, newlen, id, sum);
      && PacketId(r + rest) == id == BigEndian(r[24..28])
      && U16(r[2], r[3]) == newlen && U16(r[4], r[5]) == (id + 0xa65d) % 0x1_0000
      && r[20..24] == h[20..24]
  {
    assert Pow256(4) == UNSIGNED by { assert Pow256(2) == 65536; }
    OuterFields(h, newlen, id, sum);
    OuterId(h, newlen, id, sum, rest);
    OuterTail(h, newlen, id, sum, rest);
  }

  lemma OuterTail(h: Template, newlen: nat, id: nat, sum: Sum, rest: seq<byte>)
    ensures var r := OuterHeader(h, newlen, id, sum);
      r[24..28] == (r + rest)[24..28] && r[20..24] == h[20..24]
  {
    var r, front := OuterHeader(h, newlen, id, sum),
                    h[..2] + ToBigEndian(newlen, 2) + ToBigEndian(id + SEQ_DIFF, 2) + h[6..10] + sum;
    hide ToBigEndian;
    assert r == front + (h[12..24] + ToBigEndian(id, 4));
    assert r[20..24] == (h[12..24] + ToBigEndian(id, 4))[8..12] == h[12..24][8..12] == h[20..24];
  }

  // The header of the inner packet: UDP is protocol 17; both ports are the
  // same, and the message lies behind 28 octets.
  lemma InnerOctets(h: Template, port: nat, id: nat, sum: Sum, ctl: Cipher, msg: seq<byte>)
    requires |msg| % 16 == 0 && |msg| + 28 < 0x1_0000 && port < 0x1_0000
    ensures var s := InnerPacket(h, port, id, sum, ctl, msg);
      && |s| == 28 + |msg| && s[28..] == CbcEnc(ctl, Iv(id), msg)
      && U16(s[2], s[3]) == 28 + |msg| && U16(s[4], s[5]) == (id + 4 * 0xa65d) % 0x1_0000
      && s[9] == 17 && s[10..12] == sum && s[12..20] == h[12..20]
      && U16(s[20], s[21]) == port == U16(s[22], s[23]) && U16(s[24], s[25]) == |msg|
  {
    var r := |msg|;
    InnerFields(h, r, id, port, sum);
    LowTwoBytes(id + SEQ_DIFF * 4);
    InnerMiddle(h, r, id, port, sum);
    var s, x := InnerHeader(h, r, id, port, sum), CbcEnc(ctl, Iv(id), msg);
    hide InnerHeader, ToBigEndian, CbcEnc, Iv;
    Fronted(s, x);
  }

  lemma Fronted(s: seq<byte>, x: seq<byte>)
    requires |s| == 28
    ensures (s + x)[28..] == x && (s + x)[10..12] == s[10..12] && (s + x)[12..20] == s[12..20]
  {}

  lemma InnerMiddle(h: Template, r: nat, id: nat, port: nat, sum: Sum)
    ensures var s := InnerHeader(h, r, id, port, sum); var b := ToBigEndian(id + SEQ_DIFF * 4, 2);
      s[4] == b[0] && s[5] == b[1] && s[10..12] == sum && s[12..20] == h[12..20]
  {
    hide ToBigEndian;
    var s, front := InnerHeader(h, r, id, port, sum),
                    h[..2] + ToBigEndian(r + P3_CTL_HDR, 2) + ToBigEndian(id + SEQ_DIFF * 4, 2) + h[6..9] + [UDP];
    var rest := ToBigEndian(port, 2) + ToBigEndian(port, 2) + ToBigEndian(r, 2) + h[26..];
    assert s == front + (sum + h[12..20] + rest);
  }

  // What is taken for a control message: UDP to the host's address. The
  // secondary looks for its port in the source field, all others in the
  // destination field.
  lemma ControlPackets(h: Host, b: seq<byte>)
    requires |b| >= 20 && |b| >= 4 * (b[0] % 16) + 6
    ensures var u := 4 * (b[0] % 16); var from := if h.role == SecondaryOnly then u else u + 2;
      ForHost(h, b) <==> b[9] == 17 && b[16..20] == h.addr && U16(b[from], b[from + 1]) == h.port
    ensures var u := 4 * (b[0] % 16); MessageLength(b) == U16(b[u + 4], b[u + 5])
  {}

  // The flag of a packet to be sent on is the bit of value 4.
  lemma ForwardBit(b: byte, forward: bool)
    ensures Forwarded(b, forward) / 4 % 2 == (if forward then 1 else b / 4 % 2)
    ensures Forwarded(b, forward) % 4 == b % 4 && Forwarded(b, forward) / 8 == b / 8
  {}
}
