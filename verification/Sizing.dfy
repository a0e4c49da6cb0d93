// How large the encrypted area of a packet is made.

module Sizing {
  import opened Bytes
  import opened Layout
  import opened Cuts

  // Octets that obfuscation needs besides the packet: two frame headers.
  const TWO_HEADERS := 6

  function DataArea(need: nat): nat {
    if need <= PKT_SMALL then PKT_SMALL
    else if need < PKT_MED then PKT_MED
    else if need < PKT_LARGE then PKT_LARGE
    else RoundUp16(need)
  }

  // The size of the packet that carries an IP packet of totLen octets.
  function OutboundSize(totLen: nat): Option<nat> {
    var newlen := DataArea(totLen + TWO_HEADERS) + SESSION_HDR;
    if newlen > PKT_MAX then None else Some(newlen)
  }

  // The size of the packet that carries a control message of len octets; past
  // the fixed sizes no room for the outer header is added.
  function ControlSize(len: nat): nat {
    var newlen := RoundUp16(RoundUp16(len) + SESSION_HDR);
    if newlen + 16 <= PKT_SMALL then PKT_SMALL + SESSION_HDR
    else if newlen + 16 <= PKT_MED then PKT_MED + SESSION_HDR
    else if newlen + 16 <= PKT_LARGE then PKT_LARGE + SESSION_HDR
    else newlen
  }

  // Packets of many lengths travel in packets of few sizes.
  const FIXED := {PKT_SMALL, PKT_MED, PKT_LARGE}

  // What encryption and obfuscation ask of the area for a packet.
  predicate Suits(area: nat, psize: nat) {
    area % 16 == 0 && psize + TWO_HEADERS <= area
  }

  // An area that suits gives obfuscation at least two blocks, at any clock.
  lemma TwoBlocks(area: nat, psize: nat, usec: nat)
    requires Suits(area, psize)
    ensures 2 <= ChosenBlocks(psize, area, usec) <= 7
  {}

  // Outbound packets of up to 1466 octets are accepted, and no others; every
  // accepted one gets an area that suits, of at most 1472 octets.
  lemma OutboundArea(totLen: nat)
    ensures OutboundSize(totLen).Some? <==> totLen <= 1466
    ensures OutboundSize(totLen).Some? ==>
      var area := OutboundSize(totLen).value - SESSION_HDR; Suits(area, totLen) && area <= 1472
  {}

  // The area is a fixed size up to 1434 octets and whole blocks above, and
  // no smaller fixed size would have had room to spare.
  lemma OutboundFixed(totLen: nat)
    requires OutboundSize(totLen).Some?
    ensures var area := OutboundSize(totLen).value - SESSION_HDR;
      && (area in FIXED <==> totLen <= 1434)
      && (area !in FIXED ==> area < totLen + TWO_HEADERS + 16)
      && (forall s :: s in FIXED && s < area ==> totLen + TWO_HEADERS >= s)
  {}

  // Each of the two buffers a packet is worked on in.
  function BufferSize(totLen: nat): nat {
    DataArea(totLen + TWO_HEADERS) + SESSION_HDR + 4
  }

  // The packet is copied behind the header as many octets as the whole is to
  // have: always 28 past its end and 24 past the first buffer, never past the
  // second.
  lemma CopySpills(totLen: nat)
    requires OutboundSize(totLen).Some?
    ensures var newlen := OutboundSize(totLen).value; var end := SESSION_HDR + newlen;
      end == newlen + 28 == BufferSize(totLen) + 24 <= 2 * BufferSize(totLen)
  {}

  // Control messages of up to 1392 octets, and no others, get an area that
  // suits the header and the message rounded up to whole blocks.
  lemma ControlArea(len: nat)
    ensures ControlSize(len) >= SESSION_HDR
    ensures Suits(ControlSize(len) - SESSION_HDR, RoundUp16(len) + SESSION_HDR) <==> len <= 1392
  {
    var r := RoundUp16(len);
    assert RoundUp16(r + SESSION_HDR) == r + 32;
  }

  // Up to there the area is a fixed size, the least that leaves a block to
  // spare behind the rounded packet.
  lemma ControlFixed(len: nat)
    requires len <= 1392
    ensures var area := ControlSize(len) - SESSION_HDR;
      && area in FIXED
      && (forall s :: s in FIXED ==> (area <= s <==> RoundUp16(len) + 32 + 16 <= s))
  {
    var r := RoundUp16(len);
    assert RoundUp16(r + SESSION_HDR) == r + 32;
  }
}
