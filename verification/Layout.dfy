// Sizes and offsets in a P3 packet, and the scratch area it is worked on in.

module Layout {
  import opened Bytes

  const SESSION_HDR := 28   // octets of P3 header in front of the payload
  const PKT_SMALL := 176
  const PKT_MED := 640
  const PKT_LARGE := 1440
  const PKT_MAX := 1500
  const MIN_IP := 20   // octets in the smallest IPv4 header

  // The packet's scratch area; cleared when it is allocated.
  class Work {
    const buf: array<byte>
    const blen: array<int>
    const bloc: array<int>
    const dloc: array<Option<nat>>   // where a block lies in the packet, if known

    constructor (size: nat)
      ensures Cleared() && buf.Length == size
      ensures fresh(buf) && fresh(blen) && fresh(bloc) && fresh(dloc)
    {
      buf := new byte[size];
      blen := new int[8](_ => 0);
      bloc := new int[8](_ => 0);
      dloc := new Option<nat>[8](_ => None);
    }

    ghost predicate Valid() {
      blen.Length == bloc.Length == dloc.Length == 8 && blen != bloc
    }

    ghost predicate Cleared()
      reads blen, bloc, dloc
    {
      && Valid()
      && (forall i :: 0 <= i < 8 ==> blen[i] == 0)
      && (forall i :: 0 <= i < 8 ==> bloc[i] == 0)
      && (forall i :: 0 <= i < 8 ==> dloc[i] == None)
    }
  }

  // The size field of the IP packet that starts at offset SESSION_HDR.
  function IpLength(w: seq<byte>): nat
    requires |w| >= SESSION_HDR + 4
  {
    U16(w[SESSION_HDR + 2], w[SESSION_HDR + 3])
  }

  function HeaderSize(w: seq<byte>): nat
    requires |w| > SESSION_HDR
  {
    (w[SESSION_HDR] % 16) * 4
  }

  // The reads the padding step makes in the headers stay in the buffer.
  predicate HeaderReadable(w: seq<byte>) {
    && |w| >= SESSION_HDR + MIN_IP
    && (w[SESSION_HDR + 9] == 6 ==> SESSION_HDR + HeaderSize(w) + 9 < |w|)
  }
}
