// The key ring as a queue: a chunk joins at the back, a key leaves at the
// front, and what is lost or added when an index wraps.

module KeyQueue {
  import opened Bytes
  import opened KeyRing

  // The live octets in the order in which they are to be taken.
  function Queue(r: Ring, buf: seq<byte>): (q: seq<byte>)
    requires Aligned(r) && |buf| == r.size
  {
    if r.head <= r.tail then buf[r.head..r.tail] else buf[r.head..] + buf[..r.tail]
  }

  // A chunk is added unless the ring looks empty, the chunk would lie on live
  // octets or past the end, or the ring would look empty after it though
  // the tail has not turned.
  lemma FillExact(r: Ring)
    requires Aligned(r)
    ensures CanFill(r) <==>
      && r.head != r.tail && r.tail + 8 <= r.size
      && (forall p :: r.tail <= p < r.tail + 8 ==> !Live(r, p))
      && r.tail + 8 != r.head
  {
    if r.tail + CHUNK <= r.size {
      ClearIsFree(r);
    }
    SizeBounds(r);
    Multiples(r);
    hide Aligned, Live;
  }

  // A chunk joins the queue, with the octets behind it when it is the last to
  // fit: none if the size is a multiple of the chunk. When the ring comes to
  // look empty all of the queue is lost.
  lemma FillAppends(r: Ring, buf: seq<byte>, chunk: seq<byte>)
    requires Aligned(r) && |buf| == r.size && CanFill(r) && |chunk| == CHUNK
    ensures Aligned(Filled(r)) && r.tail + CHUNK <= r.size
    ensures var end := r.tail + CHUNK;
      && (end + CHUNK <= r.size ==> Queue(Filled(r), Stored(r, buf, chunk)) == Queue(r, buf) + chunk)
      && (end + CHUNK > r.size && r.head > 0 ==>
          Queue(Filled(r), Stored(r, buf, chunk)) == Queue(r, buf) + chunk + buf[end..])
      && (end + CHUNK > r.size && r.head == 0 ==> Queue(Filled(r), Stored(r, buf, chunk)) == [])
  {
    FillsClear(r);
    FillsApart(r);
    SizeBounds(r);
    Joined(r, buf, chunk);
    hide Aligned, CanFill;
  }

  lemma Joined(r: Ring, buf: seq<byte>, chunk: seq<byte>)
    requires r.head <= r.size && r.tail + CHUNK <= r.size == |buf| && |chunk| == CHUNK
    ensures var b := Stored(r, buf, chunk); var end := r.tail + CHUNK;
      && (r.head <= r.tail ==> b[r.head..end] == buf[r.head..r.tail] + chunk
                               && b[r.head..] == buf[r.head..r.tail] + chunk + buf[end..])
      && (end <= r.head ==> b[r.head..] == buf[r.head..] && b[..end] == buf[..r.tail] + chunk)
  {}

  // The size of a buffer that is a multiple of the chunk leaves no gap.
  lemma NoGap(r: Ring)
    requires Aligned(r) && CanFill(r) && r.size % CHUNK == 0 && r.tail + 2 * CHUNK > r.size
    ensures r.tail + CHUNK == r.size
  {
    FillsApart(r);
    SizeBounds(r);
    Between(r.tail + CHUNK, r.size);
  }

  lemma Between(a: nat, b: nat)
    requires a % 8 == 0 && b % 8 == 0 && a <= b < a + 8
    ensures a == b
  {}

  // Draws i, i + 1, ..., n of them, end to end.
  function Strung(draws: nat -> Option<seq<byte>>, i: nat, n: nat): seq<byte>
    decreases n
  {
    if n == 0 then []
    else (if draws(i).Some? then draws(i).value else []) + Strung(draws, i + 1, n - 1)
  }

  // The producer's loop brings the draws to the back of the queue, one after
  // the other, until there is no room or no draw; unless the head is at 0,
  // when it may lose them all, or the size leaves a gap.
  lemma {:induction false} PouredQueue(r: Ring, buf: seq<byte>, draws: nat -> Option<seq<byte>>, i: nat)
    returns (n: nat)
    requires Aligned(r) && |buf| == r.size && Chunks(draws) && r.head > 0 && r.size % CHUNK == 0
    ensures var (r', buf') := Poured(r, buf, draws, i);
      && Aligned(r') && |buf'| == r'.size && r'.head == r.head
      && Queue(r', buf') == Queue(r, buf) + Strung(draws, i, n)
      && (!CanFill(r') || draws(i + n).None?)
    ensures forall k :: i <= k < i + n ==> draws(k).Some?
    decreases if r.head < r.tail then 1 else 0, r.size - r.tail
  {
    hide Aligned, CanFill, Queue, Stored;
    PouredStep(r, buf, draws, i);
    n := 0;
    if CanFill(r) && draws(i).Some? {
      hide Poured, Filled;
      var chunk := draws(i).value;
      FillsClear(r);
      FillMeasure(r);
      Appended(r, buf, chunk);
      var m := PouredQueue(Filled(r), Stored(r, buf, chunk), draws, i + 1);
      n := m + 1;
      OneMore(Queue(r, buf), chunk, Strung(draws, i + 1, m));
    } else {
      NoMore(Queue(r, buf));
    }
  }

  lemma Appended(r: Ring, buf: seq<byte>, chunk: seq<byte>)
    requires Aligned(r) && |buf| == r.size && CanFill(r) && |chunk| == CHUNK && r.head > 0 && r.size % CHUNK == 0
    ensures r.tail + CHUNK <= r.size && Filled(r).head == r.head && Filled(r).size == r.size && Aligned(Filled(r))
    ensures Queue(Filled(r), Stored(r, buf, chunk)) == Queue(r, buf) + chunk
  {
    FillAppends(r, buf, chunk);
    hide Aligned, CanFill, Queue, Stored;
    if r.tail + 2 * CHUNK > r.size {
      NoGap(r);
      NoMore(Queue(r, buf) + chunk);
      assert buf[r.tail + CHUNK..] == [];
    }
  }

  lemma OneMore(q: seq<byte>, chunk: seq<byte>, rest: seq<byte>)
    ensures (q + chunk) + rest == q + (chunk + rest)
  {}

  lemma NoMore(q: seq<byte>)
    ensures q + [] == q
  {}

  // A key is the front of the queue and leaves it, unless the head has to
  // turn: then what lies behind it is dropped first.
  lemma TakeFromFront(r: Ring, buf: seq<byte>, k: nat)
    requires Aligned(r) && |buf| == r.size && KeySize(k) && Take(r, k).0.Some?
    ensures var (from, r') := Take(r, k); var q := Queue(r, buf);
      && Aligned(r') && from.value + k <= r.size
      && (var rest := if from == Some(r.head) then q else q[r.size - r.head..];
          && k <= |rest| && buf[from.value..from.value + k] == rest[..k] && Queue(r', buf) == rest[k..])
  {
    hide Aligned;
    TakeKeeps(r, k);
    TakesLive(r, k, 0);
    SizeBounds(r);
    Split(r, buf, k);
  }

  lemma Split(r: Ring, buf: seq<byte>, k: nat)
    requires r.head <= r.size && r.tail <= r.size == |buf| && k <= r.size
    ensures r.head + k <= r.tail ==>
      buf[r.head..r.tail][..k] == buf[r.head..r.head + k] && buf[r.head..r.tail][k..] == buf[r.head + k..r.tail]
    ensures r.tail < r.head && r.head + k <= r.size ==>
      var q := buf[r.head..] + buf[..r.tail];
      q[..k] == buf[r.head..r.head + k] && q[k..] == buf[r.head + k..] + buf[..r.tail]
    ensures r.tail < r.head && k <= r.tail ==>
      var q := buf[r.head..] + buf[..r.tail];
      q[r.size - r.head..][..k] == buf[0..k] && q[r.size - r.head..][k..] == buf[k..r.tail]
  {}

  // So of two keys taken one after the other, with no turn, the second is the
  // one behind the first.
  lemma TwoKeys(r: Ring, buf: seq<byte>, k: nat, k': nat)
    requires Aligned(r) && |buf| == r.size && KeySize(k) && KeySize(k')
    requires Take(r, k).0 == Some(r.head)
    requires var r' := Take(r, k).1; Take(r', k').0 == Some(r'.head)
    ensures var r' := Take(r, k).1; var q := Queue(r, buf);
      && k + k' <= |q| && r'.head + k' <= r.size
      && buf[r.head..r.head + k] == q[..k] && buf[r'.head..r'.head + k'] == q[k..k + k']
  {
    TakeFromFront(r, buf, k);
    TakeFromFront(Take(r, k).1, buf, k');
    hide Queue, Take;
    assert Queue(r, buf)[k..][..k'] == Queue(r, buf)[k..k + k'];
  }
}
