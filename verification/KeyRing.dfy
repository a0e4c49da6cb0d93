// The ring of key octets that the key server fills in user space while
// sessions in the kernel take keys from it: where each side may write and
// read, and that what is taken is not taken again.

module KeyRing {
  import opened Bytes

  const CHUNK := 8              // octets the producer adds at a time

  // The key sizes a session may ask for.
  predicate KeySize(k: nat) {
    k == 16 || k == 32
  }

  datatype Ring = Ring(head: nat, tail: nat, size: nat)

  // Octet p holds part of a key that is still to be taken.
  predicate Live(r: Ring, p: nat) {
    if r.head <= r.tail then r.head <= p < r.tail
    else (r.head <= p < r.size) || p < r.tail
  }

  // The indices keep to the sizes of keys and chunks, and to the buffer.
  predicate Aligned(r: Ring) {
    && 16 <= r.size < UNSIGNED && r.head % 16 == 0 && r.tail % CHUNK == 0
    && r.head <= r.size && r.tail <= r.size
  }

  lemma Eights(a: nat, b: nat)
    requires a % 8 == 0 && b % 8 == 0 && a < b
    ensures a + 8 <= b
  {
    assert a == 8 * (a / 8) && b == 8 * (b / 8);
  }

  lemma Sixteens(a: nat)
    requires a % 16 == 0
    ensures a % 8 == 0 && (a > 0 ==> a >= 16)
  {
    assert a == 8 * (2 * (a / 16));
  }

  // How near the indices can come to each other.
  lemma Multiples(r: Ring)
    requires Aligned(r)
    ensures r.head > 0 ==> r.head >= 16
    ensures r.tail < r.head ==> r.tail + CHUNK <= r.head
    ensures r.tail + CHUNK < r.head ==> r.tail + 2 * CHUNK <= r.head
  {
    Sixteens(r.head);
    if r.tail < r.head {
      Eights(r.tail, r.head);
      if r.tail + CHUNK < r.head {
        Eights(r.tail + CHUNK, r.head);
      }
    }
  }

  // A chunk fits at the tail, clear of the live octets.
  predicate Clear(r: Ring) {
    r.tail + CHUNK <= r.size && (r.head <= r.tail || r.tail + CHUNK <= r.head)
  }

  lemma ClearIsFree(r: Ring)
    requires Aligned(r) && r.tail + CHUNK <= r.size
    ensures Clear(r) <==> forall p :: r.tail <= p < r.tail + CHUNK ==> !Live(r, p)
  {
    if !Clear(r) {
      assert r.tail < r.head < r.tail + CHUNK;
      assert Live(r, r.head);
    }
  }

  // -----------------------------------------------------------------------
  // The producer.

  predicate CanFill(r: Ring) {
    || (r.head < r.tail && r.tail <= Minus(r.size, CHUNK))
    || (0 < r.head && r.tail < Minus(r.head, CHUNK))
  }

  function Filled(r: Ring): Ring {
    var tail := r.tail + CHUNK;
    r.(tail := if tail > Minus(r.size, CHUNK) then 0 else tail)
  }

  // There is room at the tail; the tail wraps only when it leads the head.
  lemma FillsApart(r: Ring)
    requires Aligned(r) && CanFill(r)
    ensures r.head < r.tail || r.tail + CHUNK < r.head
    ensures r.tail + CHUNK <= r.size
    ensures Filled(r).tail == r.tail + CHUNK <= r.size - CHUNK || (Filled(r).tail == 0 && r.head < r.tail)
  {
    Multiples(r);
    SizeBounds(r);
    hide Aligned;
  }

  lemma SizeBounds(r: Ring)
    requires Aligned(r)
    ensures 16 <= r.size < UNSIGNED && r.head <= r.size && r.tail <= r.size
  {}

  lemma TailMoves(r: Ring)
    requires Aligned(r) && r.tail + CHUNK <= r.size
    ensures Aligned(r.(tail := r.tail + CHUNK)) && Aligned(r.(tail := 0))
  {}

  // A chunk is added only where it hurts nothing.
  lemma FillsClear(r: Ring)
    requires Aligned(r) && CanFill(r)
    ensures Clear(r) && Aligned(Filled(r)) && Filled(r).tail + CHUNK <= r.size
  {
    FillsApart(r);
    SizeBounds(r);
    TailMoves(r);
    hide Aligned, CanFill;
  }

  // The ring comes to look empty exactly when it is filled to the end of the
  // buffer while nothing has been taken since the head last was at 0.
  lemma FullLooksEmpty(r: Ring)
    requires Aligned(r) && CanFill(r)
    ensures Filled(r).tail == r.head <==> r.head == 0 && r.tail + 2 * CHUNK > r.size
  {
    FillsApart(r);
    SizeBounds(r);
    hide Aligned;
  }

  // Otherwise what was live stays live, and the chunk is live too.
  lemma FillKeeps(r: Ring, p: nat)
    requires Aligned(r) && CanFill(r) && Filled(r).tail != r.head
    ensures Live(r, p) || r.tail <= p < r.tail + CHUNK ==> Live(Filled(r), p)
  {
    FillsApart(r);
    SizeBounds(r);
    hide Aligned, CanFill;
  }

  // -----------------------------------------------------------------------
  // The consumer: where a key of k octets is copied from, if there is one, and
  // the ring afterwards. The head moves on even when the wrapped ring turns
  // out not to hold enough.

  function Advanced(r: Ring, head: nat, k: nat): Ring {
    r.(head := if head + k > r.size then 0 else head + k)
  }

  function Take(r: Ring, k: nat): (Option<nat>, Ring) {
    if r.head == r.tail || r.head + 1 == r.tail then (None, r)
    else if r.tail < r.head then
      if r.head + k <= r.size then (Some(r.head), Advanced(r, r.head, k))
      else (if r.tail < k then None else Some(0), Advanced(r, 0, k))
    else if r.tail - r.head < k then (None, r)
    else (Some(r.head), Advanced(r, r.head, k))
  }

  // A key is made of live octets, all of them in the buffer.
  lemma TakesLive(r: Ring, k: nat, p: nat)
    requires Aligned(r) && KeySize(k)
    ensures Take(r, k).0.Some? ==>
      var from := Take(r, k).0.value; from + k <= r.size && (from <= p < from + k ==> Live(r, p))
  {}

  // The octets of a key are dead once it is taken; the other live ones stay
  // live, but for those left behind a head that turns.
  lemma TakenDead(r: Ring, k: nat, p: nat)
    requires Aligned(r) && KeySize(k) && Take(r, k).0.Some?
    ensures var (from, r') := Take(r, k);
      && (from.value <= p < from.value + k ==> !Live(r', p))
      && (Live(r, p) && !(from.value <= p < from.value + k) ==> (Live(r', p) <==> from == Some(r.head) || p < r.tail))
      && (Live(r', p) ==> Live(r, p))
  {}

  // Without one nothing is said to be taken: if enough octets are live in one
  // piece at the head, or in front when the head has to turn, there is a key.
  lemma TakenExactly(r: Ring, k: nat)
    requires Aligned(r) && KeySize(k)
    ensures Take(r, k).0.Some? <==>
      || (r.head <= r.tail && r.tail - r.head >= k)
      || (r.tail < r.head && (r.size - r.head >= k || r.tail >= k))
    ensures Take(r, k).0 == Some(r.head) <==>
      r.head + k <= (if r.head <= r.tail then r.tail else r.size)
  {
    Sixteens(r.head);
  }

  lemma HeadAdvances(h: nat, k: nat)
    requires h % 16 == 0 && KeySize(k)
    ensures (h + k) % 16 == 0
  {
    if k == 16 {
      assert (h + 16) % 16 == 0;
    } else {
      assert (h + 32) % 16 == 0;
    }
  }

  lemma HeadMoves(r: Ring, h: nat, k: nat)
    requires Aligned(r) && KeySize(k) && h % 16 == 0
    ensures Aligned(Advanced(r, h, k))
  {
    HeadAdvances(h, k);
  }

  // Taking keeps the indices in order and never uncovers a chunk that the
  // producer has found clear.
  lemma TakeKeeps(r: Ring, k: nat)
    requires Aligned(r) && KeySize(k)
    ensures Aligned(Take(r, k).1) && Take(r, k).1.tail == r.tail
    ensures Clear(r) ==> Clear(Take(r, k).1)
  {
    HeadMoves(r, r.head, k);
    HeadMoves(r, 0, k);
    if r.tail < k {
      Eights(r.tail, k);
    }
    SizeBounds(r);
    hide Aligned;
  }

  // -----------------------------------------------------------------------
  // Interleaving. The producer takes no lock: a turn of each side is several
  // steps, between which the other may take any number.

  datatype Point =
    | Idle
    | Tested    // the tail does not lead the head, or is too near the end
    | NonZero   // the head was not 0
    | Passed
    | Written
    | Moved

  datatype User =
    | Rest
    | Begun(k: nat)       // the ring did not look empty
    | Straight(k: nat)    // the tail was not below the head
    | Turning(k: nat)     // the key does not fit behind the head
    | Turned(k: nat)      // the head has been set to 0
    | Copying(k: nat)
    | Advancing(k: nat)
    | Bumped              // the head has moved, perhaps past the end

  datatype System = System(ring: Ring, at: Point, user: User)

  datatype Step = Produce | Ask(k: nat) | Consume

  function Produced(s: System): System {
    match s.at
    case Idle =>
      s.(at := if s.ring.head < s.ring.tail && s.ring.tail <= Minus(s.ring.size, CHUNK) then Passed else Tested)
    case Tested => s.(at := if 0 < s.ring.head then NonZero else Idle)
    case NonZero => s.(at := if s.ring.tail < Minus(s.ring.head, CHUNK) then Passed else Idle)
    case Passed => s.(at := Written)
    case Written => s.(ring := s.ring.(tail := s.ring.tail + CHUNK), at := Moved)
    case Moved =>
      s.(ring := if s.ring.tail > Minus(s.ring.size, CHUNK) then s.ring.(tail := 0) else s.ring, at := Idle)
  }

  function Asked(s: System, k: nat): System {
    if s.user != Rest || s.ring.head == s.ring.tail || s.ring.head + 1 == s.ring.tail then s
    else s.(user := Begun(k))
  }

  // Every step reads the tail once. The head moves on even when the wrapped
  // ring turns out not to hold enough.
  function Consumed(s: System): System {
    var r := s.ring;
    match s.user
    case Rest => s
    case Begun(k) =>
      s.(user := if r.tail >= r.head then Straight(k) else if r.head + k <= r.size then Copying(k) else Turning(k))
    case Straight(k) => s.(user := if Minus(r.tail, r.head) < k then Rest else Copying(k))
    case Turning(k) => s.(ring := r.(head := 0), user := Turned(k))
    case Turned(k) => s.(user := if Minus(r.tail, r.head) < k then Advancing(k) else Copying(k))
    case Copying(k) => s.(user := Advancing(k))
    case Advancing(k) => s.(ring := r.(head := r.head + k), user := Bumped)
    case Bumped => s.(ring := if r.head > r.size then r.(head := 0) else r, user := Rest)
  }

  function Next(s: System, step: Step): System {
    match step
    case Produce => Produced(s)
    case Ask(k) => Asked(s, k)
    case Consume => Consumed(s)
  }

  function Run(s: System, steps: seq<Step>): System
    decreases |steps|
  {
    if steps == [] then s else Run(Next(s, steps[0]), steps[1..])
  }

  predicate Proper(steps: seq<Step>) {
    forall i :: 0 <= i < |steps| && steps[i].Ask? ==> KeySize(steps[i].k)
  }

  // Undisturbed, a turn is one round of the producer's loop.
  lemma WholeTurn(r: Ring, u: User)
    requires Aligned(r)
    ensures CanFill(r) && r.head < r.tail ==>
      Produced(Produced(Produced(Produced(System(r, Idle, u))))) == System(Filled(r), Idle, u)
    ensures CanFill(r) && r.head >= r.tail ==>
      Produced(Produced(Produced(Produced(Produced(Produced(System(r, Idle, u))))))) == System(Filled(r), Idle, u)
    ensures !CanFill(r) && r.head == 0 ==> Produced(Produced(System(r, Idle, u))) == System(r, Idle, u)
    ensures !CanFill(r) && r.head != 0 ==> Produced(Produced(Produced(System(r, Idle, u)))) == System(r, Idle, u)
  {
    if CanFill(r) {
      FillsApart(r);
    }
    SizeBounds(r);
    Multiples(r);
    hide Aligned;
  }

  function Finish(s: System, n: nat): System
    decreases n
  {
    if n == 0 || s.user == Rest then s else Finish(Consumed(s), n - 1)
  }

  // Steps enough are left.
  predicate Ahead(s: System, n: nat) {
    match s.user
    case Rest => true
    case Begun(_) => n >= 6
    case Straight(_) => n >= 4
    case Turning(_) => n >= 5
    case Turned(_) => n >= 4
    case Copying(_) => n >= 3
    case Advancing(_) => n >= 2
    case Bumped => n >= 1
  }

  // The ring the consumer leaves behind if it is not disturbed.
  function Outcome(s: System): Ring {
    var r := s.ring;
    match s.user
    case Rest => r
    case Begun(k) => Take(r, k).1
    case Straight(k) => if Minus(r.tail, r.head) < k then r else Advanced(r, r.head, k)
    case Turning(k) => Advanced(r, 0, k)
    case Turned(k) => Advanced(r, r.head, k)
    case Copying(k) => Advanced(r, r.head, k)
    case Advancing(k) => Advanced(r, r.head, k)
    case Bumped => if r.head > r.size then r.(head := 0) else r
  }

  lemma OutcomeKept(s: System)
    requires s.user.Begun? ==> KeySize(s.user.k)
    ensures Outcome(Consumed(s)) == Outcome(s)
  {}

  lemma {:induction false} FinishOutcome(s: System, n: nat)
    requires Ahead(s, n) && (s.user.Begun? ==> KeySize(s.user.k))
    ensures Finish(s, n) == System(Outcome(s), s.at, Rest)
    decreases n
  {
    if n > 0 && s.user != Rest {
      OutcomeKept(s);
      AheadNext(s, n);
      hide Outcome, Ahead;
      FinishOutcome(Consumed(s), n - 1);
    }
  }

  lemma AheadNext(s: System, n: nat)
    requires Ahead(s, n) && s.user != Rest && n > 0
    ensures Ahead(Consumed(s), n - 1)
  {}

  // Where the consumer copies from in its next n steps, if it does.
  function CopiesFrom(s: System, n: nat): Option<nat>
    decreases n
  {
    if s.user.Copying? then Some(s.ring.head)
    else if n == 0 || s.user == Rest then None
    else CopiesFrom(Consumed(s), n - 1)
  }

  function Source(s: System): Option<nat> {
    var r := s.ring;
    match s.user
    case Begun(k) => Take(r, k).0
    case Straight(k) => if Minus(r.tail, r.head) < k then None else Some(r.head)
    case Turning(k) => if r.tail < k then None else Some(0)
    case Turned(k) => if Minus(r.tail, r.head) < k then None else Some(r.head)
    case Copying(k) => Some(r.head)
    case _ => None
  }

  lemma SourceKept(s: System)
    requires !s.user.Copying? && (s.user.Begun? ==> KeySize(s.user.k))
    ensures Source(Consumed(s)) == Source(s)
  {}

  lemma {:induction false} CopiesSource(s: System, n: nat)
    requires Ahead(s, n) && (s.user.Begun? ==> KeySize(s.user.k))
    ensures CopiesFrom(s, n) == Source(s)
    decreases n
  {
    if !s.user.Copying? && s.user != Rest && n > 0 {
      SourceKept(s);
      AheadNext(s, n);
      hide Source, Ahead;
      CopiesSource(Consumed(s), n - 1);
    }
  }

  // Undisturbed, the consumer takes a key as the specification has it, in at
  // most seven steps, and copies it from there, if there is one.
  lemma WholeTake(r: Ring, at: Point, k: nat)
    requires KeySize(k)
    ensures Finish(Asked(System(r, at, Rest), k), 6) == System(Take(r, k).1, at, Rest)
    ensures CopiesFrom(Asked(System(r, at, Rest), k), 6) == Take(r, k).0
  {
    FinishOutcome(Asked(System(r, at, Rest), k), 6);
    CopiesSource(Asked(System(r, at, Rest), k), 6);
  }

  // Octet p is being copied.
  predicate Copied(s: System, p: nat) {
    s.user.Copying? && s.ring.head <= p < s.ring.head + s.user.k
  }

  // The tail is past the octets being copied; or below the head; or at it,
  // where the producer does not go on.
  predicate Held(s: System, k: nat) {
    || s.ring.head + k <= s.ring.tail
    || s.ring.tail < s.ring.head
    || (s.ring.tail == s.ring.head && (s.at in {Moved, Idle, Tested} || (s.at == NonZero && s.ring.head > 0)))
  }

  predicate InvRing(s: System) {
    && 16 <= s.ring.size < UNSIGNED && s.ring.head % 16 == 0 && s.ring.tail % CHUNK == 0
    && s.ring.tail <= s.ring.size && (s.ring.head <= s.ring.size || s.user == Bumped)
    && (if s.at == Moved then CHUNK <= s.ring.tail else s.ring.tail + CHUNK <= s.ring.size)
  }

  predicate InvUser(s: System) {
    match s.user
    case Rest => true
    case Begun(k) => KeySize(k)
    case Straight(k) => KeySize(k)
    case Turning(k) => KeySize(k)
    case Turned(k) => KeySize(k) && s.ring.head == 0
    case Copying(k) => KeySize(k) && Held(s, k)
    case Advancing(k) => KeySize(k)
    case Bumped => true
  }

  predicate Inv(s: System) {
    InvRing(s) && InvUser(s)
  }

  // The tail, short of the end, is at least a chunk away from a head above it.
  lemma Apart(s: System)
    requires InvRing(s)
    ensures s.ring.tail < s.ring.head ==> s.ring.tail + CHUNK <= s.ring.head
    ensures (s.ring.tail + CHUNK) % CHUNK == 0
    ensures s.ring.head > 0 ==> s.ring.head >= 16
  {
    Sixteens(s.ring.head);
    if s.ring.tail < s.ring.head {
      Eights(s.ring.tail, s.ring.head);
    }
  }

  lemma InvProduced(s: System)
    requires Inv(s)
    ensures Inv(Produced(s))
  {
    Apart(s);
    var u := Produced(s);
    assert u.ring.tail % CHUNK == 0;
  }

  lemma InvConsumed(s: System)
    requires Inv(s)
    ensures Inv(Consumed(s))
  {
    if s.user.Advancing? {
      HeadAdvances(s.ring.head, s.user.k);
    }
  }

  lemma {:induction false} InvRun(s: System, steps: seq<Step>)
    requires Inv(s) && Proper(steps)
    ensures Inv(Run(s, steps))
    decreases |steps|
  {
    hide Inv, KeySize;
    if steps != [] {
      InvNext(s, steps[0]);
      InvRun(Next(s, steps[0]), steps[1..]);
    }
  }

  lemma InvNext(s: System, step: Step)
    requires Inv(s) && (step.Ask? ==> KeySize(step.k))
    ensures Inv(Next(s, step))
  {
    match step
    case Produce => InvProduced(s);
    case Ask(k) => {}
    case Consume => InvConsumed(s);
  }

  // As the ring is set up: empty, or holding one chunk.
  predicate Fresh(s: System) {
    && s.at == Idle && s.user == Rest
    && s.ring.head == 0 && s.ring.tail in {0, CHUNK} && 16 <= s.ring.size < UNSIGNED
  }

  // The tail has wrapped to below the head after the consumer found it above.
  predicate Torn(s: System) {
    s.user.Straight? && s.ring.tail < s.ring.head
  }

  predicate Untorn(s: System, steps: seq<Step>)
    decreases |steps|
  {
    !Torn(s) && (steps != [] ==> Untorn(Next(s, steps[0]), steps[1..]))
  }

  predicate Inside(s: System) {
    s.user.Copying? ==> s.ring.head + s.user.k <= s.ring.size
  }

  lemma InsideNext(s: System, step: Step)
    requires Inv(s) && Inside(s) && !Torn(s)
    ensures Inside(Next(s, step))
  {}

  lemma {:induction false} InsideRun(s: System, steps: seq<Step>)
    requires Inv(s) && Inside(s) && Proper(steps) && Untorn(s, steps)
    ensures Inside(Run(s, steps))
    decreases |steps|
  {
    hide Inv, Inside, Torn, KeySize;
    if steps != [] {
      InvNext(s, steps[0]);
      InsideNext(s, steps[0]);
      InsideRun(Next(s, steps[0]), steps[1..]);
    }
  }

  // However the steps interleave, the producer writes inside the buffer, and
  // neither over live octets nor over those being copied; and a key is copied
  // from inside the buffer unless the tail wrapped between two looks at it.
  lemma RunSafe(s: System, steps: seq<Step>, p: nat)
    requires Fresh(s) && Proper(steps)
    ensures var t := Run(s, steps);
      && t.ring.tail <= t.ring.size && (t.ring.head <= t.ring.size || t.user == Bumped)
      && (t.at == Passed && t.ring.tail <= p < t.ring.tail + CHUNK ==>
          p < t.ring.size && !Live(t.ring, p) && !Copied(t, p))
      && (Untorn(s, steps) && Copied(t, p) ==> p < t.ring.size)
  {
    InvRun(s, steps);
    if Untorn(s, steps) {
      InsideRun(s, steps);
    }
    hide Run, Untorn;
    Apart(Run(s, steps));
  }

  // What is copied is live when it is chosen, as far as it is in the buffer;
  // and it is all in the buffer exactly when the tail is still above the head,
  // or the key fits behind the head anyway.
  lemma ChosenLive(s: System, p: nat)
    requires Inv(s) && !s.user.Copying?
    ensures Copied(Consumed(s), p) && p < s.ring.size ==> Live(s.ring, p)
    ensures s.user.Straight? && Consumed(s).user.Copying? ==>
      (Inside(Consumed(s)) <==> !Torn(s) || s.ring.head + s.user.k <= s.ring.size)
  {}

  lemma {:induction false} RunThen(s: System, steps: seq<Step>, step: Step)
    ensures Run(s, steps + [step]) == Next(Run(s, steps), step)
    decreases |steps|
  {
    var all := steps + [step];
    if steps == [] {
      assert all[1..] == [];
    } else {
      assert all[0] == steps[0] && all[1..] == steps[1..] + [step];
      RunThen(Next(s, steps[0]), steps[1..], step);
    }
  }

  lemma Then(s: System, steps: seq<Step>, step: Step) returns (more: seq<Step>)
    requires Proper(steps) && (step.Ask? ==> KeySize(step.k))
    ensures Proper(more) && Run(s, more) == Next(Run(s, steps), step)
  {
    RunThen(s, steps, step);
    more := steps + [step];
  }

  lemma ThenTurn(s: System, steps: seq<Step>, r: Ring, u: User) returns (more: seq<Step>)
    requires Proper(steps) && Run(s, steps) == System(r, Idle, u) && Aligned(r) && CanFill(r) && r.head < r.tail
    ensures Proper(more) && Run(s, more) == System(Filled(r), Idle, u)
  {
    hide Run, Proper, CanFill, Filled, Aligned, Produced;
    WholeTurn(r, u);
    more := Then(s, steps, Produce);
    more := Then(s, more, Produce);
    more := Then(s, more, Produce);
    more := Then(s, more, Produce);
  }

  lemma ThenTake(s: System, steps: seq<Step>, r: Ring, k: nat) returns (more: seq<Step>)
    requires Proper(steps) && Run(s, steps) == System(r, Idle, Rest) && KeySize(k)
    requires r.head + k <= r.tail <= r.size
    ensures Proper(more) && Run(s, more) == System(r.(head := r.head + k), Idle, Rest)
  {
    hide Run, Proper;
    more := Then(s, steps, Ask(k));
    more := Then(s, more, Consume);
    more := Then(s, more, Consume);
    more := Then(s, more, Consume);
    more := Then(s, more, Consume);
    more := Then(s, more, Consume);
  }

  lemma NoSteps(s: System)
    ensures Run(s, []) == s && Proper([])
  {}

  // A run in which it does not: the second key is found to start at 16, the
  // producer fills the buffer and wraps, and 32 octets are copied from there.
  lemma TornRead() returns (s: System, steps: seq<Step>)
    ensures Fresh(s) && Proper(steps) && !Untorn(s, steps)
    ensures Run(s, steps) == System(Ring(16, 0, 32), Idle, Copying(32)) && !Inside(Run(s, steps))
  {
    s, steps := System(Ring(0, CHUNK, 32), Idle, Rest), [];
    hide Run, Proper, Untorn;
    NoSteps(s);
    steps := ThenTurn(s, steps, Ring(0, 8, 32), Rest);
    steps := ThenTurn(s, steps, Ring(0, 16, 32), Rest);
    steps := ThenTake(s, steps, Ring(0, 24, 32), 16);
    steps := Then(s, steps, Ask(32));
    steps := Then(s, steps, Consume);
    steps := ThenTurn(s, steps, Ring(16, 24, 32), Straight(32));
    steps := Then(s, steps, Consume);
    if Untorn(s, steps) {
      InsideRun(s, steps);
    }
  }

  // -----------------------------------------------------------------------
  // The shared object.

  // The buffer with a chunk written at the tail.
  function Stored(r: Ring, buf: seq<byte>, chunk: seq<byte>): (buf': seq<byte>)
    requires r.tail + CHUNK <= r.size == |buf| && |chunk| == CHUNK
    ensures |buf'| == |buf|
  {
    buf[..r.tail] + chunk + buf[r.tail + CHUNK..]
  }

  ghost predicate Chunks(draws: nat -> Option<seq<byte>>) {
    forall i :: draws(i).Some? ==> |draws(i).value| == CHUNK
  }

  // Ring and buffer after the producer's loop, from draw i on.
  ghost function Poured(r: Ring, buf: seq<byte>, draws: nat -> Option<seq<byte>>, i: nat): (p: (Ring, seq<byte>))
    requires Aligned(r) && |buf| == r.size && Chunks(draws)
    decreases if r.head < r.tail then 1 else 0, r.size - r.tail
  {
    if !CanFill(r) || draws(i).None? then (r, buf)
    else
      FillsClear(r);
      FillMeasure(r);
      Poured(Filled(r), Stored(r, buf, draws(i).value), draws, i + 1)
  }

  class KeyServer {
    const cbuf: array<byte>
    var head: nat
    var tail: nat

    function View(): Ring
      reads this
    {
      Ring(head, tail, cbuf.Length)
    }

    // Adds chunks while there is room and while the generator has one; draw i
    // of the generator may fail.
    method BufferHandler(draws: nat -> Option<seq<byte>>) returns (ok: bool)
      requires Aligned(View()) && Chunks(draws)
      modifies this`tail, cbuf
      ensures Aligned(View()) && head == old(head)
      ensures (View(), cbuf[..]) == Poured(old(View()), old(cbuf[..]), draws, 0)
      ensures Grown(old(View()), View())
      ensures if ok then !CanFill(View()) else exists i :: draws(i).None?
      ensures forall p: nat :: p < cbuf.Length && Live(old(View()), p) ==> cbuf[p] == old(cbuf[p])
    {
      hide Live, CanFill, Clear, Poured;
      ghost var start, all := View(), Poured(View(), cbuf[..], draws, 0);
      var i := 0;
      while CanFill(View())
        invariant Aligned(View()) && head == old(head) && i >= 0 && Grown(start, View())
        invariant Poured(View(), cbuf[..], draws, i) == all
        invariant forall p: nat :: p < cbuf.Length && Live(start, p) ==> cbuf[p] == old(cbuf[p])
        decreases if head < tail then 1 else 0, cbuf.Length - tail
      {
        ghost var r, buf := View(), cbuf[..];
        PouredStep(r, buf, draws, i);
        FillsClear(r);
        FillsApart(r);
        GrownClear(start, r);
        FillMeasure(r);
        GrownMore(start, r);
        var key := draws(i);
        if key.None? {
          return false;
        }
        forall k | 0 <= k < CHUNK {
          cbuf[tail + k] := key.value[k];
        }
        assert cbuf[..] == Stored(r, buf, key.value);
        tail := tail + CHUNK;
        if tail > Minus(cbuf.Length, CHUNK) {
          tail := 0;
        }
        i := i + 1;
      }
      PouredStep(View(), cbuf[..], draws, i);
      ok := true;
    }

    method GetKey(k: nat) returns (key: Option<seq<byte>>)
      requires Aligned(View()) && KeySize(k)
      modifies this`head
      ensures Aligned(View()) && View() == Take(old(View()), k).1
      ensures key.Some? <==> Take(old(View()), k).0.Some?
      ensures key.Some? ==> |key.value| == k
      ensures key.Some? ==>
        var from := Take(old(View()), k).0.value;
        from + k <= cbuf.Length && key.value == cbuf[from..from + k]
    {
      if head == tail || head == tail - 1 {
        return None;
      }
      if tail < head {
        if head + k <= cbuf.Length {
          key := Some(cbuf[head..head + k]);
        } else {
          head := 0;
          key := if tail - head < k then None else Some(cbuf[head..head + k]);
        }
        Advance(k);
      } else if tail - head < k {
        key := None;
      } else {
        key := Some(cbuf[head..head + k]);
        Advance(k);
      }
    }

    method Advance(k: nat)
      modifies this`head
      ensures View() == Advanced(old(View()), old(head), k)
    {
      head := head + k;
      if head > cbuf.Length {
        head := 0;
      }
    }
  }

  lemma PouredStep(r: Ring, buf: seq<byte>, draws: nat -> Option<seq<byte>>, i: nat)
    requires Aligned(r) && |buf| == r.size && Chunks(draws)
    ensures !CanFill(r) || draws(i).None? ==> Poured(r, buf, draws, i) == (r, buf)
    ensures CanFill(r) && draws(i).Some? ==>
      && Aligned(Filled(r)) && r.tail + CHUNK <= r.size
      && Poured(r, buf, draws, i) == Poured(Filled(r), Stored(r, buf, draws(i).value), draws, i + 1)
  {
    if CanFill(r) {
      FillsClear(r);
    }
  }

  // The producer alone has taken the ring from r to s: either the tail has
  // gone up, or it has wrapped and is below the head.
  predicate Grown(r: Ring, s: Ring) {
    && s.head == r.head && s.size == r.size
    && ((r.tail <= s.tail && (r.tail < r.head ==> s.tail < r.head)) || (r.head <= r.tail && s.tail <= r.head))
  }

  lemma GrownClear(r: Ring, s: Ring)
    requires Aligned(s) && Grown(r, s) && CanFill(s)
    ensures forall p :: s.tail <= p < s.tail + CHUNK ==> !Live(r, p)
  {
    FillsApart(s);
    hide Aligned, CanFill;
  }

  lemma GrownMore(r: Ring, s: Ring)
    requires Aligned(s) && Grown(r, s) && CanFill(s)
    ensures Grown(r, Filled(s))
  {
    FillsApart(s);
    hide Aligned, CanFill, Minus;
  }

  // Each chunk brings the tail nearer the end of the buffer, or wraps it to
  // below the head, where it stays.
  lemma FillMeasure(r: Ring)
    requires Aligned(r) && CanFill(r)
    ensures var s := Filled(r);
      || (r.head < r.tail && s.tail <= s.head)
      || ((r.head < r.tail <==> s.head < s.tail) && s.tail > r.tail)
  {
    FillsApart(r);
    hide Aligned, CanFill, Minus;
  }
}
