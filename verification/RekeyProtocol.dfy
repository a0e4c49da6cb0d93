// A primary and a secondary session joined by two first-in first-out
// channels: the steps they take and their runs.

module RekeyProtocol {
  import opened Bytes
  import opened SequenceIds
  import opened SessionSpec

  datatype KeyPair = KeyPair(dat: Key, ctl: Key)

  // A packet on its way. Fields gen and n are history: the number of rekeys
  // its sender had completed, and the number of ids it had taken before.
  datatype Packet = Packet(w: Wire, gen: int, n: nat)

  // A session with its history: the key pairs it has used, the number of ids
  // it has taken, and how many ids its peer had taken at rID0 and rID1.
  datatype Side = Side(st: State, past: seq<KeyPair>, sent: nat, lo: nat, hi: nat)

  // `garbled` records that some packet was decrypted with the wrong key.
  datatype Net = Net(pri: Side, sec: Side, toSec: seq<Packet>, toPri: seq<Packet>, garbled: bool)

  datatype Step =
    | PriData(ok: bool)
    | SecData(ok: bool)
    | Start(d: Draw, c: Draw, o: Outcome)
    | PriReceive(o: Outcome)
    | SecReceive(o: Outcome)

  // -----------------------------------------------------------------------
  // Steps.

  function Generation(s: Side): int {
    |s.past| - 1
  }

  // The history after a handler left state st; taken says it used an id.
  function After(s: Side, st: State): Side {
    s.(st := st, sent := if st.sseq != s.st.sseq then s.sent + 1 else s.sent)
  }

  function Post(q: seq<Packet>, s: Side, w: Option<Wire>): seq<Packet> {
    if w.None? then q else q + [Packet(w.value, Generation(s), s.sent)]
  }

  // The history of a session that has begun to use its new keys; n is the
  // number of ids the peer had taken before its first packet under them.
  function Renewed(s: Side, n: nat): Side {
    s.(past := s.past + [KeyPair(s.st.keys.dnewkey, s.st.keys.cnewkey)], lo := s.hi, hi := n)
  }

  // Decryption succeeds: the contexts chosen are those used, and belong to
  // the generation the packet was sent in.
  predicate Readable(s: Side, p: Packet) {
    && p.w.dat.Some? && DataContext(s.st, p.w.id) == p.w.dat
    && (p.w.body.Data? || (p.w.ctl.Some? && ControlContext(s.st, p.w.id) == p.w.ctl))
    && p.gen == (if SelectsKey1(s.st.rID0, s.st.rID1, p.w.id) then Generation(s) else Generation(s) - 1)
  }

  function PriHandle(net: Net, p: Packet, o: Outcome): Net {
    match p.w.body
    case Data => net
    case ReplaceKey(_, _) => net.(pri := net.pri.(st := net.pri.st.(rekey := false)))
    case Rekey(err, num) =>
      var e := ConfirmRekey(net.pri.st, err, num, o);
      var s := After(net.pri, e.st);
      net.(pri := if e.sent.None? then s else Renewed(s, p.n + 1),
           toSec := Post(net.toSec, net.pri, e.sent))
  }

  function SecHandle(net: Net, p: Packet, o: Outcome): Net {
    match p.w.body
    case Data => net
    case ReplaceKey(dat, ctl) =>
      var e := AnswerReplaceKey(net.sec.st, dat, ctl, o);
      net.(sec := After(net.sec, e.st), toPri := Post(net.toPri, net.sec, e.sent))
    case Rekey(err, num) =>
      var s := net.sec.(st := FinishRekey(net.sec.st, err, num));
      net.(sec := if err then s else Renewed(s, p.n + 1))
  }

  function PriSend(net: Net, e: Effect): Net {
    net.(pri := After(net.pri, e.st), toSec := Post(net.toSec, net.pri, e.sent))
  }

  // Rekeying is started only while the flag is clear: the test in the lookup
  // of a destination, in front of the call.
  function Next(net: Net, step: Step): Net {
    match step
    case PriData(ok) => PriSend(net, SendData(net.pri.st, ok))
    case SecData(ok) =>
      var e := SendData(net.sec.st, ok);
      net.(sec := After(net.sec, e.st), toPri := Post(net.toPri, net.sec, e.sent))
    case Start(d, c, o) => if net.pri.st.rekey then net else PriSend(net, StartRekeying(net.pri.st, d, c, o))
    case PriReceive(o) =>
      if net.toPri == [] then net
      else
        var p, rest := net.toPri[0], net.(toPri := net.toPri[1..]);
        if Readable(net.pri, p) then PriHandle(rest, p, o) else rest.(garbled := true)
    case SecReceive(o) =>
      if net.toSec == [] then net
      else
        var p, rest := net.toSec[0], net.(toSec := net.toSec[1..]);
        if Readable(net.sec, p) then SecHandle(rest, p, o) else rest.(garbled := true)
  }

  // The keys both sides begin with, and whether the command has come that
  // sets the primary's boundaries to 1; they are 0 before, and at the secondary.
  datatype Setup = Setup(keys: KeyPair, told: bool)

  function Initial(u: Setup): Net {
    var keys := InitCrypto(Keys(None, None, None, None, None, None, None, None, u.keys.dat, u.keys.ctl));
    var first := if u.told then 1 else 0;
    var pri, sec := State(1, first, first, false, keys), State(1, 0, 0, false, keys);
    Net(Side(pri, [u.keys], 0, 0, 0), Side(sec, [u.keys], 0, 0, 0), [], [], false)
  }

  function Run(net: Net, steps: seq<Step>): Net {
    if steps == [] then net else Next(Run(net, steps[..|steps| - 1]), steps[|steps| - 1])
  }
}
