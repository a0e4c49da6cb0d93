// What the session handlers do, as functions on the values of the session
// fields: keys, ids, the rekey flag, and the packet each handler sends.

module SessionSpec {
  import opened Bytes
  import opened SequenceIds

  type Key = seq<byte>

  // A crypto context stands for the key it was created from; None is NULL.
  type Context = Option<Key>

  datatype Keys = Keys(
    datenc0: Context, datdec0: Context, datenc1: Context, datdec1: Context,
    ctlenc0: Context, ctldec0: Context, ctlenc1: Context, ctldec1: Context,
    dnewkey: Key, cnewkey: Key)

  datatype State = State(sseq: nat, rID0: nat, rID1: nat, rekey: bool, keys: Keys)

  // A replacement key is sent in full or as an index into the key array.
  datatype KeyField = Explicit(key: Key) | ByIndex(index: nat)

  datatype Body =
    | Data
    | ReplaceKey(dat: KeyField, ctl: KeyField)
    | Rekey(err: bool, num: nat)

  // A packet as it leaves: its id and the contexts it was encrypted with.
  datatype Wire = Wire(id: nat, body: Body, dat: Context, ctl: Context)

  // How a control message fares: on its way, failed before it took an id
  // (no memory, bad length), or failed in the network after it took one.
  datatype Outcome = Delivered | LostBefore | LostAfter

  // What the primary gets for a new key: one from the key server, none yet
  // (the old value is sent again), an index, or an error.
  datatype Draw = Fresh(key: Key) | Stale | Index(index: nat) | Failed

  datatype Effect = Effect(st: State, sent: Option<Wire>)

  // -----------------------------------------------------------------------

  function InitCrypto(k: Keys): Keys {
    k.(datenc1 := Some(k.dnewkey), datdec1 := Some(k.dnewkey),
       ctlenc1 := Some(k.cnewkey), ctldec1 := Some(k.cnewkey))
  }

  // The current contexts become key 0; new ones are made from the new keys.
  function ShiftKeys(k: Keys): Keys {
    InitCrypto(k.(datenc0 := k.datenc1, datdec0 := k.datdec1, ctlenc0 := k.ctlenc1, ctldec0 := k.ctldec1))
  }

  function TakeId(s: State): State {
    s.(sseq := NextId(s.sseq))
  }

  // `ok` is whether obfuscation and encryption succeed; the id is spent first.
  function SendData(s: State, ok: bool): Effect {
    if s.rekey then Effect(s, None)
    else Effect(TakeId(s), if ok then Some(Wire(s.sseq, Data, s.keys.datenc1, s.keys.ctlenc1)) else None)
  }

  function SendControl(s: State, body: Body, o: Outcome): Effect {
    match o
    case LostBefore => Effect(s, None)
    case LostAfter => Effect(TakeId(s), None)
    case Delivered => Effect(TakeId(s), Some(Wire(s.sseq, body, s.keys.datenc1, s.keys.ctlenc1)))
  }

  function Drawn(k: Key, d: Draw): Key {
    if d.Fresh? then d.key else k
  }

  function Announced(k: Key, d: Draw): KeyField {
    if d.Index? then ByIndex(d.index) else Explicit(k)
  }

  // The keys are drawn before the flag is looked at.
  function StartRekeying(s: State, d: Draw, c: Draw, o: Outcome): Effect {
    if d.Failed? then Effect(s, None)
    else
      var s1 := s.(keys := s.keys.(dnewkey := Drawn(s.keys.dnewkey, d)));
      if c.Failed? then Effect(s1, None)
      else
        var s2 := s1.(keys := s1.keys.(cnewkey := Drawn(s1.keys.cnewkey, c)));
        if s2.rekey then Effect(s2, None)
        else
          var body := ReplaceKey(Announced(s2.keys.dnewkey, d), Announced(s2.keys.cnewkey, c));
          var e := SendControl(s2.(rekey := true), body, o);
          if e.sent.None? then e.(st := e.st.(rekey := false)) else e
  }

  // The secondary's answer to REPLACE_KEY. There is no key array, so an
  // index is an error; the flag is cleared again on any error.
  function AnswerReplaceKey(s: State, dat: KeyField, ctl: KeyField, o: Outcome): Effect {
    var k1 := if dat.Explicit? then s.keys.(dnewkey := dat.key) else s.keys;
    var k2 := if ctl.Explicit? then k1.(cnewkey := ctl.key) else k1;
    var err := dat.ByIndex? || ctl.ByIndex?;
    var e := SendControl(s.(keys := k2), Rekey(err, NextId(s.sseq)), o);
    e.(st := e.st.(rekey := e.sent.Some? && !err))
  }

  function UseNewKeys(s: State, num: nat): State {
    s.(keys := ShiftKeys(s.keys), rID0 := s.rID1, rID1 := num)
  }

  // The primary on REKEY: confirm under the old key, then use the new one.
  function ConfirmRekey(s: State, err: bool, num: nat, o: Outcome): Effect {
    if err then Effect(s.(rekey := false), None)
    else
      var e := SendControl(s, Rekey(false, NextId(s.sseq)), o);
      var t := if e.sent.None? then e.st else UseNewKeys(e.st, num);
      e.(st := t.(rekey := false))
  }

  // The secondary on REKEY.
  function FinishRekey(s: State, err: bool, num: nat): State {
    (if err then s else UseNewKeys(s, num)).(rekey := false)
  }

  // The contexts with which a packet of the given id is decrypted.
  function DataContext(s: State, id: nat): Context {
    if SelectsKey1(s.rID0, s.rID1, id) then s.keys.datdec1 else s.keys.datdec0
  }

  function ControlContext(s: State, id: nat): Context {
    if SelectsKey1(s.rID0, s.rID1, id) then s.keys.ctldec1 else s.keys.ctldec0
  }
}
