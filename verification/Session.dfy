// The session object and its handlers, which change it in place. Each handler
// is tied to a function of module SessionSpec.

module Session {
  import opened Bytes
  import opened SequenceIds
  import opened SessionSpec

  class KeyMgmt {
    var datenc0: Context
    var datdec0: Context
    var datenc1: Context
    var datdec1: Context
    var ctlenc0: Context
    var ctldec0: Context
    var ctlenc1: Context
    var ctldec1: Context
    var dnewkey: Key
    var cnewkey: Key

    function View(): Keys
      reads this
    {
      Keys(datenc0, datdec0, datenc1, datdec1, ctlenc0, ctldec0, ctlenc1, ctldec1, dnewkey, cnewkey)
    }

    constructor (dkey: Key, ckey: Key)
      ensures View() == InitCrypto(Keys(None, None, None, None, None, None, None, None, dkey, ckey))
    {
      dnewkey, cnewkey := dkey, ckey;
      datenc0, datdec0, ctlenc0, ctldec0 := None, None, None, None;
      datenc1, datdec1, ctlenc1, ctldec1 := Some(dkey), Some(dkey), Some(ckey), Some(ckey);
    }

    method InitCryptoContexts()
      modifies this
      ensures View() == InitCrypto(old(View()))
    {
      datenc1 := Some(dnewkey);
      datdec1 := Some(dnewkey);
      ctlenc1 := Some(cnewkey);
      ctldec1 := Some(cnewkey);
    }

    method Rekey()
      modifies this
      ensures View() == ShiftKeys(old(View()))
    {
      datenc0 := datenc1;
      datdec0 := datdec1;
      ctlenc0 := ctlenc1;
      ctldec0 := ctldec1;
      InitCryptoContexts();
    }
  }

  class Session {
    var sseq: nat
    var rID0: nat
    var rID1: nat
    var rekey: bool
    const keymgmt: KeyMgmt

    function View(): State
      reads this, keymgmt
    {
      State(sseq, rID0, rID1, rekey, keymgmt.View())
    }

    constructor (dkey: Key, ckey: Key)
      ensures fresh(keymgmt)
      ensures View() == State(1, 0, 0, false,
        InitCrypto(Keys(None, None, None, None, None, None, None, None, dkey, ckey)))
    {
      sseq, rID0, rID1, rekey := 1, 0, 0, false;
      keymgmt := new KeyMgmt(dkey, ckey);
    }

    method Advance()
      modifies this`sseq
      ensures View() == TakeId(old(View()))
    {
      sseq := (sseq + 1) % WORD;
      if sseq == 0 {
        sseq := (sseq + 1) % WORD;
      }
    }

    method SendDataPacket(ok: bool) returns (sent: Option<Wire>)
      modifies this`sseq
      ensures Effect(View(), sent) == SendData(old(View()), ok)
    {
      if rekey {
        return None;
      }
      var id := sseq;
      Advance();
      return if ok then Some(Wire(id, Data, keymgmt.datenc1, keymgmt.ctlenc1)) else None;
    }

    method SendControlMessage(body: Body, o: Outcome) returns (sent: Option<Wire>)
      modifies this`sseq
      ensures Effect(View(), sent) == SendControl(old(View()), body, o)
    {
      if o == LostBefore {
        return None;
      }
      var w := Wire(sseq, body, keymgmt.datenc1, keymgmt.ctlenc1);
      Advance();
      return if o == Delivered then Some(w) else None;
    }

    // Building the message stores the drawn keys; None is a failed draw.
    method BuildNewKeyMessage(d: Draw, c: Draw) returns (msg: Option<Body>)
      modifies keymgmt`dnewkey, keymgmt`cnewkey
      ensures msg.None? <==> d.Failed? || c.Failed?
      ensures keymgmt.View() == old(keymgmt.View()).(
        dnewkey := Drawn(old(keymgmt.dnewkey), d),
        cnewkey := if d.Failed? then old(keymgmt.cnewkey) else Drawn(old(keymgmt.cnewkey), c))
      ensures msg.Some? ==>
        msg.value == ReplaceKey(Announced(keymgmt.dnewkey, d), Announced(keymgmt.cnewkey, c))
    {
      if d.Failed? {
        return None;
      }
      if d.Fresh? {
        keymgmt.dnewkey := d.key;
      }
      var dat := if d.Index? then ByIndex(d.index) else Explicit(keymgmt.dnewkey);
      if c.Failed? {
        return None;
      }
      if c.Fresh? {
        keymgmt.cnewkey := c.key;
      }
      var ctl := if c.Index? then ByIndex(c.index) else Explicit(keymgmt.cnewkey);
      return Some(ReplaceKey(dat, ctl));
    }

    method Start(d: Draw, c: Draw, o: Outcome) returns (sent: Option<Wire>)
      modifies this`sseq, this`rekey, keymgmt`dnewkey, keymgmt`cnewkey
      ensures Effect(View(), sent) == StartRekeying(old(View()), d, c, o)
    {
      var msg := BuildNewKeyMessage(d, c);
      if msg.None? || rekey {
        return None;
      }
      rekey := true;
      sent := SendControlMessage(msg.value, o);
      if sent.None? {
        rekey := false;
      }
    }

    // REPLACE_KEY at the secondary, with the clearing of the flag that the
    // packet handler adds when the message handler reports an error.
    method ReplaceKeys(dat: KeyField, ctl: KeyField, o: Outcome) returns (sent: Option<Wire>)
      modifies this`sseq, this`rekey, keymgmt`dnewkey, keymgmt`cnewkey
      ensures Effect(View(), sent) == AnswerReplaceKey(old(View()), dat, ctl, o)
    {
      var stat, err := 0, false;
      if dat.Explicit? {
        keymgmt.dnewkey := dat.key;
      } else {
        stat, err := -1, true;
      }
      if ctl.Explicit? {
        keymgmt.cnewkey := ctl.key;
      } else {
        stat, err := -1, true;
      }
      sent := SendControlMessage(Rekey(err, NextId(sseq)), o);
      if sent.None? {
        stat := -1;
      } else {
        rekey := true;
      }
      if stat < 0 {
        rekey := false;
      }
    }

    method RekeyPrimary(err: bool, num: nat, o: Outcome) returns (sent: Option<Wire>)
      modifies this, keymgmt
      ensures Effect(View(), sent) == ConfirmRekey(old(View()), err, num, o)
    {
      sent := None;
      if !err {
        sent := SendControlMessage(Rekey(false, NextId(sseq)), o);
        if sent.Some? {
          keymgmt.Rekey();
          rID0 := rID1;
          rID1 := num;
        }
      }
      rekey := false;
    }

    method RekeySecondary(err: bool, num: nat)
      modifies this, keymgmt
      ensures View() == FinishRekey(old(View()), err, num)
    {
      if !err {
        keymgmt.Rekey();
        rID0 := rID1;
        rID1 := num;
      }
      rekey := false;
    }

    method ChooseContexts(id: nat) returns (dat: Context, ctl: Context)
      ensures dat == DataContext(View(), id) && ctl == ControlContext(View(), id)
    {
      if rID1 <= id || id < rID0 {
        dat, ctl := keymgmt.datdec1, keymgmt.ctldec1;
      } else {
        dat, ctl := keymgmt.datdec0, keymgmt.ctldec0;
      }
    }
  }
}
