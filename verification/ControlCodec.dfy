// Control messages: a four-octet size, a command, and the command's data. The
// builders fill byte arrays; the parser walks them and picks a handler.

module ControlCodec {
  import opened Bytes
  import opened Cuts
  import opened SessionSpec

  const CTL_HDR := 5     // size and command
  const MAX_MSG := 1348  // largest message data
  const LOCAL := 256     // the builder's own buffer

  // Commands.
  const SET_KEY_ARRAY: byte := 1
  const ACK_KEY_ARRAY: byte := 2
  const REPLACE_KEY: byte := 3
  const REKEY: byte := 4
  const REKEY_TEST: byte := 5

  // Flag bits of REPLACE_KEY; the low four bits hold the key type.
  const BY_CTL_INDEX := 0x10
  const BY_DAT_INDEX := 0x20

  // Which commands a build of the program listens to.
  datatype Role = PrimaryOnly | SecondaryOnly | Both

  // The handler a message reaches, with its arguments. An address inside the
  // message is given as the octets from there on.
  datatype Call =
    | SetKeyArray(keySize: nat, size: nat, keys: seq<byte>)
    | ReplaceKeys(dat: KeyField, ctl: KeyField)
    | RekeySession(flag: byte, num: nat)
    | RekeyTest(size: nat, text: seq<byte>)
    | NoCall    // accepted, nothing to do
    | Refused   // status -1

  // -----------------------------------------------------------------------
  // The layout of messages.

  function CtlMessage(command: byte, data: seq<byte>): (m: seq<byte>)
    ensures |m| == CTL_HDR + |data|
  {
    ToBigEndian(|data| + CTL_HDR, 4) + [command] + data
  }

  function KeySize(ktype: nat): Option<nat> {
    if ktype == 1 then Some(16) else if ktype == 2 then Some(32) else None
  }

  function KeyFlag(ktype: nat, dat: KeyField, ctl: KeyField): (f: byte)
    requires ktype < 16
  {
    ktype + (if dat.ByIndex? then BY_DAT_INDEX else 0) + (if ctl.ByIndex? then BY_CTL_INDEX else 0)
  }

  function FieldBytes(f: KeyField): seq<byte> {
    match f
    case Explicit(k) => k
    case ByIndex(n) => ToBigEndian(n, 2)
  }

  function NewKeyData(ktype: nat, dat: KeyField, ctl: KeyField): seq<byte>
    requires ktype < 16
  {
    [KeyFlag(ktype, dat, ctl)] + (FieldBytes(dat) + FieldBytes(ctl))
  }

  function RekeyData(flag: byte, num: nat): seq<byte> {
    [flag] + ToBigEndian(num, 4)
  }

  function RekeyTestData(text: seq<byte>): seq<byte> {
    [|text| % 256] + text
  }

  function KeyArrayData(flag: byte, keys: seq<byte>): seq<byte> {
    [flag] + ToBigEndian(|keys|, 3) + keys
  }

  // -----------------------------------------------------------------------
  // What the parser does.

  // One key of REPLACE_KEY at octet i: what it is, and where it ends.
  function KeyAt(m: seq<byte>, i: nat, byIndex: bool, ktype: nat): (r: Option<(KeyField, nat)>)
    requires i <= |m|
    ensures r.Some? ==> i < r.value.1 <= |m|
  {
    if byIndex then
      if i + 2 <= |m| then Some((ByIndex(U16(m[i], m[i + 1])), i + 2)) else None
    else
      match KeySize(ktype)
      case None => None
      case Some(n) => if i + n <= |m| then Some((Explicit(m[i..i + n]), i + n)) else None
  }

  // The octets the parser and the handler read are there. The message's own
  // size field is not looked at.
  predicate Complete(m: seq<byte>) {
    && |m| > CTL_HDR
    && (m[4] == SET_KEY_ARRAY ==> |m| >= 9)
    && (m[4] == REKEY ==> |m| >= 10)
    && (m[4] == REPLACE_KEY ==> KeysComplete(m))
  }

  predicate KeysComplete(m: seq<byte>)
    requires |m| > CTL_HDR
  {
    var size := KeySize(m[5] % 16);
    var dn := if BitSet(m[5], BY_DAT_INDEX) then Some(2) else size;
    var cn := if BitSet(m[5], BY_CTL_INDEX) then Some(2) else size;
    dn.None? || (6 + dn.value <= |m| && (cn.None? || 6 + dn.value + cn.value <= |m|))
  }

  function ParsedKeys(m: seq<byte>): Call
    requires |m| > CTL_HDR
  {
    match KeyAt(m, 6, BitSet(m[5], BY_DAT_INDEX), m[5] % 16)
    case None => Refused
    case Some((dat, i)) =>
      match KeyAt(m, i, BitSet(m[5], BY_CTL_INDEX), m[5] % 16)
      case None => Refused
      case Some((ctl, _)) => ReplaceKeys(dat, ctl)
  }

  function Parsed(role: Role, m: seq<byte>): Call
    requires Complete(m)
  {
    var command, flag := m[4], m[5];
    if command == SET_KEY_ARRAY && !role.PrimaryOnly? then
      match KeySize(flag % 16)
      case None => NoCall
      case Some(n) => SetKeyArray(n, BigEndian(m[6..9]), m[9..])
    else if command == ACK_KEY_ARRAY && !role.SecondaryOnly? then
      if flag % 4 != 0 then Refused else NoCall
    else if command == REPLACE_KEY && !role.PrimaryOnly? then ParsedKeys(m)
    else if command == REKEY then RekeySession(flag, BigEndian(m[6..10]))
    else if command == REKEY_TEST then RekeyTest(flag, m[6..])
    else if command in {6, 8, 10, 12} && !role.PrimaryOnly? then NoCall
    else if command in {7, 9, 11, 13} && !role.SecondaryOnly? then NoCall
    else Refused
  }

  // -----------------------------------------------------------------------
  // Round trips; `rest` is whatever follows the message in its buffer.

  // The size field holds the length of the whole message.
  lemma EmbeddedSize(command: byte, data: seq<byte>)
    requires |data| + CTL_HDR < Pow256(4)
    ensures BigEndian(CtlMessage(command, data)[..4]) == |CtlMessage(command, data)|
  {
    BigEndianRoundTrip(|data| + CTL_HDR, 4);
    assert CtlMessage(command, data)[..4] == ToBigEndian(|data| + CTL_HDR, 4);
  }

  lemma DataFollows(command: byte, data: seq<byte>, rest: seq<byte>)
    ensures var m := CtlMessage(command, data) + rest;
      |m| >= 5 && m[4] == command && m[5..] == data + rest
  {}

  lemma FlagBits(ktype: nat, dat: KeyField, ctl: KeyField)
    requires ktype < 16
    ensures var f := KeyFlag(ktype, dat, ctl);
      f % 16 == ktype && (BitSet(f, BY_DAT_INDEX) <==> dat.ByIndex?) && (BitSet(f, BY_CTL_INDEX) <==> ctl.ByIndex?)
  {}

  lemma IndexBytes(n: nat)
    requires n < 0x1_0000
    ensures ToBigEndian(n, 2) == [n / 256, n % 256]
  {
    assert ToBigEndian(n / 256, 1) == ToBigEndian(n / 256 / 256, 0) + [n / 256 % 256];
  }

  // A field that can be sent as it stands: a key of the size its type has, or
  // an index of two octets.
  predicate Sendable(f: KeyField, ktype: nat) {
    match f
    case Explicit(k) => KeySize(ktype) == Some(|k|)
    case ByIndex(n) => n < 0x1_0000
  }

  lemma KeyReadBack(m: seq<byte>, i: nat, f: KeyField, ktype: nat, rest: seq<byte>)
    requires i <= |m| && m[i..] == FieldBytes(f) + rest && Sendable(f, ktype)
    ensures KeyAt(m, i, f.ByIndex?, ktype) == Some((f, i + |FieldBytes(f)|))
    ensures i + |FieldBytes(f)| <= |m| && m[i + |FieldBytes(f)|..] == rest
  {
    var b := FieldBytes(f);
    assert |m| == i + |b| + |rest|;
    assert m[i..i + |b|] == m[i..][..|b|] == b;
    assert m[i + |b|..] == m[i..][|b|..] == rest;
    if f.ByIndex? {
      IndexBytes(f.index);
      assert m[i] == m[i..][0] && m[i + 1] == m[i..][1];
    }
  }

  lemma KeyMessageLayout(ktype: nat, dat: KeyField, ctl: KeyField, rest: seq<byte>)
    requires ktype < 16
    ensures var m := CtlMessage(REPLACE_KEY, NewKeyData(ktype, dat, ctl)) + rest;
      && |m| > CTL_HDR && m[4] == REPLACE_KEY
      && m[5] % 16 == ktype
      && (BitSet(m[5], BY_DAT_INDEX) <==> dat.ByIndex?) && (BitSet(m[5], BY_CTL_INDEX) <==> ctl.ByIndex?)
      && m[6..] == FieldBytes(dat) + (FieldBytes(ctl) + rest)
  {
    var data := NewKeyData(ktype, dat, ctl);
    var m := CtlMessage(REPLACE_KEY, data) + rest;
    DataFollows(REPLACE_KEY, data, rest);
    FlagBits(ktype, dat, ctl);
    hide CtlMessage, FieldBytes, BitSet;
    assert m[5] == m[5..][0];
    assert m[6..] == m[5..][1..];
    assert (data + rest)[1..] == FieldBytes(dat) + (FieldBytes(ctl) + rest);
  }

  lemma KeysThere(m: seq<byte>)
    requires |m| > CTL_HDR && m[4] == REPLACE_KEY && ParsedKeys(m).ReplaceKeys?
    ensures Complete(m)
  {
    hide BitSet;
  }

  // REPLACE_KEY, in all four mixtures of keys and indices.
  lemma ReplaceKeyRoundTrip(role: Role, ktype: nat, dat: KeyField, ctl: KeyField, rest: seq<byte>)
    requires ktype < 16 && Sendable(dat, ktype) && Sendable(ctl, ktype) && !role.PrimaryOnly?
    ensures var m := CtlMessage(REPLACE_KEY, NewKeyData(ktype, dat, ctl)) + rest;
      Complete(m) && Parsed(role, m) == ReplaceKeys(dat, ctl)
  {
    hide CtlMessage, NewKeyData, BitSet, FieldBytes, Sendable, KeyAt, Complete;
    var m := CtlMessage(REPLACE_KEY, NewKeyData(ktype, dat, ctl)) + rest;
    KeyMessageLayout(ktype, dat, ctl, rest);
    KeyReadBack(m, 6, dat, ktype, FieldBytes(ctl) + rest);
    KeyReadBack(m, 6 + |FieldBytes(dat)|, ctl, ktype, rest);
    KeysThere(m);
  }

  // A key type other than the two known ones is refused unless both keys are
  // given by index, whatever octets were sent for the keys.
  lemma UnknownKeyType(role: Role, ktype: nat, dat: KeyField, ctl: KeyField, rest: seq<byte>)
    requires ktype < 16 && KeySize(ktype) == None && !role.PrimaryOnly?
    requires (dat.ByIndex? ==> Sendable(dat, ktype)) && (ctl.ByIndex? ==> Sendable(ctl, ktype))
    ensures var m := CtlMessage(REPLACE_KEY, NewKeyData(ktype, dat, ctl)) + rest;
      Complete(m) && (Parsed(role, m) == Refused <==> dat.Explicit? || ctl.Explicit?)
  {
    hide CtlMessage, NewKeyData, BitSet, FieldBytes;
    var m := CtlMessage(REPLACE_KEY, NewKeyData(ktype, dat, ctl)) + rest;
    KeyMessageLayout(ktype, dat, ctl, rest);
    if dat.ByIndex? {
      KeyReadBack(m, 6, dat, ktype, FieldBytes(ctl) + rest);
      IndexSize(dat);
      if ctl.ByIndex? {
        KeyReadBack(m, 8, ctl, ktype, rest);
      }
    }
  }

  lemma IndexSize(f: KeyField)
    requires f.ByIndex?
    ensures |FieldBytes(f)| == 2
  {}

  lemma RekeyRoundTrip(role: Role, flag: byte, num: nat, rest: seq<byte>)
    requires num < Pow256(4)
    ensures var m := CtlMessage(REKEY, RekeyData(flag, num)) + rest;
      Complete(m) && Parsed(role, m) == RekeySession(flag, num)
  {
    var m := CtlMessage(REKEY, RekeyData(flag, num)) + rest;
    DataFollows(REKEY, RekeyData(flag, num), rest);
    assert m[5] == m[5..][0];
    assert m[6..10] == m[5..][1..5] == ToBigEndian(num, 4);
    BigEndianRoundTrip(num, 4);
  }

  // REKEY_TEST has one octet for its size.
  lemma RekeyTestRoundTrip(role: Role, text: seq<byte>, rest: seq<byte>)
    ensures var m := CtlMessage(REKEY_TEST, RekeyTestData(text)) + rest;
      && Complete(m) && Parsed(role, m).RekeyTest? && text <= Parsed(role, m).text
      && (Parsed(role, m).size == |text| <==> |text| < 256)
  {
    var m := CtlMessage(REKEY_TEST, RekeyTestData(text)) + rest;
    DataFollows(REKEY_TEST, RekeyTestData(text), rest);
    assert m[5] == m[5..][0];
    assert m[6..] == m[5..][1..] == text + rest;
  }

  lemma KeyArrayRoundTrip(role: Role, flag: byte, keys: seq<byte>, rest: seq<byte>)
    requires !role.PrimaryOnly? && KeySize(flag % 16).Some? && |keys| < Pow256(3)
    ensures var m := CtlMessage(SET_KEY_ARRAY, KeyArrayData(flag, keys)) + rest;
      && Complete(m) && Parsed(role, m) == SetKeyArray(KeySize(flag % 16).value, |keys|, keys + rest)
  {
    var m := CtlMessage(SET_KEY_ARRAY, KeyArrayData(flag, keys)) + rest;
    DataFollows(SET_KEY_ARRAY, KeyArrayData(flag, keys), rest);
    assert m[5] == m[5..][0];
    assert m[6..9] == m[5..][1..4] == ToBigEndian(|keys|, 3);
    assert m[9..] == m[5..][4..] == keys + rest;
    BigEndianRoundTrip(|keys|, 3);
  }

  // -----------------------------------------------------------------------
  // Builders.

  method PutBigEndian(a: array<byte>, at: nat, n: nat, k: nat)
    requires at + k <= a.Length
    modifies a
    ensures a[..at + k] == old(a[..at]) + ToBigEndian(n, k) && a[at + k..] == old(a[at + k..])
  {
    var i, v := k, n;
    ghost var done: seq<byte> := [];
    while i > 0
      invariant 0 <= i <= k && v >= 0
      invariant a[..at + i] == old(a[..at + i]) && a[at + k..] == old(a[at + k..])
      invariant a[at + i..at + k] == done && ToBigEndian(n, k) == ToBigEndian(v, i) + done
    {
      i := i - 1;
      a[at + i] := v % 256;
      done := [v % 256] + done;
      v := v / 256;
    }
    assert a[..at + k] == a[..at] + a[at..at + k];
    assert ToBigEndian(n, k) == done;
  }

  method BuildCtlMessage(command: byte, data: array<byte>, len: nat) returns (msg: array<byte>)
    requires len <= data.Length
    ensures fresh(msg) && msg[..] == CtlMessage(command, data[..len])
  {
    var msize := len + CTL_HDR;
    msg := new byte[msize](_ => 0);
    PutBigEndian(msg, 0, msize, 4);
    msg[4] := command;
    assert msg[..5] == ToBigEndian(msize, 4) + [command];
    MemCpy(msg, 5, data, 0, len);
    assert msg[..] == msg[..5 + len];
  }

  method PutField(a: array<byte>, at: nat, f: KeyField) returns (end: nat)
    requires at + |FieldBytes(f)| <= a.Length
    modifies a
    ensures end == at + |FieldBytes(f)| && a[..end] == old(a[..at]) + FieldBytes(f)
  {
    match f
    case Explicit(k) =>
      end := at + |k|;
      forall i | 0 <= i < |k| {
        a[at + i] := k[i];
      }
    case ByIndex(n) =>
      PutBigEndian(a, at, n, 2);
      end := at + 2;
  }

  lemma FieldBounds(f: KeyField)
    requires f.Explicit? ==> |f.key| <= 32
    ensures |FieldBytes(f)| <= 32
  {}

  // The primary's offer of new keys.
  method BuildNewKeyMessage(ktype: nat, dat: KeyField, ctl: KeyField) returns (msg: array<byte>)
    requires ktype < 16
    requires (dat.Explicit? ==> |dat.key| <= 32) && (ctl.Explicit? ==> |ctl.key| <= 32)
    ensures fresh(msg) && msg[..] == CtlMessage(REPLACE_KEY, NewKeyData(ktype, dat, ctl))
  {
    hide CtlMessage, KeyFlag;
    FieldBounds(dat);
    FieldBounds(ctl);
    hide FieldBytes;
    var message := new byte[5 + 2 * 32](_ => 0);
    var msize := PutField(message, 1, dat);
    ghost var one := message[..1];
    msize := PutField(message, msize, ctl);
    assert message[..msize] == one + (FieldBytes(dat) + FieldBytes(ctl));
    message[0] := KeyFlag(ktype, dat, ctl);
    assert message[1..msize] == FieldBytes(dat) + FieldBytes(ctl);
    assert message[..msize] == [message[0]] + message[1..msize];
    msg := BuildCtlMessage(REPLACE_KEY, message, msize);
  }

  // Messages of variable length; status and update messages are not modelled.
  datatype Vlen = VRekey(flag: byte) | VRekeyTest | VKeyArray(flag: byte) | VUnknown

  function VlenSize(v: Vlen, len: nat): nat {
    len + match v
          case VRekey(_) => 1
          case VRekeyTest => 1
          case VKeyArray(_) => 4
          case VUnknown => 0
  }

  function VlenData(v: Vlen, text: seq<byte>): seq<byte>
    requires !v.VUnknown?
  {
    match v
    case VRekey(flag) => [flag] + text
    case VRekeyTest => RekeyTestData(text)
    case VKeyArray(flag) => KeyArrayData(flag, text)
  }

  function VlenCommand(v: Vlen): byte
    requires !v.VUnknown?
  {
    match v
    case VRekey(_) => REKEY
    case VRekeyTest => REKEY_TEST
    case VKeyArray(_) => SET_KEY_ARRAY
  }

  // Writing s at offset `at` of a buffer; None when it does not fit.
  function Wrote(buf: Option<seq<byte>>, at: nat, s: seq<byte>): (r: Option<seq<byte>>)
    ensures r.Some? <==> buf.Some? && at + |s| <= |buf.value|
    ensures r.Some? ==> |r.value| == |buf.value|
  {
    if buf.None? || at + |s| > |buf.value| then None
    else Some(buf.value[..at] + s + buf.value[at + |s|..])
  }

  function Unused(n: nat): (s: seq<byte>)
    ensures |s| == n
  {
    seq(n, _ => 0)
  }

  // What the builder writes into its own buffer, which holds 256 octets and is
  // used whatever the size.
  function VlenWrites(v: Vlen, text: seq<byte>): Option<seq<byte>>
    requires !v.VUnknown?
  {
    var buf := Some(Unused(LOCAL));
    match v
    case VRekey(flag) => Wrote(Wrote(buf, 0, [flag]), 1, text)
    case VRekeyTest => Wrote(Wrote(buf, 0, [|text| % 256]), 1, text)
    case VKeyArray(flag) => Wrote(Wrote(Wrote(buf, 0, [flag]), 1, ToBigEndian(|text|, 3)), 4, text)
  }

  // All of it stays in the buffer exactly up to 256 octets, and the message
  // is then at its front.
  lemma VlenFits(v: Vlen, text: seq<byte>)
    requires !v.VUnknown?
    ensures VlenWrites(v, text).Some? <==> VlenSize(v, |text|) <= LOCAL
    ensures VlenWrites(v, text).Some? ==> VlenWrites(v, text).value[..VlenSize(v, |text|)] == VlenData(v, text)
  {
    hide ToBigEndian;
  }

  // A text of 256 octets does not, and is under the limit of the builder.
  lemma VlenOverrun(text: seq<byte>)
    requires |text| == 256
    ensures VlenSize(VRekeyTest, |text|) <= MAX_MSG && VlenWrites(VRekeyTest, text).None?
  {
    VlenFits(VRekeyTest, text);
  }

  method BuildVlenMessage(v: Vlen, message: array<byte>, len: nat) returns (msg: array?<byte>)
    requires len <= message.Length
    requires !v.VUnknown? && VlenSize(v, len) <= MAX_MSG ==> VlenWrites(v, message[..len]).Some?
    ensures msg == null <==> v.VUnknown? || VlenSize(v, len) > 1348
    ensures msg != null ==> fresh(msg) && msg[..] == CtlMessage(VlenCommand(v), VlenData(v, message[..len]))
  {
    var msize := VlenSize(v, len);
    if v.VUnknown? || msize > MAX_MSG {
      return null;
    }
    ghost var text := message[..len];
    VlenFits(v, text);
    hide VlenWrites, Wrote;
    var vmsg := new byte[LOCAL](_ => 0);
    match v {
      case VRekey(flag) =>
        vmsg[0] := flag;
        assert vmsg[..1] == [flag];
        MemCpy(vmsg, 1, message, 0, len);
      case VRekeyTest =>
        vmsg[0] := len % 256;
        assert vmsg[..1] == [len % 256];
        MemCpy(vmsg, 1, message, 0, len);
      case VKeyArray(flag) =>
        vmsg[0] := flag;
        PutBigEndian(vmsg, 1, len, 3);
        assert vmsg[..4] == [flag] + ToBigEndian(len, 3);
        MemCpy(vmsg, 4, message, 0, len);
    }
    assert vmsg[..msize] == VlenData(v, text);
    msg := BuildCtlMessage(VlenCommand(v), vmsg, msize);
  }

  // The answer and the confirmation of a rekeying.
  method BuildRekey(flag: byte, num: nat) returns (msg: array?<byte>)
    ensures msg != null && fresh(msg) && msg[..] == CtlMessage(REKEY, RekeyData(flag, num))
  {
    var message := new byte[4](_ => 0);
    PutBigEndian(message, 0, num, 4);
    assert message[..4] == ToBigEndian(num, 4);
    VlenFits(VRekey(flag), message[..4]);
    msg := BuildVlenMessage(VRekey(flag), message, 4);
  }

  // -----------------------------------------------------------------------
  // Parser.

  method GetBigEndian(a: array<byte>, at: nat, k: nat) returns (n: nat)
    requires at + k <= a.Length
    ensures n == BigEndian(a[at..at + k])
  {
    n := 0;
    var i := 0;
    while i < k
      invariant 0 <= i <= k && n == BigEndian(a[at..at + i])
    {
      assert a[at..at + i + 1][..i] == a[at..at + i];
      n := n * 256 + a[at + i];
      i := i + 1;
    }
  }

  lemma TwoOctets(s: seq<byte>)
    requires |s| == 2
    ensures BigEndian(s) == U16(s[0], s[1])
  {
    assert BigEndian(s[..1]) == BigEndian(s[..1][..0]) * 256 + s[0];
  }

  method GetKey(buf: array<byte>, at: nat, i: nat, byIndex: bool, ktype: nat) returns (f: Option<KeyField>, end: nat)
    requires at + i <= buf.Length
    requires byIndex ==> at + i + 2 <= buf.Length
    requires !byIndex && KeySize(ktype).Some? ==> at + i + KeySize(ktype).value <= buf.Length
    ensures match KeyAt(buf[at..], i, byIndex, ktype)
            case None => f == None
            case Some((g, e)) => f == Some(g) && end == e
  {
    end := i;
    if byIndex {
      var n := GetBigEndian(buf, at + i, 2);
      TwoOctets(buf[at + i..at + i + 2]);
      return Some(ByIndex(n)), i + 2;
    }
    match KeySize(ktype) {
      case None => f := None;
      case Some(n) =>
        assert buf[at..][i..i + n] == buf[at + i..at + i + n];
        f, end := Some(Explicit(buf[at + i..at + i + n])), i + n;
    }
  }

  method ParseCtlMessage(buf: array<byte>, at: nat, role: Role) returns (call: Call)
    requires at <= buf.Length && Complete(buf[at..])
    ensures call == Parsed(role, buf[at..])
  {
    ghost var m := buf[at..];
    var command, flag := buf[at + 4], buf[at + 5];
    assert command == m[4] && flag == m[5];
    if command == SET_KEY_ARRAY && role != PrimaryOnly {
      var size := GetBigEndian(buf, at + 6, 3);
      assert buf[at + 6..at + 9] == m[6..9];
      match KeySize(flag % 16) {
        case None => call := NoCall;
        case Some(n) =>
          assert buf[at + 9..] == m[9..];
          call := SetKeyArray(n, size, buf[at + 9..]);
      }
    } else if command == ACK_KEY_ARRAY && role != SecondaryOnly {
      call := if flag % 4 != 0 then Refused else NoCall;
    } else if command == REPLACE_KEY && role != PrimaryOnly {
      call := ParseReplaceKey(buf, at);
    } else if command == REKEY {
      var num := GetBigEndian(buf, at + 6, 4);
      assert buf[at + 6..at + 10] == m[6..10];
      call := RekeySession(flag, num);
    } else if command == REKEY_TEST {
      assert buf[at + 6..] == m[6..];
      call := RekeyTest(flag, buf[at + 6..]);
    } else if command in {6, 8, 10, 12} && role != PrimaryOnly {
      call := NoCall;
    } else if command in {7, 9, 11, 13} && role != SecondaryOnly {
      call := NoCall;
    } else {
      call := Refused;
    }
  }

  method ParseReplaceKey(buf: array<byte>, at: nat) returns (call: Call)
    requires at <= buf.Length && |buf[at..]| > CTL_HDR && KeysComplete(buf[at..])
    ensures call == ParsedKeys(buf[at..])
  {
    var flag := buf[at + 5];
    hide BitSet;
    var dat, idx := GetKey(buf, at, 6, BitSet(flag, BY_DAT_INDEX), flag % 16);
    if dat.None? {
      return Refused;
    }
    var ctl, end := GetKey(buf, at, idx, BitSet(flag, BY_CTL_INDEX), flag % 16);
    if ctl.None? {
      return Refused;
    }
    call := ReplaceKeys(dat.value, ctl.value);
  }
}
