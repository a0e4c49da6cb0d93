// Control messages octet for octet, and what each command number asks for.

module ControlWire {
  import opened Bytes
  import opened SessionSpec
  import opened ControlCodec

  // The octets of a key field: the key, or two octets of index.
  function FieldOctets(f: KeyField): seq<byte>
    requires f.ByIndex? ==> f.index < 0x1_0000
  {
    match f
    case Explicit(k) => k
    case ByIndex(n) => [n / 256, n % 256]
  }

  // Keys of 16 octets have type 1, keys of 32 type 2.
  predicate Typed(f: KeyField, ktype: nat) {
    match f
    case Explicit(k) => (ktype == 1 && |k| == 16) || (ktype == 2 && |k| == 32)
    case ByIndex(n) => n < 0x1_0000
  }

  // Flag octet of REPLACE_KEY: key type, 16 for a control index and 32 for a
  // data index.
  function ReplaceFlag(ktype: nat, dat: KeyField, ctl: KeyField): byte
    requires ktype < 16
  {
    ktype + (if ctl.ByIndex? then 16 else 0) + (if dat.ByIndex? then 32 else 0)
  }

  function ReplaceOctets(ktype: nat, dat: KeyField, ctl: KeyField): seq<byte>
    requires ktype < 16 && Typed(dat, ktype) && Typed(ctl, ktype)
  {
    var d, c := FieldOctets(dat), FieldOctets(ctl);
    [0, 0, 0, 6 + |d| + |c|, 3, ReplaceFlag(ktype, dat, ctl)] + d + c
  }

  lemma SmallSize(n: nat)
    requires n < 256
    ensures ToBigEndian(n, 4) == [0, 0, 0, n]
  {
    assert ToBigEndian(0, 3) == [0, 0, 0] by {
      assert ToBigEndian(0, 1) == [0];
      assert ToBigEndian(0, 2) == [0, 0];
    }
  }

  lemma FieldWire(f: KeyField, ktype: nat)
    requires Typed(f, ktype)
    ensures FieldBytes(f) == FieldOctets(f) && Sendable(f, ktype) && |FieldOctets(f)| <= 32
  {
    if f.ByIndex? {
      IndexBytes(f.index);
    }
  }

  // The builder of an offer makes these octets, and the parser finds in them,
  // whatever follows, the two keys or indices.
  lemma ReplaceKeyWire(role: Role, ktype: nat, dat: KeyField, ctl: KeyField, rest: seq<byte>)
    requires (ktype == 1 || ktype == 2) && Typed(dat, ktype) && Typed(ctl, ktype)
    ensures CtlMessage(REPLACE_KEY, NewKeyData(ktype, dat, ctl)) == ReplaceOctets(ktype, dat, ctl)
    ensures !role.PrimaryOnly? ==> var m := ReplaceOctets(ktype, dat, ctl) + rest;
      Complete(m) && Parsed(role, m) == ReplaceKeys(dat, ctl)
  {
    FieldWire(dat, ktype);
    FieldWire(ctl, ktype);
    var d, c := FieldOctets(dat), FieldOctets(ctl);
    SmallSize(6 + |d| + |c|);
    var f := ReplaceFlag(ktype, dat, ctl);
    assert KeyFlag(ktype, dat, ctl) == f;
    if !role.PrimaryOnly? {
      ReplaceKeyRoundTrip(role, ktype, dat, ctl, rest);
    }
    hide FieldBytes, FieldOctets, ToBigEndian, KeyFlag, ReplaceFlag, Parsed, Complete;
    InOneRow(6 + |d| + |c|, 3, f, d, c);
  }

  lemma InOneRow(n: byte, command: byte, f: byte, d: seq<byte>, c: seq<byte>)
    ensures [0, 0, 0, n] + [command] + ([f] + (d + c)) == [0, 0, 0, n, command, f] + d + c
  {}

  // AES128: two keys of 16 octets follow the flag.
  lemma Aes128Keys(role: Role, k: seq<byte>, k': seq<byte>, rest: seq<byte>)
    requires |k| == |k'| == 16 && !role.PrimaryOnly?
    ensures var m: seq<byte> := [0, 0, 0, 38, 3, 1] + k + k' + rest;
      Complete(m) && Parsed(role, m) == ReplaceKeys(Explicit(k), Explicit(k'))
  {
    ReplaceKeyWire(role, 1, Explicit(k), Explicit(k'), rest);
  }

  lemma Aes256Keys(role: Role, k: seq<byte>, k': seq<byte>, rest: seq<byte>)
    requires |k| == |k'| == 32 && !role.PrimaryOnly?
    ensures var m: seq<byte> := [0, 0, 0, 70, 3, 2] + k + k' + rest;
      Complete(m) && Parsed(role, m) == ReplaceKeys(Explicit(k), Explicit(k'))
  {
    ReplaceKeyWire(role, 2, Explicit(k), Explicit(k'), rest);
  }

  // SET_KEY_ARRAY reports keys of 16 octets for type 1 and of 32 for type 2.
  lemma KeyArrayWire(role: Role, flag: byte, keys: seq<byte>, rest: seq<byte>)
    requires |keys| < 0x100_0000 && !role.PrimaryOnly?
    ensures var n := |keys|; var head: seq<byte> := [1, flag, n / 0x1_0000, n / 256 % 256, n % 256];
      && CtlMessage(SET_KEY_ARRAY, KeyArrayData(flag, keys)) == ToBigEndian(n + 9, 4) + head + keys
      && (var m := ToBigEndian(n + 9, 4) + head + keys + rest;
          && Complete(m)
          && Parsed(role, m)
             == if flag % 16 == 1 then SetKeyArray(16, n, keys + rest)
                else if flag % 16 == 2 then SetKeyArray(32, n, keys + rest)
                else NoCall)
  {
    var n := |keys|;
    ThreeOctets(n);
    var b: seq<byte> := [n / 0x1_0000, n / 256 % 256, n % 256];
    BigEndianRoundTrip(n, 3);
    ArrayRow(ToBigEndian(n + 9, 4), flag, b, keys);
    ArrayRead(CtlMessage(SET_KEY_ARRAY, KeyArrayData(flag, keys)) + rest, ToBigEndian(n + 9, 4), flag, b, keys, rest);
    assert Pow256(3) == 0x100_0000 by {
      assert Pow256(2) == 0x1_0000;
    }
    hide ToBigEndian, BigEndian;
  }

  lemma ArrayRow(size: seq<byte>, flag: byte, b: seq<byte>, keys: seq<byte>)
    requires |b| == 3
    ensures size + [1] + ([flag] + b + keys) == size + [1, flag, b[0], b[1], b[2]] + keys
  {}

  lemma ArrayRead(m: seq<byte>, size: seq<byte>, flag: byte, b: seq<byte>, keys: seq<byte>, rest: seq<byte>)
    requires |size| == 4 && |b| == 3 && m == size + [1] + ([flag] + b + keys) + rest
    ensures |m| >= 9 && m[4] == 1 && m[5] == flag && m[6..9] == b && m[9..] == keys + rest
  {}

  lemma ThreeOctets(n: nat)
    requires n < 0x100_0000
    ensures ToBigEndian(n, 3) == [n / 0x1_0000, n / 256 % 256, n % 256]
  {
    IndexBytes(n / 256);
    assert n / 256 / 256 == n / 0x1_0000;
  }

  // REKEY: command 4, the flag, and the packet number in four octets.
  lemma RekeyWire(role: Role, flag: byte, b: seq<byte>, rest: seq<byte>)
    requires |b| == 4
    ensures var m: seq<byte> := [0, 0, 0, 10, 4, flag] + b;
      && CtlMessage(REKEY, RekeyData(flag, BigEndian(b))) == m
      && Complete(m + rest) && Parsed(role, m + rest) == RekeySession(flag, BigEndian(b))
  {
    SmallSize(10);
    ToBigEndianRoundTrip(b);
    var m: seq<byte> := [0, 0, 0, 10, 4, flag] + b;
    hide ToBigEndian, BigEndian;
    InOneRow(10, 4, flag, b, []);
    assert b + [] == b && m + [] == m;
    assert (m + rest)[6..10] == b;
  }

  // REKEY_TEST: command 5, one octet of size, and the text.
  lemma RekeyTestWire(role: Role, text: seq<byte>, rest: seq<byte>)
    requires |text| < 250
    ensures var m: seq<byte> := [0, 0, 0, 6 + |text|, 5, |text|] + text;
      && CtlMessage(REKEY_TEST, RekeyTestData(text)) == m
      && Complete(m + rest) && Parsed(role, m + rest) == RekeyTest(|text|, text + rest)
  {
    SmallSize(6 + |text|);
    var m: seq<byte> := [0, 0, 0, 6 + |text|, 5, |text|] + text;
    hide ToBigEndian;
    assert CtlMessage(REKEY_TEST, RekeyTestData(text)) == [0, 0, 0, 6 + |text|] + [5] + ([|text|] + text);
    assert (m + rest)[6..] == text + rest;
  }

  // What the builder of messages of variable length puts behind the size:
  // commands 4, 5 and 1.
  lemma VlenWire(v: Vlen, text: seq<byte>)
    requires !v.VUnknown? && |text| < 0x100_0000
    ensures var n := |text|;
      CtlMessage(VlenCommand(v), VlenData(v, text))[4..] ==
        match v
        case VRekey(flag) => [4, flag] + text
        case VRekeyTest => [5, n % 256] + text
        case VKeyArray(flag) => [1, flag, n / 0x1_0000, n / 256 % 256, n % 256] + text
  {
    ThreeOctets(|text|);
    hide ToBigEndian;
  }

  // -----------------------------------------------------------------------
  // Commands. 1, 3, 6, 8, 10 and 12 are meant for the secondary, 2, 7, 9, 11
  // and 13 for the primary, 4 and 5 for both; a host that is both takes all.

  predicate MeantFor(role: Role, command: byte) {
    || (command in {1, 3, 6, 8, 10, 12} && role != PrimaryOnly)
    || (command in {2, 7, 9, 11, 13} && role != SecondaryOnly)
    || command in {4, 5}
  }

  // A message not meant for the host is refused. Of the others just two can
  // be: a report of errors, and an offer with a key of unknown type.
  lemma RefusedExactly(role: Role, m: seq<byte>)
    requires Complete(m)
    ensures Parsed(role, m) == Refused <==>
      || !MeantFor(role, m[4])
      || (m[4] == 2 && m[5] % 4 != 0)
      || (m[4] == 3 && m[5] % 16 !in {1, 2} && (m[5] / 16 % 2 == 0 || m[5] / 32 % 2 == 0))
  {
    hide BigEndian;
  }

  // And the handlers are called for these commands only.
  lemma CalledFor(role: Role, m: seq<byte>)
    requires Complete(m)
    ensures Parsed(role, m).SetKeyArray? <==> m[4] == 1 && role != PrimaryOnly && m[5] % 16 in {1, 2}
    ensures Parsed(role, m).ReplaceKeys? ==> m[4] == 3 && role != PrimaryOnly
    ensures Parsed(role, m).RekeySession? <==> m[4] == 4
    ensures Parsed(role, m).RekeyTest? <==> m[4] == 5
  {
    hide BigEndian;
  }
}
