# Protected Point to Point: verified models

Protected Point to Point (P3) tunnels IP packets between a primary and a
secondary host. This project models the parts of its kernel module and its
crypto library in which most can go wrong, and proves what they promise.

- **Obfuscation** (`Cuts`, `Frames`, `Emission`, `Padding`, `Obfuscate`,
  `CutLaws`, `BlockTable`, `Deobfuscate`): a packet is cut into 2 to 7 blocks at places that depend on
  its content, the blocks leave in an order that depends on the clock, and the
  rest of the packet is filled with recycled octets. Whatever the packet and
  the clock, the receiver puts it back together. Of octets that were not sent
  so, those it can handle are told exactly.
- **Rekeying** (`SequenceIds`, `SessionSpec`, `Session`, `RekeyProtocol`,
  `HandlerLaws`, `RekeyInvariant`, `RekeySafety`, `LateDelivery`,
  `StartGuard`): the two
  sides offer, accept and confirm new keys while data flows, and pick the key
  for a packet by its 32-bit id. Over channels that are first-in first-out it
  is told exactly which runs decrypt no packet with the wrong key, those that
  keep within a lap of ids among them; and for packets late or out of order,
  exactly which are read.
- **Control messages** (`ControlCodec`, `ControlWire`, `Sizing`, `BlockCipher`,
  `Cbc`, `Tunnel`, `Delivery`, `EndToEnd`, `WireLaws`): messages are built into octets, padded,
  encrypted, given an inner header, obfuscated and encrypted again. The
  receiver's handler is called with what the sender's code meant, in every such
  run of the rekeying protocol.
- **Cipher modes** (`Ctr`, `Mac`, `Omac`, `OmacField`, `Xcbc`, `Eax`,
  `EaxExchange`, `Ccm`, `CcmFormat`, `KeyWrap`, `ModeLaws`): buffer code over a block cipher that is an arbitrary permutation,
  proved against the definitions in RFC 4493, 3566 and 4434 and the EAX
  construction, for any way of cutting the input into calls, and against RFC
  3610 and 3394 for the lengths at which the code keeps to them.
- **Key ring** (`KeyRing`, `KeyQueue`): a ring of key octets filled in user
  space and emptied in the kernel, in every interleaving of the single steps of
  both; and as the queue it is while neither index turns.

`Bytes` and `Layout` hold octets, big-endian numbers and the sizes in a packet.

Code that changes state is modelled by classes, arrays and loops, each proved
against functions on values; the results about runs are about those functions.
What a function on values computes is stated once more in numbers and octets,
apart from its definition, in `HandlerLaws`, `CutLaws`, `ControlWire`,
`WireLaws`, `OmacField`, `CcmFormat`, `ModeLaws` and `KeyQueue`.
Verify with `dafny verify dfyconfig.toml` (Dafny 4.11).

## Conventions

- The clock (`usec`), the draws of new keys, checksums, what becomes of a
  packet that is sent (delivered, lost before or after it took its id) and the
  block cipher are parameters.
- A rekeying run consists of atomic handler steps over two channels that lose
  and reorder nothing. It reads in time (`InTimeRun`) when each packet, when it
  is read, has an id for which the test of the boundaries selects key 1; it is
  paced (`PacedRun`) when neither side takes more than 2^32-1 ids past the
  older boundary its peer holds, and then reads in time. Packets that come late
  or out of order are the subject of `LateDelivery`.
- `ghost` results (the frames sent, the octets that follow a message in its
  buffer) make explicit what a contract would otherwise say with `exists`.

## Where the code falls short of its intent

- Starting to rekey overwrites the new data key before it looks at the rekey
  flag (src/P3/ksrc/p3kprimary.c:537-546); only the test in the lookup
  (src/P3/ksrc/p3knet.c:929-930) keeps an offer in progress intact.
  `StartGuard.GuardExact` says exactly when the test may be missing: when no
  offer of two keys in full is on its way, nor the acceptance of one, or when
  too few ids are left within the lap to finish the exchange and send one data
  packet (`StartGuard.Room`).
- Ids come round after 2^32-1 packets, and the test of the boundaries then
  takes some for old: a packet read too late after a rekey is decrypted with
  key 0 (`RekeySafety.GarbledExact`, `SequenceIds.WindowTight`).
- A lost answer to REPLACE_KEY stops the primary's data for good
  (`RekeySafety.StuckForever`, `StuckExactly`): nothing else in the modelled
  protocol clears its flag. Outside it, any control message that fails to parse
  does (src/P3/ksrc/p3knet.c:403-408).
- `deobfuscate` is documented for any packet, but follows the headers it finds
  without a check and has no error case. `BlockTable.RestoredExact` says on
  which packets its accesses stay inside the packet and the tables, and
  `LargeIndex` and `LongBlock` give some on which they do not.
- The size comparison in `obfuscate` (src/P3/ksrc/p3knet.c:1030) is unsigned,
  so a header that gives more octets than the area has passes it
  (`Cuts.OversizePasses`, `OversizeInput`); the error is taken for three sizes
  only (`Cuts.NoBlocks`).
- A data packet over UDP to the address and port of the receiving host is taken
  for a control message and decrypted a second time (src/P3/ksrc/p3knet.c:358-393):
  `EndToEnd.DataDispatched`, `TakenForControl`.
- CCM passes its unsigned length on as a signed one (src/P3/ksrc/moc_src/aes_ccm.c:222),
  so that data of 2^31 octets or more leaves authenticated but as it came:
  `Ccm.OutputExact`, `LeftAsIs`. In the same way EAX drops a nonce of that
  length (`Eax.KeptExact`).
- AES key wrap combines the register with one octet of its round counter
  (src/P3/ksrc/moc_src/aes_keywrap.c:102), but takes data of any number of half
  blocks: from 43 on the result is not that of RFC 3394
  (`KeyWrap.WrapRfcExact`, `WrapOf43`).
- The consumer of the key ring looks at the tail twice (src/P3/ksrc/p3kcrypto.c:116
  and 138). If it wraps in between, a key is copied past the end of the buffer
  unless it fits there: `KeyRing.ChosenLive`, `TornRead`.
- Padding restarts behind the headers, but for TCP takes the length of the
  header from octet 9 of it, which is part of the acknowledgement number and
  not the offset field at 12 (src/P3/ksrc/p3knet.c:1151): `Padding.Origins`.
  A cursor a little short of the end restarts in front of that place, at most
  three octets before the packet (`Padding.PadWraps`, `PadRecycles`).
- The copy in front of obfuscation writes 28 octets more than the packet is to
  have (src/P3/ksrc/p3knet.c:719). They fall into the scratch buffer behind it
  (`Sizing.CopySpills`), which is written before it is read. The model copies
  the area.
- `build_vlen_message` uses its 256-octet buffer for all sizes up to the limit
  of 1348 (src/P3/ksrc/p3ksession.c:244-252), which is right only up to 256:
  `ControlCodec.VlenFits`, `VlenOverrun`.
- Control messages over 1392 octets get no room for the outer header
  (src/P3/ksrc/p3knet.c:1331-1341; `Sizing.ControlArea`). The builders make
  none that long.
- The decrypting name of EAX authenticates plain text (`Eax.DecryptAliasExact`,
  `DecryptAliasFails`), and a missing header drops its code
  (`Eax.NullHeaderExact`).
- The comparisons at src/P3/ksrc/moc_src/aes_ccm.c:345 and
  src/P3/ksrc/moc_src/aes_keywrap.c:221 are spelled as a copy with four
  arguments; they are modelled as the comparisons they stand for. Unwrapping
  drops its status (`KeyWrap.Decrypt`).

## Model

| member | source | states |
|---|---|---|
| `Cuts.JitterRange` | src/P3/ksrc/p3knet.c:1041-1062 | a jitter taken from an octet lies between minus the mask and the mask less two, because bit 1 gives the sign |
| `Cuts.CutsIncrease` | src/P3/ksrc/p3knet.c:1041-1068 | for any packet content and any block count that leaves five octets a block, neighbouring block starts are in strict order |
| `Cuts.AllCutsCut` | src/P3/ksrc/p3knet.c:1052-1068 | all starts run strictly from 0 to the packet size: every block is non-empty and the lengths add up to the packet |
| `Cuts.NoBlocks` | src/P3/ksrc/p3knet.c:1015-1034 | the choice of a block count gives none, which is the error, iff the area has room for the packet but not for one header more |
| `Cuts.OversizePasses` | src/P3/ksrc/p3knet.c:1030-1034 | a packet larger than its area passes the unsigned comparison: the block count is chosen as if there were room for any |
| `Cuts.OversizeInput` | src/P3/ksrc/p3knet.c:1030-1034 | such as 100 octets in an area of 50, for which three blocks are chosen |
| `Cuts.AssembleScattered` | src/P3/ksrc/p3knet.c:1221-1262 | frames in any order that carry each block once, padding behind the last block, go back together to the packet followed by the padding |
| `CutLaws.BlockCounts` | src/P3/ksrc/p3knet.c:1016-1029 | two blocks below 40 octets; two or three below 640, by bit 1 of the clock; else the low three bits of the clock, with 4 for 0 and 6 for 1 |
| `CutLaws.MostBlocks` | src/P3/ksrc/p3knet.c:1030-1032 | when the packet fits its area, n blocks are within the choice iff the clock allows n and there is room for n headers of three octets |
| `CutLaws.WidestJitter` | src/P3/ksrc/p3knet.c:1041-1051 | of the masks 3, 7, 15 and 31, the jitter may use 8, 16 or 32 positions iff twice as many make up no more than a block |
| `CutLaws.JitterBits` | src/P3/ksrc/p3knet.c:1059-1062 | the cut moves back iff bit 1 of the octet is set, and by just the low bits of the octet that the mask keeps |
| `CutLaws.CutsFollow` | src/P3/ksrc/p3knet.c:1053-1063 | cut i is decided by the i-th octet from the end: for packets of one size it is the same iff the low bits of that octet are |
| `CutLaws.CutNear` | src/P3/ksrc/p3knet.c:1053-1063 | every inner cut is within 31 octets of an even division |
| `CutLaws.CutOfHundred` | src/P3/ksrc/p3knet.c:1041-1063 | 100 octets in two blocks are cut at 63 if the last octet is 0xfd and at 35 if it is 0xff |
| `CutLaws.NextSent` | src/P3/ksrc/p3knet.c:1090-1113 | the clock bit looked at doubles to the highest one and starts again at the lowest; when it is set the next unused block in cyclic order is sent |
| `CutLaws.NextPassed` | src/P3/ksrc/p3knet.c:1111-1125 | when it is clear that block is passed over for the next unused one behind it |
| `CutLaws.LastFirst` | src/P3/ksrc/p3knet.c:1070-1088 | the last block goes first, and the first one never does |
| `CutLaws.FourBlocks` | src/P3/ksrc/p3knet.c:1070-1125 | with the clock at 10 four blocks go out in the order 3, 0, 2, 1 |
| `CutLaws.FramesHold` | src/P3/ksrc/p3knet.c:1084-1184 | of what is sent, frame by frame: as many as chosen, the last block first; each holds the octets between its two cuts, and behind the last block is the padding from its start on |
| `Padding.PadRecycles` | src/P3/ksrc/p3knet.c:1145-1181 | padding repeats octets of the packet and of the three in front of it only |
| `Padding.PadAt` | src/P3/ksrc/p3knet.c:1160-1181 | up to the end of the packet octet k of the padding is at a place fixed by the clock: pieces of 1 to 4 octets, 7 to 14 left out between them |
| `Padding.PadWraps` | src/P3/ksrc/p3knet.c:1166-1168 | a piece that would pass the end starts as far behind the origin as the cursor is behind the end, in front of it if the cursor is short of the end |
| `Padding.Origins` | src/P3/ksrc/p3knet.c:1146-1158 | with an IP header of 20 octets the origin is behind it for UDP; for TCP it is behind as many octets more as the octet at offset 9 behind it says; with less than 48 octets behind it, it is 0 |
| `Frames.ParsePrint` | src/P3/ksrc/p3knet.c:1128-1144 | reading the 3-octet headers of a run of frames gives back just those frames |
| `Frames.PrintParse` | src/P3/ksrc/p3knet.c:1236-1251 | whatever string can be read as frames is the string those frames are written as |
| `Emission.InvStep` | src/P3/ksrc/p3knet.c:1084-1184 | a round that sends an unused block keeps the loop invariant: blocks sent once, octets still needed, order on schedule |
| `Emission.Fits` | src/P3/ksrc/p3knet.c:1127-1144 | the block of the next round, with header and padding, fits in what is left of the output |
| `Emission.Unfinished` | src/P3/ksrc/p3knet.c:1083-1125 | while octets are missing some block is unused, so the searches for one end within their guard counters |
| `Emission.Finished` | src/P3/ksrc/p3knet.c:1084-1184 | when all octets are written each block has been sent exactly once, in the order the clock dictates |
| `Obfuscate.SetStarts` | src/P3/ksrc/p3knet.c:1041-1063 | the loop stores the jittered starts of the specification |
| `Obfuscate.SetLengths` | src/P3/ksrc/p3knet.c:1064-1068 | the loop stores the block lengths and leaves every later entry as it was; with one block the second entry of a cleared table stays zero |
| `Obfuscate.NextUnused` | src/P3/ksrc/p3knet.c:1092-1104 | the bounded search finds the next unused block in cyclic order, and never gives up while one is left |
| `Obfuscate.Turn` | src/P3/ksrc/p3knet.c:1090-1126 | the choice of a block is that of the specification of the order |
| `Obfuscate.WritePad` | src/P3/ksrc/p3knet.c:1145-1181 | the padding loop ends, and writes just the octets of the padding as it is specified, from the start of the last block on |
| `Obfuscate.LoopStarts` | src/P3/ksrc/p3knet.c:1069-1075 | the loop starts with its invariant when there are two blocks or more, and on an entry of length zero when there is one |
| `Obfuscate.EmitNext` | src/P3/ksrc/p3knet.c:1082-1184 | a round emits the next frame of the schedule, or stops at the entry of length zero when there is one block only |
| `Obfuscate.EmitAll` | src/P3/ksrc/p3knet.c:1069-1184 | with two blocks or more the loop ends after one round a block with exactly len octets, never tripping a guard counter; with one block it is an error |
| `Obfuscate.Obfuscate` | src/P3/ksrc/p3knet.c:997-1191 | succeeds exactly when there is a work area and room for two headers; the packet is then its header and the scattered blocks with their padding; on error it is as it was |
| `Deobfuscate.ReassembleObfuscated` | src/P3/ksrc/p3knet.c:1070-1262 | round trip: what obfuscation sends is well formed and puts back together to the same first psize octets, for every packet and clock |
| `BlockTable.RestoredExact` | src/P3/ksrc/p3knet.c:1221-1262 | on any octets whatever, both loops stay inside the packet and the tables iff each of the at most eight headers looked for lies in the packet and has an index below 8, and no block that is joined reaches past the end |
| `BlockTable.LargeIndex` | src/P3/ksrc/p3knet.c:1233-1251 | a packet whose first index is 8 or more is not handled |
| `BlockTable.LongBlock` | src/P3/ksrc/p3knet.c:1252-1262 | nor is one whose only block is longer than the packet |
| `BlockTable.UnusedBlock` | src/P3/ksrc/p3knet.c:1252-1262 | but a block past the end does no harm when an index before it is missing |
| `Deobfuscate.WellformedRestored` | src/P3/ksrc/p3knet.c:1221-1262 | a packet that reads as frames with each index once is handled, and all its blocks are joined in index order |
| `Deobfuscate.FramesRestored` | src/P3/ksrc/p3knet.c:1221-1262 | any one to eight whole frames with indices below 8, missing and repeated ones too, are handled: the blocks are joined in index order up to the first index missing, and of two frames with one index the later counts |
| `Deobfuscate.FindBlocks` | src/P3/ksrc/p3knet.c:1229-1251 | the loop builds the table of blocks, for any packet whose headers it can read |
| `Deobfuscate.CopyBlocks` | src/P3/ksrc/p3knet.c:1252-1260 | the loop joins the blocks of any table that keeps it inside the packet, up to the first index missing |
| `Deobfuscate.Deobfuscate` | src/P3/ksrc/p3knet.c:1221-1270 | every packet on which the loops stay inside becomes its joined blocks, and its size the one in its own header |
| `SequenceIds.NextIdIsId` | src/P3/ksrc/p3knet.c:727-730 | incrementing the counter, which skips 0, gives the next id of the sequence 1 to 2^32-1 |
| `HandlerLaws.NextIdWraps` | src/P3/ksrc/p3knet.c:727-730 | 4294967295 is followed by 1 |
| `SequenceIds.IdsDistinct` | src/P3/ksrc/p3knet.c:721-736 | any 2^32-1 consecutive ids are distinct |
| `SequenceIds.KeyWindow` | src/P3/ksrc/p3knet.c:332-339 | with boundaries in order, a packet issued within a lap of the older one selects key 1 iff issued at or after the newer one |
| `SequenceIds.WrappedWindow` | src/P3/ksrc/p3knet.c:332-339 | once the boundaries have wrapped past each other every id selects key 1 |
| `SequenceIds.WindowExact` | src/P3/ksrc/p3knet.c:332-339 | the test separates the two keys over a whole lap if and only if the boundaries are in order |
| `SequenceIds.WindowTight` | src/P3/ksrc/p3knet.c:332-339 | a packet one full lap after the older boundary selects the wrong key, so the bound cannot be widened |
| `Session.KeyMgmt.Rekey` | src/P3/ksrc/p3kcrypto.c:305-372 | the contexts shift to key 0 and new ones are made from the new keys |
| `Session.Session.Advance` | src/P3/ksrc/p3knet.c:727-730 | the counter takes the next id |
| `Session.Session.SendDataPacket` | src/P3/ksrc/p3knet.c:718-786 | no packet and no id while the rekey flag is set; otherwise one id, and the current contexts |
| `Session.Session.SendControlMessage` | src/P3/ksrc/p3knet.c:1314-1459 | what a control message does to the session, delivered or lost before or after it took its id |
| `Session.Session.BuildNewKeyMessage` | src/P3/ksrc/p3ksession.c:109-172 | the drawn keys are stored even if the message is then not sent |
| `Session.Session.Start` | src/P3/ksrc/p3kprimary.c:533-559 | the effect of starting to rekey, in every order of failure |
| `Session.Session.ReplaceKeys` | src/P3/ksrc/p3ksec_session.c:103-184 | the effect of REPLACE_KEY at the secondary, with the clearing of the flag on error |
| `Session.Session.RekeyPrimary` | src/P3/ksrc/p3kpri_session.c:96-138 | the effect of REKEY at the primary: confirmed under the old key, then switched |
| `Session.Session.RekeySecondary` | src/P3/ksrc/p3ksec_session.c:202-221 | the effect of REKEY at the secondary |
| `Session.Session.ChooseContexts` | src/P3/ksrc/p3knet.c:332-339 | the contexts chosen for an id are those of the specification |
| `HandlerLaws.PrimarySendsData` | src/P3/ksrc/p3knet.c:718-786 | a data packet of the primary takes an id and is posted under its key 1 unless the flag is set; one that fails takes its id too; nothing else changes |
| `HandlerLaws.SecondarySendsData` | src/P3/ksrc/p3knet.c:718-786 | the same at the secondary |
| `HandlerLaws.PrimaryOffers` | src/P3/ksrc/p3kprimary.c:533-559 | the flag is set iff both draws and the sending succeed, and then an offer is posted that says which keys the primary now holds as new; an id is taken iff the message reached the network |
| `HandlerLaws.PrimaryBusy` | src/P3/ksrc/p3knet.c:929-930 | with the flag set nothing is offered and no key drawn |
| `HandlerLaws.SecondaryAnswers` | src/P3/ksrc/p3ksec_session.c:103-184 | after an offer the secondary has its flag set iff both keys came in full and its answer went out; the answer says so and announces the next id; of the new keys just those sent in full are taken |
| `HandlerLaws.FlagRaised` | src/P3/ksrc/p3ksec_session.c:175-180 | no step raises the secondary's flag without posting exactly one packet, a REKEY without error |
| `HandlerLaws.RefusedStaysFree` | src/P3/ksrc/p3knet.c:403-408 | an offer that is refused, or whose answer is lost, leaves the secondary free: its next data packet goes out |
| `HandlerLaws.AcceptedWaits` | src/P3/ksrc/p3ksec_session.c:202-221 | once set the flag is cleared by no step but the reading of a control message |
| `HandlerLaws.PrimaryRefuses` | src/P3/ksrc/p3knet.c:403-408 | an offer read at the primary would do nothing but clear its flag |
| `HandlerLaws.PrimaryConfirms` | src/P3/ksrc/p3kpri_session.c:96-138 | any REKEY clears the primary's flag; it takes up the new keys, and the number as its boundary, iff the answer accepts and the confirmation goes out, which is sealed with the old keys and announces the next id |
| `HandlerLaws.SecondarySwitches` | src/P3/ksrc/p3ksec_session.c:202-221 | any REKEY clears the secondary's flag; it takes up the new keys iff the message has no error, and sends nothing |
| `HandlerLaws.ContextsTaken` | src/P3/ksrc/p3knet.c:332-339 | ids from the older boundary up to the newer are read with key 0, all others with key 1, data and control alike |
| `RekeyInvariant.SecReadsExact` | src/P3/ksrc/p3knet.c:324-345 | the secondary decrypts the next packet with the keys it was sent under iff the test of its id selects key 1 |
| `RekeyInvariant.PriReadsExact` | src/P3/ksrc/p3knet.c:324-345 | the primary decrypts the next packet with the keys it was sent under iff the test of its id selects key 1 |
| `RekeyInvariant.SecPaced` | src/P3/ksrc/p3knet.c:332-339 | it does at the secondary while the primary is at most a lap past the older boundary |
| `RekeyInvariant.PriPaced` | src/P3/ksrc/p3knet.c:332-339 | it does at the primary while the secondary is at most a lap past the older boundary |
| `RekeyInvariant.StartKeeps` | src/P3/ksrc/p3kprimary.c:533-559 | an offer of keys, sent or failed, keeps the protocol invariant |
| `RekeyInvariant.SecReplaceRead` | src/P3/ksrc/p3ksec_session.c:103-184 | REPLACE_KEY read at the secondary keeps the protocol invariant, whatever becomes of the answer |
| `RekeyInvariant.PriRekeyRead` | src/P3/ksrc/p3kpri_session.c:96-138 | an accepting REKEY read at the primary keeps the protocol invariant, whatever becomes of the confirmation |
| `RekeyInvariant.SecRekeyRead` | src/P3/ksrc/p3ksec_session.c:202-221 | REKEY read at the secondary keeps the protocol invariant |
| `RekeySafety.InvNext` | src/P3/ksrc/p3knet.c:239-792 | every step of the two-session protocol that reads in time keeps the invariant |
| `RekeySafety.GarbledExact` | src/P3/ksrc/p3knet.c:324-345 | in every run, of any length and through any rekeys, error answers and failed sends, all packets are decrypted with the keys that encrypted them iff each id, when it is read, selects key 1 |
| `RekeySafety.NeverGarbled` | src/P3/ksrc/p3knet.c:324-345 | so they are in every paced run |
| `RekeySafety.NeverRekeyed` | src/P3/ksrc/p3knet.c:332-339 | and in every run without a rekey, however often the ids go round |
| `RekeySafety.Agreement` | src/P3/ksrc/p3kcrypto.c:305-372 | in every state of a run that reads in time the secondary has the primary's keys in both slots, or is one rekey behind, the latter exactly while the REKEY is in transit; on both sides key 1 is the pair last taken up and key 0 the one before |
| `RekeySafety.IdsNonZero` | src/P3/ksrc/p3knet.c:721-736 | no packet in transit and no counter has id 0 |
| `RekeySafety.PrimaryAnnounces` | src/P3/ksrc/p3kpri_session.c:108-131 | the REKEY a primary posts is its last packet under the old key and announces the id it uses next |
| `RekeySafety.SecondaryKept` | src/P3/ksrc/p3ksec_session.c:159-180 | the id the secondary announced is still its next when it switches, and is the boundary the primary holds |
| `RekeySafety.StuckForever` | src/P3/ksrc/p3kpri_session.c:96-138 | a primary with its flag set and no control message on its way never sends data or rekeys again, in any run that reads in time |
| `RekeySafety.StuckExactly` | src/P3/ksrc/p3ksec_session.c:159-180 | a step brings the primary into that state exactly when the answer to its offer is lost or not sent |
| `LateDelivery.LogsNext` | src/P3/ksrc/p3knet.c:718-736 | every packet ever sent stays on its side of the boundaries its reader holds |
| `LateDelivery.LateAtSecondary` | src/P3/ksrc/p3knet.c:332-345 | any packet the primary has sent, handed over at any moment and in any order within a lap, is read with its own keys iff of the reader's generation, or the one before while the boundaries are in order |
| `LateDelivery.LateAtPrimary` | src/P3/ksrc/p3knet.c:332-345 | any packet the secondary has sent is read with its own keys at the primary under the same exact condition |
| `LateDelivery.SentIdsDistinct` | src/P3/ksrc/p3knet.c:721-736 | among all packets a side has sent in a run, no two less than a lap apart share an id and none has id 0 |
| `StartGuard.GuardExact` | src/P3/ksrc/p3kprimary.c:533-559 | from any state that keeps the invariant: started without the caller's test of the flag, rekeying can lead to a garbled packet, for some draw and some paced run, iff an offer that can be accepted is out and ids are left within the lap to finish the exchange and send one data packet |
| `StartGuard.UnexposedKeeps` | src/P3/ksrc/p3kprimary.c:533-559 | while no such offer is out a start without the test keeps the protocol invariant |
| `StartGuard.ExposedGarbles` | src/P3/ksrc/p3kprimary.c:533-559 | while one is out two drawn keys and a run are constructed that end in a garbled packet |
| `StartGuard.HarmlessNext` | src/P3/ksrc/p3knet.c:239-792 | while ids run short no step of the protocol brings the two diverging runs to a garbled packet |
| `StartGuard.UnguardedGarbles` | src/P3/ksrc/p3kprimary.c:537-546 | a run in which the missing test splits the keys of the two sides and garbles the next data packet |
| `ControlCodec.EmbeddedSize` | src/P3/ksrc/p3ksession.c:396-420 | the size field is the length of the whole message |
| `ControlCodec.ReplaceKeyRoundTrip` | src/P3/ksrc/p3ksession.c:514-558 | REPLACE_KEY in all four mixtures of key and index parses back to the same fields, for keys of the size their type has |
| `ControlCodec.UnknownKeyType` | src/P3/ksrc/p3ksession.c:514-558 | with another key type the message is refused iff a key is sent in full |
| `ControlCodec.RekeyRoundTrip` | src/P3/ksrc/p3ksession.c:561-574 | REKEY parses back to the same flag and number |
| `ControlCodec.RekeyTestRoundTrip` | src/P3/ksrc/p3ksession.c:575-586 | REKEY_TEST parses back to the text; its size survives iff below 256 |
| `ControlCodec.KeyArrayRoundTrip` | src/P3/ksrc/p3ksession.c:481-499 | SET_KEY_ARRAY parses back to the key size, the length and the keys |
| `ControlCodec.BuildCtlMessage` | src/P3/ksrc/p3ksession.c:396-420 | the builder writes size, command and data |
| `ControlCodec.BuildNewKeyMessage` | src/P3/ksrc/p3ksession.c:109-172 | the builder writes the flag and both key fields, in place |
| `ControlCodec.BuildVlenMessage` | src/P3/ksrc/p3ksession.c:219-305 | whenever what it writes stays in its buffer, the builder writes the message, or returns nothing for an unknown kind or one over the limit |
| `ControlCodec.VlenFits` | src/P3/ksrc/p3ksession.c:219-305 | what the builder writes stays in its 256-octet buffer iff the message has at most 256 octets, and is then the message |
| `ControlCodec.VlenOverrun` | src/P3/ksrc/p3ksession.c:244-258 | a text of 256 octets is under the limit and does not fit |
| `ControlWire.ReplaceKeyWire` | src/P3/ksrc/p3ksession.c:109-172 | an offer octet for octet: size, command 3, the type with 16 for a control and 32 for a data index, then data and control field; keys of 16 octets for type 1, of 32 for type 2, indices of two; the parser finds the same fields, whatever follows |
| `ControlWire.Aes128Keys` | src/P3/ksrc/p3ksession.c:526-548 | two AES128 keys behind the octets 0 0 0 38 3 1 are the data key and the control key |
| `ControlWire.Aes256Keys` | src/P3/ksrc/p3ksession.c:526-548 | two AES256 keys behind the octets 0 0 0 70 3 2 are the data key and the control key |
| `ControlWire.KeyArrayWire` | src/P3/ksrc/p3ksession.c:481-499 | a key array octet for octet; type 1 is reported as keys of 16 octets, type 2 of 32, and any other is accepted and dropped |
| `ControlWire.RekeyWire` | src/P3/ksrc/p3ksession.c:561-574 | REKEY octet for octet: size 10, command 4, flag and number |
| `ControlWire.RekeyTestWire` | src/P3/ksrc/p3ksession.c:575-586 | REKEY_TEST octet for octet: command 5, one octet of size, the text |
| `ControlWire.VlenWire` | src/P3/ksrc/p3ksession.c:219-305 | what the builder of messages of variable length puts behind the size, octet for octet |
| `ControlWire.RefusedExactly` | src/P3/ksrc/p3ksession.c:456-702 | a message is refused iff its command is not meant for the host, or it reports errors, or offers a key in full of an unknown type |
| `ControlWire.CalledFor` | src/P3/ksrc/p3ksession.c:456-702 | the handlers are called for commands 1, 3, 4 and 5 only, on the hosts they are meant for |
| `ControlCodec.BuildRekey` | src/P3/ksrc/p3ksec_session.c:159-172 | the answer carries the next id in four octets |
| `ControlCodec.ParseReplaceKey` | src/P3/ksrc/p3ksession.c:514-558 | the walk over both keys finds what the specification says |
| `ControlCodec.ParseCtlMessage` | src/P3/ksrc/p3ksession.c:456-702 | the parser calls the handler of the specification with its arguments, or refuses |
| `Sizing.OutboundArea` | src/P3/ksrc/p3knet.c:655-680 | packets of up to 1466 octets and no others are accepted; their area is whole blocks, at most 1472, with room for two headers |
| `Sizing.OutboundFixed` | src/P3/ksrc/p3knet.c:663-673 | the area is one of the three fixed sizes up to 1434 octets, and no smaller one would have had room to spare |
| `WireLaws.PacketSizes` | src/P3/ksrc/p3knet.c:655-680 | packets of up to 170, 633, 1434, 1450 and 1466 octets travel as 204, 668, 1468, 1484 and 1500; longer ones do not |
| `WireLaws.MessageSizes` | src/P3/ksrc/p3knet.c:1331-1338 | control messages of up to 128, 592 and 1392 octets travel as 204, 668 and 1468 |
| `Sizing.CopySpills` | src/P3/ksrc/p3knet.c:501-719 | the copy of a data packet ends 24 octets behind the first work buffer, and inside the second |
| `Sizing.ControlFixed` | src/P3/ksrc/p3knet.c:1331-1338 | the area of a control message is the least fixed size with a block to spare |
| `Sizing.ControlArea` | src/P3/ksrc/p3knet.c:1331-1341 | control messages of up to 1392 octets and no others get an area that suits |
| `Sizing.TwoBlocks` | src/P3/ksrc/p3knet.c:1010-1039 | an area that suits always gives at least two blocks |
| `Cbc.CbcInverse` | src/P3/ksrc/moc_src/aesalgo.c:1365-1601 | chained decryption inverts chained encryption for any cipher that is a permutation |
| `ModeLaws.IvReads` | src/P3/ksrc/p3kcrypto.c:407-416 | each quarter of the initial block reads as the packet id |
| `ModeLaws.XorBits` | src/P3/ksrc/moc_src/aes_ccm.c:84-112 | each bit of the exclusive or of two numbers is set iff it is set in just one |
| `ModeLaws.CbcBlock` | src/P3/ksrc/moc_src/aesalgo.c:1365-1478 | each block is the encryption of its octets combined with the block before, the first with the initial block |
| `Cbc.BlockEncrypt` | src/P3/ksrc/moc_src/aesalgo.c:1365-1478 | the loop encrypts the area in place as specified and touches nothing else |
| `Cbc.BlockDecrypt` | src/P3/ksrc/moc_src/aesalgo.c:1484-1601 | the loop decrypts the area in place as specified |
| `Cbc.Encrypt` | src/P3/ksrc/p3kcrypto.c:407-448 | a missing context or a length that is not whole blocks is an error and changes nothing; otherwise chaining from the packet id |
| `Cbc.Decrypt` | src/P3/ksrc/p3kcrypto.c:481-522 | a missing context or a bad length changes nothing; otherwise the area is deciphered from the packet id |
| `Tunnel.OuterFields` | src/P3/ksrc/p3knet.c:1407-1417 | the outer header carries the size, an identification that runs with the id, and the template's addresses |
| `Tunnel.InnerFields` | src/P3/ksrc/p3knet.c:1381-1396 | the inner header carries size, protocol 17, the address, both ports and the length of the message |
| `WireLaws.OuterOctets` | src/P3/ksrc/p3knet.c:727-745 | in the wire packet the id is in octets 24 to 27, the size in 2 and 3, and the identification is the id plus 0xa65d |
| `WireLaws.InnerOctets` | src/P3/ksrc/p3knet.c:1381-1396 | in the inner packet: size, identification (the id plus four times 0xa65d), protocol 17, checksum, addresses, twice the port, the length; the message, encrypted, from octet 28 |
| `WireLaws.ControlPackets` | src/P3/ksrc/p3knet.c:358-372 | a control message is UDP to the host's address with its port, which the secondary looks for in the source field and all others in the destination field |
| `WireLaws.TwoOctets` | src/P3/ksrc/p3knet.c:1013-1015 | a size of two octets is read as a big-endian number |
| `WireLaws.ForwardBit` | src/P3/ksrc/p3knet.c:748-752 | the flag is the bit of value 4 |
| `Delivery.Forwarded` | src/P3/ksrc/p3knet.c:748-752 | the forward flag is set in its octet and no other bit changes |
| `Tunnel.OuterLayer` | src/P3/ksrc/p3knet.c:301-357 | decrypting and reassembling a sent packet gives it back, followed by padding |
| `Tunnel.InnerLayer` | src/P3/ksrc/p3knet.c:358-393 | the inner packet is recognised as a control message for the host and its message decrypted, whatever lies behind it |
| `Tunnel.ControlDelivered` | src/P3/ksrc/p3knet.c:1314-1459 | a control message in both layers reaches the parser unchanged at a host with the keys, address and port |
| `Tunnel.PrepareControl` | src/P3/ksrc/p3knet.c:1343-1423 | both headers and the encrypted message lie where they should |
| `Tunnel.Seal` | src/P3/ksrc/p3knet.c:1425-1439 | the packet is obfuscated and encrypted as specified |
| `Tunnel.SendControl` | src/P3/ksrc/p3knet.c:1314-1459 | fails iff a context is missing; otherwise the packet on the wire carries the padded message in both layers |
| `Delivery.SendData` | src/P3/ksrc/p3knet.c:655-786 | accepts exactly packets of up to 1466 octets; the packet on the wire carries them |
| `Delivery.Open` | src/P3/ksrc/p3knet.c:301-357 | decrypts and reassembles a received packet as specified |
| `Delivery.IsControl` | src/P3/ksrc/p3knet.c:358-372 | tells control messages for this host from other packets |
| `Delivery.Receive` | src/P3/ksrc/p3knet.c:301-415 | a received packet is dropped, handed to its control handler or to the stack, exactly as specified |
| `EndToEnd.DataDelivered` | src/P3/ksrc/p3knet.c:718-786 | a data packet decrypts and reassembles to what went in, octets and size, whatever the clock and the padding |
| `EndToEnd.DataDispatched` | src/P3/ksrc/p3knet.c:301-415 | the receiver gives it to the stack if it is not UDP to the receiver's own address and port, and otherwise does not, or follows its fields out of the packet |
| `EndToEnd.SameDispatch` | src/P3/ksrc/p3knet.c:358-372 | the choice depends on the packet sent and not on the padding behind it |
| `EndToEnd.TakenForControl` | src/P3/ksrc/p3knet.c:358-393 | UDP packets to the host's own address and port are taken for control messages and their payload is decrypted again; they are dropped if that is not whole blocks |
| `EndToEnd.BodyDelivered` | src/P3/ksrc/p3ksession.c:456-702 | a REPLACE_KEY or REKEY the receiver can read reaches its handler with the same keys, indices, flag or number |
| `EndToEnd.NextAtSecondary` | src/P3/ksrc/p3knet.c:301-415 | in every run that reads in time, the control message next in line for the secondary reaches its handler with what its body says |
| `EndToEnd.NextAtPrimary` | src/P3/ksrc/p3knet.c:301-415 | in every run that reads in time, the control message next in line for the primary reaches its handler with what its body says |
| `Ctr.CarryValue` | src/P3/ksrc/moc_src/aes_ctr.c:86-100 | counting up octets with carry adds one modulo 256 to their number |
| `Ctr.CounterSteps` | src/P3/ksrc/moc_src/aes_ctr.c:86-100 | each block increments the last limit octets as one big-endian number and leaves the others |
| `Ctr.Chunks` | src/P3/ksrc/moc_src/aes_ctr.c:105-164 | two calls on two pieces do what one call on both does |
| `Ctr.CryptInvolutive` | src/P3/ksrc/moc_src/aes_ctr.c:105-164 | the same call from the same start undoes itself |
| `Ctr.KeystreamAt` | src/P3/ksrc/moc_src/aes_ctr.c:105-164 | octet k of the stream is octet k mod 16 of the encryption of the start plus k / 16 |
| `Ctr.CtrContext.GetNewBlock` | src/P3/ksrc/moc_src/aes_ctr.c:86-100 | encrypts the counter block and counts it up |
| `Ctr.CtrContext.DoCtr` | src/P3/ksrc/moc_src/aes_ctr.c:105-164 | the octets the signed length counts are combined with the next octets of the stream, restarted if a block is given, however much of a block was left; no others change; a bad limit changes nothing |
| `Mac.MacState.Update` | src/P3/ksrc/moc_src/aes_cmac.c:153-201 | after an update the state has the octets of all updates so far, however cut; a negative length adds none |
| `Mac.MacState.Finish` | src/P3/ksrc/moc_src/aes_cmac.c:224-244 | the code is that of all octets given, with the subkey for a whole or a padded last block |
| `Omac.ShiftDoubles` | src/P3/ksrc/moc_src/aes_cmac.c:35-64 | shifting a string by one bit doubles its number, less what falls out |
| `Omac.TopBit` | src/P3/ksrc/moc_src/aes_cmac.c:35-64 | the shifted 128-bit string is twice the number modulo 2^128, and the top bit says whether it overflows |
| `Omac.GenerateSubKey` | src/P3/ksrc/moc_src/aes_cmac.c:35-64 | the octet-wise loops double in the field of section 2.3 of RFC 4493 |
| `OmacField.DoubleNumber` | src/P3/ksrc/moc_src/aes_cmac.c:35-64 | as a number the double is twice the block, reduced by x^128 + x^7 + x^2 + x + 1 |
| `OmacField.DoubleMoves` | src/P3/ksrc/moc_src/aes_cmac.c:35-64 | doubling moves every block but zero, and makes none zero |
| `OmacField.SubKeyNumbers` | src/P3/ksrc/moc_src/aes_cmac.c:66-83 | the subkeys are 2 L and 4 L in the field of section 2.3 of RFC 4493 |
| `OmacField.OneBlock` | src/P3/ksrc/moc_src/aes_cmac.c:206-246 | the code of one whole block is its encryption with the first subkey |
| `OmacField.ShortBlock` | src/P3/ksrc/moc_src/aes_cmac.c:206-246 | the code of less is that of the octets, 0x80 and zeros with the second subkey |
| `OmacField.CodeAbsorbs` | src/P3/ksrc/moc_src/aes_cmac.c:153-201 | in any code of this kind the first block may be encrypted and combined with the next, if more follows |
| `OmacField.LastTwo` | src/P3/ksrc/moc_src/aes_cmac.c:206-246 | the code of a block and a last one, whole or short |
| `OmacField.PaddedApart` | src/P3/ksrc/moc_src/aes_cmac.c:206-246 | a message that is not whole blocks, and the same message padded out, have one code iff the cipher leaves the zero block zero |
| `Omac.Final` | src/P3/ksrc/moc_src/aes_cmac.c:206-246 | the result is AES-CMAC (section 2.4 of RFC 4493) of the message held |
| `Omac.CmacOf` | src/P3/ksrc/moc_src/aes_cmac.c:139-246 | for every way of cutting a message the result is AES-CMAC of the whole |
| `Xcbc.XcbcContext.FinalAux` | src/P3/ksrc/moc_src/aes_xcbc_mac_96.c:190-239 | the result is the code of section 4 of RFC 3566, cut to the length asked for |
| `Xcbc.PrfStart` | src/P3/ksrc/moc_src/aes_xcbc_mac_96.c:84-135 | keys of other lengths are padded, or replaced by their code under the zero key |
| `ModeLaws.XcbcWhole` | src/P3/ksrc/moc_src/aes_xcbc_mac_96.c:190-239 | a whole block is combined with the key derived from twos, under the key derived from ones |
| `ModeLaws.XcbcShort` | src/P3/ksrc/moc_src/aes_xcbc_mac_96.c:190-239 | less is padded with 0x80 and zeros and combined with the key derived from threes |
| `ModeLaws.XcbcAbsorbs` | src/P3/ksrc/moc_src/aes_xcbc_mac_96.c:138-187 | with more behind them, the first block goes into the second, under the key derived from ones |
| `ModeLaws.XcbcTwo` | src/P3/ksrc/moc_src/aes_xcbc_mac_96.c:138-239 | the code of a block and a last one, whole or short |
| `ModeLaws.PrfKeys` | src/P3/ksrc/moc_src/aes_xcbc_mac_96.c:84-135 | a key of up to 16 octets may have zeros behind it, one of 16 is taken as it is, and a longer one is the same as its own code under the zero key |
| `Xcbc.PrfOf` | src/P3/ksrc/moc_src/aes_xcbc_mac_96.c:84-265 | for every way of cutting a message the result is its AES-XCBC-PRF-128 |
| `Xcbc.Mac96Of` | src/P3/ksrc/moc_src/aes_xcbc_mac_96.c:47-252 | for every way of cutting a message the result is its AES-XCBC-MAC-96 |
| `Eax.KeptExact` | src/P3/ksrc/moc_src/aes_eax.c:81-89 | a nonce is taken whole iff it is shorter than 2^31 octets, and otherwise as the empty one |
| `ModeLaws.EaxTag` | src/P3/ksrc/moc_src/aes_eax.c:175-221 | the tag is the exclusive or of the three codes of nonce, header and cipher text behind blocks of 0, 1 and 2 |
| `ModeLaws.EaxOctet` | src/P3/ksrc/moc_src/aes_eax.c:151-170 | octet k of the cipher text is combined with octet k mod 16 of the encryption of the code of the nonce, counted up k / 16 times |
| `Eax.EaxContext.constructor` | src/P3/ksrc/moc_src/aes_eax.c:55-117 | the counter starts at the code of what is kept of the nonce; header and message are empty |
| `Eax.EaxContext.UpdateHeader` | src/P3/ksrc/moc_src/aes_eax.c:122-131 | adds to the header only, and nothing for a negative length |
| `Eax.EaxContext.EncryptMessage` | src/P3/ksrc/moc_src/aes_eax.c:151-170 | the cipher text so far stays the encryption of the message so far, whatever header updates lie between; a negative length adds nothing |
| `Eax.EaxContext.Final` | src/P3/ksrc/moc_src/aes_eax.c:175-221 | the tag is that of the header and cipher text so far |
| `Eax.EaxContext.GenerateTag` | src/P3/ksrc/moc_src/aes_eax.c:226-294 | the tag is that of header and cipher text with these added; without a header the header's code is left out |
| `Eax.EaxContext.GetPlainText` | src/P3/ksrc/moc_src/aes_eax.c:136-146 | pieces of the cipher text, in order, become the pieces of the message |
| `Eax.PieceRecovered` | src/P3/ksrc/moc_src/aes_eax.c:136-146 | deciphering any stretch from the state at its start gives the plain text there |
| `Eax.NullHeaderExact` | src/P3/ksrc/moc_src/aes_eax.c:268-292 | a left-out header gives the tag of the empty header iff the code of the empty header is zero in the octets of the tag |
| `Eax.DecryptAliasExact` | src/P3/ksrc/moc_src/aes_eax.h:55 | the name for decrypting in pieces yields the sender's tag if no tag is asked for or the key stream over the message is zero, as it is for the empty one, and otherwise only for two messages that share a code |
| `Eax.DecryptAliasFails` | src/P3/ksrc/moc_src/aes_eax.h:55 | for messages and nonces of one octet under the identity it yields another tag, at every length of tag |
| `EaxExchange.Send` | src/P3/ksrc/moc_src/aes_eax.c:122-221 | pieces of header and message in any order give the cipher text and the tag of the whole |
| `EaxExchange.Receive` | src/P3/ksrc/moc_src/aes_eax.c:136-294 | a fresh context yields the tag of the whole, and then the message in any pieces |
| `EaxExchange.Exchange` | src/P3/ksrc/moc_src/aes_eax.c:55-294 | the receiver finds the sender's tag and the whole message, however the sender mixed and cut header and message and however the receiver cuts |
| `Ccm.ValidateParams` | src/P3/ksrc/moc_src/aes_ccm.c:45-79 | accepts exactly M even from 4 to 16, L from 2 to 8 and lengths that fit L octets |
| `Ccm.AuthenticateAux` | src/P3/ksrc/moc_src/aes_ccm.c:84-112 | chains the data padded with zeros |
| `Ccm.DoAuthentication` | src/P3/ksrc/moc_src/aes_ccm.c:117-190 | the code is the CBC-MAC of the blocks of section 2.2 of RFC 3610 |
| `CcmFormat.FirstBlockSays` | src/P3/ksrc/moc_src/aes_ccm.c:125-147 | of the string authenticated, bit 6 of the first octet is set iff there is further data, three bits each give the sizes of tag and length field, and nonce and length of the message follow |
| `CcmFormat.LengthSays` | src/P3/ksrc/moc_src/aes_ccm.c:149-176 | further data is preceded by its length: two octets below 65280, else 0xff 0xfe and four |
| `CcmFormat.BlocksSay` | src/P3/ksrc/moc_src/aes_ccm.c:125-190 | then the further data, zeros to the end of the block, the message, and zeros again |
| `CcmFormat.BlocksDistinct` | src/P3/ksrc/moc_src/aes_ccm.c:117-190 | for equal parameters such a string starts another, or is it, iff nonce, message and further data are the same |
| `CcmFormat.AllowedExactly` | src/P3/ksrc/moc_src/aes_ccm.c:45-79 | the parameters allowed: tags of 4, 6, to 16 octets, length fields of 2 to 8 octets that the length fits |
| `CcmFormat.CounterBlockSays` | src/P3/ksrc/moc_src/aes_ccm.c:195-223 | a block that masks has nothing but its size in the first octet, then nonce and counter; it never starts a string that is authenticated |
| `CcmFormat.SealedSays` | src/P3/ksrc/moc_src/aes_ccm.c:195-223 | the authentication value is the chained string combined with the encryption of block 0 |
| `CcmFormat.MaskSays` | src/P3/ksrc/moc_src/aes_ccm.c:195-223 | octet k of the mask is octet k mod 16 of the encryption of block 1 + k / 16 |
| `CcmFormat.ChainSays` | src/P3/ksrc/moc_src/aes_ccm.c:84-112 | each further block is combined with the encryption of those before it, and encrypted |
| `Ccm.CounterKeepsNonce` | src/P3/ksrc/moc_src/aes_ccm.c:195-223 | under the length check the 16-octet counter never carries into the nonce |
| `Ccm.StreamIsMask` | src/P3/ksrc/moc_src/aes_ccm.c:195-223 | counter mode from block 1 is the key stream of section 2.3 of RFC 3610 |
| `Ccm.OutputExact` | src/P3/ksrc/moc_src/aes_ccm.c:195-223 | what leaves is the cipher text of section 2.3 of RFC 3610 iff it is shorter than 2^31 octets or the key stream over it is zero |
| `Ccm.LeftAsIs` | src/P3/ksrc/moc_src/aes_ccm.c:195-223 | a length of 2^31 octets is allowed, and under the identity the data is left as it is |
| `Ccm.DoCtrEncryption` | src/P3/ksrc/moc_src/aes_ccm.c:195-223 | the code is masked with the encryption of block 0; the data with the blocks after it, or not at all from 2^31 octets on |
| `Ccm.Encrypt` | src/P3/ksrc/moc_src/aes_ccm.c:228-295 | refuses exactly bad parameters; otherwise yields the authentication value of section 2.2 of RFC 3610, and the data masked if shorter than 2^31 octets |
| `Ccm.Decrypt` | src/P3/ksrc/moc_src/aes_ccm.c:300-375 | undoes what encryption did to the data and accepts exactly the authentication value that belongs to it |
| `Ccm.Opens` | src/P3/ksrc/moc_src/aes_ccm.c:228-375 | decrypting what was encrypted gives the message at any allowed length, and exactly the value made for it is accepted |
| `KeyWrap.WrapInverse` | src/P3/ksrc/moc_src/aes_keywrap.c:76-206 | unwrapping what was wrapped gives the data and the initial value, for any number of half blocks |
| `ModeLaws.WrapSpan` | src/P3/ksrc/moc_src/aes_keywrap.c:60-116 | wrapping starts from eight octets of 0xa6 and takes six passes |
| `ModeLaws.WrapTurn` | src/P3/ksrc/moc_src/aes_keywrap.c:76-116 | turn i of pass j works on half block i and the register, with n j + i combined into it, and leaves all other half blocks |
| `KeyWrap.StampExact` | src/P3/ksrc/moc_src/aes_keywrap.c:99-102 | combining one octet of the round counter is combining all of it iff the counter is below 256 |
| `KeyWrap.WrapRfcExact` | src/P3/ksrc/moc_src/aes_keywrap.c:37-124 | wrapping n half blocks is that of section 2.2.1 of RFC 3394, for every cipher and all data, iff n is at most 42 |
| `KeyWrap.WrapIsRfc3394` | src/P3/ksrc/moc_src/aes_keywrap.c:76-116 | up to 42 half blocks it is, for each cipher and all data |
| `KeyWrap.LongWrapDiffers` | src/P3/ksrc/moc_src/aes_keywrap.c:76-116 | beyond it is not, for any data, under the identity |
| `KeyWrap.WrapOf43` | src/P3/ksrc/moc_src/aes_keywrap.c:76-116 | for one, data of 344 octets |
| `KeyWrap.Encrypt` | src/P3/ksrc/moc_src/aes_keywrap.c:37-124 | the nested loops in place do the 6n rounds; bad lengths are refused |
| `KeyWrap.Decrypt` | src/P3/ksrc/moc_src/aes_keywrap.c:129-234 | the loops undo the rounds; the status is success whatever happens |
| `KeyRing.FillsClear` | src/P3/src/p3pri_key_server.c:127-144 | the producer adds a chunk only where it is inside the buffer and clear of live octets |
| `KeyRing.ClearIsFree` | src/P3/src/p3pri_key_server.c:127-144 | being clear is just that no octet of the chunk is live |
| `KeyRing.FillMeasure` | src/P3/src/p3pri_key_server.c:127-144 | a round of the loop brings the tail up or wraps it to below the head, where it stays |
| `KeyRing.FullLooksEmpty` | src/P3/src/p3pri_key_server.c:127-144 | filling makes the ring look empty iff the head is at 0 and the chunk is the last to fit |
| `KeyRing.FillKeeps` | src/P3/src/p3pri_key_server.c:127-144 | otherwise live octets stay live and the new chunk is live |
| `KeyRing.TakesLive` | src/P3/ksrc/p3kcrypto.c:108-151 | a key is copied from live octets inside the buffer only |
| `KeyRing.TakenDead` | src/P3/ksrc/p3kcrypto.c:108-151 | an octet of a key taken is not live any more, and every other live octet stays so unless the head turns |
| `KeyRing.TakenExactly` | src/P3/ksrc/p3kcrypto.c:108-151 | there is a key iff one stretch of live octets holds it, or it fits behind the head; it is taken at the head iff it fits there |
| `KeyRing.TakeKeeps` | src/P3/ksrc/p3kcrypto.c:108-151 | taking a key keeps the indices in range and a clear chunk clear |
| `KeyRing.WholeTurn` | src/P3/src/p3pri_key_server.c:127-144 | the producer's steps, undisturbed, are one round of its loop, or find that there is no room |
| `KeyRing.WholeTake` | src/P3/ksrc/p3kcrypto.c:108-151 | the consumer's steps, undisturbed, take a key as specified: they copy it from the same offset, and copy one iff there is one |
| `KeyRing.ChosenLive` | src/P3/ksrc/p3kcrypto.c:108-151 | what is chosen to be copied is live, and is inside the buffer iff the tail has not wrapped between two looks at it or the key fits behind the head |
| `KeyRing.RunSafe` | src/P3/src/p3pri_key_server.c:116-148 | in every interleaving of the single steps of both sides, writes stay inside the buffer and miss live octets and those being copied; copies stay inside unless the tail wraps between two looks |
| `KeyRing.TornRead` | src/P3/ksrc/p3kcrypto.c:138-144 | a run in which it does: 32 octets are copied from offset 16 of 32 |
| `KeyQueue.FillExact` | src/P3/src/p3pri_key_server.c:128-131 | a chunk is added iff the ring does not look empty, the chunk is inside and clear of live octets, and its end does not meet the head |
| `KeyQueue.FillAppends` | src/P3/src/p3pri_key_server.c:138-144 | a chunk joins the live octets at the back, with the gap behind it if it is the last to fit; if the ring comes to look empty all are lost |
| `KeyQueue.NoGap` | src/P3/src/p3pri_key_server.c:140-144 | there is no gap if the size is a multiple of the chunk |
| `KeyQueue.PouredQueue` | src/P3/src/p3pri_key_server.c:128-148 | then the loop brings one draw after the other to the back of the queue, until there is no room or no draw, unless the head is at 0 |
| `KeyQueue.TakeFromFront` | src/P3/ksrc/p3kcrypto.c:108-151 | a key is the front of the live octets and leaves them; if the head has to turn, what lies behind it is dropped first |
| `KeyQueue.TwoKeys` | src/P3/ksrc/p3kcrypto.c:108-151 | so of two keys taken without a turn, the second is the octets behind the first |
| `KeyRing.KeyServer.BufferHandler` | src/P3/src/p3pri_key_server.c:116-148 | the loop ends, with ring and octets as specified; it leaves every live octet as it was, and stops when no chunk fits or none can be had |
| `KeyRing.KeyServer.GetKey` | src/P3/ksrc/p3kcrypto.c:91-155 | a key is given iff the specification has one, and is the octets there; the new head is that of the specification |

## Left out

- AES rounds and key schedules: the block cipher is any permutation with an inverse.
- Network hooks, socket buffers, files, shared memory, processes and the Java side: plumbing around the modelled code.
- Inserting an MSS option, TCP and IP checksums, IPv6: they depend on kernel helpers, and the path that adds an MSS does not give a consistent size.
- Heartbeat, status, update and shutdown messages: their handlers are stubs; the parser model accepts or refuses them without arguments.
- The choice of a key index from the clock: it is an input. There is no key array at the receiver, so an index is an error there.
- What starts a rekeying (every 64th id, for now): the model allows it whenever the flag is clear.
- Failure to create a cipher context while rekeying, and races inside a handler: steps are atomic and contexts are created.
- Loss and reordering of control messages in rekeying runs: nothing is retransmitted, so only late delivery of single packets is covered.
- Order in the key ring across turns: when the head turns octets are skipped, and after a failed turn keys may come twice; `KeyQueue` has the order up to there.
- Control messages too long for the fixed packet sizes: the code marks splitting them as still to be written.
- Deobfuscate.Deobfuscate: what happens when an access leaves the packet or the tables; the packets concerned are exactly those that are not `BlockTable.Safe`.
- Deobfuscate.FindBlocks: the same, for headers outside the packet and indices from 8 on.
- Deobfuscate.CopyBlocks: the same, for blocks that reach past the packet.
- Delivery.Open: the same; the code decrypts such a packet and then follows its headers wherever they lead.
- Delivery.Receive: the same, and inner packets whose IP, UDP or message fields point outside the packet.
- Delivery.SendData: takes the packet as it is once an MSS option has been inserted or not; which packets get one is not told apart.
- EndToEnd.DataDispatched: what becomes of packets for the receiving host whose message would lie outside the packet; it says only that they are not `Receivable`.
- Tunnel.SendControl: messages over 1392 octets, for which the code makes an area without room for the outer header.
- ControlCodec.BuildVlenMessage: what happens when a write leaves the 256-octet buffer.
- Obfuscate.Obfuscate: packets under 20 octets, which are no IP packets, and what the loops do when the header gives more octets than the area has; nor are the contents of the scratch area afterwards stated.
- Xcbc.XcbcContext.FinalAux: makes both possible subkeys where the code makes the one it needs; the result is the same.
- ControlCodec.BuildNewKeyMessage: takes the keys as arguments; drawing and storing them is `Session.Session.BuildNewKeyMessage`.
