# Verified model of the ccxx library's codecs, checksums and protocol code

This project models the parts of the `ccxx` library that carry real algorithms and proves, with Dafny 4.11, what they
compute. Code that changes things step by step is modelled step by step (classes with the source's fields, loops with
invariants, buffers as arrays) and each such method is proved against a function that says what it should compute;
the properties of these functions are lemmas. `dafny verify dfyconfig.toml` checks everything.

- **Block hashes.** `Words`, `ByteOrder` and `BlockChain` hold what MD4, MD5 and SHA-1 share: byte orders, folding a
  compression function over 64-byte blocks, and the padding; `Quads` holds what only MD4 and MD5 share.
  `Sha1Compression`, `Md5Compression` and `Md4Compression` prove that the unrolled in-place rounds are the indexed
  loops of the RFCs. `Md4Context`, `Md5Context` and `Sha1Context` are the streaming contexts: whatever the sequence of
  updates, chaining value, tail and counters are those of the concatenated input, and finalising gives the digest of
  the padded message for every length. `CryptographicHash` wraps the three. `Md4Vector`, `Md5Vector` and `Sha1Vector`
  compute the digests of the message "abc" through the operations, from the block in `AbcBlock`, and `HashVectors`
  gives them as the RFCs print them.
- **Checksums.** `Crc8` and `Modbus` prove the table forms equal to bitwise division. `Crc8Bursts` and `ModbusBursts`
  take the registers apart into single bits and prove that no burst of up to eight (for Modbus, sixteen) bits goes
  unnoticed wherever it starts, and that one bit more can. `Crc8Errors` and `ModbusErrors` are about changes far
  apart: an odd number of changed bits never goes unnoticed, and two go unnoticed exactly when their distance is a
  multiple of 127 (for Modbus, 32767); `ModbusPowers` computes that order with polynomial products. `Bursts` says what
  these errors are.
- **Packet framing.** `PacketProtocol` is the six-state receiver and the frame format as a state machine;
  `PacketRoundTrip` proves that sender and receiver undo each other under chunking and with noise between the frames,
  `PacketStorage` says exactly which bytes and runs keep the payloads end to end and inside the buffer, and that no
  push ever changes what is recorded, and `StoredFrames` turns that into a condition on the sizes of the frames;
  `PacketClasses` are the two classes, proved to follow the state machine. A pointer is an offset into the data
  buffer, or null with what was added to it; a write through null or outside the buffer sets the machine's `fault`
  flag.
- **Codecs.** `Utf8` has the validator with its four-byte skip; `Base64Alphabet`, `Base64`, `Base64String`,
  `Base64Buffer` and `Base64Reader` the two Base64 implementations, one of them bounded and with a sentinel bit;
  `Base64Meaning` says in numbers and characters what they compute; `HexFormat` and `HexRoutines` the hexadecimal
  printer and parser driven by a format.
- **Command lines.** `Splitting`, `CommandLine` and `QuotedLines` cut a line into arguments and prove what quotes do;
  `Arguments` collects options and values in three ways, `ArgumentsMeaning` says what they are, and
  `ArgumentsRoundTrip` prints and parses a map.
- **Configuration.** `ConfigTree` and `Configuration` flatten a tree of items into entries with paths.
- **Bit buffers.** `BitBuffer` packs addresses into bits and lays out 32-bit values.

Bytes are values of a datatype around `bv8`, so that bit-level reasoning stays in small lemmas about single bytes and
words. A C string is the sequence of its characters before the zero. Input that a routine only reads is a sequence, and
`Memory` says what a caller's buffer holds after a routine has written into it.

These promises do not hold without a condition; each is stated as an equivalence:

- Frames come out as they were sent exactly when every length fits its field, all payloads fit the buffer, and no
  frame with an empty payload comes before one with a payload (`PacketRoundTrip.RoundTrip`, with the smallest failing
  exchange in `PacketRoundTrip.PayloadAfterEmptyIsLost`).
- A push keeps the receiver's promises about storage exactly when no payload byte arrives under a negative length, and
  every empty frame finds the begin pointer where the last payload ends (`PacketStorage.PushKeeps`). For whole frames:
  exactly when every empty one follows a frame that was refused for lack of room, with none stored between
  (`StoredFrames.FramesKeep`); an empty frame sent first is the smallest failing input
  (`StoredFrames.FirstEmptyBreaks`). `clear` keeps them exactly when no payload and no trailer of one is in progress
  (`PacketStorage.ClearKeeps`); in the middle of a payload it loses one byte (`PacketStorage.ClearDropsOneByte`).
- The size test of `setPack` keeps the frame inside its buffer exactly when the frame's size is below 2^31
  (`PacketClasses.SizeTestIsRight`); at a length of 2^31 - 1 it does not (`PacketClasses.LargestLengthIsLetThrough`).
- `fromBuf` tells a short buffer exactly when the length is not negative (`BitBuffer.TestIsRight`,
  `BitBuffer.MinusOnePasses`).
- The default capacity of `b64encode` holds the whole text exactly for lengths divisible by three
  (`Base64Buffer.DefaultCapacity`).
- A quoted text is one argument exactly when nothing in it closes the quotes (`QuotedLines.QuotingIsExact`), and text
  behind the closing quote at the end of a line arrives whole only if there is none (`QuotedLines.TailLosesItsLast`).
- A printed map without quotes and zeros is read back exactly when its keys are words that do not start with a dash,
  and its values are single-spaced words that are no options (`ArgumentsRoundTrip.RoundTrip`).
- The entries of a flattened configuration come in the order in which `walkItems` visits their owners exactly when
  value fields precede nested items in every item (`ConfigTree.EntryOrder`); otherwise they only ever return to an
  enclosing item (`ConfigTree.OwnersFollow`).

## Model

| member | source | states |
|---|---|---|
| `Words.SwapReadsBigEndian` | common/ccxx/cxcrc_endian.cpp:214-219 | the mask-and-shift swap of a word loaded in host order is the big-endian reading of the same four bytes |
| `Words.ByteSwapInto` | common/ccxx/cxcrc_endian.cpp:9-20 | the copy loop writes the source bytes back to front and touches nothing else |
| `Words.RolMovesBits` | common/ccxx/cxcrc.cpp:746-751 | the rotation moves bit k to place k + s, modulo 32 |
| `ByteOrder.BackwardsLittleBytes` | common/ccxx/cxcrc_endian.cpp:9-20 | swapping the stored form of a 64-bit number gives its big-endian form |
| `BlockChain.ExtendTail` | common/ccxx/cxcrc.cpp:392-396 | bytes that do not complete the open block leave the chaining value alone and only lengthen the tail |
| `BlockChain.CompleteBlock` | common/ccxx/cxcrc.cpp:398-401 | bytes that complete the open block advance the chain by exactly one compression of tail and bytes, and empty the tail |
| `BlockChain.ChainAppend` | common/ccxx/cxcrc.cpp:404-408 | folding the compression over a whole number of blocks and then over the rest is folding over both |
| `BlockChain.ZeroCountIsLeast` | common/ccxx/cxcrc.cpp:420-432 | the number of zero bytes in the padding is the least that makes marker, zeros and length end a block |
| `BlockChain.PaddedInOne` | common/ccxx/cxcrc.cpp:432-444 | when the marker leaves room for the length, the padding is one closing block |
| `BlockChain.PaddedInTwo` | common/ccxx/cxcrc.cpp:424-432 | when it does not, the open block is filled with zeros and a second block carries the length |
| `Sha1Compression.CircularHolds` | common/ccxx/cxcrc.cpp:755-762 | before round t the 16-word buffer holds, at each index modulo 16, the latest sixteen words of the 80-word schedule |
| `Sha1Compression.ScheduleFromBuffer` | common/ccxx/cxcrc.cpp:755-762 | the four words the buffer offers at offsets 13, 8, 2 and 0 give the next word of the schedule of section 6.1 of RFC 3174 |
| `Sha1Compression.ScheduleWord` | common/ccxx/cxcrc.cpp:755-762 | the in-place update returns schedule word t and leaves the buffer as round t + 1 needs it |
| `Sha1Compression.SelectForm` | common/ccxx/cxcrc.cpp:764-776 | the three-operation selection is the function of rounds 0 to 19 in section 5 of RFC 3174 |
| `Sha1Compression.MajorityForm` | common/ccxx/cxcrc.cpp:785-790 | the four-operation majority is the function of rounds 40 to 59 |
| `Sha1Compression.LogicForms` | common/ccxx/cxcrc.cpp:764-797 | each unrolled round uses the logical function and constant that the RFC assigns to its index |
| `Sha1Compression.Round0` | common/ccxx/cxcrc.cpp:764-769 | one unrolled round with renamed variables is one iteration of the A to E shuffle loop (indices 0 to 15) |
| `Sha1Compression.Round1` | common/ccxx/cxcrc.cpp:771-776 | the same for indices 16 to 19, together with the schedule update |
| `Sha1Compression.Round2` | common/ccxx/cxcrc.cpp:778-783 | the same for indices 20 to 39 |
| `Sha1Compression.Round3` | common/ccxx/cxcrc.cpp:785-790 | the same for indices 40 to 59 |
| `Sha1Compression.Round4` | common/ccxx/cxcrc.cpp:792-797 | the same for indices 60 to 79 |
| `Sha1Compression.Rounds` | common/ccxx/cxcrc.cpp:819-898 | the eighty unrolled rounds with rotating roles and the in-place schedule equal the loop of section 6.1 over the 80-word schedule, for every state and block |
| `Md5Compression.F1IsF` | common/ccxx/cxcrc.cpp:615 | the optimised F1 is F of section 3.4 of RFC 1321 |
| `Md5Compression.F2IsG` | common/ccxx/cxcrc.cpp:616 | F2, which is F1 with its arguments turned, is G |
| `Md5Compression.AuxForms` | common/ccxx/cxcrc.cpp:614-618 | each of the four macros is the auxiliary function of its round |
| `Md5Compression.Step1` | common/ccxx/cxcrc.cpp:621-622 | one MD5STEP with F1 is operation i of the indexed loop, up to the change of variable names |
| `Md5Compression.Round1` | common/ccxx/cxcrc.cpp:645-660 | the sixteen steps written out, with their words, constants and shifts, are operations 0 to 15 |
| `Md5Compression.Round2` | common/ccxx/cxcrc.cpp:662-677 | the same for operations 16 to 31 |
| `Md5Compression.Round3` | common/ccxx/cxcrc.cpp:679-694 | the same for operations 32 to 47 |
| `Md5Compression.Round4` | common/ccxx/cxcrc.cpp:696-711 | the same for operations 48 to 63 |
| `Md5Compression.Transform` | common/ccxx/cxcrc.cpp:635-717 | the transform leaves in place the chaining words that section 3.4 of RFC 1321 gives, for every state and block |
| `Md4Compression.SelectIsF` | common/ccxx/cxcrc.cpp:226 | the three-operation F is F of section 3.4 of RFC 1320 |
| `Md4Compression.Round1` | common/ccxx/cxcrc.cpp:287-305 | the sixteen steps of round 1 are operations 0 to 15 of the indexed form |
| `Md4Compression.Round2` | common/ccxx/cxcrc.cpp:307-325 | the same for round 2 with its word order and constant |
| `Md4Compression.Round3` | common/ccxx/cxcrc.cpp:327-345 | the same for round 3 |
| `Md4Compression.Transform` | common/ccxx/cxcrc.cpp:287-350 | one pass of the loop is the compression of RFC 1320 on its block |
| `Md4Context.Context.constructor` | common/ccxx/cxcrc.cpp:364-373 | a new context has absorbed nothing |
| `Md4Context.Context.Body` | common/ccxx/cxcrc.cpp:266-362 | any positive number of whole blocks is folded in, in order |
| `Md4Context.Advance` | common/ccxx/cxcrc.cpp:381-384 | the addition with its wrap test keeps lo and hi at the byte count split at bit 29 |
| `Md4Context.Context.Update` | common/ccxx/cxcrc.cpp:375-411 | after any updates of any lengths: chaining value, buffered tail and counters are those of the concatenated input |
| `Md4Context.LengthWords` | common/ccxx/cxcrc.cpp:434-442 | the eight stored bytes are the bit length modulo 2^64, low byte first |
| `Md4Context.Context.Final` | common/ccxx/cxcrc.cpp:413-464 | the sixteen bytes are the MD4 digest of everything absorbed, for every length |
| `Md5Context.CarryPair` | common/ccxx/cxcrc.cpp:542-544 | the two counter words with their carry keep encoding the byte count modulo 2^64 |
| `Md5Context.Context.Update` | common/ccxx/cxcrc.cpp:535-571 | the streaming invariant for MD5, for every sequence of updates |
| `Md5Context.OrDisjoint` | common/ccxx/cxcrc.cpp:602 | joining the shifted high word and the top bits of the low one by `or` is adding them |
| `Md5Context.LengthWords` | common/ccxx/cxcrc.cpp:600-602 | the two stored words are the two halves of the bit length modulo 2^64 |
| `Md5Context.Context.Final` | common/ccxx/cxcrc.cpp:577-608 | the sixteen bytes are the MD5 digest of everything absorbed, for every length |
| `Sha1Context.State.ProcessChunk` | common/ccxx/cxcrc.cpp:802-912 | loading, byte swapping, the rounds and the final additions are the compression function of RFC 3174 |
| `Sha1Context.State.Update` | common/ccxx/cxcrc.cpp:925-949 | the streaming invariant for SHA-1, for every sequence of updates |
| `Sha1Context.PaddedInPieces` | common/ccxx/cxcrc.cpp:957-971 | the marker, the one or two runs of zeros and the length that the finaliser feeds are the padding of section 4 of RFC 3174 |
| `Sha1Context.State.Finalize` | common/ccxx/cxcrc.cpp:951-977 | the registers are those after the whole padded message, in both cases of the marker's position |
| `Sha1Context.State.ToHash` | common/ccxx/cxcrc.cpp:979-986 | the twenty bytes are the registers, most significant byte first |
| `CryptographicHash.CryptographicHash.AddData` | common/ccxx/cxcrc.cpp:1107-1122 | adding data appends to what the object has absorbed, and drops an earlier digest |
| `CryptographicHash.Md4Result` | common/ccxx/cxcrc.cpp:1147-1152 | finalising a copy gives the MD4 digest and leaves the context as it was |
| `CryptographicHash.Md5Result` | common/ccxx/cxcrc.cpp:1154-1159 | the same for MD5 |
| `CryptographicHash.Sha1Result` | common/ccxx/cxcrc.cpp:1161-1167 | the same for SHA-1 |
| `CryptographicHash.CryptographicHash.Result` | common/ccxx/cxcrc.cpp:1140-1170 | the result is the standard's digest of all data since the last reset; asking for it changes nothing, so it can be repeated and followed by more data |
| `CryptographicHash.CryptographicHash.Hash` | common/ccxx/cxcrc.cpp:1175-1180 | the one-shot form gives the same digest |
| `CryptographicHash.Md5Lines` | common/ccxx/cxcrc.cpp:1208-1225 | the digest of a list of pieces depends on their concatenation alone |
| `HashVectors.HashesOfAbc` | common/ccxx/cxcrc.cpp:1140-1170 | the digests of the message abc are those of section A.5 of RFC 1320, section A.5 of RFC 1321 and section 7.3 of RFC 3174, computed through the operations from the padded block |
| `Crc8.TableIsEightShifts` | common/ccxx/cxcrc.cpp:8-41 | each of the 256 entries is eight shift-and-xor steps of its index |
| `Crc8.BitStepsAreShifts` | common/ccxx/cxcrc.cpp:1286-1312 | remainder and unread bits together are linear over exclusive or, so feeding bits singly equals adding the byte first |
| `Crc8.TableStep` | common/ccxx/cxcrc.cpp:155-158 | one table lookup is eight bits of polynomial division by x^8 + x^2 + x + 1 |
| `Crc8.CalcCRC8` | common/ccxx/cxcrc.cpp:151-160 | the table form gives the inverted remainder of bitwise division |
| `Crc8.Crc8Formula` | common/ccxx/cxcrc.cpp:1286-1312 | the formula form gives the same, so the two agree on every byte string |
| `Crc8.StepIsInjective` | common/ccxx/cxcrc.cpp:155-158 | a step is injective in the register for a fixed byte and in the byte for a fixed register |
| `Crc8.OneByteChangeIsDetected` | common/ccxx/cxcrc.cpp:151-160 | messages of any length that differ in exactly one byte never share a checksum |
| `Crc8Bursts.CheckValue` | common/ccxx/cxcrc.cpp:151-160 | the remainder of the digits 1 to 9 is 0xF4, and the value returned 0x0B |
| `Crc8Bursts.RegisterIsBitRun` | common/ccxx/cxcrc.cpp:151-160 | the remainder of a message is that of its bits, divided one at a time, most significant first in each byte |
| `Crc8Bursts.RunIsShifts` | common/ccxx/cxcrc.cpp:155-158 | up to eight bits one at a time, starting anywhere in a byte, are one addition to the register and as many shifts |
| `Crc8Bursts.BurstIsDetected` | common/ccxx/cxcrc.cpp:151-160 | different messages of one length whose bits differ only within eight consecutive ones, at any bit position, never share a checksum |
| `Crc8Bursts.NineBitsCanEscape` | common/ccxx/cxcrc.cpp:151-160 | eight is the limit: two messages that differ in a burst of nine bits and share their checksum |
| `Crc8Errors.RunParity` | common/ccxx/cxcrc.cpp:151-160 | the parity of the remainder follows the parity of the bits divided |
| `Crc8Errors.OddChangesAreDetected` | common/ccxx/cxcrc.cpp:151-160 | messages of one length whose bits differ in an odd number of places, spread anywhere, never share a checksum |
| `Crc8Errors.ReturnsExactly` | common/ccxx/cxcrc.cpp:155-158 | shifted alone, the top bit comes back to its place after d steps if and only if d is a multiple of 127 |
| `Crc8Errors.TwoChangesAreDetected` | common/ccxx/cxcrc.cpp:151-160 | two changed bits in messages of any length go unnoticed if and only if their distance is a multiple of 127 |
| `Modbus.TablesAreEightShifts` | common/ccxx/cxcrc.cpp:81-125 | every pair of table entries is eight steps of the reflected register with polynomial 0xA001 |
| `Modbus.HighHalfPassesThrough` | common/ccxx/cxcrc.cpp:201-203 | the high half of the register comes out unchanged in the low half after a byte, which is why two byte tables suffice |
| `Modbus.TableStep` | common/ccxx/cxcrc.cpp:201-203 | the pair hi, lo follows the 16-bit register through a byte |
| `Modbus.CalcModbus` | common/ccxx/cxcrc.cpp:193-207 | the value is the byte-swapped register of the bitwise CRC of section 6.2.2 of MODBUS over Serial Line V1.02 |
| `Modbus.ZeroResidue` | common/ccxx/cxcrc.cpp:193-207 | over a message and two more bytes the value is 0 exactly when these bytes are the message's value, high byte first |
| `Modbus.SuffixKeepsApart` | common/ccxx/cxcrc.cpp:199-204 | registers that differ stay different under any further bytes |
| `Modbus.OneByteChangeIsDetected` | common/ccxx/cxcrc.cpp:199-206 | messages of any length that differ in exactly one byte never share a value |
| `Modbus.AdjacentChangeIsDetected` | common/ccxx/cxcrc.cpp:199-206 | nor do messages that differ only in two neighbouring bytes |
| `ModbusBursts.CheckValue` | common/ccxx/cxcrc.cpp:193-207 | the register after the digits 1 to 9 is 0x4B37, and the value returned 0x374B |
| `ModbusBursts.RegisterIsBitRun` | common/ccxx/cxcrc.cpp:199-204 | the register of a message is the reflected division of its bits one at a time, least significant first in each byte as the line sends them |
| `ModbusBursts.RunIsShifts` | common/ccxx/cxcrc.cpp:201-203 | up to sixteen bits one at a time, starting anywhere in a byte, are one addition to the register and as many shifts |
| `ModbusBursts.BurstIsDetected` | common/ccxx/cxcrc.cpp:193-207 | different messages of one length whose bits differ only within sixteen consecutive ones, at any bit position and over up to three bytes, have different values |
| `ModbusBursts.SeventeenBitsCanEscape` | common/ccxx/cxcrc.cpp:193-207 | sixteen is the limit: two messages that differ in a burst of seventeen bits and have the same value |
| `ModbusErrors.RunParity` | common/ccxx/cxcrc.cpp:199-204 | the parity of the register follows the parity of the bits divided |
| `ModbusErrors.OddChangesAreDetected` | common/ccxx/cxcrc.cpp:193-207 | messages of one length whose bits differ in an odd number of places, spread anywhere, have different values |
| `ModbusPowers.ShiftsAreTimes` | common/ccxx/cxcrc.cpp:201-203 | n shifts of a register multiply it, as a polynomial, by the n-th power of x modulo the generator |
| `ModbusPowers.ReturnsExactly` | common/ccxx/cxcrc.cpp:201-203 | shifted alone, a bit comes back to its place after d steps if and only if d is a multiple of 32767 |
| `ModbusErrors.TwoChangesAreDetected` | common/ccxx/cxcrc.cpp:193-207 | two changed bits in messages of any length go unnoticed if and only if their distance is a multiple of 32767 |
| `Utf8.FrontDecodes` | common/ccxx/cxencoding.cpp:16104-16141 | whatever the byte tests accept at the front is the encoding of one scalar value |
| `Utf8.EncodedIsFront` | common/ccxx/cxencoding.cpp:16104-16141 | the tests accept the encoding of every scalar value, whatever follows it |
| `Utf8.WellFormedIsUtf8` | common/ccxx/cxencoding.cpp:16104-16141 | the tests, repeated, accept exactly the encodings of sequences of scalar values (sections 3 and 4 of RFC 3629) |
| `Utf8.EncodedBytes` | common/ccxx/cxencoding.cpp:16104-16141 | which values there are and the bytes of each, in the arithmetic of the table in section 3 of RFC 3629 |
| `Utf8.FourAsciiBytes` | common/ccxx/cxencoding.cpp:16098-16101 | the masked 32-bit test implies four ASCII bytes |
| `Utf8.MultiByte` | common/ccxx/cxencoding.cpp:16112-16141 | the tests on a non-ASCII byte skip exactly an accepted sequence |
| `Utf8.IsValidUtf8` | common/ccxx/cxencoding.cpp:16094-16145 | true exactly when the bytes are the encoding of some sequence of Unicode scalar values, with the four-byte skip |
| `Utf8.IsUtf8` | common/ccxx/cxencoding.cpp:16033-16087 | the older check accepts by size classes and continuation bits only, and a cut-off last sequence |
| `Utf8.LooseMeans` | common/ccxx/cxencoding.cpp:16033-16087 | the texts the older check accepts are exactly those made of sequences by size class and continuation range, and nothing or a cut-off sequence at the end |
| `Utf8.LooseOnValidText` | common/ccxx/cxencoding.cpp:16033-16087 | on valid text the older check answers whether there is no four-byte sequence |
| `PacketProtocol.LengthRoundTrip` | common/ccxx/cxpacket.h:85-92 | a length survives the trip through its field and the 32-bit int exactly when it is below the field's limit |
| `PacketProtocol.LengthArrives` | common/ccxx/cxpacket.h:85-92 | what arrives is the length modulo the width that reaches the int, and negative from the limit on |
| `PacketProtocol.LengthBytes` | common/ccxx/cxpacket.h:237 | the k-th byte of the length field, where it stands in the frame, is the payload's size divided by 256^k, modulo 256 |
| `PacketProtocol.LengthRead` | common/ccxx/cxpacket.h:89 | a field is read as the sum of its bytes times 256^k over the bytes that reach the int, with the sign of the field's type and of the int |
| `PacketProtocol.FrameFields` | common/ccxx/cxpacket.h:232-247 | where each field stands in a frame |
| `PacketRoundTrip.FieldDone` | common/ccxx/cxpacket.h:71-94 | a whole field moves the machine on and leaves nothing behind in the field buffer |
| `PacketRoundTrip.DonePlain` | common/ccxx/cxpacket.h:52-157 | a whole frame with a payload that fits appends one packet with its fields, pointing at its payload behind the earlier ones |
| `PacketRoundTrip.DoneEmpty` | common/ccxx/cxpacket.h:102-107 | a frame without payload appends a packet that inherits the previous begin pointer |
| `PacketRoundTrip.DoneFault` | common/ccxx/cxpacket.h:108-134 | a payload whose predecessors never got an address is written through a null pointer |
| `PacketRoundTrip.Busy` | common/ccxx/cxpacket.h:58-155 | inside a frame the machine never searches for a head, so head patterns in payloads are harmless |
| `PacketRoundTrip.PushingIsChunkBlind` | common/ccxx/cxpacket.h:52-157 | however a signal of frames and noise is cut, short of cutting a head, the receiver ends where the whole frames take it, provided no noise shows a head, alone or with what follows it |
| `PacketRoundTrip.RoundTrip` | common/ccxx/cxpacket.h:52-157 | frames with noise between them that shows no head, pushed in any chunks that keep heads whole: the receiver holds exactly the sent packets in order if and only if every length fits its field, the payloads fit the buffer together, and no empty payload comes before a payload |
| `PacketRoundTrip.FramesRoundTrip` | common/ccxx/cxpacket.h:52-157 | the same for frames end to end, with no condition on the bytes |
| `PacketRoundTrip.OnlyPossibleIsReceived` | common/ccxx/cxpacket.h:52-157 | whatever bytes arrive, no message is ever received whose length its field cannot carry, nor more payload than the buffer holds |
| `PacketRoundTrip.PayloadAfterEmptyIsLost` | common/ccxx/cxpacket.h:102-118 | the smallest exchange that goes wrong: an empty payload and then a payload |
| `PacketRoundTrip.FreshIsTidy` | common/ccxx/cxpacket.h:30-40 | a new receiver is ready for the round trip |
| `PacketRoundTrip.ClearedIsTidy` | common/ccxx/cxpacket.h:172-188 | so is one cleared between frames |
| `PacketStorage.PushKeeps` | common/ccxx/cxpacket.h:52-157 | for all bytes, a push keeps the promises about storage (nothing written outside the buffer; payloads end to end in it; the write pointer at the end of what is stored) if and only if no payload byte arrives under a negative length and every empty frame that is completed finds the begin pointer where the last payload ends; the promises restrict no length |
| `PacketStorage.BrokenStays` | common/ccxx/cxpacket.h:52-157 | whatever bytes follow, a broken promise is never mended by a push |
| `PacketStorage.PushesKeepRecords` | common/ccxx/cxpacket.h:52-157 | from the invariant, whatever bytes arrive in however many pushes, zero and negative lengths included: no packet and no byte of a payload recorded before changes |
| `PacketStorage.RecordedPayloadsKept` | common/ccxx/cxpacket.h:129-138 | a recorded payload's bytes are the same after any push |
| `PacketStorage.RecordedPayloadsDisjoint` | common/ccxx/cxpacket.h:108-118 | two recorded payloads never overlap |
| `PacketStorage.ClearMeans` | common/ccxx/cxpacket.h:172-188 | a payload in progress moves to the front with its bytes, and the end pointer is set one byte short; otherwise the pointers become null; the packets go |
| `PacketStorage.ClearKeeps` | common/ccxx/cxpacket.h:172-188 | clearing keeps the promises exactly when no payload and no trailer of one is in progress |
| `PacketStorage.ClearDropsOneByte` | common/ccxx/cxpacket.h:175-181 | in the middle of a payload, clearing makes the receiver expect one byte too few |
| `PacketStorage.ApplyKeeps` | common/ccxx/cxpacket.h:52-188 | one push or clear keeps the promises exactly when its bytes are good where they are reached or, for a clear, no payload or trailer of one is in progress |
| `PacketStorage.RunKeeps` | common/ccxx/cxpacket.h:52-188 | a run of pushes and clears keeps the promises at every step if and only if each of its operations is sound where it is applied |
| `PacketStorage.FreshIsInvariant` | common/ccxx/cxpacket.h:30-40 | the invariant holds at the start |
| `StoredFrames.EmptyFrame` | common/ccxx/cxpacket.h:102-107 | a whole empty frame keeps the promises if and only if the write pointer is set and the begin pointer stands where the last payload ends; it then stands there again |
| `StoredFrames.PlainFrame` | common/ccxx/cxpacket.h:52-157 | a payload for which there is room keeps them, and leaves the begin pointer where the next empty frame would break them |
| `StoredFrames.RefusedFrame` | common/ccxx/cxpacket.h:108-126 | a payload for which there is no room keeps them, and leaves the begin pointer where an empty frame does no harm |
| `StoredFrames.NegativeFrame` | common/ccxx/cxpacket.h:119-138 | a negative length breaks them with the first byte after the body field |
| `StoredFrames.LongPayloadsArriveNegative` | common/ccxx/cxpacket.h:85-92 | payload sizes from the field's limit up to its width arrive negative |
| `StoredFrames.FramesKeep` | common/ccxx/cxpacket.h:52-157 | on a new receiver any list of frames keeps the promises throughout if and only if, in the list of sizes, every empty payload follows a refused one with no stored payload between |
| `StoredFrames.FirstEmptyBreaks` | common/ccxx/cxpacket.h:102-118 | a single empty frame on a new receiver breaks them; after a refused frame the same empty frame does not |
| `PacketClasses.ReceivePacket.constructor` | common/ccxx/cxpacket.h:30-50 | a new object is the machine's initial state, with no packets |
| `PacketClasses.ReceivePacket.FieldByte` | common/ccxx/cxpacket.h:71-94 | a byte in a field state steps the object's fields as the machine says |
| `PacketClasses.ReceivePacket.BodyField` | common/ccxx/cxpacket.h:101-126 | the placement of the payload, with all its branches |
| `PacketClasses.ReceivePacket.Push` | common/ccxx/cxpacket.h:52-157 | for all bytes, a push in place is the machine fed with them, including the look-ahead for a head; false is returned exactly where the code would write outside its buffer |
| `PacketClasses.ReceivePacket.Clear` | common/ccxx/cxpacket.h:172-188 | clear in place is the machine's clear |
| `PacketClasses.SendPacket.SetPack` | common/ccxx/cxpacket.h:227-249 | for every 32-bit length: refuses negative lengths and frames over 4096 bytes unchanged, unless the frame's size reaches 2^31, which is when the code leaves its buffer; otherwise the buffer starts with the frame of front, length, body, payload and the checksum of body and payload, and the rest is untouched; with a null payload pointer the trailer follows the body and covers what the buffer held |
| `PacketClasses.SizeTestIsRight` | common/ccxx/cxpacket.h:229-231 | for every non-negative length, the tests on the size let through exactly the frames that fit the buffer if and only if the size is below 2^31 |
| `PacketClasses.LargestLengthIsLetThrough` | common/ccxx/cxpacket.h:229-231 | the length 2^31 - 1 passes the tests, whatever the layout |
| `Base64Alphabet.TableIsLetter` | common/ccxx/cxencoding.cpp:15703-15709 | the table holds the alphabet of section 4 of RFC 4648 |
| `Base64Alphabet.ReverseInvertsLetter` | common/ccxx/cxencoding.cpp:15713-15742 | the reverse table inverts it |
| `Base64Alphabet.ReverseKnowsLetters` | common/ccxx/cxencoding.cpp:15713-15742 | and marks every character outside it with a negative entry |
| `Base64.UnpackedSextets` | common/ccxx/cxencoding.cpp:15964-15981 | grouping loses nothing: the sextets of any byte string give its bytes back |
| `Base64.EncodedShape` | common/ccxx/cxencoding.cpp:15894-15925 | an encoding is letters and then padding, a multiple of four long, without zeros |
| `Base64Meaning.EncodingMeans` | common/ccxx/cxencoding.cpp:15896-15922 | every three bytes become the characters of the alphabet at their four six-bit numbers, one or two at the end two or three characters and padding |
| `Base64String.Pieces` | common/ccxx/cxencoding.cpp:15896-15899 | the four table lookups on shifted bytes are the letters of the 24-bit group |
| `Base64String.Base64Encode` | common/ccxx/cxencoding.cpp:15872-15925 | the result is the encoding of section 4 of RFC 4648 |
| `Base64String.FinishCompletes` | common/ccxx/cxencoding.cpp:15964-15981 | completing the held byte with the next sextet gives the byte the two sextets share |
| `Base64String.Base64Decode` | common/ccxx/cxencoding.cpp:15928-16002 | the result is the bytes of the letters before the first zero, or nothing when a lone padding character follows one letter of a group |
| `Base64Meaning.DecodedMeans` | common/ccxx/cxencoding.cpp:15943-15981 | text without zeros decodes to nothing if a padding character without another behind it comes after one letter of a group, and else to the bytes its letters complete |
| `Base64Meaning.DecodedUpToZero` | common/ccxx/cxencoding.cpp:15943 | what comes after a zero does not count |
| `Base64String.EncodingsAreShortEnough` | common/ccxx/cxencoding.cpp:15935-15936 | the decoder takes the encoding of everything the encoder takes |
| `Base64String.RoundTrip` | common/ccxx/cxencoding.cpp:15872-16014 | decoding an encoding returns the bytes, zeros included, for every byte string |
| `Base64String.EncodedIsInjective` | common/ccxx/cxencoding.cpp:15872-15925 | distinct byte strings never share an encoding |
| `Base64String.OtherCharactersAreIgnored` | common/ccxx/cxencoding.cpp:15943-15962 | on text without padding or zeros, decoding equals decoding with all other characters removed |
| `Base64Buffer.FittingIsLargest` | common/ccxx/cxstringc.cpp:407-446 | the number of bytes taken is the largest cut at a group's end, or the whole, whose text and final zero fit |
| `Base64Buffer.DefaultCapacity` | common/ccxx/cxstringc.cpp:407-408 | the default capacity holds the whole encoding exactly when the length is a multiple of three |
| `Base64Buffer.B64encode` | common/ccxx/cxstringc.cpp:401-452 | writes the encoding of exactly the bytes that fit and a zero, never more than the capacity, and touches nothing beyond |
| `Base64Reader.BuildDecoder` | common/ccxx/cxstringc.cpp:462-466 | the two loops build the table that maps letters to values and everything else to 64 |
| `Base64Reader.ShiftedPacked` | common/ccxx/cxstringc.cpp:494 | shifting in a value keeps the accumulator at 2^(6k) plus the pending sextets |
| `Base64Reader.SentinelTells` | common/ccxx/cxstringc.cpp:475-495 | the three tested bits tell how many sextets are pending |
| `Base64Reader.Extracted` | common/ccxx/cxstringc.cpp:479-501 | the shifts and masks cut out exactly the bytes the pending sextets complete |
| `Base64Reader.Flush` | common/ccxx/cxstringc.cpp:473-490 | at a padding character the pending one or two bytes are written if they fit |
| `Base64Reader.B64decode` | common/ccxx/cxstringc.cpp:454-508 | the buffer receives everything up to the stopping character if padding closes it and it fits, and else the whole groups that fit |
| `Base64Meaning.RecoveredMeans` | common/ccxx/cxstringc.cpp:454-508 | letters up to the first other character: all their bytes if that is a padding character and they fit, else the whole groups that fit |
| `Base64Reader.RoundTrip` | common/ccxx/cxstringc.cpp:401-508 | reading an encoding gives the bytes back exactly when they fit |
| `Base64Reader.WrittenThenRead` | common/ccxx/cxstringc.cpp:401-508 | what the bounded writer leaves in memory, for any capacity, reads back as the bytes it took exactly when the reader has room for them |
| `Base64Reader.DecodersAgree` | common/ccxx/cxstringc.cpp:454-508 | both decoders recover the same bytes from an encoding |
| `Base64Reader.DecodersOnLetters` | common/ccxx/cxstringc.cpp:492-507 | on bare letters they agree exactly when no byte of a last partial group is complete |
| `HexFormat.DumpReadsBack` | common/ccxx/cxstringc.cpp:332-396 | reading a dump with its own format accepts all of it and restores the bytes it took, for every format |
| `HexFormat.PairIsLower` | common/ccxx/cxstringc.cpp:352-389 | printing a parsed pair gives the pair back exactly when both are lower-case hexadecimal digits |
| `HexFormat.PairDigits` | common/ccxx/cxstringc.cpp:352 | a byte is printed as its two digits of 0123456789abcdef, the more significant one first |
| `HexFormat.UnpairDigits` | common/ccxx/cxstringc.cpp:366-372 | two digits of either case are read as sixteen times the first and the second |
| `HexFormat.UnpairNumber` | common/ccxx/cxstringc.cpp:366-390 | any two characters are read as sixteen times the number of the first and that of the second, modulo 256 |
| `HexFormat.FormatMeans` | common/ccxx/cxstringc.cpp:309-330 | digits in a format are a decimal number of bytes, cut to a long and then to an unsigned int, and any other character stands for itself |
| `HexFormat.StopsAtDifference` | common/ccxx/cxstringc.cpp:369-396 | reading stops at the first plain character that differs, with the bytes and the count of characters before it |
| `HexFormat.ParsedDumpsBack` | common/ccxx/cxstringc.cpp:332-396 | dumping what was read restores the text exactly when the text was laid out by the format in lower case |
| `HexRoutines.HexSize` | common/ccxx/cxstringc.cpp:309-330 | the count is the width of the format, modulo 2^32 |
| `HexRoutines.CountMeans` | common/ccxx/cxstringc.cpp:309-330 | counts are modulo 2^32 |
| `HexRoutines.HexDump` | common/ccxx/cxstringc.cpp:332-359 | the buffer receives the text of the format and the bytes and a zero; the count is the text's length modulo 2^32 |
| `HexRoutines.HexPack` | common/ccxx/cxstringc.cpp:369-396 | the bytes up to the first differing character are stored, and the characters accepted are counted |
| `HexRoutines.RoundTrip` | common/ccxx/cxstringc.cpp:309-396 | hexpack reads back from memory what hexdump left there, and the text's length, the accepted length and the format's width are equal |
| `Splitting.WordsSplit` | common/ccxx/cxarguments.cpp:79-89 | splitting at a space splits into the words of both sides |
| `Splitting.WordsOfJoin` | common/ccxx/cxarguments.cpp:79-89 | splitting a join returns the words |
| `Splitting.JoinOfWords` | common/ccxx/cxstring.cpp:1162-1175 | joining the words of a text returns it exactly when it has no space at its ends and no two together |
| `Splitting.JoinStrings` | common/ccxx/cxstring.cpp:1162-1175 | the loop computes the join |
| `CommandLine.FindFirstQuote` | common/ccxx/cxarguments.cpp:48-59 | the position is the first single or double quote without a backslash before it, or -1 |
| `CommandLine.Cut` | common/ccxx/cxarguments.cpp:94-148 | the plain words before the argument, the argument around the quotes and the text left to parse, for every line with or without quotes, closed or not, escaped or not |
| `CommandLine.ArgvSplit.SplitBySpace` | common/ccxx/cxarguments.cpp:79-89 | the non-empty stretches between spaces are appended |
| `CommandLine.ArgvSplit.ParseRest` | common/ccxx/cxarguments.cpp:94-158 | the recursion appends exactly the arguments of the line, for every line and whatever characters the search for a closing quote finds behind its set |
| `QuotedLines.WordsExactlyUnquoted` | common/ccxx/cxarguments.cpp:94-158 | a line is split into its words if and only if every single or double quote in it comes right after a backslash, whatever follows the character set in memory |
| `QuotedLines.ArgumentsAreFilled` | common/ccxx/cxarguments.cpp:153-154 | no argument is ever empty |
| `QuotedLines.SplitQuoted` | common/ccxx/cxarguments.cpp:107-141 | whatever lies behind the character set in memory: what leads to a quote, the text up to the quote that closes it, and what follows up to a space are one argument, nothing at all if the text is empty; at the line's end the last character that follows is lost |
| `QuotedLines.SplitOpen` | common/ccxx/cxarguments.cpp:122-126 | a quote that nothing closes makes one argument of what leads to it and the rest of the line |
| `QuotedLines.TypedLine` | common/ccxx/cxarguments.cpp:94-158 | any list of bare words and of arguments with a part between single or double quotes, none of which holds an open character of the set that the search finds in memory when it reaches it, typed with spaces between them, is split into exactly the texts meant |
| `QuotedLines.TailLosesItsLast` | common/ccxx/cxarguments.cpp:114-121 | whatever lies behind the set: text after the closing quote of such a text up to the line's end arrives whole exactly when it is empty |
| `QuotedLines.QuotingIsExact` | common/ccxx/cxarguments.cpp:94-158 | whatever lies behind the set: a text between two single or two double quotes comes out as itself if and only if it is not empty, does not end in a backslash, and every such quote or other character of the set in it comes right after a backslash |
| `Arguments.LastSectionWins` | common/ccxx/cxarguments.cpp:383-440 | the string map's domain is the set of recorded keys, and each value is the join of the key's last section |
| `Arguments.MapsAgree` | common/ccxx/cxarguments.cpp:462-541 | the string map and the vector map have the same keys, and each string is the join of the vector |
| `Arguments.LastFilledWins` | common/ccxx/cxarguments.cpp:543-584 | argsToMapVector holds exactly the keys that ever had values, each with the last values it had |
| `Arguments.FilledOrNot` | common/ccxx/cxarguments.cpp:543-584 | the two vector maps are equal exactly when no key was last given without values |
| `Arguments.ArgsToMapString` | common/ccxx/cxarguments.cpp:383-440 | the loop builds the string map of the argument vector's sections |
| `Arguments.ArgsToMapVector` | common/ccxx/cxarguments.cpp:543-584 | the loop builds the vector map that skips empty sections |
| `Arguments.Record.Init` | common/ccxx/cxarguments.cpp:462-541 | the file-level record gets the same string map, the vector map, the keys in order and the rendered line |
| `ArgumentsMeaning.KeyOfNames` | common/ccxx/cxarguments.cpp:337-344 | the key is what follows one dash or two |
| `ArgumentsMeaning.SectionsMean` | common/ccxx/cxarguments.cpp:383-440 | flattened, the sections are the arguments from the first dashed one on, divided at the dashed ones |
| `ArgumentsMeaning.RenderedMeans` | common/ccxx/cxarguments.cpp:462-541 | the line that init keeps is the recorded sections' arguments, each after a space |
| `ArgumentsMeaning.KeyListMeans` | common/ccxx/cxarguments.cpp:462-541 | the key list has one key for each recorded section, in order |
| `ArgumentsMeaning.LastVectorWins` | common/ccxx/cxarguments.cpp:462-541 | the vector map has the recorded keys, each with the values of its last section |
| `ArgumentsRoundTrip.ArgsToString` | common/ccxx/cxarguments.cpp:305-318 | the loop prints option, key, space, value for every key and drops the last space |
| `ArgumentsRoundTrip.PrintedMeans` | common/ccxx/cxarguments.cpp:305-318 | the printed text is a dash, the key, a space and the value for each key, with a space between any two |
| `ArgumentsRoundTrip.ParseCommandLine` | common/ccxx/cxarguments.cpp:372-381 | on every line the map is that of the line's arguments and the name is the first of them |
| `ArgumentsRoundTrip.CStringMeans` | common/ccxx/cxarguments.cpp:372-381 | an argument counts up to its first zero |
| `ArgumentsRoundTrip.WordsOfPrinted` | common/ccxx/cxarguments.cpp:305-318 | the printed text is cut into the arguments it was made of |
| `ArgumentsRoundTrip.RoundTrip` | common/ccxx/cxarguments.cpp:305-381 | parsing a program's name and a printed map without quotes and zeros gives the name back; and the map if and only if its keys are words without a dash in front and its values are single-spaced words that are no options, in whatever order the keys are visited |
| `ConfigTree.WalkAscends` | common/ccxx/configuration.h:542-573 | walkItems visits items in ascending order of their addresses, so none twice |
| `ConfigTree.WalkIsComplete` | common/ccxx/configuration.h:542-573 | and visits every item |
| `ConfigTree.WalkInFieldOrder` | common/ccxx/configuration.h:542-573 | the walk begins with the item, and visits fields in order of declaration and array items by index, at every depth |
| `ConfigTree.LeavesAscend` | common/ccxx/configuration.h:711-741 | value fields are emitted in ascending order of their addresses, so none twice |
| `ConfigTree.LeavesAreComplete` | common/ccxx/configuration.h:711-741 | and every value field is emitted |
| `ConfigTree.LeavesInFieldOrder` | common/ccxx/configuration.h:711-741 | value fields come in order of declaration, in an array item by item, at every depth |
| `ConfigTree.OwnersFollow` | common/ccxx/configuration.h:711-741 | the owners of the entries follow the walk, except that they may return to an enclosing item |
| `ConfigTree.OwnersInWalk` | common/ccxx/configuration.h:542-741 | the walk visits the owners of any two entries, the second after the first unless it is the same or encloses it |
| `ConfigTree.EntryOrder` | common/ccxx/configuration.h:542-741 | they follow the walk throughout exactly when no item has a value field after a field that holds values further down |
| `Configuration.CollectAllConfigs` | common/ccxx/configuration.h:711-741 | appends exactly one entry for each value field, with the path of its item, its key and its text |
| `Configuration.WalkItems` | common/ccxx/configuration.h:542-573 | the callback sees exactly the items, in the order of the walk |
| `Configuration.ToLines` | common/ccxx/configuration.h:743-754 | one line for each value field: full path, equals sign, text |
| `Configuration.DecimalIsInjective` | common/ccxx/configuration.h:732 | distinct array indices are written differently |
| `Configuration.DecimalReadsBack` | common/ccxx/configuration.h:732 | an index is written in decimal digits that read back as the index, without leading zeros |
| `Configuration.PathStep` | common/ccxx/configuration.h:713-738 | a path is made of keys with dots between them and indices in brackets; an entry has its item's path, its key and its text |
| `Configuration.SegmentsDiffer` | common/ccxx/configuration.h:717-732 | a path segment tells the field and the array index |
| `Configuration.PathsTellApart` | common/ccxx/configuration.h:711-741 | with plain keys that differ within each item, value fields with equal paths are the same field |
| `Configuration.FlatteningIsLossless` | common/ccxx/configuration.h:711-754 | each value field has exactly one place in the list, and no two entries share their full path |
| `BitBuffer.OneBitSet` | common/ccxx/cxbuffer.cpp:12-25 | setting a bit makes it true and leaves the others |
| `BitBuffer.BitsAreBinary` | common/ccxx/cxbuffer.cpp:22-25 | bit n of a byte is its binary digit of weight 2^n |
| `BitBuffer.DivBig` | common/ccxx/cxbuffer.cpp:27-32 | the rounded-up division is the ceiling, for quantities of either sign |
| `BitBuffer.Index` | common/ccxx/cxbuffer.cpp:34-42 | the byte and bit of an address, or -1 before the beginning, for distances that an int can hold |
| `BitBuffer.ToBuffer` | common/ccxx/cxbuffer.cpp:93-119 | over a range the buffer has as many bytes as needed, and bit k tells whether the map holds a non-zero value at min + k, for every k |
| `BitBuffer.ToBuf` | common/ccxx/cxbuffer.cpp:244-280 | each mode stores the value's four bytes in its own order |
| `BitBuffer.FromBuf` | common/ccxx/cxbuffer.cpp:218-242 | refuses a missing buffer and lengths 0 to 3, and no negative length; otherwise returns the value whose bytes the buffer holds in the mode's order |
| `BitBuffer.TestIsRight` | common/ccxx/cxbuffer.cpp:221 | the test, which compares with an unsigned size, tells whether there are four bytes if and only if the length is not negative |
| `BitBuffer.MinusOnePasses` | common/ccxx/cxbuffer.cpp:221 | a length of -1 passes |
| `BitBuffer.BytesDetermine` | common/ccxx/cxbuffer.cpp:218-280 | bytes in one mode determine the value, so storing and loading undo each other |
| `BitBuffer.ModesMean` | common/ccxx/cxbuffer.cpp:218-280 | the bytes of a value in modes 0 to 3 are those of the orders 0123, 1032, 2301 and 3210, and 0123 in any other mode |

## Left out

- Sockets, processes, named mutexes, shared memory, the SQLite wrapper, file access, assertions and GUIDs: calls into
  code outside the modelled files.
- GB2312 tables and transcoding in `common/ccxx/cxencoding.cpp`: claims about them would rest on the data alone.
- `calcCRC16`, the plain sums and the exclusive-or codec: the first mixes a most-significant-bit-first table with a
  least-significant-bit-first update and follows no standard; the others would only add easy members.
- The MD5 sine constants are given as a table and not derived from the sine.
- Host byte order: little-endian, as on x86; the other branches of `common/ccxx/cxcrc_endian.cpp`, `byteSwap` and the
  MD4 block cache are not modelled.
- Wiping of contexts and stack copies after use, which no result depends on. A context is used up by its finaliser.
- The union of the three contexts in `CryptographicHash` is three references of which one is used. A single update is
  shorter than 2^32 bytes for MD4 and MD5 and than 2^63 for SHA-1; the public call passes a non-negative `int`.
- `md5HexCode`, `file2md5` and the file comparison: text and file wrappers around the modelled digest.
- Uninitialised members of the packet receiver start as empty fields and a zero length; `setBufferSize` on a receiver
  in use is left out, because it would leave pointers into a freed buffer.
- PacketRoundTrip.RoundTrip: noise that shows a head is outside it, and so is a head split across two pushes, because
  the source looks for a head with one read at the current position. That read may pass the end of the pushed chunk;
  the bytes found there are a parameter, `beyond`, and nothing is assumed of them.
- PacketClasses.ReceivePacket.Push: what the source does after a write through null or outside the buffer is not
  defined; the model stops there and returns false.
- PacketClasses.ReceivePacket.Clear: requires that a payload in progress lies in the buffer, which every run within
  the storage invariant ensures.
- PacketClasses.SendPacket.SetPack: `fault` stands for the copy or read outside the buffer that follows when the size
  wraps around; a payload pointer that is not null must have `len` bytes, and must not point into the buffer itself.
- PacketStorage.RunKeeps: runs that begin outside the invariant are not described.
- StoredFrames.FramesKeep: a refused frame is taken up to its body field; the search for a head in what follows it is
  that of `PacketProtocol.Feed`, which PacketStorage.PushKeeps covers.
- Base64String.Base64Encode: requires a length for which the size computation does not overflow 32 bits.
- Base64String.Base64Decode: requires a text for which the length and one more fit 32 bits. It is the overload on a
  string; on a raw pointer with a length shorter than its text the source reads one character past the end.
- Base64Buffer.B64encode: sizes are unbounded, where the source's computation of the default capacity would wrap for
  sizes of 2^62 and more.
- HexRoutines.HexPack: requires that the text is as long as the format reads, because the source does not look for the
  end of the text while it reads pairs; HexRoutines.HexDump likewise requires enough bytes and room.
- A `long` has 64 bits in the model of `strtol`, and text is in the C locale.
- The search for a closing quote uses a set of characters that has no terminator. The characters that follow it in
  memory are a parameter, `stray`, which may differ at every call and of which nothing is assumed.
- ArgumentsRoundTrip.RoundTrip: for maps without quotes and zeros; with quotes, what arrives is what
  ArgumentsRoundTrip.ParseCommandLine says of the printed line.
- Configuration fields hold their text already rendered; the conversion of numbers, dates and arrays to text, the
  validation of values, and loading and saving are not modelled.
- Configuration.FlatteningIsLossless: requires non-empty keys without dots and brackets that differ within an item.
- `toBuffer` of booleans and the two-argument overloads, the 64-bit `fromBuf` and the 16-bit forms in
  `common/ccxx/cxbuffer.cpp`: the first three drop writes or are stubs, the last would only add easy members.
- BitBuffer.ToBuffer: requires that the size of a range that is not refused does not overflow 32 bits.
- BitBuffer.Index: requires that the distance of an address from the beginning does not overflow 32 bits.
- BitBuffer.FromBuf: sizes have 64 bits. Where the source goes on to read, four bytes must be there.
