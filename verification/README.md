# AXTP, modelled and proved

AXTP is a framed binary RPC and stream protocol. This project models its TypeScript implementation and
proves what its parts, and then the parts together, promise. `dafny verify dfyconfig.toml` checks all of it.

What the source does step by step on objects is here a class whose methods are proved, one by one, against a
specification function on plain values; the theorems are then about runs of the specification functions.

**The wire** (`Bytes`, `Io`, `ByteValues`, `ByteBits`, `Polynomial`, `Crc`, `Frames`, `Decoder`, `Reassembler`,
`ReassemblySound`, `Interleaving`, `Fragmenter`, `Pipeline`, `PayloadCodec`, `FramedWire`). `Frames.Judge` looks at the front of a buffer and says
wait, drop a byte, reject, or accept; `Decoder.Scan` repeats that from the left. The decoder's resync-and-slice
loop is proved to do exactly this, whatever its listener does to the frame limit on the way. Chunking
independence, the fate of garbage and damage, reassembly in any order and the round trip of whole message lists
follow. What is accepted is also said byte by byte, without the functions that decide it: every frame delivered stands
in the input as a valid frame and as its own encoding, and every message delivered was put together from fragments
that came within the timeout. The checksum is CRC-16/CCITT-FALSE (generator x^16 + x^12 + x^5 + 1 of ITU-T Recommendation V.41,
section 2, initial value 0xFFFF, no reflection, no final exclusive-or), treated as multiplication of
polynomials, so that an error travels on its own.

**The link and the session** (`ControlCodec`, `ControlSession`, `ControlOutcomes`, `Hex`, `Handshake`, `Messages`,
`Core`, `CoreOutcomes`, `CoreDelivery`, `WireInputs`, `TwoParty`, `TwoPartySafety`, `TwoPartyRuns`,
`TwoPartyDelivery`, `ByteReading`, `ByteRuns`). One core is proved safe against any input and any bytes at all, and
what it reports, sends and passes on is said exactly, per input and over whole runs. Two cores joined by first-in-first-out channels are then a state machine over starting, writing, reading,
heartbeats and business messages; which end opens the link, whether there is a link to open, and the encoding of
messages are parameters. A message that needs more than 255 frames cannot be written and ends the outbound stream of
its sender. `TwoPartySafety.AllOk` is the invariant over both ends and both channels. `ByteRuns` puts the framed
wires of the two cores between them: their channels carry bytes, read in chunks of any size, and every run of bytes is
proved to be a run of whole messages, so that safety holds of the bytes as well, and so that what is said at one end
is passed on at the other once and in order.

**Calls and queues** (`PendingCalls`, `PendingOutcomes`, `Correlation`, `ClientQueue`, `ClientVerdicts`, `Coalescing`,
`ClientDelivery`). A call or a waiter is named by the order in which it was made, which is what tells one promise from
another. What each comes to is said by its cause, from the state before the act that settles it.

**Event masks** (`HexBytes`, `MaskBits`, `EventMasks`, `MaskLayout`, `Validator`, `DomainClaims`) and **streams** (`Sets`,
`StreamRegistry`, `StreamHistory`). The text of masks is tied to binary digits, and what a stream hears to the history
of the registry.

## What the proofs turned up

- *Negotiation needs room.* OPEN and ACCEPT have 22-byte bodies, and the ACCEPT may be cut for the acceptor's own
  limit before the agreed one is in force. The handshake then has to fit: Hello, Identify with the client's event
  masks, and Identified may each have at most 255 times the agreed frame size less 14. Two ends always come up safely
  if and only if their limits are equal or both at least 36, and every handshake message fits
  (`TwoPartyRuns.SafeExactlyWhen`). Otherwise a message is refused as too large, or is never written and both ends
  wait for ever: with both limits 15, event masks of 200 digits are enough (`TwoPartyRuns.TwoHundredDigitsFail`).
- *Session ids.* A comment at src/core/core.ts:417 demands that zero ids be refused, but a client takes `"0"`;
  only the empty string and exactly eight zeros are refused (`Handshake.ClientAcceptsIff`).
- *Lost promises.* If a request id comes round again while its first call is pending, the older call's timer takes
  the newer call's entry away and the newer promise is never settled. Over any run exactly one call is lost for every
  reuse of a pending id, and 2^32 calls are enough for one (`PendingCalls.LostExactlyByReuse`,
  `PendingCalls.ReuseHappens`). Likewise a call gets another call's answer if and only if a response arrives while
  another call is pending under its id (`Correlation.AnswersGoHomeIff`).
- *Stranded waiters.* When an endpoint closes after the first ready and there is no reconnection, the client is closed
  but its queues are not drained; only `close()` reaches the waiters then. That is the only way for a closed client to
  owe anybody an answer (`ClientQueue.UnansweredExactlyWhen`).
- *Masks.* An event at bit offset 2040 or beyond cannot be asked for, and an item with an empty name slips through
  the generator's duplicate checks. The masks of an accepted specification are exact if and only if no event without
  a name is followed by one with its high byte and offset, and no domain has more than 2040 offsets
  (`Validator.AcceptedMasksAreExact`, `Validator.EmptyNameSlipsThrough`).
- *Reassembly.* A fragment that does not fit its assembly removes it without a word, and a fragment repeated after
  delivery opens a new assembly (`Reassembler.MismatchDeletesSilently`, `Reassembler.LateDuplicateOpensAssembly`).
- *Order.* An Identify that comes before negotiation makes a server ready, and its link then never becomes ready
  (`Core.EarlyIdentify`).
- *Queue limits.* With no room at all, dropping the oldest still queues one call (`ClientQueue.ZeroLimitQueuesOne`).
- The heartbeat interval travels in two bytes, as src/protocol/codec/control.ts:25-28 explains against the schema.

## Model

| member | source | states |
|---|---|---|
| Crc.Crc16CcittFalse | src/io/io.ts:146-155 | the double loop computes the remainder specified over polynomials |
| Polynomial.BranchIsTimesX | src/io/io.ts:151 | the branch of the inner loop is multiplication by x modulo the generator |
| Crc.RegisterInjective | src/io/io.ts:146-155 | different register contents stay different under the same further bytes |
| Crc.TwoByteWindowDetected | src/io/io.ts:146-155 | strings of one length, however short, that differ only within two adjacent bytes have different checksums |
| Crc.BurstDetected | src/io/io.ts:146-155 | so have strings of one length, however short, that differ only within sixteen adjacent bits, starting at any bit of any byte |
| Crc.KnownAnswer | src/io/io.ts:146-155 | the checksum of the nine characters 123456789 is 0x29B1, the check value of CRC-16/CCITT-FALSE |
| Io.ByteWriter.WriteU16 | src/io/io.ts:18-20 | appends the low two bytes, so a longer length is truncated |
| Io.ByteWriter.WriteU64 | src/io/io.ts:26-30 | the loop over shifts appends the eight big-endian bytes |
| Io.ByteReader.ReadU64 | src/io/io.ts:79-86 | the loop reads the number that the next eight bytes spell, or nothing |
| Bytes.BigEndianRoundTrip | src/io/io.ts:11-110 | reading what was written gives the number back |
| Frames.HeaderRoundTrip | src/protocol/codec/frame.ts:333-345 | a written header reads back field by field |
| Frames.EncodeRoundTrip | src/protocol/codec/frame.ts:72-145 | an encoded frame in front of anything is accepted whole, with its checksum filled in |
| Frames.PrefixWaits | src/protocol/codec/frame.ts:73-115 | no proper prefix of a frame is enough to decide |
| Frames.JudgeStable | src/protocol/codec/frame.ts:57-147 | a verdict does not change when more bytes arrive |
| Frames.AcceptedIff | src/protocol/codec/frame.ts:72-145 | accepted exactly where the bytes are those of a valid frame: magic, version 1, type 1 to 3, index below count, length within limit and buffer, checksum; and the frame is read off them field by field |
| Frames.AcceptedIsEncoded | src/protocol/codec/frame.ts:333-349 | the accepted bytes are the encoding of the frame delivered |
| Frames.RejectedFor | src/protocol/codec/frame.ts:72-127 | which of those bytes decides otherwise: dropped in silence, waited for, or the code of the first condition that fails |
| Frames.DamageReported | src/protocol/codec/frame.ts:117-126 | a payload of the same length with another checksum is rejected with FrameCrcError |
| Frames.TwoByteDamageReported | src/protocol/codec/frame.ts:117-126 | any change within two adjacent payload bytes, or to a single last or only one, is rejected with FrameCrcError |
| Frames.BurstDamageReported | src/protocol/codec/frame.ts:117-126 | so is any change within sixteen adjacent bits of a payload of any length |
| Decoder.FrameDecoder.ResyncToMagic | src/protocol/codec/frame.ts:57-68 | what the resync drops, the leftmost scanner would drop, one byte at a time and silently |
| Decoder.FrameDecoder.ParseLoop | src/protocol/codec/frame.ts:70-147 | the loop ends, and leaves listener and buffer as the leftmost scanner does (Decoder.OnlyValidFramesDelivered says what that delivers), even when the listener changes the limit |
| Decoder.FrameDecoder.OnBytes | src/protocol/codec/frame.ts:43-46 | one call scans the leftover followed by the new bytes |
| Decoder.ScanAppend | src/protocol/codec/frame.ts:43-147 | scanning in two instalments is scanning once |
| Decoder.ChunkingIndependence | src/protocol/codec/frame.ts:43-147 | any two ways to cut the same bytes give the same frames, errors, limits and leftover |
| Decoder.LeftoverIsShort | src/protocol/codec/frame.ts:70-115 | the leftover is shorter than 14 bytes or than the limit in force |
| Decoder.OnlyValidFramesDelivered | src/protocol/codec/frame.ts:43-147 | whatever bytes arrive: every frame delivered stands in them as a valid frame within the limit in force and as its own encoding, every error stands where the bytes deserve it, in order and without overlap |
| Decoder.GarbageIsSkipped | src/protocol/codec/frame.ts:57-68 | garbage without the two magic bytes, before a good frame, is dropped without an error |
| Decoder.DamageIsRejected | src/protocol/codec/frame.ts:117-126 | a frame whose payload is damaged within sixteen adjacent bits is reported and not delivered from its position, and the scan goes on one byte later |
| Reassembler.MessageReassembler.EvictExpired | src/protocol/codec/frame.ts:243-254 | exactly the expired assemblies go, with one timeout error each |
| Reassembler.MessageReassembler.OnFrameArrived | src/protocol/codec/frame.ts:177-240 | the whole step on the table and what it reports |
| Reassembler.MessageReassembler.FillSlot | src/protocol/codec/frame.ts:219-240 | a fragment fills its slot in place; the last one joins them and frees the id |
| Reassembler.OnFrameIsGood | src/protocol/codec/frame.ts:177-240 | every step keeps the memory bound |
| Reassembler.RunIsGood | src/protocol/codec/frame.ts:151-254 | after any frames at all: at most 256 assemblies, each with a stored and a missing slot and with a size that is the sum of its fragments and within the limit |
| Reassembler.LateDuplicateOpensAssembly | src/protocol/codec/frame.ts:191-208 | a fragment repeated after delivery opens an assembly of its own |
| ReassemblySound.FrameOutcome | src/protocol/codec/frame.ts:177-254 | the table after any frame and everything said, case by case with the error codes |
| ReassemblySound.DeliveredIsWhole | src/protocol/codec/frame.ts:177-254 | whatever frames come: every message delivered was put together from fragments that came within the timeout before it, all with its id, type and count, each under its own index |
| ReassemblySound.NothingStaysTooLong | src/protocol/codec/frame.ts:243-254 | after a fragment of a longer message no assembly left is older than the timeout |
| Interleaving.RunMatches | src/protocol/codec/frame.ts:177-240 | in a good run the table holds exactly the fragments seen of the messages not complete |
| Interleaving.ReassemblyIgnoresOrder | src/protocol/codec/frame.ts:177-240 | any interleaving, order and repetition before completion delivers each complete message once, joined by index, and nothing else |
| Interleaving.SameFragmentsSameMessages | src/protocol/codec/frame.ts:177-240 | two runs over the same fragments deliver the same messages |
| Fragmenter.MessageFragmenter.FragmentMessage | src/protocol/codec/frame.ts:267-293 | the frames of the cut body, or the error, and the next message id |
| Fragmenter.MessageFragmenter.SliceBody | src/protocol/codec/frame.ts:286-292 | the loop of slices is the cut |
| Fragmenter.CutJoins | src/protocol/codec/frame.ts:282-292 | the pieces join to the body |
| Fragmenter.FragmentIff | src/protocol/codec/frame.ts:271-285 | a message can be cut exactly when its body has at most 255 times the capacity |
| Fragmenter.FragmentFields | src/protocol/codec/frame.ts:286-328 | as many frames as the body fills, each with version 1, no addresses, its number, the count and the next piece |
| Fragmenter.MessageIdsCount | src/protocol/codec/frame.ts:300-305 | message ids go from 1 to 65535 and round again |
| Fragmenter.FramesAreSendable | src/protocol/codec/frame.ts:286-328 | every frame is within the size and passes every header check of a receiver with at least that limit |
| Fragmenter.FrameEncoder.EncodeFrame | src/protocol/codec/frame.ts:333-349 | writes header, payload and checksum |
| Pipeline.ChunksAreStream | src/protocol/codec/frame.ts:43-54 | timed chunks come to the same as their bytes one by one |
| Pipeline.MessageReassembled | src/protocol/codec/frame.ts:177-240 | a message's frames in order, within the timeout, give the message and an empty table |
| Pipeline.PipelineRoundTrip | src/protocol/codec/frame.ts:70-349 | any list of messages, cut, encoded, joined and chunked anywhere, arrives as the same types and bodies in order, without errors and with nothing left over |
| Pipeline.AdapterRoundTrip | src/core/wire/framed.ts:33-49 | the same between two adapters whenever the sender's size is at most the receiver's limit |
| FramedWire.ChunksDoNotMatter | src/core/wire/framed.ts:51-78 | chunking independence of a core on its wire, where an OPEN or ACCEPT changes the limit in mid-buffer |
| FramedWire.MessageRead | src/core/wire/framed.ts:80-99 | a message whose frames pass is handed to the core once, and nothing is left behind |
| FramedWire.PassingMessageIsRead | src/core/wire/framed.ts:33-104 | where the two-party model writes a message and lets it pass, the message can be cut and the wire gives the core exactly it |
| FramedWire.UncuttableHasNoFrames | src/protocol/codec/frame.ts:271-285 | the two-party model fails to write exactly the messages that the fragmenter throws on |
| FramedWire.BlockedMessageIsReported | src/protocol/codec/frame.ts:105-112 | where a message does not pass, the first thing the core hears is FrameTooLarge |
| FramedWire.FrameSizeClosure | src/core/wire/framed.ts:33-49 | after agreement every frame an end can cut is admitted by the other, and no message it can cut exceeds the other's reassembly limit |
| WireInputs.BytesAreInputs | src/core/wire/framed.ts:51-99 | any bytes are a run of control, RPC, stream and error inputs to the core |
| WireInputs.AnyBytesKeep | src/core/core.ts:353-450 | so no bytes, whoever sends them, break the core's invariant or move its gate back |
| FramedWire.FramedWireAdapter.FeedBytes | src/core/wire/framed.ts:51-54 | feeding is scanning, and decoder and fragmenter then work with the core's limit |
| FramedWire.FramedWireAdapter.FramePayload | src/core/wire/framed.ts:101-104 | the chunks written are the encoded frames of the cut body |
| ControlCodec.DecodeControl | src/protocol/codec/control.ts:142-178 | decodes header and entries, or fails on a short header or a value cut off |
| ControlCodec.ReadNextTlv | src/protocol/codec/control.ts:90-112 | the skipping loop ends on every input with the first readable entry, or none |
| ControlCodec.EncodeControl | src/protocol/codec/control.ts:115-139 | writes the header and the parameters present, in order |
| ControlCodec.RoundTrip | src/protocol/codec/control.ts:115-178 | decode of encode gives back opcode, ids, status and parameters in range |
| ControlCodec.UnknownEntriesIgnored | src/protocol/codec/control.ts:90-112 | well-formed entries of unknown tag, odd width or extended length, put in anywhere, change nothing |
| ControlOutcomes.AnyBodyDecodes | src/protocol/codec/control.ts:90-178 | any body of five bytes or more is its head, the entries of one, two or four bytes in it and a stub; it fails exactly when such an entry is cut short |
| ControlSession.ClampHeartbeat | src/protocol/codec/control.ts:62-65 | 500 for anything not finite or below it, 60000 for anything from there on, and the whole part in between |
| ControlSession.Session.OpenArrived | src/core/controlSession.ts:120-163 | the answer to an OPEN and the new state, also for a refusal |
| ControlSession.Session.AcceptArrived | src/core/controlSession.ts:165-192 | only the ACCEPT of the pending OPEN counts |
| ControlSession.Session.HandleControlBody | src/core/controlSession.ts:88-118 | dispatch by opcode, and the error of a malformed body |
| ControlSession.NegotiationAgrees | src/core/controlSession.ts:120-192 | after OPEN and ACCEPT both ends hold the smaller limit and one heartbeat interval |
| ControlSession.NegotiationSizes | src/protocol/codec/control.ts:125-137 | both negotiation bodies have 22 bytes |
| ControlOutcomes.OpenBytes | src/protocol/codec/control.ts:67-137 | the 22 bytes of an OPEN, one by one |
| ControlOutcomes.AcceptBytes | src/protocol/codec/control.ts:115-137 | the 22 bytes of an ACCEPT, one by one |
| ControlOutcomes.RefusalIsTold | src/core/controlSession.ts:120-181 | an OPEN is refused with ControlNegotiationFailed under its id if and only if something is missing, the limit is below 15 or JSON is not offered; the opener then reports it and is not linked |
| ControlOutcomes.ClosingIsAnswered | src/core/controlSession.ts:81-117 | CLOSE is answered under its id, and both ends are closed then |
| ControlOutcomes.ClosedTakesNoOpen | src/core/controlSession.ts:121-122 | a link that is closing or closed takes no OPEN |
| ControlOutcomes.HeartbeatIsAnswered | src/core/core.ts:119-126 | a heartbeat is answered under its id and changes nothing else |
| ControlOutcomes.IdsCount | src/core/controlSession.ts:200-206 | control ids count up from one, modulo 65536 |
| Handshake.GeneratedSid | src/core/handshake.ts:105-109 | a generated id is eight hexadecimal digits that spell the mixed seed, never zero |
| Handshake.SidSpellsSeed | src/core/handshake.ts:105-109 | the id is the eight digits of seed exclusive-or entropy, or of one where they are the same |
| Handshake.SidsDiffer | src/core/handshake.ts:105-109 | for one server two seeds give one id exactly if they are the same, or one is the entropy and the other differs from it in the last bit |
| Handshake.ServerSidIsAccepted | src/core/handshake.ts:129-144 | a client accepts every id a server makes |
| Handshake.ShortZeroSidAccepted | src/core/handshake.ts:132-143 | so an id that is all zeros can be accepted |
| Handshake.HandleKeepsGood | src/core/handshake.ts:59-144 | no message moves the handshake back or makes it ready with an empty or zero id |
| Handshake.HandshakeMachine.HandleMessage | src/core/handshake.ts:59-144 | the answer and the new state for each of the messages |
| Core.MasksAreOfLatestIdentify | src/core/runtimeGate.ts:19-27 | after any inputs a server's event masks are those of the latest Identify: the gate lets no Reidentify through to change them |
| Core.AxtpCore.OnLinkReadyInternal | src/core/core.ts:353-360 | only the first link-ready counts; it sets the limit before the Hello is sent |
| Core.AxtpCore.OnControl | src/core/core.ts:110-128 | the session's callbacks, one after another, on the core |
| Core.AxtpCore.OnRpc | src/core/core.ts:366-436 | the object does what the specified gate, handshake, business and refusal do (CoreOutcomes.StepComesTo says what that is) |
| Core.AxtpCore.OnStream | src/core/core.ts:438-450 | stream data passes only when the session is up |
| Core.StepKeeps | src/core/core.ts:205-450 | every step on every input, sending OPEN, CLOSE and heartbeats included, keeps the core's invariant and never moves the gate back |
| Core.RunKeeps | src/core/core.ts:353-450 | after any inputs: the gate is ready exactly when the handshake is, link-ready was said at most once, and every request, event or stream chunk passed on followed a ready announcement of its session id |
| Core.GateOnlyMovesForward | src/core/core.ts:353-450 | over any run the gate never goes back |
| CoreOutcomes.StepComesTo | src/core/core.ts:110-450 | for every core and every input: exactly what is reported and sent, and the gate, frame limit, session id, masks and link after it |
| CoreDelivery.PassedOnExactly | src/core/core.ts:416-450 | over any run from a new core, the requests, events, stream data and responses passed on are exactly those read under the session announced by then, each in its place |
| CoreDelivery.AnsweredExactly | src/core/core.ts:402-414 | over any run the responses sent are the owner's and, under its id and with ControlOpenRequired, one for every request that came before the session |
| TwoPartySafety.ReadOpen | src/core/controlSession.ts:120-163 | a waiting end that reads an OPEN answers with the deal and is linked on it |
| TwoPartySafety.ReadAccept | src/core/controlSession.ts:165-192 | the opener that reads the ACCEPT is linked on the same deal |
| TwoPartySafety.FlushKeeps | src/core/core.ts:150-158 | writing a message, cut for the old limit or the new, keeps the invariant; so does failing to write one that is no part of handshake or link |
| TwoPartySafety.CompliantWrites | src/core/core.ts:253-279 | where the handshake fits, every handshake and link message that is to be written can be cut |
| TwoPartySafety.DeliverKeeps | src/core/core.ts:353-436 | reading keeps the invariant, and moves on by one phase exactly when it is a handshake message |
| TwoPartySafety.NextKeeps | src/core/core.ts:177-450 | so does every act, and the next phase is the one the protocol prescribes |
| TwoPartyRuns.EveryRunIsSafe | src/core/core.ts:353-436 | where limits admit the negotiation and the handshake fits, in every reachable state: a ready client has a ready server with the same proper session id, no failure or refusal occurred, both ends work on the agreed terms, and if both are started but not both ready a handshake message is on its way |
| TwoPartyRuns.HandshakeReadOnce | src/core/handshake.ts:111-144 | five handshake messages are read on a framed link, three otherwise, never more, and both ends are ready exactly when the last one was |
| TwoPartyRuns.NeverStuck | src/core/core.ts:353-436 | under the same condition the two ends can still both become ready from every reachable state |
| TwoPartyRuns.RunOfSeed | src/protocol/codec/frame.ts:283-285 | for every seed a client can draw there is a run that is safe only if Hello, Identify and Identified of that seed can be cut |
| TwoPartyRuns.SafeExactlyWhen | src/core/controlSession.ts:120-192 | all runs are safe if and only if the limits are equal or both at least 36 and every handshake message has at most 255 times the capacity of the agreed size |
| TwoPartyRuns.LongMasksFail | src/endpoint/endpoint.ts:120-122 | event masks too long for the agreed size leave both ends started, not ready, and nothing on its way |
| TwoPartyRuns.TwoHundredDigitsFail | src/endpoint/endpoint.ts:46 | with both limits 15, event masks of 200 digits do so |
| TwoPartyDelivery.BusinessArrives | src/core/core.ts:177-436 | over any run and in each direction: what was passed on is the beginning of what was said, each message once, in order and as decoded; what is on its way is the next, and nothing is missing while the sender can write |
| ByteReading.ReadFrame | src/core/wire/framed.ts:51-99 | the next frame of a message on its way is admitted and either completes exactly that message for the core or leaves the reassembler one frame further on |
| ByteRuns.ReadChunk | src/core/wire/framed.ts:51-54 | reading any chunk of the bytes on their way is reading the messages whose last frames it completes, in order |
| ByteRuns.BytesAreMessages | src/core/core.ts:150-176 | every run over byte channels, chunked anywhere, leads both cores where a run of whole messages leads them, with the same messages still to be read |
| ByteRuns.BytesAreSafe | src/core/core.ts:353-436 | so after any such run the session is shared, nothing has failed, the agreed terms hold, nothing is kept of a channel read to its end, and two started ends with nothing left to read or write are ready |
| ByteRuns.BytesArrive | src/core/core.ts:150-436 | the same over byte channels in any chunks; and all that was said has been passed on once the channel is empty and nothing is left to write |
| ByteRuns.NewPortStarts | src/core/wire/framed.ts:33-49 | a new wire puts messages of up to 256 times its frame limit together, within ten seconds each |
| PendingCalls.PendingTable.MakeCall | src/core/pendingCalls.ts:30-62 | the entry is made before sending and unmade if sending throws |
| PendingCalls.PendingTable.TimerFired | src/core/pendingCalls.ts:41-53 | a timer looks for its id, whoever holds the entry |
| PendingCalls.PendingTable.ResponseArrived | src/core/pendingCalls.ts:65-71 | a response settles the call under its id, and an unknown id nothing |
| PendingCalls.PendingTable.RejectEverything | src/core/pendingCalls.ts:74-80 | every pending call is rejected and its timer stopped |
| PendingCalls.SameIdIff | src/core/pendingCalls.ts:89-93 | two calls share an id exactly when they are a multiple of 2^32 - 1 apart |
| PendingCalls.TakesOverIff | src/core/pendingCalls.ts:54 | a request takes over an entry exactly when a pending call is a multiple of 2^32 - 1 older |
| PendingCalls.StepKeeps | src/core/pendingCalls.ts:30-87 | whatever happens, a settled call is not settled again |
| PendingCalls.EveryRun | src/core/pendingCalls.ts:30-87 | over any run verdicts stay |
| PendingCalls.ConservedIff | src/core/pendingCalls.ts:30-87 | a step from a state without lost calls loses one if and only if it is a call that finds one pending a multiple of 2^32 - 1 calls older |
| PendingCalls.LostExactlyByReuse | src/core/pendingCalls.ts:30-87 | over any run the calls made are those settled, those pending and one for every reuse of a pending id; so every call is pending with its timer or settled if and only if none was reused |
| PendingCalls.ReuseHappens | src/core/pendingCalls.ts:41-54 | from the empty table: a run that reuses one id and ends with every timer gone and one call never settled |
| PendingCalls.RejectAllLeavesNone | src/core/pendingCalls.ts:74-80 | after it nothing is pending and each pending call has the error |
| PendingCalls.ReuseLosesACall | src/core/pendingCalls.ts:41-54 | with reuse, a call can be left that nothing settles |
| PendingOutcomes.StepOutcome | src/core/pendingCalls.ts:30-87 | an act settles exactly the calls it gives an outcome: a throwing send, the response under its id, its own timer, the disconnection |
| PendingOutcomes.StepEntries | src/core/pendingCalls.ts:30-93 | the entries and timers after each act, the n-th call under id 1 + n mod 2^32 - 1 |
| PendingOutcomes.EveryCallsOutcome | src/core/pendingCalls.ts:30-87 | over any run a call comes to the first outcome an act gave it |
| Correlation.OwnAnswersIff | src/core/pendingCalls.ts:65-71 | a step gives a call an answer not its own if and only if a response arrives while another call, a multiple of 2^32 - 1 away, is pending under its id |
| Correlation.GoodStep | src/broker/broker.ts:65-102 | calls, handlers finishing in any order, late responses, timeouts and disconnects keep answers with their calls |
| Correlation.AnswersGoHome | src/core/core.ts:183-196 | over any history in which nothing is left of a call by the time its id comes round, each answered call has the peer's answer to that call and no call is lost |
| Correlation.AnswersGoHomeIff | src/core/core.ts:183-196 | over any history at all, each answered call has the peer's answer to that call if and only if no response arrived while another call was pending under its id |
| Correlation.LateAnswerGoesAstray | src/core/pendingCalls.ts:65-71 | without that limit a late response settles another call |
| ClientDelivery.AxtpClient.EnqueueCallNow | src/sdk/client.ts:415-471 | closed, coalesced, refused or appended, then flushed |
| ClientDelivery.AxtpClient.Supersede | src/sdk/client.ts:424-440 | the new call takes the place; earlier waiters stay, are resolved or are rejected |
| ClientDelivery.AxtpClient.FlushCallQueue | src/sdk/client.ts:473-497 | the loop sends until a call is in flight, and tells the waiters of calls that throw |
| ClientDelivery.AxtpClient.CallEnded | src/sdk/client.ts:481-489 | the object does what the specified ending does: the waiters of the call in flight are told its verdict and the flush goes on (ClientVerdicts.StepVerdicts) |
| ClientDelivery.AxtpClient.RejectCallQueue | src/sdk/client.ts:499-504 | every queued waiter is rejected |
| ClientDelivery.AxtpClient.EnqueueEventNow | src/sdk/client.ts:535-560 | the outbox with its policies |
| ClientDelivery.AxtpClient.FlushEventOutbox | src/sdk/client.ts:562-576 | emits in order and tells each waiter |
| ClientDelivery.AxtpClient.OnEndpointClose | src/sdk/client.ts:279-306 | the new state in each case, and no draining |
| ClientDelivery.AxtpClient.HandshakeTimerFired | src/sdk/client.ts:233-244 | drains and closes only without reconnection |
| ClientDelivery.AxtpClient.Close | src/sdk/client.ts:622-631 | closed, then both queues drained |
| ClientQueue.StepKeeps | src/sdk/client.ts:415-581 | every act keeps every waiter in exactly one place, and verdicts stay |
| ClientQueue.StepBounded | src/sdk/client.ts:446-468 | the queues never exceed the larger of one and their limit, no key is queued twice, and somebody waits for every queued call |
| ClientQueue.EveryRun | src/sdk/client.ts:265-315 | over any run each issued waiter is queued, in flight or settled, once in all |
| ClientQueue.DrainPaths | src/sdk/client.ts:233-315 | close, giving up reconnection, a fatal handshake error and a handshake timeout without reconnection empty both queues and leave no waiter without a verdict but those of the call in flight |
| ClientQueue.ClosedStaysEmpty | src/sdk/client.ts:416-417 | a drained client stays drained |
| ClientQueue.ClosesWhen | src/sdk/client.ts:233-315 | a client that is not closed is closed by exactly those four and by an endpoint's closing after the first ready without reconnection |
| ClientQueue.AnsweredOnClosing | src/sdk/client.ts:279-306 | after the step that closes a client both queues are empty and every waiter is answered, except exactly when that step is an endpoint's closing and something was queued |
| ClientQueue.UnansweredExactlyWhen | src/sdk/client.ts:279-315 | over any run that ends closed, some waiter is unanswered if and only if an endpoint's closing closed the client with something queued and close() was not called since |
| ClientQueue.OnlyCloseReaches | src/sdk/client.ts:622-631 | a closed client without reconnection keeps its queues through everything but close() |
| ClientQueue.FlushSendsInOrder | src/sdk/client.ts:473-497 | a ready client sends the queue in its order, however the calls end |
| ClientVerdicts.StepVerdicts | src/sdk/client.ts:233-631 | for every act and waiter: it gets a verdict exactly as its cause says, with the value or code of the cause, and keeps the one it has |
| ClientVerdicts.RunVerdicts | src/sdk/client.ts:233-631 | over any run a waiter's verdict is the first that an act gave it: the ending of the call in flight that carries it, an emission, a fault, a drain, or the policy that superseded, dropped or refused it |
| ClientVerdicts.StepDelivers | src/sdk/client.ts:233-631 | for every act: the connection, the queue and the outbox after it, the call sent and the events emitted, in order |
| Coalescing.QueueIsCoalesced | src/sdk/client.ts:419-469 | below the limit and offline, the queue is the history with each key at the place of its first call, showing its latest method, parameters, timeout and kept waiters |
| Coalescing.CoalescedKeysUnique | src/sdk/client.ts:421-444 | no key stands in it twice |
| HexBytes.HexToBytes | src/io/bytes.ts:27-37 | the loop decodes pair by pair, and fails on an odd count |
| HexBytes.TextRoundTrip | src/io/bytes.ts:27-41 | bytes written as text read back |
| Hex.KnownDigits | src/types/registry.ts:94-96 | the sixteen digits in lower case |
| EventMasks.ComputeEventMasks | src/types/registry.ts:67-99 | grouping, sorting, mask filling and printing compute the specified text (MaskLayout.TextSpellsTheList says what it spells) |
| EventMasks.FillMask | src/types/registry.ts:88-93 | the mask array is filled bit by bit in place |
| EventMasks.IsEventSubscribed | src/types/registry.ts:102-121 | the scanning loop answers as specified |
| EventMasks.MaskHas | src/types/registry.ts:89-93 | a bit of the mask is set exactly when it was asked for |
| MaskLayout.WithBitWeighs | src/types/registry.ts:91-92 | setting bit i makes the binary digit of weight 2^i one and leaves the others |
| MaskLayout.MaskNumber | src/types/registry.ts:86-93 | a domain's mask, read as one number, has exactly the binary digits asked for |
| MaskLayout.TextSpellsTheList | src/types/registry.ts:67-99 | the printed text: for each domain with an event listed, ascending, two digits of the domain, two of the length, and a number whose binary digit k is one exactly when the event at offset k is listed |
| MaskLayout.KnownText | src/types/registry.ts:67-99 | the event 0x0901 at offset 0 alone prints as 090101 |
| EventMasks.MaskAnswersExactly | src/types/registry.ts:67-121 | for a sound table, every list and every name: subscribed exactly when the name is a known event on the list |
| EventMasks.SharedBitFools | src/types/registry.ts:89-93 | two events on one bit answer for each other |
| EventMasks.LargeOffsetLost | src/types/registry.ts:94-95 | an event at offset 2040 or beyond is never answered yes |
| EventMasks.ExactIffSound | src/types/registry.ts:67-121 | masks are exact for all lists and names if and only if the table is sound |
| Validator.AssertUniqueIds | devtools/generators/src/validator.ts:6-25 | passes exactly when no item clashes, and names the item that does |
| Validator.AssertUniqueNames | devtools/generators/src/validator.ts:27-45 | passes exactly when all names differ |
| Validator.NoClashIff | devtools/generators/src/validator.ts:13-23 | with no empty names, passing is having distinct keys |
| Validator.ClashIff | devtools/generators/src/validator.ts:13-23 | in general a repeated key passes exactly when its last bearer has an empty name |
| Validator.AssertDomainBitOffsets | devtools/generators/src/validator.ts:75-123 | passes exactly when all offsets are valid and each domain is without clash and contiguous from zero |
| Validator.AssertRegistryDomainRanges | devtools/generators/src/validator.ts:125-159 | passes exactly when every item is in range, and names the item that is not |
| Validator.BuildFromItems | devtools/generators/src/domainRegistry.ts:19-60 | the map from high bytes to domains, or the error |
| DomainClaims.BuildIff | devtools/generators/src/domainRegistry.ts:15-93 | a specification gets its map exactly when every claimed high byte is a byte and no claim contradicts the one before it, and the map holds the last claim for each byte |
| DomainClaims.InRangeIff | devtools/generators/src/validator.ts:125-159 | an item is in range exactly under a named byte in its domain, or as vendor from 0x70 to 0x7E, or as legacy at 0x7F |
| DomainClaims.HighByteOfSmall | devtools/generators/src/validator.ts:133-134 | below 2^31 the high byte is the id divided by 256 |
| Validator.ValidateTables | devtools/generators/src/validator.ts:381-397 | passes exactly the accepted specifications |
| Validator.OffsetsArePermutation | devtools/generators/src/validator.ts:95-122 | in an accepted domain the offsets are 0 up to the number of events, each once |
| Validator.AcceptedDiffer | devtools/generators/src/validator.ts:381-397 | two named methods, or two named events, of an accepted specification differ in name and id, and under one high byte in offset |
| Validator.SameByteSameDomain | devtools/generators/src/validator.ts:133-152 | accepted events with one high byte are in one domain |
| Validator.AcceptedSoundIff | devtools/generators/src/validator.ts:381-397 | an accepted specification, whatever its events are called, gives a sound table exactly when no event without a name is followed by one with its high byte and offset, and no domain has more than 2040 offsets |
| Validator.AcceptedIsSound | devtools/generators/src/validator.ts:381-397 | with named events, exactly when no domain has more than 2040 events |
| Validator.AcceptedMasksAreExact | devtools/generators/src/validator.ts:381-397 | its masks answer exactly for all lists and names under that condition and no other |
| Validator.EmptyNameSlipsThrough | devtools/generators/src/validator.ts:98-108 | with an empty name two events of an accepted specification share a bit |
| StreamRegistry.Registry.Allocate | src/endpoint/streamRegistry.ts:30-37 | stops after at most one probe more than there are open streams, at the first unused id round the circle |
| StreamRegistry.ProbesBounded | src/endpoint/streamRegistry.ts:31-33 | the pigeonhole: n different ids in use need n streams |
| StreamRegistry.AllocatedCanBeAdopted | src/endpoint/streamRegistry.ts:40-44 | adopting an id just allocated cannot fail |
| StreamRegistry.Registry.AdoptStream | src/endpoint/streamRegistry.ts:40-56 | a new context under a free non-zero id, or the error |
| StreamRegistry.Registry.DataArrived | src/endpoint/streamRegistry.ts:59-66 | the object does what the specified step does: counts data of an open stream and hands it to its handler (StreamHistory says so over histories) |
| StreamRegistry.Registry.CloseStream | src/endpoint/streamRegistry.ts:68-74 | the handler is told and the id is free |
| StreamRegistry.Registry.AbortEverything | src/endpoint/streamRegistry.ts:77-83 | telling every context and emptying the table is closing them one by one |
| StreamRegistry.ClosedExactlyOnce | src/endpoint/streamRegistry.ts:40-83 | over any run, a stream with a handler is told once if it is closed and not at all while open, and hears nothing afterwards |
| StreamHistory.HistoryIsKept | src/endpoint/streamRegistry.ts:40-83 | over any run: the streams open, their serials, counters and handlers, and everything they were told in order, are those of the history of acts |
| StreamHistory.AdoptionIff | src/endpoint/streamRegistry.ts:40-44 | after any run an id is adopted exactly when it is not zero and nothing is open under it, and which code it gets otherwise |
| StreamHistory.StreamHearsItsData | src/endpoint/streamRegistry.ts:59-66 | a stream hears exactly the data that arrived under its id while it was open with a handler, in order, and its counters are the number and total length of all that arrived |

## Left out

- Web Streams, AbortController, backpressure and promise scheduling: channels are first-in-first-out and steps are atomic.
- Transports, the debug server, diagnostics, the playground and scripts: plumbing.
- The text of RPC messages: JSON is an opaque codec, assumed where it matters to give back what was encoded (`PayloadCodec.Faithful`); stream payload decoding is a parameter.
- Callbacks are recorded as actions, events or log entries in the order in which they are made; the texts of errors are not modelled, their codes are.
- Clocks, timers and random numbers are parameters or acts; all frames of one call to `onBytes` see one time.
- The order in which several assemblies expire at once, and the order in which a map's pending calls are rejected, are not distinguished.
- Heartbeat timing, reconnect backoff and `AxtpClient.connect`'s waiting: the client's connection is a state and an endpoint flag changed by acts.
- CLOSE in two-party runs: an endpoint never sends it. Sent or received, it is part of the one-core theorems.
- Reidentify end to end: a core drops it.
- Calls that the client makes directly while it is ready, the wait-ready policy, and opening streams through the client: single branches.
- Re-entrant calls from stream close listeners: a stream marks itself closed before it calls them.
- The validator's checks of errors, capabilities, schemas and legacy mappings, names inherited from an object's prototype in the event table, and the contents of the generated tables.
- TwoParty.Receive: a message with a frame over the limit counts as lost with one error; the bytes after its first frame may make the decoder report more.
- What a transport does when an outbound stream that failed aborts its writable side: the two parties only go on without that direction.
- Byte runs in which a message is waited for longer than the reassembler's timeout, and stream frames between the two parties.
- Damage to header and checksum bytes: a damaged header can be reported under another code or dropped as garbage (Frames.RejectedFor says which).
- StreamRegistry.Registry.Allocate: asks for fewer than 2^32 - 1 open streams, since with all ids in use the source never returns.
- PendingCalls.PendingTable.MakeCall: a promise is a number and its outcome an entry in a table, since promises are not modelled.
- ClientDelivery.AxtpClient.FlushCallQueue: whether the endpoint takes or throws is one parameter of the flush, since its state cannot change during one.
- HexBytes.HexToBytes: digits, signs and white space are modelled as the language's number parser treats two characters.
