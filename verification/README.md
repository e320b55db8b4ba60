# O-KAM native bridge: a verified model

The bridge talks to battery cameras over the vendor's CS2 transport and serves their H.264 video
over RTSP. This project models the four stateful parts of `src/okam_native` in Dafny and proves
what they are for.

- **The reliable channel** (`cs2.py`). `Sequencing` is one receiving channel: 16-bit sequence
  numbers, in-order delivery and a reorder buffer of 64 chunks. `Endpoint` is a whole endpoint on
  values, `Cs2Session` the session object that updates its fields. `TwoParty` puts two endpoints on
  a network that loses, duplicates, delays and reorders packets and proves that a normal return of
  `write` means the payload has been delivered, although a packet is acknowledged before it is
  stored. The limits it needs are those of the one stream it speaks of; the other fifteen may carry
  anything. `AnyWrites` drops the limit on writes and proves that what is delivered is always a prefix
  of what was sent. `TightBound`, `Stall`, `OldCopy` and `AfterFailure` build, from the moves of
  `Exchange`, the runs in which a longer write, an older copy or an earlier failure defeats the
  channel, and `ExactBounds` puts both sides together. `SessionRuns` says that the methods of the
  session object are steps of that world.
  `Commands` are the length-framed commands above the channel, `CommandStream` their way over it;
  `Cipher` (on `Xors`) and `ServiceParameter` are the cipher and the encoded directory list below it;
  `Connect` and `Rendezvous` are the negotiation with directory servers, relays and the camera, and
  `Adoption` says byte by byte what it must do.
- **The H.264 to RTP pipeline** (`rtsp.py`). `AnnexB` cuts chunks into units, `Bits` reads bit
  fields and Exp-Golomb codes and removes emulation prevention, `Sps` finds the frame timing,
  `AccessUnits` groups units, `Rtp` makes packets. Each stage is proved against its inverse: a
  serializer, an escaper, an encoder, a partition, a depacketizer. `RtspStream` composes the stages.
- **The shared stream session** (`session.py`). `SharedSession` holds what each section under the
  lock does, on values; `StreamSession` is the object; `MediaCache` is the scan for parameter sets
  and key frames, and `TrimmedCache` says that trimming its buffer loses nothing. `Lifecycle`
  interleaves the sections with helper exits, timers and pump threads; `FanOut` interleaves them with
  the puts and gets of the viewers' queues.
- **Credential selection** (`auth.py`). `Auth` builds the candidates, `Selection` tries them.

Where the source updates an object or a buffer in place, the model is a class whose methods are
proved equal to functions on values; the theorems are about those functions. A system of threads or
hosts is a machine over labelled steps, and a theorem about it holds for every sequence of steps.
The clock, the answers of `poll`, arriving datagrams and the answers of a camera are inputs; what is
sent is a log.

Four results say how far the code can be trusted, not only that it can:

- A normal return of `write` means delivery exactly up to 65 chunks a write and for data copies that
  outlive at most 2^15 later chunks of their channel (`ExactBounds.SecureIff`). A write of 66 chunks
  or more can return although a chunk was dropped, and then nothing is delivered on the channel any
  more, whatever is written, until number 65 is used again 2^16 chunks later. That a sequence number
  is not reused while a copy of it is alive is not enough: in a run with one copy that outlives
  2^15 + 1 chunks, chunk 0 is delivered a second time in place of chunk 2^16. And once a write has
  raised, a later one on its channel can return normally with nothing of it delivered.
- An encrypted packet is read back exactly when the bytes of the key do not sum to 27 modulo 256:
  otherwise the first byte stays F1 and the receiver takes the packet for a clear one.
- With a video signal section in front of it the frame timing of a parameter set is looked for at the
  wrong bit, because the code takes the full-range flag for the colour-description flag
  (`Sps.SignalMisread` tells where). Without a chroma location it is never found in two classes:
  without full range and colours, and with full range and colours of which the last byte is even.
  There the parser is right if and only if no usable timing was announced.
- The scan buffer of 4 MiB is large enough: reads are of at most 64 KiB, so what is trimmed belongs to
  a unit too large to be kept. The four-byte prefix that `_record_unit` looks for, the length limit
  of `read_command` and the size limit of `make_cgi_request` can never take effect.

## Model

| member | source | states |
|---|---|---|
| Sequencing.AcceptTracks | src/okam_native/cs2.py:648-659 | any copy of a chunk that arrives within 2^15 of the expected one keeps consumed plus buffered bytes equal to the delivered chunks, every reorder entry right and at distance 1 to 2^15 - 1, at most 64 entries, and loses no chunk already held |
| Sequencing.AcceptHolds | src/okam_native/cs2.py:645-659 | an acknowledged chunk is delivered or buffered afterwards whenever the reorder buffer has room for it |
| Sequencing.NextNotHeld | src/okam_native/cs2.py:652-659 | the expected sequence number is never a key of the reorder buffer |
| Sequencing.AcceptIs | src/okam_native/cs2.py:648-659 | what becomes of a packet of any number: delivered with what waits behind it, kept under a free number while fewer than 64 wait and it lies less than 2^15 ahead, or nothing |
| Sequencing.OldCopyIgnoredIff | src/okam_native/cs2.py:656-659 | an old copy is ignored if and only if it is at most 2^15 chunks old |
| Sequencing.DeliveredIsPrefix | src/okam_native/cs2.py:541-553 | over every run of arrivals and reads of a channel, consumed plus buffered bytes are a prefix of the bytes sent on it |
| Endpoint.ParseDataPacket | src/okam_native/cs2.py:529-530 | a data packet passes the validation of the receiver and gives back channel, number and chunk |
| Endpoint.ParseAckPacket | src/okam_native/cs2.py:645-647 | an acknowledgement names exactly the packet it answers |
| Endpoint.ParseDataIff | src/okam_native/cs2.py:635-647 | a data packet is read exactly when its declared length is true and its channel one of eight, and then its number and all bytes behind it are read |
| Endpoint.ParseAckIff | src/okam_native/cs2.py:623-633 | an acknowledgement is read exactly when it lists at most 512 numbers on one of eight channels and is as long as they are, and then exactly that list is read |
| Endpoint.AckedExactly | src/okam_native/cs2.py:623-633 | an acknowledgement of any list leaves pending exactly the entries that are not on it, as they were |
| Endpoint.DiscardMembers | src/okam_native/cs2.py:631-633 | an acknowledgement removes exactly the listed entries of its channel |
| Endpoint.PutMembers | src/okam_native/cs2.py:533 | a sent chunk becomes pending and no other pending entry is touched |
| Endpoint.SentIsPending | src/okam_native/cs2.py:528-533 | a chunk that is sent is pending, dated and counted once |
| Endpoint.ResentWerePending | src/okam_native/cs2.py:665-676 | only pending entries with attempts left are sent again |
| Endpoint.ResendInventsNothing | src/okam_native/cs2.py:665-676 | a retransmission pass adds no entry |
| Endpoint.ResendKeepsAll | src/okam_native/cs2.py:665-676 | a pass that does not give up keeps every entry in its place |
| Endpoint.PassExactly | src/okam_native/cs2.py:661-676 | a pass sends again exactly the entries of which nothing was heard for half a second, in order, counts and dates them, and gives up at the first of these that was sent twenty times |
| Endpoint.AttemptsBounded | src/okam_native/cs2.py:670-676 | a pass keeps the attempt counters between 1 and 20 |
| Endpoint.TransmittedTwentyTimes | src/okam_native/cs2.py:661-676 | in every run of passes, acknowledgements and other sends a packet is transmitted at most 20 times |
| Endpoint.ChunkTwentyTimes | src/okam_native/cs2.py:525-676 | so is a chunk from its sending on, whatever happens then |
| Endpoint.ChunksWhole | src/okam_native/cs2.py:525-526 | the chunks of a payload put together are the payload, and there are as many as whole or begun kilobytes |
| TwoParty.StepKeeps | src/okam_native/cs2.py:520-676 | every step of either endpoint or of the network keeps the invariant of the stream in focus while that stream, and no other, keeps its limits on writes and ages |
| TwoParty.ReturnMeansDelivered | src/okam_native/cs2.py:520-539 | in every run in which the writes on one channel have at most 65 chunks, when a write on it returns normally the peer has delivered everything sent before on the channel and the whole payload, in order, whatever happens on the other channels |
| ExactBounds.SecureIff | src/okam_native/cs2.py:520-539 | with at least one chunk a write and copies of age 66 or more allowed, a normal return means delivery in every run if and only if writes have at most 65 chunks and data copies outlive at most 2^15 later ones |
| ExactBounds.SecurePayloadIff | src/okam_native/cs2.py:520-539 | payload by payload: delivered in every run in which it returns normally if and only if it has at most 65 KiB |
| AnyWrites.AnyRunIsPrefix | src/okam_native/cs2.py:635-659 | in every run, of writes of any size and also after failed ones, consumed and buffered bytes are a prefix of what was sent on the channel; reorder keys lie at distance 1 to 2^15 - 1, at most 64 of them, never the expected one |
| AnyWrites.NextKeeps | src/okam_native/cs2.py:524-676 | every send, retransmission, arrival and read keeps all sixteen streams |
| AnyWrites.OthersStay | src/okam_native/cs2.py:524-676 | a move changes nothing of the ends of any stream but the one it is about |
| TightBound.LongWriteCanFail | src/okam_native/cs2.py:645-659 | for every payload of 66 chunks or more there is a run in which the write returns normally, nothing is pending or in flight, and the peer has got fewer bytes than were written |
| Stall.FailedWriteStalls | src/okam_native/cs2.py:645-659 | after such a run of at most 2^16 + 65 chunks the channel is stalled with exactly the first 65 chunks delivered |
| Stall.StalledForGood | src/okam_native/cs2.py:648-659 | on a stalled channel nothing more is delivered in any run, new writes of any size included, before chunk 65 + 2^16 has been sent |
| Stall.StuckUntil | src/okam_native/cs2.py:648-659 | a stuck channel takes a packet in if and only if it has number 65 |
| Stall.LaterWriteReturns | src/okam_native/cs2.py:520-539 | a later write may return normally although nothing of it is delivered |
| OldCopy.OldCopyMisleads | src/okam_native/cs2.py:648-659 | for all chunks of 2^16 + 1 one-chunk writes there is a run in which every write returns, one data copy outlives 2^15 + 1 chunks, and the peer gets chunk 0 again in place of the last one |
| AfterFailure.FailureSpoils | src/okam_native/cs2.py:535-539 | for any two payloads of one chunk there is a run in which the first write raises, the second returns normally, and no byte of either is delivered |
| SessionRuns.WriteIsSteps | src/okam_native/cs2.py:525-534 | the sending loop of `write` on the object is a begin and one send for each chunk, with the same packets in flight |
| SessionRuns.PumpIsSteps | src/okam_native/cs2.py:581-621 | a pump in which a packet of the peer arrives is a retransmission and a delivery, or a failure when it gives up |
| SessionRuns.QuietPumpIsStep | src/okam_native/cs2.py:581-596 | a pump in which nothing of the peer arrives is a retransmission |
| SessionRuns.ReturnTest | src/okam_native/cs2.py:535-539 | the loop condition of `write` is the one under which the two-party world lets it return |
| SessionRuns.ObjectReturnDelivers | src/okam_native/cs2.py:520-539 | so when none of the numbers of a write is pending on the object, the peer has everything |
| Cs2Session.CS2Session.HandleAck | src/okam_native/cs2.py:623-633 | exactly the listed entries of its channel stop being pending, told entry by entry; nothing else changes |
| Cs2Session.CS2Session.Deliver | src/okam_native/cs2.py:649-655 | the loop over the reorder buffer delivers exactly the consecutive chunks that waited; other channels stay |
| Cs2Session.CS2Session.HandleData | src/okam_native/cs2.py:635-659 | one acknowledgement goes to the peer for each valid packet, and the new state is that of `Endpoint.AfterData` |
| Cs2Session.CS2Session.Retransmit | src/okam_native/cs2.py:661-676 | entries, datagrams and failure are those of `Endpoint.Resend` |
| Cs2Session.CS2Session.Pump | src/okam_native/cs2.py:581-621 | one pass, then one packet from the peer's host; tells the state, every datagram sent and how the pump ends; the peer's close ends the session |
| Cs2Session.PumpAnswers | src/okam_native/cs2.py:588-619 | what a packet from the peer's host, at whatever port, is answered with, by its second byte, and that nothing else is |
| Cs2Session.PumpCloses | src/okam_native/cs2.py:588-619 | a pump ends the session exactly on the peer's close, gives up exactly when the pass does, and takes nothing from other hosts |
| Cs2Session.PumpIgnores | src/okam_native/cs2.py:588-621 | packets that are neither data nor acknowledgements change nothing of what is pending or received |
| Cs2Session.CS2Session.Write | src/okam_native/cs2.py:520-539 | sends the data packets of the payload, then pumps: in every outcome the state is that after the pumps taken, which all returned normally but a last one that gave up or met the close; a normal return leaves none of its numbers pending; invalid calls change nothing |
| Cs2Session.CS2Session.SendChunks | src/okam_native/cs2.py:525-534 | the loop over offsets sends exactly the data packets of the payload, in order, under consecutive sequence numbers modulo 2^16 |
| Cs2Session.CS2Session.ReadExact | src/okam_native/cs2.py:541-553 | pumps only while bytes are missing and time is left; a normal return takes exactly the first bytes of the channel, and any other outcome takes none and has its reason |
| Cs2Session.CS2Session.Close | src/okam_native/cs2.py:555-579 | each close target and the peer get the close packet exactly once, nothing else is sent, and the session is closed |
| Commands.FrameUnique | src/okam_native/cs2.py:743-760 | two streams that begin with a frame and are equal agree on the frame and on the rest |
| Commands.FramesPrefix | src/okam_native/cs2.py:743-760 | frames read off a framed stream are the first commands written, and the rest is framed from the others |
| Commands.CgiRequestIsFrame | src/okam_native/cs2.py:712-728 | a request is made exactly for printable ASCII fields within their limits, never refused for size, and is one frame of command 0 around the text that holds path, user and password in their places |
| Commands.ParseResult | src/okam_native/cs2.py:763-783 | the loops return the number behind the first marker that has one |
| Commands.ResultReadBack | src/okam_native/cs2.py:763-783 | the number behind the first marker that has one is read back, wherever the marker stands, with any blanks and quotes around the equals sign, negative numbers included |
| Commands.NumberShape | src/okam_native/cs2.py:763-783 | whatever number is found stands behind its marker in that shape, with all its digits |
| Commands.ResultIsFirst | src/okam_native/cs2.py:763-783 | what is returned stands behind the first marker that has a number, and nothing is returned only when none has |
| Commands.ReadCommand | src/okam_native/cs2.py:743-760 | a command takes exactly its frame off the channel; a header timeout takes nothing; a failure for good has one of the stated reasons |
| Commands.ReadResponse | src/okam_native/cs2.py:816-833 | an answer takes the frames up to and including the first that answers, and no earlier one answered; no answer means that the time is up, a broken session has its reason |
| CommandStream.ReadIsWritten | src/okam_native/cs2.py:743-760 | in every run of the channel, whatever the segmentation, loss and order of arrival, the commands read are the first of those the peer wrote |
| CommandStream.AnswerIsFirstWritten | src/okam_native/cs2.py:816-833 | in every run the answer is the first command written, of those not read before, that answers, and exactly those behind it are left |
| CommandStream.RequestIsShort | src/okam_native/cs2.py:712-741 | every request has at most four chunks, so a normal return of its write can be trusted |
| Cipher.ComputeKeyHash | src/okam_native/cs2.py:159-170 | the loop over the key computes the four folded hashes |
| Cipher.EncryptPacket | src/okam_native/cs2.py:173-181 | the byte-feedback loop computes the specified stream encryption |
| Cipher.DecryptPacket | src/okam_native/cs2.py:184-191 | the loop computes the specified decryption |
| Cipher.SumsOfKey | src/okam_native/cs2.py:159-170 | the four hashes are the sum of the bytes of the key, its negative, the sum of their thirds, and their exclusive or |
| Cipher.EncryptedByte | src/okam_native/cs2.py:173-181 | each encrypted byte is the clear one under the table entry that the encrypted byte before it chooses |
| Cipher.DecryptEncrypt | src/okam_native/cs2.py:173-191 | decryption inverts encryption for every key stream and byte string |
| Cipher.EncryptDecrypt | src/okam_native/cs2.py:173-191 | encryption inverts decryption |
| Cipher.EncryptedFormReadBackIff | src/okam_native/cs2.py:678-696 | the encrypted form of a well-formed packet is read back if and only if the key's bytes do not sum to 27 modulo 256 |
| Cipher.WireFormsReadBack | src/okam_native/cs2.py:194-202 | every datagram sent for a well-formed packet is read back as that packet under such a key |
| Cipher.FormsByKind | src/okam_native/cs2.py:36-60 | which kinds of packets are sent in both forms, which encrypted only, and which in the clear |
| Cipher.ReceivedIff | src/okam_native/cs2.py:678-696 | a datagram is taken for a packet exactly when it, or its decryption, begins with F1 and has the length it declares |
| Cipher.ZeroAt27 | src/okam_native/cs2.py:66-75 | the substitution table has a single zero, at 27 |
| ServiceParameter.Decode | src/okam_native/cs2.py:94-106 | folding the chain afresh for every byte equals one pass with a running chain |
| ServiceParameter.DecodeEncode | src/okam_native/cs2.py:94-106 | the letters decode back to the bytes they were made from |
| ServiceParameter.DecodedBytes | src/okam_native/cs2.py:94-106 | letters decode exactly when all are A to P, and byte k is its pair under 57, the bytes before it and the table |
| ServiceParameter.ItemsOfParts | src/okam_native/cs2.py:107-109 | the items of any parts joined by commas are those that are not empty |
| ServiceParameter.StripZeros | src/okam_native/cs2.py:107-109 | exactly the zero bytes at the end are taken off |
| ServiceParameter.AcceptedIff | src/okam_native/cs2.py:86-117 | exactly which texts are accepted, and as which servers and key |
| ServiceParameter.ItemsJoin | src/okam_native/cs2.py:107-109 | splitting at commas inverts joining server names |
| ServiceParameter.OfficialRoundTrip | src/okam_native/cs2.py:86-117 | every valid server list and key survives encoding and decoding |
| Connect.AddressReadBack | src/okam_native/cs2.py:134-156 | an encoded address is decoded to the same host and port |
| Adoption.DecodeIff | src/okam_native/cs2.py:146-156 | sixteen bytes are decoded exactly when they stand for an address, and to that address |
| Connect.HandleFair | src/okam_native/cs2.py:402-516 | what any packet may change in the negotiation: who may be latched, listed or adopted, and what may be sent where |
| Connect.TurnInv | src/okam_native/cs2.py:366-516 | every turn of the loop keeps the invariants about relays, requests, peers and packets |
| Connect.RelayRequestsAreSound | src/okam_native/cs2.py:379-391 | over every run F1 80 goes only to directory servers, was made from an F1 73 of the latched relay, and that relay was listed by a directory server; everything sent is well-formed |
| Connect.RelayStays | src/okam_native/cs2.py:424-427 | a latched relay never changes |
| Connect.PeerIsSound | src/okam_native/cs2.py:465-516 | a relay-preferring session adopts a peer only from an F1 84 with its own identifier; no directory server is adopted; the peer is among the close targets |
| Adoption.PeerIsFirstOffer | src/okam_native/cs2.py:465-516 | over every run the peer is the sender of the first packet from outside the directory of 24 bytes with the own identifier that is a ready relay or, unless the relay is preferred, a punch or readiness; there is none while none has come |
| Adoption.KnownAre | src/okam_native/cs2.py:402-430 | over every run the endpoints, the relays and the close targets are exactly those that were named, listed and met |
| Adoption.LatchedIsFirst | src/okam_native/cs2.py:424-430 | over every run the latched relay is the sender of the first F1 71 from a relay listed before |
| Adoption.RequestIsLast | src/okam_native/cs2.py:431-442 | over every run the relay request is the one asked for by the last usable F1 73 of the latched relay |
| Adoption.HandleSends | src/okam_native/cs2.py:402-516 | exactly what is sent in answer to a packet, byte by byte |
| Adoption.SentAre | src/okam_native/cs2.py:366-516 | over every run exactly what is sent, of its own accord and in answer |
| Adoption.NothingDue | src/okam_native/cs2.py:367-401 | after a turn the lookup is less than a second old, the list request less than three, and so are relay and punch sends less than a second once there is somebody to send to |
| Connect.SessionPacketsSound | src/okam_native/cs2.py:598-647 | the packets of an established session are well-formed |
| Rendezvous.Loop.SendTimed | src/okam_native/cs2.py:367-401 | the timed sends of a turn are exactly the specified set |
| Rendezvous.Loop.Receive | src/okam_native/cs2.py:402-516 | the new variables and the answers are those of `Connect.Handle` |
| Rendezvous.Loop.Run | src/okam_native/cs2.py:366-518 | the loop computes `Connect.Turns` and ends with a peer or at the deadline |
| Rendezvous.ConnectSession | src/okam_native/cs2.py:366-518 | the session is connected exactly when a packet has offered a peer before the deadline, and then has that peer, among the close targets of the negotiation; at the deadline it is closed with each of them told once |
| AnnexB.SplitAppend | src/okam_native/rtsp.py:162-186 | cutting data in two pieces gives the same units and carry as cutting it once |
| AnnexB.FeedIsSplit | src/okam_native/rtsp.py:162-186 | the same for every chunking |
| AnnexB.SplitSerialize | src/okam_native/rtsp.py:162-186 | any stream mixing three- and four-byte start codes is read back except its last unit, which stays in the carry |
| AnnexB.ChunkedStream | src/okam_native/rtsp.py:457 | the same however the stream is chunked |
| AnnexB.EscapedIsClosable | src/okam_native/rtsp.py:56-67 | a unit written with emulation prevention around a payload that does not end in zero holds no start code and may stand in such a stream |
| AnnexB.Splitter.NalUnits | src/okam_native/rtsp.py:162-186 | the two loops and the trimmed carry compute `AnnexB.Split` |
| Bits.BitAt | src/okam_native/rtsp.py:38-40 | the shift and mask of the reader pick the bits of the data in order |
| Bits.FixedRead | src/okam_native/rtsp.py:34-41 | a fixed-width field is read back |
| Bits.FixedOnly | src/okam_native/rtsp.py:34-41 | what is read as a field of some width is one, and only missing bits are refused |
| Bits.UeRead | src/okam_native/rtsp.py:43-49 | every value below 2^32 - 1 is read back from its Exp-Golomb code (section 9.1 of H.264) |
| Bits.UeOnly | src/okam_native/rtsp.py:43-49 | what is read is the code of a value below 2^32 - 1, and what is refused begins with no such code |
| Bits.SeRead | src/okam_native/rtsp.py:51-53 | every signed value of at most 31 bits is read back (section 9.1.1) |
| Bits.SeOnly | src/okam_native/rtsp.py:51-53 | the same for signed codes |
| Bits.UnescapeEscape | src/okam_native/rtsp.py:56-67 | removal inverts the escaper of section 7.4.1.1 on every payload |
| Bits.UnescapeDrops | src/okam_native/rtsp.py:56-67 | from any bytes, well escaped or not, exactly each 3 directly behind two zeros is dropped |
| Bits.NalRbsp | src/okam_native/rtsp.py:56-67 | the loop computes the removal |
| Bits.BitReader.Read | src/okam_native/rtsp.py:34-41 | reads the field at the front of the unread bits, or fails and moves nothing |
| Bits.BitReader.ReadUe | src/okam_native/rtsp.py:43-49 | reads the code at the front of the unread bits, or fails on a truncated or overlong one |
| Bits.BitReader.ReadSe | src/okam_native/rtsp.py:51-53 | the same for signed codes |
| Sps.FrameTicksFromSps | src/okam_native/rtsp.py:74-146 | the parser object computes `Sps.FrameTicks` |
| Sps.ScalingMatrix | src/okam_native/rtsp.py:90-99 | the loops over scaling lists read exactly the lists that are there |
| Sps.TicksReadBack | src/okam_native/rtsp.py:74-146 | for every parameter set without a video signal section, escaped and packed with any trailing bits, the parser returns the announced timing or nothing when there is none |
| Sps.TicksRounded | src/okam_native/rtsp.py:138-144 | the ticks are 180000 * units / scale rounded to nearest; there are none exactly without a fixed rate, units or scale, or outside 1 to 900000 |
| Sps.OnlySets | src/okam_native/rtsp.py:70-76 | only a unit of type 7 announces anything |
| Sps.SignalMisread | src/okam_native/rtsp.py:129-132 | for every parameter set with a video signal section the parser returns what stands where the misread flags lead it: at the colour flag without full range, 24 bits behind it with full range |
| Sps.SignalHidesTiming | src/okam_native/rtsp.py:129-132 | in two classes of signal sections, without a chroma location, the parser finds no timing, so it is right if and only if none was announced |
| Sps.VclStartsNewPicture | src/okam_native/rtsp.py:149-159 | computes `Sps.StartsPicture` |
| Sps.SliceReadBack | src/okam_native/rtsp.py:149-159 | an encoded slice starts a picture exactly when its first macroblock is 0 |
| AccessUnits.PushKeeps | src/okam_native/rtsp.py:201-223 | a push loses and reorders nothing, and what it emits holds a slice with nothing behind it that starts another access unit |
| AccessUnits.AssembleKeeps | src/okam_native/rtsp.py:189-231 | emitted access units and held units together are the pushed units |
| AccessUnits.AssembleCuts | src/okam_native/rtsp.py:189-231 | access units are cut exactly at delimiters, parameter sets and picture starts that follow a slice |
| AccessUnits.CutsUnique | src/okam_native/rtsp.py:189-231 | there is only one such partition |
| AccessUnits.BoundaryIff | src/okam_native/rtsp.py:201-223 | which units are boundaries, by first byte and first number of a slice header |
| AccessUnits.SliceBoundary | src/okam_native/rtsp.py:149-159 | a slice written with its first macroblock is a boundary exactly when that is 0 |
| AccessUnits.FlushKeeps | src/okam_native/rtsp.py:225-231 | the flush leaves no slice behind and loses nothing |
| AccessUnits.Assembler.Push | src/okam_native/rtsp.py:201-223 | the object computes `AccessUnits.Pushed` |
| AccessUnits.Assembler.Flush | src/okam_native/rtsp.py:225-231 | the object computes `AccessUnits.Flushed` |
| Rtp.PayloadShape | src/okam_native/rtsp.py:507-522 | every payload has at most 1400 bytes; a longer unit goes out as two fragments or more, the first alone with the start bit, the last alone with the end bit (section 5.8 of RFC 6184) |
| Rtp.UnitArrives | src/okam_native/rtsp.py:496-522 | the receiver gets back every unit of type 1 to 23 of every length |
| Rtp.UnitsArrive | src/okam_native/rtsp.py:477-492 | and every sequence of them |
| Rtp.PacketsRead | src/okam_native/rtsp.py:504-505 | version, payload type and source are fixed, sequence numbers count on modulo 2^16, the timestamp is constant, the marker is on the last packet alone (section 5.1 of RFC 6184) |
| Rtp.UnwireWire | src/okam_native/rtsp.py:486-490 | the packets of a channel are found again on the connection, each behind a dollar sign, the channel and its length |
| Rtp.RtpPackets | src/okam_native/rtsp.py:496-522 | the fragmentation loop computes the specified packets and following sequence numbers |
| RtspStream.RunSendsUnits | src/okam_native/rtsp.py:442-468 | what is sent by the end is the units of the stream in order, up to a rest without a slice |
| RtspStream.ClockMoves | src/okam_native/rtsp.py:460-466 | the timestamp moves only when an access unit is sent, by the newest announced frame duration, the announcement of the new unit included |
| RtspStream.PacedByLast | src/okam_native/rtsp.py:460-466 | in every run the access units from the one held when the last announcing unit came on follow each other by the ticks it announced, to the end of the run |
| RtspStream.PacedByDefault | src/okam_native/rtsp.py:433-468 | without an announcement they follow each other by 3000 ticks |
| RtspStream.PacedByParameterSet | src/okam_native/rtsp.py:460-466 | a camera that writes a parameter set with a timing is streamed at it from there until another one comes |
| RtspStream.FirstTimestamp | src/okam_native/rtsp.py:433-466 | the first access unit carries the first timestamp |
| RtspStream.PacketNumbered | src/okam_native/rtsp.py:474-493 | packets count on across access units |
| RtspStream.ClientReceives | src/okam_native/rtsp.py:433-493 | for every chunking, the client's depacketizer gets the units of the whole stream in order, up to a rest without a slice, over consecutive sequence numbers |
| RtspStream.ClientReadsStream | src/okam_native/rtsp.py:433-493 | for a serialized stream that is a prefix of its units, without the unterminated last one |
| RtspStream.Client.SendAccessUnit | src/okam_native/rtsp.py:474-493 | the bytes written are the marked packets of the access unit |
| RtspStream.Client.PlayUnit | src/okam_native/rtsp.py:460-466 | the loop body computes `RtspStream.Play` |
| RtspStream.Client.Stream | src/okam_native/rtsp.py:433-468 | the bytes on the connection are those of the specified run |
| MediaCache.UnitsAppend | src/okam_native/session.py:339-353 | scanning in two pieces finds the same units and keeps the same rest |
| TrimmedCache.NoteRemembersAlways | src/okam_native/session.py:332-377 | whatever the chunk boundaries and however much is trimmed, the cache holds the newest complete units of all bytes read |
| MediaCache.NoteGood | src/okam_native/session.py:355-371 | every unit in the cache is whole and of its kind |
| SharedSession.AcquiredTable | src/okam_native/session.py:137-180 | only a caller who joins enters the table, an active one only with a helper attached, and a closed session admits nobody |
| StreamSession.NativeStreamSession.constructor | src/okam_native/session.py:73-124 | a new session is idle, and its standby media are the units of the standby frame |
| StreamSession.NativeStreamSession.NoteMedia | src/okam_native/session.py:332-353 | the search and recording loops compute `MediaCache.Note` |
| StreamSession.NativeStreamSession.RecordUnit | src/okam_native/session.py:355-371 | keeps the unit if its kind and size say so |
| MediaCache.PreambleReadBack | src/okam_native/session.py:379-385 | the preamble is there exactly when both parameter sets are and the whole fits; read back, it is the two sets and the key frame, in this order and nothing else |
| StreamSession.NativeStreamSession.StartLocked | src/okam_native/session.py:424-481 | computes `SharedSession.Started`, failing starts included |
| StreamSession.NativeStreamSession.Acquire | src/okam_native/session.py:137-180 | computes `SharedSession.Acquired` |
| StreamSession.NativeStreamSession.Release | src/okam_native/session.py:185-197 | computes `SharedSession.Released` |
| StreamSession.NativeStreamSession.Close | src/okam_native/session.py:409-421 | computes `SharedSession.Shut` and names every queue |
| StreamSession.NativeStreamSession.StopIfIdle | src/okam_native/session.py:590-605 | computes `SharedSession.Idled` |
| StreamSession.NativeStreamSession.PumpChunk | src/okam_native/session.py:506-527 | computes `SharedSession.Noted` and names every queue |
| StreamSession.NativeStreamSession.PumpCleanup | src/okam_native/session.py:533-547 | computes `SharedSession.Cleaned` and names the queues of active viewers |
| Lifecycle.StepInv | src/okam_native/session.py:126-605 | every locked section and every step of the environment keeps the invariants of helpers, table, timers, phase and cache |
| Lifecycle.OneHelper | src/okam_native/session.py:147-161 | at most one helper is ever running, and it is the attached one |
| Lifecycle.StartsAlone | src/okam_native/session.py:424-479 | the starter runs only while no helper is running; a helper is let go only after its pump has waited for its exit |
| Lifecycle.StopsOnlyIdle | src/okam_native/session.py:590-605 | over every run a helper is asked to stop exactly when it is the attached one and running and either the session is closed or an idle timer comes up while no viewer is active and the session is open |
| Lifecycle.StartsOnlyForViewers | src/okam_native/session.py:155-166 | over every run the starter is run exactly when an active viewer comes to an open session without a helper |
| Lifecycle.WatchersAfter | src/okam_native/session.py:137-197 | exactly who watches after any step |
| Lifecycle.TimersOnlyForIdle | src/okam_native/session.py:185-197 | a timer is started exactly when a release leaves a helper without an active viewer |
| Lifecycle.OnlyCloseCloses | src/okam_native/session.py:409-422 | a session is closed by close and nothing else |
| Lifecycle.PhaseAfter | src/okam_native/session.py:126-605 | the phase that is reported after any step |
| Lifecycle.ViewersAndTimers | src/okam_native/session.py:185-197 | an active viewer has a helper; a helper nobody watches has a live timer, was asked to stop or has exited; a closed session's helper was asked to stop or has exited |
| Lifecycle.ClosedStays | src/okam_native/session.py:409-422 | a closed session stays closed, without viewers, new generations or new helpers |
| Lifecycle.LivePreamble | src/okam_native/session.py:172-174 | an active viewer starts with the newest units of its own helper, never with standby media or those of an earlier helper |
| Lifecycle.PreambleDecodes | src/okam_native/session.py:172-174 | in every run the preamble of any viewer is empty or reads as one sequence and one picture parameter set and at most one key frame, each whole |
| Lifecycle.MediaOfGeneration | src/okam_native/session.py:638-641 | the cache belongs to the attached helper, and without one is the standby media, or nothing after a failed start; the phase tells whether a helper is attached |
| Lifecycle.PassiveSurvive | src/okam_native/session.py:533-541 | the clean-up drops active viewers and keeps passive ones |
| FanOut.ChunkQueue.PutChunk | src/okam_native/session.py:627-636 | a full queue loses its oldest item and takes the new one |
| FanOut.KeepsServed | src/okam_native/session.py:504-562 | every step, between any two puts, keeps what was put plus what is on its way equal to what each active viewer is owed |
| FanOut.ViewerIsServed | src/okam_native/session.py:521-558 | at most 32 items wait, always the newest put; an active viewer's puts are exactly its preamble and the chunks since it joined; without overflow it reads exactly that |
| FanOut.JoinBegins | src/okam_native/session.py:168-180 | who joins finds exactly the preamble of the cache, if there is one, in its queue |
| FanOut.BeginningStays | src/okam_native/session.py:168-180 | what a viewer began with never changes |
| FanOut.CleanEnds | src/okam_native/session.py:533-558 | when the pump finishes active viewers are owed the end mark and passive ones go on |
| FanOut.OwedIsFinal | src/okam_native/session.py:185-187 | nothing more is owed to a viewer that no longer watches |
| Auth.BuildCandidates | src/okam_native/auth.py:74-121 | the loops compute the proposed candidates without repeated passwords |
| Auth.CandidatesOf | src/okam_native/auth.py:82-121 | passwords are distinct, every proposed password is offered, the fallback among them, and the configured one comes first |
| Auth.ProposedAre | src/okam_native/auth.py:82-114 | every candidate there is, and why |
| Auth.ProposedInOrder | src/okam_native/auth.py:82-114 | the sources come in order, the camera's own password before those of other devices |
| Auth.UniqueFirst | src/okam_native/auth.py:115-120 | a repeated password keeps its first candidate |
| Selection.OrderedPermutes | src/okam_native/auth.py:356-366 | the order is a permutation of the candidates with the cached match first |
| Selection.OrderedIs | src/okam_native/auth.py:356-366 | the cached candidate is the first of the source and, if the entry names one, the device of the entry |
| Selection.SelectionIsSound | src/okam_native/auth.py:368-424 | a prefix of that order is tried up to the first candidate not explicitly refused; rejected exactly when all are refused; with a way to discard, sessions never overlap and none is left but the selected one, and without it none is discarded |
| Selection.SelectionOutcome | src/okam_native/auth.py:368-424 | the outcome told by the facts of the answers: attempts go on while the camera was reached, asked, answered, did not let us in and gave a code other than 0; the first other answer decides, and the cache changes as stated |
| Selection.RejectedIff | src/okam_native/auth.py:384-424 | rejected exactly when every attempt was connected, sent, answered, not authenticated and gave a code other than 0 |
| Selection.GoReports | src/okam_native/auth.py:416-424 | a rejection reports the camera's answer to every candidate, in order |
| Selection.OthersKept | src/okam_native/auth.py:399 | no other camera's cache entry changes |
| Selection.OwnEntry | src/okam_native/auth.py:397-423 | an accepted candidate is stored unless it is manual; a refused cached entry is forgotten; nothing else happens to the entry |
| Selection.CameraAuthenticator.Arrange | src/okam_native/auth.py:357-366 | computes the order |
| Selection.CameraAuthenticator.AuthenticateResource | src/okam_native/auth.py:340-424 | the loop computes `Selection.Authenticated` |

## Left out

- TwoParty.ReturnMeansDelivered: assumes, of its own stream only, writes of at most 65 chunks, none after one that raised, no data copy older than 2^15 later chunks and no acknowledgement older than the reuse of its number; ExactBounds.SecureIff and AfterFailure.FailureSpoils give the runs that fail without the first three.
- TwoParty.StepKeeps: the same assumptions.
- ExactBounds.SecureIff: the runs that show the bounds exact are on channel 0 of one endpoint; that the bounds suffice is proved for every channel of both.
- AnyWrites.AnyRunIsPrefix: assumes that a delivered data packet is about a chunk within 2^15 of the expected one.
- Cs2Session.CS2Session.Write: does not say when it returns; that depends on the clock moving on.
- Rendezvous.Loop.Receive: tells the answers as a set, so neither their order nor the second copy of a doubled answer is modelled.
- Rendezvous.Loop.SendTimed: tells what is sent as a set, so neither the order of sends to a set of endpoints nor the second copy of a doubled send is modelled.
- Rendezvous.Loop.Run: begins when the socket is open and the local address is known; opening the socket and probing the route are not modelled; the close at the deadline is in Rendezvous.ConnectSession.
- Bits.BitReader.ReadUe: does not say what is left unread after an invalid code, as nothing is read after it.
- Bits.BitReader.ReadSe: the same.
- Sps.TicksReadBack: sets of profile 135 hold the fields of the high profiles too, but the code does not look for them; they are not among the sets written here.
- Sps.SignalHidesTiming: in signal sections outside the two classes, or with a chroma location, the answer depends on the bits that follow; Sps.SignalMisread tells which.
- RtspStream.Client.Stream: models the normal end of a subscription; a stop request or a broken connection in between is not modelled.
- TrimmedCache.NoteRemembersAlways: a standby frame of more than 4 MiB, noted at once when a session is made, may lose units; only reads of the pump are covered whatever their number.
- Lifecycle.StepInv: `close` and `_stop_if_idle` ask the helper to stop after they have left the section; the request is noted with the section, and no property counts on it having arrived.
- StreamSession.NativeStreamSession.StartLocked: what the starter does is reduced to whether it raises, returns a helper without pipes, or a helper; threads and the kill of a useless helper are not modelled.
- StreamSession.NativeStreamSession.Acquire: is one pass of the loop; waiting for the clean-up of an exited helper, with its time limit, is not modelled.
- FanOut.ChunkQueue.PutChunk: takes the attempts of a put as one step; a reader or writer between them can lose the new item.
- FanOut.ViewerIsServed: says nothing about the order of items in queues of passive viewers, which the standby thread writes too, or after the session is closed.
- Selection.CameraAuthenticator.AuthenticateResource: sources other than the four the builder makes, errors of the attempt other than the module's own, and an iterable that holds one candidate object twice are not modelled; authenticate is the case without sessions.
- Sockets, subprocesses, HTTP, SDP, JSON and files: errors of sending and receiving, the reading of the helper's output and summary, the cache file and all logs and counters.
- Video frames on channel 1, the identifier encoding, snapshot decoding and the login exchange of cs2.py: bounded reads and field checks that would only add easy members.
- The standby thread of the shared session: its frames are steps of FanOut that may come at any time.
- Python limits on the conversion of very long decimal strings and non-ASCII digits in parse_result.
- Texts are sequences of characters or code points; inet_aton, inet_ntoa and casefold are parameters.
