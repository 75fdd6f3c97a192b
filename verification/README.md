# A verified model of the EcoFlow BLE daemon's core

The daemon reads power stations over Bluetooth LE and publishes their state. This project models, in
Dafny, the three parts whose correctness is hard to see by reading, and proves what they promise.

**Wire codec.** `Bytes`, `Crc`, `Packet`, `PacketTheorems`, `Encryption`, `Framing`, `Reassembly`,
`Emission`, `StreamRoundTrip`, `Incoming`, `Assemblers`, `Handshake`. The inner packet is printed and parsed
with its two checksums; four kinds of assembler put packets on the wire and cut a stream of notifications
back into payloads, those that devices send in their own format among them.
`Framing.Scan` is the meaning of reading a whole stream: at each possible start,
`Framing.Judge` waits, skips, emits or fails. The assembler classes, whose loops follow the program's
own, are proved to compute `Scan` of their kept buffer followed by the new notification. About `Scan` it
is proved that cutting the stream differently changes nothing, that what is emitted is exactly a list of
disjoint frames of the stream, how much can stay buffered, and that everything a sender may send arrives.
The decryption strategies are the program's own padding around an abstract cipher, a length-preserving
bijection on block-aligned strings.

**Session.** `KeyExchange`, `KeyTheorems`, `Authentication`, `Session`, `FieldAge`, `Published`, `Bootstrap`,
`Device`, `Fleet`, `Connect`. The key exchange with its two waits, the requests and the wait that finish
authentication, the event loop with its published status and freshness rule, the reconnect loop, the join of
all devices' goroutines, and the hand-over of an opened connection. Runs are sequences of events (a
notification, a tick with its time, the end of the context). The lemmas follow a packet from the device's
encoder to the handler across all these stages.

**Provider manager.** `Manager`, `ManagerProgress`. The lock sections of `Enable`, `Disable` and the run
loop are methods of a class, proved against functions on the shared state; a transition system then
interleaves those functions with channel operations, cancellations, store writes and a runner's goroutines.
Lemmas are about every state that any sequence of steps reaches, with any number of overlapping calls, and
about what can always happen next.

Some properties one might expect do not hold of the code. They are stated with the exact condition
under which they do:

- A packet survives printing and parsing exactly when `PacketTheorems.Survives` holds: its version is not
  4, writer and reader agree on the header's width, and no terminator of a sentinel payload is stripped.
- The printed length is what the stream readers expect exactly for `Packet.CrcFormat` versions.
- A changed byte is detected exactly when it lies in the header, or the version has the CRC format or is 4,
  or the version is one that the reader takes for narrower than it was printed (0x20 to 0x22, for example)
  and no checksum fits by accident two bytes early (`PacketTheorems.FitsNarrow`).
- An outer frame is recognised exactly when its length field is at most 10000, although the writer
  allows more; for type 7 that means a padded packet of at most 9998 bytes.
- A recognisable frame of any framing is emitted where it starts exactly when the bytes that the stream
  before it left buffered let it through (`Emission.EmittedIff`): they are nothing, or the frame they seem to
  begin is rejected within them and what reading on from there keeps lets it through in turn
  (`Emission.Clears`). So among bytes in which no outer frame starts, exactly those that end in a mark byte
  cost the next frame (`StreamRoundTrip.SentAfterQuiet`). `StreamRoundTrip.StrayMarkHidesFrame` says for every
  frame what one stray mark does: an immediate rejection, or a wait for bytes that were never announced.
- What is unpadded is the padding of the result only when the block size and the result's length are
  within the bounds the padding function checks.
- A live status bounds the age of the latest report only. A published field is younger than the stale
  timeout exactly when some report that young gave it (`FieldAge.FieldFreshness`);
  `FieldAge.OldFieldPublished` is a run in which one is not.
- Bytes that arrive together with the key info do not reach the session, and any bytes can
  (`Bootstrap.AnythingLeft`). Leaving bytes behind changes no later reading exactly when they hold no frame,
  whole or begun (`Bootstrap.LeftBehind`). If they are whole frames the session misses exactly their packets,
  so nothing is missed exactly when those are all authentication replies (`Bootstrap.ChainLoses`).
- The state "stopped" stays reported exactly until a call changes Enabled
  (`Manager.StoppedUntilToggled`, with `Manager.StoppedIsReplaced` as a run in which one does).
- "disabled" can be reported while a runner is still live, exactly after an odd number of changes of Enabled,
  three or more, since its run began (`Manager.PhaseWhileLive`, `Manager.DisabledWhileLive`).
- A device that is given up keeps the status it had (`Device.GivenUpKeepsStatus`), which may be live
  (`Device.LiveWhenGivenUp`).
- Authentication ends with the first notification that completes any packet, reply or not
  (`Authentication.AuthenticateIs`).
- The requests of a daemon that speaks version 0x13 are recognised by its own framings only inside outer
  frames (`Authentication.RequestRecognised`).

## Model

| member | source | states |
|---|---|---|
| Crc.Crc16ARC | internal/ecoflow/crc.go:18-31 | The nested loops compute the fold `Crc16`, about which the algebra below is proved. |
| Crc.Crc8CCITT | internal/ecoflow/crc.go:3-16 | The nested loops compute the fold `Crc8`. |
| Crc.Crc16Lossless | internal/ecoflow/crc.go:20-29 | One byte's update is injective in the accumulator and in the byte. |
| Crc.Crc16ByteOnto | internal/ecoflow/crc.go:20-29 | One byte's update reaches every accumulator value; with injectivity, it is a bijection. |
| Crc.Crc16DetectsByte | internal/ecoflow/crc.go:18-31 | Changing any one byte of any string changes its checksum. |
| Crc.Crc16Linear | internal/ecoflow/crc.go:18-31 | The checksum of the xor of equally long strings is the xor of their checksums. |
| Crc.Crc16Residue | internal/ecoflow/crc.go:18-31 | A string followed by its little-endian checksum has checksum 0, and no other two bytes do that. |
| Crc.Crc16CheckValue | internal/ecoflow/crc.go:18-31 | The checksum of "123456789" is the value that names CRC-16/ARC. |
| Crc.Crc8Lossless | internal/ecoflow/crc.go:5-14 | One byte's update is injective in the accumulator and in the byte. |
| Crc.Crc8ByteOnto | internal/ecoflow/crc.go:5-14 | One byte's update reaches every accumulator value. |
| Crc.Crc8DetectsByte | internal/ecoflow/crc.go:3-16 | Changing any one byte changes the header check byte. |
| Crc.Crc8Linear | internal/ecoflow/crc.go:3-16 | Linearity under xor. |
| Crc.Crc8Residue | internal/ecoflow/crc.go:3-16 | A string followed by its check byte has check byte 0, and no other byte does that. |
| Crc.Crc8CheckValue | internal/ecoflow/crc.go:3-16 | The check byte of "123456789" is 0xF4. |
| Packet.MarshalBinary | internal/ecoflow/packet.go:32-72 | Appending field by field yields `Marshal`, or the size error; `Layout` says where each field lies. |
| Packet.ParsePacket | internal/ecoflow/packet.go:74-133 | Every accepted or rejected input, with the same first error, agrees with `Parse`. |
| Packet.XorPayload | internal/ecoflow/packet.go:122-126 | The loop xors every payload byte with the key and nothing else. |
| Packet.MaskCancels | internal/ecoflow/packet.go:122-126 | Masking twice with one key restores the payload. |
| PacketTheorems.Layout | internal/ecoflow/packet.go:40-71 | Where every field, the check byte and the checksum lie in a printed packet, and the defaults. |
| PacketTheorems.RoundTrip | internal/ecoflow/packet.go:32-133 | Printing and parsing, masked or not, gives the packet back with the defaults applied if and only if it `Survives`. |
| PacketTheorems.LengthAgrees | internal/ecoflow/frame.go:267-281 | The printed length is 5 + packetBodyLen if and only if the version has the CRC format, and is then the parser's total length. |
| PacketTheorems.CorruptionDetected | internal/ecoflow/packet.go:74-104 | For every printable packet, any one changed byte makes parsing fail if and only if it lies in the header, or the version has the CRC format or is 4, or the version is misread and no checksum fits two bytes early. |
| Incoming.BodyLengths | internal/ecoflow/frame.go:267-281 | For every version and payload length the stream reader's length is the packet's, 10 + n for version 4, and the parser's length is the same. |
| Incoming.ParserObjections | internal/ecoflow/packet.go:74-104 | For any bytes, which error the parser returns first, or none, by positions and literal bytes. |
| Incoming.TerminatedReply | internal/ecoflow/packet.go:86-131 | The frame of any sentinel packet, masked or not, whose payload field is q and BB BB is read as the packet with payload exactly q. |
| Incoming.UnterminatedReply | internal/ecoflow/packet.go:86-131 | Without a terminator its payload is read unchanged. |
| Incoming.EmitsWhatParses | internal/ecoflow/frame.go:189-201 | Where the parser finds a packet, the reader of bare packets emits exactly the bytes that the parser takes. |
| Incoming.VersionFour | internal/ecoflow/frame.go:268-270 | A version 4 packet is cut out of the stream at its own length, and then refused by the parser. |
| Encryption.Pkcs7Pad | internal/ecoflow/frame.go:331-347 | The fill loop computes `Pad`, with the block-size error before the length error. |
| Encryption.Pkcs7Unpad | internal/ecoflow/frame.go:349-363 | The checking loop accepts exactly what `Unpad` accepts. |
| Encryption.UnpadPad | internal/ecoflow/frame.go:331-363 | Unpadding undoes padding whenever padding succeeds. |
| Encryption.PadUnpad | internal/ecoflow/frame.go:331-363 | What unpads is the padding of its result if and only if the result is within the bounds for padding. |
| Encryption.PaddingRefuses | internal/ecoflow/frame.go:331-363 | Exactly when each of the four errors comes. |
| Encryption.Type7Inverts | internal/ecoflow/frame.go:21-50 | Decryption returns the plaintext; the ciphertext's length is the padded length. |
| Encryption.Type7Lenient | internal/ecoflow/frame.go:35-50 | Decryption never fails: a partial last block is ignored, less than a block and an unpadded plaintext come back as they are. |
| Encryption.Type1Inverts | internal/ecoflow/frame.go:57-84 | Decryption returns the plaintext followed by the zeros that fill its last block. |
| Encryption.Type1Refuses | internal/ecoflow/frame.go:57-84 | Exactly what is too long or not made of whole blocks is refused. |
| Framing.MarshalEncPacket | internal/ecoflow/packet.go:141-155 | Writing part by part yields `MarshalFrame`, or the size error. |
| Framing.JudgeStable | internal/ecoflow/frame.go:127-158 | A decision other than to wait is never changed by bytes that arrive later. |
| Framing.NoiseSkipped | internal/ecoflow/frame.go:120-128 | Bytes in which nothing can start, and after which no mark is half begun, change no result. |
| Framing.Resume | internal/ecoflow/frame.go:113-161 | Reading a prefix, keeping its leftover and reading on equals reading everything at once. |
| Reassembly.ChunkingInvariance | internal/ecoflow/frame.go:113-265 | For each framing, any cutting of a stream yields the payloads, buffer or error of one big read. |
| Reassembly.NeverFails | internal/ecoflow/frame.go:225-265 | With a valid key no stream reaches the alignment error or "decrypted packet body too short". |
| Reassembly.JudgeSound | internal/ecoflow/frame.go:133-158 | What is emitted is a whole frame at that place, with its mark, length and checksum; waiting bytes are bounded. |
| Reassembly.JudgeComplete | internal/ecoflow/frame.go:127-158 | A whole frame at that place is emitted, with its content. |
| Reassembly.SoundAndComplete | internal/ecoflow/frame.go:113-265 | Over every cutting: the segments `Emitted` are disjoint, increasing frames of the stream with the payloads as contents, no cleanly started frame before the buffer is missed, and the buffer is the stream's tail and bounded. |
| Reassembly.BufferBounded | internal/ecoflow/frame.go:139-143 | At most 10005, 65554 or 65556 bytes are kept. |
| Reassembly.BoundAttained | internal/ecoflow/frame.go:139-143 | Each of those bounds is reached by some stream. |
| StreamRoundTrip.Recognised | internal/ecoflow/frame.go:99-161 | A sent packet is emitted where it starts, whatever follows, if and only if it is `Deliverable`. |
| StreamRoundTrip.DeliverableEncodes | internal/ecoflow/frame.go:99-111 | Every deliverable packet with a payload of at most 65535 bytes can be encoded. |
| StreamRoundTrip.PacketsDelivered | internal/ecoflow/frame.go:99-265 | Any list of deliverable packets, cut anywhere, arrives as printed, in order, with an empty buffer. |
| StreamRoundTrip.EndToEnd | internal/ecoflow/frame.go:99-265 | Parsed, they are the packets sent with defaults applied, masked payloads restored. |
| Incoming.WholeCarried | internal/ecoflow/frame.go:113-265 | Every whole packet of every version is recognised in every framing that has room for it, whatever follows. |
| Incoming.IncomingDelivered | internal/ecoflow/frame.go:113-265 | Whole packets sent by a device, cut anywhere, come out whole and in order with an empty buffer. |
| Incoming.RepliesArrive | internal/ecoflow/frame.go:113-265 | For terminated sentinel replies, what is parsed are exactly the packets the device meant. |
| StreamRoundTrip.Limits | internal/ecoflow/packet.go:34-36 | Printing fails exactly above 65535 payload bytes, framing exactly above 65533. |
| StreamRoundTrip.OuterLayout | internal/ecoflow/packet.go:146-153 | Every byte of an outer frame: marks, shifted type, length, payload, checksum. |
| StreamRoundTrip.EncodedBytes | internal/ecoflow/frame.go:99-223 | What each framing puts on the wire: frame type 1 around the packet or its encryption, the packet itself, or its clear header and encrypted body. |
| StreamRoundTrip.HandshakeRecognised | internal/ecoflow/frame.go:287-329 | A handshake frame is recognised if and only if its payload is at most 9998 bytes. |
| Emission.EmittedResumes | internal/ecoflow/frame.go:113-161 | What is emitted from a longer stream is what was emitted before, then what the kept bytes and the new ones lead to. |
| Emission.EmitsShifted | internal/ecoflow/frame.go:119-158 | Which frames are emitted does not depend on the bytes before the place where scanning starts. |
| Emission.EmittedIff | internal/ecoflow/frame.go:113-265 | For every framing and every stream, a frame behind the stream is emitted where it starts if and only if the bytes the stream left buffered let it through, a condition on those bytes and the frame alone. |
| StreamRoundTrip.SentAfterQuiet | internal/ecoflow/frame.go:119-149 | After bytes in which no frame starts, a deliverable packet's frame is emitted where it starts if and only if they leave no half mark. |
| StreamRoundTrip.StrayMarkHidesFrame | internal/ecoflow/frame.go:127-149 | For every frame behind one stray mark byte: it is not emitted where it starts; the place before it is rejected at once if the length read there is out of range, and otherwise waits if and only if fewer bytes than that have come. |
| Assemblers.EncPacketAssembler.Encode | internal/ecoflow/frame.go:99-111 | The frame or error of `Encode` for outer framing. |
| Assemblers.EncPacketAssembler.Reassemble | internal/ecoflow/frame.go:113-161 | The payloads and new buffer are those of scanning the old buffer followed by the data. |
| Assemblers.PassthroughAssembler.Encode | internal/ecoflow/frame.go:169-171 | The printed packet. |
| Assemblers.PassthroughAssembler.Reassemble | internal/ecoflow/frame.go:173-204 | As above, for bare packets. |
| Assemblers.RawHeaderAssembler.Encode | internal/ecoflow/frame.go:213-223 | The clear header followed by the encrypted body. |
| Assemblers.RawHeaderAssembler.Reassemble | internal/ecoflow/frame.go:225-265 | As above, for packets with an encrypted body, both errors included. |
| Assemblers.FrameAssembler.Reassemble | internal/ecoflow/frame.go:86-90 | Whichever assembler is behind the interface, it scans with its own framing. |
| Handshake.SimplePacketAssembler.Encode | internal/ecoflow/frame.go:287-289 | The unencrypted frame of type 0. |
| Handshake.SimplePacketAssembler.Parse | internal/ecoflow/frame.go:291-329 | The payload pulled and the new buffer are those of `PullNext` on the old buffer followed by the data. |
| Handshake.SimplePacketAssembler.Drain | internal/ecoflow/frame.go:291-329 | One call with data and then calls without, until nothing comes, give the payloads and buffer of one push-style read. |
| Handshake.PullIsFirst | internal/ecoflow/frame.go:291-329 | One pull is the first payload of the push-style scan and leaves the rest to be scanned. |
| Handshake.PullResumes | internal/ecoflow/frame.go:291-329 | Bytes that arrive later neither change a pulled payload nor get lost. |
| Handshake.WaitForSimplePayload | internal/ecoflow/provider.go:360-383 | Returns at the earliest event that completes a reply, with exactly the later bytes still buffered; otherwise says why it stopped. |
| Handshake.SearchIsFirstReply | internal/ecoflow/provider.go:366-380 | The payload found is the first of the stream's payloads that answers the command; later ones stay readable. |
| Handshake.SearchResumes | internal/ecoflow/provider.go:363-382 | The search does not depend on where the stream is cut. |
| Handshake.SameReply | internal/ecoflow/provider.go:363-382 | Two waits on different cuttings of one stream find one reply and leave the same bytes. |
| Handshake.AwaitIs | internal/ecoflow/provider.go:360-383 | The wait as a function keeps every promise of `WaitForSimplePayload`. |
| Handshake.WaitUnique | internal/ecoflow/provider.go:360-383 | Those promises determine result, events used and bytes kept. |
| KeyExchange.Ask | internal/ecoflow/provider.go:257-263 | A handshake request on the wire, or the error of encoding or writing it. |
| KeyExchange.Wait | internal/ecoflow/provider.go:360-383 | The waiting loop computes the function `Await` of the bytes kept before and the events. |
| KeyExchange.ExchangeKeys | internal/ecoflow/provider.go:251-309 | Requests sent, cipher, bytes left and events used, or the first failure in the program's order, for every event list. |
| KeyExchange.ExchangeKeyInfo | internal/ecoflow/provider.go:268-309 | The half from the reply to the public key on, with all its length checks. |
| KeyTheorems.ReplyAgreed | internal/ecoflow/provider.go:268-283 | A reply with any 40-byte key, any two free bytes, a supported curve and any tail leads to the temporary cipher of exactly that key. |
| KeyTheorems.InfoDerived | internal/ecoflow/provider.go:295-309 | Key info made of the encrypted secret leads to the session cipher of exactly the device's key and the secret. |
| KeyTheorems.ReplyDecided | internal/ecoflow/provider.go:268-281 | For every reply, exactly when each refusal comes. |
| KeyTheorems.InfoDecided | internal/ecoflow/provider.go:295-308 | For every key info, exactly when each refusal comes. |
| KeyTheorems.FirstHalf | internal/ecoflow/provider.go:253-267 | What is sent first, and what each failure up to the reply does. |
| KeyTheorems.SecondHalf | internal/ecoflow/provider.go:268-309 | What is sent second, and what each failure after the reply does. |
| KeyExchange.BootstrapSession | internal/ecoflow/provider.go:240-315 | For every encryption type: the framing agreed on, a fresh assembler that starts empty, and authentication on the events after the exchange. |
| KeyTheorems.FramingByType | internal/ecoflow/provider.go:241-314 | Which framing each encryption type leads to, and that all others are refused. |
| KeyTheorems.StartDecided | internal/ecoflow/provider.go:317-358 | A session starts exactly if a framing is agreed on, both requests were sent and authentication is done. |
| Authentication.WritePacket | internal/ecoflow/provider.go:385-391 | What is sent, and the error if encoding or writing fails. |
| Authentication.OpeningDecided | internal/ecoflow/provider.go:318-323 | Which requests are on the wire for each combination of failing writes. |
| Authentication.FinishAuthentication | internal/ecoflow/provider.go:317-358 | The requests go out in order until one fails; if none does, the result is `Authenticate` of the buffer and the events. |
| Authentication.AwaitAuthentication | internal/ecoflow/provider.go:326-357 | The loop computes `Authenticate`, and the assembler keeps the buffer the result names. |
| Authentication.RequestRecognised | internal/ecoflow/provider.go:393-420 | Both requests can be encoded, and are recognised as printed if and only if they travel in outer frames or have version 2. |
| Authentication.RequestsArrive | internal/ecoflow/provider.go:393-420 | Where recognised, a receiver with the same framing reads exactly two packets from any cutting, with these literal addresses, commands and payloads. |
| Authentication.ReadAuthRound | internal/ecoflow/provider.go:337-352 | One notification's payloads are sorted into replies and pending packets, or refused. |
| Authentication.AuthRoundIs | internal/ecoflow/provider.go:337-355 | Pending are exactly the packets that are not replies, in order; it is refused with the first refusing reply's code. |
| Authentication.AuthenticateIs | internal/ecoflow/provider.go:326-357 | Authentication ends at the first event that completes a packet, cancels or times out, and for the reason that this event gives; pending packets and buffer are those of the stream so far. |
| Session.DeviceSession.ProcessPacket | internal/ecoflow/provider.go:154-188 | The whole new state after one packet; errors and empty readings publish nothing. |
| Session.DeviceSession.ProcessPending | internal/ecoflow/provider.go:190-194 | The packets left from authentication are handled in order until one fails. |
| Session.DeviceSession.OnNotification | internal/ecoflow/provider.go:200-220 | The new state is `OnChunk` of the old one. |
| Session.DeviceSession.OnIdleTick | internal/ecoflow/provider.go:221-235 | The new state is `OnTick` of the old one. |
| Session.DeviceSession.Loop | internal/ecoflow/provider.go:196-237 | Running the loop over events is `Run`. |
| Session.KnowsLastGrows | internal/ecoflow/types.go:53-71 | After a merge each field is the last value any report gave for it. |
| Session.RunCoherent | internal/ecoflow/provider.go:149-237 | At every point of every session: WAIT exactly when stale, otherwise the last known value of each field of all reports; the last notification's time is known. |
| Session.Freshness | internal/ecoflow/provider.go:221-235 | After a tick with a live status the latest report is younger than the stale timeout, and the session goes on if and only if it was heard within two poll intervals and a due keep-alive was written. |
| Published.LiveStatus | internal/ecoflow/provider.go:450-512 | Over all runs: a live status says OL or OB by the last report of input power, LB by the last given charge and runtime, and every published field is the last one reported. |
| Published.RunAccounted | internal/ecoflow/provider.go:168-187 | Over all runs there is one report for each handler reading with a field, in order, and none besides; a failing handler, and only that, ends the session so. |
| Published.PayloadDecides | internal/ecoflow/provider.go:206-219 | One payload is ignored, refuses with the device's code, or is one more packet handled. |
| Published.ChunkDecides | internal/ecoflow/provider.go:200-220 | A notification sets the time last heard; its reports bear that time and make the status live, and nothing else does. |
| Published.TickDecides | internal/ecoflow/provider.go:221-235 | A tick withdraws a live status if and only if the last report is as old as the timeout, and the exact reason for each end. |
| Published.CancelDecides | internal/ecoflow/provider.go:198-199 | The end of the context ends the session and changes nothing else. |
| FieldAge.FieldFreshness | internal/ecoflow/provider.go:183-235 | After such a tick each published field has the value of the last report that gave it, and is younger than the timeout if and only if some report that young gave it. |
| FieldAge.OldFieldPublished | internal/ecoflow/types.go:53-71 | A run in which a charge is withdrawn as stale and published again, 101 old with a timeout of 10, because another field was reported. |
| Bootstrap.LeftBehind | internal/ecoflow/provider.go:291-310 | Not passing bytes on changes no later reading if and only if they hold no frame, whole or begun. |
| Bootstrap.FramesLeftBehind | internal/ecoflow/provider.go:291-310 | For the beginning of a stream of frames that is so if and only if it is empty. |
| Bootstrap.LostWithReply | internal/ecoflow/provider.go:309-310 | If what stayed behind reads as whole frames, the packets of the stream behind the key info are those frames' packets followed by the ones the session handled; it handled all if and only if those frames held only replies. |
| Bootstrap.FirstPacketsLost | internal/ecoflow/provider.go:309-310 | The same for sent packets: if their frames stayed behind, exactly they are lost. |
| Bootstrap.ReplyFound | internal/ecoflow/provider.go:366-380 | A handshake frame that answers is found where it stands, and all bytes behind it stay buffered. |
| Bootstrap.AnythingLeft | internal/ecoflow/provider.go:264-310 | Any bytes at all can stay behind: they need only come in one notification with the key info. |
| Bootstrap.LeftIsTail | internal/ecoflow/provider.go:264-310 | What stays behind is the end of the bytes received up to the key info. |
| Bootstrap.ChainLoses | internal/ecoflow/provider.go:251-311 | Over the whole chain of one event list, from the first handshake byte to a session that lasts: it misses exactly the packets of the frames that stayed behind. |
| Bootstrap.OpenSession | internal/ecoflow/provider.go:137-194 | The session object after the bootstrap has the agreed framing, the assembler's buffer and the pending packets handled. |
| Session.HandOff | internal/ecoflow/provider.go:137-220 | From the first byte given to the session's assembler, each packet that is not a reply is handled once and in order, wherever authentication ended. |
| Session.DeviceToHandler | internal/ecoflow/provider.go:137-220 | If the bytes so far are the frames of some packets, the handler has seen exactly those that are not replies, with nothing left buffered. |
| Device.LiveOnlyFromThisSession | internal/ecoflow/provider.go:82-98 | Over all reconnections, until the device is given up, a live status is shown only during a session and from that session's own reports. |
| Device.StageDecides | internal/ecoflow/provider.go:85-97 | Where every stage leads for everything that can happen in it. |
| Device.GivenUpOnlyAtTheEnd | internal/ecoflow/provider.go:85-97 | Over all runs a device is given up only when its context has ended; until then it keeps trying. |
| Device.GivenUpKeepsStatus | internal/ecoflow/provider.go:87-95 | A device given up keeps the status of the session it was given up with, or WAIT if there was none. |
| Device.LiveWhenGivenUp | internal/ecoflow/provider.go:86-89 | A run in which that status is live. |
| Fleet.ApplyCounted | internal/ecoflow/provider.go:46-79 | Every step keeps the wait group's counter equal to the number of goroutines started and not gone. |
| Fleet.ReturnedQuiet | internal/ecoflow/provider.go:63-79 | Once `Run` has returned none of its goroutines is left, so no step of it may write. |
| Fleet.NoWriteAfterReturn | internal/ecoflow/provider.go:32-80 | Over every interleaving of main, devices, waiter and context, nothing is written after the return. |
| Fleet.WorkerDecides | internal/ecoflow/provider.go:51-60 | A device's error is reported, cancels the others and only then leaves the wait group, unless the context had ended. |
| Fleet.MainDecides | internal/ecoflow/provider.go:63-79 | Main waits exactly until the context ends or an error is reported, and returns exactly when the group is empty. |
| Fleet.AllStarted | internal/ecoflow/provider.go:48-61 | Every device gets its goroutine. |
| Fleet.CanReturn | internal/ecoflow/provider.go:63-79 | Once the context has ended, steps of its own goroutines let `Run` return, wherever they all stand. |
| Manager.ProviderManager.Enable | internal/runtime/provider_manager.go:93-105 | The new shared state, and that a signal follows exactly if it was disabled. |
| Manager.ProviderManager.Disable | internal/runtime/provider_manager.go:107-123 | The new shared state, and the cancel function taken along. |
| Manager.ProviderManager.BeginRun | internal/runtime/provider_manager.go:140-149 | A run starts exactly while enabled and before the parent context ends. |
| Manager.ProviderManager.EndRun | internal/runtime/provider_manager.go:158-162 | The cancel function is dropped and Running cleared. |
| Manager.ProviderManager.SetRetrying | internal/runtime/provider_manager.go:207-225 | Retrying or disabled, as Enabled says. |
| Manager.ProviderManager.SetStopped | internal/runtime/provider_manager.go:227-234 | Stopped, with no cancel function. |
| Manager.ProviderManager.SignalWake | internal/runtime/provider_manager.go:200-205 | The one-slot channel holds a token afterwards. |
| Manager.RetryDelay | internal/runtime/provider_manager.go:172-177 | The configured gap if it is positive and five seconds otherwise, so the retry wait always has a timer. |
| ManagerProgress.RetryWaitEnds | internal/runtime/provider_manager.go:179-198 | The retry wait ends by its timer always, by the token if it is there and by the context if it has ended. |
| ManagerProgress.DisabledWaitEnds | internal/runtime/provider_manager.go:179-186 | The disabled wait likewise, but never by a timer. |
| ManagerProgress.LoopMoves | internal/runtime/provider_manager.go:62-91 | The loop stands still exactly in a wait with nothing to see, beside a live runner, or when it has exited. |
| ManagerProgress.LoopDecides | internal/runtime/provider_manager.go:62-91 | At every other place, the one way on and all that it changes. |
| ManagerProgress.EveryRunCancelled | internal/runtime/provider_manager.go:138-139 | Over all runs every run but the present one has had its own context cancelled. |
| ManagerProgress.WriteTakesEffect | internal/runtime/provider_manager.go:152-154 | What a goroutine that may write writes is stored for its own device. |
| ManagerProgress.NewRunnerComes | internal/runtime/provider_manager.go:62-91 | In every reachable state that is enabled, with the context alive, no runner live and no call under way, the loop's own steps start a new runner. |
| ManagerProgress.DisabledRests | internal/runtime/provider_manager.go:68-74 | Disabled, with no runner live, they lead to the disabled wait, reported "disabled". |
| ManagerProgress.Stops | internal/runtime/provider_manager.go:64-89 | After the end of the context, with no runner live, they lead out of the loop, reported "stopped". |
| ManagerProgress.StopsOnlyAtTheEnd | internal/runtime/provider_manager.go:64-89 | The loop exits only after the context has ended. |
| ManagerProgress.CallBegins | internal/runtime/provider_manager.go:93-123 | What the first section of each call leaves it to do. |
| ManagerProgress.CallFinishes | internal/runtime/provider_manager.go:104-128 | Every call can finish by its own steps, having marked every device, cancelled exactly the run it held and left the token. |
| ManagerProgress.CancelledRunReturns | internal/runtime/provider_manager.go:151-156 | In every reachable state a cancelled run's own goroutines can let it return, and the loop then goes on. |
| Manager.Always | internal/runtime/provider_manager.go:62-234 | The conjunction of all invariants holds after any sequence of steps. |
| Manager.NoLostWakeup | internal/runtime/provider_manager.go:179-205 | In the disabled wait while enabled, a token is there or an Enable has yet to send it; likewise for Disable in the retry wait. |
| Manager.CancellationNeverDropped | internal/runtime/provider_manager.go:107-164 | At most one runner is live, and it is reported Running if and only if it is neither cancelled nor its cancel function held by a Disable. |
| Manager.StatusAlwaysCoherent | internal/runtime/provider_manager.go:93-129 | Running implies enabled and "running"; unless stopped, the reported state agrees with Enabled both ways. |
| Manager.IdleMeansWait | internal/runtime/provider_manager.go:68-89 | In either wait no runner is live, none of its goroutines can write, and every device's last stored status is WAIT. |
| Manager.StartsOnlyWhenEnabled | internal/runtime/provider_manager.go:137-149 | A runner appears only while enabled, with the parent context alive and no runner before it still live. |
| Manager.StoppedUntilToggled | internal/runtime/provider_manager.go:93-129 | Once stopped, the loop stays exited with nothing live, and "stopped" is reported if and only if no call has changed Enabled since; after that the state is starting or disabled, as Enabled says. |
| Manager.StoppedIsReplaced | internal/runtime/provider_manager.go:227-234 | A run in which a late Disable replaces "stopped". |
| Manager.PhaseWhileLive | internal/runtime/provider_manager.go:93-149 | Of a live runner the reported state, Running and Enabled are functions of how many calls changed Enabled since its run began. |
| Manager.DisabledWhileLive | internal/runtime/provider_manager.go:107-129 | A run that reports "disabled" while a runner is live. |
| Connect.UniqueOwner | internal/ecoflow/transport_tinygo.go:90-121 | An opened connection is in flight, or returned and not closed, or closed once and never returned. |
| Connect.NeverStuck | internal/ecoflow/transport_tinygo.go:102-111 | While a connection is offered, a step that gives it an owner or closes it is possible. |
| Connect.CallerLeaves | internal/ecoflow/transport_tinygo.go:93-120 | What each goroutine's action does to the other's place and to the caller's result. |
| Connect.ReturnsWhatWasOpened | internal/ecoflow/transport_tinygo.go:103-119 | The caller is returned the very result that connecting came to. |
| Connect.ErrorNamesCause | internal/ecoflow/transport_tinygo.go:112-117 | An error names the parent's end exactly if the parent had ended. |
| Connect.OwnerIsFinal | internal/ecoflow/transport_tinygo.go:102-120 | Who owns the connection does not change any more. |

## Left out

- AES, MD5, secp160r1 and the key table: the cipher is any length-preserving bijection on block-aligned
  strings; keys and their length errors are not modelled.
- Aliasing of byte slices: buffers, payloads and notifications are values, so sharing of their backing
  arrays is not captured; the in-place xor of a payload is modelled on a sequence.
- Scanning, characteristic discovery and writes: a notification dropped because the channel is full was
  never in the stream; the outcome of a keep-alive write is part of a tick.
- The protobuf and v2/v3 decoders, the time responder and outgoing replies: the handler is an arbitrary
  function of the packets so far, its errors covering failed replies. Profiles, configuration, the store's
  internals, the NUT and web servers, cloud login and logging would only add easy members.
- Computing keys: the key pair, the key agreement and the session key are arbitrary functions that may fail;
  the two initialisation vectors are part of the ciphers they yield.
- Bootstrap.LostWithReply: for bytes left behind that end inside a frame it is not said which packets the
  session then finds, as a cipher may make anything of the rest.
- Building the digest in the login request: it is any 32 hexadecimal digits.
- Time: one time per notification, so `lastPacket` and `lastFresh` are set to the same instant; times do not
  run backwards where ages of fields are compared.
- Identity fields, LastError and time stamps in stored and reported states.
- Other writers of a device's store entry during a session: in `Session` and `Device` only the session and
  its reconnect loop write it; in `Manager` a runner's goroutines may write any status while they exist.
- Fleet.NoWriteAfterReturn: the text of errors is left out, and resolving the user is only its outcome.
- Scheduling fairness: progress means that steps which lead on are always possible, not that they are taken.
- Manager.CancellationNeverDropped: cancelled means by the run's own cancel function; that the end of the
  parent context also ends the run's context is not part of that set.
- StreamRoundTrip.Recognised: for a type 7 frame too long for the reader it says only that the frame is not
  recognised where it starts, not what is found inside its ciphertext.
- Handshake.WaitForSimplePayload: when several events are ready the order they are taken in is the order of
  the event list; running out of events stands for blocking.
