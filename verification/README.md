# weeveMQ: models and proofs

weeveMQ secures MQTT between devices and a broker.  Its client and broker are built on mosquitto 1.5.2, with
a secure messaging protocol (SMP) between the MQTT packets and the socket.  This project models the parts in
which state, loops and arithmetic interact and proves what they promise, over all inputs and all runs:

- `PacketIds`, `ClientSpec`, `ClientProofs`, `ClientWire`, `Client`, `Inbound`: the client's QoS 1 and 2 engine.  `ClientSpec` says
  what each operation does to the queue, the counters and the wire, `Client` proves the in-place code on the linked queue
  against it, and `ClientProofs` and `ClientWire` prove what holds over every run: the in-flight window, no PUBLISH after
  PUBREL, ordered resending, nothing lost, and what goes out for each call.  `Inbound` is the receiving half.
- `Stores`, `BrokerSpec`, `BrokerProofs`, `BrokerOrder`, `BrokerWorld`, `Broker`: the broker's message database, in the same
  layout: the reference-counted store on its doubly linked list, two message lists and four counters for each client, and
  over every run the counters, the limits, the order of messages, and reference counts across all clients.
  `BrokerKeeps` says which messages are kept and for how long, `BrokerAnswers` which packets go out.
  `BrokerSequence`, `BrokerResume`, `BrokerReceived` and `BrokerEcho` say exactly when the broker departs from what it is
  meant to keep: the order of insertion, no PUBLISH after PUBREC, and inbound messages left alone by a takeover.
- `RemainingLength`, `Framing`, `FrameReader`, `Streams`, `Writer`: packets on a socket that reads and writes in pieces.
- `Packets`, `PublishPacket`, `ConnectPacket`: building and parsing packets, as round trips up to the far end of the socket.
- `Topics`, `Utf8`: the topic checks and the one-pass matcher against the level-by-level definition, and the UTF-8
  validator against RFC 3629.
- `SmpHeader`, `Smp`, `SmpRuns`, `SmpIntegrity`, `SmpSession`: the SMP session protocol with ideal cryptography, its runs
  over a network that drops, repeats, reorders and turns back frames, and frames altered on the way.
- `LinkedLists`, `Bytes`: linked lists with a tail pointer, octets and return codes.

A class stands for a C struct, with its fields; `Abs()` or `State()` is its value, and the contract of a method equates the new
value with a function of the old one.  Some fields exist in the model only: serial numbers that tell messages apart (`serial`,
`draws`, `inserted`, `sends`) and records of what went out (`wire`, `sent`, `reported`).  Sends that fail are modelled by the
number of sends that still succeed (`sends`, `left`), sockets by the answers that they are going to give (`answers`).

Where the code and its documentation differ, the model follows the code:

- The comment at the SMP counter check asks for a greater counter; the code lets an equal one pass
  (`SmpRuns.RepeatedIff` says what follows).
- The SMP label tables are written as if their first entry were for type 1, but are indexed by the type itself, so that
  every type uses the label of the next one, on both sides alike; type 14 reads behind the end.
- Header, label and packet of an SMP frame are authenticated without their lengths, and so are the parts of an opening;
  what that leaves open is said by `SmpIntegrity.ConfusedIff` and `SmpIntegrity.ReopensIff`.
- The inbound reset promises to drop everything that is not QoS 2, and skips a message after dropping the head
  (`Inbound.ResetDropsOthersIff`).
- `handle__publish` at the client does not look for a message held under the same identifier
  (`Inbound.DeliveredOnceIff`).
- `packet__write_string` cuts the length of a string to 16 bits; neither the user name nor the will payload is checked
  against that (`ConnectPacket.FilledIff`).
- The broker's reset is to put outgoing messages in a sensible state and leave incoming ones as they are.  It forgets
  a PUBREC when it comes again before the PUBREL is sent (`BrokerReceived.PublishedAgainIff`), and makes waiting inbound
  messages that it moves into ones to be published (`BrokerEcho.EchoedOverRunIff`).
- The broker's reset assumes that it always moves the message it looks at (`BrokerProofs.ResetCountsIff`).  If an inbound
  QoS 0 or 1 message were in flight, it would also pass over the message behind (`BrokerProofs.TakeOverCountedIff`) and could
  be left with a tail pointer to the removed message (`Broker.Context.ReconnectReset`); insertion puts none there.
- The broker subtracts the octets allowed in flight from those held, without looking whether there are as many
  (`BrokerKeeps.DroppedBelowLimits`), and after a PUBREL leaves one place in flight free (`BrokerAnswers.ReleaseFills`).
- The end of the stream inside a packet body is reported as an error of the socket, not as a lost connection as elsewhere
  (`FrameReader.FrameReader.PacketRead`).
- The broker's two notions of room disagree about QoS 0, and QoS 0 messages do not wait behind others
  (`BrokerSequence.InSequenceIff`).

## Model

| member | source | states |
|---|---|---|
| PacketIds.MidCycle | WeeveMQTTSClient/mosquitto-1.5.2/lib/util_mosq.c:116-135 | the identifier after any number of draws, in closed form: the draws walk round 1 to 65535 and never give 0 |
| PacketIds.MidsRepeat | WeeveMQTTSClient/mosquitto-1.5.2/lib/util_mosq.c:116-135 | two draws give the same identifier if and only if a multiple of 65535 draws lies between them |
| ClientProofs.EnqueueWindow | WeeveMQTTSClient/mosquitto-1.5.2/lib/messages_mosq.c:127-142 | publishing keeps the window: the messages in flight are exactly the first ones of the queue, as many as the limit allows, and the counter is their number |
| ClientProofs.RemoveInFlight | WeeveMQTTSClient/mosquitto-1.5.2/lib/messages_mosq.c:229-281 | acknowledging a message in flight takes out that one and sends exactly the first waiting message, if there is one |
| ClientProofs.RemoveKeepsWindowIff | WeeveMQTTSClient/mosquitto-1.5.2/lib/messages_mosq.c:229-281 | removing a queued message keeps the window if and only if that message was in flight |
| ClientProofs.PubrecKeepsWindowIff | WeeveMQTTSClient/mosquitto-1.5.2/lib/handle_pubrec.c:38-63 | PUBREC keeps the window if and only if it names no queued message or a QoS 2 message in flight |
| ClientProofs.ResetShape | WeeveMQTTSClient/mosquitto-1.5.2/lib/messages_mosq.c:189-217 | a reconnect keeps the messages in flight in flight, with the retry state of each, and all others waiting |
| ClientProofs.ResetInWindow | WeeveMQTTSClient/mosquitto-1.5.2/lib/messages_mosq.c:189-217 | inside the window the reset forgets no state: each message in flight gets its retry state, no other changes |
| ClientProofs.MidsDiffer | WeeveMQTTSClient/mosquitto-1.5.2/lib/actions.c:46-82 | all queued identifiers differ if fewer than 65535 were drawn since the oldest queued message |
| ClientProofs.RunInv | WeeveMQTTSClient/mosquitto-1.5.2/lib/messages_mosq.c:119-391 | the window, and the origin of every queued identifier from the generator, hold in every state that publishes, acknowledgements of messages in flight, reconnects and retries lead to |
| ClientProofs.WindowAlways | WeeveMQTTSClient/mosquitto-1.5.2/lib/messages_mosq.c:119-283 | from the start, in every run: the messages in flight are the first min(length, limit) ones of the queue, and all identifiers differ |
| ClientProofs.StepReleased | WeeveMQTTSClient/mosquitto-1.5.2/lib/messages_mosq.c:156-391 | no step other than its own acknowledgement sends PUBLISH for a message whose PUBREC has come, or forgets that it came |
| ClientProofs.RunReleased | WeeveMQTTSClient/mosquitto-1.5.2/lib/messages_mosq.c:156-391 | the same over any run |
| ClientProofs.NoPublishAfterPubrec | WeeveMQTTSClient/mosquitto-1.5.2/lib/handle_pubrec.c:38-63 | section 4.3.3 of MQTT 3.1.1: in every run, after PUBREC for a QoS 2 message, through reconnects and retries, no PUBLISH has its identifier and it stays queued for PUBREL until it is acknowledged |
| ClientProofs.RetrySends | WeeveMQTTSClient/mosquitto-1.5.2/lib/messages_mosq.c:321-358 | the retry sends no PUBLISH with an identifier whose queued messages have all had their PUBREC |
| ClientProofs.RetryInOrder | WeeveMQTTSClient/mosquitto-1.5.2/lib/messages_mosq.c:321-358 | if the first messages of the queue are due one packet each and the others none, as they are after a reset, the retry sends exactly those packets in queue order |
| ClientProofs.OrderedResend | WeeveMQTTSClient/mosquitto-1.5.2/lib/messages_mosq.c:189-218 | sections 4.4 and 4.6: after a reconnect and whatever is published before CONNACK, the retry sends exactly one packet per message that was in flight, in order: PUBLISH with dup before PUBREC, PUBREL after it |
| ClientProofs.NothingLost | WeeveMQTTSClient/mosquitto-1.5.2/lib/actions.c:46-96 | in every run, with unexpected acknowledgements too, the queue is the accepted publications without the completed ones, in the order of publication |
| ClientWire.CallSends | WeeveMQTTSClient/mosquitto-1.5.2/lib/actions.c:76-94 | a call sends its PUBLISH at once, with its own fields, the next identifier and DUP not set, if and only if fewer messages than the limit are queued; otherwise nothing |
| ClientWire.RunFirsts | WeeveMQTTSClient/mosquitto-1.5.2/lib/messages_mosq.c:119-283 | in every run: what was sent for the first time, followed by what is beyond the window, is what the calls asked for, in the order of the calls |
| ClientWire.RunRepeats | WeeveMQTTSClient/mosquitto-1.5.2/lib/messages_mosq.c:321-358 | in every run a PUBLISH with DUP set repeats one that was sent before without it |
| ClientWire.WireAlways | WeeveMQTTSClient/mosquitto-1.5.2/lib/actions.c:46-96 | from the start, in every run: each accepted publication is sent once without DUP, with the fields of the call and in the order of the calls, as soon as the window admits it and not before, and every other PUBLISH repeats one of these |
| ClientWire.RunCalm | WeeveMQTTSClient/mosquitto-1.5.2/lib/messages_mosq.c:321-358 | as long as there is no reconnect, nothing is published twice |
| ClientWire.ReleasedAfterPubrec | WeeveMQTTSClient/mosquitto-1.5.2/lib/handle_pubrec.c:38-63 | a message is answered by PUBREL and kept for PUBCOMP only if a PUBREC with its identifier has come |
| Client.Mosquitto.MidGenerate | WeeveMQTTSClient/mosquitto-1.5.2/lib/util_mosq.c:116-135 | the 16-bit increment that skips 0 is the draw of the specification |
| Client.Mosquitto.Queue | WeeveMQTTSClient/mosquitto-1.5.2/lib/messages_mosq.c:127-142 | the message is linked behind the tail; the result says whether the window had room, and the in-flight counter follows it |
| Client.Mosquitto.Publish | WeeveMQTTSClient/mosquitto-1.5.2/lib/actions.c:31-97 | the arguments that are refused leave everything as it was; otherwise one identifier is drawn and the message is sent or queued as the specification says |
| Client.CheckArguments | WeeveMQTTSClient/mosquitto-1.5.2/lib/actions.c:36-44 | a publication is accepted if and only if topic, payload length and QoS are allowed, otherwise with the right error |
| Client.Mosquitto.Lookup | WeeveMQTTSClient/mosquitto-1.5.2/lib/messages_mosq.c:231-254 | the loop finds the first message with the identifier and the node before it |
| Client.Mosquitto.PromoteWaiting | WeeveMQTTSClient/mosquitto-1.5.2/lib/messages_mosq.c:256-280 | the promotion loop on the linked queue does what the specification says to the queue, the counter and the wire |
| Client.Mosquitto.Remove | WeeveMQTTSClient/mosquitto-1.5.2/lib/messages_mosq.c:221-284 | the unlinking and the promotion together; the queue length, the tail and the counter stay right |
| Client.Mosquitto.OutUpdate | WeeveMQTTSClient/mosquitto-1.5.2/lib/messages_mosq.c:373-391 | the first message with the identifier gets the new state, or the result says that there is none |
| Client.Mosquitto.ReconnectReset | WeeveMQTTSClient/mosquitto-1.5.2/lib/messages_mosq.c:189-218 | the reset loop gives every message its state after a reconnect and recomputes both counters and the tail |
| Client.Mosquitto.RetryCheck | WeeveMQTTSClient/mosquitto-1.5.2/lib/messages_mosq.c:321-358 | the retry loop sends what is due and sets dup |
| Client.Mosquitto.HandlePubrec | WeeveMQTTSClient/mosquitto-1.5.2/lib/handle_pubrec.c:38-63 | the first message with the identifier now waits for PUBCOMP, and a PUBREL goes out for known and unknown identifiers alike |
| Client.Mosquitto.HandlePubackcomp | WeeveMQTTSClient/mosquitto-1.5.2/lib/handle_pubackcomp.c:57-77 | the message is removed and what waits is started; on_publish is called exactly if the message was there and no send failed |
| Inbound.RunConserves | WeeveMQTTSClient/mosquitto-1.5.2/lib/messages_mosq.c:143-315 | in every run, reconnects included, the QoS 2 messages received under an identifier are those delivered followed by those held, in the order of arrival |
| Inbound.ExactlyOnce | WeeveMQTTSClient/mosquitto-1.5.2/lib/handle_pubrel.c:66-79 | a QoS 2 message that arrives once is delivered exactly once if a PUBREL comes, however often that is repeated, and not before |
| Inbound.PubrelsDeliver | WeeveMQTTSClient/mosquitto-1.5.2/lib/handle_pubrel.c:66-79 | each PUBREL delivers the oldest message held under its identifier, and later ones nothing more |
| Inbound.DeliveredOnceIff | WeeveMQTTSClient/mosquitto-1.5.2/lib/handle_publish.c:112-118 | after an arrival and any run without another one, exactly one message more has been delivered under the identifier if and only if one PUBREL came, or more came and none was held under it before: a PUBLISH repeated before its PUBREL reaches the application twice |
| Inbound.RunAnswers | WeeveMQTTSClient/mosquitto-1.5.2/lib/handle_publish.c:90-118 | in every run the PUBACKs, PUBRECs and PUBCOMPs sent are those for the QoS 1 messages, the QoS 2 messages and the PUBRELs that came, one for each, in order |
| Inbound.NoOtherAnswers | WeeveMQTTSClient/mosquitto-1.5.2/lib/handle_publish.c:90-118 | and there are no other answers |
| Inbound.RunDelivers | WeeveMQTTSClient/mosquitto-1.5.2/lib/handle_publish.c:90-111 | in every run messages of QoS 0 and 1 reach the application once each, in the order in which they came |
| Inbound.ResetDropsOthersIff | WeeveMQTTSClient/mosquitto-1.5.2/lib/messages_mosq.c:162-186 | the reset loop leaves only QoS 2 messages if and only if not both of the first two messages have another QoS; the loop skips one after dropping the head |
| Inbound.ResetKeepsQos2 | WeeveMQTTSClient/mosquitto-1.5.2/lib/messages_mosq.c:162-186 | on a queue of QoS 2 messages the reset changes nothing |
| Inbound.InQueue.HandlePublish | WeeveMQTTSClient/mosquitto-1.5.2/lib/handle_publish.c:90-121 | QoS 0 and 1 are delivered at once, QoS 2 is linked behind the tail and answered by PUBREC |
| Inbound.InQueue.HandlePubrel | WeeveMQTTSClient/mosquitto-1.5.2/lib/handle_pubrel.c:60-81 | the first message held under the identifier is unlinked and delivered, and PUBCOMP goes out either way |
| Inbound.InQueue.ReconnectReset | WeeveMQTTSClient/mosquitto-1.5.2/lib/messages_mosq.c:162-186 | the reset loop on the linked list, dropped nodes, skipped nodes, tail and length included |
| Topics.LevelsJoin | WeeveMQTTSClient/mosquitto-1.5.2/lib/mosquitto.c:446-501 | splitting a topic into levels loses nothing and leaves no separator in a level |
| Topics.SubTopicTokenise | WeeveMQTTSClient/mosquitto-1.5.2/lib/mosquitto.c:446-501 | the array holds exactly the levels in order, NULL for empty ones |
| Topics.CharsOkIsFilterOk | WeeveMQTTSClient/mosquitto-1.5.2/lib/util_mosq.c:179-200 | the character rule of the check (what precedes and follows a wildcard) is the level rule of section 4.7.1 |
| Topics.SubTopicCheck | WeeveMQTTSClient/mosquitto-1.5.2/lib/util_mosq.c:179-200 | accepted exactly are the filters of at most 65535 octets whose wildcards fill a level, # in the last one only |
| Topics.PubTopicCheck | WeeveMQTTSClient/mosquitto-1.5.2/lib/util_mosq.c:142-155 | accepted exactly are names without wildcards of at most 65535 octets |
| Topics.SameChar | WeeveMQTTSClient/mosquitto-1.5.2/lib/util_mosq.c:262-295 | consuming an equal character on both sides does not change the level-wise verdict |
| Topics.PlusLevel | WeeveMQTTSClient/mosquitto-1.5.2/lib/util_mosq.c:297-312 | consuming + with the level of the topic does not change the verdict |
| Topics.Mismatch | WeeveMQTTSClient/mosquitto-1.5.2/lib/util_mosq.c:320-340 | a mismatch is final unless only /# is left, which matches the parent level |
| Topics.EqualStep | WeeveMQTTSClient/mosquitto-1.5.2/lib/util_mosq.c:272-295 | the branch for equal characters returns only with the right verdict, and otherwise keeps the place in both strings |
| Topics.TopicMatchesSub | WeeveMQTTSClient/mosquitto-1.5.2/lib/util_mosq.c:243-347 | for every well-formed filter and topic name the one-pass scanner succeeds and its result is the level-wise match of sections 4.7.1 and 4.7.2; empty strings are refused; it terminates |
| Utf8.DecodeOfEncoding | WeeveMQTTSClient/mosquitto-1.5.2/lib/utf8_mosq.c:22-92 | section 3 of RFC 3629: decoding the encoding of any text of scalar values gives the text back |
| Utf8.EncodingOfDecode | WeeveMQTTSClient/mosquitto-1.5.2/lib/utf8_mosq.c:22-92 | whatever the byte rules of the validator accept is the encoding of a text of scalar values |
| Utf8.EncodingUnique | WeeveMQTTSClient/mosquitto-1.5.2/lib/utf8_mosq.c:22-92 | no octet sequence encodes two texts |
| Utf8.StartsWellSound | WeeveMQTTSClient/mosquitto-1.5.2/lib/utf8_mosq.c:40-88 | one sequence that the tests for lead, length, over-long forms, surrogates and range let pass is the encoding of its code point |
| Utf8.StartsWellComplete | WeeveMQTTSClient/mosquitto-1.5.2/lib/utf8_mosq.c:40-88 | the encoding of every scalar value passes those tests |
| Utf8.Reconstruct | WeeveMQTTSClient/mosquitto-1.5.2/lib/utf8_mosq.c:63-71 | the inner loop reads exactly the continuation octets, stops at the terminator of a truncated tail, and rebuilds the code point |
| Utf8.ValidateUtf8 | WeeveMQTTSClient/mosquitto-1.5.2/lib/utf8_mosq.c:22-92 | success if and only if the buffer is a concatenation of encodings of scalar values from 1 on and at most 65536 octets long |
| RemainingLength.EncodeValue | WeeveMQTTSClient/mosquitto-1.5.2/lib/packet_mosq.c:122-131 | the digits are a well-formed field for the number |
| RemainingLength.EncodeMinimal | WeeveMQTTSClient/mosquitto-1.5.2/lib/packet_mosq.c:122-131 | no shorter field has the same value |
| RemainingLength.FourDigitsIff | WeeveMQTTSClient/mosquitto-1.5.2/lib/packet_mosq.c:122-132 | four digits are enough if and only if the number is below 2 to the 28th |
| RemainingLength.DecodeInvertsEncode | WeeveMQTTSClient/mosquitto-1.5.2/lib/packet_mosq.c:768-796 | the digit loop of the reader gives back every length that can be sent, whatever follows |
| RemainingLength.EncodeLoop | WeeveMQTTSClient/mosquitto-1.5.2/lib/packet_mosq.c:122-132 | the loop that stops after five digits yields the encoding below the limit, and five digits exactly from the limit on |
| Framing.FeedIsParse | WeeveMQTTSClient/mosquitto-1.5.2/lib/packet_mosq.c:707-859 | fed byte by byte, the reader hands on exactly the frames of the one-piece parser and fails at the same over-long length |
| Framing.ChunkingIrrelevant | WeeveMQTTSClient/mosquitto-1.5.2/lib/packet_mosq.c:732-757 | however the stream is cut by short reads, the reader ends in the same state with the same frames, if no frame starts with a zero byte |
| Framing.CutsHarmlessIff | WeeveMQTTSClient/mosquitto-1.5.2/lib/packet_mosq.c:732-757 | that condition is exact for packets, where a zero command byte is taken for none, and void for the outer SMP frames |
| Framing.ReaderIsParser | WeeveMQTTSClient/mosquitto-1.5.2/lib/packet_mosq.c:497-595 | both together: any chunking gives the frames of the one-piece parser |
| FrameReader.FrameReader.ReadLength | WeeveMQTTSClient/mosquitto-1.5.2/lib/packet_mosq.c:767-806 | the resumable digit loop advances the abstract reader by exactly the bytes it consumed |
| FrameReader.FrameReader.ReadBody | WeeveMQTTSClient/mosquitto-1.5.2/lib/packet_mosq.c:807-850 | the resumable body loop does, and hands on a frame exactly when it is complete |
| FrameReader.FetchReads | WeeveMQTTSClient/mosquitto-1.5.2/lib/packet_mosq.c:732-836 | whatever the socket answers, a call reads a front part of what has arrived and feeds the abstract reader with just that |
| FrameReader.FetchStops | WeeveMQTTSClient/mosquitto-1.5.2/lib/packet_mosq.c:732-836 | a call that completes no frame ends at the first answer without data, which decides the return code |
| FrameReader.FetchFinishes | WeeveMQTTSClient/mosquitto-1.5.2/lib/packet_mosq.c:732-836 | if what has arrived completes a frame, or a length that is too long, one answer with data for each of its bytes is enough to hand it on, or to fail |
| FrameReader.FirstFrameFetched | WeeveMQTTSClient/mosquitto-1.5.2/lib/packet_mosq.c:707-859 | with enough answers one call hands on exactly the first frame of the one-piece parser and leaves the rest unread |
| FrameReader.FrameReader.PacketRead | WeeveMQTTSClient/mosquitto-1.5.2/lib/packet_mosq.c:707-859 | one call is the abstract reader fed with what was consumed, paused at the end; how much that is and what is returned follow from the answers of the socket |
| Streams.StreamParses | WeeveMQTTSClient/mosquitto-1.5.2/lib/packet_mosq.c:110-144 | the frames of a written stream are read back, whatever follows |
| Streams.StreamThroughSocket | WeeveMQTTSClient/mosquitto-1.5.2/lib/packet_mosq.c:707-859 | however the bytes of whole frames, with or without the front of one more, are cut: exactly the whole frames are handed on, in order |
| Packets.Packet.Alloc | WeeveMQTTSClient/mosquitto-1.5.2/lib/packet_mosq.c:110-144 | refused if and only if the remaining length is 2 to the 28th or more; otherwise the fixed header is in place with room for just the rest |
| Packets.Packet.WriteByte | WeeveMQTTSClient/mosquitto-1.5.2/lib/packet_mosq.c:278-285 | one octet is appended to what is written |
| Packets.Packet.WriteBytes | WeeveMQTTSClient/mosquitto-1.5.2/lib/packet_mosq.c:300-307 | the octets are appended to what is written |
| Packets.Packet.WriteUint16 | WeeveMQTTSClient/mosquitto-1.5.2/lib/packet_mosq.c:361-365 | the number is appended, high octet first |
| Packets.Packet.WriteString | WeeveMQTTSClient/mosquitto-1.5.2/lib/packet_mosq.c:335-340 | length and octets are appended, both cut to the length modulo 2 to the 16th |
| Packets.Uint16Reads | WeeveMQTTSClient/mosquitto-1.5.2/lib/packet_mosq.c:343-365 | reading gives back a written 16-bit number wherever it stands |
| Packets.StringReads | WeeveMQTTSClient/mosquitto-1.5.2/lib/packet_mosq.c:310-340 | reading gives back a written string wherever it stands |
| Packets.InPacket.ReadByte | WeeveMQTTSClient/mosquitto-1.5.2/lib/packet_mosq.c:266-275 | the octet at the position, or an error at the end |
| Packets.InPacket.ReadBytes | WeeveMQTTSClient/mosquitto-1.5.2/lib/packet_mosq.c:288-297 | the octets at the position, or an error if there are too few |
| Packets.InPacket.ReadUint16 | WeeveMQTTSClient/mosquitto-1.5.2/lib/packet_mosq.c:343-358 | the number at the position, or an error that leaves the position alone |
| Packets.InPacket.ReadString | WeeveMQTTSClient/mosquitto-1.5.2/lib/packet_mosq.c:310-332 | the string at the position, or an error that leaves the position behind the length if there is one |
| PublishPacket.SendRealPublish | WeeveMQTTSClient/mosquitto-1.5.2/lib/send_publish.c:131-163 | refused exactly if the body does not fit; otherwise the packet is filled to its last octet with header, topic, identifier for QoS above 0, and payload |
| PublishPacket.HandlePublish | WeeveMQTTSClient/mosquitto-1.5.2/lib/handle_publish.c:45-121 | the parser on every octet sequence: the fields, or the error |
| PublishPacket.RoundTripIff | WeeveMQTTSClient/mosquitto-1.5.2/lib/send_publish.c:140-162 | the parser recovers dup, QoS, retain, topic, identifier and payload of every packet sent if and only if the topic is not empty |
| PublishPacket.AcceptedIsPrinted | WeeveMQTTSClient/mosquitto-1.5.2/lib/handle_publish.c:45-121 | conversely: every octet sequence that the parser accepts is, octet for octet, what send__real_publish prints for the recovered fields |
| PublishPacket.AcceptedIff | WeeveMQTTSClient/mosquitto-1.5.2/lib/handle_publish.c:45-121 | both together: accepted are exactly the packets printed for a topic that is not empty |
| PublishPacket.PublishesThroughSocket | WeeveMQTTSClient/mosquitto-1.5.2/lib/send_publish.c:131-163 | end to end: any number of packets, cut anywhere by the socket, are parsed to what was published, in order |
| ConnectPacket.FilledIff | WeeveMQTTSClient/mosquitto-1.5.2/lib/send_connect.c:76-97 | what is written never exceeds the computed length and equals it if and only if every field is shorter than 2 to the 16th |
| ConnectPacket.SendConnect | WeeveMQTTSClient/mosquitto-1.5.2/lib/send_connect.c:33-134 | the packet holds header and body for the configuration and is full if and only if every field fits; no write runs over the end; oversized and other versions are refused |
| ConnectPacket.HandleConnect | WeeveMQTTSClient/mosquitto-1.5.2/src/handle_connect.c:153-407 | the field parser on every packet: all fields, or the error code and CONNACK of the first check that fails |
| ConnectPacket.ReadVersion | WeeveMQTTSClient/mosquitto-1.5.2/src/handle_connect.c:153-208 | protocol name, compared as a C string, and version |
| ConnectPacket.ReadFlags | WeeveMQTTSClient/mosquitto-1.5.2/src/handle_connect.c:210-229 | the connect flags and the checks on them |
| ConnectPacket.ReadClientId | WeeveMQTTSClient/mosquitto-1.5.2/src/handle_connect.c:239-289 | the identifier that takes effect, or a refusal |
| ConnectPacket.ReadWill | WeeveMQTTSClient/mosquitto-1.5.2/src/handle_connect.c:291-357 | the will, or the checks that there is none |
| ConnectPacket.ReadLogin | WeeveMQTTSClient/mosquitto-1.5.2/src/handle_connect.c:359-402 | user name and password; version 3.1 forgives a flag without its string |
| ConnectPacket.RoundTripIff | WeeveMQTTSClient/mosquitto-1.5.2/src/handle_connect.c:153-407 | section 3.1 of MQTT 3.1.1: the parser recovers every field of what send__connect wrote and ends at the end of the packet if and only if the configuration is admissible; otherwise it refuses the packet with the error and the CONNACK of the first check that fails |
| ConnectPacket.OtherVersionRefused | WeeveMQTTSClient/mosquitto-1.5.2/src/handle_connect.c:177-202 | a known protocol name with another version is refused with CONNACK return code 1 |
| ConnectPacket.TopBitIgnored | WeeveMQTTSClient/mosquitto-1.5.2/src/handle_connect.c:177-202 | the top bit of the version makes no difference to the rest |
| ConnectPacket.AcceptedIsPrinted | WeeveMQTTSClient/mosquitto-1.5.2/src/handle_connect.c:153-407 | conversely: every packet accepted under version 3.1.1 with a plain name and version is, octet for octet, what send__connect prints for the recovered configuration |
| ConnectPacket.ConnectThroughSocket | WeeveMQTTSClient/mosquitto-1.5.2/lib/send_connect.c:33-134 | end to end: a CONNECT cut anywhere by the socket is one packet to the broker, and is parsed as above |
| Writer.Conserved | WeeveMQTTSClient/mosquitto-1.5.2/lib/packet_mosq.c:368-493 | octets sent, then the rest of the current packet, then the queued packets, are all that was accepted, in order |
| Writer.WriteBalanced | WeeveMQTTSClient/mosquitto-1.5.2/lib/packet_mosq.c:399-405 | a short write keeps the accounts |
| Writer.CompleteBalanced | WeeveMQTTSClient/mosquitto-1.5.2/lib/packet_mosq.c:427-485 | finishing a packet keeps them: the QoS 0 PUBLISHes reported are those sent, and at the client nothing is sent behind a DISCONNECT |
| Writer.PeerSeesDone | WeeveMQTTSClient/mosquitto-1.5.2/lib/packet_mosq.c:368-493 | end to end: whatever the cuts by writer and network, the peer's reader hands on exactly the packets that have been sent whole, in the order of queueing |
| Writer.Writer.TakeNext | WeeveMQTTSClient/mosquitto-1.5.2/lib/packet_mosq.c:378-386 | the first queued packet becomes the current one and the tail is cleared when the queue runs empty |
| Writer.Writer.WriteCurrent | WeeveMQTTSClient/mosquitto-1.5.2/lib/packet_mosq.c:399-424 | the inner loop over short writes keeps the accounts and ends with the packet whole or with an error or a pause |
| Writer.Writer.Complete | WeeveMQTTSClient/mosquitto-1.5.2/lib/packet_mosq.c:427-485 | the packet is reported or the socket closed as its kind asks, and the next one becomes current |
| Writer.DriveBalanced | WeeveMQTTSClient/mosquitto-1.5.2/lib/packet_mosq.c:396-490 | whatever the socket answers, a front part of the pending octets goes out, in order, and the connection is closed only behind a DISCONNECT of the client |
| Writer.DriveStops | WeeveMQTTSClient/mosquitto-1.5.2/lib/packet_mosq.c:399-424 | a call ends with nothing left to write, or at the first answer that takes nothing, which decides the return code |
| Writer.DriveFinishes | WeeveMQTTSClient/mosquitto-1.5.2/lib/packet_mosq.c:396-490 | as many answers that take something as octets are pending are enough to write everything |
| Writer.DriveWhole | WeeveMQTTSClient/mosquitto-1.5.2/lib/packet_mosq.c:396-490 | a socket that takes whatever it is given needs one answer for each packet |
| Writer.FinishedSends | WeeveMQTTSClient/mosquitto-1.5.2/lib/packet_mosq.c:396-490 | a call that writes everything has sent all that was accepted, up to a DISCONNECT of the client |
| Writer.Writer.PacketWrite | WeeveMQTTSClient/mosquitto-1.5.2/lib/packet_mosq.c:368-493 | account, remaining answers and return code are those that the answers of the socket lead to; while connecting or closed the socket is not asked |
| Writer.Writer.Secured | WeeveMQTTSClient/mosquitto-1.5.2/lib/packet_mosq.c:52-104 | with SMP the octets to send are the outer frame of the secured message; it fails if securing fails or the length does not fit |
| Writer.Writer.PacketQueue | WeeveMQTTSClient/mosquitto-1.5.2/lib/packet_mosq.c:186-263 | the packet is accepted behind all others with these octets, and for the broker or a direct call written as far as the socket takes it; on failure nothing changes |
| Stores.Database.Add | WeeveMQTTSClient/mosquitto-1.5.2/src/database.c:173-181 | the store goes to the front of the doubly linked list |
| Stores.Database.MessageStore | WeeveMQTTSClient/mosquitto-1.5.2/src/database.c:593-649 | a new store with count 0 is on the list and in the totals |
| Stores.Database.Remove | WeeveMQTTSClient/mosquitto-1.5.2/src/database.c:184-206 | just that store leaves the list in both directions, and the totals |
| Stores.Database.DropRef | WeeveMQTTSClient/mosquitto-1.5.2/src/database.c:227-234 | the count falls by one and the store is removed exactly when it reaches 0 |
| Stores.DerefKeeps | WeeveMQTTSClient/mosquitto-1.5.2/src/database.c:227-234 | with right counts before, dropping a reference keeps them right, and the store goes if and only if it was the last reference |
| Stores.DerefAllKeeps | WeeveMQTTSClient/mosquitto-1.5.2/src/database.c:528-559 | dropping several keeps them right, and a store goes if and only if all its references are among them |
| Stores.RemoveKeepsList | WeeveMQTTSClient/mosquitto-1.5.2/src/database.c:184-206 | removal keeps the list free of repetition and its count and octet total right |
| BrokerProofs.InsertSound | WeeveMQTTSClient/mosquitto-1.5.2/src/database.c:338-491 | insertion keeps the counters right, the limits, and QoS 0 out of the queue |
| BrokerProofs.TakenSound | WeeveMQTTSClient/mosquitto-1.5.2/src/database.c:237-269 | removal of messages in flight keeps them |
| BrokerProofs.RefilledSound | WeeveMQTTSClient/mosquitto-1.5.2/src/database.c:309-333 | the refill keeps them and the order of inflight ++ queued |
| BrokerProofs.WriteSound | WeeveMQTTSClient/mosquitto-1.5.2/src/database.c:849-989 | writing keeps them, wherever a send fails |
| BrokerProofs.ResetQueueIs | WeeveMQTTSClient/mosquitto-1.5.2/src/database.c:739-772 | without QoS 0 in the queue, the reset counts every message once, keeps inflight ++ queued, and leaves messages waiting only if there is no room |
| BrokerProofs.ResetFlightCounts | WeeveMQTTSClient/mosquitto-1.5.2/src/database.c:695-732 | after the first loop of the reset the four counters are those of what is left in flight, short of exactly the messages that it passes over, each behind an inbound QoS 0 or 1 message it drops |
| BrokerProofs.ResetCounts | WeeveMQTTSClient/mosquitto-1.5.2/src/database.c:690-772 | after a reset of any session the four counters are those of the lists, without the messages passed over in flight, and with those that the second loop counts again because it moves the head when a message behind it has room |
| BrokerProofs.ResetCountsIff | WeeveMQTTSClient/mosquitto-1.5.2/src/database.c:690-772 | all four counters are right if and only if what is counted again adds up to what is passed over; apart from what is passed over, they are right if and only if no QoS 0 message waits behind a message for which there is no room, and msg_count is never too small |
| BrokerProofs.TakeOverCountedIff | WeeveMQTTSClient/mosquitto-1.5.2/src/database.c:690-772 | the same for a takeover of any session, QoS 0 in the queue included; passing over nothing, its counters are right if and only if no QoS 0 message waits behind a message for which there is no room |
| BrokerProofs.ProperCountedIff | WeeveMQTTSClient/mosquitto-1.5.2/src/database.c:690-772 | in particular with QoS 2 only inbound in flight, as in every run |
| BrokerProofs.TakeOverIs | WeeveMQTTSClient/mosquitto-1.5.2/src/handle_connect.c:579-587 | a takeover with only QoS 2 inbound in flight recomputes all four counters from nothing, keeps inflight ++ queued, and leaves messages waiting only if there is no room |
| BrokerProofs.RunSound | WeeveMQTTSClient/mosquitto-1.5.2/src/database.c:39-100 | in every run, QoS 0 in flight included: the four counters are those of the lists, at most max_inflight QoS 1 and 2 messages are in flight, and msg_count12 is at most max_inflight + max_queued |
| BrokerKeeps.InsertIff | WeeveMQTTSClient/mosquitto-1.5.2/src/database.c:338-491 | a new message is kept if and only if it is for a known client and no duplicate, and there is room by the limits, in explicit arithmetic; it is kept with all its fields at the end of one of the lists, and an outbound one in flight is due to be published |
| BrokerKeeps.InsertCounts | WeeveMQTTSClient/mosquitto-1.5.2/src/database.c:434-491 | each counter grows by what belongs to the message |
| BrokerKeeps.InsertReturns | WeeveMQTTSClient/mosquitto-1.5.2/src/database.c:338-510 | the return code for each of these cases |
| BrokerKeeps.DroppedIff | WeeveMQTTSClient/mosquitto-1.5.2/src/database.c:39-100 | with limits on messages only, one of QoS 1 or 2 is dropped if and only if max_queued, for a client that is away, or max_inflight + max_queued, for one that is connected, is used up |
| BrokerKeeps.NeverDropped | WeeveMQTTSClient/mosquitto-1.5.2/src/database.c:39-100 | without limits none is |
| BrokerKeeps.QueueBytesIff | WeeveMQTTSClient/mosquitto-1.5.2/src/database.c:61-100 | with a limit on octets a message may wait if and only if the octets held lie between the allowance for messages in flight and that plus the one for waiting messages |
| BrokerKeeps.DroppedBelowLimits | WeeveMQTTSClient/mosquitto-1.5.2/src/database.c:61-100 | so that it is dropped, below that, although there is room |
| BrokerKeeps.StepHoldsIff | WeeveMQTTSClient/mosquitto-1.5.2/src/database.c:237-989 | after any step a session holds a message if and only if it held it and the message did not leave, or it is new and kept |
| BrokerKeeps.HeldIff | WeeveMQTTSClient/mosquitto-1.5.2/src/database.c:237-989 | from a new session on, over every run: it holds exactly the messages that were kept and whose PUBACK, PUBCOMP or PUBREL has not come while they were in flight, which were not sent with QoS 0, and no clean session came since |
| BrokerOrder.InsertFifo | WeeveMQTTSClient/mosquitto-1.5.2/src/database.c:338-491 | a new message goes behind all others or nowhere |
| BrokerOrder.TakenFifo | WeeveMQTTSClient/mosquitto-1.5.2/src/database.c:291-336 | deleting takes out just the target and refilling keeps the order; afterwards a waiting message means no room |
| BrokerOrder.TakeOverFifo | WeeveMQTTSClient/mosquitto-1.5.2/src/database.c:690-777 | a takeover keeps the order |
| BrokerOrder.WriteFifo | WeeveMQTTSClient/mosquitto-1.5.2/src/database.c:849-989 | writing keeps the order |
| BrokerOrder.StepFifo | WeeveMQTTSClient/mosquitto-1.5.2/src/database.c:271-510 | section 4.6 of MQTT 3.1.1: the two lists are one queue; an insertion adds at its end or nothing, an acknowledgement removes its target, everything else leaves it alone, and a waiting message always means no room |
| BrokerOrder.RunFifo | WeeveMQTTSClient/mosquitto-1.5.2/src/database.c:291-989 | the invariant behind these steps holds over every run with QoS 1 and 2 |
| BrokerOrder.WriteInOrder | WeeveMQTTSClient/mosquitto-1.5.2/src/database.c:868-956 | a call of the writer sends for the first time exactly a front part of the messages never sent, in order |
| BrokerOrder.FirstsInOrder | WeeveMQTTSClient/mosquitto-1.5.2/src/database.c:291-989 | in every run first transmissions happen in the order of insertion, each at most once, through any disconnections and takeovers |
| BrokerSequence.StepThins | WeeveMQTTSClient/mosquitto-1.5.2/src/database.c:237-989 | with every QoS and in every state of the session: refilling, writing, resets, takeovers, acknowledgements and refused insertions leave messages out at most, and keep the order of the others |
| BrokerSequence.StepInSequenceIff | WeeveMQTTSClient/mosquitto-1.5.2/src/database.c:373-491 | a step keeps the order of insertion if and only if it does not put a new message in flight past waiting ones, as db__message_insert does for a connected client with room in flight, and for QoS 0 without looking at the room |
| BrokerSequence.InSequenceIff | WeeveMQTTSClient/mosquitto-1.5.2/src/database.c:271-989 | over every run, QoS 0 included: the two lists are in the order of insertion all the time if and only if no insertion of the run overtakes |
| BrokerSequence.FairInSequence | WeeveMQTTSClient/mosquitto-1.5.2/src/database.c:373-394 | with QoS 1 and 2 only, none does: the lists hold the messages in the order of insertion in every state of every run |
| BrokerSequence.FairAlways | WeeveMQTTSClient/mosquitto-1.5.2/src/database.c:291-989 | so from a new session on, in every run with QoS 1 and 2, the lists are in the order of insertion all the time and first transmissions follow it |
| BrokerSequence.Qos0BreaksOrder | WeeveMQTTSClient/mosquitto-1.5.2/src/database.c:309-333 | such an insertion is reachable, of QoS 1 even: after two QoS 0 messages that are not yet written and two acknowledgements a new message overtakes a waiting one |
| BrokerResume.WriteSendsFront | WeeveMQTTSClient/mosquitto-1.5.2/src/database.c:868-956 | a call of the writer sends a front part of the due packets: as many as sends succeed, or all |
| BrokerResume.StepPublishesIff | WeeveMQTTSClient/mosquitto-1.5.2/src/database.c:849-989 | a step publishes a message if and only if it is a call of the writer while connected, the message is in flight in a state to be published, and the sends last until its turn |
| BrokerAnswers.WriteSpeaks | WeeveMQTTSClient/mosquitto-1.5.2/src/database.c:868-956 | a write that gets to a message sends just the packet that takes its handshake on, PUBLISH, PUBREC, PUBREL or PUBCOMP, in its turn, and leaves it waiting for the answer to that |
| BrokerAnswers.WriteSilent | WeeveMQTTSClient/mosquitto-1.5.2/src/database.c:868-956 | a message that has nothing to say, or that the write does not get to, stays as it is |
| BrokerAnswers.WriteSettles | WeeveMQTTSClient/mosquitto-1.5.2/src/database.c:868-956 | after a write in which no send fails nothing that was in flight has anything to say |
| BrokerAnswers.OrderedResend | WeeveMQTTSClient/mosquitto-1.5.2/src/database.c:690-777 | sections 4.4 and 4.6 at the broker: after a takeover the write begins with one packet for each outbound message that was in flight, in their order: PUBREL if the PUBREC had come and its PUBREL is not still to be sent again, PUBLISH otherwise |
| BrokerAnswers.StepOwes | WeeveMQTTSClient/mosquitto-1.5.2/src/database.c:918-947 | a PUBREC or PUBCOMP that is owed goes out, once, with the first write that gets to the message |
| BrokerAnswers.OwedOnce | WeeveMQTTSClient/mosquitto-1.5.2/src/database.c:918-947 | over every run: after that the message waits for its PUBREL, with nothing due, or is gone |
| BrokerAnswers.RefillIs | WeeveMQTTSClient/mosquitto-1.5.2/src/database.c:309-333 | the refill moves the waiting messages for which there are places and no others, and answers each inbound one among them by PUBREC, in order |
| BrokerAnswers.WriteRefillIs | WeeveMQTTSClient/mosquitto-1.5.2/src/database.c:958-986 | the second loop of the writer does the same, and if a PUBREC cannot be sent leaves it owed |
| BrokerAnswers.DeleteFills | WeeveMQTTSClient/mosquitto-1.5.2/src/database.c:291-336 | after PUBACK or PUBCOMP the places are counted from the messages left in flight |
| BrokerAnswers.ReleaseFills | WeeveMQTTSClient/mosquitto-1.5.2/src/database.c:780-847 | after PUBREL they are counted with the message that is released, whose place stays free |
| BrokerAnswers.WriteFills | WeeveMQTTSClient/mosquitto-1.5.2/src/database.c:866-986 | a write counts them with the QoS 0 messages that it is done with |
| BrokerResume.TakeOverMoves | WeeveMQTTSClient/mosquitto-1.5.2/src/database.c:739-772 | a takeover moves the waiting messages for which there is room behind all before them, and no others; without byte limits their number is in closed form; all of them, inbound ones too, get the state that is published |
| BrokerResume.NoneMovesIff | WeeveMQTTSClient/mosquitto-1.5.2/src/database.c:739-772 | the loop over the queue moves nothing if and only if it finds no room for any message |
| BrokerResume.EchoStateIff | WeeveMQTTSClient/mosquitto-1.5.2/src/database.c:751-765 | in every session: an inbound QoS 2 message that waits to be answered by PUBREC is put in the state to be published by a takeover if and only if there is room for it behind all messages counted before it |
| BrokerResume.EchoedIff | WeeveMQTTSClient/mosquitto-1.5.2/src/database.c:751-765 | in every session: the write after a takeover sends a waiting inbound message back to its publisher as a PUBLISH if and only if the takeover changed its state and the sends last until its turn |
| BrokerEcho.StepWaits | WeeveMQTTSClient/mosquitto-1.5.2/src/database.c:739-772 | a waiting inbound message is not published by any step, and only a takeover that moves it in its turn makes it one to be published; any other step leaves it waiting or settles it for good |
| BrokerEcho.StepTurned | WeeveMQTTSClient/mosquitto-1.5.2/src/database.c:849-989 | once to be published it stays so until the first write that gets to it, which publishes it, or until its PUBREL or a clean session |
| BrokerEcho.EchoedOverRunIff | WeeveMQTTSClient/mosquitto-1.5.2/src/database.c:690-777 | over every run: a waiting inbound message is published back to its publisher if and only if some takeover moves it in its turn while it waits and a later write gets to it before its PUBREL or a clean session |
| BrokerEcho.InsertedEchoedIff | WeeveMQTTSClient/mosquitto-1.5.2/src/database.c:690-777 | the same from the insertion of the message on, after any run from a new session |
| BrokerReceived.StepReceived | WeeveMQTTSClient/mosquitto-1.5.2/src/database.c:706-719 | after PUBREC no step publishes the message, and a reset forgets the PUBREC if and only if it finds the PUBREL that an earlier reset asked for not yet sent |
| BrokerReceived.StepLapsed | WeeveMQTTSClient/mosquitto-1.5.2/src/database.c:706-719 | once forgotten, the message stays to be published until the first write that gets to it, which publishes it, or a PUBREC for it |
| BrokerReceived.PublishedAgainIff | WeeveMQTTSClient/mosquitto-1.5.2/src/database.c:690-777 | section 4.3.3 of MQTT 3.1.1 at the broker, over every run without PUBCOMP or a clean session: after PUBREC the message is published again if and only if a reset finds its PUBREL still to be sent again and a write gets to it before another PUBREC for it |
| BrokerReceived.NotPublishedAgain | WeeveMQTTSClient/mosquitto-1.5.2/src/database.c:690-777 | so it never is, and the PUBREC is remembered to the end, if each reset finds the PUBREL of the one before sent |
| BrokerReceived.TwoResets | WeeveMQTTSClient/mosquitto-1.5.2/src/database.c:706-719 | in every session: two resets in a row and a write publish every message whose PUBREC had come again |
| BrokerReceived.PublishedTwice | WeeveMQTTSClient/mosquitto-1.5.2/src/database.c:706-719 | this is reachable from a new session, with any limits |
| BrokerWorld.StepHeld | WeeveMQTTSClient/mosquitto-1.5.2/src/database.c:237-269 | every step of a client drops exactly the references of the messages it removes and takes one for a message it inserts |
| BrokerWorld.NextSafe | WeeveMQTTSClient/mosquitto-1.5.2/src/database.c:173-269 | every step of every client keeps ref_count equal to the number of client messages and other holders, and a store goes if and only if the step drops its last reference |
| BrokerWorld.RunSafe | WeeveMQTTSClient/mosquitto-1.5.2/src/database.c:173-649 | the same over every run of all clients, with the counters and limits of each |
| BrokerWorld.SafeAlways | WeeveMQTTSClient/mosquitto-1.5.2/src/database.c:39-649 | so in every state that a broker without clients and stores can reach |
| BrokerWorld.NoneDangling | WeeveMQTTSClient/mosquitto-1.5.2/src/database.c:227-234 | in such a state no client message points to a store that is not on the list, and its count is positive |
| BrokerWorld.UnreferencedStays | WeeveMQTTSClient/mosquitto-1.5.2/src/database.c:402-421 | a store that no message refers to is never removed: a dropped inbound QoS 2 message leaves its store behind |
| BrokerWorld.SafeIsEnough | WeeveMQTTSClient/mosquitto-1.5.2/src/database.c:528-559 | in every reachable state the store has the references that the in-place operations drop |
| Broker.Context.Place | WeeveMQTTSClient/mosquitto-1.5.2/src/database.c:373-432 | the decision between flight, queue and drop, with its return code |
| Broker.Context.SentBefore | WeeveMQTTSClient/mosquitto-1.5.2/src/database.c:360-370 | the loop over dest_ids decides whether the client is among them |
| Broker.Context.Insert | WeeveMQTTSClient/mosquitto-1.5.2/src/database.c:338-509 | lists, tails, counters, reference count and dest_ids all change exactly as specified, or none does |
| Broker.Context.MessageRemove | WeeveMQTTSClient/mosquitto-1.5.2/src/database.c:237-269 | the message is unlinked, uncounted, and its reference dropped; the result is the next node |
| Broker.Context.DequeueFirst | WeeveMQTTSClient/mosquitto-1.5.2/src/database.c:271-289 | the head of the queue moves behind the tail in flight, and the queue's tail is cleared exactly if it was that node |
| Broker.Context.Take | WeeveMQTTSClient/mosquitto-1.5.2/src/database.c:299-308 | the loop removes every match in flight and no other, and counts |
| Broker.Context.Refill | WeeveMQTTSClient/mosquitto-1.5.2/src/database.c:309-333 | the refill loop terminates and moves what the specification moves, sending the PUBRECs |
| Broker.Context.Delete | WeeveMQTTSClient/mosquitto-1.5.2/src/database.c:291-336 | removal, counters, references and refill together |
| Broker.Context.Release | WeeveMQTTSClient/mosquitto-1.5.2/src/database.c:780-847 | the same for PUBREL, whose count includes what it removes |
| Broker.Context.Update | WeeveMQTTSClient/mosquitto-1.5.2/src/database.c:512-525 | the first match gets the state; the result says whether there is one |
| Broker.Context.StoreFind | WeeveMQTTSClient/mosquitto-1.5.2/src/database.c:660-686 | an inbound message with the identifier is found in one of the lists if and only if there is one |
| Broker.Context.WriteTurn | WeeveMQTTSClient/mosquitto-1.5.2/src/database.c:868-956 | the packet due for a message is sent and the message marked or removed, or a failed send changes nothing |
| Broker.Context.WriteFlight | WeeveMQTTSClient/mosquitto-1.5.2/src/database.c:866-957 | the first loop of the writer, with every place where a send may fail |
| Broker.Context.WriteWaiting | WeeveMQTTSClient/mosquitto-1.5.2/src/database.c:958-986 | the second loop of the writer |
| Broker.Context.Write | WeeveMQTTSClient/mosquitto-1.5.2/src/database.c:849-989 | both loops: lists, counters, references and packets |
| Broker.Context.ResetFlight | WeeveMQTTSClient/mosquitto-1.5.2/src/database.c:690-732 | the first loop of the reset recounts, gives every message its retry state, drops inbound messages of QoS 0 and 1 with their references and passes over the message behind each; the tail pointer is right afterwards if and only if the last message is not passed over |
| Broker.Context.ResetWaiting | WeeveMQTTSClient/mosquitto-1.5.2/src/database.c:739-772 | the second loop, QoS 0 messages included, ends with valid tails |
| Broker.Context.ReconnectReset | WeeveMQTTSClient/mosquitto-1.5.2/src/database.c:690-777 | with stale tails before: lists, counters and references are the specified ones, and both lists are valid afterwards if and only if the first loop keeps the tail; demanded is only that no message is moved behind a removed tail |
| Broker.Context.TakeOver | WeeveMQTTSClient/mosquitto-1.5.2/src/handle_connect.c:579-587 | the lists move to the new context and are reset there; it is valid under the same condition, and the old context is left with empty lists |
| Broker.Context.MessagesDelete | WeeveMQTTSClient/mosquitto-1.5.2/src/database.c:528-559 | every reference is dropped once, and lists, tails and counters are empty |
| SmpHeader.UnpackInvertsPack | WeeveCommon/src/msg/cbor/wosMsgSmp.c:96-189 | the receiver reads back every header that was packed |
| SmpHeader.HeadReads | WeeveCommon/src/msg/cbor/wosMsgSmp.c:128-160 | a number or a text length of up to 32 bits is read back wherever it stands |
| Smp.SameChoice | WeeveClientLibrary/src/smp/smpInternal.c:636-652 | sender and receiver make the same choice between encrypting and only authenticating for every type that the receiver admits |
| Smp.AdmitsByDirection | WeeveClientLibrary/src/smp/smpInternal.c:443-503 | the types admitted are exactly those that table 2.1 of MQTT 3.1.1 lets the other side send, and the other side can make all of them |
| Smp.LabelsDiffer | WeeveClientLibrary/src/smp/smpInternal.c:74-105 | no two message types share a label |
| Smp.OtherLabel | WeeveClientLibrary/src/smp/smpInternal.c:74-105 | associated data for one direction never equals that for the other |
| Smp.PeerFrameIff | WeeveClientLibrary/src/smp/smpInternal.c:1107-1177 | a frame of the peer is accepted if and only if its type is admitted, its counter has not gone back and the receiver is ready for it; what is delivered is the packet secured, under its type; a refusal changes nothing |
| Smp.OwnFrameRefused | WeeveClientLibrary/src/smp/smpInternal.c:1107-1177 | a frame turned back to its maker is refused and changes nothing |
| SmpRuns.ReceiveIs | WeeveClientLibrary/src/smp/smpInternal.c:1107-1177 | what receiving any earlier frame does in any reachable state |
| SmpRuns.RunGood | WeeveClientLibrary/src/smp/smpInternal.c:943-1177 | the invariant over every run, whatever the network drops, repeats, reorders or turns back |
| SmpRuns.DeliveredWasSecured | WeeveClientLibrary/src/smp/smpInternal.c:586-736 | after every run from the start: every packet that a side has delivered, and every packet it would deliver for any frame seen so far, is one that the other side secured, under the same type |
| SmpRuns.KeysAgree | WeeveClientLibrary/src/smp/smpInternal.c:505-584 | after every run from the start, two established sides have the same key, and a side without a key has delivered nothing |
| SmpRuns.SecretsAreBoxed | WeeveClientLibrary/src/smp/smpInternal.c:993-1080 | after every run from the start: PUBLISH, SUBSCRIBE, SUBACK and UNSUBSCRIBE packets are in the encrypted part of their frames only, under the session key, and all others are authenticated or signed |
| SmpRuns.DeliveredInOrder | WeeveClientLibrary/src/smp/smpInternal.c:486-493 | with at most 2 to the 32nd frames, delivery follows the order in which they were secured |
| SmpRuns.RepeatedIff | WeeveClientLibrary/src/smp/smpInternal.c:486-493 | of the frames delivered, exactly the last one is delivered again when it is repeated, unless it opened the session |
| SmpRuns.NewerDeliveredIff | WeeveClientLibrary/src/smp/smpInternal.c:443-503 | a frame newer than all delivered ones is delivered if and only if the receiver admits its type |
| SmpHeader.FrontOfHeader | WeeveCommon/src/msg/cbor/wosMsgSmp.c:96-189 | no proper front of a packed header is a header, but the one that lacks the closing byte only |
| SmpIntegrity.Follows | WeeveClientLibrary/src/smp/smpInternal.c:1004-1033 | octets that begin with a packed header are read with another header only if that one is longer, and then with the same fields |
| SmpIntegrity.AlteredFrame | WeeveClientLibrary/src/smp/smpInternal.c:586-736 | associated data is header, label and packet without lengths: of all frames around a box of the session exactly those are accepted in which the boundary behind the header is moved to an occurrence of the label that the receiver expects, and what they deliver is determined |
| SmpIntegrity.ConfusedIff | WeeveClientLibrary/src/smp/smpInternal.c:586-736 | in every reachable state some frame around a box is accepted for something else than what was secured in it if and only if the receiver is open for it and its label occurs again, further on, in what is authenticated |
| SmpIntegrity.SentConfused | WeeveClientLibrary/src/smp/smpInternal.c:1004-1033 | such packets exist, for every type that is sent in clear, in every open session in which the counter has not gone back |
| SmpIntegrity.ShortNeverConfused | WeeveClientLibrary/src/smp/smpInternal.c:74-105 | for encrypted packets and for packets of less than ten octets, such as acknowledgements and pings, the label never occurs again |
| SmpIntegrity.AlteredOpening | WeeveClientLibrary/src/smp/smpInternal.c:365-440 | of all opening frames with a signature of the session exactly those are accepted that read the signed octets with the header ending, there or further on, where a key follows; the key derived and the packet delivered are those read there |
| SmpIntegrity.ReopensIff | WeeveClientLibrary/src/smp/smpInternal.c:505-584 | an opening is accepted in another form than its own if and only if the receiver waits for it and the signed octets can be read further on as a key with a packet behind it |
| SmpSession.Session.Get | WeeveClientLibrary/src/smp/smp.c:148-223 | the dispatch by type makes the frame of the specification, counts it modulo 2 to the 32nd, or fails without a change |
| SmpSession.Session.ProcessMessage | WeeveClientLibrary/src/smp/smpInternal.c:1107-1177 | the counter moves only with a delivery |
| SmpSession.CopyAad | WeeveClientLibrary/src/smp/smpInternal.c:1004-1033 | the buffer filled at running offsets is header, label and, unless encrypted, packet |
| SmpSession.CopySigned | WeeveClientLibrary/src/smp/smpInternal.c:244-270 | the buffer filled at running offsets is header, scheme, public key and packet |

## Left out

- Sockets, select loops, TLS, websockets, logging, statistics, clocks and the timestamps of messages: plumbing around the
  modelled calls.
- Mutexes and threads: each handler is one atomic step.  A callback that calls back into the library during `packet__write`
  is not modelled.
- Out-of-memory paths and NULL arguments: allocation succeeds and pointers are valid.
- Bridges, mount points, persistence, access control and authentication (`connection_check_acl`, the checks after the
  field parser of `handle__connect`): configuration and policy.
- `mosquitto_sub_topic_check2` and `mosquitto_pub_topic_check2`: the same loops with a given length.
- The subscription tree: which clients a message reaches is a choice of the run; `db__message_release` is a run of
  insertions under a hold on the store, then the removal.  Its failing branch is reached only without memory.
- Changing `max_inflight_messages` or the broker's limits during a run.
- Acknowledgements of messages that were never sent are outside the window and order invariants;
  `ClientProofs.RemoveKeepsWindowIff` and `PubrecKeepsWindowIff` say exactly which ones break the client's window.
- Client.Mosquitto.Publish: strings hold no NUL, and a failed send leaves the message queued as the code does; the error
  of the network layer is reduced to success or not.
- Broker.Context.ReconnectReset: what the C code does once it has linked a message behind a removed and freed tail is
  undefined and not modelled; `BrokerSpec.ResetDefined` says when it does not come to that, and no insertion leads to it.
- Broker.Context.TakeOver: the same.
- BrokerOrder.FirstsInOrder: is about outbound messages; what becomes of queued inbound ones at a takeover is said by
  `BrokerEcho.EchoedOverRunIff`.
- BrokerProofs.TakeOverIs: for sessions without inbound QoS 0 and 1 in flight; `BrokerProofs.TakeOverCountedIff` says what
  becomes of the counters with them.
- BrokerReceived.PublishedAgainIff: for sessions in which inbound messages have QoS 2, as they have in every run of legal
  steps.
- BrokerProofs.RunSound: with `queue_qos0_messages` off and without bridges, so that no QoS 0 message is queued.
- Framing.ChunkingIrrelevant: the check for CONNECT as the first packet, and the end of a connection after an error, are
  left to the caller.
- FrameReader.FrameReader.PacketRead: the copy of an inner packet after SMP processing, with its own length field, is left
  out; the frame is handed on as a whole.
- Writer.Writer.PacketWrite: a socket with no more answers to give blocks.
- Writer.Writer.PacketQueue: a reconnect, which frees all queued packets, is not modelled.
- Smp.PeerFrameIff: signatures, key agreement and authenticated encryption are ideal and certificates are valid; DISCONNECT
  (type 14) is excluded.  The outer CBOR arrays around header, packet, tag and
  signature are taken as records, and the header itself is accepted with an indefinite array only.
- SmpIntegrity.AlteredFrame: boxes and signatures are those made in the session, forged ones do not open or verify.
- SmpIntegrity.AlteredOpening: a key has the form of an uncompressed point; whether it lies on the curve is not looked at.
- SmpSession.Session.ProcessMessage: error codes are grouped by kind, and a NULL label for types 1 and 2 cannot occur.
