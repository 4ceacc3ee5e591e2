# SOE network core: cluster routing, session send side, protocol filter

This project is a Dafny model of three sequential pieces of the network layer of a multiplayer game server emulator.

- **ClusterService** is the router between cluster nodes. It keeps one TCP client per remote process, in a table keyed by the identity of the process object. It also keeps a queue of outgoing TCP messages and a queue of received buffers, and each queue feeds a filter pipeline.
  - `Connect` adds an entry only for a process that has no entry yet and does not listen on the node's own port.
  - `Disconnect` erases a process's entry.
  - Messages are routed by process name or by host and port, and broadcast by process type or to every connection.
  - `Update` runs each pipeline with a budget of 100 entries.
  - `Shutdown` clears the table, both queues and both pipelines.
- **Session, send side.** An SOE session numbers every outgoing packet with a 16-bit sequence number, starting from 0.
  - A message that fits in one packet goes out as one DATA packet (type `0x09`).
  - A larger message goes out as FRAGMENTED packets (type `0x0D`). The first of them carries the total message length.
  - Every sent packet is kept for resending until it is acknowledged.
  - The unit tests of the session are modelled as client methods whose contracts are the tests' expectations, proved from the Session contracts alone.
- **SoeProtocolFilter** is the inbound pipeline stage.
  - It ignores a null packet.
  - For any other packet, it hands the packet's message to the owning session's `HandleMessage` exactly once, and it absorbs a failure there.

Modules:

- `Bytes`: bytes, 16- and 32-bit words, and the big-endian and host-order codecs.
- `SoeFraming`: the wire layout of DATA and FRAGMENTED packets, their decoders, and the chunk rule.
- `SoeSession`: class `Session`.
- `SessionTests`: the test buffers and the test cases.
- `SoeProtocolFilter`: classes `Packet` and `ProtocolFilter`.
- `Cluster`: spec functions on the routing table and class `ClusterService`.
- `Wrappers`: `Option`.

Modelling decisions:

- **Process identity.** A process is a Dafny object (`Cluster.Process`), and the table compares entries by reference. This matches the source, which compares `shared_ptr`s, not the process's name, address or port. Two `Process` objects with the same data are two processes.
- **Table order.** The table is a `seq` in insertion order. The source's table is a map keyed by the process pointer, whose iteration order is not insertion order and cannot be known. Every lookup therefore returns the first match in insertion order.
- **The chunk rule is parameterised.** A packet may carry `MaxDataLength(receiveBufferSize, crcLength, reserve) = receiveBufferSize - crcLength - reserve` bytes after its 4-byte header.
  - The first fragment spends 4 of those bytes on the total length.
  - `reserve` is a constructor parameter of `Session`.
  - The fragmented-packet test fixes it: `SessionTests.FixturePinsReserve` proves that a receive buffer of 27, a CRC of 2 and a 24-byte message give two packets, the first carrying the length 24 and 16 payload bytes, exactly when `reserve == 5`.
- **Sequence numbers.** Each packet a send emits consumes one sequence number, and that includes every fragment. Sequence numbers wrap modulo 2^16 (`SoeFraming.NextSequence`).
- **Byte order.** Plain `write<uint16_t>` / `write<uint32_t>` in the test buffers are taken to be little-endian (host order on x86). `hostToBig` values are big-endian.

## Model

| member | source | states |
|---|---|---|
| Bytes.BigEndian16RoundTrip | src/anh/network/soe/session_unittest.cc:148-149 | reading a big-endian u16 back from its two bytes, whatever follows them, gives the value back |
| Bytes.BigEndian32RoundTrip | src/anh/network/soe/session_unittest.cc:170 | reading a big-endian u32 back from its four bytes, whatever follows them, gives the value back |
| Bytes.BigEndian16 | src/anh/network/soe/session_unittest.cc:148-149 | two bytes, the high byte first, whose big-endian value is the input |
| Bytes.BigEndian32 | src/anh/network/soe/session_unittest.cc:170 | four bytes, most significant first, whose big-endian value is the input (the `hostToBig<uint32_t>` length field); BigEndian32RoundTrip reads it back |
| Bytes.HostOrder16 | src/anh/network/soe/session_unittest.cc:139 | two bytes, least significant first, whose little-endian value is the input (a plain `write<uint16_t>`) |
| Bytes.HostOrder32 | src/anh/network/soe/session_unittest.cc:140 | four bytes, least significant first, whose little-endian value is the input (a plain `write<uint32_t>`) |
| SoeFraming.NextSequenceCompose | src/anh/network/soe/session_unittest.cc:64-74 | stepping the 16-bit sequence number m times and then n times is stepping it m + n times; zero steps and 2^16 steps both return to the start |
| SoeFraming.EncodeData | src/anh/network/soe/session_unittest.cc:145-153 | a DATA packet is exactly 4 header bytes longer than its payload (its byte layout is what DataRoundTrip and DataDecodeInverse invert) |
| SoeFraming.DecodeData | src/anh/network/soe/session_unittest.cc:145-153 | a packet decodes exactly when it is at least 4 bytes long and its first two bytes are BE16 0x09; its payload is then the bytes after the 4-byte header |
| SoeFraming.DataRoundTrip | src/anh/network/soe/session_unittest.cc:145-153 | BE16 0x09, then BE16 sequence, then the payload decodes back to the same sequence number and payload |
| SoeFraming.DataDecodeInverse | src/anh/network/soe/session_unittest.cc:145-153 | every packet that decodes as DATA is the encoding of what it decodes to |
| SoeFraming.EncodeFragment | src/anh/network/soe/session_unittest.cc:165-177 | a fragment packet's length is 4 header bytes, plus 4 length bytes on the first fragment only, plus its chunk (its byte layout is what FragmentRoundTrip and FragmentDecodeInverse invert) |
| SoeFraming.DecodeFragment | src/anh/network/soe/session_unittest.cc:165-177 | a decoded fragment has a total length exactly when it was read as the first one |
| SoeFraming.FragmentRoundTrip | src/anh/network/soe/session_unittest.cc:165-177 | BE16 0x0D, BE16 sequence, BE32 total length on the first fragment, then the chunk: decodes back to the same fragment |
| SoeFraming.FragmentDecodeInverse | src/anh/network/soe/session_unittest.cc:165-177 | every packet that decodes as a fragment is the encoding of that fragment |
| SoeFraming.SplitRest | src/anh/network/soe/session_unittest.cc:119-131 | the chunks join back to the input; each is non-empty and at most the capacity; all but the last are full |
| SoeFraming.SplitMessage | src/anh/network/soe/session_unittest.cc:119-131 | an oversized message gives at least two chunks that join back to it; the first leaves room for the length prefix; the others fill whole packets, except perhaps the last |
| SoeFraming.FramingChoice | src/anh/network/soe/session_unittest.cc:76-131 | one packet exactly when the message fits, and that packet decodes back to the message |
| SoeFraming.PacketsFit | src/anh/network/soe/session_unittest.cc:119-131 | when the reserve covers the header, every packet plus the CRC trailer fits in the peer's receive buffer |
| SoeFraming.FragmentPacketsDecode | src/anh/network/soe/session_unittest.cc:165-177 | every fragment packet decodes, the first with its length prefix, to its fragment |
| SoeFraming.FragmentsReassemble | src/anh/network/soe/session_unittest.cc:165-177 | fragments have consecutive sequence numbers; only the first carries the length, which is the message's; their chunks joined in order are the message |
| SoeSession.StoredAppend | src/anh/network/soe/session_unittest.cc:89-103 | sending one more packet extends the store by exactly that packet under the next sequence number, leaving the earlier entries as they were |
| SoeSession.Session.SendSequenced | src/anh/network/soe/session_unittest.cc:64-74 | one packet goes out under the current sequence number, a copy is stored, and the counter advances by one |
| SoeSession.Session.SendMessage | src/anh/network/soe/session_unittest.cc:64-131 | outbound grows by exactly the framed packets, the store by their copies with their sequence numbers, and the counter by their number; when framing is impossible nothing changes and false is returned |
| SoeSession.Session.SendFragments | src/anh/network/soe/session_unittest.cc:119-131 | the fragments go out in order, one sequence number each, all of them stored |
| SoeSession.Session.GetUnacknowledgedMessages | src/anh/network/soe/session_unittest.cc:99 | the stored packets, oldest first, one for each stored entry |
| SoeSession.Session.HandleMessage | src/anh/network/soe/filters/soe_protocol_filter.cc:38 | the message reaches the session; any other session state may change; the outcome may be success or failure |
| SoeSession.Session.constructor | src/anh/network/soe/session_unittest.cc:56-62 | a new session has sequence 0 and nothing sent or stored |
| SoeSession.Session.SetReceiveBufferSize | src/anh/network/soe/session_unittest.cc:126 | sets the receive buffer size and nothing else |
| SoeSession.Session.SetCrcLength | src/anh/network/soe/session_unittest.cc:127 | sets the CRC length and nothing else |
| SessionTests.RepeatHost32 | src/anh/network/soe/session_unittest.cc:158-160 | the buffer written by a loop of `count` u32 writes is 4 * count bytes; RepeatHost32Split proves it splits into the writes of any two parts of the loop |
| SessionTests.SimpleMessage | src/anh/network/soe/session_unittest.cc:136-143 | the simple message is six bytes (a u16 then a u32 in host order); SimpleDataChannelPacketIsFramed pins the packet built from it |
| SessionTests.SimpleDataChannelPacket | src/anh/network/soe/session_unittest.cc:145-153 | the DATA fixture is ten bytes; SimpleDataChannelPacketIsFramed proves it is EncodeData of the simple message, for every sequence number |
| SessionTests.SimpleFragmentedMessage | src/anh/network/soe/session_unittest.cc:155-163 | the fragmented message is 24 bytes, six u32 fives; FixtureFraming proves it splits as 16 + 8 under the test configuration |
| SessionTests.SimpleFragmentedPacket | src/anh/network/soe/session_unittest.cc:165-177 | the fragmented fixture is 24 bytes; FixtureFraming proves it is the first packet the session frames for the fragmented message |
| SessionTests.RepeatHost32Split | src/anh/network/soe/session_unittest.cc:155-177 | m + n repeated words are m words followed by n words |
| SessionTests.SimpleDataChannelPacketIsFramed | src/anh/network/soe/session_unittest.cc:136-153 | the DATA fixture is exactly what the framing builds for the simple message, and it decodes back to that message |
| SessionTests.FixturePinsReserve | src/anh/network/soe/session_unittest.cc:119-177 | with receive buffer 27 and CRC 2, the 24-byte message gives two packets, the first being the fragmented fixture (total length 24, 16 payload bytes), exactly when the reserve is 5 |
| SessionTests.FixtureFraming | src/anh/network/soe/session_unittest.cc:119-177 | with the fixture's reserve, the 24-byte message gives two packets, the first being the fragmented fixture |
| SessionTests.EightBytesFitOnePacket | src/anh/network/soe/session_unittest.cc:126-127 | under the same configuration, an 8-byte message goes out as one DATA packet that decodes back to it |
| SessionTests.NewSessionHasZeroSendSequence | src/anh/network/soe/session_unittest.cc:56-62 | a new session's server sequence is 0 |
| SessionTests.SendingDataChannelMessageIncreasesServerSequence | src/anh/network/soe/session_unittest.cc:64-74 | after the i-th send, the server sequence is i, for i = 1..3 |
| SessionTests.DataChannelMessagesAreSentViaSoeService | src/anh/network/soe/session_unittest.cc:76-116 | one send hands exactly one packet to the service: the DATA packet with sequence 0 |
| SessionTests.DataChannelMessagesAreStoredForResending | src/anh/network/soe/session_unittest.cc:89-103 | after three sends, exactly three packets are stored, the k-th being the DATA packet with sequence k |
| SessionTests.LargeDataChannelMessagesAreWrappedInFragmentedHeaderWhenSent | src/anh/network/soe/session_unittest.cc:119-131 | with receive buffer 27 and CRC 2, the 24-byte message goes out as exactly two packets, the first being the fragmented fixture |
| SoeProtocolFilter.ProtocolFilter.Apply | src/anh/network/soe/filters/soe_protocol_filter.cc:32-41 | a null packet changes nothing; otherwise the owning session's received log grows by exactly that packet's message (one HandleMessage call), no object but that session changes, and the filter returns normally whatever the outcome |
| Cluster.IndexOf | src/anh/network/cluster/cluster_service.cc:182-184 | the position of the first entry of the process |
| Cluster.BatchSize | src/anh/network/cluster/cluster_service.cc:109-113 | a run takes all queued entries or the budget, whichever is fewer |
| Cluster.OccurrencesZero | src/anh/network/cluster/cluster_service.cc:131-138 | a process has no entry exactly when it is not connected |
| Cluster.UniqueAtMostOnce | src/anh/network/cluster/cluster_service.cc:144-148 | in a table without duplicates, a process has at most one entry |
| Cluster.ConnectGuarded | src/anh/network/cluster/cluster_service.cc:139-173 | Connect changes the table exactly when the process has no entry, is not on the node's own port and has a non-null client; it then appends that one entry; no duplicate and no self-connection ever appears |
| Cluster.ConnectTwiceOneEntry | src/anh/network/cluster/cluster_service.cc:144-148 | after two Connects of the same process, it has exactly one entry if it had one already or either call was allowed to add it, and none otherwise |
| Cluster.DisconnectRemovesExactly | src/anh/network/cluster/cluster_service.cc:174-192 | Disconnect removes exactly the process's entry and keeps every other entry; it is a no-op for a process without an entry; the invariants are kept |
| Cluster.RemoveAt | src/anh/network/cluster/cluster_service.cc:185 | erasing one entry shifts the later entries down by one |
| Cluster.RecipientsExactly | src/anh/network/cluster/cluster_service.cc:220-230 | a client is sent to by type exactly when some entry of that type has that client |
| Cluster.AllRecipientsExactly | src/anh/network/cluster/cluster_service.cc:231-237 | a broadcast to all sends once per table entry, and a client is sent to if and only if some entry holds it |
| Cluster.WithoutDataExactly | src/anh/network/cluster/cluster_service.cc:75-79 | removing by process data keeps exactly the entries describing other processes and keeps every invariant |
| Cluster.WithoutDataMember | src/anh/network/cluster/cluster_service.cc:75-79 | an entry survives removal by data exactly when it was there and describes another process |
| Cluster.WithoutDataUnique | src/anh/network/cluster/cluster_service.cc:75-79 | removal by data keeps process identities unique |
| Cluster.WithoutDataUniqueData | src/anh/network/cluster/cluster_service.cc:68-79 | removal by data keeps process descriptions unique |
| Cluster.ClusterService.constructor | src/anh/network/cluster/cluster_service.cc:50-65 | empty table and queues; the outgoing pipeline is start then send; the incoming pipeline is receive then event |
| Cluster.ClusterService.Update | src/anh/network/cluster/cluster_service.cc:109-113 | the incoming pipeline runs first, then the outgoing one; each takes its oldest min(queued, 100) entries and the rest stay in order |
| Cluster.ClusterService.Shutdown | src/anh/network/cluster/cluster_service.cc:115-122 | table, both queues and both pipelines are empty |
| Cluster.ClusterService.IsConnectedName | src/anh/network/cluster/cluster_service.cc:124-130 | true exactly when some entry's process has that name |
| Cluster.ClusterService.IsConnected | src/anh/network/cluster/cluster_service.cc:131-138 | true exactly when that very process object has an entry |
| Cluster.ClusterService.GetConnectionByName | src/anh/network/cluster/cluster_service.cc:249-259 | null exactly when no entry has that name; otherwise the client of the first entry with that name |
| Cluster.ClusterService.GetConnectionByEndpoint | src/anh/network/cluster/cluster_service.cc:238-248 | null exactly when no entry matches both address and port; otherwise the client of the first entry that does |
| Cluster.ClusterService.ConnectClient | src/anh/network/cluster/cluster_service.cc:157-173 | the table becomes AfterConnect with the given client; a null client leaves it unchanged; the invariants are kept |
| Cluster.ClusterService.Connect | src/anh/network/cluster/cluster_service.cc:139-156 | the same, with the client dialled to the process; a failed dial leaves the table unchanged |
| Cluster.ClusterService.Disconnect | src/anh/network/cluster/cluster_service.cc:174-192 | the table becomes AfterDisconnect: the process's first entry is erased if it has one; the invariants are kept |
| Cluster.ClusterService.SendMessageToName | src/anh/network/cluster/cluster_service.cc:193-208 | with a connection of that name, exactly one message (the first such entry's client, the payload, the destination) is appended to the outgoing queue; with none, the queue is unchanged |
| Cluster.ClusterService.SendMessageToEndpoint | src/anh/network/cluster/cluster_service.cc:209-219 | the same, for the first entry at that address and port |
| Cluster.ClusterService.SendMessageByType | src/anh/network/cluster/cluster_service.cc:220-230 | one direct send to each connection of that type, in table order; the table is not changed |
| Cluster.ClusterService.SendMessageToAll | src/anh/network/cluster/cluster_service.cc:231-237 | one direct send to every connection, in table order; the table is not changed |
| Cluster.ClusterService.OnTcpHostReceive | src/anh/network/cluster/cluster_service.cc:277-281 | the buffer is appended to the end of the incoming queue |
| Cluster.ClusterService.OnRegisterProcessAsWritten | src/anh/network/cluster/cluster_service.cc:68-72 | a new process object is connected, so an entry is appended whenever the port differs and a client was dialled, even for a process already registered |
| Cluster.ClusterService.OnRemoveProcessAsWritten | src/anh/network/cluster/cluster_service.cc:75-79 | the table is never changed |
| Cluster.ClusterService.OnRegisterProcess | src/anh/network/cluster/cluster_service.cc:68-72 | a process already described in the table is not connected again; otherwise Connect's guards apply and the new entry holds the dialled client; descriptions stay unique |
| Cluster.ClusterService.OnRemoveProcess | src/anh/network/cluster/cluster_service.cc:75-79 | every entry describing the removed process is erased and the others are kept |
| Cluster.RegisterThenRemoveAsWritten | src/anh/network/cluster/cluster_service.cc:68-79 | as written, registering and then removing a process leaves its connection in place |
| Cluster.RegisterTwiceAsWritten | src/anh/network/cluster/cluster_service.cc:68-72 | as written, registering a process twice gives it two connections |
| Cluster.RegisterThenRemove | src/anh/network/cluster/cluster_service.cc:68-79 | as intended, registering then removing leaves no connection |
| Cluster.RegisterTwice | src/anh/network/cluster/cluster_service.cc:68-72 | as intended, registering twice leaves one connection |

## Left out

- The ASIO acceptor, `Start`, `handle_accept_`, the `io_service` thread and the destructor's interrupt/join are left out. They are I/O and concurrency.
- Building a `tcp_client` is left out, because it is a foreign call. `Connect` takes its outcome as a parameter: `dialled` is `None` when construction throws and the exception is swallowed.
- `tcp_client::Send` is left out, because it is a foreign call. Broadcasts append to a `transmitted` log instead.
- `EventInterface::serialize` is left out, because it is a foreign call. `SendMessageToName` takes the serialized bytes as its payload.
- `Update`: the pipelines' own `run` and its filters are not in the model, because they are not visible. A run is treated as taking its batch off the service's queue, and it is recorded in `runs`.
- The event dispatcher's subscription wiring is left out. The two listeners are modelled as methods.
- glog output is left out. That includes `DLOG(FATAL)` in `sendMessage(name, …)`, which aborts a debug build and compiles to nothing in a release build. The model follows the release build, where an unknown name has no effect at all.
- The CRC algorithm and the trailer bytes are left out. `crc_length` only shortens the room in a packet.
- Retransmission timing is left out.
- Acknowledgment processing is left out, so nothing is ever removed from the unacknowledged store.
- The inbound side of `Session::HandleMessage` (decoding, in-order delivery, reassembly, acknowledgment, retransmission) is left out, because the session's implementation is not part of this model. `HandleMessage` records the message and reports an arbitrary outcome, and its contract lets it change any other field of the session, so nothing is promised about the send state after an inbound packet.
- The session's default receive buffer size and CRC length are constructor parameters. Their values are not part of this model.
- The small-message tests require that the 6-byte message fits a packet.
- The mock service's `EXPECT_CALL(...).Times(n)` is modelled as the number of packets appended to `outbound`.
- The object factories, `Intangible`, and the vehicle deed radial script are left out. They hold no logic this model states.
- Cluster.ClusterService.SendMessageToName: an unknown name is not reported to the caller. The source's function returns nothing, so only the unchanged queue is stated. The same holds for SendMessageToEndpoint.
- Cluster.ClusterService.SendMessageToName: the model assumes `event_out->serialize(buffer)` returns normally. In the source it runs outside any try/catch (cluster_service.cc:200), so if it throws, nothing is queued and the exception reaches the caller; the model has no such path.
- Cluster.ClusterService.SendMessageByType: the model assumes `tcp_client::Send` returns normally for every recipient. The source's `for_each` loop (cluster_service.cc:223-229) has no try/catch, so a `Send` that throws skips every later matching connection and the exception reaches the caller. The broadcast is therefore not best-effort per recipient in the source, and the model does not capture that failure path.
- Cluster.ClusterService.SendMessageToAll: the same assumption as for SendMessageByType. The `for_each` loop at cluster_service.cc:233-236 has no try/catch, so a `Send` that throws skips every later connection and the exception reaches the caller; the model always sends to every entry.
- Cluster.ClusterService.SendMessageToEndpoint: the source moves the caller's buffer into the queued message when a connection is found, which may leave the caller's buffer moved-from. The model takes the payload by value and does not model moving it out of the caller's buffer.
- SoeSession.Session.SendMessage: when a message must be fragmented and a packet cannot hold the length prefix plus one payload byte, the model returns false and changes nothing. What the source does then is not visible. A session could instead refuse such a configuration when the receive buffer size or CRC length is set; the model does not check the configuration there.
- SoeSession.Session.SendMessage: the stored copy is keyed by the sequence number each packet went out with. Keying it by the counter after the increment would be the other reading; the tests do not decide between the two.
- Cluster.ClusterService.Update: the order of entries within a run, and one entry failing while others pass, are not modelled. The outgoing batch is taken from the queue as it was before the tick, so the model assumes the incoming run queues no outgoing messages; in the source, the packet event filter may dispatch events whose handlers call `sendMessage`, and those messages could be taken by the same tick's outgoing run. A run is also modelled as taking its batch even when its pipeline has no filters, as after `Shutdown`; whether the source's `run` still takes queued entries off a pipeline whose filters were cleared is not visible, because `run` is not part of this model.

## Findings

| source | as written | input that shows it | evidently intended | confidence | as-written member | corrected member |
|---|---|---|---|---|---|---|
| src/anh/network/cluster/cluster_service.cc:75-79 | the RemoveProcess listener wraps the event's data in a new `Process` and disconnects that new object; the table compares by identity, so the disconnect never matches | on a node listening on port 1, register process ("zone", "zone", "127.0.0.1", 2), then remove it: one connection remains | the directory's removal of a process closes its connection | not executed | Cluster.RegisterThenRemoveAsWritten | Cluster.RegisterThenRemove |
| src/anh/network/cluster/cluster_service.cc:68-72 | the RegisterProcess listener connects a new `Process` for every event, so `isConnected` never sees it as already present | register the same process data twice: two connections | one connection per registered process | not executed | Cluster.RegisterTwiceAsWritten | Cluster.RegisterTwice |

The corrected listeners (`Cluster.ClusterService.OnRegisterProcess` and `Cluster.ClusterService.OnRemoveProcess`) match entries by the process's description instead of by object identity.
