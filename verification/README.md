# A verified model of the ZPR packet handler

`ph` is the packet handler of a ZPR network: it runs on adapters and nodes, carries actor packets
over secured links, and manages the links' and actors' lifecycles. This project models its hard
core in Dafny and proves what that core keeps; `dafny verify dfyconfig.toml` covers the whole
project.

How the modules follow the program:

| module | part of `ph` |
|---|---|
| `Packets`, `Bytes`, `InternetChecksum` | the packet buffer with headroom and tailroom; big-endian fields; the checksum of RFC 1071, sections 1 and 2 |
| `Classifier`, `Acceptance` | the packet classifier; exactly which packets it accepts, said by headers and sums |
| `Compress`, `CompressInPlace`, `AcceptedPackets` | header compression: as functions on bytes, as the in-place code on a packet, and for the packets the classifier accepts |
| `PacketSecurity`, `LinkSecurity`, `KeyedLink` | null, MAC and full protection of one packet; the choice of protection on a link; a link as keying leaves it |
| `A2aPath` | adapter-to-adapter transit of an actor packet over any number of hops |
| `KmNoise` | the Noise key manager, over an ideal three-message session |
| `LinkState`, `LinkProgress` | the link state machine, and what its timers and closes bring about |
| `AddressPool`, `AaaConservation` | the AAA address pool, and a node's links with it |
| `ActorAuth`, `ActorClient`, `NodeSession`, `DockSession` | actor authorization on the node and on the adapter, and each together with its link |
| `BatchIo`, `FastpathWorker` | io_uring completion handling; packet-buffer ownership in a worker |
| `LookupTable` | the endpoint lookup table with the transactions behind its pending entries |
| `Runs`, `Ledger` | runs of a step function and their invariants; sums of multisets |

Objects the program updates in place are classes whose methods are proved equal to functions on
values; the invariants and run theorems are about those functions. Network answers, table lookups,
random numbers, clock readings, the kernel and the TUN device are inputs. Keyed hashing and the
cipher are function parameters; a codec is held to what the trait's documentation says of its
output sizes, and to a peer codec that opens what it seals.

## What holds, and what does not

- Expanding a compressed packet gives the packet back exactly when the packet is consistent with
  its five-tuple (`Compress.RoundTrip`). For a packet the classifier accepts, that is: no extension
  header, the transport header where compression looks for it, and no checksum field holding the
  other one's-complement zero (`AcceptedPackets.AcceptedRoundTrip`). Compression looks right behind
  20 bytes of IPv4 header, so in front of TCP or UDP, IPv4 options survive only if they happen to
  read as an agreeing transport header (`AcceptedPackets.OptionsCanonical`).
- `decrement_ttl` leaves the IPv4 header checksum as it was. An accepted IPv4 packet whose TTL was
  lowered is therefore never rebuilt as it was sent (`AcceptedPackets.StaleIpv4Checksum`), and end
  to end it is dropped as expired, dropped on its MAC, or queued with other bytes
  (`A2aPath.Ipv4EndToEnd`). IPv6 packets with a hop limit above one arrive byte for byte, exactly
  under the conditions above (`A2aPath.Ipv6EndToEnd`).
- `encrypt_full` panics when a ciphertext that went through the scratch buffer is longer than what
  the packet can take back (`PacketSecurity.EncryptFull`, `PacketSecurity.ShortTailroomPanics`).
  Tailroom for the codec's overhead rules that out (`PacketSecurity.OverheadFits`), and for Noise
  nothing less does, up to the size of the scratch buffer (`PacketSecurity.OverrunsExactly`).
- `actor_input` panics before it looks at the MAC exactly when the A2A byte is not zero or the packet
  is too short to expand (`A2aPath.ReceivedPanicsIff`, `A2aPath.BareMacPanics`).
- A packet is accepted whole exactly when its IP header passes and its payload comes apart into
  extension headers and a transport whose lengths and word sums fit (`Acceptance.AcceptedIff`,
  `Acceptance.PayloadAcceptedIff`).
- The classifier indexes past the end of a packet exactly when its IP header passes every test and
  the first header behind it is cut short (`Classifier.ClassifyInBounds`); every later header is
  covered by a length check (`Classifier.WalkInBounds`).
- `handle_message` with a key-manager type other than noise and null loses the handshake state
  exactly when the message completes the handshake, and the next message panics
  (`KmNoise.OtherKmLosesSession`, `KmNoise.OtherKmPanics`). The configuration accepts no other type
  (adapter/ph/src/config.rs:552-560), so the program as configured never gets there.
- `insert_pending` keeps its two maps in agreement exactly when the transaction is new to the table
  (`LookupTable.InsertKeepsConsistency`); with the transaction manager it always is. A bind request
  that is cancelled unwraps the denial of its own tether, which panics exactly when its transaction
  is no longer pending (`LookupTable.EveryRunIsConsistent`); clearing the table in between is
  enough (`LookupTable.ClearedBindPanics`).
- A link never waits without a current timer (`LinkProgress.EveryWaitHasATimer`), a close runs to its
  end with or without its peer (`LinkProgress.CloseRunsToItsEnd`), and in a node that frees the
  link's id (`AaaConservation.ClosingFreesId`). A usable grant authorizes the actor whatever other
  transactions do meanwhile (`ActorAuth.GrantAuthorizes`).
- Releasing an AAA address gives its id back exactly when the pool's network is AAA-marked
  (`AddressPool.Pool.AllocateAndRelease`). A node's addresses are conserved as long as a link id is
  not used again while a finished close is still to be delivered for it. Delivering one loses an
  address exactly when the link is closing or resetting and still holds one
  (`AaaConservation.CloseDoneConservesIff`), and with a reused id that is reached
  (`AaaConservation.ReuseReachesLeak`).
- Key management is sent under ZPI 0 even on an established link, where the receiver refuses it
  (`LinkSecurity.EstablishedLink`).

## Model

| member | source | states |
|---|---|---|
| `Packets.Packet.constructor` | adapter/ph/src/packet.rs:304-312 | a fresh packet is empty and has the headroom asked for |
| `Packets.Packet.Body` | adapter/ph/src/packet.rs:461-471 | the body is the window of the buffer, as long as the packet says |
| `Packets.Packet.Advance` | adapter/ph/src/packet.rs:673-679 | drops bytes from the front and keeps the rest |
| `Packets.Packet.ShrinkBy` | adapter/ph/src/packet.rs:625-632 | drops bytes from the end and keeps the rest |
| `Packets.Packet.GetU16` | adapter/ph/src/packet.rs:655-680 | reads the first big-endian word and consumes it |
| `Packets.Packet.PushHeader` | adapter/ph/src/packet.rs:588-618 | puts a header in front of an unchanged body, out of the headroom |
| `Packets.Packet.Put` | adapter/ph/src/packet.rs:682-702 | appends to an unchanged body, out of the tailroom |
| `Packets.Packet.Write` | adapter/ph/src/packet.rs:473-477 | overwrites one field of the body and nothing else in it |
| `Packets.Packet.CopyWithin` | adapter/ph/src/compress.rs:179-242 | an overlapping copy reads the old bytes throughout |
| `Packets.Packet.AdoptTailroomWithHeader` | adapter/ph/src/packet.rs:524-541 | the new body is the old header followed by what was written to the tailroom, also where the two overlap |
| `InternetChecksum.FoldIsResidue` | adapter/ph/src/classifier.rs:463-471 | folding carries is the sum modulo 65535, with zero only for a zero sum |
| `InternetChecksum.ZeroChecksum` | adapter/ph/src/classifier.rs:463-471 | data verifies exactly when its word sum is a nonzero multiple of 65535 |
| `InternetChecksum.WordSumAppendSwapped` | adapter/ph/src/fastpath.rs:744-755 | behind an odd number of bytes a byte-swapped trailer still counts as its word |
| `InternetChecksum.Completes` | adapter/ph/src/fastpath.rs:847-861 | the words that complete a sum to a verifying one: the checksum, and the other zero when that is zero |
| `InternetChecksum.RecomputedField` | adapter/ph/src/compress.rs:63-105 | recomputing the field of verifying data gives it back, or the canonical zero for the other one |
| `Classifier.WalkInBounds` | adapter/ph/src/classifier.rs:265-391 | the extension-header walk reads out of bounds exactly when its first header is short; it terminates on every body |
| `Classifier.SkipInBounds` | adapter/ph/src/classifier.rs:290-329 | skipping an option re-establishes what the next header needs: out of bounds only for fewer than two bytes |
| `Classifier.ClassifyInBounds` | adapter/ph/src/classifier.rs:139-263 | a packet is read out of bounds if and only if its IP header passes every test and the first header behind it is cut short; never with eight payload bytes |
| `Classifier.BareIpv6Header` | adapter/ph/src/classifier.rs:219-263 | for a bare IPv6 header, exactly which next headers are read out of bounds |
| `Classifier.AcceptedLength` | adapter/ph/src/classifier.rs:393-455 | an accepted TCP or UDP packet has the full transport header, behind any number of extension headers |
| `Classifier.AcceptedPayload` | adapter/ph/src/classifier.rs:265-288 | without extension headers: protocol, ports, lengths and checksum agree with the payload; exactly which payloads, for each transport and behind extension headers, is Acceptance.PayloadAcceptedIff |
| `Classifier.KeepsAddresses` | adapter/ph/src/classifier.rs:265-455 | the walk leaves addresses and network type of the five-tuple alone |
| `Compress.PortsRoundTrip` | adapter/ph/src/compress.rs:179-285 | restoring carried ports takes from the packet or the five-tuple what the mode says, and leaves the rest |
| `Compress.TcpRoundTrip` | adapter/ph/src/compress.rs:179-242 | a TCP segment comes back with its ports and a recomputed checksum |
| `Compress.L4RoundTrip` | adapter/ph/src/compress.rs:155-177 | what compressing leaves can be expanded, for every transport and mode, to the rebuilt payload |
| `Compress.L4RebuiltIff` | adapter/ph/src/compress.rs:155-285 | the rebuilt payload is the original exactly when ports, length and checksum agree with the five-tuple |
| `Compress.Ipv6RoundTrip` | adapter/ph/src/compress.rs:107-153 | an IPv6 packet comes back with a rebuilt header |
| `Compress.Ipv6RebuiltIff` | adapter/ph/src/compress.rs:131-153 | the rebuilt IPv6 packet is the original exactly when length, next header, addresses and payload agree |
| `Compress.WithFlagsRestores` | adapter/ph/src/compress.rs:63-105 | fragment flags and offset recombine to the original word |
| `Compress.Ipv4CompressedFields` | adapter/ph/src/compress.rs:24-61 | header length, flags, type of service, identification, offset, TTL and payload can be read back from the compressed packet |
| `Compress.Ipv4RoundTrip` | adapter/ph/src/compress.rs:24-105 | an IPv4 packet, fragment or not, comes back with a rebuilt header |
| `Compress.Ipv4RebuiltIff` | adapter/ph/src/compress.rs:63-105 | the rebuilt IPv4 packet is the original exactly when version, length, protocol, addresses, payload and header checksum agree |
| `Compress.RoundTrip` | adapter/ph/src/compress.rs:288-308 | expanding a compressed packet gives it back if and only if it is consistent with its five-tuple, in every mode |
| `CompressInPlace.CompressTcp` | adapter/ph/src/compress.rs:179-199 | in place: ports taken out and the checksum cut by the overlapping copy |
| `CompressInPlace.CompressUdp` | adapter/ph/src/compress.rs:244-263 | in place: ports, length and checksum as the function on bytes has them |
| `CompressInPlace.CompressL4` | adapter/ph/src/compress.rs:155-165 | in place, by transport |
| `CompressInPlace.CompressIpv6` | adapter/ph/src/compress.rs:107-129 | in place: the IPv6 header reduced to five bytes in front of the compressed payload |
| `CompressInPlace.CompressIpv4` | adapter/ph/src/compress.rs:24-61 | in place: the IPv4 header reduced to five or seven bytes in front of the compressed payload |
| `CompressInPlace.CompressPacket` | adapter/ph/src/compress.rs:288-299 | in place: the body is the compressed packet and its end does not move |
| `CompressInPlace.ExpandTcp` | adapter/ph/src/compress.rs:201-242 | in place: ports restored, the checksum slot reopened by the overlapping copy and filled |
| `CompressInPlace.ExpandUdp` | adapter/ph/src/compress.rs:265-285 | in place: the UDP header rebuilt |
| `CompressInPlace.ExpandL4` | adapter/ph/src/compress.rs:167-177 | in place, by transport |
| `CompressInPlace.ExpandIpv6` | adapter/ph/src/compress.rs:131-153 | in place: the IPv6 header rebuilt |
| `CompressInPlace.ExpandIpv4` | adapter/ph/src/compress.rs:63-105 | in place: the IPv4 header rebuilt, with its checksum |
| `CompressInPlace.ExpandPacket` | adapter/ph/src/compress.rs:302-308 | in place: the body is the expanded packet and its end does not move |
| `CompressInPlace.CompressAndExpand` | adapter/ph/src/compress.rs:318-351 | the two run on one packet return its offset and give the rebuilt packet, with no more headroom than it started with |
| `CompressInPlace.TakeIpv4Fields` | adapter/ph/src/compress.rs:63-86 | the fields read off the front of a compressed packet |
| `CompressInPlace.PutIpv4Header` | adapter/ph/src/compress.rs:86-105 | the rebuilt header in front of the body, its checksum computed over the header length |
| `AcceptedPackets.AcceptedHeader` | adapter/ph/src/classifier.rs:157-263 | what acceptance says of the header: lengths, addresses and, for IPv4, a verifying checksum |
| `AcceptedPackets.AcceptedTransport` | adapter/ph/src/classifier.rs:265-455 | what acceptance says of the payload behind the IP header and its options when no extension header hides it |
| `AcceptedPackets.TcpChecksumRecomputed` | adapter/ph/src/compress.rs:201-242 | recomputing the TCP checksum of an accepted packet gives the field back up to the choice of zero |
| `AcceptedPackets.Ipv4ChecksumRecomputed` | adapter/ph/src/compress.rs:63-105 | the same for the IPv4 header checksum |
| `AcceptedPackets.RoundTripIsCanonical` | adapter/ph/src/compress.rs:24-308 | the round trip of any accepted packet changes nothing but checksum fields holding the other zero, if and only if its header names its transport and the transport header is where compression looks for it |
| `AcceptedPackets.OptionsCanonical` | adapter/ph/src/compress.rs:24-308 | with IPv4 options in front of TCP or UDP: exactly when the options read as an agreeing transport header |
| `AcceptedPackets.CanonicalIff` | adapter/ph/src/compress.rs:24-308 | a packet is its own canonical form exactly when no checksum field holds the other zero |
| `AcceptedPackets.AcceptedRoundTrip` | adapter/ph/src/compress.rs:288-308 | any accepted packet survives if and only if its header names its transport, the transport header is where compression looks for it, and its checksums are canonical |
| `AcceptedPackets.DecrementTtl` | adapter/ph/src/fastpath.rs:1125-1158 | byte by byte: the TTL byte of IPv4 or the hop limit byte of IPv6 is one less unless already zero, every other byte is as it was, and the result says whether that byte was at most one |
| `AcceptedPackets.LoweredHopLimitSurvives` | adapter/ph/src/fastpath.rs:1125-1158 | an accepted IPv6 packet survives compression after its hop limit was lowered exactly when it would have before |
| `AcceptedPackets.HopLimitKeepsConsistency` | adapter/ph/src/fastpath.rs:1125-1158 | lowering an IPv6 hop limit does not affect whether a packet survives compression |
| `AcceptedPackets.TtlLowersSum` | adapter/ph/src/fastpath.rs:1125-1158 | lowering an IPv4 TTL lowers the header sum by 256 |
| `AcceptedPackets.StaleIpv4Checksum` | adapter/ph/src/fastpath.rs:1125-1158 | no accepted IPv4 packet survives compression after its TTL was lowered |
| `PacketSecurity.EncryptNull` | adapter/ph/src/fastpath.rs:744-755 | appends the trailer to an unchanged body |
| `PacketSecurity.DecryptNull` | adapter/ph/src/fastpath.rs:847-861 | accepts, refuses and trims as the function on bytes does; a refused packet is unchanged |
| `PacketSecurity.NullAcceptsExactly` | adapter/ph/src/fastpath.rs:744-861 | for every payload, odd or even, the trailers accepted are the one written and, where that is zero, the other zero |
| `PacketSecurity.NullRoundTrip` | adapter/ph/src/fastpath.rs:1167-1184 | null encryption and decryption restore every body with a ZPI byte |
| `PacketSecurity.EncryptHmac` | adapter/ph/src/fastpath.rs:758-764 | appends the MAC of the whole body |
| `PacketSecurity.DecryptHmac` | adapter/ph/src/fastpath.rs:864-881 | accepts exactly a packet that is some body followed by the MAC of that body; the MAC is gone unless the packet was too short |
| `PacketSecurity.WriteSealed` | adapter/ph/src/km.rs:841-863 | a codec call writes its output to the front of the given space, refuses too small a space, and touches nothing before it |
| `PacketSecurity.TransformInPlace` | adapter/ph/src/fastpath.rs:795-809 | through the tailroom: ZPI byte and output, whatever the overlap |
| `PacketSecurity.TransformViaScratch` | adapter/ph/src/fastpath.rs:811-824 | through the scratch buffer: the same body; failure exactly when the scratch buffer is too small, overrun exactly when the packet cannot take the output back |
| `PacketSecurity.EncryptFull` | adapter/ph/src/fastpath.rs:784-824 | for every body and tailroom: both paths give the same body; with tailroom for the whole it succeeds whenever the codec does; it fails exactly when the codec refuses or the scratch buffer is too small, leaving the packet unchanged, and panics exactly on an overrun |
| `PacketSecurity.DecryptFull` | adapter/ph/src/fastpath.rs:901-948 | the same for decryption, and which packets are structurally refused |
| `PacketSecurity.OverheadFits` | adapter/ph/src/fastpath.rs:811-824 | tailroom for the codec's overhead rules the overrun out |
| `PacketSecurity.OverrunsExactly` | adapter/ph/src/fastpath.rs:811-824 | for a codec that always adds its full overhead: an overrun if and only if the tailroom is smaller than it and the ciphertext fits the scratch buffer |
| `PacketSecurity.ShortTailroomPanics` | adapter/ph/src/fastpath.rs:811-824 | a codec with an overhead of 24, 60 bytes of body and 10 of tailroom overrun |
| `PacketSecurity.FullRoundTrip` | adapter/ph/src/fastpath.rs:784-948 | decryption restores ZPI and body for every body and pair of codecs |
| `PacketSecurity.FullRoundTripAcross` | adapter/ph/src/fastpath.rs:1311-1358 | across any mix of the two paths in two packets, the exact condition of delivery, and then of the original body |
| `LinkSecurity.EstablishedLink` | adapter/ph/src/fastpath.rs:951-1112 | between mirrored ends every message arrives as sent, except key management, which is refused |
| `LinkSecurity.UnestablishedLink` | adapter/ph/src/fastpath.rs:980-1112 | before keying, a known link passes key management only, and a new one anything |
| `KeyedLink.HandshakeSecuresLink` | adapter/ph/src/km_noise.rs:494-621 | two ends that reached one transcript by any runs open each other's traffic in both directions, under the ZPI the other end asked for |
| `A2aPath.PostClassify` | adapter/ph/src/fastpath.rs:328-366 | the sender's MAC over the uncompressed packet, compression and A2A header, in place |
| `A2aPath.ActorOutput` | adapter/ph/src/fastpath.rs:254-366 | the hop count lowered, and nothing sent if that uses it up |
| `A2aPath.CompressedShrinks` | adapter/ph/src/compress.rs:288-299 | compression frees at least thirteen bytes of an IP packet, enough for what is pushed in front |
| `A2aPath.EgressTransit` | adapter/ph/src/fastpath.rs:1033-1112 | transit header, ZPI and link MAC around the message, in place |
| `A2aPath.IngressTransit` | adapter/ph/src/fastpath.rs:140-224 | link protection and headers off again, in place, exactly when they verify |
| `A2aPath.HopIsTransparent` | adapter/ph/src/fastpath.rs:425-437 | one hop hands on what it was given |
| `A2aPath.PathIsTransparent` | adapter/ph/src/fastpath.rs:378-438 | any number of hops hand on what they were given |
| `A2aPath.CarryAcross` | adapter/ph/src/fastpath.rs:378-438 | the same with one packet carried over all hops in place: body and offset return |
| `A2aPath.ReceivedPanicsIff` | adapter/ph/src/fastpath.rs:553-613 | the receiver panics, before the MAC is looked at, if and only if the A2A byte is not zero or the packet is too short to expand |
| `A2aPath.BareMacPanics` | adapter/ph/src/fastpath.rs:585-593 | nine bytes on an IPv6 flow do |
| `A2aPath.RoomToExpand` | adapter/ph/src/fastpath.rs:585-593 | 41 bytes of headroom suffice for every expansion |
| `A2aPath.ActorInput` | adapter/ph/src/fastpath.rs:553-613 | the receiver's decision and the packet it queues, in place, and the panic of a packet without the headroom to expand |
| `A2aPath.DeliversRebuilt` | adapter/ph/src/fastpath.rs:553-613 | end to end, the receiver queues the rebuilt packet if its MAC is the sent packet's, and drops it otherwise |
| `A2aPath.Ipv6EndToEnd` | adapter/ph/src/fastpath.rs:254-613 | an accepted IPv6 packet arrives with byte 7 one less and every other byte equal, over any path, if and only if that byte exceeds one, it has no extension header, and its TCP checksum is canonical; it is dropped as expired exactly when that is one or zero |
| `A2aPath.Ipv4EndToEnd` | adapter/ph/src/fastpath.rs:254-613 | an accepted IPv4 packet never arrives with its TTL byte one less and the rest equal; exactly when it is dropped as expired, and when on its MAC |
| `BatchIo.Stored` | adapter/ph/src/batch_io.rs:622-664 | storing a completion grows the vector to its index, fills gaps with would-block, and keeps earlier results |
| `BatchIo.DoBatchOp` | adapter/ph/src/batch_io.rs:554-670 | for completions in any order: one past the largest index that did not ask for a retry, each entry its own operation's result, gaps would-block, earlier results kept |
| `BatchIo.OrderIrrelevant` | adapter/ph/src/batch_io.rs:600-670 | any two orders of the same completions give the same vector |
| `FastpathWorker.KeptPositions` | adapter/ph/src/fastpath_io.rs:316-339 | the positions kept are exactly those of unsent priority packets, ascending |
| `FastpathWorker.RetainedStoodThere` | adapter/ph/src/fastpath_io.rs:316-354 | the retained packets are the ones at those positions, in that order |
| `FastpathWorker.PartitionUnsent` | adapter/ph/src/fastpath_io.rs:291-355 | the loop permutes the queue, ends with exactly the unsent priority packets in front in order, and sent, dropped and retained add up |
| `FastpathWorker.Worker.DropAndCount` | adapter/ph/src/fastpath.rs:119-123 | a dropped packet's buffer is free again |
| `FastpathWorker.Worker.GetFreshPackets` | adapter/ph/src/fastpath.rs:126-137 | hands out as many buffers as asked for or there are, and loses none |
| `FastpathWorker.Worker.SubstrateIngress` | adapter/ph/src/fastpath.rs:140-251 | on every path the packet's buffer is freed, queued or lent, once |
| `FastpathWorker.Worker.ActorOutput` | adapter/ph/src/fastpath.rs:254-297 | on every path the buffer is freed, queued or lent, once |
| `FastpathWorker.Worker.ActorOutputPostClassify` | adapter/ph/src/fastpath.rs:300-375 | on every path the buffer is freed, queued or lent, once |
| `FastpathWorker.Worker.Forward` | adapter/ph/src/fastpath.rs:378-438 | on every path the buffer is freed or queued, once |
| `FastpathWorker.Worker.ActorInput` | adapter/ph/src/fastpath.rs:553-613 | the buffer is freed or queued for the actor, once |
| `FastpathWorker.Worker.SubstrateEgress` | adapter/ph/src/fastpath.rs:617-647 | the buffer is freed or queued for the substrate, once |
| `FastpathWorker.Worker.ProcessReceived` | adapter/ph/src/fastpath_io.rs:87-204 | a receive batch keeps the inventory, with any number of its buffers filled |
| `FastpathWorker.Worker.BatchProcessPacketQueue` | adapter/ph/src/fastpath_io.rs:382-408 | draining a management queue keeps the inventory |
| `FastpathWorker.Worker.ProcessActorInputQueue` | adapter/ph/src/fastpath_io.rs:241-288 | the actor queue is emptied and its buffers freed |
| `FastpathWorker.Worker.ProcessSubstrateEgressQueue` | adapter/ph/src/fastpath_io.rs:291-355 | the queue keeps the unsent priority packets, and every other buffer is freed |
| `FastpathWorker.Worker.ProcessOutQueues` | adapter/ph/src/fastpath_io.rs:235-238 | afterwards only priority packets wait |
| `FastpathWorker.Worker.ReclaimReturns` | adapter/ph/src/fastpath_worker.rs:41-175 | buffers coming back from management are free again |
| `FastpathWorker.Worker.Run` | adapter/ph/src/fastpath_worker.rs:41-175 | over any number of cycles no buffer is lost or duplicated |
| `LookupTable.InsertKeepsConsistency` | adapter/ph/src/adapter_tables.rs:128-145 | the maps stay in agreement if and only if the flow is present already or the transaction is new |
| `LookupTable.UnpendKeepsConsistency` | adapter/ph/src/adapter_tables.rs:151-203 | activating and removing never meet their consistency assertions, and keep agreement |
| `LookupTable.EndpointLookupTable.constructor` | adapter/ph/src/adapter_tables.rs:121-126 | an empty table |
| `LookupTable.EndpointLookupTable.InsertPending` | adapter/ph/src/adapter_tables.rs:128-145 | the table after inserting, and each refusal with the packet handed back |
| `LookupTable.EndpointLookupTable.SetActive` | adapter/ph/src/adapter_tables.rs:151-176 | the table after activation, the held packet handed back, and agreement kept |
| `LookupTable.EndpointLookupTable.Remove` | adapter/ph/src/adapter_tables.rs:191-203 | the table after removal, and agreement kept |
| `LookupTable.EndpointLookupTable.Clear` | adapter/ph/src/adapter_tables.rs:116-119 | both maps are emptied |
| `LookupTable.RequestKeepsInv` | adapter/ph/src/adapter_manager_worker.rs:57-83 | a bind request opens a transaction no pending entry has, so the duplicate-transaction panic is dead |
| `LookupTable.UnpendKeepsInv` | adapter/ph/src/adapter_tables.rs:191-203 | a refused request's entry and transaction go, and its packet is handed back once |
| `LookupTable.InstallKeepsInv` | adapter/ph/src/adapter_tables.rs:151-176 | a granted request's transaction goes, and its packet is handed back once |
| `LookupTable.EveryRunIsConsistent` | adapter/ph/src/adapter_tables.rs:115-204 | on every run: the maps agree, no assertion fires, each held packet is handed back at most once, and a panic exactly if some bind request is cancelled with its transaction no longer pending |
| `LookupTable.ClearedBindPanics` | adapter/ph/src/adapter_manager_worker.rs:86-112 | such a run: the table is cleared between a bind request and its cancellation |
| `LookupTable.CancelKeepsInv` | adapter/ph/src/adapter_manager_worker.rs:105-109 | a cancelled request panics if and only if its transaction is no longer pending, and the maps agree either way |
| `KmNoise.NoiseMachine.constructor` | adapter/ph/src/km_noise.rs:193-230 | the machine before its first reset |
| `KmNoise.NoiseMachine.CreateHsMessage` | adapter/ph/src/km_noise.rs:233-265 | the next message carries ZPIs, key and certificate exactly in the second and third position |
| `KmNoise.NoiseMachine.ParseKmPayload` | adapter/ph/src/km_noise.rs:267-302 | ZPIs and key are taken before the certificate is judged, the certificate only if it is accepted |
| `KmNoise.NoiseMachine.ResetSession` | adapter/ph/src/km_noise.rs:429-488 | the machine after a reset, failed or not |
| `KmNoise.NoiseMachine.HandleMessage` | adapter/ph/src/km_noise.rs:494-621 | the machine and reply for any message in any state |
| `KmNoise.NoiseMachine.AnswerAndFinish` | adapter/ph/src/km_noise.rs:555-621 | the answer, and the association if it completes the handshake |
| `KmNoise.NoiseMachine.TickClock` | adapter/ph/src/km_noise.rs:623-637 | a handshake unanswered for too long is an error, once |
| `KmNoise.ResetEstablishes` | adapter/ph/src/km_noise.rs:429-488 | a reset establishes the invariant from any state |
| `KmNoise.AnswerKeeps` | adapter/ph/src/km_noise.rs:555-621 | an answer keeps it |
| `KmNoise.HandleKeeps` | adapter/ph/src/km_noise.rs:494-621 | any message keeps it, and the handshake-state assertion does not fire |
| `KmNoise.EveryRun` | adapter/ph/src/km_noise.rs:429-637 | on every run after a reset: configuring implies a held handshake, an association comes from its own transcript, and a machine told to verify has a verified certificate |
| `KmNoise.EndsMirror` | adapter/ph/src/km_noise.rs:233-621 | initiator and responder on one transcript mirror each other in ZPIs and keys, and each judged the other's certificate against the other's own key |
| `KmNoise.HonestHandshake` | adapter/ph/src/km_noise.rs:429-621 | two honest ends reach that state exactly when each accepts the other's certificate |
| `KmNoise.StaleFieldsAreDead` | adapter/ph/src/km_noise.rs:429-621 | over every run, machines that differ only in what a reset leaves in the ZPIs and certificate give the same replies and reach the same state |
| `KmNoise.OtherKmLosesSession` | adapter/ph/src/km_noise.rs:591-613 | an unlisted key-manager type loses the handshake exactly when the message is read, carries key material and an accepted certificate, and an initiator can answer; every later message then panics |
| `KmNoise.OtherKmPanics` | adapter/ph/src/km_noise.rs:494-613 | a run that gets there: a reset initiator, and the responder's answer twice |
| `KmNoise.AnswersAlike` | adapter/ph/src/km_noise.rs:494-621 | one message keeps two such machines alike and gets the same reply from both |
| `AddressPool.DecodeEncode` | adapter/ph/src/address_pool.rs:64-117 | an id survives its address |
| `AddressPool.InNetwork` | adapter/ph/src/address_pool.rs:64-85 | an address keeps the pool's network, and is AAA-marked exactly when that is |
| `AddressPool.Pool.constructor` | adapter/ph/src/address_pool.rs:44-47 | a new pool has nothing allocated |
| `AddressPool.Pool.New` | adapter/ph/src/address_pool.rs:40-48 | a pool exactly for prefixes of at most 88 bits |
| `AddressPool.Pool.GetAaaAddress` | adapter/ph/src/address_pool.rs:64-85 | the search terminates while an id below the maximum is free, and allocates the first free id of the probe sequence, every id before it being taken |
| `AddressPool.Pool.ReleaseAddress` | adapter/ph/src/address_pool.rs:95-117 | frees the id of an AAA address and refuses any other |
| `AddressPool.Pool.AllocateAndRelease` | adapter/ph/src/address_pool.rs:64-117 | release undoes allocation if and only if the pool is AAA-marked |
| `LinkState.LinkStateWrapper.constructor` | adapter/ph/src/link_state.rs:231-249 | a new link is inactive |
| `LinkState.LinkStateWrapper.DoCancelTimeout` | adapter/ph/src/link_state.rs:209-214 | the clock moves on |
| `LinkState.LinkStateWrapper.DoSetState` | adapter/ph/src/link_state.rs:158-170 | readiness is recomputed and the clock moves on |
| `LinkState.LinkStateWrapper.DoSetTimeout` | adapter/ph/src/link_state.rs:185-202 | a timer at the new clock value |
| `LinkState.LinkStateWrapper.ProcessStart` | adapter/ph/src/link_state.rs:436-485 | the link, result and effects of starting |
| `LinkState.LinkStateWrapper.ProcessKeyingDone` | adapter/ph/src/link_state.rs:490-573 | hello only with an association |
| `LinkState.LinkStateWrapper.DoRunActive` | adapter/ph/src/link_state.rs:1027-1041 | active, with the keep-alive timer |
| `LinkState.LinkStateWrapper.ProcessHelloRequest` | adapter/ph/src/link_state.rs:274-314 | active with an address or as bootstrap, closed otherwise |
| `LinkState.LinkStateWrapper.ProcessHelloResponse` | adapter/ph/src/link_state.rs:316-360 | the same on the adapter, and the actor told |
| `LinkState.LinkStateWrapper.DoInitiateClose` | adapter/ph/src/link_state.rs:687-750 | the two ways to begin closing |
| `LinkState.LinkStateWrapper.DoContinueClose` | adapter/ph/src/link_state.rs:767-801 | closing, the actor taken down, a timer set |
| `LinkState.LinkStateWrapper.ProcessDisconnectAck` | adapter/ph/src/link_state.rs:752-763 | closing goes on only where it waited |
| `LinkState.LinkStateWrapper.DoCleanUp` | adapter/ph/src/link_state.rs:806-876 | address given back and completion scheduled, only while closing or resetting |
| `LinkState.LinkStateWrapper.CompleteClose` | adapter/ph/src/link_state.rs:881-914 | dropped, restarted or ignored, by state |
| `LinkState.LinkStateWrapper.DoReset` | adapter/ph/src/link_state.rs:931-949 | resetting and cleaned up |
| `LinkState.LinkStateWrapper.ProcessTerminateAck` | adapter/ph/src/link_state.rs:954-970 | cleaned up only while closing |
| `LinkState.LinkStateWrapper.ProcessTerminateLink` | adapter/ph/src/link_state.rs:977-992 | closing and cleaned up |
| `LinkState.LinkStateWrapper.ProcessKeepAliveResponse` | adapter/ph/src/link_state.rs:994-1024 | a new timer only when an echo was outstanding |
| `LinkState.LinkStateWrapper.ProcessTimeout` | adapter/ph/src/link_state.rs:601-679 | ignored unless current; otherwise by state; what each branch must bring about is in LinkProgress |
| `LinkState.StartKeepsInv` | adapter/ph/src/link_state.rs:436-485 | starting keeps the invariant |
| `LinkState.KeyingDoneKeepsInv` | adapter/ph/src/link_state.rs:490-573 | so does the end of keying |
| `LinkState.HelloRequestKeepsInv` | adapter/ph/src/link_state.rs:274-314 | and a hello request |
| `LinkState.HelloResponseKeepsInv` | adapter/ph/src/link_state.rs:316-360 | and a hello response |
| `LinkState.CloseKeepsInv` | adapter/ph/src/link_state.rs:687-801 | and closing |
| `LinkState.TeardownKeepsInv` | adapter/ph/src/link_state.rs:806-992 | and the ends of a link |
| `LinkState.TimeoutKeepsInv` | adapter/ph/src/link_state.rs:601-679 | and a timer |
| `LinkState.NextKeepsInv` | adapter/ph/src/link_state.rs:387-434 | and any event |
| `LinkState.EveryRun` | adapter/ph/src/link_state.rs:158-914 | on every run: ready exactly when up and active, active only through keying with an association and hello, with an address or as bootstrap, at most one current timer before the clock wraps |
| `LinkState.ChangesAdvanceClock` | adapter/ph/src/link_state.rs:158-214 | every event that changes anything a timer looks at advances the clock |
| `LinkState.RunNeverTurnsClockBack` | adapter/ph/src/link_state.rs:158-214 | no run turns it back |
| `LinkState.StaleTimerIsInert` | adapter/ph/src/link_state.rs:601-610 | a timer from before a change does nothing whenever it fires, before the clock wraps |
| `AaaConservation.LinkAddressStep` | adapter/ph/src/link_state.rs:274-992 | every event of a node link keeps, takes or gives back its address, and in which states it may hold one |
| `AaaConservation.OnLinkKeepsInv` | adapter/ph/src/link_state.rs:274-876 | a link event keeps the node's addresses conserved |
| `AaaConservation.CloseDoneKeepsInv` | adapter/ph/src/link_state.rs:881-914 | so does a finished close |
| `AaaConservation.CloseDoneConservesIff` | adapter/ph/src/link_state.rs:881-914 | delivering a finished close conserves addresses unless, and only unless, the link is closing or resetting and holds one |
| `AaaConservation.EveryRunConserves` | adapter/ph/src/link_state.rs:274-914 | on every run the active ids are exactly those of addresses links hold, no two links share one, and each address is its id's |
| `AaaConservation.ReusedIdLeaks` | adapter/ph/src/link_state.rs:881-914 | a close finished for an earlier link of the same id leaks the address |
| `AaaConservation.ReuseReachesLeak` | adapter/ph/src/link_state.rs:881-992 | such a run exists from an empty node |
| `ActorAuth.ActorAuthorization.constructor` | adapter/ph/src/actor_auth.rs:70-87 | a new actor waits for its link |
| `ActorAuth.ActorAuthorization.StartRemote` | adapter/ph/src/actor_auth.rs:390-417 | one authentication at a time, with a new generation |
| `ActorAuth.ActorAuthorization.AbandonRemote` | adapter/ph/src/actor_auth.rs:419-429 | only the transaction that awaits evidence |
| `ActorAuth.ActorAuthorization.AcquireRemote` | adapter/ph/src/actor_auth.rs:438-549 | claims the transaction once, and the generation its call runs under |
| `ActorAuth.ActorAuthorization.FinishRemote` | adapter/ph/src/actor_auth.rs:610-636 | only the current generation and transaction |
| `ActorAuth.ActorAuthorization.AuthorizationResult` | adapter/ph/src/actor_auth.rs:551-595 | a current, usable grant is owned, an unusable one disconnected and reported, any other disconnected |
| `ActorAuth.ActorAuthorization.LinkDown` | adapter/ph/src/actor_auth.rs:638-673 | everything forgotten, and the addresses disconnects are issued for |
| `ActorAuth.LinkDownKeepsInv` | adapter/ph/src/actor_auth.rs:638-673 | what link loss issues disconnects for is what the link owned |
| `ActorAuth.CompletedBalances` | adapter/ph/src/actor_auth.rs:551-595 | a completion owns the registration it brings or issues a disconnect for it, never both or neither |
| `ActorAuth.ResumeConserves` | adapter/ph/src/actor_auth.rs:551-595 | so a resumed call, late or not, keeps registrations conserved |
| `ActorAuth.AcquireKeepsInv` | adapter/ph/src/actor_auth.rs:438-549 | acquiring keeps the invariant |
| `ActorAuth.NextKeepsInv` | adapter/ph/src/actor_auth.rs:390-673 | so does every step |
| `ActorAuth.EveryRunConserves` | adapter/ph/src/actor_auth.rs:537-673 | on every interleaving the addresses of granted authorizations are, as a multiset, those disconnects were issued for and the one the link owns; transaction, challenge and address are held in exactly the states that need them |
| `ActorAuth.StaleCompletionIsInert` | adapter/ph/src/actor_auth.rs:551-636 | a completion of another generation or transaction changes nothing, and a grant it brings is disconnected |
| `ActorAuth.CallKeepsGeneration` | adapter/ph/src/actor_auth.rs:551-673 | a call keeps its generation while the actor's only moves on |
| `ActorAuth.LateCompletionAfterLinkDown` | adapter/ph/src/actor_auth.rs:551-673 | after link loss any completion of an earlier call leaves the actor alone and issues the disconnect of its grant, whatever happened since |
| `ActorClient.BackoffDoubles` | adapter/ph/src/actor_auth.rs:676-683 | whatever the jitter, the backoff doubles from one second to thirty, and each sleep lies between it and the ceiling |
| `ActorClient.AdapterAuthorization.constructor` | adapter/ph/src/actor_auth.rs:70-87 | a new adapter actor |
| `ActorClient.AdapterAuthorization.NotifyReady` | adapter/ph/src/actor_auth.rs:112-139 | one worker at a time, and none after a rejection |
| `ActorClient.AdapterAuthorization.PrepareReply` | adapter/ph/src/actor_auth.rs:141-148 | a new channel for the state entered |
| `ActorClient.AdapterAuthorization.DeliverReply` | adapter/ph/src/actor_auth.rs:375-388 | only to the state and transaction awaited, and at most once |
| `ActorClient.AdapterAuthorization.DeliverGrant` | adapter/ph/src/actor_auth.rs:357-373 | a malformed grant does not consume the channel |
| `ActorClient.AdapterAuthorization.RunFromTop` | adapter/ph/src/actor_auth.rs:150-165 | a transaction, a channel and a request, or the end |
| `ActorClient.AdapterAuthorization.RunFromOffer` | adapter/ph/src/actor_auth.rs:165-177 | prove, retry, or the end |
| `ActorClient.AdapterAuthorization.RunFromEvidence` | adapter/ph/src/actor_auth.rs:178-236 | acquire, or abandon with the rejection latched |
| `ActorClient.AdapterAuthorization.RunFromGrant` | adapter/ph/src/actor_auth.rs:201-222 | install, retry, or the end, and when the link is told of an error |
| `ActorClient.AdapterAuthorization.InstallAddress` | adapter/ph/src/actor_auth.rs:313-347 | authorized with one address, remembered as ours only if we put it on the device; an error on the link exactly if that fails |
| `ActorClient.AdapterAuthorization.RunFromAbandonment` | adapter/ph/src/actor_auth.rs:224-243 | retry or reject, once acknowledged |
| `ActorClient.AdapterAuthorization.Conclude` | adapter/ph/src/actor_auth.rs:253-275 | transaction and channel given up; rejected for good, or back off |
| `ActorClient.AdapterAuthorization.LinkDown` | adapter/ph/src/actor_auth.rs:638-673 | worker, channel, transaction and addresses forgotten; our address taken off the device |
| `DockSession.LinkAnnounced` | adapter/ph/src/link_state.rs:274-992 | every event that leaves Active takes the actor down, and exactly those that enter it announce the link |
| `ActorClient.ClientStepKeepsInv` | adapter/ph/src/actor_auth.rs:150-388 | every step of the worker and every reply keep the invariant; after a rejection none requests anything |
| `DockSession.EveryRun` | adapter/ph/src/actor_auth.rs:112-388 | on every interleaving of link events, replies and worker steps: a reply reaches the wait it answers, so the mismatch branches are dead; addresses on the device are accounted for; no worker or address outlives its session |
| `DockSession.FailedInstallEndsSession` | adapter/ph/src/actor_auth.rs:326-340 | a grant that cannot be installed closes the link and leaves no worker and no address |
| `DockSession.RejectionIsFinal` | adapter/ph/src/actor_auth.rs:224-266 | after a rejection, on every run, nothing more is requested and no address is held |
| `NodeSession.LinkTakesDown` | adapter/ph/src/link_state.rs:274-992 | every event that takes a node link out of Active takes its actor down, and none drops an active link |
| `NodeSession.IdleStays` | adapter/ph/src/actor_auth.rs:390-673 | without a ready link no request, answer or completion makes an idle actor hold anything |
| `NodeSession.EveryRun` | adapter/ph/src/link_state.rs:767-914 | on every interleaving of link events, requests and visa-service calls: off an active link the actor holds no transaction and no address, and the registrations acted upon are exactly those disconnected |
| `NodeSession.LateGrantIsDisconnected` | adapter/ph/src/actor_auth.rs:551-595 | a call that resumes off an active link leaves the actor alone and disconnects what it brings, whatever its generation |
| `NodeSession.DroppedOwnsNothing` | adapter/ph/src/link_state.rs:881-914 | after the peer is dropped, on every run of the calls still under way, nothing is owned again and everything acted upon was disconnected |
| `Acceptance.PseudoHeaderSum` | adapter/ph/src/classifier.rs:463-471 | the pseudo header adds up to both addresses, the protocol and the length |
| `Acceptance.L4ChecksumIsASum` | adapter/ph/src/classifier.rs:463-471 | a transport checksum verifies exactly when pseudo header and payload add up to a nonzero multiple of 65535 |
| `Acceptance.TransportAccepted` | adapter/ph/src/classifier.rs:355-461 | for TCP, UDP, ICMP, ICMPv6 and every protocol not looked into: accepted exactly if the declared lengths and the sums fit (no UDP checksum if its field is zero), with the ports, or the ICMP type and code, at their places |
| `Acceptance.TransportRefused` | adapter/ph/src/classifier.rs:355-455 | a transport is refused for its checksum exactly when lengths allow the sum and it does not fit, and otherwise only for a length |
| `Acceptance.ChainIsSkipped` | adapter/ph/src/classifier.rs:265-329 | behind any number of extension headers a payload is classified as it is on its own |
| `Acceptance.ComesApart` | adapter/ph/src/classifier.rs:265-329 | every accepted payload comes apart into extension headers of the lengths they declare and what follows |
| `Acceptance.PayloadAcceptedIff` | adapter/ph/src/classifier.rs:265-461 | a payload is accepted whole if and only if it is a chain of extension headers with a fitting transport behind it, which alone decides protocol, ports and answer |
| `Acceptance.FragmentAccepted` | adapter/ph/src/classifier.rs:331-353 | a fragment header is the first or a later fragment by its offset, exactly if there is room behind it |
| `Acceptance.AcceptedIff` | adapter/ph/src/classifier.rs:139-288 | a packet is accepted whole if and only if its IP header passes, it is no fragment, and its payload is such a chain |
| `Acceptance.HeaderRefused` | adapter/ph/src/classifier.rs:139-263 | exactly which packets are refused for the IPv4 header checksum, as IPv4-mapped, as jumbograms, and which are not IP |
| `Acceptance.Ipv4Fragments` | adapter/ph/src/classifier.rs:188-217 | an IPv4 packet with a fragment offset is a later fragment; one with the flag and no offset is a first fragment whatever the verdict on its payload |
| `Acceptance.V4AddressIsMapped` | adapter/ph/src/classifier.rs:157-217 | an IPv4 address is kept behind ten zero and two all-one bytes, and read back |
| `PacketSecurity.NullAcceptsSums` | adapter/ph/src/fastpath.rs:847-861 | null protection lets through exactly the packets whose words behind the ZPI add up to a nonzero multiple of 65535 |
| `PacketSecurity.HmacAcceptsExactly` | adapter/ph/src/fastpath.rs:864-881 | the link MAC lets through exactly a body followed by its MAC, and calls exactly the shorter ones malformed |
| `LinkSecurity.EgressExactly` | adapter/ph/src/fastpath.rs:1033-1112 | what goes out: key management and unkeyed traffic under ZPI 0 with a verifying trailer, transit packets with the MAC of all of it, everything else as the codec sealed it |
| `LinkSecurity.IngressUnderMac` | adapter/ph/src/fastpath.rs:951-1031 | under the MAC's ZPI exactly a readable message followed by the MAC of ZPI and message is accepted |
| `LinkSecurity.IngressUnderCipher` | adapter/ph/src/fastpath.rs:951-1031 | under the cipher's ZPI exactly a readable message that the codec opens is |
| `LinkSecurity.IngressOtherwise` | adapter/ph/src/fastpath.rs:951-1031 | under an association no other ZPI is accepted; without one exactly null-protected messages are |
| `A2aPath.OnWireExactly` | adapter/ph/src/fastpath.rs:1033-1112 | a transit packet on the wire is ZPI, base header, stream, message and the MAC of all of that |
| `A2aPath.OffWireExactly` | adapter/ph/src/fastpath.rs:140-224 | a hop takes off the wire exactly such a packet, and gives the message on |
| `A2aPath.ReceivedQueuesExactly` | adapter/ph/src/fastpath.rs:553-613 | the receiving adapter queues exactly the expansion of a packet that carries the expansion's own MAC |
| `A2aPath.ReceivedDropsExactly` | adapter/ph/src/fastpath.rs:553-613 | exactly when a packet is dropped as malformed, for an unknown stream, and as not ours |
| `Compress.L4CompressedFields` | adapter/ph/src/compress.rs:155-263 | what compression keeps of TCP and UDP: the ports not in the five-tuple and everything but the checksum or length |
| `Compress.Ipv6CompressedFields` | adapter/ph/src/compress.rs:107-129 | what it keeps of an IPv6 header: version, class, flow label and hop limit |
| `Compress.ShortestPacket` | adapter/ph/src/compress.rs:107-129 | how short a packet compression takes |
| `Compress.ShortestCompressed` | adapter/ph/src/compress.rs:131-286 | how short a compressed IPv6 packet expansion takes |
| `LinkProgress.EveryWaitHasATimer` | adapter/ph/src/link_state.rs:158-214 | on every run, a link that waits for its peer (an adapter's hello, an active link, a close not yet cleaned up) has a pending timer at its current clock value, and only one until the clock wraps |
| `LinkProgress.SilentCloseIsCleanedUp` | adapter/ph/src/link_state.rs:601-679 | when the timer of a closing link fires: exactly its address is released, the actor is told and the close is scheduled |
| `LinkProgress.SilentHelloCloses` | adapter/ph/src/link_state.rs:601-679 | when an adapter's hello goes unanswered the link closes |
| `LinkProgress.SilentPeerIsAskedOnce` | adapter/ph/src/link_state.rs:601-679 | an active link first asks its peer, and waits again |
| `LinkProgress.UnansweredCloses` | adapter/ph/src/link_state.rs:601-679 | a question that goes unanswered closes the link |
| `LinkProgress.AnsweredStaysActive` | adapter/ph/src/link_state.rs:601-679 | over any number of answered questions the link stays active with its address and a current timer |
| `LinkProgress.AdapterComesUp` | adapter/ph/src/link_state.rs:316-360 | start, keying and the node's hello make an adapter's link active with the assigned address, and tell the actor |
| `LinkProgress.NodeComesUp` | adapter/ph/src/link_state.rs:274-314 | start, keying and a hello make a node's link active with the pool's address |
| `LinkProgress.VsComesUp` | adapter/ph/src/link_state.rs:274-360 | the visa service's own link comes up without an address, on either side |
| `LinkProgress.NoAddressCloses` | adapter/ph/src/link_state.rs:274-360 | a hello that gets no address closes the link |
| `LinkProgress.CloseRunsToItsEnd` | adapter/ph/src/link_state.rs:687-914 | a close, acknowledged or timed out, releases the link's address once and ends in the peer being dropped or the link restarting, exactly by kind and shutdown |
| `LinkProgress.PeerEndsLink` | adapter/ph/src/link_state.rs:931-992 | the peer's terminate message and a reset clean up at once, from any state |
| `LinkProgress.VsLinkDisconnectsFirst` | adapter/ph/src/link_state.rs:687-763 | the visa service's link disconnects first and then closes |
| `LinkProgress.ShutdownLatch` | adapter/ph/src/link_state.rs:687-750 | a link is shutting down exactly once it was told to, and keeps its kind |
| `LinkProgress.RefusedIff` | adapter/ph/src/link_state.rs:274-1024 | exactly which events a link refuses in which state and with which error, and that a refused one has no effect |
| `AaaConservation.ClosingFreesId` | adapter/ph/src/link_state.rs:767-914 | in a node with any other links: closing one, its timer firing and the finished close delivered drops the link and frees exactly its id |
| `ActorAuth.TakenIff` | adapter/ph/src/actor_auth.rs:390-549 | exactly which start, abandon and acquire requests are taken |
| `ActorAuth.RefusedLeavesActor` | adapter/ph/src/actor_auth.rs:390-549 | one that is not taken leaves the actor as it is |
| `ActorAuth.AbandonUndoesStart` | adapter/ph/src/actor_auth.rs:390-429 | abandoning undoes starting, but for the generation |
| `ActorAuth.CurrentCompletion` | adapter/ph/src/actor_auth.rs:551-595 | a current completion authorizes the actor if and only if it brings a usable grant, with that address and no disconnect; an unusable one is disconnected and reported, a refusal ends the transaction |
| `ActorAuth.OpenTransactionStays` | adapter/ph/src/actor_auth.rs:390-595 | over every run of other transactions' requests, answers and completions, an open transaction is left alone |
| `ActorAuth.GrantAuthorizes` | adapter/ph/src/actor_auth.rs:390-595 | start, acquire, a usable grant and its completion, with any other steps in between, leave the actor authorized with exactly that address and issue no disconnect |
| `ActorAuth.FailureStartsOver` | adapter/ph/src/actor_auth.rs:438-549 | bad evidence and a reported failure end the transaction and change nothing else |
| `ActorAuth.FailedAnswer` | adapter/ph/src/actor_auth.rs:551-608 | a refusal ends the transaction; an unusable grant is disconnected once and leaves a failure to report |
| `ActorClient.ReadyStarts` | adapter/ph/src/actor_auth.rs:112-139 | a ready link starts a worker exactly if none runs and the actor was not rejected |
| `ActorClient.DeliveredOnce` | adapter/ph/src/actor_auth.rs:349-388 | a reply is delivered exactly if it is for the open transaction and awaited, and only once |
| `ActorClient.StatusDecides` | adapter/ph/src/actor_auth.rs:150-276 | success goes on, rejection is final, anything else sleeps |
| `ActorClient.EvidenceDecides` | adapter/ph/src/actor_auth.rs:150-311 | evidence is sent on, a denial abandons and latches the rejection, a lack of it abandons and sleeps |
| `ActorClient.SleepsBackOff` | adapter/ph/src/actor_auth.rs:676-683 | every step into sleep is one retry further in the backoff, which doubles up to its cap, and no other step changes it |
| `ActorClient.SleepOpensAnother` | adapter/ph/src/actor_auth.rs:150-276 | after its sleep the worker opens another transaction with a channel of its own |
| `ActorClient.LostPeerEndsWorker` | adapter/ph/src/actor_auth.rs:150-276 | a worker whose peer is gone or whose message cannot be sent ends there |
| `ActorClient.AttemptAuthorizes` | adapter/ph/src/actor_auth.rs:150-347 | an attempt whose replies are successes ends authorized with the granted address on the device |
| `ActorClient.DownTakesOff` | adapter/ph/src/actor_auth.rs:638-673 | link loss takes exactly the installed address off the device |
| `DockSession.BringUpStartsWorker` | adapter/ph/src/link_state.rs:316-360 | bringing the adapter's link up starts the worker on a first attempt with the shortest delay |
| `DockSession.RejectedStaysIdle` | adapter/ph/src/actor_auth.rs:112-139 | after a rejection the link still comes up, and nothing is started on it |
| `NodeSession.CloseDropsPeer` | adapter/ph/src/link_state.rs:881-914 | a finished close drops the peer, and nothing happens on its link afterwards |
| `NodeSession.LostLinkTakesActorDown` | adapter/ph/src/link_state.rs:767-801 | closing a link disconnects exactly the actor's address and forgets its transaction |
| `LookupTable.RequestThenActivate` | adapter/ph/src/adapter_tables.rs:128-177 | inserting and activating hands the packet back and leaves exactly that flow active |
| `LookupTable.RequestThenDelete` | adapter/ph/src/adapter_tables.rs:128-204 | inserting and removing hands the packet back and leaves the table as it was |
| `LookupTable.DeleteActive` | adapter/ph/src/adapter_tables.rs:191-204 | removing an active flow takes that one out |
| `LookupTable.TableRefuses` | adapter/ph/src/adapter_tables.rs:128-204 | exactly what inserting, activating and removing refuse, leaving the table unchanged |
| `LookupTable.HandlesCount` | adapter/ph/src/mgmt/txn_mgr.rs:216-235 | cloning and dropping a handle count for that transaction only, and the last one frees it |
| `LookupTable.OpensNext` | adapter/ph/src/mgmt/txn_mgr.rs:98-120 | ids are given out in turn, and one still open is waited for |
| `LookupTable.AnswerSettlesFlow` | adapter/ph/src/mgmt/adapter.rs:120-215 | a grant makes the flow of its transaction active, a denial or a mismatch makes it vacant; the packet is handed back |
| `LookupTable.RequestPends` | adapter/ph/src/adapter_manager_worker.rs:55-83 | a request is pending under the transaction it opened |
| `LookupTable.TetherLifecycle` | adapter/ph/src/adapter_manager_worker.rs:26-112 | requested, granted and its task over, a tether leaves an active flow, its packet handed back and every transaction with the handles it had |
| `LookupTable.OtherLifecycle` | adapter/ph/src/mgmt/txn_mgr.rs:98-235 | another task's transaction is the next in turn, and free again once it is over |
| `AddressPool.EncodeCountsUp` | adapter/ph/src/address_pool.rs:64-85 | a pool's addresses are its network's, counted up by the id |
| `BatchIo.EntryReports` | adapter/ph/src/batch_io.rs:640-664 | an entry is a failure exactly for a negative result, and carries the errno the kernel negated |
| `KmNoise.CertJudged` | adapter/ph/src/km_cert_exchange.rs:120-187 | exactly when a certificate is an error, absent, verified or unverified |
| `KmNoise.MessageErrors` | adapter/ph/src/km_noise.rs:494-621 | exactly which messages fail for the state and which for an unverified certificate; any failure while configuring ends in the error state |
| `KmNoise.TickIff` | adapter/ph/src/km_noise.rs:623-637 | a tick fails exactly a handshake whose last message was sent longer ago than the timeout |
| `KmNoise.HandshakeTimesOut` | adapter/ph/src/km_noise.rs:429-637 | an initiator that hears nothing fails at the first tick past the timeout, and not before |
| `KmNoise.AnswerTimesOut` | adapter/ph/src/km_noise.rs:494-637 | so does a responder that answered |
| `KmNoise.FreshKey` | adapter/ph/src/km_noise.rs:429-492 | from a reset to the next, over any messages and ticks, the machine and an association it establishes receive under the key made for that attempt |
| `KmNoise.ResetAnswers` | adapter/ph/src/km_noise.rs:429-492 | what a reset answers for each role and each failure, and when the timeout starts |

## Left out

- FastpathWorker.Worker.SubstrateIngress: whether the buffer is freed, queued or lent is left open.
- FastpathWorker.Worker.ActorOutput: the same; what happens to the bytes is in A2aPath.
- FastpathWorker.Worker.ActorOutputPostClassify: the same; what happens to the bytes is in A2aPath.
- FastpathWorker.Worker.Forward: which of the branches is taken is left open, so its contract is about the buffer only; what the branches do to the bytes is in A2aPath and LinkSecurity.
- FastpathWorker.Worker.ActorInput: whether the packet is dropped or queued is left open; A2aPath.ActorInput says which.
- FastpathWorker.Worker.SubstrateEgress: whether the packet is dropped or queued is left open.
- PacketSecurity.EncryptFull: the codec's own error values are one value, since the caller drops the packet on any of them.
- A2aPath.PostClassify: the A2A header is one zero byte; the type of its only field, `A2aSaid`, is defined outside this repository.
- ActorClient.AdapterAuthorization.NotifyReady: the generation counter, which the adapter side never reads, and the failure text are not kept.
- ActorClient.AdapterAuthorization.LinkDown: clearing the two lookup tables is not part of it; what that does is LookupTable's ClearTable step.
- LinkState.LinkStateWrapper.ProcessKeyingDone: the names of special peers are not assigned.
- LinkState.LinkStateWrapper.ProcessHelloRequest: the visa-service link's deferred connection to the service is not modelled, nor are internal links.
- LinkState.LinkStateWrapper.ProcessHelloResponse: whether the AAA address was put on the TUN device is not kept.
- LinkState.LinkStateWrapper.DoCleanUp: taking the AAA address off the TUN device and dropping its carrier are not effects of the model.
- The externally sent AAA assignment event and replacing the pool at run time: the pool is fixed and addresses are assigned by the hello handler.
- The visa service's own link in actor authorization, whose registrations are not disconnected.
- Cryptography (the Noise library, BLAKE3, X.509), the authentication service and its HTTP exchange.
- Sockets, control messages, polling, building io_uring submissions and the socket-call engine of `batch_io.rs`: foreign calls.
- The key-manager run loop and multiplexor: channels around the machine modelled here.
- Packet metadata serialization, packet capture, counters, logging, the admin interface, the command line and configuration.
- The dock lookup table, forwarding tables, peer table and visa table: lookups in them are inputs.
- Code enabled only for security testing.
