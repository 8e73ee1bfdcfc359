# ENet binding for the growtopia server, in Dafny

This project models the Java binding to the ENet reliable-UDP library that the
growtopia server uses (`Enet.java`), and the server's start-up sequence
(`EnetServer.start`). It proves properties of that model.

- **Wrappers**: `Option` and `Result`.
- **Memory**: native memory is a sequence of octets. Scalars are loaded and
  stored little-endian, and signed carriers use two's complement. This is
  what `MemoryAccess` and the var handles do on the binding's targets. The
  module also defines the Java `short`/`int`/`long` ranges and the `(int)`
  narrowing of a `long`.
- **Layout**: the `MemoryLayout` algebra the binding declares its records
  with:
  - values of a C carrier, padding, structs, unions and sequences;
  - names and `groupElement`/`sequenceElement` paths;
  - `byteSize` and `byteOffset`, which fail when a size or offset is not a
    whole number of bytes.

  Sizes depend on an ABI (the width of a pointer and of a C `long`), so the
  same layout can be measured on LP64, LLP64 and ILP32 targets.
- **Records**: the four record layouts, member for member:
  - `Address.LAYOUT`;
  - `Host.LAYOUT`, with the `_ENetProtocol` command union, the send buffers
    and the packet data;
  - `Event.LAYOUT` and `Packet.LAYOUT`.

  The module also has the offsets and sizes the binding relies on.
- **Hosts**:
  - `Address.asStruct`;
  - `Host.create`, including its NULL check;
  - `Host.address()`, reading the host's own copy of its address;
  - the checksum slot that `setChecksumCallbackToCRC32` writes.
- **Events**:
  - `Event.fromUnsafe`, which decodes the type tag;
  - `Receive.dataAsString` up to the byte array it builds. The copy loop is
    proved against the specification function `Payload`.
- **Service**: `Host.listenForEvents` runs over a finite script of
  `enet_host_service` results. The handler is represented by the callbacks it
  receives. The method is proved against the specification function `Run`.
- **Packets**:
  - `Packet` and `EnumSet<Flag>` as classes, so that the constructor's
    aliasing and the accessors' copies are visible;
  - `Flag.bit()`;
  - the flag word `Peer.send` folds, both as written and as evidently
    intended.
- **Server**: `EnetServer.start` as a trace of native calls. The native side
  says which calls throw and which address `enet_host_create` answers for
  start's one call. The method is proved against the specification
  function `Started`, and the lifecycle guarantees are lemmas about
  `Started`.

Layout facts are stated as follows:
- Record sizes and the offsets of `Address`, of the `_ENetProtocol` union and
  of the host's address member are proved for every ABI.
- The `Event`, `Packet` and host checksum and size facts are proved for LP64
  (8-byte pointers and longs), the target the binding's byte offsets are
  read for.
- The operations use the LP64 offsets.

Behaviour of the code worth noting:
- The `Packet` constructor keeps the caller's byte array and flag set by
  reference instead of copying them in. Only the accessors copy.
- The status `enet_initialize` returns is discarded.
- `enet_initialize` is called before the `try`. When it throws, nothing is
  deinitialised.
- `fromUnsafe` never reads the packet pointer. A NULL packet pointer is only
  met by `dataAsString`, which reads through it, and the model reports a
  `Fault` there.
- `dataAsString` throws on an empty packet. `asSegmentRestricted` refuses a
  size of 0, and the segment is made before the byte array.

## Model

All Enet.java paths below are `src/main/java/growtopia/enet/Enet.java`; the server is `src/growtopia/enet/EnetServer.java`.

| member | source | states |
|---|---|---|
| Layout.IndexFrom | src/main/java/growtopia/enet/Enet.java:110-118 | a `groupElement` step finds the first member with that name, and none when no member has it |
| Layout.WithName | src/main/java/growtopia/enet/Enet.java:137 | `withName` gives every non-padding layout the new name and keeps its size on every ABI |
| Layout.WithNameKeepsPaths | src/main/java/growtopia/enet/Enet.java:137 | the renamed layout has every path at the same offset, selecting the same member, as the original |
| Layout.ByteSize | src/main/java/growtopia/enet/Enet.java:353-366 | `byteSize()` is the bit size in whole bytes, and is refused when the bit size is not a multiple of 8 |
| Layout.ByteOffset | src/main/java/growtopia/enet/Enet.java:355-366 | `byteOffset(path)` is the bit offset of the path in whole bytes, refused when the path does not resolve or does not fall on a byte |
| Layout.OffsetIffSelect | src/main/java/growtopia/enet/Enet.java:110-118 | `BitOffset`, the bit offset of a path, is defined exactly when the path selects a member |
| Layout.StructMembersDisjoint | src/main/java/growtopia/enet/Enet.java:135-325 | a struct member declared earlier ends before any later member begins (no implicit padding, no overlap) |
| Layout.StructMemberFits | src/main/java/growtopia/enet/Enet.java:135-325 | every struct member lies inside the struct |
| Layout.UnionArmFits | src/main/java/growtopia/enet/Enet.java:162-285 | every arm of a union fits inside it |
| Layout.UnionSizeIsAnArm | src/main/java/growtopia/enet/Enet.java:162-285 | a non-empty union is exactly as large as one of its arms |
| Layout.UnionLargestArm | src/main/java/growtopia/enet/Enet.java:162-285 | a union's size is that of its largest arm |
| Layout.OffsetWithin | src/main/java/growtopia/enet/Enet.java:352-368 | whatever a resolving path selects lies inside the layout, so a read at its offset stays in the record |
| Layout.OffsetCompose | src/main/java/growtopia/enet/Enet.java:357-366 | the offset of `address.host` is the offset of `address` plus that of `host` inside it |
| Layout.MemberOffset | src/main/java/growtopia/enet/Enet.java:135-325 | a struct member's `BitOffset` is the sum of the `BitSize`s of the members declared before it |
| Records.AddressLayoutFacts | src/main/java/growtopia/enet/Enet.java:104-108 | Address: `host` at byte 0, `port` at byte 4, 8 bytes in all, on every ABI |
| Records.ProtocolBits | src/main/java/growtopia/enet/Enet.java:162-285 | `_ENetProtocol` is as large as its `connect` arm, 48 bytes, on every ABI |
| Records.CommandsBits | src/main/java/growtopia/enet/Enet.java:160-286 | the host's 32 commands take 32 × 48 = 1536 bytes |
| Records.HostAddressFacts | src/main/java/growtopia/enet/Enet.java:135-137 | the host's `address.host` is at byte 4 and `address.port` at byte 8, on every ABI |
| Records.HostChecksumFacts | src/main/java/growtopia/enet/Enet.java:297 | on LP64 the host's `checksum` member is at byte 2704 |
| Records.HostSizeFacts | src/main/java/growtopia/enet/Enet.java:135-325 | on LP64 `_ENetHost` takes 11024 bytes |
| Records.EventTypeFacts | src/main/java/growtopia/enet/Enet.java:433-441 | Event `type` at byte 0 (LP64) |
| Records.EventPeerFacts | src/main/java/growtopia/enet/Enet.java:433-441 | Event `peer` at byte 8 (LP64) |
| Records.EventChannelIDFacts | src/main/java/growtopia/enet/Enet.java:433-441 | Event `channelID` at byte 16 (LP64) |
| Records.EventDataFacts | src/main/java/growtopia/enet/Enet.java:433-441 | Event `data` at byte 20 (LP64) |
| Records.EventPacketFacts | src/main/java/growtopia/enet/Enet.java:433-441 | Event `packet` at byte 24 (LP64) |
| Records.EventSizeFacts | src/main/java/growtopia/enet/Enet.java:433-441 | `_ENetEvent` takes 32 bytes (LP64) |
| Records.PacketReferenceCountFacts | src/main/java/growtopia/enet/Enet.java:534-542 | Packet `referenceCount` at byte 0 (LP64) |
| Records.PacketFlagsFacts | src/main/java/growtopia/enet/Enet.java:534-542 | Packet `flags` at byte 8 (LP64) |
| Records.PacketDataFacts | src/main/java/growtopia/enet/Enet.java:534-542 | Packet `data` at byte 16 (LP64) |
| Records.PacketDataLengthFacts | src/main/java/growtopia/enet/Enet.java:534-542 | Packet `dataLength` at byte 24 (LP64) |
| Records.PacketFreeCallbackFacts | src/main/java/growtopia/enet/Enet.java:534-542 | Packet `freeCallback` at byte 32 (LP64) |
| Records.PacketUserDataFacts | src/main/java/growtopia/enet/Enet.java:534-542 | Packet `userData` at byte 40 (LP64) |
| Records.PacketSizeFacts | src/main/java/growtopia/enet/Enet.java:534-542 | `_ENetPacket` takes 48 bytes (LP64) |
| Hosts.AddressRoundTrip | src/main/java/growtopia/enet/Enet.java:120-125 | reading back the segment `asStruct` fills gives the same host and port |
| Hosts.AddressImageInjective | src/main/java/growtopia/enet/Enet.java:120-125 | distinct addresses produce distinct segments |
| Hosts.AsStruct | src/main/java/growtopia/enet/Enet.java:120-125 | a fresh zero-filled 8-byte segment, with `host` and `port` written at their offsets |
| Hosts.Create | src/main/java/growtopia/enet/Enet.java:332-350 | passes the address segment and the four limits; a NULL answer is an error, anything else is the host |
| Hosts.HostAddress | src/main/java/growtopia/enet/Enet.java:352-368 | `address()` reads the host number at the host's `address.host` offset and the port at its `address.port` offset |
| Hosts.HostAddressAfterCreate | src/main/java/growtopia/enet/Enet.java:352-368 | once the host holds the address it was created with, `address()` returns that address |
| Hosts.WithChecksumEffect | src/main/java/growtopia/enet/Enet.java:371-380 | after the checksum write the slot holds the callback's address, and `address()` is unchanged |
| Hosts.SetChecksumCallbackToCRC32 | src/main/java/growtopia/enet/Enet.java:371-380 | stores the callback's raw address as a long in the host's checksum slot |
| Events.Tag | src/main/java/growtopia/enet/Enet.java:455-460 | every event subclass stands for a tag from 0 to 3 |
| Events.FromTag | src/main/java/growtopia/enet/Enet.java:455-460 | tags 0–3 decode to None/Connect/Disconnect/Receive; any other tag is an error carrying the value |
| Events.TagRoundTrip | src/main/java/growtopia/enet/Enet.java:455-460 | decoding an event's tag gives back the event |
| Events.FromUnsafe | src/main/java/growtopia/enet/Enet.java:453-461 | the int at the `type` member's offset decides the event: an event exactly when it is 0 to 3, and then the event with that tag; any other value is an error carrying it |
| Events.FromUnsafeReadsType | src/main/java/growtopia/enet/Enet.java:453-461 | a record whose `type` member holds a tag decodes exactly as that tag does |
| Events.Payload | src/main/java/growtopia/enet/Enet.java:492-523 | on success it returns exactly `dataLength` octets read from the packet's `data` pointer, and it always succeeds when the pointers are readable and the length is between 1 and the largest Java int |
| Events.PayloadRefusesLength | src/main/java/growtopia/enet/Enet.java:501-519 | a negative `dataLength`, a `dataLength` of 0 (the zero-size segment) and one beyond the largest Java int are refused |
| Events.DataAsString | src/main/java/growtopia/enet/Enet.java:492-523 | the copy loop returns what `Payload` specifies, failures included |
| Service.Step | src/main/java/growtopia/enet/Enet.java:396-418 | a poll yields a callback exactly when its status is positive and its tag names Connect, Disconnect or Receive; a negative status or an unknown tag is an error |
| Service.Run | src/main/java/growtopia/enet/Enet.java:390-420 | the loop consumes the whole script unless it fails |
| Service.FatalIsFinal | src/main/java/growtopia/enet/Enet.java:400-419 | after an exception no further poll changes anything |
| Service.RunWithoutFailure | src/main/java/growtopia/enet/Enet.java:394-420 | the loop is still polling exactly when no poll fails, and then it has made one callback per delivered event |
| Service.RunFailure | src/main/java/growtopia/enet/Enet.java:400-419 | a failed loop stopped at the first failing poll, for that poll's reason |
| Service.CallbacksMatchTags | src/main/java/growtopia/enet/Enet.java:404-415 | every callback matches the event its record's tag names, and None never reaches the handler |
| Service.Session | src/main/java/growtopia/enet/Enet.java:390-420 | idle, connect, receive, then an error status: the handler hears connect and then receive, and the loop ends with the status |
| Service.ListenForEvents | src/main/java/growtopia/enet/Enet.java:390-420 | the loop over one reused event segment computes `Run` |
| Packets.Bit | src/main/java/growtopia/enet/Enet.java:547-552 | each flag's bit is a single set bit |
| Packets.BitsDistinct | src/main/java/growtopia/enet/Enet.java:547-552 | the two flags' bits do not overlap |
| Packets.FlagSet.Copy | src/main/java/growtopia/enet/Enet.java:571-573 | `EnumSet.copyOf` yields a new set with the same flags |
| Packets.Packet.constructor | src/main/java/growtopia/enet/Enet.java:558-561 | the packet holds the caller's own array and set |
| Packets.Packet.Create | src/main/java/growtopia/enet/Enet.java:563-565 | `create` is the constructor, so it aliases in the same way |
| Packets.Packet.Data | src/main/java/growtopia/enet/Enet.java:567-569 | `data()` returns a new array with the same octets |
| Packets.Packet.Flags | src/main/java/growtopia/enet/Enet.java:571-573 | `flags()` returns a new set with the same flags |
| Packets.InOrder | src/main/java/growtopia/enet/Enet.java:585-587 | a set's stream yields each of its flags once, in declaration order |
| Packets.FoldAndIsZero | src/main/java/growtopia/enet/Enet.java:585-587 | `FoldAnd`, the and-fold starting from 0 as written, is 0 for every flag sequence |
| Packets.ReliableIsDropped | src/main/java/growtopia/enet/Enet.java:585-587 | a packet flagged RELIABLE is folded to 0, losing bit 0x01 |
| Packets.FoldOrBits | src/main/java/growtopia/enet/Enet.java:544-552 | the or-fold sets exactly the bits of the flags folded, and no other |
| Packets.FlagBitsRoundTrip | src/main/java/growtopia/enet/Enet.java:544-552 | decoding the corrected flag word gives back the flag set |
| Packets.Send | src/main/java/growtopia/enet/Enet.java:584-589 | `send` computes flag word 0 and a fresh copy of the data, and passes neither on |
| Server.Try | src/growtopia/enet/EnetServer.java:18-20 | the try block's calls on the created host and the exception it lets escape are those of `TryBlock` |
| Server.TryBlockShape | src/growtopia/enet/EnetServer.java:18-20 | the try block works only on the created host: checksum first, compressor second, listening only third, and it never closes the host |
| Server.Start | src/growtopia/enet/EnetServer.java:9-24 | the calls made and the way out are those of `Started` |
| Server.EscapedAfterCreate | src/growtopia/enet/EnetServer.java:11-23 | an exception after creation runs the try block's calls, then the close, then the deinitialisation, in that order |
| Server.InitializeFirst | src/growtopia/enet/EnetServer.java:10-17 | initialisation comes first and, when it throws, is all that happens; otherwise the host is created next with address 0:17091, 1024 peers, 10 channels and bandwidth 0/0 |
| Server.DeinitializeOnceLast | src/growtopia/enet/EnetServer.java:21-23 | once inside the try, every exception leaves ENet deinitialised exactly once, as the last call |
| Server.NoCloseWithoutHost | src/growtopia/enet/EnetServer.java:11-23 | a failed creation is never closed, but ENet is still deinitialised |
| Server.CloseBeforeDeinitialize | src/growtopia/enet/EnetServer.java:11-23 | a created host is closed exactly once, immediately before deinitialisation |
| Server.ListenAfterSetup | src/growtopia/enet/EnetServer.java:18-20 | listening starts only after the checksum and the compressor are set on the same host |
| Server.RunningKeepsHostOpen | src/growtopia/enet/EnetServer.java:18-20 | start is still running exactly when no step failed; then the host is open, ENet is initialised and the handler has heard what the loop delivered |
| Server.EscapingException | src/growtopia/enet/EnetServer.java:9-24 | a failing deinitialisation replaces the escaping exception; otherwise the first failing step's exception escapes, with a failing close suppressed onto it |

## Left out

- Library loading and the downcall handles (Enet.java lines 24-96) are not
  modelled. Each native call is a parameter or a flag saying whether it
  throws.
- What ENet does inside `enet_host_service`, `enet_host_create`,
  `enet_host_destroy`, `enet_host_compress_with_range_coder`, the CRC32
  checksum and the range coder is not modelled:
  - the host's record is assumed to lie in native memory;
  - `enet_host_create` is assumed to copy the address record it is given.
- The `Cleaner` registration and the freeing of native segments are not
  modelled.
- Events.DataAsString stops at the byte array. The `US_ASCII` String built
  from it is not modelled, because no character decoding is modelled.
- Octets are represented as unsigned values 0..255. The Java `byte` values
  have the same bit patterns.
- `Event.peer()` is not modelled: it always returns `null`.
- `Peer.disconnectLater` and `Peer.close` are not modelled, because their
  bodies are empty.
- The `EventHandler` interface and the demo handler and `Main` are not
  modelled. The handler is represented by the sequence of callbacks it
  receives, and callbacks are assumed not to throw.
- Service.ListenForEvents runs over a finite script. The real loop never
  ends on its own, so an exhausted script is reported as `StillPolling`.
  Threads and the 1000 ms timeout each poll is given are not modelled.
- Server.Start records `Host.create`'s Java arguments in its trace. The
  segment those arguments become is stated by Hosts.Create, not repeated in
  the trace.
- Server.Start does not model the checksum write into native memory.
  Hosts.SetChecksumCallbackToCRC32 models that write.
- The record layouts on LLP64 (4-byte C `long`) and ILP32 can be measured
  with the same functions, but only the Address, command-union and host
  address facts are proved for them.
- Events.Payload reads the event and packet records with LP64 widths and
  offsets.
- Events.Payload treats a read outside native memory or through NULL as a
  `Fault`; the real program would crash.
- Events.Payload does not model the overflow of the sequence layout's bit
  size, which happens for a `dataLength` of 2^60 or more. Lengths over 2^31
  already fail, through the `(int)` narrowing.

## Findings

| source | as written | input that shows it | evidently intended | confidence | as-written member | corrected member |
|---|---|---|---|---|---|---|
| src/main/java/growtopia/enet/Enet.java:585-587 | `Peer.send` folds the flag bits with `&`, starting from 0 | a packet whose flag set is {RELIABLE}: the word is 0, not 0x01 | fold with `\|`, so that the word carries the bit of every flag in the set | not executed; the as-written fold is proved to be 0 for every flag set | Packets.FoldAndIsZero | Packets.FlagBitsRoundTrip |
