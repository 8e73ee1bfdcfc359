/** The native records the binding declares, as layouts: Address.LAYOUT,
    Host.LAYOUT (with the _ENetProtocol command union inside it),
    Event.LAYOUT and Packet.LAYOUT; and the sizes and offsets the binding
    relies on, proved member by member from the declarations. Long member
    lists are written as a function from the member's position to the
    member, in declaration order.

    The sizes are summed a few members at a time: a lemma `XnOf` adds the
    members before position n to the sum the previous lemma of its chain
    established, and `Xn` applies it to the declared member list. The host
    record's 40 members are also listed, named and summed in runs of a few
    members. Each proof obligation then stays small enough for the solver;
    one lemma over a whole record does not. */
module Records {
  import opened Wrappers
  import opened Layout

  function Char(n: string): Layout { Value(CChar, Named(n)) }
  function Short(n: string): Layout { Value(CShort, Named(n)) }
  function Int(n: string): Layout { Value(CInt, Named(n)) }
  function Long(n: string): Layout { Value(CLong, Named(n)) }
  function Pointer(n: string): Layout { Value(CPointer, Named(n)) }

  /** The one-step path groupElement(n). */
  function Group(n: string): seq<PathElement> { [GroupElement(n)] }

  // ---------------------------------------------------------------------
  // Address

  /** Address.LAYOUT: an int host, a short port and 16 bits of padding. */
  const AddressLayout: Layout := Struct([Int("host"), Short("port"), Padding(16)], Anonymous)

  lemma {:induction false} AddressBits(abi: Abi)
    ensures BitSize(AddressLayout, abi) == 64
  {
    var ms := AddressLayout.members;
    StructContiguous(ms, 0, abi);
    StructContiguous(ms, 1, abi);
    StructContiguous(ms, 2, abi);
  }

  /** Byte offsets of the two Address fields, and its size, on every target
      (neither a pointer nor a C long occurs in it). */
  const AddressHostOffset: nat := 0
  const AddressPortOffset: nat := 4
  const AddressBytes: nat := 8

  /** The offsets of host and port inside Address.LAYOUT under any name. */
  lemma {:induction false} AddressOffsetBits(nm: Name, abi: Abi)
    ensures BitOffset(Struct(AddressLayout.members, nm), Group("host"), abi) == Some(0)
    ensures BitOffset(Struct(AddressLayout.members, nm), Group("port"), abi) == Some(32)
  {
    var ms := AddressLayout.members;
    StructContiguous(ms, 0, abi);
    MemberOffset(ms, nm, 0, Group("host"), abi);
    forall j | 0 <= j < 1 ensures NameOf(ms[j]) != Named("port") {
      assert j == 0;
    }
    MemberOffset(ms, nm, 1, Group("port"), abi);
  }

  /** host at byte 0, port at byte 4, 8 bytes in all. */
  lemma AddressLayoutFacts(abi: Abi)
    ensures ByteOffset(AddressLayout, Group("host"), abi) == Some(AddressHostOffset)
    ensures ByteOffset(AddressLayout, Group("port"), abi) == Some(AddressPortOffset)
    ensures ByteSize(AddressLayout, abi) == Some(AddressBytes)
  {
    AddressBits(abi);
    AddressOffsetBits(AddressLayout.name, abi);
  }

  // ---------------------------------------------------------------------
  // The _ENetProtocol command union

  /** The command header every protocol command starts with. */
  const ProtocolHeader: Layout := Struct([Char("command"), Char("channelID"), Short("reliableSequenceNumber")], Named("header"))

  lemma {:induction false} ProtocolHeaderBits(abi: Abi)
    ensures BitSize(ProtocolHeader, abi) == 32
  {
    var ms := ProtocolHeader.members;
    StructContiguous(ms, 0, abi);
    StructContiguous(ms, 1, abi);
    StructContiguous(ms, 2, abi);
  }

  /** The acknowledge arm of the command union. */
  const AcknowledgeArm: Layout := Struct([ProtocolHeader, Short("receivedReliableSequenceNumber"), Short("receivedSentTime")], Named("acknowledge"))

  lemma {:induction false} AcknowledgeArmBits(abi: Abi)
    ensures BitSize(AcknowledgeArm, abi) == 64
  {
    var ms := AcknowledgeArm.members;
    ProtocolHeaderBits(abi);
    StructContiguous(ms, 0, abi);
    StructContiguous(ms, 1, abi);
    StructContiguous(ms, 2, abi);
  }

  /** The connect arm of the command union. */
  const ConnectArm: Layout :=
    Struct([
      ProtocolHeader,
      Short("outgoingPeerID"),
      Char("incomingSessionID"),
      Char("outgoingSessionID"),
      Int("mtu"),
      Int("windowSize"),
      Int("channelCount"),
      Int("incomingBandwidth"),
      Int("outgoingBandwidth"),
      Int("packetThrottleInterval"),
      Int("packetThrottleAcceleration"),
      Int("packetThrottleDeceleration"),
      Int("connectID"),
      Int("data")
    ], Named("connect"))

  /** Members 0 to 2 of ConnectArm, added to the size of the members before them. */
  lemma {:induction false} ConnectArmBits3Of(ms: seq<Layout>, abi: Abi)
    requires |ms| == 14
    requires ms[0] == ProtocolHeader
    requires ms[1] == Short("outgoingPeerID")
    requires ms[2] == Char("incomingSessionID")
    ensures PrefixBits(ms, 3, abi) == 56
  {
    ProtocolHeaderBits(abi);
    StructContiguous(ms, 0, abi);
    StructContiguous(ms, 1, abi);
    StructContiguous(ms, 2, abi);
  }

  lemma {:induction false} ConnectArmBits3(abi: Abi)
    ensures PrefixBits(ConnectArm.members, 3, abi) == 56
  {
    ConnectArmBits3Of(ConnectArm.members, abi);
  }

  /** Members 3 to 5 of ConnectArm, added to the size of the members before them. */
  lemma {:induction false} ConnectArmBits6Of(ms: seq<Layout>, abi: Abi)
    requires |ms| == 14
    requires PrefixBits(ms, 3, abi) == 56
    requires ms[3] == Char("outgoingSessionID")
    requires ms[4] == Int("mtu")
    requires ms[5] == Int("windowSize")
    ensures PrefixBits(ms, 6, abi) == 128
  {
    StructContiguous(ms, 3, abi);
    StructContiguous(ms, 4, abi);
    StructContiguous(ms, 5, abi);
  }

  lemma {:induction false} ConnectArmBits6(abi: Abi)
    ensures PrefixBits(ConnectArm.members, 6, abi) == 128
  {
    ConnectArmBits3(abi);
    ConnectArmBits6Of(ConnectArm.members, abi);
  }

  /** Members 6 to 8 of ConnectArm, added to the size of the members before them. */
  lemma {:induction false} ConnectArmBits9Of(ms: seq<Layout>, abi: Abi)
    requires |ms| == 14
    requires PrefixBits(ms, 6, abi) == 128
    requires ms[6] == Int("channelCount")
    requires ms[7] == Int("incomingBandwidth")
    requires ms[8] == Int("outgoingBandwidth")
    ensures PrefixBits(ms, 9, abi) == 224
  {
    StructContiguous(ms, 6, abi);
    StructContiguous(ms, 7, abi);
    StructContiguous(ms, 8, abi);
  }

  lemma {:induction false} ConnectArmBits9(abi: Abi)
    ensures PrefixBits(ConnectArm.members, 9, abi) == 224
  {
    ConnectArmBits6(abi);
    ConnectArmBits9Of(ConnectArm.members, abi);
  }

  /** Members 9 to 11 of ConnectArm, added to the size of the members before them. */
  lemma {:induction false} ConnectArmBits12Of(ms: seq<Layout>, abi: Abi)
    requires |ms| == 14
    requires PrefixBits(ms, 9, abi) == 224
    requires ms[9] == Int("packetThrottleInterval")
    requires ms[10] == Int("packetThrottleAcceleration")
    requires ms[11] == Int("packetThrottleDeceleration")
    ensures PrefixBits(ms, 12, abi) == 320
  {
    StructContiguous(ms, 9, abi);
    StructContiguous(ms, 10, abi);
    StructContiguous(ms, 11, abi);
  }

  lemma {:induction false} ConnectArmBits12(abi: Abi)
    ensures PrefixBits(ConnectArm.members, 12, abi) == 320
  {
    ConnectArmBits9(abi);
    ConnectArmBits12Of(ConnectArm.members, abi);
  }

  /** Members 12 to 13 of ConnectArm, added to the size of the members before them. */
  lemma {:induction false} ConnectArmBits14Of(ms: seq<Layout>, abi: Abi)
    requires |ms| == 14
    requires PrefixBits(ms, 12, abi) == 320
    requires ms[12] == Int("connectID")
    requires ms[13] == Int("data")
    ensures PrefixBits(ms, 14, abi) == 384
  {
    StructContiguous(ms, 12, abi);
    StructContiguous(ms, 13, abi);
  }

  lemma {:induction false} ConnectArmBits14(abi: Abi)
    ensures PrefixBits(ConnectArm.members, 14, abi) == 384
  {
    ConnectArmBits12(abi);
    ConnectArmBits14Of(ConnectArm.members, abi);
  }

  lemma ConnectArmBits(abi: Abi)
    ensures BitSize(ConnectArm, abi) == 384
  {
    ConnectArmBits14(abi);
  }

  /** The verifyConnect arm of the command union. */
  const VerifyConnectArm: Layout :=
    Struct([
      ProtocolHeader,
      Short("outgoingPeerID"),
      Char("incomingSessionID"),
      Char("outgoingSessionID"),
      Int("mtu"),
      Int("windowSize"),
      Int("channelCount"),
      Int("incomingBandwidth"),
      Int("outgoingBandwidth"),
      Int("packetThrottleInterval"),
      Int("packetThrottleAcceleration"),
      Int("packetThrottleDeceleration"),
      Int("connectID")
    ], Named("verifyConnect"))

  /** Members 0 to 2 of VerifyConnectArm, added to the size of the members before them. */
  lemma {:induction false} VerifyConnectArmBits3Of(ms: seq<Layout>, abi: Abi)
    requires |ms| == 13
    requires ms[0] == ProtocolHeader
    requires ms[1] == Short("outgoingPeerID")
    requires ms[2] == Char("incomingSessionID")
    ensures PrefixBits(ms, 3, abi) == 56
  {
    ProtocolHeaderBits(abi);
    StructContiguous(ms, 0, abi);
    StructContiguous(ms, 1, abi);
    StructContiguous(ms, 2, abi);
  }

  lemma {:induction false} VerifyConnectArmBits3(abi: Abi)
    ensures PrefixBits(VerifyConnectArm.members, 3, abi) == 56
  {
    VerifyConnectArmBits3Of(VerifyConnectArm.members, abi);
  }

  /** Members 3 to 5 of VerifyConnectArm, added to the size of the members before them. */
  lemma {:induction false} VerifyConnectArmBits6Of(ms: seq<Layout>, abi: Abi)
    requires |ms| == 13
    requires PrefixBits(ms, 3, abi) == 56
    requires ms[3] == Char("outgoingSessionID")
    requires ms[4] == Int("mtu")
    requires ms[5] == Int("windowSize")
    ensures PrefixBits(ms, 6, abi) == 128
  {
    StructContiguous(ms, 3, abi);
    StructContiguous(ms, 4, abi);
    StructContiguous(ms, 5, abi);
  }

  lemma {:induction false} VerifyConnectArmBits6(abi: Abi)
    ensures PrefixBits(VerifyConnectArm.members, 6, abi) == 128
  {
    VerifyConnectArmBits3(abi);
    VerifyConnectArmBits6Of(VerifyConnectArm.members, abi);
  }

  /** Members 6 to 8 of VerifyConnectArm, added to the size of the members before them. */
  lemma {:induction false} VerifyConnectArmBits9Of(ms: seq<Layout>, abi: Abi)
    requires |ms| == 13
    requires PrefixBits(ms, 6, abi) == 128
    requires ms[6] == Int("channelCount")
    requires ms[7] == Int("incomingBandwidth")
    requires ms[8] == Int("outgoingBandwidth")
    ensures PrefixBits(ms, 9, abi) == 224
  {
    StructContiguous(ms, 6, abi);
    StructContiguous(ms, 7, abi);
    StructContiguous(ms, 8, abi);
  }

  lemma {:induction false} VerifyConnectArmBits9(abi: Abi)
    ensures PrefixBits(VerifyConnectArm.members, 9, abi) == 224
  {
    VerifyConnectArmBits6(abi);
    VerifyConnectArmBits9Of(VerifyConnectArm.members, abi);
  }

  /** Members 9 to 11 of VerifyConnectArm, added to the size of the members before them. */
  lemma {:induction false} VerifyConnectArmBits12Of(ms: seq<Layout>, abi: Abi)
    requires |ms| == 13
    requires PrefixBits(ms, 9, abi) == 224
    requires ms[9] == Int("packetThrottleInterval")
    requires ms[10] == Int("packetThrottleAcceleration")
    requires ms[11] == Int("packetThrottleDeceleration")
    ensures PrefixBits(ms, 12, abi) == 320
  {
    StructContiguous(ms, 9, abi);
    StructContiguous(ms, 10, abi);
    StructContiguous(ms, 11, abi);
  }

  lemma {:induction false} VerifyConnectArmBits12(abi: Abi)
    ensures PrefixBits(VerifyConnectArm.members, 12, abi) == 320
  {
    VerifyConnectArmBits9(abi);
    VerifyConnectArmBits12Of(VerifyConnectArm.members, abi);
  }

  /** Member 12 of VerifyConnectArm, added to the size of the members before it. */
  lemma {:induction false} VerifyConnectArmBits13Of(ms: seq<Layout>, abi: Abi)
    requires |ms| == 13
    requires PrefixBits(ms, 12, abi) == 320
    requires ms[12] == Int("connectID")
    ensures PrefixBits(ms, 13, abi) == 352
  {
    StructContiguous(ms, 12, abi);
  }

  lemma {:induction false} VerifyConnectArmBits13(abi: Abi)
    ensures PrefixBits(VerifyConnectArm.members, 13, abi) == 352
  {
    VerifyConnectArmBits12(abi);
    VerifyConnectArmBits13Of(VerifyConnectArm.members, abi);
  }

  lemma VerifyConnectArmBits(abi: Abi)
    ensures BitSize(VerifyConnectArm, abi) == 352
  {
    VerifyConnectArmBits13(abi);
  }

  /** The disconnect arm of the command union. */
  const DisconnectArm: Layout := Struct([ProtocolHeader, Int("data")], Named("disconnect"))

  lemma {:induction false} DisconnectArmBits(abi: Abi)
    ensures BitSize(DisconnectArm, abi) == 64
  {
    var ms := DisconnectArm.members;
    ProtocolHeaderBits(abi);
    StructContiguous(ms, 0, abi);
    StructContiguous(ms, 1, abi);
  }

  /** The ping arm of the command union. */
  const PingArm: Layout := Struct([ProtocolHeader], Named("ping"))

  lemma {:induction false} PingArmBits(abi: Abi)
    ensures BitSize(PingArm, abi) == 32
  {
    var ms := PingArm.members;
    ProtocolHeaderBits(abi);
    StructContiguous(ms, 0, abi);
  }

  /** The sendReliable arm of the command union. */
  const SendReliableArm: Layout := Struct([ProtocolHeader, Short("dataLength")], Named("sendReliable"))

  lemma {:induction false} SendReliableArmBits(abi: Abi)
    ensures BitSize(SendReliableArm, abi) == 48
  {
    var ms := SendReliableArm.members;
    ProtocolHeaderBits(abi);
    StructContiguous(ms, 0, abi);
    StructContiguous(ms, 1, abi);
  }

  /** The sendUnreliable arm of the command union. */
  const SendUnreliableArm: Layout := Struct([ProtocolHeader, Short("unreliableSequenceNumber"), Short("dataLength")], Named("sendUnreliable"))

  lemma {:induction false} SendUnreliableArmBits(abi: Abi)
    ensures BitSize(SendUnreliableArm, abi) == 64
  {
    var ms := SendUnreliableArm.members;
    ProtocolHeaderBits(abi);
    StructContiguous(ms, 0, abi);
    StructContiguous(ms, 1, abi);
    StructContiguous(ms, 2, abi);
  }

  /** The sendUnsequenced arm of the command union. */
  const SendUnsequencedArm: Layout := Struct([ProtocolHeader, Short("unsequencedGroup"), Short("dataLength")], Named("sendUnsequenced"))

  lemma {:induction false} SendUnsequencedArmBits(abi: Abi)
    ensures BitSize(SendUnsequencedArm, abi) == 64
  {
    var ms := SendUnsequencedArm.members;
    ProtocolHeaderBits(abi);
    StructContiguous(ms, 0, abi);
    StructContiguous(ms, 1, abi);
    StructContiguous(ms, 2, abi);
  }

  /** The sendFragment arm of the command union. */
  const SendFragmentArm: Layout :=
    Struct([
      ProtocolHeader,
      Short("startSequenceNumber"),
      Short("dataLength"),
      Int("fragmentCount"),
      Int("fragmentNumber"),
      Int("totalLength"),
      Int("fragmentOffset")
    ], Named("sendFragment"))

  /** Members 0 to 2 of SendFragmentArm, added to the size of the members before them. */
  lemma {:induction false} SendFragmentArmBits3Of(ms: seq<Layout>, abi: Abi)
    requires |ms| == 7
    requires ms[0] == ProtocolHeader
    requires ms[1] == Short("startSequenceNumber")
    requires ms[2] == Short("dataLength")
    ensures PrefixBits(ms, 3, abi) == 64
  {
    ProtocolHeaderBits(abi);
    StructContiguous(ms, 0, abi);
    StructContiguous(ms, 1, abi);
    StructContiguous(ms, 2, abi);
  }

  lemma {:induction false} SendFragmentArmBits3(abi: Abi)
    ensures PrefixBits(SendFragmentArm.members, 3, abi) == 64
  {
    SendFragmentArmBits3Of(SendFragmentArm.members, abi);
  }

  /** Members 3 to 5 of SendFragmentArm, added to the size of the members before them. */
  lemma {:induction false} SendFragmentArmBits6Of(ms: seq<Layout>, abi: Abi)
    requires |ms| == 7
    requires PrefixBits(ms, 3, abi) == 64
    requires ms[3] == Int("fragmentCount")
    requires ms[4] == Int("fragmentNumber")
    requires ms[5] == Int("totalLength")
    ensures PrefixBits(ms, 6, abi) == 160
  {
    StructContiguous(ms, 3, abi);
    StructContiguous(ms, 4, abi);
    StructContiguous(ms, 5, abi);
  }

  lemma {:induction false} SendFragmentArmBits6(abi: Abi)
    ensures PrefixBits(SendFragmentArm.members, 6, abi) == 160
  {
    SendFragmentArmBits3(abi);
    SendFragmentArmBits6Of(SendFragmentArm.members, abi);
  }

  /** Member 6 of SendFragmentArm, added to the size of the members before it. */
  lemma {:induction false} SendFragmentArmBits7Of(ms: seq<Layout>, abi: Abi)
    requires |ms| == 7
    requires PrefixBits(ms, 6, abi) == 160
    requires ms[6] == Int("fragmentOffset")
    ensures PrefixBits(ms, 7, abi) == 192
  {
    StructContiguous(ms, 6, abi);
  }

  lemma {:induction false} SendFragmentArmBits7(abi: Abi)
    ensures PrefixBits(SendFragmentArm.members, 7, abi) == 192
  {
    SendFragmentArmBits6(abi);
    SendFragmentArmBits7Of(SendFragmentArm.members, abi);
  }

  lemma SendFragmentArmBits(abi: Abi)
    ensures BitSize(SendFragmentArm, abi) == 192
  {
    SendFragmentArmBits7(abi);
  }

  /** The bandwidthLimit arm of the command union. */
  const BandwidthLimitArm: Layout := Struct([ProtocolHeader, Int("incomingBandwidth"), Int("outgoingBandwidth")], Named("bandwidthLimit"))

  lemma {:induction false} BandwidthLimitArmBits(abi: Abi)
    ensures BitSize(BandwidthLimitArm, abi) == 96
  {
    var ms := BandwidthLimitArm.members;
    ProtocolHeaderBits(abi);
    StructContiguous(ms, 0, abi);
    StructContiguous(ms, 1, abi);
    StructContiguous(ms, 2, abi);
  }

  /** The throttleConfigure arm of the command union. */
  const ThrottleConfigureArm: Layout :=
    Struct([
      ProtocolHeader,
      Int("packetThrottleInterval"),
      Int("packetThrottleAcceleration"),
      Int("packetThrottleDeceleration")
    ], Named("throttleConfigure"))

  lemma {:induction false} ThrottleConfigureArmBits(abi: Abi)
    ensures BitSize(ThrottleConfigureArm, abi) == 128
  {
    var ms := ThrottleConfigureArm.members;
    ProtocolHeaderBits(abi);
    StructContiguous(ms, 0, abi);
    StructContiguous(ms, 1, abi);
    StructContiguous(ms, 2, abi);
    StructContiguous(ms, 3, abi);
  }

  /** _ENetProtocol: the union of the header and the eleven commands. */
  const ProtocolLayout: Layout :=
    Union([
      ProtocolHeader,
      AcknowledgeArm,
      ConnectArm,
      VerifyConnectArm,
      DisconnectArm,
      PingArm,
      SendReliableArm,
      SendUnreliableArm,
      SendUnsequencedArm,
      SendFragmentArm,
      BandwidthLimitArm,
      ThrottleConfigureArm
    ], Named("_ENetProtocol"))

  lemma ProtocolArms0To3()
    ensures |ProtocolLayout.members| == 12
    ensures ProtocolLayout.members[0] == ProtocolHeader
    ensures ProtocolLayout.members[1] == AcknowledgeArm
    ensures ProtocolLayout.members[2] == ConnectArm
    ensures ProtocolLayout.members[3] == VerifyConnectArm
  {
  }

  lemma ProtocolArms4To7()
    ensures |ProtocolLayout.members| == 12
    ensures ProtocolLayout.members[4] == DisconnectArm
    ensures ProtocolLayout.members[5] == PingArm
    ensures ProtocolLayout.members[6] == SendReliableArm
    ensures ProtocolLayout.members[7] == SendUnreliableArm
  {
  }

  lemma ProtocolArms8To11()
    ensures |ProtocolLayout.members| == 12
    ensures ProtocolLayout.members[8] == SendUnsequencedArm
    ensures ProtocolLayout.members[9] == SendFragmentArm
    ensures ProtocolLayout.members[10] == BandwidthLimitArm
    ensures ProtocolLayout.members[11] == ThrottleConfigureArm
  {
  }

  /** A union of the arms above, in declaration order, is as large as
      connect. */
  lemma {:induction false} ProtocolBitsOf(ms: seq<Layout>, nm: Name, abi: Abi)
    requires |ms| == 12
    requires ms[0] == ProtocolHeader
    requires ms[1] == AcknowledgeArm
    requires ms[2] == ConnectArm
    requires ms[3] == VerifyConnectArm
    requires ms[4] == DisconnectArm
    requires ms[5] == PingArm
    requires ms[6] == SendReliableArm
    requires ms[7] == SendUnreliableArm
    requires ms[8] == SendUnsequencedArm
    requires ms[9] == SendFragmentArm
    requires ms[10] == BandwidthLimitArm
    requires ms[11] == ThrottleConfigureArm
    ensures BitSize(Union(ms, nm), abi) == BitSize(ConnectArm, abi) == 384
  {
    ProtocolHeaderBits(abi);
    AcknowledgeArmBits(abi);
    ConnectArmBits(abi);
    VerifyConnectArmBits(abi);
    DisconnectArmBits(abi);
    PingArmBits(abi);
    SendReliableArmBits(abi);
    SendUnreliableArmBits(abi);
    SendUnsequencedArmBits(abi);
    SendFragmentArmBits(abi);
    BandwidthLimitArmBits(abi);
    ThrottleConfigureArmBits(abi);
    forall j | 0 <= j < 12 ensures BitSize(ms[j], abi) <= BitSize(ms[2], abi) {
      if j == 0 { } else if j == 1 { } else if j == 2 { } else if j == 3 { } else if j == 4 { } else if j == 5 { } else if j == 6 { } else if j == 7 { } else if j == 8 { } else if j == 9 { } else if j == 10 { } else { assert j == 11; }
    }
    UnionLargestArm(ms, nm, 2, abi);
  }

  /** The union is as large as its largest arm, connect: 4 + 2 + 1 + 1 +
      10 * 4 = 48 bytes, on every target. */
  lemma {:induction false} ProtocolBits(abi: Abi)
    ensures BitSize(ProtocolLayout, abi) == BitSize(ConnectArm, abi) == 384
    ensures ByteSize(ProtocolLayout, abi) == Some(48)
  {
    ProtocolArms0To3();
    ProtocolArms4To7();
    ProtocolArms8To11();
    ProtocolBitsOf(ProtocolLayout.members, ProtocolLayout.name, abi);
  }

  /** The host's command buffer: 32 commands. */
  const CommandsLayout: Layout := Sequence(32, ProtocolLayout, Named("commands"))

  /** 32 times the size of the union: 1536 bytes, on every target. */
  lemma CommandsBits(abi: Abi)
    ensures BitSize(CommandsLayout, abi) == 32 * BitSize(ProtocolLayout, abi) == 12288
    ensures ByteSize(CommandsLayout, abi) == Some(32 * 48)
  {
    ProtocolBits(abi);
  }

  // ---------------------------------------------------------------------
  // Host

  /** The sentinel node of the dispatch queue: two pointers. */
  const SentinelLayout: Layout := Struct([Pointer("next"), Pointer("previous")], Named("sentinel"))

  lemma {:induction false} SentinelBits(abi: Abi)
    ensures BitSize(SentinelLayout, abi) == 16 * abi.pointerBytes
  {
    var ms := SentinelLayout.members;
    StructContiguous(ms, 0, abi);
    StructContiguous(ms, 1, abi);
  }

  /** The dispatch queue: a list whose only member is its sentinel. */
  const DispatchQueueLayout: Layout := Struct([SentinelLayout], Named("dispatchQueue"))

  lemma {:induction false} DispatchQueueBits(abi: Abi)
    ensures BitSize(DispatchQueueLayout, abi) == 16 * abi.pointerBytes
  {
    var ms := DispatchQueueLayout.members;
    SentinelBits(abi);
    StructContiguous(ms, 0, abi);
  }

  /** One element of the host's buffers: a data pointer and its length. */
  const BufferLayout: Layout := Struct([Pointer("data"), Long("dataLength")], Anonymous)

  lemma {:induction false} BufferBits(abi: Abi)
    ensures BitSize(BufferLayout, abi) == 8 * abi.pointerBytes + 8 * abi.longBytes
  {
    var ms := BufferLayout.members;
    StructContiguous(ms, 0, abi);
    StructContiguous(ms, 1, abi);
  }

  /** The host's 65 send buffers. */
  const BuffersLayout: Layout := Sequence(65, BufferLayout, Named("buffers"))

  /** The compressor: a context and three callbacks. */
  const CompressorLayout: Layout :=
    Struct([
      Pointer("context"),
      Pointer("compress"),
      Pointer("decompress"),
      Pointer("destroy")
    ], Named("compressor"))

  lemma {:induction false} CompressorBits(abi: Abi)
    ensures BitSize(CompressorLayout, abi) == 32 * abi.pointerBytes
  {
    var ms := CompressorLayout.members;
    StructContiguous(ms, 0, abi);
    StructContiguous(ms, 1, abi);
    StructContiguous(ms, 2, abi);
    StructContiguous(ms, 3, abi);
  }

  /** The two packet data buffers of 4096 octets each. */
  const PacketDataLayout: Layout :=
    Sequence(2, Sequence(4096, Value(CChar, Anonymous), Anonymous), Named("packetData"))

  /** The address of the last received datagram, spelled out like Address.LAYOUT. */
  const ReceivedAddressLayout: Layout := Struct([Int("host"), Short("port"), Padding(16)], Named("receivedAddress"))

  lemma {:induction false} ReceivedAddressBits(abi: Abi)
    ensures BitSize(ReceivedAddressLayout, abi) == 64
  {
    var ms := ReceivedAddressLayout.members;
    StructContiguous(ms, 0, abi);
    StructContiguous(ms, 1, abi);
    StructContiguous(ms, 2, abi);
  }

  /** Member k of Host.LAYOUT (_ENetHost), in declaration order, split into runs of 8. */
  function HostMember(k: int): Layout
    requires 0 <= k < 40
  {
    if k < 8 then HostMembers0To7(k)
    else if k < 16 then HostMembers8To15(k)
    else if k < 24 then HostMembers16To23(k)
    else if k < 32 then HostMembers24To31(k)
    else HostMembers32To39(k)
  }

  function HostMembers0To7(k: int): Layout
    requires 0 <= k < 8
  {
    match k
    case 0 => Int("socket")
    case 1 => WithName(AddressLayout, "address")
    case 2 => Int("incomingBandwidth")
    case 3 => Int("outgoingBandwidth")
    case 4 => Int("bandwidthThrottleEpoch")
    case 5 => Int("mtu")
    case 6 => Int("randomSeed")
    case 7 => Int("recalculateBandwidthLimits")
  }

  function HostMembers8To15(k: int): Layout
    requires 8 <= k < 16
  {
    match k
    case 8 => Padding(32)
    case 9 => Pointer("peers")
    case 10 => Long("peerCount")
    case 11 => Long("channelLimit")
    case 12 => Int("serviceTime")
    case 13 => Padding(32)
    case 14 => DispatchQueueLayout
    case 15 => Int("continueSending")
  }

  function HostMembers16To23(k: int): Layout
    requires 16 <= k < 24
  {
    match k
    case 16 => Padding(32)
    case 17 => Long("packetSize")
    case 18 => Short("headerFlags")
    case 19 => CommandsLayout
    case 20 => Padding(48)
    case 21 => Long("commandCount")
    case 22 => BuffersLayout
    case 23 => Long("bufferCount")
  }

  function HostMembers24To31(k: int): Layout
    requires 24 <= k < 32
  {
    match k
    case 24 => Pointer("checksum")
    case 25 => CompressorLayout
    case 26 => PacketDataLayout
    case 27 => ReceivedAddressLayout
    case 28 => Pointer("receivedData")
    case 29 => Long("receivedDataLength")
    case 30 => Int("totalSentData")
    case 31 => Int("totalSentPackets")
  }

  function HostMembers32To39(k: int): Layout
    requires 32 <= k < 40
  {
    match k
    case 32 => Int("totalReceivedData")
    case 33 => Int("totalReceivedPackets")
    case 34 => Pointer("intercept")
    case 35 => Long("connectedPeers")
    case 36 => Long("bandwidthLimitedPeers")
    case 37 => Long("duplicatePeers")
    case 38 => Long("maximumPacketSize")
    case 39 => Long("maximumWaitingData")
  }

  const HostLayout: Layout := Struct(seq(40, HostMember), Named("_ENetHost"))

  /** The host's address sits at byte 4, so Host.address() reads the host
      number at byte 4 and the port at byte 8, on every target. */
  const HostAddressHostOffset: nat := 4
  const HostAddressPortOffset: nat := 8

  /** The address member of a host-like member list, in any ABI. */
  lemma {:induction false} HostAddressOf(ms: seq<Layout>, nm: Name, abi: Abi)
    requires |ms| > 1 && ms[0] == Int("socket") && ms[1] == WithName(AddressLayout, "address")
    ensures ByteOffset(Struct(ms, nm), [GroupElement("address"), GroupElement("host")], abi) == Some(HostAddressHostOffset)
    ensures ByteOffset(Struct(ms, nm), [GroupElement("address"), GroupElement("port")], abi) == Some(HostAddressPortOffset)
  {
    AddressOffsetBits(Named("address"), abi);
    StructContiguous(ms, 0, abi);
    var toHost := [GroupElement("address"), GroupElement("host")];
    assert toHost[1..] == Group("host");
    MemberOffset(ms, nm, 1, toHost, abi);
    var toPort := [GroupElement("address"), GroupElement("port")];
    assert toPort[1..] == Group("port");
    MemberOffset(ms, nm, 1, toPort, abi);
  }

  lemma HostAddressFacts(abi: Abi)
    ensures ByteOffset(HostLayout, [GroupElement("address"), GroupElement("host")], abi) == Some(HostAddressHostOffset)
    ensures ByteOffset(HostLayout, [GroupElement("address"), GroupElement("port")], abi) == Some(HostAddressPortOffset)
  {
    HostAddressOf(HostLayout.members, HostLayout.name, abi);
  }

  /** Members 0 to 1 of HostLayout on LP64, added to the size of the members before them. */
  lemma {:induction false} HostPrefixBits2Of(ms: seq<Layout>)
    requires |ms| == 40
    requires ms[0] == Int("socket")
    requires ms[1] == WithName(AddressLayout, "address")
    ensures PrefixBits(ms, 2, LP64) == 96
  {
    var abi := LP64;
    AddressBits(abi);
    StructContiguous(ms, 0, abi);
    StructContiguous(ms, 1, abi);
  }

  lemma {:induction false} HostPrefixBits2()
    ensures PrefixBits(HostLayout.members, 2, LP64) == 96
  {
    HostPrefixBits2Of(HostLayout.members);
  }

  /** Members 2 to 3 of HostLayout on LP64, added to the size of the members before them. */
  lemma {:induction false} HostPrefixBits4Of(ms: seq<Layout>)
    requires |ms| == 40
    requires PrefixBits(ms, 2, LP64) == 96
    requires ms[2] == Int("incomingBandwidth")
    requires ms[3] == Int("outgoingBandwidth")
    ensures PrefixBits(ms, 4, LP64) == 160
  {
    var abi := LP64;
    StructContiguous(ms, 2, abi);
    StructContiguous(ms, 3, abi);
  }

  lemma {:induction false} HostPrefixBits4()
    ensures PrefixBits(HostLayout.members, 4, LP64) == 160
  {
    HostPrefixBits2();
    HostPrefixBits4Of(HostLayout.members);
  }

  /** Members 4 to 5 of HostLayout on LP64, added to the size of the members before them. */
  lemma {:induction false} HostPrefixBits6Of(ms: seq<Layout>)
    requires |ms| == 40
    requires PrefixBits(ms, 4, LP64) == 160
    requires ms[4] == Int("bandwidthThrottleEpoch")
    requires ms[5] == Int("mtu")
    ensures PrefixBits(ms, 6, LP64) == 224
  {
    var abi := LP64;
    StructContiguous(ms, 4, abi);
    StructContiguous(ms, 5, abi);
  }

  lemma {:induction false} HostPrefixBits6()
    ensures PrefixBits(HostLayout.members, 6, LP64) == 224
  {
    HostPrefixBits4();
    HostPrefixBits6Of(HostLayout.members);
  }

  /** Members 6 to 7 of HostLayout on LP64, added to the size of the members before them. */
  lemma {:induction false} HostPrefixBits8Of(ms: seq<Layout>)
    requires |ms| == 40
    requires PrefixBits(ms, 6, LP64) == 224
    requires ms[6] == Int("randomSeed")
    requires ms[7] == Int("recalculateBandwidthLimits")
    ensures PrefixBits(ms, 8, LP64) == 288
  {
    var abi := LP64;
    StructContiguous(ms, 6, abi);
    StructContiguous(ms, 7, abi);
  }

  lemma {:induction false} HostPrefixBits8()
    ensures PrefixBits(HostLayout.members, 8, LP64) == 288
  {
    HostPrefixBits6();
    HostPrefixBits8Of(HostLayout.members);
  }

  /** Members 8 to 9 of HostLayout on LP64, added to the size of the members before them. */
  lemma {:induction false} HostPrefixBits10Of(ms: seq<Layout>)
    requires |ms| == 40
    requires PrefixBits(ms, 8, LP64) == 288
    requires ms[8] == Padding(32)
    requires ms[9] == Pointer("peers")
    ensures PrefixBits(ms, 10, LP64) == 384
  {
    var abi := LP64;
    StructContiguous(ms, 8, abi);
    StructContiguous(ms, 9, abi);
  }

  lemma {:induction false} HostPrefixBits10()
    ensures PrefixBits(HostLayout.members, 10, LP64) == 384
  {
    HostPrefixBits8();
    HostPrefixBits10Of(HostLayout.members);
  }

  /** Members 10 to 11 of HostLayout on LP64, added to the size of the members before them. */
  lemma {:induction false} HostPrefixBits12Of(ms: seq<Layout>)
    requires |ms| == 40
    requires PrefixBits(ms, 10, LP64) == 384
    requires ms[10] == Long("peerCount")
    requires ms[11] == Long("channelLimit")
    ensures PrefixBits(ms, 12, LP64) == 512
  {
    var abi := LP64;
    StructContiguous(ms, 10, abi);
    StructContiguous(ms, 11, abi);
  }

  lemma {:induction false} HostPrefixBits12()
    ensures PrefixBits(HostLayout.members, 12, LP64) == 512
  {
    HostPrefixBits10();
    HostPrefixBits12Of(HostLayout.members);
  }

  /** Members 12 to 13 of HostLayout on LP64, added to the size of the members before them. */
  lemma {:induction false} HostPrefixBits14Of(ms: seq<Layout>)
    requires |ms| == 40
    requires PrefixBits(ms, 12, LP64) == 512
    requires ms[12] == Int("serviceTime")
    requires ms[13] == Padding(32)
    ensures PrefixBits(ms, 14, LP64) == 576
  {
    var abi := LP64;
    StructContiguous(ms, 12, abi);
    StructContiguous(ms, 13, abi);
  }

  lemma {:induction false} HostPrefixBits14()
    ensures PrefixBits(HostLayout.members, 14, LP64) == 576
  {
    HostPrefixBits12();
    HostPrefixBits14Of(HostLayout.members);
  }

  /** Members 14 to 15 of HostLayout on LP64, added to the size of the members before them. */
  lemma {:induction false} HostPrefixBits16Of(ms: seq<Layout>)
    requires |ms| == 40
    requires PrefixBits(ms, 14, LP64) == 576
    requires ms[14] == DispatchQueueLayout
    requires ms[15] == Int("continueSending")
    ensures PrefixBits(ms, 16, LP64) == 736
  {
    var abi := LP64;
    DispatchQueueBits(abi);
    StructContiguous(ms, 14, abi);
    StructContiguous(ms, 15, abi);
  }

  lemma {:induction false} HostPrefixBits16()
    ensures PrefixBits(HostLayout.members, 16, LP64) == 736
  {
    HostPrefixBits14();
    HostPrefixBits16Of(HostLayout.members);
  }

  /** Members 16 to 17 of HostLayout on LP64, added to the size of the members before them. */
  lemma {:induction false} HostPrefixBits18Of(ms: seq<Layout>)
    requires |ms| == 40
    requires PrefixBits(ms, 16, LP64) == 736
    requires ms[16] == Padding(32)
    requires ms[17] == Long("packetSize")
    ensures PrefixBits(ms, 18, LP64) == 832
  {
    var abi := LP64;
    StructContiguous(ms, 16, abi);
    StructContiguous(ms, 17, abi);
  }

  lemma {:induction false} HostPrefixBits18()
    ensures PrefixBits(HostLayout.members, 18, LP64) == 832
  {
    HostPrefixBits16();
    HostPrefixBits18Of(HostLayout.members);
  }

  /** Members 18 to 19 of HostLayout on LP64, added to the size of the members before them. */
  lemma {:induction false} HostPrefixBits20Of(ms: seq<Layout>)
    requires |ms| == 40
    requires PrefixBits(ms, 18, LP64) == 832
    requires ms[18] == Short("headerFlags")
    requires ms[19] == CommandsLayout
    ensures PrefixBits(ms, 20, LP64) == 13136
  {
    var abi := LP64;
    CommandsBits(abi);
    StructContiguous(ms, 18, abi);
    StructContiguous(ms, 19, abi);
  }

  lemma {:induction false} HostPrefixBits20()
    ensures PrefixBits(HostLayout.members, 20, LP64) == 13136
  {
    HostPrefixBits18();
    HostPrefixBits20Of(HostLayout.members);
  }

  /** Members 20 to 21 of HostLayout on LP64, added to the size of the members before them. */
  lemma {:induction false} HostPrefixBits22Of(ms: seq<Layout>)
    requires |ms| == 40
    requires PrefixBits(ms, 20, LP64) == 13136
    requires ms[20] == Padding(48)
    requires ms[21] == Long("commandCount")
    ensures PrefixBits(ms, 22, LP64) == 13248
  {
    var abi := LP64;
    StructContiguous(ms, 20, abi);
    StructContiguous(ms, 21, abi);
  }

  lemma {:induction false} HostPrefixBits22()
    ensures PrefixBits(HostLayout.members, 22, LP64) == 13248
  {
    HostPrefixBits20();
    HostPrefixBits22Of(HostLayout.members);
  }

  /** Where the checksum member begins: after the first 24 members. */
  lemma {:induction false} HostPrefixBits24Of(ms: seq<Layout>)
    requires |ms| == 40
    requires PrefixBits(ms, 22, LP64) == 13248
    requires ms[22] == BuffersLayout
    requires ms[23] == Long("bufferCount")
    ensures PrefixBits(ms, 24, LP64) == 21632
  {
    var abi := LP64;
    BufferBits(abi);
    StructContiguous(ms, 22, abi);
    StructContiguous(ms, 23, abi);
  }

  lemma {:induction false} HostPrefixBits24()
    ensures PrefixBits(HostLayout.members, 24, LP64) == 21632
  {
    HostPrefixBits22();
    HostPrefixBits24Of(HostLayout.members);
  }

  /** Members 24 to 25 of HostLayout on LP64, added to the size of the members before them. */
  lemma {:induction false} HostPrefixBits26Of(ms: seq<Layout>)
    requires |ms| == 40
    requires PrefixBits(ms, 24, LP64) == 21632
    requires ms[24] == Pointer("checksum")
    requires ms[25] == CompressorLayout
    ensures PrefixBits(ms, 26, LP64) == 21952
  {
    var abi := LP64;
    CompressorBits(abi);
    StructContiguous(ms, 24, abi);
    StructContiguous(ms, 25, abi);
  }

  lemma {:induction false} HostPrefixBits26()
    ensures PrefixBits(HostLayout.members, 26, LP64) == 21952
  {
    HostPrefixBits24();
    HostPrefixBits26Of(HostLayout.members);
  }

  /** Members 26 to 27 of HostLayout on LP64, added to the size of the members before them. */
  lemma {:induction false} HostPrefixBits28Of(ms: seq<Layout>)
    requires |ms| == 40
    requires PrefixBits(ms, 26, LP64) == 21952
    requires ms[26] == PacketDataLayout
    requires ms[27] == ReceivedAddressLayout
    ensures PrefixBits(ms, 28, LP64) == 87552
  {
    var abi := LP64;
    ReceivedAddressBits(abi);
    StructContiguous(ms, 26, abi);
    StructContiguous(ms, 27, abi);
  }

  lemma {:induction false} HostPrefixBits28()
    ensures PrefixBits(HostLayout.members, 28, LP64) == 87552
  {
    HostPrefixBits26();
    HostPrefixBits28Of(HostLayout.members);
  }

  /** Members 28 to 29 of HostLayout on LP64, added to the size of the members before them. */
  lemma {:induction false} HostPrefixBits30Of(ms: seq<Layout>)
    requires |ms| == 40
    requires PrefixBits(ms, 28, LP64) == 87552
    requires ms[28] == Pointer("receivedData")
    requires ms[29] == Long("receivedDataLength")
    ensures PrefixBits(ms, 30, LP64) == 87680
  {
    var abi := LP64;
    StructContiguous(ms, 28, abi);
    StructContiguous(ms, 29, abi);
  }

  lemma {:induction false} HostPrefixBits30()
    ensures PrefixBits(HostLayout.members, 30, LP64) == 87680
  {
    HostPrefixBits28();
    HostPrefixBits30Of(HostLayout.members);
  }

  /** Members 30 to 31 of HostLayout on LP64, added to the size of the members before them. */
  lemma {:induction false} HostPrefixBits32Of(ms: seq<Layout>)
    requires |ms| == 40
    requires PrefixBits(ms, 30, LP64) == 87680
    requires ms[30] == Int("totalSentData")
    requires ms[31] == Int("totalSentPackets")
    ensures PrefixBits(ms, 32, LP64) == 87744
  {
    var abi := LP64;
    StructContiguous(ms, 30, abi);
    StructContiguous(ms, 31, abi);
  }

  lemma {:induction false} HostPrefixBits32()
    ensures PrefixBits(HostLayout.members, 32, LP64) == 87744
  {
    HostPrefixBits30();
    HostPrefixBits32Of(HostLayout.members);
  }

  /** Members 32 to 33 of HostLayout on LP64, added to the size of the members before them. */
  lemma {:induction false} HostPrefixBits34Of(ms: seq<Layout>)
    requires |ms| == 40
    requires PrefixBits(ms, 32, LP64) == 87744
    requires ms[32] == Int("totalReceivedData")
    requires ms[33] == Int("totalReceivedPackets")
    ensures PrefixBits(ms, 34, LP64) == 87808
  {
    var abi := LP64;
    StructContiguous(ms, 32, abi);
    StructContiguous(ms, 33, abi);
  }

  lemma {:induction false} HostPrefixBits34()
    ensures PrefixBits(HostLayout.members, 34, LP64) == 87808
  {
    HostPrefixBits32();
    HostPrefixBits34Of(HostLayout.members);
  }

  /** Members 34 to 35 of HostLayout on LP64, added to the size of the members before them. */
  lemma {:induction false} HostPrefixBits36Of(ms: seq<Layout>)
    requires |ms| == 40
    requires PrefixBits(ms, 34, LP64) == 87808
    requires ms[34] == Pointer("intercept")
    requires ms[35] == Long("connectedPeers")
    ensures PrefixBits(ms, 36, LP64) == 87936
  {
    var abi := LP64;
    StructContiguous(ms, 34, abi);
    StructContiguous(ms, 35, abi);
  }

  lemma {:induction false} HostPrefixBits36()
    ensures PrefixBits(HostLayout.members, 36, LP64) == 87936
  {
    HostPrefixBits34();
    HostPrefixBits36Of(HostLayout.members);
  }

  /** Members 36 to 37 of HostLayout on LP64, added to the size of the members before them. */
  lemma {:induction false} HostPrefixBits38Of(ms: seq<Layout>)
    requires |ms| == 40
    requires PrefixBits(ms, 36, LP64) == 87936
    requires ms[36] == Long("bandwidthLimitedPeers")
    requires ms[37] == Long("duplicatePeers")
    ensures PrefixBits(ms, 38, LP64) == 88064
  {
    var abi := LP64;
    StructContiguous(ms, 36, abi);
    StructContiguous(ms, 37, abi);
  }

  lemma {:induction false} HostPrefixBits38()
    ensures PrefixBits(HostLayout.members, 38, LP64) == 88064
  {
    HostPrefixBits36();
    HostPrefixBits38Of(HostLayout.members);
  }

  /** Members 38 to 39 of HostLayout on LP64, added to the size of the members before them. */
  lemma {:induction false} HostPrefixBits40Of(ms: seq<Layout>)
    requires |ms| == 40
    requires PrefixBits(ms, 38, LP64) == 88064
    requires ms[38] == Long("maximumPacketSize")
    requires ms[39] == Long("maximumWaitingData")
    ensures PrefixBits(ms, 40, LP64) == 88192
  {
    var abi := LP64;
    StructContiguous(ms, 38, abi);
    StructContiguous(ms, 39, abi);
  }

  lemma {:induction false} HostPrefixBits40()
    ensures PrefixBits(HostLayout.members, 40, LP64) == 88192
  {
    HostPrefixBits38();
    HostPrefixBits40Of(HostLayout.members);
  }

  lemma {:induction false} HostBits()
    ensures BitSize(HostLayout, LP64) == 88192
  {
    HostPrefixBits40();
  }

  /** On an LP64 target the checksum callback slot is at byte 2704 and the
      whole record takes 11024 bytes. */
  const HostChecksumOffset: nat := 2704
  const HostBytes: nat := 11024

  lemma {:induction false} HostChecksumFacts()
    ensures ByteOffset(HostLayout, Group("checksum"), LP64) == Some(HostChecksumOffset)
  {
    var ms := HostLayout.members;
    HostPrefixBits24();
    HostNamesNotChecksum0To5();
    HostNamesNotChecksum6To11();
    HostNamesNotChecksum12To17();
    HostNamesNotChecksum18To23();
    MemberOffset(ms, HostLayout.name, 24, Group("checksum"), LP64);
  }

  /** No host member from 0 to 5 is named "checksum". */
  lemma HostNamesNotChecksum0To5()
    ensures forall j | 0 <= j < 6 :: NameOf(HostLayout.members[j]) != Named("checksum")
  {
    forall j | 0 <= j < 6 ensures NameOf(HostLayout.members[j]) != Named("checksum") {
      if j == 0 { } else if j == 1 { } else if j == 2 { } else if j == 3 { } else if j == 4 { } else { assert j == 5; }
    }
  }

  /** No host member from 6 to 11 is named "checksum". */
  lemma HostNamesNotChecksum6To11()
    ensures forall j | 6 <= j < 12 :: NameOf(HostLayout.members[j]) != Named("checksum")
  {
    forall j | 6 <= j < 12 ensures NameOf(HostLayout.members[j]) != Named("checksum") {
      if j == 6 { } else if j == 7 { } else if j == 8 { } else if j == 9 { } else if j == 10 { } else { assert j == 11; }
    }
  }

  /** No host member from 12 to 17 is named "checksum". */
  lemma HostNamesNotChecksum12To17()
    ensures forall j | 12 <= j < 18 :: NameOf(HostLayout.members[j]) != Named("checksum")
  {
    forall j | 12 <= j < 18 ensures NameOf(HostLayout.members[j]) != Named("checksum") {
      if j == 12 { } else if j == 13 { } else if j == 14 { } else if j == 15 { } else if j == 16 { } else { assert j == 17; }
    }
  }

  /** No host member from 18 to 23 is named "checksum". */
  lemma HostNamesNotChecksum18To23()
    ensures forall j | 18 <= j < 24 :: NameOf(HostLayout.members[j]) != Named("checksum")
  {
    forall j | 18 <= j < 24 ensures NameOf(HostLayout.members[j]) != Named("checksum") {
      if j == 18 { } else if j == 19 { } else if j == 20 { } else if j == 21 { } else if j == 22 { } else { assert j == 23; }
    }
  }

  lemma HostSizeFacts()
    ensures ByteSize(HostLayout, LP64) == Some(HostBytes)
  {
    HostBits();
  }

  // ---------------------------------------------------------------------
  // Event

  /** Member k of Event.LAYOUT (_ENetEvent), in declaration order. */
  function EventMember(k: int): Layout
    requires 0 <= k < 7
  {
    match k
    case 0 => Int("type")
    case 1 => Padding(32)
    case 2 => Pointer("peer")
    case 3 => Char("channelID")
    case 4 => Padding(24)
    case 5 => Int("data")
    case 6 => Pointer("packet")
  }

  const EventLayout: Layout := Struct(seq(7, EventMember), Named("_ENetEvent"))

  /** Where each Event member begins, and the size of the record. */
  lemma {:induction false} EventBits(abi: Abi)
    ensures PrefixBits(EventLayout.members, 0, abi) == 0
    ensures PrefixBits(EventLayout.members, 2, abi) == 64
    ensures PrefixBits(EventLayout.members, 3, abi) == 64 + 8 * abi.pointerBytes
    ensures PrefixBits(EventLayout.members, 5, abi) == 96 + 8 * abi.pointerBytes
    ensures PrefixBits(EventLayout.members, 6, abi) == 128 + 8 * abi.pointerBytes
    ensures BitSize(EventLayout, abi) == 128 + 16 * abi.pointerBytes
  {
    var ms := EventLayout.members;
    StructContiguous(ms, 0, abi);
    StructContiguous(ms, 1, abi);
    StructContiguous(ms, 2, abi);
    StructContiguous(ms, 3, abi);
    StructContiguous(ms, 4, abi);
    StructContiguous(ms, 5, abi);
    StructContiguous(ms, 6, abi);
  }

  /** Byte offsets of the Event fields the binding reads, and its size, on an LP64 target. */
  const EventTypeOffset: nat := 0
  const EventPeerOffset: nat := 8
  const EventChannelIDOffset: nat := 16
  const EventDataOffset: nat := 20
  const EventPacketOffset: nat := 24
  const EventBytes: nat := 32

  lemma {:induction false} EventTypeFacts()
    ensures ByteOffset(EventLayout, Group("type"), LP64) == Some(EventTypeOffset)
  {
    var ms := EventLayout.members;
    EventBits(LP64);
    MemberOffset(ms, EventLayout.name, 0, Group("type"), LP64);
  }

  lemma {:induction false} EventPeerFacts()
    ensures ByteOffset(EventLayout, Group("peer"), LP64) == Some(EventPeerOffset)
  {
    var ms := EventLayout.members;
    EventBits(LP64);
    forall j | 0 <= j < 2 ensures NameOf(ms[j]) != Named("peer") {
      if j == 0 { } else { assert j == 1; }
    }
    MemberOffset(ms, EventLayout.name, 2, Group("peer"), LP64);
  }

  lemma {:induction false} EventChannelIDFacts()
    ensures ByteOffset(EventLayout, Group("channelID"), LP64) == Some(EventChannelIDOffset)
  {
    var ms := EventLayout.members;
    EventBits(LP64);
    forall j | 0 <= j < 3 ensures NameOf(ms[j]) != Named("channelID") {
      if j == 0 { } else if j == 1 { } else { assert j == 2; }
    }
    MemberOffset(ms, EventLayout.name, 3, Group("channelID"), LP64);
  }

  lemma {:induction false} EventDataFacts()
    ensures ByteOffset(EventLayout, Group("data"), LP64) == Some(EventDataOffset)
  {
    var ms := EventLayout.members;
    EventBits(LP64);
    forall j | 0 <= j < 5 ensures NameOf(ms[j]) != Named("data") {
      if j == 0 { } else if j == 1 { } else if j == 2 { } else if j == 3 { } else { assert j == 4; }
    }
    MemberOffset(ms, EventLayout.name, 5, Group("data"), LP64);
  }

  lemma {:induction false} EventPacketFacts()
    ensures ByteOffset(EventLayout, Group("packet"), LP64) == Some(EventPacketOffset)
  {
    var ms := EventLayout.members;
    EventBits(LP64);
    forall j | 0 <= j < 6 ensures NameOf(ms[j]) != Named("packet") {
      if j == 0 { } else if j == 1 { } else if j == 2 { } else if j == 3 { } else if j == 4 { } else { assert j == 5; }
    }
    MemberOffset(ms, EventLayout.name, 6, Group("packet"), LP64);
  }

  lemma EventSizeFacts()
    ensures ByteSize(EventLayout, LP64) == Some(EventBytes)
  {
    EventBits(LP64);
  }

  // ---------------------------------------------------------------------
  // Packet

  /** Member k of Packet.LAYOUT (_ENetPacket), in declaration order. */
  function PacketMember(k: int): Layout
    requires 0 <= k < 7
  {
    match k
    case 0 => Long("referenceCount")
    case 1 => Int("flags")
    case 2 => Padding(32)
    case 3 => Pointer("data")
    case 4 => Long("dataLength")
    case 5 => Pointer("freeCallback")
    case 6 => Pointer("userData")
  }

  const PacketLayout: Layout := Struct(seq(7, PacketMember), Named("_ENetPacket"))

  /** Where each Packet member begins, and the size of the record. */
  lemma {:induction false} PacketBits(abi: Abi)
    ensures PrefixBits(PacketLayout.members, 0, abi) == 0
    ensures PrefixBits(PacketLayout.members, 1, abi) == 8 * abi.longBytes
    ensures PrefixBits(PacketLayout.members, 3, abi) == 64 + 8 * abi.longBytes
    ensures PrefixBits(PacketLayout.members, 4, abi) == 64 + 8 * abi.pointerBytes + 8 * abi.longBytes
    ensures PrefixBits(PacketLayout.members, 5, abi) == 64 + 8 * abi.pointerBytes + 16 * abi.longBytes
    ensures PrefixBits(PacketLayout.members, 6, abi) == 64 + 16 * abi.pointerBytes + 16 * abi.longBytes
    ensures BitSize(PacketLayout, abi) == 64 + 24 * abi.pointerBytes + 16 * abi.longBytes
  {
    var ms := PacketLayout.members;
    StructContiguous(ms, 0, abi);
    StructContiguous(ms, 1, abi);
    StructContiguous(ms, 2, abi);
    StructContiguous(ms, 3, abi);
    StructContiguous(ms, 4, abi);
    StructContiguous(ms, 5, abi);
    StructContiguous(ms, 6, abi);
  }

  /** Byte offsets of the Packet fields the binding reads, and its size, on an LP64 target. */
  const PacketReferenceCountOffset: nat := 0
  const PacketFlagsOffset: nat := 8
  const PacketDataOffset: nat := 16
  const PacketDataLengthOffset: nat := 24
  const PacketFreeCallbackOffset: nat := 32
  const PacketUserDataOffset: nat := 40
  const PacketBytes: nat := 48

  lemma {:induction false} PacketReferenceCountFacts()
    ensures ByteOffset(PacketLayout, Group("referenceCount"), LP64) == Some(PacketReferenceCountOffset)
  {
    var ms := PacketLayout.members;
    PacketBits(LP64);
    MemberOffset(ms, PacketLayout.name, 0, Group("referenceCount"), LP64);
  }

  lemma {:induction false} PacketFlagsFacts()
    ensures ByteOffset(PacketLayout, Group("flags"), LP64) == Some(PacketFlagsOffset)
  {
    var ms := PacketLayout.members;
    PacketBits(LP64);
    forall j | 0 <= j < 1 ensures NameOf(ms[j]) != Named("flags") {
      assert j == 0;
    }
    MemberOffset(ms, PacketLayout.name, 1, Group("flags"), LP64);
  }

  lemma {:induction false} PacketDataFacts()
    ensures ByteOffset(PacketLayout, Group("data"), LP64) == Some(PacketDataOffset)
  {
    var ms := PacketLayout.members;
    PacketBits(LP64);
    forall j | 0 <= j < 3 ensures NameOf(ms[j]) != Named("data") {
      if j == 0 { } else if j == 1 { } else { assert j == 2; }
    }
    MemberOffset(ms, PacketLayout.name, 3, Group("data"), LP64);
  }

  lemma {:induction false} PacketDataLengthFacts()
    ensures ByteOffset(PacketLayout, Group("dataLength"), LP64) == Some(PacketDataLengthOffset)
  {
    var ms := PacketLayout.members;
    PacketBits(LP64);
    forall j | 0 <= j < 4 ensures NameOf(ms[j]) != Named("dataLength") {
      if j == 0 { } else if j == 1 { } else if j == 2 { } else { assert j == 3; }
    }
    MemberOffset(ms, PacketLayout.name, 4, Group("dataLength"), LP64);
  }

  lemma {:induction false} PacketFreeCallbackFacts()
    ensures ByteOffset(PacketLayout, Group("freeCallback"), LP64) == Some(PacketFreeCallbackOffset)
  {
    var ms := PacketLayout.members;
    PacketBits(LP64);
    forall j | 0 <= j < 5 ensures NameOf(ms[j]) != Named("freeCallback") {
      if j == 0 { } else if j == 1 { } else if j == 2 { } else if j == 3 { } else { assert j == 4; }
    }
    MemberOffset(ms, PacketLayout.name, 5, Group("freeCallback"), LP64);
  }

  lemma {:induction false} PacketUserDataFacts()
    ensures ByteOffset(PacketLayout, Group("userData"), LP64) == Some(PacketUserDataOffset)
  {
    var ms := PacketLayout.members;
    PacketBits(LP64);
    forall j | 0 <= j < 6 ensures NameOf(ms[j]) != Named("userData") {
      if j == 0 { } else if j == 1 { } else if j == 2 { } else if j == 3 { } else if j == 4 { } else { assert j == 5; }
    }
    MemberOffset(ms, PacketLayout.name, 6, Group("userData"), LP64);
  }

  lemma PacketSizeFacts()
    ensures ByteSize(PacketLayout, LP64) == Some(PacketBytes)
  {
    PacketBits(LP64);
  }
}
