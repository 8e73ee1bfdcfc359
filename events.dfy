/** Events as the binding reads them out of an _ENetEvent record:
    Event.fromUnsafe's decoding of the type tag, and Receive.dataAsString's
    copy of the received packet's bytes. */
module Events {
  import Wrappers
  import opened Memory
  import opened Records
  import Layout

  /** The four Event subclasses. */
  datatype Event = None | Connect | Disconnect | Receive

  /** The ENetEventType value each subclass stands for. */
  function Tag(e: Event): (t: int32)
    ensures 0 <= t <= 3
  {
    match e
    case None => 0
    case Connect => 1
    case Disconnect => 2
    case Receive => 3
  }

  /** Distinct events have distinct tags. */
  lemma TagInjective(e: Event, f: Event)
    requires Tag(e) == Tag(f)
    ensures e == f
  {
  }

  datatype DecodeError = UnknownEventType(tag: int32)

  /** The switch in fromUnsafe: tags 0 to 3 name an event; any other value
      is an error carrying it. */
  function FromTag(tag: int32): (r: Wrappers.Result<Event, DecodeError>)
    ensures r.Ok? <==> 0 <= tag <= 3
    ensures r.Ok? ==> Tag(r.value) == tag
    ensures r.Err? ==> r.error == UnknownEventType(tag)
  {
    match tag
    case 0 => Wrappers.Ok(None)
    case 1 => Wrappers.Ok(Connect)
    case 2 => Wrappers.Ok(Disconnect)
    case 3 => Wrappers.Ok(Receive)
    case _ => Wrappers.Err(UnknownEventType(tag))
  }

  lemma TagRoundTrip(e: Event)
    ensures FromTag(Tag(e)) == Wrappers.Ok(e)
  {
  }

  /** Width in bytes of the type member (a C int). */
  const TypeBytes: nat := Layout.CarrierBytes(Layout.CInt, Layout.LP64)

  /** Event.fromUnsafe: the int at the type member's offset decides the
      event. */
  function FromUnsafe(event: seq<byte>): (r: Wrappers.Result<Event, DecodeError>)
    requires InBounds(event, EventTypeOffset, TypeBytes)
    ensures r.Ok? <==> 0 <= Load(event, EventTypeOffset, TypeBytes) <= 3
    ensures r.Ok? ==> Tag(r.value) == Load(event, EventTypeOffset, TypeBytes)
    ensures r.Err? ==> r.error == UnknownEventType(Load(event, EventTypeOffset, TypeBytes))
  {
    JavaWidths();
    FromTag(Load(event, EventTypeOffset, TypeBytes))
  }

  /** The record after enet_host_service sets its type member. */
  function WithType(event: seq<byte>, tag: int32): (m: seq<byte>)
    requires InBounds(event, EventTypeOffset, TypeBytes)
    ensures |m| == |event|
  {
    JavaWidths();
    Store(event, EventTypeOffset, TypeBytes, tag)
  }

  /** A record whose type member was set to an event's tag decodes to that
      event, and one whose type member holds anything else is refused with
      that value. */
  lemma FromUnsafeReadsType(event: seq<byte>, tag: int32)
    requires InBounds(event, EventTypeOffset, TypeBytes)
    ensures FromUnsafe(WithType(event, tag)) == FromTag(tag)
  {
    JavaWidths();
    LoadStore(event, EventTypeOffset, TypeBytes, tag);
  }

  // ---------------------------------------------------------------------
  // Receive.dataAsString

  /** Width of a pointer and of a C long on the LP64 target. */
  const PointerBytes: nat := Layout.LP64.pointerBytes
  const LongBytes: nat := Layout.LP64.longBytes

  /** The largest Java int: the longest array the JVM can allocate. */
  const MaxInt: int := 0x7FFF_FFFF

  /** Why dataAsString does not return. NegativeLength: the sequence layout
      built from a negative dataLength is refused. EmptySegment:
      asSegmentRestricted refuses a segment of size 0, so an empty packet
      throws before the array is built. NegativeArraySize: the
      (int) narrowing of dataLength is negative. IndexOutOfBounds: the
      narrowed length is shorter than dataLength, so the copy loop runs off
      the end of the array. Fault: a read outside native memory or through
      a null pointer, which crashes the process. */
  datatype PayloadError =
    | NegativeLength(length: int64)
    | EmptySegment
    | NegativeArraySize(size: int32)
    | IndexOutOfBounds(index: int32)
    | Fault

  /** The n octets at address p can be read: none are wanted, or p is not
      NULL and they lie in native memory. */
  predicate Readable(heap: seq<byte>, p: nat, n: nat)
  {
    n == 0 || (p != 0 && p + n <= |heap|)
  }

  /** The n octets at address p. */
  function Octets(heap: seq<byte>, p: nat, n: nat): (bs: seq<byte>)
    requires Readable(heap, p, n)
    ensures |bs| == n
    ensures forall i :: 0 <= i < n ==> bs[i] == heap[p + i]
  {
    if n == 0 then [] else heap[p..p + n]
  }

  /** The address of the received packet, read from the event record. */
  function PacketPointer(event: seq<byte>): nat
    requires InBounds(event, EventPacketOffset, PointerBytes)
  {
    LoadUnsigned(event, EventPacketOffset, PointerBytes)
  }

  /** The packet's dataLength member. */
  function DataLength(heap: seq<byte>, packet: nat): (n: int64)
    requires Readable(heap, packet, PacketBytes)
  {
    JavaWidths();
    Load(heap, packet + PacketDataLengthOffset, LongBytes)
  }

  /** The packet's data pointer. */
  function DataPointer(heap: seq<byte>, packet: nat): nat
    requires Readable(heap, packet, PacketBytes)
  {
    LoadUnsigned(heap, packet + PacketDataOffset, PointerBytes)
  }

  /** What dataAsString hands to the String constructor: the dataLength
      octets the packet's data pointer addresses, or why it fails. The
      octets read before a failure do not matter, only whether one of them
      faults. */
  function Payload(event: seq<byte>, heap: seq<byte>): (r: Wrappers.Result<seq<byte>, PayloadError>)
    requires InBounds(event, 0, EventBytes)
    ensures r.Ok? ==> Readable(heap, PacketPointer(event), PacketBytes)
    ensures r.Ok? ==> var p := PacketPointer(event);
      0 < DataLength(heap, p) <= MaxInt
      && |r.value| == DataLength(heap, p)
      && Readable(heap, DataPointer(heap, p), |r.value|)
      && r.value == Octets(heap, DataPointer(heap, p), |r.value|)
    ensures (Readable(heap, PacketPointer(event), PacketBytes)
      && 0 < DataLength(heap, PacketPointer(event)) <= MaxInt
      && Readable(heap, DataPointer(heap, PacketPointer(event)), DataLength(heap, PacketPointer(event))))
      ==> r.Ok?
  {
    var p := PacketPointer(event);
    if !Readable(heap, p, PacketBytes) then Wrappers.Err(Fault)
    else
      var len := DataLength(heap, p);
      var src := DataPointer(heap, p);
      var n := NarrowToInt(len);
      if len < 0 then Wrappers.Err(NegativeLength(len))
      else if len == 0 then Wrappers.Err(EmptySegment)
      else if n < 0 then Wrappers.Err(NegativeArraySize(n))
      else if n < len then
        // the loop reads octet n before the store into data[n] is refused
        if Readable(heap, src, n + 1) then Wrappers.Err(IndexOutOfBounds(n)) else Wrappers.Err(Fault)
      else if Readable(heap, src, n) then Wrappers.Ok(Octets(heap, src, n))
      else Wrappers.Err(Fault)
  }

  /** Lengths the segment or a Java array cannot take fail for a reason
      named after them. */
  lemma PayloadRefusesLength(event: seq<byte>, heap: seq<byte>)
    requires InBounds(event, 0, EventBytes)
    requires Readable(heap, PacketPointer(event), PacketBytes)
    ensures var len := DataLength(heap, PacketPointer(event));
      && (len < 0 ==> Payload(event, heap) == Wrappers.Err(NegativeLength(len)))
      && (len == 0 ==> Payload(event, heap) == Wrappers.Err(EmptySegment))
      && (len > MaxInt ==>
            Payload(event, heap).Err? && Payload(event, heap).error != NegativeLength(len))
  {
  }

  /** Receive.dataAsString, up to the String constructor: a fresh byte
      array of the narrowed length filled by an indexed copy loop. */
  method DataAsString(event: seq<byte>, heap: seq<byte>) returns (r: Wrappers.Result<seq<byte>, PayloadError>)
    requires InBounds(event, 0, EventBytes)
    ensures r == Payload(event, heap)
  {
    var packet := PacketPointer(event);
    if !Readable(heap, packet, PacketBytes) {
      return Wrappers.Err(Fault);
    }
    var packetLength := DataLength(heap, packet);
    var packetDataPtr := DataPointer(heap, packet);
    if packetLength < 0 {
      return Wrappers.Err(NegativeLength(packetLength));
    }
    if packetLength == 0 {
      return Wrappers.Err(EmptySegment);
    }
    var size := NarrowToInt(packetLength);
    if size < 0 {
      return Wrappers.Err(NegativeArraySize(size));
    }
    var data := new byte[size](_ => 0);
    var i: int := 0;
    while i < packetLength
      invariant 0 <= i <= size
      invariant i <= packetLength
      invariant Readable(heap, packetDataPtr, i)
      invariant data[..i] == Octets(heap, packetDataPtr, i)
    {
      if !Readable(heap, packetDataPtr, i + 1) {
        return Wrappers.Err(Fault);
      }
      var octet := heap[packetDataPtr + i];
      if i >= data.Length {
        return Wrappers.Err(IndexOutOfBounds(i));
      }
      data[i] := octet;
      i := i + 1;
    }
    assert i == packetLength == size;
    assert data[..] == data[..i];
    return Wrappers.Ok(data[..]);
  }
}
