/** The Address record and the binding's view of a native host: the
    segment Address.asStruct fills, Host.create's null check,
    Host.address() reading the host's own copy of its address, and the
    checksum slot setChecksumCallbackToCRC32 writes. Native memory is a
    sequence of octets indexed by address; a host is the address of its
    _ENetHost record in it. */
module Hosts {
  import opened Wrappers
  import opened Memory
  import opened Records
  import Layout

  /** Address(int host, short port). */
  datatype Address = Address(host: int32, port: int16)

  /** Width in bytes of the host and port carriers (C int, C short). */
  const HostNumberBytes: nat := Layout.CarrierBytes(Layout.CInt, Layout.LP64)
  const PortBytes: nat := Layout.CarrierBytes(Layout.CShort, Layout.LP64)

  /** What an Address record holds once both fields are written into a
      zero-filled segment of Address.LAYOUT's size. */
  function AddressImage(a: Address): (bs: seq<byte>)
    ensures |bs| == AddressBytes
  {
    JavaWidths();
    var withHost := Store(Zeros(AddressBytes), AddressHostOffset, HostNumberBytes, a.host);
    Store(withHost, AddressPortOffset, PortBytes, a.port)
  }

  /** The Address whose fields lie in the record that starts at base. */
  function ReadAddress(mem: seq<byte>, base: nat): (a: Address)
    requires InBounds(mem, base, AddressBytes)
  {
    JavaWidths();
    Address(Load(mem, base + AddressHostOffset, HostNumberBytes),
            Load(mem, base + AddressPortOffset, PortBytes))
  }

  /** Reading the image back yields the address: the two fields neither
      overlap nor lose bits. */
  lemma AddressRoundTrip(a: Address)
    ensures ReadAddress(AddressImage(a), 0) == a
  {
    JavaWidths();
    var withHost := Store(Zeros(AddressBytes), AddressHostOffset, HostNumberBytes, a.host);
    LoadStore(Zeros(AddressBytes), AddressHostOffset, HostNumberBytes, a.host);
    SpliceElsewhere(withHost, AddressPortOffset, EncodeLE(ToUnsigned(a.port, PortBytes), PortBytes),
                    AddressHostOffset, HostNumberBytes);
    LoadStore(withHost, AddressPortOffset, PortBytes, a.port);
  }

  /** Distinct addresses have distinct images. */
  lemma AddressImageInjective(a: Address, b: Address)
    requires AddressImage(a) == AddressImage(b)
    ensures a == b
  {
    AddressRoundTrip(a);
    AddressRoundTrip(b);
  }

  /** Address.asStruct: a fresh zero-filled segment with host and port set
      through their var handles. */
  method AsStruct(a: Address) returns (segment: array<byte>)
    ensures fresh(segment)
    ensures segment[..] == AddressImage(a)
  {
    JavaWidths();
    segment := new byte[AddressBytes](_ => 0);
    assert segment[..] == Zeros(AddressBytes);
    Write(segment, AddressHostOffset, HostNumberBytes, a.host);
    Write(segment, AddressPortOffset, PortBytes, a.port);
  }

  /** A host: the address of its native _ENetHost record. */
  datatype Host = Host(handle: nat)

  /** The arguments Host.create hands to enet_host_create: the address
      segment's contents, then the peer count, the channel limit and the
      two bandwidths. */
  datatype CreateArgs = CreateArgs(
    address: seq<byte>,
    peerCount: int64,
    channelLimit: int64,
    incomingBandwidth: int32,
    outgoingBandwidth: int32)

  datatype CreateError = NullHost

  /** Host.create. The native call is the parameter enetHostCreate, which
      answers the address of the new host or 0 (NULL). */
  method Create(a: Address, peerCount: int64, channelLimit: int64,
                incomingBandwidth: int32, outgoingBandwidth: int32,
                enetHostCreate: CreateArgs -> nat)
    returns (r: Result<Host, CreateError>, args: CreateArgs)
    ensures args == CreateArgs(AddressImage(a), peerCount, channelLimit, incomingBandwidth, outgoingBandwidth)
    ensures r.Ok? <==> enetHostCreate(args) != 0
    ensures r.Ok? ==> r.value == Host(enetHostCreate(args))
    ensures r.Err? ==> r.error == NullHost
  {
    var addressPointer := AsStruct(a);
    args := CreateArgs(addressPointer[..], peerCount, channelLimit, incomingBandwidth, outgoingBandwidth);
    var hostAddress := enetHostCreate(args);
    if hostAddress == 0 {
      r := Err(NullHost);
    } else {
      r := Ok(Host(hostAddress));
    }
  }

  /** The host's record lies wholly inside native memory. */
  predicate HostInMemory(mem: seq<byte>, h: Host)
  {
    InBounds(mem, h.handle, HostBytes)
  }

  /** Host.address(): the host number and port of the host's own address
      member, read at their offsets in Host.LAYOUT. */
  function HostAddress(mem: seq<byte>, h: Host): (a: Address)
    requires HostInMemory(mem, h)
    ensures a.host == Load(mem, h.handle + HostAddressHostOffset, HostNumberBytes)
    ensures a.port == Load(mem, h.handle + HostAddressPortOffset, PortBytes)
  {
    ReadAddress(mem, h.handle + HostAddressHostOffset)
  }

  /** enet_host_create copies the address record it is given into the host.
      When the address member holds the image asStruct produced, Host.address()
      returns the address the host was created with. */
  lemma HostAddressAfterCreate(mem: seq<byte>, h: Host, a: Address)
    requires HostInMemory(mem, h)
    requires mem[h.handle + HostAddressHostOffset..h.handle + HostAddressHostOffset + AddressBytes] == AddressImage(a)
    ensures HostAddress(mem, h) == a
  {
    var base := h.handle + HostAddressHostOffset;
    AddressRoundTrip(a);
    WindowRange(mem, base, AddressBytes, AddressHostOffset, HostNumberBytes);
    WindowRange(mem, base, AddressBytes, AddressPortOffset, PortBytes);
    var img := AddressImage(a);
    assert img[AddressHostOffset..AddressHostOffset + HostNumberBytes]
      == mem[base + AddressHostOffset..base + AddressHostOffset + HostNumberBytes];
    assert img[AddressPortOffset..AddressPortOffset + PortBytes]
      == mem[base + AddressPortOffset..base + AddressPortOffset + PortBytes];
  }

  /** Width in bytes of the checksum slot, a C pointer written as a Java
      long. */
  const ChecksumBytes: nat := Layout.CarrierBytes(Layout.CPointer, Layout.LP64)

  /** The native memory after setChecksumCallbackToCRC32 stores the raw
      address of enet_crc32 in the host's checksum slot. */
  function WithChecksum(mem: seq<byte>, h: Host, crc32: int64): (m: seq<byte>)
    requires HostInMemory(mem, h)
    ensures |m| == |mem|
  {
    JavaWidths();
    Store(mem, h.handle + HostChecksumOffset, ChecksumBytes, crc32)
  }

  /** After the write the checksum slot holds the callback's address and
      Host.address() still answers what it did before. */
  lemma WithChecksumEffect(mem: seq<byte>, h: Host, crc32: int64)
    requires HostInMemory(mem, h)
    ensures HostInMemory(WithChecksum(mem, h, crc32), h)
    ensures Load(WithChecksum(mem, h, crc32), h.handle + HostChecksumOffset, ChecksumBytes) == crc32
    ensures HostAddress(WithChecksum(mem, h, crc32), h) == HostAddress(mem, h)
  {
    JavaWidths();
    var at := h.handle + HostChecksumOffset;
    var bs := EncodeLE(ToUnsigned(crc32, ChecksumBytes), ChecksumBytes);
    LoadStore(mem, at, ChecksumBytes, crc32);
    SpliceElsewhere(mem, at, bs, h.handle + HostAddressHostOffset, HostNumberBytes);
    SpliceElsewhere(mem, at, bs, h.handle + HostAddressPortOffset, PortBytes);
  }

  /** setChecksumCallbackToCRC32 on native memory held in an array. */
  method SetChecksumCallbackToCRC32(mem: array<byte>, h: Host, crc32: int64)
    requires HostInMemory(mem[..], h)
    modifies mem
    ensures mem[..] == WithChecksum(old(mem[..]), h, crc32)
  {
    JavaWidths();
    Write(mem, h.handle + HostChecksumOffset, ChecksumBytes, crc32);
  }
}
