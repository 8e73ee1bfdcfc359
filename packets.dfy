/** Packet, its Flag enum, and the flag word Peer.send folds out of a
    packet's flags. */
module Packets {
  import opened Memory

  /** Packet.Flag, in declaration order. */
  datatype Flag = Reliable | Unsequenced

  /** Flag.bit(). */
  function Bit(f: Flag): (b: bv32)
    ensures b != 0 && b & (b - 1) == 0
  {
    match f
    case Reliable => 0x01
    case Unsequenced => 0x10
  }

  /** The two flags occupy different bits. */
  lemma BitsDistinct(f: Flag, g: Flag)
    ensures Bit(f) & Bit(g) != 0 <==> f == g
  {
  }

  /** EnumSet<Flag>: a mutable set of flags, shared by whoever holds it. */
  class FlagSet {
    var elements: set<Flag>

    constructor(elements: set<Flag>)
      ensures this.elements == elements
    {
      this.elements := elements;
    }

    /** EnumSet.copyOf: a new set with the same flags. */
    method Copy() returns (r: FlagSet)
      ensures fresh(r) && r.elements == elements
    {
      r := new FlagSet(elements);
    }
  }

  /** Packet: the data array and the flag set it was built from, both held
      by reference; the accessors hand out copies. */
  class Packet {
    const data: array<byte>
    const flags: FlagSet

    /** The constructor keeps the caller's array and set, not copies of them. */
    constructor(data: array<byte>, flags: FlagSet)
      ensures this.data == data && this.flags == flags
    {
      this.data := data;
      this.flags := flags;
    }

    /** Packet.create: the constructor, so the packet shares the caller's
        array and set. */
    static method Create(data: array<byte>, flags: FlagSet) returns (p: Packet)
      ensures fresh(p) && p.data == data && p.flags == flags
    {
      p := new Packet(data, flags);
    }

    /** data(): Arrays.copyOf, a new array with the same octets. */
    method Data() returns (r: array<byte>)
      ensures fresh(r) && r[..] == data[..]
    {
      r := new byte[data.Length](i reads data requires 0 <= i < data.Length => data[i]);
    }

    /** flags(): EnumSet.copyOf. */
    method Flags() returns (r: FlagSet)
      ensures fresh(r) && r.elements == flags.elements
    {
      r := flags.Copy();
    }
  }

  /** The flags of a set in the order an EnumSet's stream yields them:
      declaration order, each once. */
  function InOrder(s: set<Flag>): (r: seq<Flag>)
    ensures forall f :: f in r <==> f in s
    ensures forall i, j :: 0 <= i < j < |r| ==> r[i] == Reliable && r[j] == Unsequenced
  {
    assert forall f :: f in s ==> f == Reliable || f == Unsequenced;
    if Reliable in s && Unsequenced in s then [Reliable, Unsequenced]
    else if Reliable in s then [Reliable]
    else if Unsequenced in s then [Unsequenced]
    else []
  }

  /** The fold in Peer.send as written: reduce(0, (a, b) -> a & b.bit()). */
  function FoldAnd(fs: seq<Flag>): bv32
    decreases |fs|
  {
    if fs == [] then 0 else FoldAnd(fs[..|fs| - 1]) & Bit(fs[|fs| - 1])
  }

  /** Starting from 0, the and-fold never sets a bit: every packet is sent
      with no flags, whatever flags it has. */
  lemma {:induction false} FoldAndIsZero(fs: seq<Flag>)
    ensures FoldAnd(fs) == 0
    decreases |fs|
  {
    if fs != [] {
      FoldAndIsZero(fs[..|fs| - 1]);
    }
  }

  /** A reliable packet loses its reliable bit. */
  lemma ReliableIsDropped()
    ensures Reliable in InOrder({Reliable}) && Bit(Reliable) == 0x01
    ensures FoldAnd(InOrder({Reliable})) == 0
  {
    FoldAndIsZero(InOrder({Reliable}));
  }

  /** The flag word the fold was evidently meant to build: the bits of the
      flags, or-ed together. */
  function FoldOr(fs: seq<Flag>): bv32
    decreases |fs|
  {
    if fs == [] then 0 else FoldOr(fs[..|fs| - 1]) | Bit(fs[|fs| - 1])
  }

  /** The or-fold sets exactly the bits of the flags folded, and no other. */
  lemma {:induction false} FoldOrBits(fs: seq<Flag>)
    ensures forall f :: FoldOr(fs) & Bit(f) != 0 <==> f in fs
    ensures FoldOr(fs) & !(Bit(Reliable) | Bit(Unsequenced)) == 0
    decreases |fs|
  {
    if fs != [] {
      var init := fs[..|fs| - 1];
      FoldOrBits(init);
      assert fs == init + [fs[|fs| - 1]];
      forall f
        ensures FoldOr(fs) & Bit(f) != 0 <==> f in fs
      {
        BitsDistinct(f, fs[|fs| - 1]);
      }
    }
  }

  /** The flags a flag word names. */
  function FlagsOf(b: bv32): set<Flag>
  {
    (if b & Bit(Reliable) != 0 then {Reliable} else {})
      + (if b & Bit(Unsequenced) != 0 then {Unsequenced} else {})
  }

  /** The corrected flag word of a packet's flags. */
  function FlagBits(s: set<Flag>): bv32
  {
    FoldOr(InOrder(s))
  }

  /** The corrected word loses no flag and adds none: decoding it gives back
      the set. */
  lemma FlagBitsRoundTrip(s: set<Flag>)
    ensures FlagsOf(FlagBits(s)) == s
  {
    FoldOrBits(InOrder(s));
  }

  /** Peer.send: it builds the flag word with the as-written fold and copies
      the data, and passes neither anywhere. */
  method Send(packet: Packet) returns (bitFlags: bv32, data: array<byte>)
    ensures bitFlags == FoldAnd(InOrder(packet.flags.elements)) == 0
    ensures fresh(data) && data[..] == packet.data[..]
  {
    var flags := packet.Flags();
    bitFlags := FoldAnd(InOrder(flags.elements));
    FoldAndIsZero(InOrder(flags.elements));
    data := packet.Data();
  }
}
