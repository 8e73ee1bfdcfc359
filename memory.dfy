/** Native memory as a sequence of octets, and the scalar loads and stores the
    binding performs through var handles and MemoryAccess: little-endian
    (the native order of the targets), two's complement for signed carriers. */
module Memory {

  /** One raw octet of native memory. */
  type byte = x: int | 0 <= x < 256

  function Pow256(n: nat): (r: nat)
    ensures r >= 1
  {
    if n == 0 then 1 else 256 * Pow256(n - 1)
  }

  /** Half of the range of an n-byte integer: the first value a signed n-byte
      carrier cannot hold. */
  function Half(n: nat): (r: nat)
    requires n > 0
    ensures 2 * r == Pow256(n)
  {
    128 * Pow256(n - 1)
  }

  /** v fits an n-byte two's complement carrier (Java byte, short, int, long). */
  predicate InSigned(v: int, n: nat)
  {
    n > 0 && -(Half(n) as int) <= v < Half(n)
  }

  /** u fits an n-byte unsigned carrier (a native address). */
  predicate InUnsigned(u: int, n: nat)
  {
    0 <= u < Pow256(n)
  }

  /** Little-endian encoding of u in n octets (the low n octets when u is larger). */
  function EncodeLE(u: nat, n: nat): (bs: seq<byte>)
    ensures |bs| == n
  {
    if n == 0 then [] else [u % 256] + EncodeLE(u / 256, n - 1)
  }

  function DecodeLE(bs: seq<byte>): (u: nat)
    ensures u < Pow256(|bs|)
  {
    if bs == [] then 0 else bs[0] + 256 * DecodeLE(bs[1..])
  }

  lemma {:induction false} DecodeEncode(u: nat, n: nat)
    requires u < Pow256(n)
    ensures DecodeLE(EncodeLE(u, n)) == u
  {
    if n > 0 {
      var bs := EncodeLE(u, n);
      assert bs[1..] == EncodeLE(u / 256, n - 1);
      DecodeEncode(u / 256, n - 1);
    }
  }

  /** Java short, int and long values. */
  type int16 = x: int | -0x8000 <= x < 0x8000
  type int32 = x: int | -0x8000_0000 <= x < 0x8000_0000
  type int64 = x: int | -0x8000_0000_0000_0000 <= x < 0x8000_0000_0000_0000

  /** The signed carriers of 2, 4 and 8 bytes hold exactly the Java short,
      int and long values. */
  lemma JavaWidths()
    ensures Half(2) == 0x8000 && Pow256(2) == 0x1_0000
    ensures Half(4) == 0x8000_0000 && Pow256(4) == 0x1_0000_0000
    ensures Half(8) == 0x8000_0000_0000_0000 && Pow256(8) == 0x1_0000_0000_0000_0000
  {
  }

  /** Two's complement: the bit pattern, read as unsigned, of a signed value. */
  function ToUnsigned(v: int, n: nat): (u: nat)
    requires InSigned(v, n)
    ensures InUnsigned(u, n)
  {
    if v < 0 then v + Pow256(n) else v
  }

  function ToSigned(u: nat, n: nat): (v: int)
    requires n > 0 && InUnsigned(u, n)
    ensures InSigned(v, n)
    ensures ToUnsigned(v, n) == u
  {
    if u < Half(n) then u else u - Pow256(n)
  }

  /** Java's (int) cast of a long: the low 32 bits, read as signed. */
  function NarrowToInt(v: int): (r: int32)
    ensures (r - v) % 0x1_0000_0000 == 0
    ensures -0x8000_0000 <= v < 0x8000_0000 ==> r == v
  {
    var low := v % 0x1_0000_0000;
    if low < 0x8000_0000 then low else low - 0x1_0000_0000
  }

  /** The n octets at off can be accessed. */
  predicate InBounds(mem: seq<byte>, off: nat, n: nat)
  {
    off + n <= |mem|
  }

  /** MemoryAccess.getXAtOffset for a signed carrier of n bytes. */
  function Load(mem: seq<byte>, off: nat, n: nat): (v: int)
    requires n > 0 && InBounds(mem, off, n)
    ensures InSigned(v, n)
  {
    ToSigned(DecodeLE(mem[off..off + n]), n)
  }

  /** MemoryAccess.getAddressAtOffset: an address is read as unsigned. */
  function LoadUnsigned(mem: seq<byte>, off: nat, n: nat): (u: nat)
    requires InBounds(mem, off, n)
    ensures InUnsigned(u, n)
  {
    DecodeLE(mem[off..off + n])
  }

  /** Replace the octets at off by bs; everything else is kept. */
  function Splice(mem: seq<byte>, off: nat, bs: seq<byte>): (m: seq<byte>)
    requires InBounds(mem, off, |bs|)
    ensures |m| == |mem|
    ensures m[off..off + |bs|] == bs
    ensures forall i :: 0 <= i < |mem| && !(off <= i < off + |bs|) ==> m[i] == mem[i]
  {
    var m := mem[..off] + bs + mem[off + |bs|..];
    assert m[off..off + |bs|] == bs;
    m
  }

  /** A var handle set of a signed carrier of n bytes. */
  function Store(mem: seq<byte>, off: nat, n: nat, v: int): (m: seq<byte>)
    requires InSigned(v, n) && InBounds(mem, off, n)
    ensures |m| == |mem|
  {
    Splice(mem, off, EncodeLE(ToUnsigned(v, n), n))
  }

  /** Reading back a signed store gives the stored value. */
  lemma LoadStore(mem: seq<byte>, off: nat, n: nat, v: int)
    requires InSigned(v, n) && InBounds(mem, off, n)
    ensures Load(Store(mem, off, n, v), off, n) == v
  {
    var u := ToUnsigned(v, n);
    DecodeEncode(u, n);
  }

  /** Writing octets that do not overlap [off, off + n) leaves that range as it was. */
  lemma SpliceElsewhere(mem: seq<byte>, at: nat, bs: seq<byte>, off: nat, n: nat)
    requires InBounds(mem, at, |bs|) && InBounds(mem, off, n)
    requires at + |bs| <= off || off + n <= at
    ensures Splice(mem, at, bs)[off..off + n] == mem[off..off + n]
  {
    var m := Splice(mem, at, bs);
    assert forall j :: off <= j < off + n ==> m[j] == mem[j];
  }

  /** Reading a range through a window that starts at base is reading it in place. */
  lemma WindowRange(mem: seq<byte>, base: nat, len: nat, off: nat, n: nat)
    requires base + len <= |mem| && off + n <= len
    ensures mem[base..base + len][off..off + n] == mem[base + off..base + off + n]
  {
    var w := mem[base..base + len];
    assert forall j :: off <= j < off + n ==> w[j] == mem[base + j];
  }

  /** A freshly allocated native segment of n octets is zero-filled. */
  function Zeros(n: nat): (z: seq<byte>)
    ensures |z| == n && forall i :: 0 <= i < n ==> z[i] == 0
  {
    seq(n, _ => 0)
  }

  /** The imperative form of a var handle set: the octets of the encoding are
      written into the segment in one parallel update. */
  method Write(seg: array<byte>, off: nat, n: nat, v: int)
    requires InSigned(v, n) && InBounds(seg[..], off, n)
    modifies seg
    ensures seg[..] == Store(old(seg[..]), off, n, v)
  {
    var bs := EncodeLE(ToUnsigned(v, n), n);
    forall k | 0 <= k < n {
      seg[off + k] := bs[k];
    }
    assert seg[..] == Store(old(seg[..]), off, n, v);
  }
}
