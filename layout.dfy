/** A layout algebra for native records, in the shape of the foreign-memory
    API the binding declares its records with: value layouts of the C
    carriers, explicit padding, structs (members laid end to end, no
    implicit padding), unions (all arms at offset 0) and sequences
    (count copies of one element). Sizes and offsets are in bits, as in the
    API; the byte forms fail when a bit count is not a multiple of 8. */
module Layout {
  import opened Wrappers

  /** The two widths the binding's layouts depend on. */
  datatype Abi = Abi(pointerBytes: nat, longBytes: nat)

  /** 64-bit Linux and macOS: 8-byte pointers, 8-byte C long. */
  const LP64: Abi := Abi(8, 8)
  /** 64-bit Windows: 8-byte pointers, 4-byte C long. */
  const LLP64: Abi := Abi(8, 4)
  /** 32-bit targets: 4-byte pointers, 4-byte C long. */
  const ILP32: Abi := Abi(4, 4)

  /** The carriers CLinker names: C_CHAR, C_SHORT, C_INT, C_LONG, C_POINTER. */
  datatype Carrier = CChar | CShort | CInt | CLong | CPointer

  function CarrierBytes(c: Carrier, abi: Abi): nat
  {
    match c
    case CChar => 1
    case CShort => 2
    case CInt => 4
    case CLong => abi.longBytes
    case CPointer => abi.pointerBytes
  }

  /** A layout name, as given by withName. */
  datatype Name = Anonymous | Named(text: string)

  datatype Layout =
    | Value(carrier: Carrier, name: Name)
    | Padding(bits: nat)
    | Struct(members: seq<Layout>, name: Name)
    | Union(members: seq<Layout>, name: Name)
    | Sequence(count: nat, element: Layout, name: Name)

  /** MemoryLayout.PathElement: groupElement(name) and sequenceElement(index). */
  datatype PathElement = GroupElement(member: string) | SequenceElement(index: nat)

  function NameOf(l: Layout): Name
  {
    if l.Padding? then Anonymous else l.name
  }

  /** withName: the same layout under a new name. The model gives padding
      no name, since the binding never names a padding layout. */
  function WithName(l: Layout, n: string): (r: Layout)
    ensures !l.Padding? ==> NameOf(r) == Named(n)
    ensures forall abi :: BitSize(r, abi) == BitSize(l, abi)
  {
    match l
    case Value(c, _) => Value(c, Named(n))
    case Padding(_) => l
    case Struct(ms, _) => Struct(ms, Named(n))
    case Union(ms, _) => Union(ms, Named(n))
    case Sequence(k, e, _) => Sequence(k, e, Named(n))
  }

  /** The bit size of a layout. */
  function BitSize(l: Layout, abi: Abi): nat
    decreases l, 1
  {
    match l
    case Value(c, _) => 8 * CarrierBytes(c, abi)
    case Padding(b) => b
    case Struct(ms, _) => PrefixBits(ms, |ms|, abi)
    case Union(ms, _) => MaxBits(ms, |ms|, abi)
    case Sequence(n, e, _) => n * BitSize(e, abi)
  }

  /** Sum of the sizes of the first i members: where member i of a struct
      begins, and for i = |ms| the size of the struct. */
  function PrefixBits(ms: seq<Layout>, i: nat, abi: Abi): nat
    requires i <= |ms|
    decreases ms, 0, i
  {
    if i == 0 then 0 else PrefixBits(ms, i - 1, abi) + BitSize(ms[i - 1], abi)
  }

  /** Largest size among the first i members; for i = |ms| the size of a
      union. */
  function MaxBits(ms: seq<Layout>, i: nat, abi: Abi): nat
    requires i <= |ms|
    decreases ms, 0, i
  {
    if i == 0 then 0
    else
      var m := MaxBits(ms, i - 1, abi);
      var b := BitSize(ms[i - 1], abi);
      if b > m then b else m
  }

  /** Index of the first member at or after position i carrying the name. */
  function IndexFrom(ms: seq<Layout>, member: string, i: nat): (r: Option<nat>)
    requires i <= |ms|
    ensures r.Some? ==> i <= r.value < |ms| && NameOf(ms[r.value]) == Named(member)
    ensures r.Some? ==> forall j :: i <= j < r.value ==> NameOf(ms[j]) != Named(member)
    ensures r.None? ==> forall j :: i <= j < |ms| ==> NameOf(ms[j]) != Named(member)
    decreases |ms| - i
  {
    if i == |ms| then None
    else if NameOf(ms[i]) == Named(member) then Some(i)
    else IndexFrom(ms, member, i + 1)
  }

  /** Index of the first member carrying the name, as a groupElement path
      resolves it. */
  function IndexOf(ms: seq<Layout>, member: string): Option<nat>
  {
    IndexFrom(ms, member, 0)
  }

  /** The layout a path selects, or None when the path does not resolve. */
  function Select(l: Layout, path: seq<PathElement>): Option<Layout>
    decreases path
  {
    if path == [] then Some(l)
    else match (l, path[0])
      case (Struct(ms, _), GroupElement(n)) =>
        (match IndexOf(ms, n)
         case None => None
         case Some(i) => Select(ms[i], path[1..]))
      case (Union(ms, _), GroupElement(n)) =>
        (match IndexOf(ms, n)
         case None => None
         case Some(i) => Select(ms[i], path[1..]))
      case (Sequence(count, e, _), SequenceElement(k)) =>
        if k < count then Select(e, path[1..]) else None
      case _ => None
  }

  /** LayoutPath bit offset: a struct member sits after the members declared
      before it, a union arm at 0, sequence element k at k element sizes. */
  function BitOffset(l: Layout, path: seq<PathElement>, abi: Abi): Option<nat>
    decreases path
  {
    if path == [] then Some(0)
    else match (l, path[0])
      case (Struct(ms, _), GroupElement(n)) =>
        (match IndexOf(ms, n)
         case None => None
         case Some(i) =>
           match BitOffset(ms[i], path[1..], abi)
           case None => None
           case Some(o) => Some(PrefixBits(ms, i, abi) + o))
      case (Union(ms, _), GroupElement(n)) =>
        (match IndexOf(ms, n)
         case None => None
         case Some(i) => BitOffset(ms[i], path[1..], abi))
      case (Sequence(count, e, _), SequenceElement(k)) =>
        if k < count then
          match BitOffset(e, path[1..], abi)
          case None => None
          case Some(o) => Some(k * BitSize(e, abi) + o)
        else None
      case _ => None
  }

  /** Renaming moves nothing: every path has the same offset in the renamed
      layout as in the original, and every non-empty path selects the same
      member. */
  lemma WithNameKeepsPaths(l: Layout, n: string, path: seq<PathElement>, abi: Abi)
    ensures path != [] ==> Select(WithName(l, n), path) == Select(l, path)
    ensures BitOffset(WithName(l, n), path, abi) == BitOffset(l, path, abi)
  {
  }

  /** byteSize(): fails when the bit size is not a whole number of bytes. */
  function ByteSize(l: Layout, abi: Abi): (r: Option<nat>)
    ensures r.Some? <==> BitSize(l, abi) % 8 == 0
    ensures r.Some? ==> 8 * r.value == BitSize(l, abi)
  {
    var b := BitSize(l, abi);
    if b % 8 == 0 then Some(b / 8) else None
  }

  /** byteOffset(path): fails when the path does not resolve or the bit
      offset is not a whole number of bytes. */
  function ByteOffset(l: Layout, path: seq<PathElement>, abi: Abi): (r: Option<nat>)
    ensures r.Some? <==> BitOffset(l, path, abi).Some? && BitOffset(l, path, abi).value % 8 == 0
    ensures r.Some? ==> 8 * r.value == BitOffset(l, path, abi).value
  {
    match BitOffset(l, path, abi)
    case None => None
    case Some(b) => if b % 8 == 0 then Some(b / 8) else None
  }

  // ---------------------------------------------------------------------
  // Properties of the algebra, for every ABI

  /** A path has an offset exactly when it selects a member. */
  lemma {:induction false} OffsetIffSelect(l: Layout, path: seq<PathElement>, abi: Abi)
    ensures BitOffset(l, path, abi).Some? <==> Select(l, path).Some?
    decreases path
  {
    if path != [] {
      match (l, path[0])
      case (Struct(ms, _), GroupElement(n)) =>
        if IndexOf(ms, n).Some? { OffsetIffSelect(ms[IndexOf(ms, n).value], path[1..], abi); }
      case (Union(ms, _), GroupElement(n)) =>
        if IndexOf(ms, n).Some? { OffsetIffSelect(ms[IndexOf(ms, n).value], path[1..], abi); }
      case (Sequence(count, e, _), SequenceElement(k)) =>
        OffsetIffSelect(e, path[1..], abi);
      case _ =>
    }
  }

  /** No implicit padding: member i of a struct ends exactly where member
      i + 1 begins. */
  lemma StructContiguous(ms: seq<Layout>, i: nat, abi: Abi)
    requires i < |ms|
    ensures PrefixBits(ms, i + 1, abi) == PrefixBits(ms, i, abi) + BitSize(ms[i], abi)
  {
  }

  lemma {:induction false} PrefixMonotone(ms: seq<Layout>, i: nat, j: nat, abi: Abi)
    requires i <= j <= |ms|
    ensures PrefixBits(ms, i, abi) <= PrefixBits(ms, j, abi)
    decreases j - i
  {
    if i < j {
      PrefixMonotone(ms, i, j - 1, abi);
    }
  }

  /** Struct members never overlap: a member declared earlier ends before a
      later one begins. */
  lemma {:induction false} StructMembersDisjoint(ms: seq<Layout>, i: nat, j: nat, abi: Abi)
    requires i < j < |ms|
    ensures PrefixBits(ms, i, abi) + BitSize(ms[i], abi) <= PrefixBits(ms, j, abi)
  {
    assert PrefixBits(ms, i + 1, abi) == PrefixBits(ms, i, abi) + BitSize(ms[i], abi);
    PrefixMonotone(ms, i + 1, j, abi);
  }

  /** Every member lies inside its struct. */
  lemma {:induction false} StructMemberFits(ms: seq<Layout>, nm: Name, i: nat, abi: Abi)
    requires i < |ms|
    ensures PrefixBits(ms, i, abi) + BitSize(ms[i], abi) <= BitSize(Struct(ms, nm), abi)
  {
    PrefixMonotone(ms, i + 1, |ms|, abi);
  }

  /** Every one of the first n arms is no larger than MaxBits over them. */
  lemma {:induction false} MaxBitsBounds(ms: seq<Layout>, n: nat, i: nat, abi: Abi)
    requires i < n <= |ms|
    ensures BitSize(ms[i], abi) <= MaxBits(ms, n, abi)
    decreases n
  {
    if i < n - 1 {
      MaxBitsBounds(ms, n - 1, i, abi);
    }
  }

  /** Every arm of a union fits in it. */
  lemma {:induction false} UnionArmFits(ms: seq<Layout>, nm: Name, i: nat, abi: Abi)
    requires i < |ms|
    ensures BitSize(ms[i], abi) <= BitSize(Union(ms, nm), abi)
  {
    MaxBitsBounds(ms, |ms|, i, abi);
  }

  lemma {:induction false} MaxBitsAttained(ms: seq<Layout>, n: nat, abi: Abi) returns (k: nat)
    requires 0 < n <= |ms|
    ensures k < n && BitSize(ms[k], abi) == MaxBits(ms, n, abi)
    decreases n
  {
    if n == 1 || BitSize(ms[n - 1], abi) > MaxBits(ms, n - 1, abi) {
      k := n - 1;
    } else {
      k := MaxBitsAttained(ms, n - 1, abi);
    }
  }

  /** The size of a non-empty union is the size of one of its arms: the largest. */
  lemma UnionSizeIsAnArm(ms: seq<Layout>, nm: Name, abi: Abi) returns (k: nat)
    requires ms != []
    ensures k < |ms| && BitSize(ms[k], abi) == BitSize(Union(ms, nm), abi)
  {
    k := MaxBitsAttained(ms, |ms|, abi);
  }

  lemma {:induction false} MulMonotone(k: nat, n: nat, s: nat)
    requires k < n
    ensures k * s + s <= n * s
    decreases n
  {
    if k + 1 < n {
      MulMonotone(k, n - 1, s);
    }
  }

  /** Whatever a resolving path selects lies inside the layout. */
  lemma {:induction false} OffsetWithin(l: Layout, path: seq<PathElement>, abi: Abi)
    requires BitOffset(l, path, abi).Some?
    ensures Select(l, path).Some?
    ensures BitOffset(l, path, abi).value + BitSize(Select(l, path).value, abi) <= BitSize(l, abi)
    decreases path
  {
    if path != [] {
      match (l, path[0])
      case (Struct(ms, _), GroupElement(n)) =>
        var i := IndexOf(ms, n).value;
        OffsetWithin(ms[i], path[1..], abi);
        StructMemberFits(ms, l.name, i, abi);
      case (Union(ms, _), GroupElement(n)) =>
        var i := IndexOf(ms, n).value;
        OffsetWithin(ms[i], path[1..], abi);
        UnionArmFits(ms, l.name, i, abi);
      case (Sequence(count, e, _), SequenceElement(k)) =>
        OffsetWithin(e, path[1..], abi);
        MulMonotone(k, count, BitSize(e, abi));
    }
  }

  /** Offsets compose: the offset of p + q is the offset of p plus the offset
      of q inside what p selects. */
  lemma {:induction false} OffsetCompose(l: Layout, p: seq<PathElement>, q: seq<PathElement>, abi: Abi)
    requires BitOffset(l, p, abi).Some?
    ensures Select(l, p).Some?
    ensures BitOffset(l, p + q, abi) ==
      match BitOffset(Select(l, p).value, q, abi)
      case None => None
      case Some(o) => Some(BitOffset(l, p, abi).value + o)
    decreases p
  {
    OffsetIffSelect(l, p, abi);
    if p == [] {
      assert p + q == q;
    } else {
      assert (p + q)[0] == p[0] && (p + q)[1..] == p[1..] + q;
      match (l, p[0])
      case (Struct(ms, _), GroupElement(n)) =>
        OffsetCompose(ms[IndexOf(ms, n).value], p[1..], q, abi);
      case (Union(ms, _), GroupElement(n)) =>
        OffsetCompose(ms[IndexOf(ms, n).value], p[1..], q, abi);
      case (Sequence(count, e, _), SequenceElement(k)) =>
        OffsetCompose(e, p[1..], q, abi);
    }
  }

  /** A groupElement step into a struct goes to the first member of that
      name, which begins where the members declared before it end. */
  lemma MemberOffset(ms: seq<Layout>, nm: Name, i: nat, path: seq<PathElement>, abi: Abi)
    requires |path| > 0 && path[0].GroupElement?
    requires i < |ms| && NameOf(ms[i]) == Named(path[0].member)
    requires forall j :: 0 <= j < i ==> NameOf(ms[j]) != Named(path[0].member)
    requires BitOffset(ms[i], path[1..], abi).Some?
    ensures BitOffset(Struct(ms, nm), path, abi)
      == Some(PrefixBits(ms, i, abi) + BitOffset(ms[i], path[1..], abi).value)
  {
    assert IndexOf(ms, path[0].member) == Some(i);
  }

  /** A union is exactly as large as its largest arm. */
  lemma UnionLargestArm(ms: seq<Layout>, nm: Name, k: nat, abi: Abi)
    requires k < |ms|
    requires forall j :: 0 <= j < |ms| ==> BitSize(ms[j], abi) <= BitSize(ms[k], abi)
    ensures BitSize(Union(ms, nm), abi) == BitSize(ms[k], abi)
  {
    var m := UnionSizeIsAnArm(ms, nm, abi);
    UnionArmFits(ms, nm, k, abi);
  }
}
