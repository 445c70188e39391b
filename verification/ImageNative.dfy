/** Native data of the image: fields, methods, interface method tables and
    their conflict tables, placed bin by bin as classes are reached. */
module ImageNative {
  import opened Util
  import opened ImageBins
  import D = DexCacheLayout

  /** What the writer finds behind a class, an interface method table, a
      runtime method and a conflict table. Null and boot image pointers are
      `None`. */
  datatype ClassData = ClassData(
    staticFields: Option<nat>, instanceFields: Option<nat>,  // lengths of the two arrays
    dirty: seq<bool>,                                        // WillMethodBeDirty, method by method
    imt: Option<nat>)

  datatype NativeHeap = NativeHeap(
    ptr: PointerSize,
    imtMethods: nat -> seq<Option<nat>>,   // runtime methods of a table
    conflictTable: nat -> Option<nat>,     // of a runtime method
    conflictEntries: nat -> nat,
    dexCounts: nat -> D.Counts,            // of a dex file
    dexFiles: seq<(nat, nat)>)             // the dex files, each with its image
  {
    ghost predicate Valid(images: nat) {
      && (forall i :: 0 <= i < |dexFiles| ==> dexFiles[i].1 < images)
      && (forall i, j :: 0 <= i < j < |dexFiles| ==> dexFiles[i].0 != dexFiles[j].0)
    }
  }

  /** The pointers that key the relocation map. */
  datatype Ptr =
    | FieldArray(klass: nat, which: bool)
    | Field(klass: nat, which: bool, i: nat)
    | MethodArray(klass: nat)
    | Method(klass: nat, i: nat)
    | ImTable(id: nat)
    | ConflictTable(id: nat)
    | RuntimeMethod(id: nat)
    | DexCacheArray(file: nat, k: D.Which)
  {
    predicate OfClass() { FieldArray? || Field? || MethodArray? || Method? }
  }

  datatype RelocationType =
    | TArtField | TArtFieldArray
    | TArtMethodClean | TArtMethodArrayClean | TArtMethodDirty | TArtMethodArrayDirty
    | TRuntimeMethod | TImTable | TConflictTable | TDexCacheArray
  {
    /** BinTypeForNativeRelocationType. */
    function Bin(): Bin {
      match this
      case TArtField | TArtFieldArray => ART_FIELD
      case TArtMethodClean | TArtMethodArrayClean => ART_METHOD_CLEAN
      case TArtMethodDirty | TArtMethodArrayDirty => ART_METHOD_DIRTY
      case TRuntimeMethod => RUNTIME_METHOD
      case TImTable => IM_TABLE
      case TConflictTable => IMT_CONFLICT_TABLE
      case TDexCacheArray => DEX_CACHE_ARRAY
    }
  }

  datatype Relocation = Relocation(oatIndex: nat, offset: nat, kind: RelocationType)

  /** Sizes of all bins, image by image, and the relocations made so far. */
  datatype Natives = Natives(sizes: seq<seq<nat>>, relocations: map<Ptr, Relocation>)

  const FIELD_HEADER: nat := 4
  const FIELD_SIZE: nat := 16

  /** The length word, padded to the alignment of methods. */
  function MethodHeader(ptr: PointerSize): nat { ptr.Bytes() }
  function MethodSize(ptr: PointerSize): nat { if ptr.P32? then 32 else 48 }

  function SizeOf(h: NativeHeap, p: Ptr): nat {
    match p
    case FieldArray(_, _) => FIELD_HEADER
    case Field(_, _, _) => FIELD_SIZE
    case MethodArray(_) => MethodHeader(h.ptr)
    case Method(_, _) | RuntimeMethod(_) => MethodSize(h.ptr)
    case ImTable(_) => if h.ptr.P32? then 172 else 344
    case ConflictTable(id) => if h.ptr.P32? then 8 * (h.conflictEntries(id) + 1) else 16 * (h.conflictEntries(id) + 1)
    case DexCacheArray(file, k) => D.Used(h.ptr, h.dexCounts(file), k)
  }

  predicate Fits(p: Ptr, t: RelocationType) {
    match p
    case FieldArray(_, _) => t.TArtFieldArray?
    case Field(_, _, _) => t.TArtField?
    case MethodArray(_) => t.TArtMethodArrayClean? || t.TArtMethodArrayDirty?
    case Method(_, _) => t.TArtMethodClean? || t.TArtMethodDirty?
    case ImTable(_) => t.TImTable?
    case ConflictTable(_) => t.TConflictTable?
    case RuntimeMethod(_) => t.TRuntimeMethod?
    case DexCacheArray(_, _) => t.TDexCacheArray?
  }

  /* ---- The invariant of the relocation map ---- */

  ghost predicate Shaped(sizes: seq<seq<nat>>) {
    forall k :: 0 <= k < |sizes| ==> |sizes[k]| == 13
  }

  /** The range of `p` lies in its bin, aligned. */
  ghost predicate InBin(h: NativeHeap, n: Natives, p: Ptr)
    requires Shaped(n.sizes) && p in n.relocations
  {
    var r := n.relocations[p];
    && r.oatIndex < |n.sizes| && Fits(p, r.kind)
    && r.offset % UnitOf(h.ptr, p, r.kind) == 0
    && r.offset + SizeOf(h, p) <= n.sizes[r.oatIndex][r.kind.Bin()]
  }

  ghost predicate Apart(h: NativeHeap, p: Ptr, r: Relocation, q: Ptr, s: Relocation) {
    r.oatIndex == s.oatIndex && r.kind.Bin() == s.kind.Bin() ==>
      r.offset + SizeOf(h, p) <= s.offset || s.offset + SizeOf(h, q) <= r.offset
  }

  /** Alignment of what goes into a native bin: fields need four bytes only. */
  function Unit(ptr: PointerSize, b: Bin): (u: nat)
    ensures u == 4 || u == 8 || u == 16
  {
    if b == ART_FIELD then 4 else if b == DEX_CACHE_ARRAY then 2 * ptr.Bytes() else ptr.Bytes()
  }

  /** Dex cache arrays are aligned one by one inside their blocks. */
  function UnitOf(ptr: PointerSize, p: Ptr, kind: RelocationType): (u: nat)
    ensures u > 0
  {
    if p.DexCacheArray? then D.Alignment(ptr, p.k) else Unit(ptr, kind.Bin())
  }

  ghost predicate AlignedSizes(ptr: PointerSize, sizes: seq<nat>)
    requires |sizes| == 13
  {
    forall b: Bin {:trigger Unit(ptr, b)} :: ART_FIELD <= b ==> sizes[b] % Unit(ptr, b) == 0
  }

  ghost predicate Valid(h: NativeHeap, n: Natives) {
    && Shaped(n.sizes)
    && (forall p {:trigger InBin(h, n, p)} :: p in n.relocations ==> InBin(h, n, p))
    && (forall p, q {:trigger Apart(h, p, n.relocations[p], q, n.relocations[q])} ::
          p in n.relocations && q in n.relocations && p != q ==> Apart(h, p, n.relocations[p], q, n.relocations[q]))
    && (forall k {:trigger AlignedSizes(h.ptr, n.sizes[k])} :: 0 <= k < |n.sizes| ==> AlignedSizes(h.ptr, n.sizes[k]))
  }

  /** `m` has all of `n`, and the mirror bins as they were. */
  ghost predicate Grows(n: Natives, m: Natives) {
    && Shaped(n.sizes) && Shaped(m.sizes) && |n.sizes| == |m.sizes|
    && (forall p :: p in n.relocations ==> p in m.relocations && m.relocations[p] == n.relocations[p])
    && (forall k, b :: 0 <= k < |n.sizes| && 0 <= b < 6 ==> m.sizes[k][b] == n.sizes[k][b])
  }

  function Placed(h: NativeHeap, n: Natives, p: Ptr, oatIndex: nat, kind: RelocationType): Natives
    requires oatIndex < |n.sizes| && |n.sizes[oatIndex]| == 13
  {
    var offset: nat := n.sizes[oatIndex][kind.Bin()];
    var end: nat := offset + SizeOf(h, p);
    var bins: seq<nat> := n.sizes[oatIndex][kind.Bin() := end];
    Natives(n.sizes[oatIndex := bins], n.relocations[p := Relocation(oatIndex, offset, kind)])
  }

  /** Placing at the end of a bin keeps every range apart and every bin aligned. */
  lemma {:induction false} PlacedIsValid(h: NativeHeap, n: Natives, p: Ptr, oatIndex: nat, kind: RelocationType)
    requires Valid(h, n) && oatIndex < |n.sizes| && p !in n.relocations && Fits(p, kind) && !p.DexCacheArray?
    ensures Valid(h, Placed(h, n, p, oatIndex, kind)) && Grows(n, Placed(h, n, p, oatIndex, kind))
  {
    PlacedKeepsAlignment(h, n, p, oatIndex, kind);
    PlacedKeepsBins(h, n, p, oatIndex, kind);
    PlacedIsApart(h, n, p, oatIndex, kind);
  }

  lemma {:induction false} PlacedKeepsBins(h: NativeHeap, n: Natives, p: Ptr, oatIndex: nat, kind: RelocationType)
    requires Valid(h, n) && oatIndex < |n.sizes| && p !in n.relocations && Fits(p, kind) && !p.DexCacheArray?
    ensures var m := Placed(h, n, p, oatIndex, kind);
            forall q {:trigger InBin(h, m, q)} :: q in m.relocations ==> InBin(h, m, q)
  {
    var m := Placed(h, n, p, oatIndex, kind);
    assert AlignedSizes(h.ptr, n.sizes[oatIndex]);
    forall q | q in m.relocations ensures InBin(h, m, q) {
      if q != p {
        assert InBin(h, n, q);
      }
    }
  }

  lemma {:induction false} PlacedIsApart(h: NativeHeap, n: Natives, p: Ptr, oatIndex: nat, kind: RelocationType)
    requires Valid(h, n) && oatIndex < |n.sizes| && p !in n.relocations
    ensures var r := Placed(h, n, p, oatIndex, kind).relocations[p];
            forall q :: q in n.relocations ==>
              Apart(h, q, n.relocations[q], p, r) && Apart(h, p, r, q, n.relocations[q])
  {
    forall q | q in n.relocations
      ensures var r := Placed(h, n, p, oatIndex, kind).relocations[p];
              Apart(h, q, n.relocations[q], p, r) && Apart(h, p, r, q, n.relocations[q])
    {
      assert InBin(h, n, q);
    }
  }

  lemma {:induction false} PlacedKeepsAlignment(h: NativeHeap, n: Natives, p: Ptr, oatIndex: nat, kind: RelocationType)
    requires Valid(h, n) && oatIndex < |n.sizes| && Fits(p, kind) && !p.DexCacheArray?
    ensures forall k :: 0 <= k < |n.sizes| ==> AlignedSizes(h.ptr, Placed(h, n, p, oatIndex, kind).sizes[k])
  {
    var m := Placed(h, n, p, oatIndex, kind);
    assert AlignedSizes(h.ptr, n.sizes[oatIndex]);
    SizesAreUnits(h, p, kind);
    SumOfMultiples(n.sizes[oatIndex][kind.Bin()], SizeOf(h, p), Unit(h.ptr, kind.Bin()));
    assert AlignedSizes(h.ptr, m.sizes[oatIndex]);
  }

  lemma {:induction false} SizesAreUnits(h: NativeHeap, p: Ptr, kind: RelocationType)
    requires Fits(p, kind) && !p.DexCacheArray?
    ensures SizeOf(h, p) % Unit(h.ptr, kind.Bin()) == 0
  {
    match p
    case ConflictTable(id) =>
      var e := h.conflictEntries(id) + 1;
      assert (8 * e) % 4 == 0 && (16 * e) % 8 == 0;
    case _ =>
  }

  /* ---- Arrays ---- */

  function ArrayKind(dirty: bool): RelocationType {
    if dirty then TArtMethodArrayDirty else TArtMethodArrayClean
  }

  function ElementKind(dirty: bool): RelocationType {
    if dirty then TArtMethodDirty else TArtMethodClean
  }

  /** Element `i` follows the header and `i` elements. */
  function FieldPosition(i: nat): nat { FIELD_HEADER + FIELD_SIZE * i }

  function MethodPosition(ptr: PointerSize, i: nat): nat {
    if ptr.P32? then MethodHeader(P32) + MethodSize(P32) * i else MethodHeader(P64) + MethodSize(P64) * i
  }

  /** A placed field array is an array: element `i` follows header and the `i`
      elements before it. */
  ghost predicate IsFieldArray(n: Natives, klass: nat, which: bool, count: nat, oatIndex: nat) {
    && FieldArray(klass, which) in n.relocations
    && var r := n.relocations[FieldArray(klass, which)];
    && r == Relocation(oatIndex, r.offset, TArtFieldArray)
    && HasFields(n, klass, which, count, oatIndex, r.offset)
  }

  ghost predicate HasFields(n: Natives, klass: nat, which: bool, count: nat, oatIndex: nat, start: nat) {
    forall i :: 0 <= i < count ==>
      && Field(klass, which, i) in n.relocations
      && n.relocations[Field(klass, which, i)] == Relocation(oatIndex, start + FieldPosition(i), TArtField)
  }

  ghost predicate IsMethodArray(ptr: PointerSize, n: Natives, klass: nat, dirty: seq<bool>, oatIndex: nat) {
    && MethodArray(klass) in n.relocations
    && var r := n.relocations[MethodArray(klass)];
    && r == Relocation(oatIndex, r.offset, ArrayKind(true in dirty))
    && HasMethods(ptr, n, klass, true in dirty, |dirty|, oatIndex, r.offset)
  }

  ghost predicate HasMethods(
    ptr: PointerSize, n: Natives, klass: nat, dirty: bool, count: nat, oatIndex: nat, start: nat) {
    forall i :: 0 <= i < count ==>
      && Method(klass, i) in n.relocations
      && n.relocations[Method(klass, i)] ==
           Relocation(oatIndex, start + MethodPosition(ptr, i), ElementKind(dirty))
  }

  ghost predicate HasFieldArray(n: Natives, klass: nat, which: bool, count: Option<nat>, oatIndex: nat) {
    count.Some? ==> IsFieldArray(n, klass, which, count.value, oatIndex)
  }

  /** All the native data of a class is placed in the image of that class. */
  ghost predicate HasClass(h: NativeHeap, n: Natives, klass: nat, data: ClassData, oatIndex: nat) {
    && HasFieldArray(n, klass, false, data.staticFields, oatIndex)
    && HasFieldArray(n, klass, true, data.instanceFields, oatIndex)
    && (data.dirty != [] ==> IsMethodArray(h.ptr, n, klass, data.dirty, oatIndex))
    && (data.imt.Some? ==> ImTable(data.imt.value) in n.relocations)
  }

  /** Whatever a placed table or runtime method points at is placed. */
  ghost predicate HasMethodsOf(h: NativeHeap, n: Natives, imt: nat) {
    forall m :: Some(m) in h.imtMethods(imt) ==> RuntimeMethod(m) in n.relocations
  }

  ghost predicate HasTableOf(h: NativeHeap, n: Natives, id: nat) {
    h.conflictTable(id).Some? ==> ConflictTable(h.conflictTable(id).value) in n.relocations
  }

  ghost predicate TablesPlaced(h: NativeHeap, n: Natives) {
    forall id {:trigger HasTableOf(h, n, id)} :: RuntimeMethod(id) in n.relocations ==> HasTableOf(h, n, id)
  }

  ghost predicate ImtsComplete(h: NativeHeap, n: Natives) {
    forall imt {:trigger HasMethodsOf(h, n, imt)} :: ImTable(imt) in n.relocations ==> HasMethodsOf(h, n, imt)
  }

  ghost predicate FreshClass(n: Natives, klass: nat) {
    forall p :: p in n.relocations && p.OfClass() ==> p.klass != klass
  }

  /** From `n` to `m`, only data of `klass` and shared data was added. */
  ghost predicate Adds(h: NativeHeap, n: Natives, m: Natives, klass: nat) {
    && Valid(h, m) && Grows(n, m)
    && forall p :: p in m.relocations && p !in n.relocations && p.OfClass() ==> p.klass == klass
  }

  ghost predicate AddsShared(h: NativeHeap, n: Natives, m: Natives) {
    && Valid(h, m) && Grows(n, m) && TablesPlaced(h, m)
    && forall p :: p in m.relocations && p !in n.relocations ==> p.RuntimeMethod? || p.ConflictTable?
  }

  method Place(h: NativeHeap, n: Natives, p: Ptr, oatIndex: nat, kind: RelocationType) returns (m: Natives)
    requires oatIndex < |n.sizes| && |n.sizes[oatIndex]| == 13
    requires p !in n.relocations  // CHECKed
    ensures m == Placed(h, n, p, oatIndex, kind)
  {
    var offset := n.sizes[oatIndex][kind.Bin()];
    var bins: seq<nat> := n.sizes[oatIndex][kind.Bin() := offset + SizeOf(h, p)];
    m := Natives(n.sizes[oatIndex := bins], n.relocations[p := Relocation(oatIndex, offset, kind)]);
  }

  lemma {:induction false} GrowsTransitive(a: Natives, b: Natives, c: Natives)
    requires Grows(a, b) && Grows(b, c)
    ensures Grows(a, c)
  {
  }

  lemma {:induction false} AddsTransitive(h: NativeHeap, a: Natives, b: Natives, c: Natives, klass: nat)
    requires Adds(h, a, b, klass) && Adds(h, b, c, klass)
    ensures Adds(h, a, c, klass)
  {
    GrowsTransitive(a, b, c);
  }

  lemma {:induction false} PlacedAdds(
    h: NativeHeap, n: Natives, m: Natives, p: Ptr, oatIndex: nat, kind: RelocationType, klass: nat)
    requires Adds(h, n, m, klass) && oatIndex < |m.sizes| && p !in m.relocations && Fits(p, kind) && !p.DexCacheArray?
    requires p.OfClass() ==> p.klass == klass
    ensures Adds(h, n, Placed(h, m, p, oatIndex, kind), klass)
  {
    PlacedIsValid(h, m, p, oatIndex, kind);
    GrowsTransitive(n, m, Placed(h, m, p, oatIndex, kind));
  }

  /* ---- Field arrays ---- */

  /** The header of a field array and its first `i` fields. */
  ghost function FieldsPlaced(h: NativeHeap, n: Natives, klass: nat, which: bool, oatIndex: nat, i: nat): (m: Natives)
    requires Shaped(n.sizes) && oatIndex < |n.sizes|
    ensures Shaped(m.sizes) && |m.sizes| == |n.sizes|
  {
    if i == 0 then Placed(h, n, FieldArray(klass, which), oatIndex, TArtFieldArray)
    else Placed(h, FieldsPlaced(h, n, klass, which, oatIndex, i - 1), Field(klass, which, i - 1), oatIndex, TArtField)
  }

  predicate IsFieldOf(p: Ptr, klass: nat, which: bool, i: nat) {
    p == FieldArray(klass, which) || (p.Field? && p.klass == klass && p.which == which && p.i < i)
  }

  ghost predicate FreshFields(n: Natives, klass: nat, which: bool) {
    forall p :: p in n.relocations && (p.FieldArray? || p.Field?) ==> p.klass != klass || p.which != which
  }

  lemma {:induction false} FieldsAreAdded(h: NativeHeap, n: Natives, klass: nat, which: bool, oatIndex: nat, i: nat)
    requires Valid(h, n) && oatIndex < |n.sizes| && FreshFields(n, klass, which)
    ensures var m := FieldsPlaced(h, n, klass, which, oatIndex, i);
            && Adds(h, n, m, klass)
            && (forall p :: p in m.relocations && p !in n.relocations ==> IsFieldOf(p, klass, which, i))
  {
    if i == 0 {
      PlacedAdds(h, n, n, FieldArray(klass, which), oatIndex, TArtFieldArray, klass);
    } else {
      var m := FieldsPlaced(h, n, klass, which, oatIndex, i - 1);
      FieldsAreAdded(h, n, klass, which, oatIndex, i - 1);
      PlacedAdds(h, n, m, Field(klass, which, i - 1), oatIndex, TArtField, klass);
    }
  }

  lemma {:induction false} FieldBinGrows(h: NativeHeap, n: Natives, klass: nat, which: bool, oatIndex: nat, i: nat)
    requires Shaped(n.sizes) && oatIndex < |n.sizes|
    ensures FieldsPlaced(h, n, klass, which, oatIndex, i).sizes[oatIndex][ART_FIELD] ==
            n.sizes[oatIndex][ART_FIELD] + FieldPosition(i)
  {
    if i > 0 {
      FieldBinGrows(h, n, klass, which, oatIndex, i - 1);
    }
  }

  lemma {:induction false} FieldArrayHeader(h: NativeHeap, n: Natives, klass: nat, which: bool, oatIndex: nat, i: nat)
    requires Shaped(n.sizes) && oatIndex < |n.sizes|
    ensures var m := FieldsPlaced(h, n, klass, which, oatIndex, i);
            && FieldArray(klass, which) in m.relocations
            && m.relocations[FieldArray(klass, which)] ==
               Relocation(oatIndex, n.sizes[oatIndex][ART_FIELD], TArtFieldArray)
  {
    if i > 0 {
      FieldArrayHeader(h, n, klass, which, oatIndex, i - 1);
    }
  }

  lemma {:induction false} FieldsFollow(h: NativeHeap, n: Natives, klass: nat, which: bool, oatIndex: nat, i: nat)
    requires Shaped(n.sizes) && oatIndex < |n.sizes|
    ensures HasFields(
      FieldsPlaced(h, n, klass, which, oatIndex, i), klass, which, i, oatIndex, n.sizes[oatIndex][ART_FIELD])
  {
    if i > 0 {
      var m := FieldsPlaced(h, n, klass, which, oatIndex, i - 1);
      FieldsFollow(h, n, klass, which, oatIndex, i - 1);
      FieldBinGrows(h, n, klass, which, oatIndex, i - 1);
      OneMoreField(h, m, klass, which, oatIndex, i, n.sizes[oatIndex][ART_FIELD]);
    }
  }

  lemma {:induction false} OneMoreField(
    h: NativeHeap, m: Natives, klass: nat, which: bool, oatIndex: nat, i: nat, start: nat)
    requires oatIndex < |m.sizes| && |m.sizes[oatIndex]| == 13
    requires i > 0 && HasFields(m, klass, which, i - 1, oatIndex, start)
    requires m.sizes[oatIndex][ART_FIELD] == start + FieldPosition(i - 1)
    ensures HasFields(Placed(h, m, Field(klass, which, i - 1), oatIndex, TArtField), klass, which, i, oatIndex, start)
  {
  }

  /** The header of a field array, then its fields. */
  method AssignFieldArray(h: NativeHeap, n: Natives, klass: nat, which: bool, count: nat, oatIndex: nat)
      returns (m: Natives)
    requires Valid(h, n) && oatIndex < |n.sizes| && FreshFields(n, klass, which)
    ensures m == FieldsPlaced(h, n, klass, which, oatIndex, count)
  {
    m := Place(h, n, FieldArray(klass, which), oatIndex, TArtFieldArray);
    for i := 0 to count
      invariant m == FieldsPlaced(h, n, klass, which, oatIndex, i)
    {
      FieldsAreAdded(h, n, klass, which, oatIndex, i);
      m := Place(h, m, Field(klass, which, i), oatIndex, TArtField);
    }
  }

  /* ---- Method arrays ---- */

  ghost function MethodsPlaced(h: NativeHeap, n: Natives, klass: nat, dirty: bool, oatIndex: nat, i: nat): (m: Natives)
    requires Shaped(n.sizes) && oatIndex < |n.sizes|
    ensures Shaped(m.sizes) && |m.sizes| == |n.sizes|
  {
    if i == 0 then
      Placed(h, n, MethodArray(klass), oatIndex, ArrayKind(dirty))
    else
      Placed(h, MethodsPlaced(h, n, klass, dirty, oatIndex, i - 1), Method(klass, i - 1), oatIndex,
             ElementKind(dirty))
  }

  predicate IsMethodOf(p: Ptr, klass: nat, i: nat) {
    p == MethodArray(klass) || (p.Method? && p.klass == klass && p.i < i)
  }

  ghost predicate FreshMethods(n: Natives, klass: nat) {
    forall p :: p in n.relocations && (p.MethodArray? || p.Method?) ==> p.klass != klass
  }

  function MethodBin(dirty: bool): Bin { if dirty then ART_METHOD_DIRTY else ART_METHOD_CLEAN }

  lemma {:induction false} MethodsAreAdded(h: NativeHeap, n: Natives, klass: nat, dirty: bool, oatIndex: nat, i: nat)
    requires Valid(h, n) && oatIndex < |n.sizes| && FreshMethods(n, klass)
    ensures var m := MethodsPlaced(h, n, klass, dirty, oatIndex, i);
            && Adds(h, n, m, klass)
            && (forall p :: p in m.relocations && p !in n.relocations ==> IsMethodOf(p, klass, i))
  {
    if i == 0 {
      PlacedAdds(h, n, n, MethodArray(klass), oatIndex, ArrayKind(dirty), klass);
    } else {
      var m := MethodsPlaced(h, n, klass, dirty, oatIndex, i - 1);
      MethodsAreAdded(h, n, klass, dirty, oatIndex, i - 1);
      PlacedAdds(h, n, m, Method(klass, i - 1), oatIndex, ElementKind(dirty), klass);
    }
  }

  lemma {:induction false} MethodBinGrows(h: NativeHeap, n: Natives, klass: nat, dirty: bool, oatIndex: nat, i: nat)
    requires Shaped(n.sizes) && oatIndex < |n.sizes|
    ensures MethodsPlaced(h, n, klass, dirty, oatIndex, i).sizes[oatIndex][MethodBin(dirty)] ==
            n.sizes[oatIndex][MethodBin(dirty)] + MethodPosition(h.ptr, i)
  {
    if i > 0 {
      MethodBinGrows(h, n, klass, dirty, oatIndex, i - 1);
    }
  }

  lemma {:induction false} MethodArrayHeader(h: NativeHeap, n: Natives, klass: nat, dirty: bool, oatIndex: nat, i: nat)
    requires Shaped(n.sizes) && oatIndex < |n.sizes|
    ensures var m := MethodsPlaced(h, n, klass, dirty, oatIndex, i);
            && MethodArray(klass) in m.relocations
            && m.relocations[MethodArray(klass)] ==
               Relocation(oatIndex, n.sizes[oatIndex][MethodBin(dirty)], ArrayKind(dirty))
  {
    if i > 0 {
      MethodArrayHeader(h, n, klass, dirty, oatIndex, i - 1);
    }
  }

  lemma {:induction false} MethodsFollow(h: NativeHeap, n: Natives, klass: nat, dirty: bool, oatIndex: nat, i: nat)
    requires Shaped(n.sizes) && oatIndex < |n.sizes|
    ensures HasMethods(h.ptr, MethodsPlaced(h, n, klass, dirty, oatIndex, i), klass, dirty, i, oatIndex,
                       n.sizes[oatIndex][MethodBin(dirty)])
  {
    if i > 0 {
      var m := MethodsPlaced(h, n, klass, dirty, oatIndex, i - 1);
      MethodsFollow(h, n, klass, dirty, oatIndex, i - 1);
      MethodBinGrows(h, n, klass, dirty, oatIndex, i - 1);
      OneMoreMethod(h, m, klass, dirty, oatIndex, i, n.sizes[oatIndex][MethodBin(dirty)]);
    }
  }

  lemma {:induction false} OneMoreMethod(
    h: NativeHeap, m: Natives, klass: nat, dirty: bool, oatIndex: nat, i: nat, start: nat)
    requires oatIndex < |m.sizes| && |m.sizes[oatIndex]| == 13
    requires i > 0 && HasMethods(h.ptr, m, klass, dirty, i - 1, oatIndex, start)
    requires m.sizes[oatIndex][MethodBin(dirty)] == start + MethodPosition(h.ptr, i - 1)
    ensures HasMethods(
      h.ptr, Placed(h, m, Method(klass, i - 1), oatIndex, ElementKind(dirty)), klass, dirty, i, oatIndex, start)
  {
  }

  method AnyDirty(dirty: seq<bool>) returns (any: bool)
    ensures any == (true in dirty)
  {
    any := false;
    for i := 0 to |dirty|
      invariant any == (true in dirty[..i])
    {
      if dirty[i] {
        return true;
      }
      assert dirty[..i + 1] == dirty[..i] + [false];
    }
    assert dirty[..|dirty|] == dirty;
  }

  /** The header of the method array, then its methods, in the dirty bin if any
      of them will be dirtied. */
  method AssignMethodArray(h: NativeHeap, n: Natives, klass: nat, dirty: seq<bool>, oatIndex: nat) returns (m: Natives)
    requires Valid(h, n) && oatIndex < |n.sizes| && FreshMethods(n, klass)
    ensures m == MethodsPlaced(h, n, klass, true in dirty, oatIndex, |dirty|)
  {
    var anyDirty := AnyDirty(dirty);
    var kind := ElementKind(anyDirty);
    m := Place(h, n, MethodArray(klass), oatIndex, ArrayKind(anyDirty));
    for i := 0 to |dirty|
      invariant m == MethodsPlaced(h, n, klass, anyDirty, oatIndex, i)
    {
      MethodsAreAdded(h, n, klass, anyDirty, oatIndex, i);
      m := Place(h, m, Method(klass, i), oatIndex, kind);
    }
  }

  /* ---- Interface method tables and runtime methods ---- */

  /** A runtime method; its conflict table goes first. */
  method AssignRuntimeMethod(h: NativeHeap, n: Natives, id: nat, oatIndex: nat) returns (m: Natives)
    requires Valid(h, n) && TablesPlaced(h, n) && oatIndex < |n.sizes| && RuntimeMethod(id) !in n.relocations
    ensures AddsShared(h, n, m) && RuntimeMethod(id) in m.relocations
    ensures forall p :: p in m.relocations && p !in n.relocations && p.RuntimeMethod? ==> p.id == id
  {
    m := n;
    var table := h.conflictTable(id);
    if table.Some? && ConflictTable(table.value) !in m.relocations {
      PlacedIsValid(h, m, ConflictTable(table.value), oatIndex, TConflictTable);
      m := Place(h, m, ConflictTable(table.value), oatIndex, TConflictTable);
    }
    PlacedIsValid(h, m, RuntimeMethod(id), oatIndex, TRuntimeMethod);
    m := Place(h, m, RuntimeMethod(id), oatIndex, TRuntimeMethod);
    forall other | RuntimeMethod(other) in m.relocations ensures HasTableOf(h, m, other) {
      assert other != id ==> HasTableOf(h, n, other);
    }
  }

  lemma {:induction false} SharedTransitive(h: NativeHeap, a: Natives, b: Natives, c: Natives)
    requires AddsShared(h, a, b) && AddsShared(h, b, c)
    ensures AddsShared(h, a, c)
  {
    GrowsTransitive(a, b, c);
  }

  /** The runtime methods of an interface method table that have no place yet. */
  method AssignImtMethods(h: NativeHeap, n: Natives, imt: nat, oatIndex: nat) returns (m: Natives)
    requires Valid(h, n) && TablesPlaced(h, n) && oatIndex < |n.sizes|
    ensures AddsShared(h, n, m) && HasMethodsOf(h, m, imt)
  {
    m := n;
    var methods := h.imtMethods(imt);
    for i := 0 to |methods|
      invariant AddsShared(h, n, m)
      invariant forall j :: 0 <= j < i && methods[j].Some? ==> RuntimeMethod(methods[j].value) in m.relocations
    {
      if methods[i].Some? && RuntimeMethod(methods[i].value) !in m.relocations {
        ghost var before := m;
        m := AssignRuntimeMethod(h, m, methods[i].value, oatIndex);
        SharedTransitive(h, n, before, m);
      }
    }
  }

  method TryAssignImTable(h: NativeHeap, n: Natives, imt: nat, oatIndex: nat) returns (m: Natives)
    requires Good(h, n) && oatIndex < |n.sizes|
    ensures Good(h, m) && Grows(n, m) && ImTable(imt) in m.relocations
    ensures forall p :: p in m.relocations && p !in n.relocations ==> !p.OfClass()
  {
    m := n;
    if ImTable(imt) !in m.relocations {
      PlacedIsValid(h, m, ImTable(imt), oatIndex, TImTable);
      m := Place(h, m, ImTable(imt), oatIndex, TImTable);
      ghost var placed := m;
      forall id | RuntimeMethod(id) in m.relocations ensures HasTableOf(h, m, id) {
        assert HasTableOf(h, n, id);
      }
      m := AssignImtMethods(h, m, imt, oatIndex);
      ImtsStayComplete(h, n, placed, m, imt);
    }
  }

  lemma {:induction false} ImtsStayComplete(h: NativeHeap, n: Natives, placed: Natives, m: Natives, imt: nat)
    requires ImtsComplete(h, n) && Grows(n, placed) && AddsShared(h, placed, m) && HasMethodsOf(h, m, imt)
    requires forall p :: p in placed.relocations && p !in n.relocations ==> p == ImTable(imt)
    ensures ImtsComplete(h, m)
  {
    forall other | ImTable(other) in m.relocations ensures HasMethodsOf(h, m, other) {
      if other != imt {
        assert HasMethodsOf(h, n, other);
      }
    }
  }

  /** Image methods go first, before any class is met. */
  method AssignImageMethods(h: NativeHeap, images: nat, methods: seq<nat>, oatIndex: nat) returns (m: Natives)
    requires oatIndex < images
    requires forall i, j :: 0 <= i < j < |methods| ==> methods[i] != methods[j]
    ensures Good(h, m) && |m.sizes| == images
    ensures forall k, b :: 0 <= k < images && 0 <= b < 6 ==> m.sizes[k][b] == 0
    ensures forall p :: p in m.relocations ==> !p.OfClass() && !p.DexCacheArray?
    ensures forall i :: 0 <= i < |methods| ==> RuntimeMethod(methods[i]) in m.relocations
  {
    m := Natives(seq(images, _ => seq(13, _ => 0)), map[]);
    ghost var empty := m;
    for i := 0 to |methods|
      invariant AddsShared(h, empty, m)
      invariant forall j :: 0 <= j < |methods| ==> (j < i <==> RuntimeMethod(methods[j]) in m.relocations)
    {
      ghost var before := m;
      m := AssignRuntimeMethod(h, m, methods[i], oatIndex);
      SharedTransitive(h, empty, before, m);
    }
  }

  /* ---- Classes ---- */

  ghost predicate Good(h: NativeHeap, n: Natives) {
    Valid(h, n) && TablesPlaced(h, n) && ImtsComplete(h, n)
  }

  /** Adding data of a class or of a dex cache leaves the shared tables alone. */
  lemma {:induction false} OtherDataKeepsTables(h: NativeHeap, n: Natives, m: Natives)
    requires Good(h, n) && Valid(h, m) && Grows(n, m)
    requires forall p :: p in m.relocations && p !in n.relocations ==> p.OfClass() || p.DexCacheArray?
    ensures Good(h, m)
  {
    forall imt | ImTable(imt) in m.relocations ensures HasMethodsOf(h, m, imt) {
      assert ImTable(imt) in n.relocations;
      assert HasMethodsOf(h, n, imt);
    }
    forall id | RuntimeMethod(id) in m.relocations ensures HasTableOf(h, m, id) {
      assert HasTableOf(h, n, id);
    }
  }

  /** One field array, if the class has it. */
  method TryAssignFieldArray(h: NativeHeap, n: Natives, klass: nat, which: bool, count: Option<nat>, oatIndex: nat)
      returns (m: Natives)
    requires Good(h, n) && oatIndex < |n.sizes| && FreshFields(n, klass, which)
    ensures Adds(h, n, m, klass) && Good(h, m) && HasFieldArray(m, klass, which, count, oatIndex)
    ensures forall p :: p in m.relocations && p !in n.relocations ==> (p.FieldArray? || p.Field?) && p.which == which
  {
    m := n;
    if count.Some? {
      m := AssignFieldArray(h, n, klass, which, count.value, oatIndex);
      FieldsAreAdded(h, n, klass, which, oatIndex, count.value);
      FieldArrayHeader(h, n, klass, which, oatIndex, count.value);
      FieldsFollow(h, n, klass, which, oatIndex, count.value);
      OtherDataKeepsTables(h, n, m);
    }
  }

  /** The method array, if the class has methods. */
  method TryAssignMethodArray(h: NativeHeap, n: Natives, klass: nat, dirty: seq<bool>, oatIndex: nat)
      returns (m: Natives)
    requires Good(h, n) && oatIndex < |n.sizes| && FreshMethods(n, klass)
    ensures Adds(h, n, m, klass) && Good(h, m)
    ensures dirty != [] ==> IsMethodArray(h.ptr, m, klass, dirty, oatIndex)
  {
    m := n;
    if dirty != [] {
      m := AssignMethodArray(h, n, klass, dirty, oatIndex);
      MethodsAreAdded(h, n, klass, true in dirty, oatIndex, |dirty|);
      MethodArrayHeader(h, n, klass, true in dirty, oatIndex, |dirty|);
      MethodsFollow(h, n, klass, true in dirty, oatIndex, |dirty|);
      OtherDataKeepsTables(h, n, m);
    }
  }

  /** Everything TryAssignBinSlot places for a class it meets for the first time. */
  method AssignClass(h: NativeHeap, n: Natives, klass: nat, data: ClassData, oatIndex: nat) returns (m: Natives)
    requires Good(h, n) && oatIndex < |n.sizes| && FreshClass(n, klass)
    ensures Adds(h, n, m, klass) && Good(h, m)
    ensures HasClass(h, m, klass, data, oatIndex)
  {
    var m0 := TryAssignFieldArray(h, n, klass, false, data.staticFields, oatIndex);
    var m1 := TryAssignFieldArray(h, m0, klass, true, data.instanceFields, oatIndex);
    var m2 := TryAssignMethodArray(h, m1, klass, data.dirty, oatIndex);
    m := m2;
    if data.imt.Some? {
      m := TryAssignImTable(h, m2, data.imt.value, oatIndex);
    }
    AddsTransitive(h, n, m0, m1, klass);
    AddsTransitive(h, n, m1, m2, klass);
    AddsTransitive(h, n, m2, m, klass);
    GrowsTransitive(m1, m2, m);
    GrowsTransitive(m0, m1, m);
    FieldArrayStays(m0, m, klass, false, data.staticFields, oatIndex);
    FieldArrayStays(m1, m, klass, true, data.instanceFields, oatIndex);
    MethodArrayStays(h.ptr, m2, m, klass, data.dirty, oatIndex);
  }

  /* ---- Dex cache arrays ---- */

  /** Arrays that are null are not relocated, and call sites are not. */
  predicate IsRelocated(h: NativeHeap, file: nat, k: D.Which) {
    k < 5 && D.Used(h.ptr, h.dexCounts(file), k) != 0
  }

  /** The arrays of a dex cache lie in a block that begins at `start`. */
  ghost predicate DexCacheAt(h: NativeHeap, n: Natives, file: nat, oatIndex: nat, start: nat) {
    forall k: D.Which {:trigger DexCacheArray(file, k)} :: IsRelocated(h, file, k) ==>
      && DexCacheArray(file, k) in n.relocations
      && n.relocations[DexCacheArray(file, k)] ==
         Relocation(oatIndex, start + D.ArrayOffset(h.ptr, h.dexCounts(file), k), TDexCacheArray)
  }

  ghost predicate HasDexCache(h: NativeHeap, n: Natives, file: nat, oatIndex: nat) {
    exists start: nat :: DexCacheAt(h, n, file, oatIndex, start)
  }

  ghost predicate HasFirstDexCaches(h: NativeHeap, n: Natives, count: nat) {
    count <= |h.dexFiles| && forall i :: 0 <= i < count ==> HasDexCache(h, n, h.dexFiles[i].0, h.dexFiles[i].1)
  }

  ghost predicate HasDexCaches(h: NativeHeap, n: Natives) {
    HasFirstDexCaches(h, n, |h.dexFiles|)
  }

  lemma {:induction false} DexCachesStay(h: NativeHeap, n: Natives, m: Natives, count: nat)
    requires HasFirstDexCaches(h, n, count)
    requires forall p :: p in n.relocations ==> p in m.relocations && m.relocations[p] == n.relocations[p]
    ensures HasFirstDexCaches(h, m, count)
  {
    forall i | 0 <= i < count ensures HasDexCache(h, m, h.dexFiles[i].0, h.dexFiles[i].1) {
      var start: nat :| DexCacheAt(h, n, h.dexFiles[i].0, h.dexFiles[i].1, start);
      assert DexCacheAt(h, m, h.dexFiles[i].0, h.dexFiles[i].1, start);
    }
  }

  lemma {:induction false} OneMoreDexCache(h: NativeHeap, n: Natives, m: Natives, i: nat)
    requires HasFirstDexCaches(h, n, i) && Grows(n, m)
    requires i < |h.dexFiles| && HasDexCache(h, m, h.dexFiles[i].0, h.dexFiles[i].1)
    ensures HasFirstDexCaches(h, m, i + 1)
  {
    DexCachesStay(h, n, m, i);
  }

  /** The range of block `r` of a dex file lies in its bin, aligned. */
  ghost predicate BlockInBin(h: NativeHeap, sizes: seq<seq<nat>>, file: nat, r: Relocation)
    requires Shaped(sizes)
  {
    && r.kind == TDexCacheArray && r.oatIndex < |sizes| && r.offset % (2 * h.ptr.Bytes()) == 0
    && r.offset + D.Size(h.ptr, h.dexCounts(file)) <= sizes[r.oatIndex][DEX_CACHE_ARRAY]
  }

  ghost predicate BlocksApart(h: NativeHeap, f: nat, r: Relocation, g: nat, s: Relocation) {
    r.oatIndex == s.oatIndex ==>
      r.offset + D.Size(h.ptr, h.dexCounts(f)) <= s.offset || s.offset + D.Size(h.ptr, h.dexCounts(g)) <= r.offset
  }

  /** dex_cache_array_starts_: one block per dex file. */
  ghost predicate AreBlocks(h: NativeHeap, sizes: seq<seq<nat>>, starts: map<nat, Relocation>) {
    && Shaped(sizes)
    && (forall f :: f in starts ==> BlockInBin(h, sizes, f, starts[f]))
    && (forall f, g :: f in starts && g in starts && f != g ==> BlocksApart(h, f, starts[f], g, starts[g]))
  }

  /** Relocations of dex cache arrays point into the block of the dex file. */
  ghost predicate InBlocks(h: NativeHeap, n: Natives, starts: map<nat, Relocation>) {
    forall p :: p in n.relocations && p.DexCacheArray? ==>
      p.file in starts && n.relocations[p] == InBlock(h, starts[p.file], p.file, p.k)
  }

  function InBlock(h: NativeHeap, block: Relocation, file: nat, k: D.Which): Relocation {
    block.(offset := block.offset + D.ArrayOffset(h.ptr, h.dexCounts(file), k))
  }

  function Reserved(h: NativeHeap, n: Natives, file: nat, oatIndex: nat): Natives
    requires oatIndex < |n.sizes| && |n.sizes[oatIndex]| == 13
  {
    var end: nat := n.sizes[oatIndex][DEX_CACHE_ARRAY] + D.Size(h.ptr, h.dexCounts(file));
    var bins: seq<nat> := n.sizes[oatIndex][DEX_CACHE_ARRAY := end];
    n.(sizes := n.sizes[oatIndex := bins])
  }

  lemma {:induction false} ReservedIsValid(h: NativeHeap, n: Natives, file: nat, oatIndex: nat)
    requires Valid(h, n) && oatIndex < |n.sizes|
    ensures Valid(h, Reserved(h, n, file, oatIndex)) && Grows(n, Reserved(h, n, file, oatIndex))
  {
    var m := Reserved(h, n, file, oatIndex);
    forall p | p in m.relocations ensures InBin(h, m, p) {
      assert InBin(h, n, p);
    }
    forall p, q | p in m.relocations && q in m.relocations && p != q
      ensures Apart(h, p, m.relocations[p], q, m.relocations[q])
    {
      assert Apart(h, p, n.relocations[p], q, n.relocations[q]);
    }
    ReservedIsAligned(h, n, file, oatIndex);
  }

  lemma {:induction false} ReservedIsAligned(h: NativeHeap, n: Natives, file: nat, oatIndex: nat)
    requires Valid(h, n) && oatIndex < |n.sizes|
    ensures forall k :: 0 <= k < |n.sizes| ==> AlignedSizes(h.ptr, Reserved(h, n, file, oatIndex).sizes[k])
  {
    var m := Reserved(h, n, file, oatIndex);
    assert AlignedSizes(h.ptr, n.sizes[oatIndex]) && Unit(h.ptr, DEX_CACHE_ARRAY) == 2 * h.ptr.Bytes();
    D.ArrayFits(h.ptr, h.dexCounts(file), 0);
    SumOfMultiples(n.sizes[oatIndex][DEX_CACHE_ARRAY], D.Size(h.ptr, h.dexCounts(file)), 2 * h.ptr.Bytes());
    assert AlignedSizes(h.ptr, m.sizes[oatIndex]);
  }

  /** The first loop of PrepareDexCacheArraySlots: a block for every dex file. */
  method ReserveBlocks(h: NativeHeap, n: Natives) returns (m: Natives, starts: map<nat, Relocation>)
    requires Good(h, n) && h.Valid(|n.sizes|)
    ensures Good(h, m) && Grows(n, m) && m.relocations == n.relocations && AreBlocks(h, m.sizes, starts)
    ensures forall i :: 0 <= i < |h.dexFiles| ==>
              h.dexFiles[i].0 in starts && starts[h.dexFiles[i].0].oatIndex == h.dexFiles[i].1
  {
    m, starts := n, map[];
    for i := 0 to |h.dexFiles|
      invariant Reserves(h, n, m, starts, i)
    {
      m, starts := ReserveBlock(h, n, m, starts, i);
    }
  }

  method ReserveBlock(h: NativeHeap, ghost n: Natives, m: Natives, starts: map<nat, Relocation>, i: nat)
      returns (next: Natives, nextStarts: map<nat, Relocation>)
    requires Reserves(h, n, m, starts, i) && i < |h.dexFiles| && h.Valid(|n.sizes|)
    ensures Reserves(h, n, next, nextStarts, i + 1)
  {
    var (file, oatIndex) := h.dexFiles[i];
    nextStarts := starts[file := Relocation(oatIndex, m.sizes[oatIndex][DEX_CACHE_ARRAY], TDexCacheArray)];
    assert nextStarts - {file} == starts;
    ReservesNext(h, n, m, nextStarts, i);
    var end := m.sizes[oatIndex][DEX_CACHE_ARRAY] + D.Size(h.ptr, h.dexCounts(file));
    var bins: seq<nat> := m.sizes[oatIndex][DEX_CACHE_ARRAY := end];
    next := m.(sizes := m.sizes[oatIndex := bins]);
  }

  /** The first `i` dex files have their blocks. */
  ghost predicate Reserves(h: NativeHeap, n: Natives, m: Natives, starts: map<nat, Relocation>, i: nat) {
    && Good(h, m) && Grows(n, m) && m.relocations == n.relocations && AreBlocks(h, m.sizes, starts)
    && i <= |h.dexFiles|
    && (forall j :: 0 <= j < |h.dexFiles| ==> (j < i <==> h.dexFiles[j].0 in starts))
    && (forall j :: 0 <= j < i ==> starts[h.dexFiles[j].0].oatIndex == h.dexFiles[j].1)
  }

  lemma {:induction false} ReservesNext(h: NativeHeap, n: Natives, m: Natives, starts: map<nat, Relocation>, i: nat)
    requires i < |h.dexFiles| && h.Valid(|n.sizes|) && h.dexFiles[i].0 in starts
    requires Reserves(h, n, m, starts - {h.dexFiles[i].0}, i)
    requires starts[h.dexFiles[i].0] ==
             Relocation(h.dexFiles[i].1, m.sizes[h.dexFiles[i].1][DEX_CACHE_ARRAY], TDexCacheArray)
    ensures Reserves(h, n, Reserved(h, m, h.dexFiles[i].0, h.dexFiles[i].1), starts, i + 1)
  {
    var (file, oatIndex) := h.dexFiles[i];
    OneMoreBlock(h, m, file, oatIndex, starts);
    GrowsTransitive(n, m, Reserved(h, m, file, oatIndex));
    var before := starts - {file};
    forall j | 0 <= j < |h.dexFiles| && j != i
      ensures (j < i + 1 <==> h.dexFiles[j].0 in starts)
      ensures j < i ==> starts[h.dexFiles[j].0].oatIndex == h.dexFiles[j].1
    {
      assert h.dexFiles[j].0 != file && (j < i <==> h.dexFiles[j].0 in before);
    }
  }

  lemma {:induction false} OneMoreBlock(
    h: NativeHeap, n: Natives, file: nat, oatIndex: nat, starts: map<nat, Relocation>)
    requires Good(h, n) && oatIndex < |n.sizes| && file in starts && AreBlocks(h, n.sizes, starts - {file})
    requires starts[file] == Relocation(oatIndex, n.sizes[oatIndex][DEX_CACHE_ARRAY], TDexCacheArray)
    ensures var m := Reserved(h, n, file, oatIndex); Good(h, m) && Grows(n, m) && AreBlocks(h, m.sizes, starts)
  {
    var m := Reserved(h, n, file, oatIndex);
    ReservedIsValid(h, n, file, oatIndex);
    OtherDataKeepsTables(h, n, m);
    assert AlignedSizes(h.ptr, n.sizes[oatIndex]) && Unit(h.ptr, DEX_CACHE_ARRAY) == 2 * h.ptr.Bytes();
    forall f | f in starts ensures BlockInBin(h, m.sizes, f, starts[f]) {
      assert f != file ==> f in starts - {file} && BlockInBin(h, n.sizes, f, (starts - {file})[f]);
    }
    forall f, g | f in starts && g in starts && f != g ensures BlocksApart(h, f, starts[f], g, starts[g]) {
      if f != file && g != file {
        assert f in starts - {file} && g in starts - {file};
        assert BlocksApart(h, f, (starts - {file})[f], g, (starts - {file})[g]);
      } else {
        var other := if f == file then g else f;
        assert other in starts - {file} && BlockInBin(h, n.sizes, other, (starts - {file})[other]);
      }
    }
  }

  /** One more array inside its block: apart from whatever else has a place. */
  lemma {:induction false} ArrayAdded(
    h: NativeHeap, n: Natives, starts: map<nat, Relocation>, file: nat, k: D.Which)
    requires Valid(h, n) && AreBlocks(h, n.sizes, starts) && InBlocks(h, n, starts) && file in starts
    ensures var p, r := DexCacheArray(file, k), InBlock(h, starts[file], file, k);
            var m := n.(relocations := n.relocations[p := r]);
            Valid(h, m) && Grows(n, m) && InBlocks(h, m, starts)
  {
    var p, r := DexCacheArray(file, k), InBlock(h, starts[file], file, k);
    var m := n.(relocations := n.relocations[p := r]);
    ArrayInBin(h, n.sizes, file, k, starts[file]);
    forall q | q in m.relocations ensures InBin(h, m, q) {
      assert q != p ==> InBin(h, n, q);
    }
    forall q | q in n.relocations && q != p
      ensures Apart(h, p, r, q, n.relocations[q]) && Apart(h, q, n.relocations[q], p, r)
    {
      assert InBin(h, n, q);
      if n.relocations[q].kind.Bin() == DEX_CACHE_ARRAY {
        ArraysOfBlocksApart(h, n.sizes, starts, file, k, q.file, q.k);
      }
    }
    assert forall a, b :: a in m.relocations && b in m.relocations && a != b && a != p && b != p ==>
        Apart(h, a, n.relocations[a], b, n.relocations[b]);
  }

  lemma {:induction false} ArrayInBin(h: NativeHeap, sizes: seq<seq<nat>>, file: nat, k: D.Which, block: Relocation)
    requires Shaped(sizes) && BlockInBin(h, sizes, file, block)
    ensures var r := InBlock(h, block, file, k);
            && r.offset % D.Alignment(h.ptr, k) == 0
            && r.offset + D.Used(h.ptr, h.dexCounts(file), k) <= sizes[r.oatIndex][DEX_CACHE_ARRAY]
  {
    D.ArrayFits(h.ptr, h.dexCounts(file), k);
    D.ArrayIsAligned(h.ptr, h.dexCounts(file), block.offset, k);
  }

  lemma {:induction false} ArraysOfBlocksApart(
    h: NativeHeap, sizes: seq<seq<nat>>, starts: map<nat, Relocation>, f: nat, j: D.Which, g: nat, k: D.Which)
    requires AreBlocks(h, sizes, starts) && f in starts && g in starts && (f != g || j != k)
    ensures Apart(h, DexCacheArray(f, j), InBlock(h, starts[f], f, j), DexCacheArray(g, k), InBlock(h, starts[g], g, k))
  {
    D.ArrayFits(h.ptr, h.dexCounts(f), j);
    D.ArrayFits(h.ptr, h.dexCounts(g), k);
    if f != g {
      assert BlocksApart(h, f, starts[f], g, starts[g]);
    } else if j < k {
      D.ArraysAreApart(h.ptr, h.dexCounts(f), j, k);
    } else {
      D.ArraysAreApart(h.ptr, h.dexCounts(f), k, j);
    }
  }

  ghost predicate AddsArrays(h: NativeHeap, n: Natives, m: Natives, starts: map<nat, Relocation>) {
    && Valid(h, m) && Grows(n, m) && m.sizes == n.sizes && InBlocks(h, m, starts)
    && forall p :: p in m.relocations && p !in n.relocations ==> p.DexCacheArray?
  }

  /** AddDexCacheArrayRelocation for the arrays of one dex cache. */
  method RelocateArrays(h: NativeHeap, n: Natives, starts: map<nat, Relocation>, file: nat) returns (m: Natives)
    requires Valid(h, n) && AreBlocks(h, n.sizes, starts) && InBlocks(h, n, starts) && file in starts
    ensures AddsArrays(h, n, m, starts) && DexCacheAt(h, m, file, starts[file].oatIndex, starts[file].offset)
  {
    m := n;
    for k := 0 to 5
      invariant AddsArrays(h, n, m, starts)
      invariant forall j: D.Which {:trigger DexCacheArray(file, j)} :: j < k && IsRelocated(h, file, j) ==>
                  DexCacheArray(file, j) in m.relocations
    {
      if D.Used(h.ptr, h.dexCounts(file), k) != 0 {
        ghost var before := m;
        ArrayAdded(h, m, starts, file, k);
        m := m.(relocations := m.relocations[DexCacheArray(file, k) := InBlock(h, starts[file], file, k)]);
        GrowsTransitive(n, before, m);
      }
    }
    assert BlockInBin(h, m.sizes, file, starts[file]);
  }

  /** PrepareDexCacheArraySlots: blocks first, then the arrays in them. */
  method AssignDexCacheArrays(h: NativeHeap, n: Natives) returns (m: Natives)
    requires Good(h, n) && h.Valid(|n.sizes|) && forall p :: p in n.relocations ==> !p.DexCacheArray?
    ensures Good(h, m) && Grows(n, m) && HasDexCaches(h, m)
    ensures forall p :: p in m.relocations && p !in n.relocations ==> p.DexCacheArray?
  {
    var reserved, starts := ReserveBlocks(h, n);
    m := reserved;
    for i := 0 to |h.dexFiles|
      invariant AddsArrays(h, reserved, m, starts)
      invariant HasFirstDexCaches(h, m, i)
    {
      var before, file := m, h.dexFiles[i].0;
      m := RelocateArrays(h, m, starts, file);
      GrowsTransitive(reserved, before, m);
      assert DexCacheAt(h, m, file, h.dexFiles[i].1, starts[file].offset);
      OneMoreDexCache(h, before, m, i);
    }
    OtherDataKeepsTables(h, reserved, m);
    GrowsTransitive(n, reserved, m);
  }

  /* Arrays stay arrays while more is placed. */

  lemma {:induction false} FieldArrayStays(
    n: Natives, m: Natives, klass: nat, which: bool, count: Option<nat>, oatIndex: nat)
    requires HasFieldArray(n, klass, which, count, oatIndex) && Grows(n, m)
    ensures HasFieldArray(m, klass, which, count, oatIndex)
  {
  }

  lemma {:induction false} MethodArrayStays(
    ptr: PointerSize, n: Natives, m: Natives, klass: nat, dirty: seq<bool>, oatIndex: nat)
    requires Grows(n, m)
    ensures IsMethodArray(ptr, n, klass, dirty, oatIndex) ==> IsMethodArray(ptr, m, klass, dirty, oatIndex)
  {
  }

  lemma {:induction false} ClassesStay(
    h: NativeHeap, n: Natives, m: Natives, klass: nat, data: ClassData, oatIndex: nat)
    requires HasClass(h, n, klass, data, oatIndex) && Grows(n, m)
    ensures HasClass(h, m, klass, data, oatIndex)
  {
    FieldArrayStays(n, m, klass, false, data.staticFields, oatIndex);
    FieldArrayStays(n, m, klass, true, data.instanceFields, oatIndex);
    MethodArrayStays(h.ptr, n, m, klass, data.dirty, oatIndex);
  }
}
