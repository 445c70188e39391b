/** Bins of an image file: how a bin and an index share a 32-bit word, where the
    bins end up, which section covers which bin, and how images follow each
    other in memory. */
module ImageBins {
  import opened Util

  const MISC_DIRTY: nat := 0
  const CLASS_VERIFIED: nat := 1
  const REGULAR: nat := 2
  const CLASS_INITIALIZED: nat := 3
  const CLASS_INITIALIZED_FINAL_STATICS: nat := 4
  const STRING: nat := 5
  const ART_FIELD: nat := 6
  const ART_METHOD_CLEAN: nat := 7
  const ART_METHOD_DIRTY: nat := 8
  const IM_TABLE: nat := 9
  const IMT_CONFLICT_TABLE: nat := 10
  const RUNTIME_METHOD: nat := 11
  const DEX_CACHE_ARRAY: nat := 12

  type Bin = b: nat | b < 13
  type MirrorBin = b: nat | b < 6

  datatype PointerSize = P32 | P64 {
    function Bytes(): nat { if P32? then 4 else 8 }
  }

  /* ---- BinSlot ---- */

  const INDEX_LIMIT: nat := 0x800_0000  // 1 << kBinShift

  /** Bitwise or. */
  function Or(a: nat, b: nat): nat {
    if a == 0 && b == 0 then 0
    else (if a % 2 == 1 || b % 2 == 1 then 1 else 0) + 2 * Or(a / 2, b / 2)
  }

  function Pack(bin: Bin, index: nat): nat {
    Or(index, bin * 0x800_0000)
  }

  /** Three bits above the index. */
  function GetBin(word: nat): (bin: nat)
    ensures bin < 8
  {
    word / 0x800_0000 % 8
  }

  /** Everything but the three bin bits. */
  function GetIndex(word: nat): nat {
    word % 0x800_0000 + word / 0x4000_0000 * 0x4000_0000
  }

  /* Shifts, one bit at a time. */

  function Shl(a: nat, k: nat): nat {
    if k == 0 then a else 2 * Shl(a, k - 1)
  }

  function Shr(a: nat, k: nat): nat {
    if k == 0 then a else Shr(a / 2, k - 1)
  }

  function Low(a: nat, k: nat): nat {
    if k == 0 then 0 else a % 2 + 2 * Low(a / 2, k - 1)
  }

  /** Or works digit by digit, so it splits at every bit position. */
  lemma {:induction false} OrSplits(a: nat, b: nat, k: nat)
    ensures Or(a, Shl(b, k)) == Low(a, k) + Shl(Or(Shr(a, k), b), k)
  {
    if k > 0 {
      OrDoubles(a, Shl(b, k - 1));
      OrSplits(a / 2, b, k - 1);
    }
  }

  lemma {:induction false} OrDoubles(a: nat, c: nat)
    ensures Or(a, 2 * c) == a % 2 + 2 * Or(a / 2, c)
  {
    assert (2 * c) % 2 == 0 && (2 * c) / 2 == c;
  }

  lemma {:induction false} Parts(a: nat, k: nat)
    ensures a == Low(a, k) + Shl(Shr(a, k), k) && Low(a, k) < Shl(1, k)
  {
    if k > 0 {
      Parts(a / 2, k - 1);
    }
  }

  /** Shifts add up. */
  lemma {:induction false} ShlAdds(a: nat, j: nat, k: nat)
    ensures Shl(Shl(a, j), k) == Shl(a, j + k)
  {
    if k > 0 {
      ShlAdds(a, j, k - 1);
    }
  }

  lemma {:induction false} ShlBy27(a: nat)
    ensures Shl(a, 27) == 0x800_0000 * a
  {
    ShlBy9(a);
    ShlBy9(512 * a);
    ShlBy9(512 * (512 * a));
    ShlAdds(a, 9, 9);
    ShlAdds(a, 18, 9);
  }

  lemma {:induction false} ShlBy9(a: nat)
    ensures Shl(a, 9) == 512 * a
  {
    ShlBy3(a);
    ShlBy3(8 * a);
    ShlBy3(64 * a);
    ShlAdds(a, 3, 3);
    ShlAdds(a, 6, 3);
  }

  lemma {:induction false} ShlBy3(a: nat)
    ensures Shl(a, 3) == 8 * a
  {
    assert Shl(a, 1) == 2 * a;
  }

  lemma {:induction false} PackSplits(bin: Bin, index: nat)
    ensures Pack(bin, index) == index % 0x800_0000 + 0x800_0000 * Or(index / 0x800_0000, bin)
  {
    var low, high := PartsAt27(index, bin);
    DivModUnique(index, 0x800_0000, high, low);
  }

  lemma {:induction false} PartsAt27(index: nat, bin: Bin) returns (low: nat, high: nat)
    ensures index == high * 0x800_0000 + low && low < 0x800_0000
    ensures Pack(bin, index) == low + 0x800_0000 * Or(high, bin)
  {
    low, high := PartsAt(index, bin, 27);
    ShlBy27(1);
    ShlBy27(high);
    ShlBy27(bin);
    ShlBy27(Or(high, bin));
  }

  lemma {:induction false} PartsAt(index: nat, bin: nat, k: nat) returns (low: nat, high: nat)
    ensures index == Shl(high, k) + low && low < Shl(1, k)
    ensures Or(index, Shl(bin, k)) == low + Shl(Or(high, bin), k)
  {
    low, high := Low(index, k), Shr(index, k);
    Parts(index, k);
    OrSplits(index, bin, k);
  }

  /** Or-ing three low bits onto a multiple of eight adds them. */
  lemma {:induction false} OrOnEights(h: nat, b: nat)
    requires h % 8 == 0 && b < 8
    ensures Or(h, b) == h + b
  {
    OrCommutes(h, b);
    var low, high := PartsAt(b, h / 8, 3);
    ShlBy3(h / 8);
    ShlBy3(high);
    ShlBy3(1);
    OrZero(h / 8);
  }

  /** The three bin bits of an index are zero; every index below 2^27 is such. */
  predicate BinBitsAreFree(index: nat) {
    index / 0x800_0000 % 8 == 0
  }

  lemma {:induction false} SmallIndexFits(index: nat)
    requires index < INDEX_LIMIT
    ensures BinBitsAreFree(index)
  {
  }

  /** A bin slot reads back what was packed exactly when the 32-bit index leaves
      the three bin bits alone. */
  lemma {:induction false} SlotRoundTripIff(bin: MirrorBin, index: nat)
    requires index < TWO_32
    ensures GetBin(Pack(bin, index)) == bin && GetIndex(Pack(bin, index)) == index <==> BinBitsAreFree(index)
  {
    PackSplits(bin, index);
    if index / 0x800_0000 % 8 == 0 {
      OrOnEights(index / 0x800_0000, bin);
    }
    DecodesIff(bin, index, Or(index / 0x800_0000, bin));
  }

  /** The first index that is lost, in any bin. */
  lemma {:induction false} LargeIndexIsLost(bin: MirrorBin)
    ensures GetBin(Pack(bin, INDEX_LIMIT)) != bin || GetIndex(Pack(bin, INDEX_LIMIT)) != INDEX_LIMIT
  {
    SlotRoundTripIff(bin, INDEX_LIMIT);
  }

  lemma {:induction false} DecodesIff(bin: MirrorBin, index: nat, high: nat)
    requires index / 0x800_0000 % 8 == 0 ==> high == index / 0x800_0000 + bin
    ensures var word := index % 0x800_0000 + 0x800_0000 * high;
            GetBin(word) == bin && GetIndex(word) == index <==> index / 0x800_0000 % 8 == 0
  {
    DecodesWord(high, index % 0x800_0000);
  }

  lemma {:induction false} DecodesWord(high: nat, low: nat)
    requires low < 0x800_0000
    ensures GetBin(low + 0x800_0000 * high) == high % 8
    ensures GetIndex(low + 0x800_0000 * high) == low + high / 8 * 0x4000_0000
  {
    var word := low + 0x800_0000 * high;
    assert word / 0x800_0000 == high && word % 0x800_0000 == low;
    assert word == (high / 8) * 0x4000_0000 + (low + 0x800_0000 * (high % 8));
    assert word / 0x4000_0000 == high / 8;
  }

  lemma {:induction false} OrCommutes(a: nat, b: nat)
    ensures Or(a, b) == Or(b, a)
  {
    if a != 0 || b != 0 {
      OrCommutes(a / 2, b / 2);
    }
  }

  lemma {:induction false} OrZero(b: nat)
    ensures Or(0, b) == b
  {
    if b != 0 {
      OrZero(b / 2);
    }
  }

  /* ---- Where the bins go ---- */

  /** Methods and tables of pointers start at pointer alignment, dex cache
      arrays at twice that; everything else goes where the last bin ended. */
  function Align(ptr: PointerSize, i: Bin, x: nat): (r: nat)
    ensures x <= r
  {
    if i == ART_METHOD_CLEAN || i == ART_METHOD_DIRTY then RoundUp(x, ptr.Bytes())
    else if i == DEX_CACHE_ARRAY then RoundUp(x, 2 * ptr.Bytes())
    else if i == IM_TABLE || i == IMT_CONFLICT_TABLE then RoundUp(x, ptr.Bytes())
    else x
  }

  function BinOffset(begin: nat, ptr: PointerSize, sizes: seq<nat>, i: Bin): nat
    requires |sizes| == 13
    decreases |sizes|, i
  {
    if i == 0 then begin else Align(ptr, i, BinOffset(begin, ptr, sizes, i - 1) + sizes[i - 1])
  }

  ghost predicate AreBinOffsets(begin: nat, ptr: PointerSize, sizes: seq<nat>, offsets: seq<nat>)
    requires |sizes| == 13
  {
    |offsets| <= 13 && forall i :: 0 <= i < |offsets| ==> offsets[i] == BinOffset(begin, ptr, sizes, i)
  }

  method CalculateBinOffsets(begin: nat, ptr: PointerSize, sizes: seq<nat>) returns (offsets: seq<nat>)
    requires |sizes| == 13
    ensures |offsets| == 13 && AreBinOffsets(begin, ptr, sizes, offsets)
  {
    var binOffset := begin;
    offsets := [];
    for i := 0 to 13
      invariant |offsets| == i && AreBinOffsets(begin, ptr, sizes, offsets)
      invariant binOffset == if i == 0 then begin else BinOffset(begin, ptr, sizes, i - 1) + sizes[i - 1]
    {
      binOffset := Align(ptr, i, binOffset);
      assert binOffset == BinOffset(begin, ptr, sizes, i);
      offsets := offsets + [binOffset];
      binOffset := binOffset + sizes[i];
    }
  }

  lemma {:induction false} BinsAreApart(begin: nat, ptr: PointerSize, sizes: seq<nat>, i: Bin, j: Bin)
    requires |sizes| == 13 && i < j
    ensures BinOffset(begin, ptr, sizes, i) + sizes[i] <= BinOffset(begin, ptr, sizes, j)
    decreases j
  {
    if i < j - 1 {
      BinsAreApart(begin, ptr, sizes, i, j - 1);
    }
  }

  function Sum(sizes: seq<nat>, n: nat): nat
    requires n <= |sizes|
  {
    if n == 0 then 0 else Sum(sizes, n - 1) + sizes[n - 1]
  }

  /** Mirror bins and the field bin follow each other without padding. */
  lemma {:induction false} MirrorBinsAreTight(begin: nat, ptr: PointerSize, sizes: seq<nat>, i: Bin)
    requires |sizes| == 13 && i <= ART_FIELD
    ensures BinOffset(begin, ptr, sizes, i) == begin + Sum(sizes, i)
  {
    if i > 0 {
      MirrorBinsAreTight(begin, ptr, sizes, i - 1);
    }
  }

  lemma {:induction false} MirrorBinsAreAligned(begin: nat, ptr: PointerSize, sizes: seq<nat>, i: Bin)
    requires |sizes| == 13 && i <= ART_FIELD && begin % 8 == 0
    requires forall b :: 0 <= b < 6 ==> sizes[b] % 8 == 0
    ensures BinOffset(begin, ptr, sizes, i) % 8 == 0
  {
    if i > 0 {
      MirrorBinsAreAligned(begin, ptr, sizes, i - 1);
    }
  }

  lemma {:induction false} SumGrows(sizes: seq<nat>, m: nat, n: nat)
    requires m <= n <= |sizes|
    ensures Sum(sizes, m) <= Sum(sizes, n)
  {
    if m < n {
      SumGrows(sizes, m, n - 1);
    }
  }

  lemma {:induction false} SumUpdate(sizes: seq<nat>, b: nat, d: nat, n: nat)
    requires b < |sizes| && n <= |sizes|
    ensures Sum(sizes[b := sizes[b] + d], n) == Sum(sizes, n) + if b < n then d else 0
  {
    if n > 0 {
      SumUpdate(sizes, b, d, n - 1);
    }
  }

  /* ---- Sections ---- */

  datatype Section = Section(offset: nat, size: nat) {
    function End(): nat { offset + size }
  }

  datatype Sections = Sections(
    objects: Section, artFields: Section, artMethods: Section, imTables: Section, conflictTables: Section,
    runtimeMethods: Section, dexCacheArrays: Section, internedStrings: Section, classTable: Section)
  {
    function Of(b: Bin): Section {
      if b < ART_FIELD then objects
      else if b == ART_FIELD then artFields
      else if b <= ART_METHOD_DIRTY then artMethods
      else if b == IM_TABLE then imTables
      else if b == IMT_CONFLICT_TABLE then conflictTables
      else if b == RUNTIME_METHOD then runtimeMethods
      else dexCacheArrays
    }

    predicate InOrder() {
      && objects.End() <= artFields.offset && artFields.End() <= artMethods.offset
      && artMethods.End() <= imTables.offset && imTables.End() <= conflictTables.offset
      && conflictTables.End() <= runtimeMethods.offset && runtimeMethods.End() <= dexCacheArrays.offset
      && dexCacheArrays.End() <= internedStrings.offset && internedStrings.End() <= classTable.offset
    }

    ghost predicate Covers(begin: nat, ptr: PointerSize, sizes: seq<nat>, b: Bin)
      requires |sizes| == 13
    {
      Of(b).offset <= BinOffset(begin, ptr, sizes, b) && BinOffset(begin, ptr, sizes, b) + sizes[b] <= Of(b).End()
    }
  }

  /** The two method bins share a section whose length is the sum of their
      sizes. It reaches the end of the second exactly when the first needs no
      padding behind it. */
  lemma {:induction false} MethodSectionReachesIff(begin: nat, ptr: PointerSize, sizes: seq<nat>)
    requires |sizes| == 13
    ensures BinOffset(begin, ptr, sizes, ART_METHOD_DIRTY) == BinOffset(begin, ptr, sizes, ART_METHOD_CLEAN) + sizes[7]
            <==> sizes[ART_METHOD_CLEAN] % ptr.Bytes() == 0
  {
    RoundUpAligned(BinOffset(begin, ptr, sizes, 6) + sizes[6], ptr.Bytes());
    PaddingIff(BinOffset(begin, ptr, sizes, 7), sizes[7], ptr.Bytes());
  }

  lemma {:induction false} PaddingIff(start: nat, size: nat, n: nat)
    requires n > 0 && start % n == 0
    ensures RoundUp(start + size, n) == start + size <==> size % n == 0
  {
    RoundUpAligned(start + size, n);
    var q := start / n;
    assert start == q * n;
    ModShift(size, q, n);
    assert (start + size) % n == size % n;
    if size % n == 0 {
      RoundUpUnique(start + size, n, start + size);
    }
  }

  /** Sections follow each other and each covers its bins, no byte more: the
      method section spans its two bins. */
  method CreateImageSections(
    begin: nat, ptr: PointerSize, imageEnd: nat, sizes: seq<nat>, offsets: seq<nat>, internBytes: nat, classBytes: nat)
      returns (s: Sections, end: nat)
    requires |sizes| == |offsets| == 13
    requires forall i :: 0 <= i < 13 ==> offsets[i] == BinOffset(begin, ptr, sizes, i)
    requires imageEnd == begin + Sum(sizes, 6)
    requires sizes[ART_METHOD_CLEAN] % ptr.Bytes() == 0
    ensures s.InOrder() && end == s.classTable.End()
    ensures forall b: Bin :: s.Covers(begin, ptr, sizes, b)
    ensures s.objects == Section(0, imageEnd)
    ensures forall b: Bin :: ART_FIELD <= b && b != ART_METHOD_CLEAN && b != ART_METHOD_DIRTY ==>
              s.Of(b) == Section(offsets[b], sizes[b])
    ensures s.artMethods.offset == offsets[7] && s.artMethods.End() == offsets[8] + sizes[8]
    ensures s.internedStrings.offset % 8 == 0 && s.internedStrings.size == internBytes
    ensures s.classTable.offset % 8 == 0 && s.classTable.size == classBytes
  {
    var arrays := Section(offsets[12], sizes[12]);
    var internStart := RoundUp(arrays.End(), 8);
    RoundUpAligned(arrays.End(), 8);
    var strings := Section(internStart, internBytes);
    var classStart := RoundUp(strings.End(), 8);
    RoundUpAligned(strings.End(), 8);
    s := Sections(Section(0, imageEnd), Section(offsets[6], sizes[6]), Section(offsets[7], sizes[7] + sizes[8]),
                  Section(offsets[9], sizes[9]), Section(offsets[10], sizes[10]), Section(offsets[11], sizes[11]),
                  arrays, strings, Section(classStart, classBytes));
    end := s.classTable.End();
    MethodSectionReachesIff(begin, ptr, sizes);
    MirrorBinsAreTight(begin, ptr, sizes, 6);
    forall b: Bin ensures s.Covers(begin, ptr, sizes, b) {
      if b < 6 {
        BinsAreApart(begin, ptr, sizes, b, 6);
      }
    }
    forall i: Bin | 6 <= i < 12 ensures offsets[i] + sizes[i] <= offsets[i + 1] {
      BinsAreApart(begin, ptr, sizes, i, i + 1);
    }
  }

  /* ---- Images in memory ---- */

  /** Image `k` begins where the page-rounded image before it ends. */
  function ImageBegin(globalBegin: nat, ends: seq<nat>, k: nat): nat
    requires k <= |ends|
  {
    if k == 0 then globalBegin else ImageBegin(globalBegin, ends, k - 1) + RoundUp(ends[k - 1], PAGE_SIZE)
  }

  method PlaceImages(globalBegin: nat, ends: seq<nat>) returns (begins: seq<nat>)
    ensures |begins| == |ends|
    ensures forall k :: 0 <= k < |ends| ==> begins[k] == ImageBegin(globalBegin, ends, k)
  {
    var imageOffset := 0;
    begins := [];
    for k := 0 to |ends|
      invariant |begins| == k && globalBegin + imageOffset == ImageBegin(globalBegin, ends, k)
      invariant forall j :: 0 <= j < k ==> begins[j] == ImageBegin(globalBegin, ends, j)
    {
      begins := begins + [globalBegin + imageOffset];
      imageOffset := imageOffset + RoundUp(ends[k], PAGE_SIZE);
    }
  }

  lemma {:induction false} ImagesAreApart(globalBegin: nat, ends: seq<nat>, j: nat, k: nat)
    requires j < k < |ends|
    ensures ImageBegin(globalBegin, ends, j) + ends[j] <= ImageBegin(globalBegin, ends, k)
    decreases k
  {
    if j < k - 1 {
      ImagesAreApart(globalBegin, ends, j, k - 1);
    }
  }
}
