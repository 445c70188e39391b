/** Whole ELF files: their program headers, and when the predictions of the
    dynamic section are right. */
module ElfFile {
  import opened Util
  import opened ElfBuilder
  import opened ElfDynamic

  /* ---- Program headers of the file ---- */

  lemma {:induction false} DeclaredAt(elf: ElfTypes, x: Inputs, buildId: bool, s: seq<Section>, i: nat)
    requires AreDeclared(elf, x, buildId, s) && i < |s|
    ensures var n, text := |s| - 4, |First(buildId)|;
            && n == text + 1 + |Optional(x)|
            && (i < text ==> Like(s[i], First(buildId)[i])) && (i == text ==> Like(s[i], Text()))
            && (text < i < n ==> Like(s[i], Optional(x)[i - text - 1])) && (n <= i ==> Like(s[i], Last(elf)[i - n]))
  {
    var n, text := |s| - 4, |First(buildId)|;
    var t := s[..n];
    if i < n {
      assert t[i] == s[i];
      assert i < text ==> Like(t[0 + i], First(buildId)[i]);
      assert text < i ==> Like(t[text + 1 + (i - text - 1)], Optional(x)[i - text - 1]);
    } else {
      assert Like(s[n + (i - n)], Last(elf)[i - n]);
    }
  }

  /** Every section is page-aligned, or is the build id, .dynsym or .hash. */
  lemma {:induction false} UnalignedSections(elf: ElfTypes, x: Inputs, buildId: bool, s: seq<Section>, i: nat)
    requires AreDeclared(elf, x, buildId, s) && i < |s| && s[i].align != PAGE_SIZE
    ensures (i == 0 && Like(s[0], BuildId())) || i == |s| - 3 || i == |s| - 2
  {
    DeclaredAt(elf, x, buildId, s, i);
  }

  lemma {:induction false} SpecialSections(elf: ElfTypes, x: Inputs, buildId: bool, s: seq<Section>, i: nat)
    requires AreDeclared(elf, x, buildId, s) && i < |s| && s[i].phdrType != 0
    ensures i in {0, |s| - 5, |s| - 1} && !s[i].noBits
  {
    DeclaredAt(elf, x, buildId, s, i);
  }

  lemma {:induction false} LastSections(elf: ElfTypes, x: Inputs, buildId: bool, s: seq<Section>)
    requires AreDeclared(elf, x, buildId, s)
    ensures Like(s[|s| - 4], Dynstr()) && Like(s[|s| - 3], Dynsym(elf)) && Like(s[|s| - 2], Hash())
    ensures Like(s[|s| - 1], Dynamic()) && 6 <= |s| <= 9
  {
    var n, d := |s| - 4, Last(elf);
    assert Like(s[n + 0], d[0]) && Like(s[n + 1], d[1]) && Like(s[n + 2], d[2]) && Like(s[n + 3], d[3]);
  }

  /** .dynstr, .dynsym and .dynamic have bytes. */
  ghost predicate HasDynamic(s: seq<Section>) {
    |s| >= 4 && s[|s| - 4].size > 0 && s[|s| - 3].size > 0 && s[|s| - 1].size > 0
  }

  /** The sections of the file from `n` on take no memory: debug sections, if
      any, and .shstrtab, which End always writes. */
  ghost predicate RestIsOther(s: seq<Section>, n: nat) {
    n <= |s| && forall i :: n <= i < |s| ==> !s[i].alloc
  }

  /** Program headers do not depend on the other sections. */
  lemma {:induction false} OthersAddNothing(elf: ElfTypes, s: seq<Section>, n: nat, k: nat)
    requires RestIsOther(s, n) && n <= k <= |s|
    ensures Loads(elf, s, k) == Loads(elf, s, n) && Extras(s, k) == Extras(s, n)
    decreases k
  {
    if n < k {
      OthersAddNothing(elf, s, n, k - 1);
    }
  }

  lemma {:induction false} PrefixIsEnough(elf: ElfTypes, s: seq<Section>, n: nat, k: nat)
    requires k <= n <= |s|
    ensures Loads(elf, s[..n], k) == Loads(elf, s, k) && Extras(s[..n], k) == Extras(s, k)
  {
    if k > 0 {
      PrefixIsEnough(elf, s, n, k - 1);
      assert s[..n][k - 1] == s[k - 1];
    }
  }

  /** The alignment CHECK passes: what is not page-aligned joins a segment. */
  lemma {:induction false} HeadersExist(elf: ElfTypes, x: Inputs, buildId: bool, s: seq<Section>)
    requires AreDeclared(elf, x, buildId, s) && HasDynamic(s)
    ensures Loads(elf, s, |s|).Some? && |Loads(elf, s, |s|).value + Extras(s, |s|)| <= MAX_PROGRAM_HEADERS
  {
    LastSections(elf, x, buildId, s);
    forall i | 0 <= i < |s| && Loaded(s[i]) && !Joins(s, i) ensures s[i].align == PAGE_SIZE {
      if s[i].align != PAGE_SIZE {
        UnalignedSections(elf, x, buildId, s, i);
      }
    }
    AlignmentCheckPassesIff(elf, s, |s|);
    LoadsBound(elf, s, |s|);
    FewExtras(elf, x, buildId, s);
  }

  lemma {:induction false} FewExtras(elf: ElfTypes, x: Inputs, buildId: bool, s: seq<Section>)
    requires AreDeclared(elf, x, buildId, s) && |s| >= 5
    ensures |Extras(s, |s|)| <= 3
  {
    var special: set<nat> := {0, |s| - 5, |s| - 1};
    forall i | 0 <= i < |s| && s[i].phdrType != 0 ensures i in special {
      SpecialSections(elf, x, buildId, s, i);
    }
    ExtrasBound(s, |s|, special);
    assert (set i | i in special && i < |s|) == special;
  }

  lemma {:induction false} HeadersAreLike(elf: ElfTypes, s: seq<Section>, h: seq<Section>, from: nat, d: seq<Section>)
    requires |h| == |s| && forall i :: 0 <= i < |s| ==> h[i] == HeaderOf(elf, s[i])
    requires AreLike(s, from, d)
    ensures AreLike(h, from, d)
  {
    forall i | 0 <= i < |d| ensures Like(h[from + i], d[i]) {
      assert Like(s[from + i], d[i]);
    }
  }

  lemma {:induction false} HeadersAreLoaded(elf: ElfTypes, x: Inputs, buildId: bool, s: seq<Section>)
    requires AreLoaded(x, buildId, s)
    ensures AreLoaded(x, buildId, Headers(elf, s))
  {
    var h, text := Headers(elf, s), |First(buildId)|;
    HeadersAreLike(elf, s, h, 0, First(buildId));
    HeadersAreLike(elf, s, h, text + 1, Optional(x));
  }

  /** The headers of declared sections declare the same. */
  lemma {:induction false} HeadersAreDeclared(elf: ElfTypes, x: Inputs, buildId: bool, s: seq<Section>)
    requires AreDeclared(elf, x, buildId, s)
    ensures AreDeclared(elf, x, buildId, Headers(elf, s))
  {
    var h, n := Headers(elf, s), |s| - 4;
    HeadersAreLoaded(elf, x, buildId, s[..n]);
    assert h[..n] == Headers(elf, s[..n]);
    HeadersAreLike(elf, s, h, n, Last(elf));
  }

  /** A size that a header holds as it is. */
  predicate IsSize(n: nat) {
    0 < n < TWO_32
  }

  lemma {:induction false} HeadersHaveDynamic(elf: ElfTypes, s: seq<Section>)
    requires |s| >= 4 && IsSize(s[|s| - 4].size) && IsSize(s[|s| - 3].size) && IsSize(s[|s| - 1].size)
    ensures HasDynamic(Headers(elf, s))
  {
  }

  lemma {:induction false} DynamicHasSizes(elf: ElfTypes, x: Inputs, at: nat, s: seq<Section>, va: nat)
    requires x.Valid() && DynamicPlaced(elf, x, at, s, va)
    ensures IsSize(s[|s| - 4].size) && IsSize(s[|s| - 3].size) && IsSize(s[|s| - 1].size)
  {
  }

  /* ---- The headers of a whole file ---- */

  /** The file holds the declared sections first, and then others. */
  ghost predicate IsFile(elf: ElfTypes, x: Inputs, buildId: bool, s: seq<Section>, n: nat) {
    && AllPlaced(elf.HeaderSize(), s) && RestIsOther(s, n) && AllAllocated(s[..n])
    && AreDeclared(elf, x, buildId, s[..n]) && DynamicPlaced(elf, x, PAGE_SIZE, s[..n], VaAfter(elf.HeaderSize(), s, n))
  }

  lemma {:induction false} HeadersOfPrefix(elf: ElfTypes, s: seq<Section>, n: nat)
    requires RestIsOther(s, n)
    ensures var h, d := Headers(elf, s), Headers(elf, s[..n]);
            Loads(elf, h, |s|) == Loads(elf, d, n) && Extras(h, |s|) == Extras(d, n)
  {
    var h := Headers(elf, s);
    OthersAddNothing(elf, h, n, |s|);
    PrefixIsEnough(elf, h, n, n);
    assert h[..n] == Headers(elf, s[..n]);
  }

  lemma {:induction false} FileIsWellFormed(elf: ElfTypes, x: Inputs, buildId: bool, s: seq<Section>, n: nat)
    requires IsFile(elf, x, buildId, s, n)
    ensures AllocatedFirst(s) && forall i :: 0 <= i < |s| && s[i].phdrType != 0 ==> !s[i].noBits
  {
    assert forall i :: 0 <= i < n ==> s[..n][i] == s[i];
    forall i | 0 <= i < |s| && s[i].phdrType != 0 ensures !s[i].noBits {
      if i < n {
        SpecialSections(elf, x, buildId, s[..n], i);
      } else {
        assert Placed(elf.HeaderSize(), s, i);
      }
    }
  }

  /** PT_LOADs follow PT_PHDR, and the last header is PT_DYNAMIC for .dynamic. */
  ghost predicate AreHeaders(elf: ElfTypes, headers: seq<Phdr>, loads: nat, dynamic: Section) {
    && 1 <= loads < |headers| - 1 && |headers| <= MAX_PROGRAM_HEADERS
    && IsTable(elf, headers[0], |headers|)
    && headers[|headers| - 1].ptype == PT_DYNAMIC && Describes(headers[|headers| - 1], HeaderOf(elf, dynamic))
  }

  /** The bytes of PT_PHDR and of every entry behind the PT_LOADs are mapped. */
  ghost predicate OthersInside(headers: seq<Phdr>, loads: nat) {
    && loads < |headers| && InsideLoad(headers[..loads + 1], headers[0])
    && forall j :: loads < j < |headers| ==> InsideLoad(headers[..loads + 1], headers[j])
  }

  /** The loops fail no CHECK and end with an entry for .dynamic. */
  ghost predicate IsReady(elf: ElfTypes, s: seq<Section>, dynamic: Section) {
    var h := Headers(elf, s);
    && Loads(elf, h, |s|).Some? && |Loads(elf, h, |s|).value + Extras(h, |s|)| <= MAX_PROGRAM_HEADERS
    && |Extras(h, |s|)| > 0 && Extras(h, |s|)[|Extras(h, |s|)| - 1] == Extra(HeaderOf(elf, dynamic))
    && dynamic.phdrType == PT_DYNAMIC
  }

  lemma {:induction false} DeclaredHeadersExist(elf: ElfTypes, x: Inputs, buildId: bool, s: seq<Section>, va: nat)
    requires x.Valid() && AreDeclared(elf, x, buildId, s) && DynamicPlaced(elf, x, PAGE_SIZE, s, va)
    ensures IsReady(elf, s, s[|s| - 1])
  {
    HeadersAreDeclared(elf, x, buildId, s);
    DynamicHasSizes(elf, x, PAGE_SIZE, s, va);
    HeadersHaveDynamic(elf, s);
    DeclaredIsReady(elf, x, buildId, Headers(elf, s));
  }

  lemma {:induction false} DeclaredIsReady(elf: ElfTypes, x: Inputs, buildId: bool, h: seq<Section>)
    requires AreDeclared(elf, x, buildId, h) && HasDynamic(h)
    ensures Loads(elf, h, |h|).Some? && |Loads(elf, h, |h|).value + Extras(h, |h|)| <= MAX_PROGRAM_HEADERS
    ensures |Extras(h, |h|)| > 0 && Extras(h, |h|)[|Extras(h, |h|)| - 1] == Extra(h[|h| - 1])
    ensures h[|h| - 1].phdrType == PT_DYNAMIC
  {
    HeadersExist(elf, x, buildId, h);
    LastSections(elf, x, buildId, h);
  }

  lemma {:induction false} FileIsReady(elf: ElfTypes, x: Inputs, buildId: bool, s: seq<Section>, n: nat)
    requires x.Valid() && IsFile(elf, x, buildId, s, n)
    ensures n > 0 && IsReady(elf, s, s[n - 1])
  {
    DeclaredHeadersExist(elf, x, buildId, s[..n], VaAfter(elf.HeaderSize(), s, n));
    ReadyWithOthers(elf, s, n, s[n - 1]);
  }

  lemma {:induction false} ReadyWithOthers(elf: ElfTypes, s: seq<Section>, n: nat, dynamic: Section)
    requires RestIsOther(s, n) && IsReady(elf, s[..n], dynamic)
    ensures IsReady(elf, s, dynamic)
  {
    HeadersOfPrefix(elf, s, n);
  }

  /** The program headers of a file: no CHECK fails. */
  method MakeHeaders(elf: ElfTypes, x: Inputs, buildId: bool, s: seq<Section>, ghost n: nat)
      returns (headers: seq<Phdr>, loads: nat)
    requires x.Valid() && IsFile(elf, x, buildId, s, n)
    ensures AreHeaders(elf, headers, loads, s[n - 1]) && ListsSpecial(Headers(elf, s), headers[loads + 1..])
    ensures (forall i :: 0 <= i < |s| ==> InSpace(elf, s[i])) ==> GoodLoads(headers[..loads + 1])
    ensures MapsAll(elf, headers[..loads + 1], s) <==> forall i :: 0 <= i < |s| ==> Fits(elf, s, i)
    ensures MapsAll(elf, headers[..loads + 1], s) ==> OthersInside(headers, loads)
  {
    FileIsWellFormed(elf, x, buildId, s, n);
    FileIsReady(elf, x, buildId, s, n);
    var r;
    r, loads := MakeProgramHeaders(elf, s);
    headers := r.value;
    EndsWithDynamic(elf, s, s[n - 1], headers, loads);
  }

  lemma {:induction false} EndsWithDynamic(
    elf: ElfTypes, s: seq<Section>, dynamic: Section, headers: seq<Phdr>, loads: nat)
    requires IsReady(elf, s, dynamic) && 1 <= loads < |headers| <= MAX_PROGRAM_HEADERS
    requires headers[loads + 1..] == Extras(Headers(elf, s), |s|) && IsTable(elf, headers[0], |headers|)
    ensures AreHeaders(elf, headers, loads, dynamic)
  {
    assert headers[|headers| - 1] == headers[loads + 1..][|headers| - loads - 2];
  }

  ghost predicate IsOther(t: Section) {
    !t.alloc && !t.noBits && IsAlignment(t.align)
  }

  /** Debug sections and .shstrtab. */
  method WriteOthers(b: Builder, others: seq<Section>, sizes: seq<nat>)
    requires b.Valid() && !b.open && |others| == |sizes| && forall i :: 0 <= i < |others| ==> IsOther(others[i])
    modifies b
    ensures b.Valid() && !b.open && b.va == old(b.va)
    ensures |old(b.sections)| <= |b.sections| && b.sections[..|old(b.sections)|] == old(b.sections)
    ensures forall i :: |old(b.sections)| <= i < |b.sections| ==> !b.sections[i].alloc
  {
    ghost var before := b.sections;
    for k := 0 to |others|
      invariant b.Valid() && !b.open && b.va == old(b.va)
      invariant |b.sections| == |before| + k && b.sections[..|before|] == before
      invariant forall i :: |before| <= i < |b.sections| ==> !b.sections[i].alloc
    {
      ghost var s := b.sections;
      b.WriteSection(others[k], sizes[k]);
      assert b.sections[..|s|] == s;
      assert forall i :: 0 <= i < |s| ==> b.sections[i] == b.sections[..|s|][i] == s[i];
    }
  }

  /** A whole file with its program headers, for all inputs: `others` are the
      sections that follow, the last of which is .shstrtab. */
  method WriteElfWithHeaders(elf: ElfTypes, x: Inputs, buildId: bool, others: seq<Section>, sizes: seq<nat>)
      returns (b: Builder, headers: seq<Phdr>, loads: nat, ghost n: nat)
    requires x.Valid() && |others| == |sizes| && forall i :: 0 <= i < |others| ==> IsOther(others[i])
    ensures b.Valid() && !b.open && IsFile(elf, x, buildId, b.sections, n)
    ensures AreHeaders(elf, headers, loads, b.sections[n - 1])
    ensures ListsSpecial(Headers(elf, b.sections), headers[loads + 1..])
    ensures (forall i :: 0 <= i < |b.sections| ==> InSpace(elf, b.sections[i])) ==> GoodLoads(headers[..loads + 1])
    ensures MapsAll(elf, headers[..loads + 1], b.sections) <==>
            forall i :: 0 <= i < |b.sections| ==> Fits(elf, b.sections, i)
    ensures MapsAll(elf, headers[..loads + 1], b.sections) ==> OthersInside(headers, loads)
  {
    b, n := WriteFile(elf, x, buildId, others, sizes);
    headers, loads := MakeHeaders(elf, x, buildId, b.sections, n);
  }

  method WriteFile(elf: ElfTypes, x: Inputs, buildId: bool, others: seq<Section>, sizes: seq<nat>)
      returns (b: Builder, ghost n: nat)
    requires x.Valid() && |others| == |sizes| && forall i :: 0 <= i < |others| ==> IsOther(others[i])
    ensures b.Valid() && !b.open && IsFile(elf, x, buildId, b.sections, n)
    ensures OatPlaced(x, |First(buildId)| - 1, b.sections[..n])
  {
    var plan, rodata;
    b, plan, rodata := WriteElf(elf, x, buildId);
    n := |b.sections|;
    ghost var s, va := b.sections, b.va;
    WriteOthers(b, others, sizes);
    b.AllArePlaced();
    AfterPrefix(elf.HeaderSize(), s, b.sections, n);
    assert va == VaAfter(elf.HeaderSize(), b.sections, n);
  }

  /* ---- When the predictions are right ---- */

  /** The predicted addresses, that of .dynamic excepted, are the ones in the
      section headers. */
  ghost predicate AddressesAreRight(elf: ElfTypes, x: Inputs, rodata: nat, p: Plan, s: seq<Section>)
    requires OatPlaced(x, rodata, s) && |s| >= 4
  {
    var n := |s| - 4;
    && p.textAddress == Field(elf, s[rodata + 1].addr)
    && (x.bssSize != 0 ==> p.bssAddress == Field(elf, s[rodata + 2].addr))
    && p.dynstrAddress == Field(elf, s[n].addr) && p.dynamic.dynsymAddress == Field(elf, s[n + 1].addr)
    && p.dynamic.hashAddress == Field(elf, s[n + 2].addr)
  }

  /** They are Elf_Words, so they are right for 32-bit files, and for 64-bit
      files exactly if .hash begins below 4 GiB. */
  lemma {:induction false} AddressesAreRightIff(
    elf: ElfTypes, x: Inputs, rodata: nat, p: Plan, s: seq<Section>, va: nat)
    requires x.Valid() && IsPlan(elf, x, PAGE_SIZE, rodata + 1, p)
    requires OatPlaced(x, rodata, s) && DynamicPlaced(elf, x, PAGE_SIZE, s, va)
    ensures AddressesAreRight(elf, x, rodata, p, s) <==> elf.Elf32? || HashAt(elf, x, PAGE_SIZE) < TWO_32
  {
    var at := PAGE_SIZE;
    assert TextAt(x, at) <= BssAt(x, at) <= DynstrAt(x, at) <= DynsymAt(elf, x, at) <= HashAt(elf, x, at);
    WordIsFieldIff(elf, TextAt(x, at), TextAt(x, at));
    WordIsFieldIff(elf, BssAt(x, at), BssAt(x, at));
    WordIsFieldIff(elf, DynstrAt(x, at), DynstrAt(x, at));
    WordIsFieldIff(elf, DynsymAt(elf, x, at), DynsymAt(elf, x, at));
    WordIsFieldIff(elf, HashAt(elf, x, at), HashAt(elf, x, at));
  }

  /** A predicted word is the header field of a number nearby exactly if it is
      the word of that number, and the field does not hold more than a word. */
  lemma {:induction false} WordIsFieldIff(elf: ElfTypes, predicted: nat, actual: nat)
    requires predicted < actual + TWO_32 && actual < predicted + TWO_32
    ensures Word(predicted) == Field(elf, actual) <==>
            predicted == actual && (elf.Elf32? || actual < TWO_32)
  {
    if Word(predicted) == Field(elf, actual) {
      WordsDiffer(predicted, actual);
    }
  }

  /** Both loaded-size checks: at the end of WriteDynamicSection and in End. */
  ghost predicate LoadedSizeChecks(elf: ElfTypes, p: Plan, s: seq<Section>, va: nat)
    requires |s| > 0
  {
    && p.dynamic.loadedSize == Field(elf, RoundUp(s[|s| - 1].addr + s[|s| - 1].size, PAGE_SIZE))
    && (p.dynamic.loadedSize == 0 || p.dynamic.loadedSize == Field(elf, RoundUp(va, PAGE_SIZE)))
  }

  /** From a page boundary, .dynstr, .dynsym and .hash end on the same page
      whether .hash or .dynsym is counted last. */
  predicate SamePage(elf: ElfTypes, x: Inputs) {
    RoundUp(DynsymEnd(elf, x) + DynsymSize(elf, x), PAGE_SIZE) == RoundUp(DynsymEnd(elf, x) + HashSize(x), PAGE_SIZE)
  }

  /** The bytes from .dynstr to the end of .dynsym. */
  function DynsymEnd(elf: ElfTypes, x: Inputs): nat {
    RoundUp(DynstrSize(x), elf.OffSize()) + DynsymSize(elf, x)
  }

  /** Rounding commutes with a page-aligned base. */
  lemma {:induction false} RoundFromPage(base: nat, n: nat, a: nat)
    requires base % PAGE_SIZE == 0 && IsAlignment(a)
    ensures RoundUp(base + n, a) == base + RoundUp(n, a)
  {
    RoundUpTogether(n, base + n, a, PAGE_SIZE);
  }

  lemma {:induction false} SymbolsAreWords(elf: ElfTypes, start: nat, count: nat)
    requires start % elf.OffSize() == 0
    ensures (start + SymBytes(elf, count)) % 4 == 0
  {
    match elf {
      case Elf32 => ModShift(start, 4 * count, 4);
      case Elf64 => assert start % 4 == 0; ModShift(start, 6 * count, 4);
    }
  }

  lemma {:induction false} DynstrOnPage(x: Inputs, at: nat)
    ensures DynstrAt(x, at) % PAGE_SIZE == 0
  {
    RoundUpAligned(BssEnd(x, at) + (if x.mips then ABIFLAGS_SIZE else 0), PAGE_SIZE);
  }

  /** .hash starts right after .dynsym. */
  lemma {:induction false} HashFollowsDynsym(elf: ElfTypes, x: Inputs, at: nat)
    ensures HashAt(elf, x, at) == DynstrAt(x, at) + DynsymEnd(elf, x)
  {
    DynstrOnPage(x, at);
    RoundFromPage(DynstrAt(x, at), DynstrSize(x), elf.OffSize());
    RoundUpAligned(DynstrAt(x, at) + DynstrSize(x), elf.OffSize());
    SymbolsAreWords(elf, DynsymAt(elf, x, at), SymbolCount(x));
    var end := DynsymAt(elf, x, at) + DynsymSize(elf, x);
    RoundUpUnique(end, 4, end);
  }

  /** The prediction for .dynamic is off by at most a page, and right exactly if
      both sizes lead to the same page. */
  lemma {:induction false} PredictedIff(elf: ElfTypes, x: Inputs, at: nat)
    ensures PredictedAt(elf, x, at) == DynamicAt(elf, x, at) <==> SamePage(elf, x)
    ensures PredictedAt(elf, x, at) < DynamicAt(elf, x, at) + TWO_32
    ensures DynamicAt(elf, x, at) < PredictedAt(elf, x, at) + TWO_32
  {
    FromDynstr(elf, x, at, DynsymSize(elf, x));
    FromDynstr(elf, x, at, HashSize(x));
  }

  lemma {:induction false} FromDynstr(elf: ElfTypes, x: Inputs, at: nat, size: nat)
    ensures RoundUp(HashAt(elf, x, at) + size, PAGE_SIZE) ==
            DynstrAt(x, at) + RoundUp(DynsymEnd(elf, x) + size, PAGE_SIZE)
  {
    HashFollowsDynsym(elf, x, at);
    DynstrOnPage(x, at);
    RoundFromPage(DynstrAt(x, at), DynsymEnd(elf, x) + size, PAGE_SIZE);
  }

  lemma {:induction false} LoadedFrom(elf: ElfTypes, end: nat)
    ensures RoundUp(RoundUp(end, PAGE_SIZE) + DynamicSize(elf), PAGE_SIZE) == RoundUp(end, PAGE_SIZE) + PAGE_SIZE
  {
    RoundUpAligned(end, PAGE_SIZE);
    RoundFromPage(RoundUp(end, PAGE_SIZE), DynamicSize(elf), PAGE_SIZE);
    RoundUpUnique(DynamicSize(elf), PAGE_SIZE, PAGE_SIZE);
  }

  lemma {:induction false} LoadedSizes(elf: ElfTypes, x: Inputs, at: nat)
    ensures PredictedSize(elf, x, at) == PredictedAt(elf, x, at) + PAGE_SIZE
    ensures RoundUp(DynamicAt(elf, x, at) + DynamicSize(elf), PAGE_SIZE) == DynamicAt(elf, x, at) + PAGE_SIZE
  {
    LoadedFrom(elf, HashAt(elf, x, at) + DynsymSize(elf, x));
    LoadedFrom(elf, HashAt(elf, x, at) + HashSize(x));
  }

  /** The loaded size that was predicted, and the address of .dynamic, are right
      exactly when the sizes of .dynsym and .hash lead to the same page and, in a
      64-bit file, the number is below 4 GiB. */
  lemma {:induction false} LoadedSizeIsRightIff(elf: ElfTypes, x: Inputs, index: nat, p: Plan, s: seq<Section>, va: nat)
    requires x.Valid() && IsPlan(elf, x, PAGE_SIZE, index, p) && DynamicPlaced(elf, x, PAGE_SIZE, s, va)
    ensures p.dynamic.dynamicAddress == Field(elf, s[|s| - 1].addr) <==>
            SamePage(elf, x) && (elf.Elf32? || DynamicAt(elf, x, PAGE_SIZE) < TWO_32)
    ensures LoadedSizeChecks(elf, p, s, va) <==>
            SamePage(elf, x) && (elf.Elf32? || DynamicAt(elf, x, PAGE_SIZE) + PAGE_SIZE < TWO_32)
  {
    var predicted, actual := PredictedAt(elf, x, PAGE_SIZE), DynamicAt(elf, x, PAGE_SIZE);
    PredictedIff(elf, x, PAGE_SIZE);
    WordIsFieldIff(elf, predicted, actual);
    LoadedSizes(elf, x, PAGE_SIZE);
    WordIsFieldIff(elf, predicted + PAGE_SIZE, actual + PAGE_SIZE);
  }

  /** A file name of at most 255 bytes always fits. */
  lemma {:induction false} FileNamesFit(elf: ElfTypes, x: Inputs)
    requires |BaseName(x.path)| <= 255
    ensures SamePage(elf, x)
  {
    var end := DynsymEnd(elf, x);
    assert end + DynsymSize(elf, x) <= PAGE_SIZE;
    RoundUpUnique(end + DynsymSize(elf, x), PAGE_SIZE, PAGE_SIZE);
    RoundUpUnique(end + HashSize(x), PAGE_SIZE, PAGE_SIZE);
  }

  lemma {:induction false} LongNameLeavesPage(x: Inputs)
    requires x.rodataSize != 0 && x.textSize != 0 && x.bssSize == 0 && |BaseName(x.path)| == 3922
    ensures !SamePage(Elf64, x)
  {
    RoundUpUnique(DynstrSize(x), 8, 3952);
    var end := 3952 + 96;
    RoundUpUnique(end + SymBytes(Elf64, 4), PAGE_SIZE, 2 * PAGE_SIZE);
    RoundUpUnique(end + 28, PAGE_SIZE, PAGE_SIZE);
  }

  /** With a soname of 3922 bytes .dynamic is not where it was planned, and a
      loaded-size check fails. */
  lemma {:induction false} LongNameMisplacesDynamic(x: Inputs, index: nat, p: Plan, s: seq<Section>, va: nat)
    requires x.Valid() && IsPlan(Elf64, x, PAGE_SIZE, index, p) && DynamicPlaced(Elf64, x, PAGE_SIZE, s, va)
    requires x.rodataSize != 0 && x.textSize != 0 && x.bssSize == 0 && |BaseName(x.path)| == 3922
    ensures p.dynamic.dynamicAddress != Field(Elf64, s[|s| - 1].addr) && !LoadedSizeChecks(Elf64, p, s, va)
  {
    LongNameLeavesPage(x);
    LoadedSizeIsRightIff(Elf64, x, index, p, s, va);
  }

  /** A file whose soname has 3922 bytes: a loaded-size check fails. */
  method WriteLongName() returns (b: Builder, plan: Plan)
    ensures |b.sections| > 0 && plan.dynamic.dynamicAddress != Field(Elf64, b.sections[|b.sections| - 1].addr)
    ensures !LoadedSizeChecks(Elf64, plan, b.sections, b.va)
  {
    var rodata;
    var path := seq(3922, _ => 'a');
    var x := Inputs(false, path, 4, 4, 0, 0);
    NoSlash(path);
    b, plan, rodata := WriteElf(Elf64, x, false);
    LongNameMisplacesDynamic(x, rodata + 1, plan, b.sections, b.va);
  }

  lemma {:induction false} NoSlash(path: string)
    requires forall i :: 0 <= i < |path| ==> path[i] != '/'
    ensures BaseName(path) == path
  {
    if path != "" {
      NoSlash(path[..|path| - 1]);
    }
  }

  /** A 64-bit file of 4 GiB: .bss is not where it was predicted, and a
      loaded-size check fails, although the file has a short name. */
  method WriteWide() returns (b: Builder, plan: Plan)
    ensures |b.sections| > 2 && plan.bssAddress != Field(Elf64, b.sections[2].addr)
    ensures !LoadedSizeChecks(Elf64, plan, b.sections, b.va)
  {
    var rodata;
    var x := Inputs(false, "a.oat", 0x8000_0000, 0x8000_0000, 4, 0);
    NoSlash(x.path);
    b, plan, rodata := WriteElf(Elf64, x, false);
    assert BssAt(x, PAGE_SIZE) >= TWO_32;
    LoadedSizeIsRightIff(Elf64, x, rodata + 1, plan, b.sections, b.va);
  }

  /** A file whose .rodata ends at 4 GiB: it is not mapped. */
  method WriteUnmapped() returns (b: Builder, headers: seq<Phdr>, loads: nat)
    ensures loads < |headers| && !MapsAll(Elf64, headers[..loads + 1], b.sections)
  {
    ghost var n;
    var x := Inputs(false, "", 0xFFFF_F000, 4, 0, 0);
    b, n := WriteFile(Elf64, x, false, [], []);
    headers, loads := MakeHeaders(Elf64, x, false, b.sections, n);
    RodataDoesNotFit(x, b.sections, n);
  }

  lemma {:induction false} RodataDoesNotFit(x: Inputs, s: seq<Section>, n: nat)
    requires x.rodataSize == 0xFFFF_F000 && IsFile(Elf64, x, false, s, n) && OatPlaced(x, 0, s[..n])
    ensures !Fits(Elf64, s, 0)
  {
    assert Placed(Elf64.HeaderSize(), s, 0) && s[..n][0] == s[0];
    DeclaredAt(Elf64, x, false, s[..n], 0);
    RoundUpUnique(Elf64.HeaderSize(), PAGE_SIZE, PAGE_SIZE);
  }

  /* ---- When the symbols name their sections ---- */

  /** `size` bytes at symbol value `value` belong to section `t`. Addresses of a
      32-bit file are taken modulo 2^32. */
  predicate Holds(elf: ElfTypes, t: Section, value: nat, size: nat) {
    var d := if elf.Elf32? then Word(value - t.addr) else value - t.addr;
    0 <= d && d + size <= t.size
  }

  /** The section that a symbol names holds the bytes the symbol describes. */
  predicate InItsSection(elf: ElfTypes, y: Symbol, s: seq<Section>) {
    1 <= y.section <= |s| && Holds(elf, s[y.section - 1], y.value, y.size)
  }

  lemma {:induction false} WordIsHeldIff(elf: ElfTypes, t: Section, address: nat, size: nat)
    requires t.addr <= address && address + size <= t.addr + t.size && t.size < TWO_32
    ensures Holds(elf, t, Word(address), size) <==> elf.Elf32? || address < TWO_32
  {
    var minus := -(t.addr as int);
    WordSum(address, minus);
  }

  /** The highest address of a symbol. */
  function LastWord(x: Inputs, at: nat): int {
    if x.bssSize != 0 then
      BssAt(x, at) + if x.bssSize - 4 < x.bssRootsOffset < x.bssSize then x.bssRootsOffset else x.bssSize - 4
    else if x.textSize != 0 then TextAt(x, at) + x.textSize - 4
    else if x.rodataSize != 0 then at + x.rodataSize - 4
    else at
  }

  lemma {:induction false} RodataSymbolsAreHeld(elf: ElfTypes, x: Inputs, rodata: nat, s: seq<Section>)
    requires x.Valid() && OatPlaced(x, rodata, s) && (elf.Elf32? || LastWord(x, PAGE_SIZE) < TWO_32)
    ensures var a := RodataSymbols(x, rodata + 1, PAGE_SIZE, TextAt(x, PAGE_SIZE));
            forall i :: 0 <= i < |a| ==> InItsSection(elf, a[i], s)
  {
    var at, text := PAGE_SIZE, TextAt(x, PAGE_SIZE);
    WordIsHeldIff(elf, s[rodata], at, x.rodataSize);
    if x.textSize != 0 {
      WordIsHeldIff(elf, s[rodata + 1], text, x.textSize);
      WordIsHeldIff(elf, s[rodata + 1], text + x.textSize - 4, 4);
    } else if x.rodataSize != 0 {
      WordIsHeldIff(elf, s[rodata], at + x.rodataSize - 4, 4);
    }
  }

  lemma {:induction false} BssSymbolsAreHeld(elf: ElfTypes, x: Inputs, index: nat, s: seq<Section>)
    requires x.Valid() && x.bssSize != 0 && 1 <= index <= |s| && (elf.Elf32? || LastWord(x, PAGE_SIZE) < TWO_32)
    requires s[index - 1].addr == BssAt(x, PAGE_SIZE) && s[index - 1].size == x.bssSize
    ensures var b := BssSymbols(x, index, BssAt(x, PAGE_SIZE));
            forall i :: 0 <= i < |b| ==> InItsSection(elf, b[i], s)
  {
    var bss := BssAt(x, PAGE_SIZE);
    WordIsHeldIff(elf, s[index - 1], bss, x.bssRootsOffset);
    WordIsHeldIff(elf, s[index - 1], bss + x.bssRootsOffset, x.bssSize - x.bssRootsOffset);
    WordIsHeldIff(elf, s[index - 1], bss + x.bssSize - 4, 4);
  }

  /** Otherwise the last symbol, or the last but one, is not in its section. */
  lemma {:induction false} SomeSymbolIsLost(elf: ElfTypes, x: Inputs, rodata: nat, s: seq<Section>) returns (i: nat)
    requires x.Valid() && OatPlaced(x, rodata, s)
    requires (x.textSize == 0 && x.bssSize != 0) || (elf.Elf64? && LastWord(x, PAGE_SIZE) >= TWO_32)
    ensures i < |Symbols(x, rodata + 1, PAGE_SIZE)| && !InItsSection(elf, Symbols(x, rodata + 1, PAGE_SIZE)[i], s)
  {
    i := |Symbols(x, rodata + 1, PAGE_SIZE)| - 1;
    var at, text, bss := PAGE_SIZE, TextAt(x, PAGE_SIZE), BssAt(x, PAGE_SIZE);
    if x.bssSize != 0 {
      WordIsHeldIff(elf, s[rodata + 2], bss + x.bssSize - 4, 4);
      if x.textSize != 0 && x.bssSize - 4 < x.bssRootsOffset < x.bssSize {
        i := i - 1;
        WordIsHeldIff(elf, s[rodata + 2], bss + x.bssRootsOffset, x.bssSize - x.bssRootsOffset);
      }
    } else if x.textSize != 0 {
      WordIsHeldIff(elf, s[rodata + 1], text + x.textSize - 4, 4);
    } else if x.rodataSize != 0 {
      WordIsHeldIff(elf, s[rodata], at + x.rodataSize - 4, 4);
    }
  }

  /** All dynamic symbols name the section that holds them exactly when .text is
      not empty or there is no .bss, since the index of .bss skips an empty .text
      that is nevertheless written, and, in a 64-bit file, the last symbol lies
      below 4 GiB. */
  lemma {:induction false} SymbolsAreInTheirSectionsIff(
    elf: ElfTypes, x: Inputs, rodata: nat, p: Plan, s: seq<Section>)
    requires x.Valid() && IsPlan(elf, x, PAGE_SIZE, rodata + 1, p) && OatPlaced(x, rodata, s)
    ensures (forall i :: 0 <= i < |p.symbols| ==> InItsSection(elf, p.symbols[i], s)) <==>
            (x.textSize != 0 || x.bssSize == 0) && (elf.Elf32? || LastWord(x, PAGE_SIZE) < TWO_32)
  {
    if (x.textSize != 0 || x.bssSize == 0) && (elf.Elf32? || LastWord(x, PAGE_SIZE) < TWO_32) {
      RodataSymbolsAreHeld(elf, x, rodata, s);
      if x.bssSize != 0 {
        BssSymbolsAreHeld(elf, x, rodata + 3, s);
      }
    } else {
      var i := SomeSymbolIsLost(elf, x, rodata, s);
    }
  }

  /** The symbol marks the last word of section `t`. */
  ghost predicate MarksEnd(y: Symbol, t: Section) {
    y.size == 4 && Word(y.value + 4) == Word(t.addr + t.size)
  }

  /** The symbols of .bss from `b` on: its part before the roots, the roots if there
      are any, and its last word. */
  ghost predicate MarkBss(x: Inputs, y: seq<Symbol>, b: nat, t: Section) {
    && b + 2 <= |y| && y[b].value == Word(t.addr) && y[b].size == x.bssRootsOffset && MarksEnd(y[|y| - 1], t)
    && |y| == b + (if x.bssRootsOffset == t.size then 2 else 3)
    && (x.bssRootsOffset != t.size ==>
          y[b + 1].value == Word(t.addr + x.bssRootsOffset) && y[b].size + y[b + 1].size == t.size)
  }

  /** The number of symbols for .rodata and .text. */
  function OatSymbols(data: Section, text: Section): nat {
    if text.size != 0 then 3 else if data.size != 0 then 2 else 1
  }

  /** They begin with the whole of .rodata, then the whole and the last word of
      .text, or the last word of .rodata if .text is empty. */
  ghost predicate MarkOat(y: seq<Symbol>, index: nat, data: Section, text: Section) {
    && |y| >= OatSymbols(data, text) && y[0] == Symbol(index, Word(data.addr), data.size)
    && (text.size != 0 ==> y[1] == Symbol(index + 1, Word(text.addr), text.size) && MarksEnd(y[2], text))
    && (text.size == 0 && data.size != 0 ==> MarksEnd(y[1], data))
  }

  lemma {:induction false} OatIsMarked(x: Inputs, index: nat, data: Section, text: Section)
    requires x.Valid() && data.size == x.rodataSize && text.size == x.textSize
    ensures var y := RodataSymbols(x, index, data.addr, text.addr);
            MarkOat(y, index, data, text) && |y| == OatSymbols(data, text)
  {
    WordSum(data.addr + x.rodataSize - 4, 4);
    WordSum(text.addr + x.textSize - 4, 4);
  }

  /** The symbols, in terms of the sections: those of .rodata, .text and .bss, and
      no others. */
  lemma {:induction false} SymbolsMarkSections(elf: ElfTypes, x: Inputs, rodata: nat, p: Plan, s: seq<Section>)
    requires x.Valid() && IsPlan(elf, x, PAGE_SIZE, rodata + 1, p) && OatPlaced(x, rodata, s)
    ensures MarkOat(p.symbols, rodata + 1, s[rodata], s[rodata + 1])
    ensures var n := OatSymbols(s[rodata], s[rodata + 1]);
            if x.bssSize == 0 then |p.symbols| == n else MarkBss(x, p.symbols, n, s[rodata + 2])
  {
    var head := RodataSymbols(x, rodata + 1, PAGE_SIZE, TextAt(x, PAGE_SIZE));
    var tail := BssSymbols(x, BssIndex(x, rodata + 1), BssAt(x, PAGE_SIZE));
    assert p.symbols == head + tail;
    OatIsMarked(x, rodata + 1, s[rodata], s[rodata + 1]);
    MoreSymbols(head, tail, rodata + 1, s[rodata], s[rodata + 1]);
    if x.bssSize != 0 {
      BssIsMarked(x, head, BssIndex(x, rodata + 1), s[rodata + 2]);
    }
  }

  lemma {:induction false} MoreSymbols(
    head: seq<Symbol>, tail: seq<Symbol>, index: nat, data: Section, text: Section)
    requires MarkOat(head, index, data, text)
    ensures MarkOat(head + tail, index, data, text)
  {
  }

  lemma {:induction false} BssIsMarked(x: Inputs, head: seq<Symbol>, index: nat, t: Section)
    requires x.Valid() && x.bssSize != 0 && t.size == x.bssSize
    ensures MarkBss(x, head + BssSymbols(x, index, t.addr), |head|, t)
  {
    WordSum(t.addr + x.bssSize - 4, 4);
  }

  /** A file with an empty .text and one word of .bss: some symbol is not in the
      section that it names. */
  method WriteWithoutText(elf: ElfTypes) returns (b: Builder, plan: Plan)
    ensures exists i :: 0 <= i < |plan.symbols| && !InItsSection(elf, plan.symbols[i], b.sections)
  {
    var rodata;
    var x := Inputs(false, "", 4, 0, 4, 0);
    b, plan, rodata := WriteElf(elf, x, false);
    SymbolsAreInTheirSectionsIff(elf, x, rodata, plan, b.sections);
  }
}
