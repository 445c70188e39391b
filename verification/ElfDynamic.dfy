/** The dynamic section: addresses predicted by PrepareDynamicSection before the
    sections exist, against those that Section::Start assigns later. */
module ElfDynamic {
  import opened Util
  import opened ElfBuilder

  /* Names of the dynamic symbols, in bytes with their terminators. */
  const OATDATA: nat := 8
  const OATEXEC: nat := 8
  const OATLASTWORD: nat := 12
  const OATBSS: nat := 7
  const OATBSSROOTS: nat := 12
  const OATBSSLASTWORD: nat := 15

  const ABIFLAGS_SIZE: nat := 24
  const BUILD_ID_SIZE: nat := 36

  /** A dynamic symbol: st_shndx, st_value and st_size. */
  datatype Symbol = Symbol(section: nat, value: nat, size: nat)

  /** What is predicted about the sections after .dynstr. */
  datatype DynamicPlan = DynamicPlan(
    dynsymAddress: nat, hashAddress: nat, dynamicAddress: nat, dynamicSize: nat, loadedSize: nat)

  datatype Plan = Plan(
    textAddress: nat, bssAddress: nat, dynstrAddress: nat, dynstrSize: nat,
    symbols: seq<Symbol>, hash: seq<nat>, dynamic: DynamicPlan)

  /** What the writer is given before the sections are written. The sizes are
      Elf_Words, and so is that of .dynstr. The last word of each section gets a
      symbol, so a section is empty or has a word. */
  datatype Inputs = Inputs(
    mips: bool, path: string, rodataSize: nat, textSize: nat, bssSize: nat, bssRootsOffset: nat)
  {
    ghost predicate Valid() {
      && bssRootsOffset <= bssSize
      && (rodataSize == 0 || 4 <= rodataSize < TWO_32) && (textSize == 0 || 4 <= textSize < TWO_32)
      && (bssSize == 0 || 4 <= bssSize < TWO_32) && DynstrSize(this) < TWO_32
    }
  }

  /** The part of a path after its last slash. */
  function BaseName(path: string): string {
    if path == "" || path[|path| - 1] == '/' then "" else BaseName(path[..|path| - 1]) + [path[|path| - 1]]
  }

  /** The longest end of the path without a slash. */
  lemma {:induction false} BaseNameIsLastPart(path: string)
    ensures var s := BaseName(path);
            && |s| <= |path| && path[|path| - |s|..] == s && '/' !in s
            && (|s| < |path| ==> path[|path| - |s| - 1] == '/')
  {
    if path != "" && path[|path| - 1] != '/' {
      BaseNameIsLastPart(path[..|path| - 1]);
    }
  }

  method FindBaseName(path: string) returns (soname: string)
    ensures soname == BaseName(path)
  {
    var i := |path|;
    soname := "";
    assert path[..i] == path;
    while i > 0 && path[i - 1] != '/'
      invariant 0 <= i <= |path|
      invariant BaseName(path) == BaseName(path[..i]) + soname
    {
      assert path[..i][..i - 1] == path[..i - 1];
      soname := [path[i - 1]] + soname;
      i := i - 1;
    }
  }

  /** The size of `n` symbols. */
  function SymBytes(elf: ElfTypes, n: nat): nat {
    if elf.Elf32? then 16 * n else 24 * n
  }

  /* ---- Where the sections belong ---- */

  /** The section index given to .bss symbols: .text counts only if not empty. */
  function BssIndex(x: Inputs, rodataIndex: nat): nat {
    rodataIndex + 1 + if x.textSize != 0 then 1 else 0
  }

  /** Bytes in .dynstr: the names with their terminators, the soname last. */
  function DynstrSize(x: Inputs): nat {
    1 + OATDATA
      + (if x.textSize != 0 then OATEXEC + OATLASTWORD
         else if x.rodataSize != 0 then OATLASTWORD else 0)
      + (if x.bssSize != 0 then
           OATBSS + OATBSSLASTWORD + (if x.bssRootsOffset != x.bssSize then OATBSSROOTS else 0)
         else 0)
      + |BaseName(x.path)| + 1
  }

  /** The number of dynamic symbols, the NULL symbol included, by which sections
      are empty. */
  function SymbolCount(x: Inputs): (n: nat)
    ensures 2 <= n <= 7
  {
    2 + (if x.textSize != 0 then 2 else if x.rodataSize != 0 then 1 else 0)
      + (if x.bssSize == 0 then 0 else if x.bssRootsOffset != x.bssSize then 3 else 2)
  }

  /* Addresses by the sizes of the sections before, for .rodata at `rodata`. */

  function TextAt(x: Inputs, rodata: nat): nat {
    RoundUp(rodata + x.rodataSize, PAGE_SIZE)
  }

  function BssAt(x: Inputs, rodata: nat): nat {
    RoundUp(TextAt(x, rodata) + x.textSize, PAGE_SIZE)
  }

  function BssEnd(x: Inputs, rodata: nat): nat {
    RoundUp(BssAt(x, rodata) + x.bssSize, PAGE_SIZE)
  }

  function DynstrAt(x: Inputs, rodata: nat): nat {
    RoundUp(BssEnd(x, rodata) + (if x.mips then ABIFLAGS_SIZE else 0), PAGE_SIZE)
  }

  function DynsymAt(elf: ElfTypes, x: Inputs, rodata: nat): nat {
    RoundUp(DynstrAt(x, rodata) + DynstrSize(x), elf.OffSize())
  }

  function HashAt(elf: ElfTypes, x: Inputs, rodata: nat): nat {
    RoundUp(DynsymAt(elf, x, rodata) + DynsymSize(elf, x), 4)
  }

  function DynamicAt(elf: ElfTypes, x: Inputs, rodata: nat): nat {
    RoundUp(HashAt(elf, x, rodata) + HashSize(x), PAGE_SIZE)
  }

  function DynsymSize(elf: ElfTypes, x: Inputs): nat {
    SymBytes(elf, SymbolCount(x))
  }

  function HashSize(x: Inputs): nat {
    4 * (SymbolCount(x) + 3)
  }

  function DynamicSize(elf: ElfTypes): nat {
    7 * elf.DynSize()
  }

  /** The address predicted for .dynamic counts .dynsym in the place of .hash. */
  function PredictedAt(elf: ElfTypes, x: Inputs, rodata: nat): nat {
    RoundUp(HashAt(elf, x, rodata) + DynsymSize(elf, x), PAGE_SIZE)
  }

  function PredictedSize(elf: ElfTypes, x: Inputs, rodata: nat): nat {
    RoundUp(PredictedAt(elf, x, rodata) + DynamicSize(elf), PAGE_SIZE)
  }

  /* ---- The prediction ---- */

  /** The symbols of .rodata, .text and .bss after the NULL symbol. Their values
      are Elf_Words. */
  function RodataSymbols(x: Inputs, index: nat, rodata: nat, text: nat): seq<Symbol> {
    [Symbol(index, Word(rodata), x.rodataSize)] +
    if x.textSize != 0 then
      [Symbol(index + 1, Word(text), x.textSize), Symbol(index + 1, Word(text + x.textSize - 4), 4)]
    else if x.rodataSize != 0 then [Symbol(index, Word(rodata + x.rodataSize - 4), 4)]
    else []
  }

  function BssSymbols(x: Inputs, index: nat, bss: nat): seq<Symbol>
    requires x.bssRootsOffset <= x.bssSize
  {
    if x.bssSize == 0 then []
    else
      [Symbol(index, Word(bss), x.bssRootsOffset)] +
      (if x.bssRootsOffset != x.bssSize
       then [Symbol(index, Word(bss + x.bssRootsOffset), x.bssSize - x.bssRootsOffset)] else []) +
      [Symbol(index, Word(bss + x.bssSize - 4), 4)]
  }

  function Symbols(x: Inputs, index: nat, rodata: nat): seq<Symbol>
    requires x.bssRootsOffset <= x.bssSize
  {
    RodataSymbols(x, index, rodata, TextAt(x, rodata)) + BssSymbols(x, BssIndex(x, index), BssAt(x, rodata))
  }

  /** The single bucket's chain runs through all symbols in order and ends. */
  ghost predicate LinearHash(hash: seq<nat>, count: nat) {
    && count >= 2 && |hash| == count + 3
    && hash[0] == 1 && hash[1] == count && hash[2] == 1 && hash[3] == 0
    && (forall i :: 4 <= i < count + 2 ==> hash[i] == i - 2)
    && hash[count + 2] == 0
  }

  method BuildHash(count: nat) returns (hash: seq<nat>)
    requires count >= 2
    ensures LinearHash(hash, count)
  {
    hash := [1, count, 1, 0];
    for i := 1 to count - 1
      invariant |hash| == 3 + i
      invariant hash[0] == 1 && hash[1] == count && hash[2] == 1 && hash[3] == 0
      invariant forall j :: 4 <= j < 3 + i ==> hash[j] == j - 2
    {
      hash := hash + [i + 1];
    }
    hash := hash + [0];
  }

  /** The calls that cache .dynstr and .dynsym data, in 32-bit arithmetic. */
  method AddSymbols(x: Inputs, index: nat, rodata: nat, text: nat, bss: nat)
      returns (dynstr: nat, symbols: seq<Symbol>)
    requires rodata < TWO_32 && text < TWO_32 && bss < TWO_32 && x.bssRootsOffset <= x.bssSize
    ensures dynstr == DynstrSize(x)
    ensures symbols == RodataSymbols(x, index, rodata, text) + BssSymbols(x, BssIndex(x, index), bss)
  {
    dynstr := 1;
    dynstr, symbols := dynstr + OATDATA, [Symbol(index, rodata, x.rodataSize)];
    if x.textSize != 0 {
      dynstr, symbols := dynstr + OATEXEC, symbols + [Symbol(index + 1, text, x.textSize)];
      dynstr, symbols := dynstr + OATLASTWORD, symbols + [Symbol(index + 1, Word(text + x.textSize - 4), 4)];
    } else if x.rodataSize != 0 {
      dynstr, symbols := dynstr + OATLASTWORD, symbols + [Symbol(index, Word(rodata + x.rodataSize - 4), 4)];
    }
    assert symbols == RodataSymbols(x, index, rodata, text);
    if x.bssSize != 0 {
      var bssIndex := index + 1 + (if x.textSize != 0 then 1 else 0);
      var s := [Symbol(bssIndex, bss, x.bssRootsOffset)];
      dynstr := dynstr + OATBSS;
      if x.bssRootsOffset != x.bssSize {
        dynstr := dynstr + OATBSSROOTS;
        s := s + [Symbol(bssIndex, Word(bss + x.bssRootsOffset), x.bssSize - x.bssRootsOffset)];
      }
      dynstr, s := dynstr + OATBSSLASTWORD, s + [Symbol(bssIndex, Word(bss + x.bssSize - 4), 4)];
      assert s == BssSymbols(x, bssIndex, bss);
      symbols := symbols + s;
    }
    var soname := FindBaseName(x.path);
    dynstr := dynstr + |soname| + 1;
  }

  /** Symbols do not depend on more of an address than an Elf_Word. */
  lemma {:induction false} SymbolsOfWords(x: Inputs, index: nat, rodata: nat)
    requires x.bssRootsOffset <= x.bssSize
    ensures RodataSymbols(x, index, Word(rodata), Word(TextAt(x, rodata))) +
            BssSymbols(x, BssIndex(x, index), Word(BssAt(x, rodata))) == Symbols(x, index, rodata)
  {
    RodataOfWords(x, index, rodata, TextAt(x, rodata));
    BssOfWords(x, BssIndex(x, index), BssAt(x, rodata));
  }

  lemma {:induction false} RodataOfWords(x: Inputs, index: nat, rodata: nat, text: nat)
    ensures RodataSymbols(x, index, Word(rodata), Word(text)) == RodataSymbols(x, index, rodata, text)
  {
    WordSum(rodata, x.rodataSize - 4);
    WordSum(text, x.textSize - 4);
  }

  lemma {:induction false} BssOfWords(x: Inputs, index: nat, bss: nat)
    requires x.bssRootsOffset <= x.bssSize
    ensures BssSymbols(x, index, Word(bss)) == BssSymbols(x, index, bss)
  {
    WordSum(bss, x.bssSize - 4);
    WordSum(bss, x.bssRootsOffset);
  }

  /** PrepareDynamicSection, called when .rodata has been started. Sums and
      rounded sums are Elf_Words, for 64-bit files too. */
  method Prepare(elf: ElfTypes, x: Inputs, rodataAddress: nat, rodataIndex: nat) returns (plan: Plan)
    requires x.bssRootsOffset <= x.bssSize
    ensures IsPlan(elf, x, rodataAddress, rodataIndex, plan)
  {
    ghost var at := rodataAddress;
    var rodata := Word(rodataAddress);
    var text, bss, dynstrAddress := PlanAddresses(x, rodata, at);
    var dynstr, symbols := AddSymbols(x, rodataIndex, rodata, text, bss);
    SymbolsOfWords(x, rodataIndex, at);
    SymbolsAreCounted(x, rodataIndex, at);
    var hash := BuildHash(|symbols| + 1);
    var dynamic := PlanDynamic(elf, x, dynstrAddress, dynstr, |symbols| + 1, at);
    plan := Plan(text, bss, dynstrAddress, dynstr, symbols, hash, dynamic);
  }

  method PlanAddresses(x: Inputs, rodata: nat, ghost at: nat) returns (text: nat, bss: nat, dynstr: nat)
    requires rodata == Word(at)
    ensures text == Word(TextAt(x, at)) && bss == Word(BssAt(x, at)) && dynstr == Word(DynstrAt(x, at))
  {
    text := RoundUpWord(rodata + x.rodataSize, PAGE_SIZE);
    RoundWord(at, x.rodataSize, PAGE_SIZE);
    assert text == Word(TextAt(x, at));
    bss := RoundUpWord(text + x.textSize, PAGE_SIZE);
    RoundWord(TextAt(x, at), x.textSize, PAGE_SIZE);
    assert bss == Word(BssAt(x, at));
    var abiflags := RoundUpWord(bss + x.bssSize, PAGE_SIZE);
    RoundWord(BssAt(x, at), x.bssSize, PAGE_SIZE);
    assert abiflags == Word(BssEnd(x, at));
    var abiflagsSize := if x.mips then ABIFLAGS_SIZE else 0;
    dynstr := RoundUpWord(abiflags + abiflagsSize, PAGE_SIZE);
    RoundWord(BssEnd(x, at), abiflagsSize, PAGE_SIZE);
  }

  lemma {:induction false} SymbolsAreCounted(x: Inputs, index: nat, rodata: nat)
    requires x.bssRootsOffset <= x.bssSize
    ensures |Symbols(x, index, rodata)| + 1 == SymbolCount(x)
  {
  }

  method PlanDynamic(elf: ElfTypes, x: Inputs, dynstrAddress: nat, dynstr: nat, count: nat, ghost at: nat)
      returns (d: DynamicPlan)
    requires dynstrAddress == Word(DynstrAt(x, at)) && dynstr == DynstrSize(x) && count == SymbolCount(x)
    ensures d == PlannedDynamic(elf, x, at)
  {
    DynsymWords(elf, x, at);
    PredictedWords(elf, x, at);
    var dynsymAddress := RoundUpWord(dynstrAddress + dynstr, elf.OffSize());
    var hashAddress := RoundUpWord(dynsymAddress + SymBytes(elf, count), 4);
    // The size added here is that of .dynsym.
    var dynamicAddress := RoundUpWord(hashAddress + SymBytes(elf, count), PAGE_SIZE);
    var loadedSize := RoundUpWord(dynamicAddress + 7 * elf.DynSize(), PAGE_SIZE);
    d := DynamicPlan(dynsymAddress, hashAddress, dynamicAddress, 7 * elf.DynSize(), loadedSize);
  }

  lemma {:induction false} DynsymWords(elf: ElfTypes, x: Inputs, at: nat)
    ensures RoundUpWord(Word(DynstrAt(x, at)) + DynstrSize(x), elf.OffSize()) == Word(DynsymAt(elf, x, at))
    ensures RoundUpWord(Word(DynsymAt(elf, x, at)) + DynsymSize(elf, x), 4) == Word(HashAt(elf, x, at))
  {
    RoundWord(DynstrAt(x, at), DynstrSize(x), elf.OffSize());
    RoundWord(DynsymAt(elf, x, at), DynsymSize(elf, x), 4);
  }

  lemma {:induction false} PredictedWords(elf: ElfTypes, x: Inputs, at: nat)
    ensures RoundUpWord(Word(HashAt(elf, x, at)) + DynsymSize(elf, x), PAGE_SIZE) == Word(PredictedAt(elf, x, at))
    ensures RoundUpWord(Word(PredictedAt(elf, x, at)) + DynamicSize(elf), PAGE_SIZE) == Word(PredictedSize(elf, x, at))
  {
    RoundWord(HashAt(elf, x, at), DynsymSize(elf, x), PAGE_SIZE);
    RoundWord(PredictedAt(elf, x, at), DynamicSize(elf), PAGE_SIZE);
  }

  /** Every predicted address is that of the unbounded sums, cut to 32 bits. */
  ghost predicate IsPlan(elf: ElfTypes, x: Inputs, rodata: nat, index: nat, p: Plan)
    requires x.bssRootsOffset <= x.bssSize
  {
    && p.textAddress == Word(TextAt(x, rodata)) && p.bssAddress == Word(BssAt(x, rodata))
    && p.dynstrAddress == Word(DynstrAt(x, rodata)) && p.dynstrSize == DynstrSize(x)
    && p.symbols == Symbols(x, index, rodata) && LinearHash(p.hash, SymbolCount(x))
    && p.dynamic == PlannedDynamic(elf, x, rodata)
  }

  function PlannedDynamic(elf: ElfTypes, x: Inputs, rodata: nat): DynamicPlan {
    DynamicPlan(Word(DynsymAt(elf, x, rodata)), Word(HashAt(elf, x, rodata)), Word(PredictedAt(elf, x, rodata)),
                DynamicSize(elf), Word(PredictedSize(elf, x, rodata)))
  }

  /* ---- The sections ---- */

  const PF_W: nat := 2
  const PF_X: nat := 1
  const PT_DYNAMIC: nat := 2
  const PT_NOTE: nat := 4
  const PT_MIPS_ABIFLAGS: nat := 0x7000_0003

  /* The sections as ElfBuilder's constructor declares them. */
  function Rodata(): Section { Section(false, true, false, PAGE_SIZE, PF_R, 0, 0, 0, 0) }
  function Text(): Section { Section(false, true, true, PAGE_SIZE, PF_R + PF_X, 0, 0, 0, 0) }
  function Bss(): Section { Section(true, true, false, PAGE_SIZE, PF_R + PF_W, 0, 0, 0, 0) }
  function Abiflags(): Section { Section(false, true, false, PAGE_SIZE, PF_R, PT_MIPS_ABIFLAGS, 0, 0, 0) }
  function Dynstr(): Section { Section(false, true, false, PAGE_SIZE, PF_R, 0, 0, 0, 0) }
  function Dynsym(elf: ElfTypes): Section { Section(false, true, false, elf.OffSize(), PF_R, 0, 0, 0, 0) }
  function Hash(): Section { Section(false, true, false, 4, PF_R, 0, 0, 0, 0) }
  function Dynamic(): Section { Section(false, true, false, PAGE_SIZE, PF_R + PF_W, PT_DYNAMIC, 0, 0, 0) }
  function BuildId(): Section { Section(false, true, false, 4, PF_R, PT_NOTE, 0, 0, 0) }

  /** `a` has the attributes that `t` declares. */
  predicate Like(a: Section, t: Section) {
    && (a.noBits, a.alloc, a.exec) == (t.noBits, t.alloc, t.exec)
    && (a.align, a.phdrFlags, a.phdrType) == (t.align, t.phdrFlags, t.phdrType)
  }

  /** From index `from` on, `s` has the sections that `d` declares. */
  ghost predicate AreLike(s: seq<Section>, from: nat, d: seq<Section>) {
    from + |d| <= |s| && forall i :: 0 <= i < |d| ==> Like(s[from + i], d[i])
  }

  function First(buildId: bool): seq<Section> {
    if buildId then [BuildId(), Rodata()] else [Rodata()]
  }

  function Optional(x: Inputs): seq<Section> {
    (if x.bssSize != 0 then [Bss()] else []) + (if x.mips then [Abiflags()] else [])
  }

  function Last(elf: ElfTypes): seq<Section> {
    [Dynstr(), Dynsym(elf), Hash(), Dynamic()]
  }

  ghost predicate AllAllocated(s: seq<Section>) {
    forall i :: 0 <= i < |s| ==> s[i].alloc
  }

  /** ElfWriterQuick::Start and StartRoData. .rodata begins on the second page. */
  method StartOat(elf: ElfTypes, buildId: bool) returns (b: Builder)
    ensures b.Valid() && b.open && b.elf == elf && fresh(b)
    ensures |b.sections| == |First(buildId)| && AreLike(b.sections, 0, First(buildId)) && AllAllocated(b.sections)
    ensures !b.sections[|b.sections| - 1].noBits && !b.sections[|b.sections| - 1].exec
    ensures b.pos == b.sections[|b.sections| - 1].offset && b.va == b.sections[|b.sections| - 1].addr == PAGE_SIZE
  {
    b := new Builder(elf);
    if buildId {
      b.WriteSection(BuildId(), BUILD_ID_SIZE);
    }
    RoundUpUnique(b.va, PAGE_SIZE, PAGE_SIZE);
    b.Start(Rodata());
  }

  /** The rest of .rodata and .text, which receive the announced sizes. */
  method WriteOat(b: Builder, x: Inputs)
    requires b.Valid() && b.open && |b.sections| > 0 && AllAllocated(b.sections)
    requires var last := b.sections[|b.sections| - 1];
             !last.noBits && !last.exec && b.pos == last.offset && b.va == last.addr
    modifies b
    ensures b.Valid() && !b.open && |b.sections| == |old(b.sections)| + 1 && AllAllocated(b.sections)
    ensures var r, at := |b.sections| - 2, old(b.va);
            && b.sections[r].size == x.rodataSize && b.sections[r].addr == at
            && b.sections[r + 1].size == x.textSize && b.sections[r + 1].addr == TextAt(x, at)
            && Like(b.sections[r + 1], Text()) && b.va == TextAt(x, at) + x.textSize
    ensures forall i :: 0 <= i < |old(b.sections)| ==> Like(b.sections[i], old(b.sections)[i])
  {
    b.Finish(x.rodataSize);
    b.WriteSection(Text(), x.textSize);
  }

  /** .bss and .MIPS.abiflags, if there are any. */
  method WriteBss(b: Builder, x: Inputs, ghost at: nat)
    requires b.Valid() && !b.open && |b.sections| > 0 && AllAllocated(b.sections)
    requires b.sections[|b.sections| - 1].exec && b.va == TextAt(x, at) + x.textSize
    modifies b
    ensures b.Valid() && !b.open && AllAllocated(b.sections)
    ensures |old(b.sections)| <= |b.sections| && b.sections[..|old(b.sections)|] == old(b.sections)
    ensures x.bssSize != 0 ==>
              && |b.sections| > |old(b.sections)|
              && b.sections[|old(b.sections)|].addr == BssAt(x, at)
              && b.sections[|old(b.sections)|].size == x.bssSize
    ensures |b.sections| == |old(b.sections)| + |Optional(x)| && AreLike(b.sections, |old(b.sections)|, Optional(x))
    ensures RoundUp(b.va, PAGE_SIZE) == DynstrAt(x, at)
  {
    ghost var end := BssEnd(x, at);
    RoundUpAligned(BssAt(x, at) + x.bssSize, PAGE_SIZE);
    if x.bssSize != 0 {
      b.WriteNoBitsSection(Bss(), x.bssSize);
    } else {
      RoundUpAligned(b.va, PAGE_SIZE);
      RoundUpUnique(BssAt(x, at), PAGE_SIZE, BssAt(x, at));
    }
    assert RoundUp(b.va, PAGE_SIZE) == end;
    if x.mips {
      b.WriteSection(Abiflags(), ABIFLAGS_SIZE);
    } else {
      RoundUpUnique(end, PAGE_SIZE, end);
    }
  }

  /** The last four sections, where Section::Start puts them. */
  ghost predicate DynamicPlaced(elf: ElfTypes, x: Inputs, at: nat, s: seq<Section>, va: nat) {
    && |s| >= 4
    && var n := |s| - 4;
    && s[n].addr == DynstrAt(x, at) && s[n].size == DynstrSize(x)
    && s[n + 1].addr == DynsymAt(elf, x, at) && s[n + 1].size == DynsymSize(elf, x)
    && s[n + 2].addr == HashAt(elf, x, at) && s[n + 2].size == HashSize(x)
    && s[n + 3].addr == DynamicAt(elf, x, at) && s[n + 3].size == DynamicSize(elf)
    && va == s[n + 3].addr + s[n + 3].size
  }

  /** Two sections in a row, the second with the flags of the first. */
  method WritePair(b: Builder, t: Section, n: nat, u: Section, m: nat)
    requires b.Valid() && !b.open && |b.sections| > 0 && AllAllocated(b.sections)
    requires IsAlignment(t.align) && IsAlignment(u.align) && !t.noBits && !u.noBits && t.alloc && u.alloc
    requires SameFlags(t, u)
    requires t.align == PAGE_SIZE || SameFlags(b.sections[|b.sections| - 1], t)
    modifies b
    ensures b.Valid() && !b.open && AllAllocated(b.sections)
    ensures |b.sections| == |old(b.sections)| + 2 && b.sections[..|old(b.sections)|] == old(b.sections)
    ensures var k := |old(b.sections)|;
            && SameFlags(b.sections[k + 1], u)
            && b.sections[k].addr == RoundUp(old(b.va), t.align) && b.sections[k].size == n
            && b.sections[k + 1].addr == RoundUp(b.sections[k].addr + n, u.align) && b.sections[k + 1].size == m
            && b.va == b.sections[k + 1].addr + m
            && Like(b.sections[k], t) && Like(b.sections[k + 1], u)
  {
    b.WriteSection(t, n);
    assert b.sections[|old(b.sections)|].addr == RoundUp(old(b.va), t.align);
    ghost var s := b.sections;
    assert AllAllocated(s) by {
      assert forall i :: 0 <= i < |s| - 1 ==> s[i] == s[..|s| - 1][i];
    }
    b.WriteSection(u, m);
    assert forall i :: 0 <= i < |s| ==> b.sections[i] == b.sections[..|s|][i] == s[i];
  }

  /** ElfBuilder::WriteDynamicSection. */
  method WriteDynamic(b: Builder, elf: ElfTypes, x: Inputs, plan: Plan, ghost at: nat)
    requires b.Valid() && !b.open && |b.sections| > 0 && AllAllocated(b.sections)
    requires RoundUp(b.va, PAGE_SIZE) == DynstrAt(x, at) && plan.dynstrSize == DynstrSize(x)
    requires |plan.symbols| + 1 == SymbolCount(x) && |plan.hash| == SymbolCount(x) + 3
    requires plan.dynamic.dynamicSize == DynamicSize(elf)
    modifies b
    ensures b.Valid() && !b.open && AllAllocated(b.sections)
    ensures |b.sections| == |old(b.sections)| + 4 && b.sections[..|old(b.sections)|] == old(b.sections)
    ensures DynamicPlaced(elf, x, at, b.sections, b.va) && AreLike(b.sections, |old(b.sections)|, Last(elf))
  {
    WritePair(b, Dynstr(), plan.dynstrSize, Dynsym(elf), SymBytes(elf, |plan.symbols| + 1));
    ghost var s := b.sections;
    WritePair(b, Hash(), 4 * |plan.hash|, Dynamic(), plan.dynamic.dynamicSize);
    assert forall i :: 0 <= i < |s| ==> b.sections[i] == b.sections[..|s|][i] == s[i];
  }

  /** .rodata, .text and .bss from index `rodata` on. */
  ghost predicate OatPlaced(x: Inputs, rodata: nat, s: seq<Section>) {
    && rodata + 1 < |s| && s[rodata].addr == PAGE_SIZE && s[rodata].size == x.rodataSize
    && s[rodata + 1].addr == TextAt(x, PAGE_SIZE) && s[rodata + 1].size == x.textSize
    && (x.bssSize != 0 ==>
          rodata + 2 < |s| && s[rodata + 2].addr == BssAt(x, PAGE_SIZE) && s[rodata + 2].size == x.bssSize)
  }

  /** The calls of ElfWriterQuick in the order dex2oat makes them: the plan from
      the sizes, and then the sections. */
  method WriteElf(elf: ElfTypes, x: Inputs, buildId: bool) returns (b: Builder, plan: Plan, rodata: nat)
    requires x.Valid()
    ensures b.Valid() && !b.open && AllAllocated(b.sections) && b.elf == elf && fresh(b)
    ensures IsPlan(elf, x, PAGE_SIZE, rodata + 1, plan)
    ensures OatPlaced(x, rodata, b.sections) && DynamicPlaced(elf, x, PAGE_SIZE, b.sections, b.va)
    ensures AreDeclared(elf, x, buildId, b.sections) && rodata + 1 == |First(buildId)|
  {
    b, plan, rodata := WriteLoaded(elf, x, buildId);
    ghost var before := b.sections;
    SymbolsAreCounted(x, rodata + 1, PAGE_SIZE);
    WriteDynamic(b, elf, x, plan, PAGE_SIZE);
    assert forall i :: 0 <= i < |before| ==> b.sections[i] == b.sections[..|before|][i] == before[i];
    DeclaredWithLast(elf, x, buildId, before, b.sections);
  }

  /** Everything before .dynstr. */
  method WriteLoaded(elf: ElfTypes, x: Inputs, buildId: bool) returns (b: Builder, plan: Plan, rodata: nat)
    requires x.Valid()
    ensures b.Valid() && !b.open && AllAllocated(b.sections) && b.elf == elf && fresh(b)
    ensures IsPlan(elf, x, PAGE_SIZE, rodata + 1, plan) && OatPlaced(x, rodata, b.sections)
    ensures RoundUp(b.va, PAGE_SIZE) == DynstrAt(x, PAGE_SIZE) && AreLoaded(x, buildId, b.sections)
    ensures rodata + 1 == |First(buildId)|
  {
    b, plan, rodata := WriteRodataAndText(elf, x, buildId);
    ghost var oat := b.sections;
    WriteBss(b, x, PAGE_SIZE);
    assert forall i :: 0 <= i < |oat| ==> b.sections[i] == b.sections[..|oat|][i] == oat[i];
    DeclaredWithOptional(x, buildId, oat, b.sections);
  }

  method WriteRodataAndText(elf: ElfTypes, x: Inputs, buildId: bool) returns (b: Builder, plan: Plan, rodata: nat)
    requires x.Valid()
    ensures b.Valid() && !b.open && AllAllocated(b.sections) && b.elf == elf && fresh(b)
    ensures IsPlan(elf, x, PAGE_SIZE, rodata + 1, plan) && rodata + 1 == |First(buildId)|
    ensures |b.sections| == rodata + 2 && AreLike(b.sections, 0, First(buildId)) && Like(b.sections[rodata + 1], Text())
    ensures b.sections[rodata].addr == PAGE_SIZE && b.sections[rodata].size == x.rodataSize
    ensures b.sections[rodata + 1].addr == TextAt(x, PAGE_SIZE) && b.sections[rodata + 1].size == x.textSize
    ensures b.va == TextAt(x, PAGE_SIZE) + x.textSize
  {
    b := StartOat(elf, buildId);
    rodata := |b.sections| - 1;
    plan := Prepare(elf, x, b.sections[rodata].addr, rodata + 1);
    WriteOat(b, x);
  }

  ghost predicate AreLoaded(x: Inputs, buildId: bool, s: seq<Section>) {
    var text := |First(buildId)|;
    && |s| == text + 1 + |Optional(x)| && AreLike(s, 0, First(buildId)) && Like(s[text], Text())
    && AreLike(s, text + 1, Optional(x))
  }

  lemma {:induction false} DeclaredWithOptional(x: Inputs, buildId: bool, oat: seq<Section>, s: seq<Section>)
    requires |oat| == |First(buildId)| + 1 && AreLike(oat, 0, First(buildId)) && Like(oat[|oat| - 1], Text())
    requires |s| == |oat| + |Optional(x)| && s[..|oat|] == oat && AreLike(s, |oat|, Optional(x))
    ensures AreLoaded(x, buildId, s)
  {
    assert forall i :: 0 <= i < |oat| ==> s[i] == s[..|oat|][i] == oat[i];
  }

  lemma {:induction false} DeclaredWithLast(
    elf: ElfTypes, x: Inputs, buildId: bool, before: seq<Section>, s: seq<Section>)
    requires AreLoaded(x, buildId, before)
    requires |s| == |before| + 4 && s[..|before|] == before && AreLike(s, |before|, Last(elf))
    ensures AreDeclared(elf, x, buildId, s)
  {
    assert forall i :: 0 <= i < |before| ==> s[i] == s[..|before|][i] == before[i];
  }

  /** The sections of a file in the order they are written. */
  ghost predicate AreDeclared(elf: ElfTypes, x: Inputs, buildId: bool, s: seq<Section>) {
    |s| >= 4 && AreLoaded(x, buildId, s[..|s| - 4]) && AreLike(s, |s| - 4, Last(elf))
  }
}
