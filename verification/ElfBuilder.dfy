/** Section layout and program headers of the ELF writer. The rules of System V
    gABI chapter 5, "Program Header", are what the PT_LOAD entries must meet. */
module ElfBuilder {
  import opened Util

  const MAX_PROGRAM_HEADERS: nat := 16

  datatype ElfTypes = Elf32 | Elf64 {
    function EhdrSize(): nat { if Elf32? then 52 else 64 }
    function PhdrSize(): nat { if Elf32? then 32 else 56 }
    function OffSize(): nat { if Elf32? then 4 else 8 }
    function DynSize(): nat { if Elf32? then 8 else 16 }

    /** The room reserved for the ELF header and the program headers. */
    function HeaderSize(): nat { EhdrSize() + PhdrSize() * MAX_PROGRAM_HEADERS }
  }

  /** A section with the attributes of its header and program header, where it
      lies in the file and in memory. Numbers are unbounded here; see HeaderOf. */
  datatype Section = Section(
    noBits: bool,       // SHT_NOBITS
    alloc: bool,        // SHF_ALLOC
    exec: bool,         // SHF_EXECINSTR
    align: nat,
    phdrFlags: nat,     // PF_R, PF_W, PF_X
    phdrType: nat,      // an extra PT_* entry, or 0
    offset: nat,
    addr: nat,
    size: nat)

  /** Sections are aligned to bytes, words or pages. */
  predicate IsAlignment(a: nat) {
    a > 0 && PAGE_SIZE % a == 0
  }

  predicate SameFlags(a: Section, b: Section) {
    a.alloc == b.alloc && a.exec == b.exec
  }

  /** File position and virtual address once the first `k` sections are written. */
  function PosAfter(header: nat, s: seq<Section>, k: nat): nat
    requires k <= |s|
  {
    if k == 0 then header
    else if s[k - 1].noBits then PosAfter(header, s, k - 1)
    else s[k - 1].offset + s[k - 1].size
  }

  function VaAfter(header: nat, s: seq<Section>, k: nat): nat
    requires k <= |s|
  {
    if k == 0 then header
    else if s[k - 1].alloc then s[k - 1].addr + s[k - 1].size
    else VaAfter(header, s, k - 1)
  }

  /** Section `k` lies where Section::Start puts it after the sections before it. */
  ghost predicate Placed(header: nat, s: seq<Section>, k: nat)
    requires k < |s|
  {
    && IsAlignment(s[k].align)
    && (k > 0 && !SameFlags(s[k - 1], s[k]) ==> s[k].align == PAGE_SIZE)
    && s[k].offset == (if s[k].noBits then 0 else RoundUp(PosAfter(header, s, k), s[k].align))
    && s[k].addr == (if s[k].alloc then RoundUp(VaAfter(header, s, k), s[k].align) else 0)
    && (s[k].noBits ==> s[k].alloc)
  }

  ghost predicate AllPlaced(header: nat, s: seq<Section>) {
    && (forall k :: 0 <= k < |s| ==> Placed(header, s, k))
    && (forall k :: 0 <= k < |s| && s[k].noBits ==> s[k].size > 0)
  }

  ghost predicate AllocatedFirst(s: seq<Section>) {
    forall i, j :: 0 <= i < j < |s| && s[j].alloc ==> s[i].alloc
  }

  lemma {:induction false} AfterPrefix(header: nat, s: seq<Section>, t: seq<Section>, k: nat)
    requires k <= |s| && k <= |t| && forall i :: 0 <= i < k ==> s[i] == t[i]
    ensures PosAfter(header, s, k) == PosAfter(header, t, k)
    ensures VaAfter(header, s, k) == VaAfter(header, t, k)
  {
    if k > 0 {
      AfterPrefix(header, s, t, k - 1);
    }
  }

  class Builder {
    const elf: ElfTypes
    var pos: nat                // stream position
    var va: nat                 // virtual_address_
    var sections: seq<Section>
    var open: bool              // the last section is started but not finished

    ghost predicate Valid()
      reads this
    {
      var h, n := elf.HeaderSize(), |sections|;
      && (forall k :: 0 <= k < n ==> Placed(h, sections, k))
      && (forall k :: 0 <= k < n && sections[k].noBits && (open ==> k < n - 1) ==> sections[k].size > 0)
      && (open ==>
            && n > 0
            && (if sections[n - 1].noBits then pos == PosAfter(h, sections, n - 1) else pos >= sections[n - 1].offset)
            && va == (if sections[n - 1].alloc then sections[n - 1].addr else VaAfter(h, sections, n - 1)))
      && (!open ==> pos == PosAfter(h, sections, n) && va == VaAfter(h, sections, n))
    }

    /** With no section open, all sections are where Section::Start puts them. */
    lemma {:induction false} AllArePlaced()
      requires Valid() && !open
      ensures AllPlaced(elf.HeaderSize(), sections) && pos == PosAfter(elf.HeaderSize(), sections, |sections|)
    {
    }

    constructor (elf: ElfTypes)
      ensures Valid() && this.elf == elf && sections == [] && !open
    {
      this.elf := elf;
      // ElfBuilder::Start with program headers.
      pos, va := elf.HeaderSize(), elf.HeaderSize();
      sections, open := [], false;
    }

    /** Section::Start; `t` gives the attributes, its layout fields are set here. */
    method Start(t: Section)
      requires Valid() && !open
      requires IsAlignment(t.align) && (t.noBits ==> t.alloc)
      modifies this
      ensures Valid() && open
      ensures |sections| == |old(sections)| + 1 && sections[..|old(sections)|] == old(sections)
      ensures var last := sections[|sections| - 1];
              && last.size == 0
              && last == t.(align := last.align, offset := last.offset, addr := last.addr, size := 0)
              && last.align == (if |old(sections)| > 0 && !SameFlags(old(sections)[|old(sections)| - 1], t)
                                then PAGE_SIZE else t.align)
              && last.addr == (if t.alloc then RoundUp(old(va), last.align) else 0)
      ensures va == if t.alloc then sections[|sections| - 1].addr else old(va)
      ensures !t.noBits ==> pos == sections[|sections| - 1].offset
    {
      var align := t.align;
      if |sections| > 0 && !SameFlags(sections[|sections| - 1], t) {
        align := PAGE_SIZE;
      }
      var offset, addr := 0, 0;
      if !t.noBits {
        pos := RoundUp(pos, align);
        offset := pos;
      }
      if t.alloc {
        va := RoundUp(va, align);
        addr := va;
      }
      ghost var before := sections;
      sections := sections + [t.(align := align, offset := offset, addr := addr, size := 0)];
      open := true;
      PlacedNext(elf.HeaderSize(), before, sections);
    }

    /** Bytes written to the section that is open. */
    method Write(count: nat)
      requires Valid() && open && !sections[|sections| - 1].noBits
      modifies this`pos
      ensures Valid() && pos == old(pos) + count
    {
      pos := pos + count;
    }

    /** Section::End. The size of a section with bits is read off the stream. */
    method End()
      requires Valid() && open
      requires sections[|sections| - 1].noBits ==> sections[|sections| - 1].size > 0
      modifies this`va, this`sections, this`open
      ensures Valid() && !open
      ensures |sections| == |old(sections)|
      ensures var n := |sections| - 1;
              var last := old(sections)[n];
              && sections == old(sections)[n := last.(size := if last.noBits then last.size else pos - last.offset)]
              && va == old(va) + if last.alloc then sections[n].size else 0
    {
      ghost var before := sections;
      var n := |sections| - 1;
      if !sections[n].noBits {
        sections := sections[n := sections[n].(size := pos - sections[n].offset)];
      }
      Resized(elf.HeaderSize(), before, sections);
      if sections[n].alloc {
        va := va + sections[n].size;
      }
      open := false;
    }

    /** `count` bytes for the section just started, and its End. */
    method Finish(count: nat)
      requires Valid() && open && !sections[|sections| - 1].noBits && pos == sections[|sections| - 1].offset
      modifies this
      ensures Valid() && !open && |sections| == |old(sections)|
      ensures sections == old(sections)[|sections| - 1 := old(sections)[|old(sections)| - 1].(size := count)]
      ensures va == old(va) + if sections[|sections| - 1].alloc then count else 0
    {
      Write(count);
      End();
    }

    /** Start, `count` bytes, End. */
    method WriteSection(t: Section, count: nat)
      requires Valid() && !open
      requires IsAlignment(t.align) && !t.noBits
      modifies this
      ensures Valid() && !open
      ensures Appended(old(sections), old(va), t, count, sections, va)
    {
      Start(t);
      Finish(count);
    }

    method WriteNoBitsSection(t: Section, count: nat)
      requires Valid() && !open
      requires IsAlignment(t.align) && t.noBits && t.alloc && count > 0
      modifies this
      ensures Valid() && !open
      ensures Appended(old(sections), old(va), t, count, sections, va)
    {
      Start(t);
      ghost var before := sections;
      var n := |sections| - 1;
      sections := sections[n := sections[n].(size := count)];
      Resized(elf.HeaderSize(), before, sections);
      End();
    }
  }

  /** One more section of `count` bytes, at the aligned virtual address. */
  ghost predicate Appended(before: seq<Section>, va: nat, t: Section, count: nat, after: seq<Section>, va': nat) {
    && |after| == |before| + 1 && after[..|before|] == before
    && var last := after[|before|];
       && (last.noBits, last.alloc, last.exec) == (t.noBits, t.alloc, t.exec)
       && (last.phdrFlags, last.phdrType, last.size) == (t.phdrFlags, t.phdrType, count)
       && last.align == (if |before| > 0 && !SameFlags(before[|before| - 1], t) then PAGE_SIZE else t.align)
       && last.align > 0
       && last.addr == (if t.alloc then RoundUp(va, last.align) else 0)
       && va' == if t.alloc then last.addr + count else va
  }

  /** Adding a section leaves the ones before it where they are. */
  lemma {:induction false} PlacedNext(header: nat, s: seq<Section>, t: seq<Section>)
    requires |t| == |s| + 1 && t[..|s|] == s
    requires forall k :: 0 <= k < |s| ==> Placed(header, s, k)
    ensures forall k :: 0 <= k < |s| ==> Placed(header, t, k)
    ensures PosAfter(header, s, |s|) == PosAfter(header, t, |s|)
    ensures VaAfter(header, s, |s|) == VaAfter(header, t, |s|)
  {
    assert forall i :: 0 <= i < |s| ==> t[i] == t[..|s|][i] == s[i];
    AfterPrefix(header, s, t, |s|);
    forall k | 0 <= k < |s| ensures Placed(header, t, k) {
      assert Placed(header, s, k);
      AfterPrefix(header, s, t, k);
    }
  }

  /** Placement does not depend on the size of the last section. */
  lemma {:induction false} Resized(header: nat, s: seq<Section>, t: seq<Section>)
    requires |s| == |t| > 0 && s[..|s| - 1] == t[..|s| - 1]
    requires t[|s| - 1] == s[|s| - 1].(size := t[|s| - 1].size)
    requires forall k :: 0 <= k < |s| ==> Placed(header, s, k)
    ensures forall k :: 0 <= k < |t| ==> Placed(header, t, k)
    ensures PosAfter(header, s, |s| - 1) == PosAfter(header, t, |s| - 1)
    ensures VaAfter(header, s, |s| - 1) == VaAfter(header, t, |s| - 1)
  {
    assert forall i :: 0 <= i < |s| - 1 ==> s[i] == s[..|s| - 1][i] == t[i];
    AfterPrefix(header, s, t, |s| - 1);
    forall k | 0 <= k < |t| ensures Placed(header, t, k) {
      assert Placed(header, s, k);
      AfterPrefix(header, s, t, k);
    }
  }

  /* ---- Program headers ---- */

  const PT_LOAD: nat := 1
  const PT_PHDR: nat := 6
  const PF_R: nat := 4

  datatype Phdr = Phdr(ptype: nat, flags: nat, offset: nat, vaddr: nat, filesz: nat, memsz: nat, align: nat)

  function Initial(elf: ElfTypes): seq<Phdr> {
    [Phdr(PT_PHDR, PF_R, elf.EhdrSize(), elf.EhdrSize(), 0, 0, elf.OffSize()),
     Phdr(PT_LOAD, PF_R, 0, 0, elf.HeaderSize(), elf.HeaderSize(), PAGE_SIZE)]
  }

  predicate Loaded(s: Section) {
    s.alloc && s.size != 0
  }

  function LoadOf(s: Section): Phdr {
    Phdr(PT_LOAD, s.phdrFlags, s.offset, s.addr, if s.noBits then 0 else s.size, s.size, s.align)
  }

  predicate Mergeable(prev: Phdr, load: Phdr) {
    prev.ptype == load.ptype && prev.flags == load.flags &&
    prev.filesz == prev.memsz && load.filesz == load.memsz
  }

  /** `prev` with section `s` merged in; the new size is an Elf_Word. */
  function Merged(prev: Phdr, s: Section): Phdr {
    var size := (s.offset + s.size - prev.offset) % TWO_32;
    prev.(filesz := size, memsz := size)
  }

  /** One round of the PT_LOAD loop; None when the alignment CHECK fails. */
  function Extend(phdrs: seq<Phdr>, s: Section): Option<seq<Phdr>>
    requires |phdrs| > 0
  {
    var prev := phdrs[|phdrs| - 1];
    if !Loaded(s) then Some(phdrs)
    else if Mergeable(prev, LoadOf(s)) then Some(phdrs[|phdrs| - 1 := Merged(prev, s)])
    else if s.align != PAGE_SIZE then None
    else Some(phdrs + [LoadOf(s)])
  }

  /** The headers after the PT_LOAD loop has seen `k` sections. */
  function Loads(elf: ElfTypes, s: seq<Section>, k: nat): (r: Option<seq<Phdr>>)
    requires k <= |s|
    ensures r.Some? ==> |r.value| >= 2
  {
    if k == 0 then Some(Initial(elf))
    else match Loads(elf, s, k - 1)
      case None => None
      case Some(phdrs) => Extend(phdrs, s[k - 1])
  }

  /** Segment `l` maps section `s` with its permissions: in memory and, for one
      with bits, in the file at the same distance. */
  ghost predicate Maps(l: Phdr, s: Section) {
    && l.ptype == PT_LOAD && l.flags == s.phdrFlags
    && l.vaddr <= s.addr && s.addr + s.size <= l.vaddr + l.memsz
    && (!s.noBits ==>
          && l.offset <= s.offset && s.offset + s.size <= l.offset + l.filesz
          && s.addr - s.offset == l.vaddr - l.offset)
  }

  ghost predicate Mapped(phdrs: seq<Phdr>, s: Section) {
    exists i :: 1 <= i < |phdrs| && Maps(phdrs[i], s)
  }

  /** A PT_LOAD entry on its own: page-congruent, and either file-backed
      throughout or not at all. */
  ghost predicate GoodLoad(l: Phdr) {
    && l.ptype == PT_LOAD && l.align == PAGE_SIZE
    && l.vaddr % PAGE_SIZE == 0 && l.offset % PAGE_SIZE == 0
    && (l.filesz == l.memsz || l.filesz == 0)
  }

  /** The entries after the first are PT_LOADs, ascending and disjoint. */
  ghost predicate GoodLoads(phdrs: seq<Phdr>) {
    && (forall i :: 1 <= i < |phdrs| ==> GoodLoad(phdrs[i]))
    && (forall i, j :: 1 <= i < j < |phdrs| ==> Below(phdrs, i, j))
  }

  ghost predicate Below(phdrs: seq<Phdr>, i: nat, j: nat)
    requires i < |phdrs| && j < |phdrs|
  {
    phdrs[i].vaddr + phdrs[i].memsz <= phdrs[j].vaddr
  }

  /** The last segment ends no later than the builder's positions, and a
      file-backed one is as far from its file range as they are apart. */
  ghost predicate InStep(l: Phdr, pos: nat, va: nat) {
    && l.vaddr + l.memsz <= va
    && (l.filesz == l.memsz ==> l.offset + l.filesz <= pos && va - pos == l.vaddr - l.offset)
  }

  /** The segments after `k` sections, whatever their sizes: page-congruent,
      ascending and disjoint, the last one in step with the builder. */
  ghost predicate LoadsOk(elf: ElfTypes, s: seq<Section>, k: nat, phdrs: seq<Phdr>)
    requires k <= |s|
  {
    && |phdrs| >= 2 && GoodLoads(phdrs)
    && phdrs[0] == Initial(elf)[0] && phdrs[1].offset == 0 && phdrs[1].vaddr == 0
    && ((forall i :: 0 <= i < k ==> s[i].alloc) ==>
          InStep(phdrs[|phdrs| - 1], PosAfter(elf.HeaderSize(), s, k), VaAfter(elf.HeaderSize(), s, k)))
  }

  /** The ELF header and all sections so far are mapped. */
  ghost predicate LoadsMap(elf: ElfTypes, s: seq<Section>, k: nat, phdrs: seq<Phdr>)
    requires k <= |s|
  {
    && |phdrs| >= 2 && phdrs[1].filesz >= elf.HeaderSize() && phdrs[1].memsz >= elf.HeaderSize()
    && (forall i :: 0 <= i < k && Loaded(s[i]) ==> Mapped(phdrs, s[i]))
  }

  /** A segment that grew, or a segment list that grew, still maps what it mapped. */
  lemma {:induction false} StillMapped(phdrs: seq<Phdr>, phdrs': seq<Phdr>, s: Section)
    requires |phdrs| <= |phdrs'| && Mapped(phdrs, s)
    requires forall i :: 1 <= i < |phdrs| ==>
               phdrs'[i] == phdrs[i].(filesz := phdrs'[i].filesz, memsz := phdrs'[i].memsz) &&
               phdrs[i].filesz <= phdrs'[i].filesz && phdrs[i].memsz <= phdrs'[i].memsz
    ensures Mapped(phdrs', s)
  {
    var i :| 1 <= i < |phdrs| && Maps(phdrs[i], s);
    assert Maps(phdrs'[i], s);
  }

  /** The section at `k` moves the builder on without a header of its own. */
  lemma {:induction false} SkipKeepsStep(elf: ElfTypes, s: seq<Section>, k: nat, l: Phdr)
    requires k < |s| && Placed(elf.HeaderSize(), s, k) && s[k].alloc && s[k].size == 0 && !s[k].noBits
    requires GoodLoad(l) && InStep(l, PosAfter(elf.HeaderSize(), s, k), VaAfter(elf.HeaderSize(), s, k))
    ensures InStep(l, PosAfter(elf.HeaderSize(), s, k + 1), VaAfter(elf.HeaderSize(), s, k + 1))
  {
    var pos, va := PosAfter(elf.HeaderSize(), s, k), VaAfter(elf.HeaderSize(), s, k);
    if l.filesz == l.memsz {
      SameDistance(pos, va, s[k].align, l);
    }
  }

  lemma {:induction false} SameDistance(pos: nat, va: nat, align: nat, l: Phdr)
    requires GoodLoad(l) && va - pos == l.vaddr - l.offset && IsAlignment(align)
    ensures RoundUp(va, align) - RoundUp(pos, align) == va - pos
  {
    assert (va - pos) % PAGE_SIZE == 0;
    RoundUpTogether(pos, va, align, PAGE_SIZE);
  }

  /** A grown segment stays in step; unless its size wraps around, it holds the
      merged section at its own distance. */
  lemma {:induction false} MergeKeepsStep(elf: ElfTypes, s: seq<Section>, k: nat, prev: Phdr)
    requires k < |s| && Placed(elf.HeaderSize(), s, k) && Loaded(s[k]) && Mergeable(prev, LoadOf(s[k]))
    requires GoodLoad(prev) && InStep(prev, PosAfter(elf.HeaderSize(), s, k), VaAfter(elf.HeaderSize(), s, k))
    ensures var l := Merged(prev, s[k]);
            && GoodLoad(l) && InStep(l, PosAfter(elf.HeaderSize(), s, k + 1), VaAfter(elf.HeaderSize(), s, k + 1))
            && (s[k].offset + s[k].size - prev.offset < TWO_32 ==>
                  Maps(l, s[k]) && prev.filesz <= l.filesz && prev.memsz <= l.memsz)
  {
    SameDistance(PosAfter(elf.HeaderSize(), s, k), VaAfter(elf.HeaderSize(), s, k), s[k].align, prev);
    var size := s[k].offset + s[k].size - prev.offset;
    assert size >= 0 && size % TWO_32 <= size;
    if size < TWO_32 {
      assert Merged(prev, s[k]).filesz == size;
    }
  }

  lemma {:induction false} MergedLoad(elf: ElfTypes, s: seq<Section>, k: nat, phdrs: seq<Phdr>)
    requires k < |s| && Placed(elf.HeaderSize(), s, k) && LoadsOk(elf, s, k, phdrs)
    requires Loaded(s[k]) && Mergeable(phdrs[|phdrs| - 1], LoadOf(s[k]))
    requires forall i :: 0 <= i < k ==> s[i].alloc
    ensures LoadsOk(elf, s, k + 1, phdrs[|phdrs| - 1 := Merged(phdrs[|phdrs| - 1], s[k])])
  {
    var n := |phdrs| - 1;
    var next := phdrs[n := Merged(phdrs[n], s[k])];
    MergeKeepsStep(elf, s, k, phdrs[n]);
    forall i, j | 1 <= i < j < |next| ensures Below(next, i, j) {
      assert Below(phdrs, i, j);
    }
  }

  lemma {:induction false} PushedLoad(elf: ElfTypes, s: seq<Section>, k: nat, phdrs: seq<Phdr>)
    requires k < |s| && Placed(elf.HeaderSize(), s, k) && LoadsOk(elf, s, k, phdrs)
    requires Loaded(s[k]) && s[k].align == PAGE_SIZE
    requires forall i :: 0 <= i < k ==> s[i].alloc
    ensures LoadsOk(elf, s, k + 1, phdrs + [LoadOf(s[k])]) && Maps(LoadOf(s[k]), s[k])
  {
    var n, next := |phdrs|, phdrs + [LoadOf(s[k])];
    RoundUpAligned(PosAfter(elf.HeaderSize(), s, k), PAGE_SIZE);
    RoundUpAligned(VaAfter(elf.HeaderSize(), s, k), PAGE_SIZE);
    forall i, j | 1 <= i < j < |next| ensures Below(next, i, j) {
      if j < n {
        assert Below(phdrs, i, j);
      } else if i < n - 1 {
        assert Below(phdrs, i, n - 1);
      }
    }
  }

  lemma {:induction false} OneMoreLoad(elf: ElfTypes, s: seq<Section>, k: nat, phdrs: seq<Phdr>)
    requires AllPlaced(elf.HeaderSize(), s) && AllocatedFirst(s) && k < |s|
    requires LoadsOk(elf, s, k, phdrs) && Extend(phdrs, s[k]).Some?
    ensures LoadsOk(elf, s, k + 1, Extend(phdrs, s[k]).value)
  {
    assert Placed(elf.HeaderSize(), s, k);
    if s[k].alloc {
      assert forall i :: 0 <= i < k ==> s[i].alloc;
      if !Loaded(s[k]) {
        SkipKeepsStep(elf, s, k, phdrs[|phdrs| - 1]);
      } else if Mergeable(phdrs[|phdrs| - 1], LoadOf(s[k])) {
        MergedLoad(elf, s, k, phdrs);
      } else {
        PushedLoad(elf, s, k, phdrs);
      }
    }
  }

  /** What the PT_LOAD loop has established after `k` sections. */
  lemma {:induction false} PlacedLoadsAreOk(elf: ElfTypes, s: seq<Section>, k: nat)
    requires AllPlaced(elf.HeaderSize(), s) && AllocatedFirst(s) && k <= |s|
    requires Loads(elf, s, k).Some?
    ensures LoadsOk(elf, s, k, Loads(elf, s, k).value)
  {
    if k == 0 {
      InitialOk(elf, s);
    } else {
      PlacedLoadsAreOk(elf, s, k - 1);
      OneMoreLoad(elf, s, k - 1, Loads(elf, s, k - 1).value);
    }
  }

  /* ---- When everything is mapped ---- */

  /** The file offset of the last segment after `k` sections. */
  function SegmentOffset(s: seq<Section>, k: nat): nat
    requires k <= |s|
  {
    if k == 0 then 0
    else if Loaded(s[k - 1]) && !Joins(s, k - 1) then s[k - 1].offset
    else SegmentOffset(s, k - 1)
  }

  /** Section `k` ends less than 4 GiB after the start of the segment it joins:
      the size of the segment is an Elf_Word. */
  predicate FitsSegment(s: seq<Section>, k: nat)
    requires k < |s|
  {
    Loaded(s[k]) && Joins(s, k) ==> s[k].offset + s[k].size - SegmentOffset(s, k) < TWO_32
  }

  /** While all sections fit, all are mapped. */
  lemma {:induction false} LoadsMapAll(elf: ElfTypes, s: seq<Section>, k: nat)
    requires AllPlaced(elf.HeaderSize(), s) && AllocatedFirst(s) && k <= |s|
    requires Loads(elf, s, k).Some? && forall i :: 0 <= i < k ==> FitsSegment(s, i)
    ensures LoadsMap(elf, s, k, Loads(elf, s, k).value)
  {
    if k > 0 {
      LoadsMapAll(elf, s, k - 1);
      PlacedLoadsAreOk(elf, s, k - 1);
      LastSegment(elf, s, k - 1);
      assert FitsSegment(s, k - 1);
      OneMoreMapped(elf, s, k - 1, Loads(elf, s, k - 1).value);
    }
  }

  lemma {:induction false} OneMoreMapped(elf: ElfTypes, s: seq<Section>, k: nat, phdrs: seq<Phdr>)
    requires AllPlaced(elf.HeaderSize(), s) && AllocatedFirst(s) && k < |s|
    requires LoadsOk(elf, s, k, phdrs) && LoadsMap(elf, s, k, phdrs) && Extend(phdrs, s[k]).Some?
    requires Loaded(s[k]) && Mergeable(phdrs[|phdrs| - 1], LoadOf(s[k])) ==>
               s[k].offset + s[k].size - phdrs[|phdrs| - 1].offset < TWO_32
    ensures LoadsMap(elf, s, k + 1, Extend(phdrs, s[k]).value)
  {
    var n, next := |phdrs| - 1, Extend(phdrs, s[k]).value;
    assert Placed(elf.HeaderSize(), s, k);
    if Loaded(s[k]) {
      assert forall i :: 0 <= i < k ==> s[i].alloc;
      if Mergeable(phdrs[n], LoadOf(s[k])) {
        MergeKeepsStep(elf, s, k, phdrs[n]);
        assert Maps(next[n], s[k]);
      } else {
        PushedLoad(elf, s, k, phdrs);
        assert Maps(next[n + 1], s[k]);
      }
      forall i | 0 <= i < k && Loaded(s[i]) ensures Mapped(next, s[i]) {
        StillMapped(phdrs, next, s[i]);
      }
    }
  }

  /** Once section `k` did not fit: no segment maps it, and the last one is that
      of `k`, with a wrapped size, or begins behind `k`. */
  ghost predicate Misses(s: seq<Section>, k: nat, phdrs: seq<Phdr>)
    requires k < |s|
  {
    && |phdrs| >= 2
    && (forall i :: 1 <= i < |phdrs| ==> !Maps(phdrs[i], s[k]))
    && var l := phdrs[|phdrs| - 1];
       (l.offset == SegmentOffset(s, k) && l.filesz < TWO_32) || s[k].addr < l.vaddr
  }

  lemma {:induction false} WideIsMissed(elf: ElfTypes, s: seq<Section>, k: nat, n: nat)
    requires AllPlaced(elf.HeaderSize(), s) && AllocatedFirst(s) && k < n <= |s|
    requires Loads(elf, s, n).Some? && !FitsSegment(s, k)
    ensures Misses(s, k, Loads(elf, s, n).value)
    decreases n
  {
    var phdrs := Loads(elf, s, n - 1).value;
    PlacedLoadsAreOk(elf, s, n - 1);
    LastSegment(elf, s, n - 1);
    if n == k + 1 {
      assert Loaded(s[k]) && Joins(s, k);
      assert Mergeable(phdrs[|phdrs| - 1], LoadOf(s[k]));
      WideIsMissedAt(elf, s, k, phdrs);
    } else {
      WideIsMissed(elf, s, k, n - 1);
      if Loaded(s[n - 1]) {
        LaterIsBehind(elf.HeaderSize(), s, k, n - 1);
        StillMissed(s, k, n - 1, phdrs, Loads(elf, s, n).value);
      }
    }
  }

  lemma {:induction false} StillMissed(s: seq<Section>, k: nat, n: nat, phdrs: seq<Phdr>, next: seq<Phdr>)
    requires k < n < |s| && Misses(s, k, phdrs) && s[k].addr < s[n].addr && !FitsSegment(s, k)
    requires Loaded(s[n]) && Extend(phdrs, s[n]) == Some(next)
    ensures Misses(s, k, next)
  {
  }

  lemma {:induction false} WideIsMissedAt(elf: ElfTypes, s: seq<Section>, k: nat, phdrs: seq<Phdr>)
    requires AllPlaced(elf.HeaderSize(), s) && AllocatedFirst(s) && k < |s| && !FitsSegment(s, k)
    requires LoadsOk(elf, s, k, phdrs) && Mergeable(phdrs[|phdrs| - 1], LoadOf(s[k]))
    requires phdrs[|phdrs| - 1].offset == SegmentOffset(s, k)
    ensures Misses(s, k, phdrs[|phdrs| - 1 := Merged(phdrs[|phdrs| - 1], s[k])])
  {
    var n := |phdrs| - 1;
    var next := phdrs[n := Merged(phdrs[n], s[k])];
    assert Placed(elf.HeaderSize(), s, k);
    assert forall i :: 0 <= i < k ==> s[i].alloc;
    forall i | 1 <= i < |next| ensures !Maps(next[i], s[k]) {
      if i < n {
        assert Below(phdrs, i, n);
      }
    }
  }

  /** An allocated section lies behind every loaded section before it. */
  lemma {:induction false} LaterIsBehind(header: nat, s: seq<Section>, k: nat, n: nat)
    requires AllPlaced(header, s) && k < n < |s| && Loaded(s[k]) && s[n].alloc
    ensures s[k].addr < s[n].addr
  {
    VaGrows(header, s, k + 1, n);
    assert Placed(header, s, n);
  }

  lemma {:induction false} VaGrows(header: nat, s: seq<Section>, j: nat, k: nat)
    requires AllPlaced(header, s) && j <= k <= |s|
    ensures VaAfter(header, s, j) <= VaAfter(header, s, k)
    decreases k
  {
    if j < k {
      VaGrows(header, s, j, k - 1);
      assert Placed(header, s, k - 1);
    }
  }

  lemma {:induction false} PosMonotone(header: nat, s: seq<Section>, j: nat, k: nat)
    requires AllPlaced(header, s) && j <= k <= |s|
    ensures PosAfter(header, s, j) <= PosAfter(header, s, k)
    decreases k
  {
    if j < k {
      PosMonotone(header, s, j, k - 1);
      assert Placed(header, s, k - 1);
    }
  }

  /* ---- Headers have fields of a fixed width ---- */

  /** Addresses, offsets and sizes have 32 bits in Elf32. The builder's sums and
      rounded sums of them agree modulo 2^32 with those of the numbers. */
  function Field(elf: ElfTypes, n: nat): nat {
    if elf.Elf32? then n % TWO_32 else n
  }

  /** The section as its header describes it. */
  function HeaderOf(elf: ElfTypes, t: Section): Section {
    t.(offset := Field(elf, t.offset), addr := Field(elf, t.addr), size := Field(elf, t.size))
  }

  function Headers(elf: ElfTypes, s: seq<Section>): (h: seq<Section>)
    ensures |h| == |s| && forall i :: 0 <= i < |s| ==> h[i] == HeaderOf(elf, s[i])
  {
    seq(|s|, i requires 0 <= i < |s| => HeaderOf(elf, s[i]))
  }

  /** The section ends inside the address space. */
  predicate InSpace(elf: ElfTypes, t: Section) {
    Loaded(t) && elf.Elf32? ==> t.addr + t.size <= TWO_32
  }

  /** All sections lie in the address space, and a segment maps each. */
  ghost predicate MapsAll(elf: ElfTypes, loads: seq<Phdr>, s: seq<Section>) {
    forall i :: 0 <= i < |s| && Loaded(s[i]) ==> InSpace(elf, s[i]) && Mapped(loads, s[i])
  }

  predicate Fits(elf: ElfTypes, s: seq<Section>, k: nat)
    requires k < |s|
  {
    InSpace(elf, s[k]) && FitsSegment(s, k)
  }

  lemma {:induction false} PosBelowVa(header: nat, s: seq<Section>, k: nat)
    requires AllPlaced(header, s) && k <= |s| && forall i :: 0 <= i < k ==> s[i].alloc
    ensures PosAfter(header, s, k) <= VaAfter(header, s, k) && header <= VaAfter(header, s, k)
  {
    if k > 0 {
      PosBelowVa(header, s, k - 1);
      assert Placed(header, s, k - 1);
      RoundUpMonotone(PosAfter(header, s, k - 1), VaAfter(header, s, k - 1), s[k - 1].align);
    }
  }

  /** The header of a loaded section in the address space is exact. */
  lemma {:induction false} HeaderIsExact(elf: ElfTypes, s: seq<Section>, k: nat)
    requires AllPlaced(elf.HeaderSize(), s) && AllocatedFirst(s) && k < |s| && Loaded(s[k]) && InSpace(elf, s[k])
    ensures HeaderOf(elf, s[k]) == s[k]
  {
    assert forall i :: 0 <= i < k ==> s[i].alloc;
    PosBelowVa(elf.HeaderSize(), s, k);
    assert Placed(elf.HeaderSize(), s, k);
    RoundUpMonotone(PosAfter(elf.HeaderSize(), s, k), VaAfter(elf.HeaderSize(), s, k), s[k].align);
    assert s[k].addr > 0 && s[k].offset <= s[k].addr;
  }

  /** Then the loops over headers see what a loop over the sections would. */
  lemma {:induction false} LoadsSeeSections(elf: ElfTypes, s: seq<Section>, k: nat)
    requires AllPlaced(elf.HeaderSize(), s) && AllocatedFirst(s) && k <= |s|
    requires forall i :: 0 <= i < k ==> InSpace(elf, s[i])
    ensures Loads(elf, Headers(elf, s), k) == Loads(elf, s, k) && Extras(Headers(elf, s), k) == Extras(s, k)
  {
    if k > 0 {
      LoadsSeeSections(elf, s, k - 1);
      if Loaded(s[k - 1]) {
        HeaderIsExact(elf, s, k - 1);
      }
    }
  }

  /** What the PT_LOAD loop has established after `k` sections. */
  lemma {:induction false} LoadsAreOk(elf: ElfTypes, s: seq<Section>, k: nat)
    requires AllPlaced(elf.HeaderSize(), s) && AllocatedFirst(s) && k <= |s|
    requires Loads(elf, Headers(elf, s), k).Some? && forall i :: 0 <= i < k ==> InSpace(elf, s[i])
    ensures LoadsOk(elf, s, k, Loads(elf, Headers(elf, s), k).value)
  {
    LoadsSeeSections(elf, s, k);
    PlacedLoadsAreOk(elf, s, k);
  }

  /** All loaded sections are mapped exactly when each ends within 4 GiB of the
      start of its segment and inside the address space. */
  lemma {:induction false} SectionsAreMappedIff(elf: ElfTypes, s: seq<Section>)
    requires AllPlaced(elf.HeaderSize(), s) && AllocatedFirst(s) && Loads(elf, Headers(elf, s), |s|).Some?
    ensures MapsAll(elf, Loads(elf, Headers(elf, s), |s|).value, s) <==> forall i :: 0 <= i < |s| ==> Fits(elf, s, i)
  {
    if i :| 0 <= i < |s| && !InSpace(elf, s[i]) {
      assert Loaded(s[i]) && !Fits(elf, s, i);
    } else {
      LoadsSeeSections(elf, s, |s|);
      PlacedAreMappedIff(elf, s, Loads(elf, s, |s|).value);
      assert forall i :: 0 <= i < |s| ==> (Fits(elf, s, i) <==> FitsSegment(s, i));
    }
  }

  lemma {:induction false} PlacedAreMappedIff(elf: ElfTypes, s: seq<Section>, loads: seq<Phdr>)
    requires AllPlaced(elf.HeaderSize(), s) && AllocatedFirst(s) && Loads(elf, s, |s|) == Some(loads)
    ensures (forall i :: 0 <= i < |s| && Loaded(s[i]) ==> Mapped(loads, s[i])) <==>
            forall i :: 0 <= i < |s| ==> FitsSegment(s, i)
  {
    if i :| 0 <= i < |s| && !FitsSegment(s, i) {
      WideIsMissed(elf, s, i, |s|);
    } else {
      LoadsMapAll(elf, s, |s|);
    }
  }

  /** In a file below 4 GiB all sections fit. */
  lemma {:induction false} SmallFilesFit(elf: ElfTypes, s: seq<Section>, k: nat)
    requires AllPlaced(elf.HeaderSize(), s) && k < |s| && PosAfter(elf.HeaderSize(), s, |s|) < TWO_32
    requires elf.Elf32? ==> VaAfter(elf.HeaderSize(), s, |s|) <= TWO_32
    ensures Fits(elf, s, k)
  {
    PosMonotone(elf.HeaderSize(), s, k + 1, |s|);
    VaGrows(elf.HeaderSize(), s, k + 1, |s|);
  }

  lemma {:induction false} InitialOk(elf: ElfTypes, s: seq<Section>)
    ensures LoadsOk(elf, s, 0, Initial(elf))
  {
    var h := elf.HeaderSize();
    assert InStep(Initial(elf)[1], h, h);
  }

  /** The extra PT_* entry of a section that has one. */
  function Extra(s: Section): Phdr {
    Phdr(s.phdrType, s.phdrFlags, s.offset, s.addr, s.size, s.size, s.align)
  }

  /** The entries added by the second loop for the first `k` sections. */
  function Extras(s: seq<Section>, k: nat): seq<Phdr>
    requires k <= |s|
  {
    if k == 0 then []
    else if Loaded(s[k - 1]) && s[k - 1].phdrType != 0 then Extras(s, k - 1) + [Extra(s[k - 1])]
    else Extras(s, k - 1)
  }

  /** A section that occupies memory and declares an entry of its own. */
  predicate IsSpecial(t: Section) {
    t.alloc && t.size != 0 && t.phdrType != 0
  }

  /** Entry `p` has the type that section `t` declares, and its place, all its bytes, flags and alignment. */
  ghost predicate Describes(p: Phdr, t: Section) {
    && p.ptype == t.phdrType && p.flags == t.phdrFlags && p.align == t.align
    && p.offset == t.offset && p.vaddr == t.addr && p.filesz == t.size && p.memsz == t.size
  }

  /** `entries` describe the special ones of the first `k` sections, one each, in
      the order of the sections; `at` are the positions of these. */
  ghost predicate IsListing(s: seq<Section>, k: nat, entries: seq<Phdr>, at: seq<nat>)
    requires k <= |s|
  {
    && |at| == |entries|
    && (forall j :: 0 <= j < |at| ==> at[j] < k && IsSpecial(s[at[j]]) && Describes(entries[j], s[at[j]]))
    && (forall i, j :: 0 <= i < j < |at| ==> at[i] < at[j])
    && (forall i :: 0 <= i < k && IsSpecial(s[i]) ==> i in at)
  }

  /** The entries list the special sections, and no others. */
  ghost predicate ListsSpecial(s: seq<Section>, entries: seq<Phdr>) {
    exists at :: IsListing(s, |s|, entries, at)
  }

  lemma {:induction false} ListedOnce(s: seq<Section>, k: nat, entries: seq<Phdr>, at: seq<nat>, p: Phdr)
    requires k < |s| && IsListing(s, k, entries, at) && IsSpecial(s[k]) && Describes(p, s[k])
    ensures IsListing(s, k + 1, entries + [p], at + [k])
  {
    var next := at + [k];
    forall i | 0 <= i < k + 1 && IsSpecial(s[i]) ensures i in next {
      if i < k {
        assert i in at;
      } else {
        assert next[|at|] == i;
      }
    }
    forall j | 0 <= j < |next| ensures next[j] < k + 1 && IsSpecial(s[next[j]]) {
      assert j < |at| ==> at[j] < k;
    }
  }

  lemma {:induction false} ListedOn(s: seq<Section>, k: nat, entries: seq<Phdr>, at: seq<nat>)
    requires k < |s| && IsListing(s, k, entries, at) && !IsSpecial(s[k])
    ensures IsListing(s, k + 1, entries, at)
  {
    forall i | 0 <= i < k + 1 && IsSpecial(s[i]) ensures i in at {
      assert i < k;
    }
  }

  lemma {:induction false} ExtrasList(s: seq<Section>, k: nat) returns (at: seq<nat>)
    requires k <= |s|
    ensures IsListing(s, k, Extras(s, k), at)
  {
    if k == 0 {
      at := [];
    } else {
      at := ExtrasList(s, k - 1);
      if IsSpecial(s[k - 1]) {
        ListedOnce(s, k - 1, Extras(s, k - 1), at, Extra(s[k - 1]));
        at := at + [k - 1];
      } else {
        ListedOn(s, k - 1, Extras(s, k - 1), at);
      }
    }
  }

  /** The first entry describes the table of `count` program headers. */
  ghost predicate IsTable(elf: ElfTypes, p: Phdr, count: nat) {
    && p.ptype == PT_PHDR && p.flags == PF_R && p.align == elf.OffSize()
    && p.offset == elf.EhdrSize() && p.vaddr == elf.EhdrSize()
    && p.filesz == count * elf.PhdrSize() && p.memsz == p.filesz
  }

  /** Entry `p` describes bytes that a PT_LOAD among `loads` maps at `p`'s address. */
  ghost predicate InsideLoad(loads: seq<Phdr>, p: Phdr) {
    exists i :: 0 <= i < |loads| && loads[i].ptype == PT_LOAD &&
      loads[i].vaddr <= p.vaddr && p.vaddr + p.memsz <= loads[i].vaddr + loads[i].memsz &&
      loads[i].offset <= p.offset && p.offset + p.filesz <= loads[i].offset + loads[i].filesz &&
      p.vaddr - p.offset == loads[i].vaddr - loads[i].offset
  }

  lemma {:induction false} ExtrasAreInside(s: seq<Section>, k: nat, loads: seq<Phdr>)
    requires k <= |s|
    requires forall i :: 0 <= i < k && Loaded(s[i]) ==> Mapped(loads, s[i])
    requires forall i :: 0 <= i < k && s[i].phdrType != 0 ==> !s[i].noBits
    ensures forall j :: 0 <= j < |Extras(s, k)| ==> InsideLoad(loads, Extras(s, k)[j])
  {
    if k > 0 {
      ExtrasAreInside(s, k - 1, loads);
      if Loaded(s[k - 1]) && s[k - 1].phdrType != 0 {
        var i :| 1 <= i < |loads| && Maps(loads[i], s[k - 1]);
        assert InsideLoad(loads, Extra(s[k - 1]));
      }
    }
  }

  /* ---- When the checks pass ---- */

  function LastLoaded(s: seq<Section>, k: nat): Option<Section>
    requires k <= |s|
  {
    if k == 0 then None else if Loaded(s[k - 1]) then Some(s[k - 1]) else LastLoaded(s, k - 1)
  }

  /** Section `k` goes into the segment of the loaded section before it, or of
      the ELF header: same flags, and both have bits. */
  predicate Joins(s: seq<Section>, k: nat)
    requires k < |s|
  {
    var last := LastLoaded(s, k);
    && s[k].phdrFlags == (if last.None? then PF_R else last.value.phdrFlags)
    && !s[k].noBits && (last.Some? ==> !last.value.noBits)
  }

  lemma {:induction false} LastSegment(elf: ElfTypes, s: seq<Section>, k: nat)
    requires k <= |s| && Loads(elf, s, k).Some?
    ensures var l, last := Loads(elf, s, k).value[|Loads(elf, s, k).value| - 1], LastLoaded(s, k);
            && l.ptype == PT_LOAD && l.flags == (if last.None? then PF_R else last.value.phdrFlags)
            && l.offset == SegmentOffset(s, k)
            && (l.filesz == l.memsz <==> (last.Some? ==> !last.value.noBits))
  {
    if k > 0 {
      LastSegment(elf, s, k - 1);
    }
  }

  /** The alignment CHECK passes exactly when every section that begins a
      segment is page-aligned. */
  lemma {:induction false} AlignmentCheckPassesIff(elf: ElfTypes, s: seq<Section>, k: nat)
    requires k <= |s|
    ensures Loads(elf, s, k).Some? <==>
            forall i :: 0 <= i < k && Loaded(s[i]) && !Joins(s, i) ==> s[i].align == PAGE_SIZE
  {
    if k > 0 {
      AlignmentCheckPassesIff(elf, s, k - 1);
      if Loads(elf, s, k - 1).Some? {
        LastSegment(elf, s, k - 1);
      }
    }
  }

  lemma {:induction false} FailureStays(elf: ElfTypes, s: seq<Section>, k: nat)
    requires k <= |s| && Loads(elf, s, k).None?
    ensures Loads(elf, s, |s|).None?
    decreases |s| - k
  {
    if k < |s| {
      FailureStays(elf, s, k + 1);
    }
  }

  lemma {:induction false} LoadsBound(elf: ElfTypes, s: seq<Section>, k: nat)
    requires k <= |s| && Loads(elf, s, k).Some?
    ensures |Loads(elf, s, k).value| <= 2 + k
  {
    if k > 0 {
      LoadsBound(elf, s, k - 1);
    }
  }

  /** Only sections in `special` get an entry of their own. */
  lemma {:induction false} ExtrasBound(s: seq<Section>, k: nat, special: set<nat>)
    requires k <= |s| && forall i :: 0 <= i < k && s[i].phdrType != 0 ==> i in special
    ensures |Extras(s, k)| <= |set i | i in special && i < k|
  {
    if k > 0 {
      ExtrasBound(s, k - 1, special);
      var before, now := set i | i in special && i < k - 1, set i | i in special && i < k;
      if k - 1 in special {
        assert now == before + {k - 1};
      } else {
        assert now == before;
      }
    }
  }

  /** MakeProgramHeaders, from the section headers. `loads` is the number of
      PT_LOAD entries, which follow the PT_PHDR entry; None when a CHECK fails. */
  method MakeProgramHeaders(elf: ElfTypes, s: seq<Section>) returns (r: Option<seq<Phdr>>, loads: nat)
    requires AllPlaced(elf.HeaderSize(), s) && AllocatedFirst(s)
    requires forall i :: 0 <= i < |s| && s[i].phdrType != 0 ==> !s[i].noBits
    ensures var h := Headers(elf, s);
            && (r.Some? <==> s != [] && Loads(elf, h, |s|).Some? &&
                             |Loads(elf, h, |s|).value + Extras(h, |s|)| <= MAX_PROGRAM_HEADERS)
            && (r.Some? ==> 1 <= loads < |r.value| <= MAX_PROGRAM_HEADERS && r.value[loads + 1..] == Extras(h, |s|))
    ensures r.Some? ==> IsTable(elf, r.value[0], |r.value|) && ListsSpecial(Headers(elf, s), r.value[loads + 1..])
    ensures r.Some? && (forall i :: 0 <= i < |s| ==> InSpace(elf, s[i])) ==> GoodLoads(r.value[..loads + 1])
    ensures r.Some? ==> (MapsAll(elf, r.value[..loads + 1], s) <==> forall i :: 0 <= i < |s| ==> Fits(elf, s, i))
    ensures r.Some? && MapsAll(elf, r.value[..loads + 1], s) ==>
              && InsideLoad(r.value[..loads + 1], r.value[0])
              && forall j :: loads < j < |r.value| ==> InsideLoad(r.value[..loads + 1], r.value[j])
  {
    if s == [] {
      return None, 0;
    }
    var h := Headers(elf, s);
    var made := MakeLoads(elf, h);
    if made.None? {
      return None, 0;
    }
    var head := made.value;
    loads := |head| - 1;
    var phdrs := AddExtras(head, h);
    if |phdrs| > MAX_PROGRAM_HEADERS {
      return None, loads;
    }
    StartsWithPhdr(elf, h, |s|);
    phdrs := phdrs[0 := phdrs[0].(filesz := |phdrs| * elf.PhdrSize(), memsz := |phdrs| * elf.PhdrSize())];
    HeadersHold(elf, s, head, phdrs);
    ghost var at := ExtrasList(h, |s|);
    assert IsListing(h, |s|, phdrs[loads + 1..], at);
    r := Some(phdrs);
  }

  lemma {:induction false} StartsWithPhdr(elf: ElfTypes, s: seq<Section>, k: nat)
    requires k <= |s| && Loads(elf, s, k).Some?
    ensures Loads(elf, s, k).value[0] == Initial(elf)[0]
  {
    if k > 0 {
      StartsWithPhdr(elf, s, k - 1);
    }
  }

  /** The loop that makes and merges PT_LOAD entries. */
  method MakeLoads(elf: ElfTypes, s: seq<Section>) returns (r: Option<seq<Phdr>>)
    ensures r == Loads(elf, s, |s|)
  {
    var phdrs := Initial(elf);
    for k := 0 to |s|
      invariant Loads(elf, s, k) == Some(phdrs)
    {
      if Loaded(s[k]) {
        var prev, load := phdrs[|phdrs| - 1], LoadOf(s[k]);
        if Mergeable(prev, load) {
          phdrs := phdrs[|phdrs| - 1 := Merged(prev, s[k])];
        } else {
          if s[k].align != PAGE_SIZE {
            FailureStays(elf, s, k + 1);
            return None;
          }
          phdrs := phdrs + [load];
        }
      }
    }
    r := Some(phdrs);
  }

  /** The loop that adds the other PT_* entries. */
  method AddExtras(head: seq<Phdr>, s: seq<Section>) returns (phdrs: seq<Phdr>)
    ensures phdrs == head + Extras(s, |s|)
  {
    phdrs := head;
    for k := 0 to |s|
      invariant phdrs == head + Extras(s, k)
    {
      if Loaded(s[k]) && s[k].phdrType != 0 {
        phdrs := phdrs + [Extra(s[k])];
      }
    }
  }

  /** The PT_PHDR entry and the final list, from what the two loops built. */
  lemma {:induction false} HeadersHold(elf: ElfTypes, s: seq<Section>, head: seq<Phdr>, phdrs: seq<Phdr>)
    requires AllPlaced(elf.HeaderSize(), s) && AllocatedFirst(s) && Loads(elf, Headers(elf, s), |s|) == Some(head)
    requires |head| <= |phdrs| <= MAX_PROGRAM_HEADERS
    requires forall i :: 0 <= i < |s| && s[i].phdrType != 0 ==> !s[i].noBits
    requires var size := |phdrs| * elf.PhdrSize();
             phdrs == [head[0].(filesz := size, memsz := size)] + head[1..] + Extras(Headers(elf, s), |s|)
    ensures var l := phdrs[..|head|];
            && ((forall i :: 0 <= i < |s| ==> InSpace(elf, s[i])) ==> GoodLoads(l))
            && (MapsAll(elf, l, s) <==> forall i :: 0 <= i < |s| ==> Fits(elf, s, i))
            && (MapsAll(elf, l, s) ==>
                  InsideLoad(l, phdrs[0]) && forall j :: |head| <= j < |phdrs| ==> InsideLoad(l, phdrs[j]))
  {
    var l := phdrs[..|head|];
    assert forall i :: 1 <= i < |head| ==> l[i] == head[i];
    SameLoads(elf, s, head, l);
    if MapsAll(elf, l, s) {
      forall i | 0 <= i < |s| ensures InSpace(elf, s[i]) && FitsSegment(s, i) {
        assert Fits(elf, s, i);
      }
      LoadsSeeSections(elf, s, |s|);
      ExtrasAreInside(s, |s|, l);
      assert forall j :: |head| <= j < |phdrs| ==> phdrs[j] == Extras(s, |s|)[j - |head|];
      PhdrIsInside(elf, s, head, phdrs, l);
    }
  }

  lemma {:induction false} PhdrIsInside(
    elf: ElfTypes, s: seq<Section>, head: seq<Phdr>, phdrs: seq<Phdr>, l: seq<Phdr>)
    requires AllPlaced(elf.HeaderSize(), s) && AllocatedFirst(s) && Loads(elf, s, |s|) == Some(head)
    requires forall i :: 0 <= i < |s| ==> FitsSegment(s, i)
    requires 2 <= |l| == |head| && |phdrs| <= MAX_PROGRAM_HEADERS && forall i :: 1 <= i < |head| ==> l[i] == head[i]
    requires l[0] == head[0].(filesz := |phdrs| * elf.PhdrSize(), memsz := |phdrs| * elf.PhdrSize())
    ensures InsideLoad(l, l[0])
  {
    PlacedLoadsAreOk(elf, s, |s|);
    LoadsMapAll(elf, s, |s|);
    PhdrInside(elf, l, |phdrs|);
  }

  lemma {:induction false} SameLoads(elf: ElfTypes, s: seq<Section>, head: seq<Phdr>, l: seq<Phdr>)
    requires AllPlaced(elf.HeaderSize(), s) && AllocatedFirst(s) && Loads(elf, Headers(elf, s), |s|) == Some(head)
    requires |l| == |head| && forall i :: 1 <= i < |head| ==> l[i] == head[i]
    ensures (forall i :: 0 <= i < |s| ==> InSpace(elf, s[i])) ==> GoodLoads(l)
    ensures MapsAll(elf, l, s) <==> forall i :: 0 <= i < |s| ==> Fits(elf, s, i)
  {
    if forall i :: 0 <= i < |s| ==> InSpace(elf, s[i]) {
      LoadsAreOk(elf, s, |s|);
      forall i, j | 1 <= i < j < |l| ensures Below(l, i, j) {
        assert Below(head, i, j);
      }
    }
    SectionsAreMappedIff(elf, s);
    forall i | 0 <= i < |s| ensures Mapped(l, s[i]) <==> Mapped(head, s[i]) {
      SameLoadsMapSame(head, l, s[i]);
    }
  }

  lemma {:induction false} SameLoadsMapSame(a: seq<Phdr>, b: seq<Phdr>, t: Section)
    requires |a| == |b| && forall i :: 1 <= i < |a| ==> a[i] == b[i]
    ensures Mapped(a, t) <==> Mapped(b, t)
  {
    if i :| 1 <= i < |a| && Maps(a[i], t) {
      assert Maps(b[i], t);
    }
    if i :| 1 <= i < |b| && Maps(b[i], t) {
      assert Maps(a[i], t);
    }
  }

  lemma {:induction false} PhdrInside(elf: ElfTypes, l: seq<Phdr>, count: nat)
    requires |l| >= 2 && count <= MAX_PROGRAM_HEADERS
    requires l[0] == Initial(elf)[0].(filesz := count * elf.PhdrSize(), memsz := count * elf.PhdrSize())
    requires GoodLoad(l[1]) && l[1].offset == 0 && l[1].vaddr == 0
    requires l[1].filesz >= elf.HeaderSize() && l[1].memsz >= elf.HeaderSize()
    ensures InsideLoad(l, l[0])
  {
    assert l[1].ptype == PT_LOAD;
  }
}
