/** One oat file: everything is planned first and written afterwards, and the
    file ends where the plan said. */
module OatFile {
  import opened Util
  import opened OatVisits
  import opened OatLayout
  import OatCode
  import OatMaps

  /** Where the parts of the file begin. */
  datatype Layout = Layout(vmaps: nat, infos: nat, infosEnd: nat, executable: nat, code: nat, size: nat)

  function LayoutOf(
    cfg: OatCode.Config, isa: InstructionSet, base: nat, classes: seq<DexClass>, trampolines: seq<nat>): Layout {
    var vs := Visits(classes, |classes|);
    var vmaps := ClassesEnd(base, classes, |classes|);
    var infos := OatMaps.PlanOf(OatMaps.Vmap, vmaps, vs, |vs|).offset;
    var infosEnd := OatMaps.PlanOf(OatMaps.MethodInfo, infos, vs, |vs|).offset;
    var executable := RoundUp(infosEnd, PAGE_SIZE);
    var code := TrampolinesEnd(isa, executable, trampolines, |trampolines|);
    Layout(vmaps, infos, infosEnd, executable, code, OatCode.PlannedEnd(cfg, code, vs, classes != []))
  }

  /** What the planning passes leave for the writing passes. */
  datatype Plan = Plan(
    visits: seq<Visit>, records: seq<OatClass>, layout: Layout,
    codeOffsets: map<(nat, nat), nat>, vmapHeaders: map<(nat, nat), nat>, infoHeaders: map<(nat, nat), nat>)

  ghost predicate IsPlan(
    cfg: OatCode.Config, isa: InstructionSet, base: nat, classes: seq<DexClass>, trampolines: seq<nat>, p: Plan)
  {
    && p.layout == LayoutOf(cfg, isa, base, classes, trampolines)
    && p.visits == Visits(classes, |classes|)
    && |p.records| == |classes| && (forall c :: 0 <= c < |classes| ==> IsRecord(base, classes, c, p.records[c]))
    && OatCode.Stores(cfg, p.layout.code, p.visits, p.codeOffsets)
    && OatCode.Fit(cfg, p.layout.code, p.visits, |p.visits|)
    && OatMaps.HeadersReady(OatMaps.Vmap, p.layout.vmaps, p.visits, p.vmapHeaders, p.codeOffsets)
    && OatMaps.HeadersReady(OatMaps.MethodInfo, p.layout.infos, p.visits, p.infoHeaders, p.codeOffsets)
  }

  lemma {:induction false} TrampolinesGrow(isa: InstructionSet, base: nat, sizes: seq<nat>, n: nat)
    requires n <= |sizes|
    ensures base <= TrampolinesEnd(isa, base, sizes, n)
  {
    if n > 0 {
      TrampolinesGrow(isa, base, sizes, n - 1);
    }
  }

  lemma {:induction false} ClassesGrow(base: nat, classes: seq<DexClass>, n: nat)
    requires n <= |classes|
    ensures base <= ClassesEnd(base, classes, n)
  {
    if n > 0 {
      ClassesGrow(base, classes, n - 1);
    }
  }

  /** Tables lie before code, and the file is not shorter than its code. */
  lemma {:induction false} PartsAreInOrder(
    cfg: OatCode.Config, isa: InstructionSet, base: nat, classes: seq<DexClass>, trampolines: seq<nat>)
    ensures var l := LayoutOf(cfg, isa, base, classes, trampolines);
            var vs := Visits(classes, |classes|);
            && base <= l.vmaps <= l.infos <= l.infosEnd <= l.executable <= l.code
            && OatCode.PlanOf(cfg, l.code, vs, |vs|).offset <= l.size
  {
    var l := LayoutOf(cfg, isa, base, classes, trampolines);
    var vs := Visits(classes, |classes|);
    ClassesGrow(base, classes, |classes|);
    OatMaps.PlanGrows(OatMaps.Vmap, l.vmaps, vs, 0, |vs|);
    OatMaps.PlanGrows(OatMaps.MethodInfo, l.infos, vs, 0, |vs|);
    TrampolinesGrow(isa, l.executable, trampolines, |trampolines|);
  }

  /** In a file below 4 GiB all code offsets have 32 bits. */
  lemma {:induction false} CodeFits(cfg: OatCode.Config, code: nat, vs: seq<Visit>)
    requires Sound(cfg, vs) && OatCode.PlanOf(cfg, code, vs, |vs|).offset < TWO_32
    ensures OatCode.Fit(cfg, code, vs, |vs|)
  {
    forall k | 0 <= k < |vs| ensures OatCode.PlanOf(cfg, code, vs, |vs|).offsets[k] < TWO_32 {
      if vs[k].Compiled() {
        OatCode.CodeIsInside(cfg, code, vs, k);
      } else {
        OatCode.OffsetsAreStable(cfg, code, vs, k, |vs|);
      }
    }
  }

  /** Header fields of one kind of table, ready for the writing pass. */
  method PlanHeaders(cfg: OatCode.Config, kind: OatMaps.Kind, base: nat, codeBase: nat, vs: seq<Visit>,
                     fields: map<(nat, nat), nat>, codeOffsets: map<(nat, nat), nat>, vdex: (nat, nat) -> nat)
      returns (headers: map<(nat, nat), nat>)
    requires DistinctKeys(vs) && Sound(cfg, vs) && base > 0
    requires OatMaps.PlanOf(kind, base, vs, |vs|).offset <= codeBase
    requires OatCode.PlanOf(cfg, codeBase, vs, |vs|).offset < TWO_32
    requires OatCode.Stores(cfg, codeBase, vs, codeOffsets)
    requires forall k :: 0 <= k < |vs| && vs[k].Compiled() ==>
               vs[k].Key() in fields &&
               fields[vs[k].Key()] == OatMaps.Field(OatMaps.PlanOf(kind, base, vs, |vs|).offsets[k])
    ensures OatMaps.HeadersReady(kind, base, vs, headers, codeOffsets)
  {
    forall k | 0 <= k < |vs| && vs[k].Compiled()
      ensures vs[k].Key() in codeOffsets && codeOffsets[vs[k].Key()] >= vs[k].Method().isa.CodeDelta()
    {
      OatCode.CodeIsInside(cfg, codeBase, vs, k);
    }
    headers := FinishHeaders(kind, vs, fields, codeOffsets, vdex);
    forall k | 0 <= k < |vs| && vs[k].Compiled() ensures OatMaps.HeaderReady(kind, base, vs, headers, codeOffsets, k) {
      HeadersAreReady(cfg, kind, base, codeBase, vs, fields, codeOffsets, vdex, headers, k);
    }
  }

  /** PrepareLayout: classes, maps, trampolines and code, in this order. */
  method PlanOatFile(cfg: OatCode.Config, isa: InstructionSet, base: nat, classes: seq<DexClass>, trampolines: seq<nat>,
                     vdex: (nat, nat) -> nat)
      returns (p: Plan)
    requires base > 0 && Sound(cfg, Visits(classes, |classes|))
    requires LayoutOf(cfg, isa, base, classes, trampolines).size < TWO_32
    ensures IsPlan(cfg, isa, base, classes, trampolines, p)
  {
    PartsAreInOrder(cfg, isa, base, classes, trampolines);
    KeysAreDistinct(classes, |classes|);
    var vs := VisitDexMethods(classes);
    var vmaps, records := PlanClasses(base, classes);
    var infos, vmapFields := OatMaps.PlanMaps(OatMaps.Vmap, vmaps, vs);
    var infosEnd, infoFields := OatMaps.PlanMaps(OatMaps.MethodInfo, infos, vs);
    var executable := RoundUp(infosEnd, PAGE_SIZE);
    var code, _ := PlanTrampolines(isa, executable, trampolines);
    var size, codeOffsets := OatCode.PlanCode(cfg, code, vs, classes != []);
    CodeFits(cfg, code, vs);
    OatCode.FittingRecordsAreExact(cfg, code, vs, codeOffsets);
    var vmapHeaders := PlanHeaders(cfg, OatMaps.Vmap, vmaps, code, vs, vmapFields, codeOffsets, vdex);
    var infoHeaders := PlanHeaders(cfg, OatMaps.MethodInfo, infos, code, vs, infoFields, codeOffsets, vdex);
    p := Plan(vs, records, Layout(vmaps, infos, infosEnd, executable, code, size),
              codeOffsets, vmapHeaders, infoHeaders);
  }

  /** WriteRodata: classes, maps and the padding before the executable part. */
  method WriteRodata(cfg: OatCode.Config, isa: InstructionSet, file: nat, base: nat, classes: seq<DexClass>,
                     trampolines: seq<nat>, p: Plan)
      returns (pos: nat, starts: seq<nat>, vmapChunks: seq<OatMaps.Chunk>, infoChunks: seq<OatMaps.Chunk>)
    requires base > 0 && Sound(cfg, p.visits) && IsPlan(cfg, isa, base, classes, trampolines, p)
    ensures pos == file + p.layout.executable
    ensures |starts| == |p.records| && forall c :: 0 <= c < |starts| ==> starts[c] == file + p.records[c].offset
    ensures vmapChunks == OatMaps.PlannedChunks(OatMaps.Vmap, file, p.layout.vmaps, p.visits, |p.visits|)
    ensures infoChunks == OatMaps.PlannedChunks(OatMaps.MethodInfo, file, p.layout.infos, p.visits, |p.visits|)
  {
    PartsAreInOrder(cfg, isa, base, classes, trampolines);
    pos, starts := WriteClasses(file, base, classes, p.records);
    var relative := pos - file;
    relative, pos, vmapChunks := OatMaps.WriteMaps(
      OatMaps.Vmap, file, relative, p.visits, p.vmapHeaders, p.codeOffsets);
    relative, pos, infoChunks := OatMaps.WriteMaps(
      OatMaps.MethodInfo, file, relative, p.visits, p.infoHeaders, p.codeOffsets);
    var padding := p.layout.executable - relative;
    pos := pos + padding;
  }

  /** WriteCode: trampolines and code. Both final checks pass. */
  method WriteText(cfg: OatCode.Config, isa: InstructionSet, file: nat, base: nat, classes: seq<DexClass>,
                   trampolines: seq<nat>, p: Plan)
      returns (end: nat, pos: nat, chunks: seq<OatCode.Chunk>)
    requires Sound(cfg, p.visits) && IsPlan(cfg, isa, base, classes, trampolines, p)
    ensures end == p.layout.size && pos == file + p.layout.size
    ensures chunks == OatCode.Expected(cfg, file, p.layout.code, p.visits, classes != [])
  {
    var relative;
    relative, pos := WriteTrampolines(isa, file, p.layout.executable, trampolines);
    OatCode.NothingIsBlind(cfg, relative, p.visits);
    ExactRecords(cfg, relative, p.visits, p.codeOffsets);
    OatCode.InStepAtEnd(cfg, file, relative, p.visits, OatCode.StoredFor(p.visits, p.codeOffsets));
    end, pos, chunks := OatCode.WriteCode(cfg, file, relative, p.visits, p.codeOffsets, classes != []);
  }

  lemma {:induction false} ExactRecords(cfg: OatCode.Config, code: nat, vs: seq<Visit>, stored: map<(nat, nat), nat>)
    requires OatCode.Stores(cfg, code, vs, stored) && OatCode.Fit(cfg, code, vs, |vs|)
    ensures OatCode.AreRecords(cfg, code, vs, OatCode.StoredFor(vs, stored))
  {
    forall k | 0 <= k < |vs| && vs[k].Compiled()
      ensures OatCode.StoredFor(vs, stored)[k] == Word(OatCode.PlanOf(cfg, code, vs, |vs|).offsets[k])
    {
      assert OatCode.PlanOf(cfg, code, vs, |vs|).offsets[k] < TWO_32;
    }
  }

  /** What a whole file is made of. */
  datatype Parts = Parts(
    starts: seq<nat>, vmaps: seq<OatMaps.Chunk>, infos: seq<OatMaps.Chunk>, code: seq<OatCode.Chunk>)

  /** Every part is where the plan has it. */
  ghost predicate AreParts(cfg: OatCode.Config, file: nat, anyClass: bool, p: Plan, r: Parts) {
    && |r.starts| == |p.records| && (forall c :: 0 <= c < |r.starts| ==> r.starts[c] == file + p.records[c].offset)
    && r.vmaps == OatMaps.PlannedChunks(OatMaps.Vmap, file, p.layout.vmaps, p.visits, |p.visits|)
    && r.infos == OatMaps.PlannedChunks(OatMaps.MethodInfo, file, p.layout.infos, p.visits, |p.visits|)
    && r.code == OatCode.Expected(cfg, file, p.layout.code, p.visits, anyClass)
  }

  /** Planning and writing a whole oat file. */
  method WriteOatFile(cfg: OatCode.Config, isa: InstructionSet, file: nat, base: nat, classes: seq<DexClass>,
                      trampolines: seq<nat>, vdex: (nat, nat) -> nat)
      returns (p: Plan, end: nat, pos: nat, r: Parts)
    requires base > 0 && Sound(cfg, Visits(classes, |classes|))
    requires LayoutOf(cfg, isa, base, classes, trampolines).size < TWO_32
    ensures IsPlan(cfg, isa, base, classes, trampolines, p)
    ensures AreParts(cfg, file, classes != [], p, r)
    ensures end == p.layout.size && pos == file + p.layout.size
  {
    p := PlanOatFile(cfg, isa, base, classes, trampolines, vdex);
    var start, starts, vmaps, infos := WriteRodata(cfg, isa, file, base, classes, trampolines, p);
    assert start == file + p.layout.executable;  // DCHECK_OFFSET
    var code;
    end, pos, code := WriteText(cfg, isa, file, base, classes, trampolines, p);
    r := Parts(starts, vmaps, infos, code);
  }

  /* ---- What a reader of the file finds ---- */

  /** Methods with one key are one compiled method, tables included. */
  ghost predicate KeysIdentifyMethods(cfg: OatCode.Config, vs: seq<Visit>) {
    forall i, j :: 0 <= i < |vs| && 0 <= j < |vs| && vs[i].Compiled() && vs[j].Compiled() ==>
      SameMethod(cfg, vs[i], vs[j])
  }

  ghost predicate SameMethod(cfg: OatCode.Config, a: Visit, b: Visit)
    requires a.Compiled() && b.Compiled()
  {
    OatCode.KeyOf(cfg, a) == OatCode.KeyOf(cfg, b) ==>
      a.Method().vmap == b.Method().vmap && a.Method().info == b.Method().info
  }

  /** Chunk `j` is `code` at `pos`, and the header of the same visit is right before it. */
  ghost predicate IsCode(vs: seq<Visit>, chunks: seq<OatCode.Chunk>, j: nat, pos: int, code: seq<Byte>)
    requires 0 < j < |chunks|
  {
    && chunks[j].content.Code? && chunks[j].pos == pos && chunks[j].length == |code|
    && var v := chunks[j].content.visit;
       && v < |vs| && vs[v].Compiled() && vs[v].Method().code == code
       && chunks[j - 1].content == OatCode.Header(v)
       && chunks[j - 1].pos + OatCode.HEADER == pos && chunks[j - 1].length == OatCode.HEADER
  }

  ghost predicate HasBytesAt(chunks: seq<OatMaps.Chunk>, pos: int, bytes: seq<Byte>) {
    exists j :: 0 <= j < |chunks| && chunks[j].pos == pos && chunks[j].bytes == bytes
  }

  /** The code address less the offsets in the header of visit `v` is where the
      stack maps and the method info of `m` are. */
  ghost predicate HeaderLeads(p: Plan, r: Parts, v: Visit, code: int, m: CompiledMethod) {
    && v.Key() in p.vmapHeaders && v.Key() in p.infoHeaders
    && (m.code != [] && m.vmap != [] ==> HasBytesAt(r.vmaps, code - p.vmapHeaders[v.Key()], m.vmap))
    && (m.info != [] ==> HasBytesAt(r.infos, code - p.infoHeaders[v.Key()], m.info))
  }

  /** From the offset recorded under `key` to the code of `m`, to the header before
      it, and from there to the tables. */
  ghost predicate IsFound(file: nat, p: Plan, r: Parts, key: (nat, nat), m: CompiledMethod) {
    && key in p.codeOffsets
    && var code := file + p.codeOffsets[key] - m.isa.CodeDelta();
       exists j {:trigger r.code[j]} :: 0 < j < |r.code| && IsCode(p.visits, r.code, j, code, m.code) &&
         HeaderLeads(p, r, p.visits[r.code[j].content.visit], code, m)
  }

  lemma {:induction false} CodeIsFound(
    cfg: OatCode.Config, file: nat, base: nat, vs: seq<Visit>, anyClass: bool, k: nat) returns (v: nat, j: nat)
    requires k < |vs| && vs[k].Compiled() && OatCode.KeysIdentifyCode(cfg, vs)
    ensures v < |vs| && vs[v].Compiled() && OatCode.KeyOf(cfg, vs[v]) == OatCode.KeyOf(cfg, vs[k])
    ensures vs[v].Method().code == vs[k].Method().code && vs[v].Method().isa == vs[k].Method().isa
    ensures OatCode.PlanOf(cfg, base, vs, |vs|).offsets[v] == OatCode.PlanOf(cfg, base, vs, |vs|).offsets[k]
    ensures var m, chunks := vs[k].Method(), OatCode.Expected(cfg, file, base, vs, anyClass);
            && 0 < j < |chunks| && chunks[j].content == OatCode.Code(v)
            && IsCode(vs, chunks, j, file + OatCode.PlanOf(cfg, base, vs, |vs|).offsets[k] - m.isa.CodeDelta(), m.code)
  {
    var i;
    v, i := OatCode.MethodFindsItsCode(cfg, file, base, vs, k);
    j := i + 1;
    var planned, chunks := OatCode.PlannedChunks(cfg, file, base, vs, |vs|),
                           OatCode.Expected(cfg, file, base, vs, anyClass);
    assert chunks[i] == planned[i] && chunks[j] == planned[j];
    assert OatCode.SameCode(cfg, vs[v], vs[k]);
    var same, at := OatCode.MethodFindsItsCode(cfg, file, base, vs, v);
  }

  lemma {:induction false} TableIsFound(
    kind: OatMaps.Kind, file: nat, base: nat, vs: seq<Visit>, headers: map<(nat, nat), nat>,
    codeOffsets: map<(nat, nat), nat>, k: nat)
    requires k < |vs| && OatMaps.Needs(kind, vs[k]) && OatMaps.PointersIdentifyTables(kind, vs) && base > 0
    requires OatMaps.HeadersReady(kind, base, vs, headers, codeOffsets)
    ensures vs[k].Key() in headers && vs[k].Key() in codeOffsets
    ensures HasBytesAt(OatMaps.PlannedChunks(kind, file, base, vs, |vs|),
                       file + codeOffsets[vs[k].Key()] - vs[k].Method().isa.CodeDelta() - headers[vs[k].Key()],
                       OatMaps.Own(kind, vs[k]))
  {
    assert OatMaps.HeaderReady(kind, base, vs, headers, codeOffsets, k);
    OatMaps.OffsetIsPlanned(kind, base, vs, k);
    var o, delta := OatMaps.PlanOf(kind, base, vs, |vs|).offsets[k], vs[k].Method().isa.CodeDelta();
    OatMaps.OffsetRoundTrip(o.value, codeOffsets[vs[k].Key()] - delta, delta);
    var r, i := OatMaps.MethodFindsItsTable(kind, file, base, vs, k);
  }

  lemma {:induction false} TablesAreFound(
    cfg: OatCode.Config, isa: InstructionSet, file: nat, base: nat, classes: seq<DexClass>, trampolines: seq<nat>,
    p: Plan, r: Parts, v: nat)
    requires base > 0 && Sound(cfg, p.visits) && IsPlan(cfg, isa, base, classes, trampolines, p)
    requires AreParts(cfg, file, classes != [], p, r) && v < |p.visits| && p.visits[v].Compiled()
    ensures p.visits[v].Key() in p.codeOffsets
    ensures var m := p.visits[v].Method();
            HeaderLeads(p, r, p.visits[v], file + p.codeOffsets[p.visits[v].Key()] - m.isa.CodeDelta(), m)
  {
    var m := p.visits[v].Method();
    assert OatMaps.HeaderReady(OatMaps.Vmap, p.layout.vmaps, p.visits, p.vmapHeaders, p.codeOffsets, v);
    assert OatMaps.HeaderReady(OatMaps.MethodInfo, p.layout.infos, p.visits, p.infoHeaders, p.codeOffsets, v);
    PartsAreInOrder(cfg, isa, base, classes, trampolines);
    if m.code != [] && m.vmap != [] {
      TableIsFound(OatMaps.Vmap, file, p.layout.vmaps, p.visits, p.vmapHeaders, p.codeOffsets, v);
    }
    if m.info != [] {
      TableIsFound(OatMaps.MethodInfo, file, p.layout.infos, p.visits, p.infoHeaders, p.codeOffsets, v);
    }
  }

  lemma {:induction false} VisitIsFound(
    cfg: OatCode.Config, isa: InstructionSet, file: nat, base: nat, classes: seq<DexClass>, trampolines: seq<nat>,
    p: Plan, r: Parts, k: nat)
    requires base > 0 && Sound(cfg, p.visits) && IsPlan(cfg, isa, base, classes, trampolines, p)
    requires KeysIdentifyMethods(cfg, p.visits)
    requires AreParts(cfg, file, classes != [], p, r) && k < |p.visits| && p.visits[k].Compiled()
    ensures IsFound(file, p, r, p.visits[k].Key(), p.visits[k].Method())
  {
    var v, j := CodeIsFound(cfg, file, p.layout.code, p.visits, classes != [], k);
    TablesAreFound(cfg, isa, file, base, classes, trampolines, p, r, v);
    assert SameMethod(cfg, p.visits[v], p.visits[k]);
    assert r.code[j].content.visit == v;
  }

  /** Every compiled method of every class, found as the runtime does: the record
      of its class has its code offset at the number of compiled methods before
      it. There the file has its code behind a header, and the code address less
      the offsets in that header is where its stack maps and its method info are. */
  lemma {:induction false} MethodIsFound(
    cfg: OatCode.Config, isa: InstructionSet, file: nat, base: nat, classes: seq<DexClass>, trampolines: seq<nat>,
    p: Plan, r: Parts, c: nat, i: nat)
    requires base > 0 && Sound(cfg, p.visits) && IsPlan(cfg, isa, base, classes, trampolines, p)
    requires KeysIdentifyMethods(cfg, p.visits) && AreParts(cfg, file, classes != [], p, r)
    requires c < |classes| && i < |classes[c]| && classes[c][i].compiled.Some?
    ensures IsFound(file, p, r, (c, |set j | 0 <= j < i && classes[c][j].compiled.Some?|), classes[c][i].compiled.value)
  {
    AllAreVisited(classes);
    assert IsVisited(classes, p.visits, c, i);
    VisitIsFound(cfg, isa, file, base, classes, trampolines, p, r, MethodsBefore(classes, c) + i);
  }
}
