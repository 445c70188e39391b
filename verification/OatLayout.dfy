/** The oat file as a whole: everything PrepareLayout plans is where WriteRodata
    and WriteCode put it, and the file ends at the planned size. */
module OatLayout {
  import opened Util
  import opened OatVisits
  import OatCode
  import OatMaps

  /* ---- Class records ---- */

  function ClassSize(ms: DexClass): nat {
    EntriesStart(ms) + 4 * Rank(ms, |ms|)
  }

  function ClassesEnd(base: nat, classes: seq<DexClass>, n: nat): nat
    requires n <= |classes|
  {
    if n == 0 then base else ClassesEnd(base, classes, n - 1) + ClassSize(classes[n - 1])
  }

  ghost predicate IsRecord(base: nat, classes: seq<DexClass>, c: nat, record: OatClass)
    requires c < |classes|
  {
    IsOatClass(classes[c], record) && record.offset == ClassesEnd(base, classes, c)
  }

  method CountCompiled(ms: DexClass) returns (compiled: nat)
    ensures compiled == Rank(ms, |ms|)
  {
    compiled := 0;
    for i := 0 to |ms|
      invariant compiled == Rank(ms, i)
    {
      if ms[i].compiled.Some? {
        compiled := compiled + 1;
      }
    }
  }

  /** InitOatClasses: records one after the other. */
  method PlanClasses(base: nat, classes: seq<DexClass>) returns (end: nat, records: seq<OatClass>)
    ensures end == ClassesEnd(base, classes, |classes|) && |records| == |classes|
    ensures forall c :: 0 <= c < |classes| ==> IsRecord(base, classes, c, records[c])
  {
    end, records := base, [];
    for c := 0 to |classes|
      invariant end == ClassesEnd(base, classes, c) && |records| == c
      invariant forall d :: 0 <= d < c ==> IsRecord(base, classes, d, records[d])
    {
      var compiled := CountCompiled(classes[c]);
      var record := MakeOatClass(end, classes[c], compiled);
      records := records + [record];
      end := end + record.SizeOf();
    }
  }

  /** WriteClasses: status, type, bitmap and entries of each record. */
  method WriteClasses(file: nat, base: nat, classes: seq<DexClass>, records: seq<OatClass>)
      returns (pos: nat, starts: seq<nat>)
    requires |records| == |classes|
    requires forall c :: 0 <= c < |classes| ==> IsRecord(base, classes, c, records[c])
    ensures pos == file + ClassesEnd(base, classes, |classes|)
    ensures |starts| == |records| && forall c :: 0 <= c < |records| ==> starts[c] == file + records[c].offset
  {
    pos, starts := file + base, [];
    for c := 0 to |records|
      invariant pos == file + ClassesEnd(base, classes, c)
      invariant |starts| == c && forall d :: 0 <= d < c ==> starts[d] == file + records[d].offset
    {
      var record := records[c];
      assert IsRecord(base, classes, c, record);
      starts := starts + [pos];  // DCHECK_OFFSET_
      pos := pos + STATUS_AND_TYPE;
      if record.bitmapSize != 0 {
        pos := pos + BITMAP_SIZE_FIELD + record.bitmapSize;
      }
      pos := pos + 4 * record.entries;
    }
  }

  /* ---- Trampolines ---- */

  /** The end of the first `n` trampolines, each aligned like code. */
  function TrampolinesEnd(isa: InstructionSet, base: nat, sizes: seq<nat>, n: nat): nat
    requires n <= |sizes|
  {
    if n == 0 then base else RoundUp(TrampolinesEnd(isa, base, sizes, n - 1), isa.Alignment()) + sizes[n - 1]
  }

  /** Trampoline `i` is at the first aligned address behind the one before it; its
      entry has the Thumb bit, and the last one ends the part. */
  ghost predicate IsTrampoline(isa: InstructionSet, base: nat, sizes: seq<nat>, entries: seq<nat>, end: nat, i: nat)
    requires |entries| == |sizes| && i < |sizes|
  {
    var at := entries[i] - isa.CodeDelta();
    var before := if i == 0 then base else entries[i - 1] - isa.CodeDelta() + sizes[i - 1];
    && before <= at < before + isa.Alignment() && at % isa.Alignment() == 0
    && (i == |sizes| - 1 ==> at + sizes[i] == end)
  }

  lemma {:induction false} TrampolinesAreThere(
    isa: InstructionSet, base: nat, sizes: seq<nat>, entries: seq<nat>, end: nat, i: nat)
    requires |entries| == |sizes| && i < |sizes| && end == TrampolinesEnd(isa, base, sizes, |sizes|)
    requires forall j :: 0 <= j < |sizes| ==>
               entries[j] == RoundUp(TrampolinesEnd(isa, base, sizes, j), isa.Alignment()) + isa.CodeDelta()
    ensures IsTrampoline(isa, base, sizes, entries, end, i)
  {
    RoundUpAligned(TrampolinesEnd(isa, base, sizes, i), isa.Alignment());
    assert i > 0 ==> entries[i - 1] - isa.CodeDelta() + sizes[i - 1] == TrampolinesEnd(isa, base, sizes, i);
  }

  /** The entry points recorded in the oat header, Thumb bit included. */
  method PlanTrampolines(isa: InstructionSet, base: nat, sizes: seq<nat>) returns (end: nat, entries: seq<nat>)
    ensures end == TrampolinesEnd(isa, base, sizes, |sizes|) && |entries| == |sizes|
    ensures forall i :: 0 <= i < |sizes| ==>
              && entries[i] == RoundUp(TrampolinesEnd(isa, base, sizes, i), isa.Alignment()) + isa.CodeDelta()
              && IsTrampoline(isa, base, sizes, entries, end, i)
  {
    end, entries := base, [];
    for i := 0 to |sizes|
      invariant end == TrampolinesEnd(isa, base, sizes, i) && |entries| == i
      invariant forall j :: 0 <= j < i ==>
                  entries[j] == RoundUp(TrampolinesEnd(isa, base, sizes, j), isa.Alignment()) + isa.CodeDelta()
    {
      end := RoundUp(end, isa.Alignment());
      entries := entries + [end + isa.CodeDelta()];
      end := end + sizes[i];
    }
    forall i | 0 <= i < |sizes| ensures IsTrampoline(isa, base, sizes, entries, end, i) {
      TrampolinesAreThere(isa, base, sizes, entries, end, i);
    }
  }

  method WriteTrampolines(isa: InstructionSet, file: nat, base: nat, sizes: seq<nat>) returns (end: nat, pos: nat)
    ensures end == TrampolinesEnd(isa, base, sizes, |sizes|) && pos == file + end
  {
    end, pos := base, file + base;
    for i := 0 to |sizes|
      invariant end == TrampolinesEnd(isa, base, sizes, i) && pos == file + end
    {
      var padding := RoundUp(end, isa.Alignment()) - end;
      pos := pos + padding;
      pos := pos + sizes[i];
      end := end + padding + sizes[i];
    }
  }

  /* ---- Header fields ---- */

  /** What the writer relies on from the compiler driver: arrays are shared by
      address, code-less methods are not Thumb-2 and have no method info. */
  ghost predicate Sound(cfg: OatCode.Config, vs: seq<Visit>) {
    && OatCode.KeysIdentifyCode(cfg, vs)
    && OatMaps.PointersIdentifyTables(OatMaps.Vmap, vs) && OatMaps.PointersIdentifyTables(OatMaps.MethodInfo, vs)
    && forall k :: 0 <= k < |vs| && vs[k].Compiled() && vs[k].Method().code == [] ==>
         !vs[k].Method().isa.Thumb2? && vs[k].Method().info == []
  }

  /** The header fields after the code planning pass: relative to the code if
      there is code; without code the vmap field takes an offset in the vdex
      file, here that of `vdex`. */
  method FinishHeaders(kind: OatMaps.Kind, vs: seq<Visit>, fields: map<(nat, nat), nat>,
                       codeOffsets: map<(nat, nat), nat>, vdex: (nat, nat) -> nat)
      returns (headers: map<(nat, nat), nat>)
    requires DistinctKeys(vs)
    requires forall k :: 0 <= k < |vs| && vs[k].Compiled() ==>
               && vs[k].Key() in fields && vs[k].Key() in codeOffsets
               && codeOffsets[vs[k].Key()] >= vs[k].Method().isa.CodeDelta()
    ensures forall k :: 0 <= k < |vs| && vs[k].Compiled() ==>
              vs[k].Key() in headers && headers[vs[k].Key()] == FinalField(kind, vs[k], fields, codeOffsets, vdex)
  {
    headers := map[];
    for k := 0 to |vs|
      invariant forall j :: 0 <= j < k && vs[j].Compiled() ==>
                  vs[j].Key() in headers && headers[vs[j].Key()] == FinalField(kind, vs[j], fields, codeOffsets, vdex)
    {
      if vs[k].Compiled() {
        headers := headers[vs[k].Key() := FinalField(kind, vs[k], fields, codeOffsets, vdex)];
      }
    }
  }

  function FinalField(kind: OatMaps.Kind, v: Visit, fields: map<(nat, nat), nat>,
                      codeOffsets: map<(nat, nat), nat>, vdex: (nat, nat) -> nat): nat
    requires v.Compiled() && v.Key() in fields && v.Key() in codeOffsets
    requires codeOffsets[v.Key()] >= v.Method().isa.CodeDelta()
  {
    if v.Method().code != [] then
      OatMaps.Relative(fields[v.Key()], codeOffsets[v.Key()] - v.Method().isa.CodeDelta())
    else if kind.Vmap? then vdex(v.classIndex, v.slot)
    else fields[v.Key()]
  }

  /** Tables planned below the code have headers the writing pass can read. */
  lemma {:induction false} HeadersAreReady(
    cfg: OatCode.Config, kind: OatMaps.Kind, base: nat, codeBase: nat, vs: seq<Visit>,
    fields: map<(nat, nat), nat>, codeOffsets: map<(nat, nat), nat>, vdex: (nat, nat) -> nat,
    headers: map<(nat, nat), nat>, k: nat)
    requires Sound(cfg, vs) && k < |vs| && vs[k].Compiled() && base > 0
    requires OatMaps.PlanOf(kind, base, vs, |vs|).offset <= codeBase
    requires OatCode.PlanOf(cfg, codeBase, vs, |vs|).offset < TWO_32
    requires vs[k].Key() in fields && vs[k].Key() in codeOffsets && vs[k].Key() in headers
    requires fields[vs[k].Key()] == OatMaps.Field(OatMaps.PlanOf(kind, base, vs, |vs|).offsets[k])
    requires codeOffsets[vs[k].Key()] == OatCode.PlanOf(cfg, codeBase, vs, |vs|).offsets[k]
             >= vs[k].Method().isa.CodeDelta()
    requires headers[vs[k].Key()] == FinalField(kind, vs[k], fields, codeOffsets, vdex)
    ensures OatMaps.HeaderReady(kind, base, vs, headers, codeOffsets, k)
  {
    OatCode.CodeIsInside(cfg, codeBase, vs, k);
    OatMaps.OffsetIsPlanned(kind, base, vs, k);
  }
}
