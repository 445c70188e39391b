/** Method code in an oat file: the planning pass that assigns deduplicated
    offsets, and the writing pass that finds out what is new from the offsets
    alone. */
module OatCode {
  import opened Util
  import opened OatVisits

  const HEADER: nat := 24   // sizeof(OatQuickMethodHeader)

  /** Thunks in one place; the offsets before and behind them have 32 bits. */
  type ThunkSize = n: nat | n < 0x8000_0000

  /** The settings both passes run under. `thunks` is the relative patcher: the
      bytes it puts before the n-th new method, or at the end. */
  datatype Config = Config(debuggable: bool, thunks: nat -> ThunkSize)

  /** What identifies code that may be shared. */
  datatype CodeKey = Pointers(code: nat, vmap: nat, info: nat, patches: nat) | Reference(ref: nat)

  /** Debuggable code is shared only between duplicates of one method. */
  function KeyOf(cfg: Config, v: Visit): CodeKey
    requires v.Compiled()
  {
    var m := v.Method();
    if cfg.debuggable then Reference(v.m.ref) else Pointers(m.codePtr, m.vmapPtr, m.infoPtr, m.patchesPtr)
  }

  /** The relative patcher only remembers methods that have code. */
  predicate IsRemembered(cfg: Config, v: Visit)
    requires v.Compiled()
  {
    !cfg.debuggable || v.Method().code != []
  }

  /** Methods with one key are one piece of code. */
  ghost predicate KeysIdentifyCode(cfg: Config, vs: seq<Visit>) {
    forall i, j :: 0 <= i < |vs| && 0 <= j < |vs| && vs[i].Compiled() && vs[j].Compiled() ==>
      SameCode(cfg, vs[i], vs[j])
  }

  ghost predicate SameCode(cfg: Config, a: Visit, b: Visit)
    requires a.Compiled() && b.Compiled()
  {
    KeyOf(cfg, a) == KeyOf(cfg, b) ==>
      a.Method().code == b.Method().code && a.Method().isa == b.Method().isa
  }

  /** CodeAlignmentSize: the code is aligned, not the header before it. */
  function AlignmentSize(offset: nat, m: CompiledMethod): nat {
    RoundUp(offset + HEADER, m.isa.Alignment()) - (offset + HEADER)
  }

  /* ---- The plan ---- */

  /** The plan in unbounded numbers; what the passes exchange are its offsets as
      32-bit words. `known` maps keys to code offsets, `count` counts the new methods, and
      `offsets` holds the code offset of each visit (0 if not compiled). */
  datatype Plan = Plan(offset: nat, known: map<CodeKey, nat>, count: nat, offsets: seq<nat>)

  /** Where the header of new code goes. */
  function NewStart(cfg: Config, offset: nat, count: nat, m: CompiledMethod): nat {
    var reserved := offset + cfg.thunks(count);
    reserved + AlignmentSize(reserved, m)
  }

  /** The code offset, Thumb bit included. */
  function CodeOffset(start: nat, m: CompiledMethod): nat {
    start + HEADER + m.isa.CodeDelta()
  }

  function PlanVisit(cfg: Config, p: Plan, v: Visit): Plan {
    if !v.Compiled() then p.(offsets := p.offsets + [0])
    else if KeyOf(cfg, v) in p.known then p.(offsets := p.offsets + [p.known[KeyOf(cfg, v)]])
    else
      var start := NewStart(cfg, p.offset, p.count, v.Method());
      var codeOffset := CodeOffset(start, v.Method());
      Plan(start + HEADER + |v.Method().code|,
           if IsRemembered(cfg, v) then p.known[KeyOf(cfg, v) := codeOffset] else p.known,
           p.count + 1,
           p.offsets + [codeOffset])
  }

  function PlanOf(cfg: Config, base: nat, vs: seq<Visit>, n: nat): (p: Plan)
    requires n <= |vs|
    ensures |p.offsets| == n
  {
    if n == 0 then Plan(base, map[], 0, []) else PlanVisit(cfg, PlanOf(cfg, base, vs, n - 1), vs[n - 1])
  }

  predicate IsNew(cfg: Config, base: nat, vs: seq<Visit>, k: nat)
    requires k < |vs|
  {
    vs[k].Compiled() && KeyOf(cfg, vs[k]) !in PlanOf(cfg, base, vs, k).known
  }

  /* ---- What is written ---- */

  datatype Content = Thunks | Padding | Header(visit: nat) | Code(visit: nat)
  datatype Chunk = Chunk(pos: nat, content: Content, length: nat)

  /** The chunks of visit `k` when its code is written at `offset`. */
  function NewChunks(cfg: Config, file: nat, offset: nat, count: nat, k: nat, m: CompiledMethod): seq<Chunk> {
    var thunks := cfg.thunks(count);
    var padding := AlignmentSize(offset + thunks, m);
    var start := NewStart(cfg, offset, count, m);
    [Chunk(file + offset, Thunks, thunks)] +
    (if padding != 0 then [Chunk(file + offset + thunks, Padding, padding)] else []) +
    [Chunk(file + start, Header(k), HEADER), Chunk(file + start + HEADER, Code(k), |m.code|)]
  }

  /** The chunks the plan calls for. */
  function PlannedChunks(cfg: Config, file: nat, base: nat, vs: seq<Visit>, n: nat): seq<Chunk>
    requires n <= |vs|
  {
    if n == 0 then []
    else
      var p := PlanOf(cfg, base, vs, n - 1);
      PlannedChunks(cfg, file, base, vs, n - 1) +
      if IsNew(cfg, base, vs, n - 1) then NewChunks(cfg, file, p.offset, p.count, n - 1, vs[n - 1].Method()) else []
  }

  /** What the planner remembers is what the plan knows, all of it 32 bits. */
  ghost predicate Agree(cfg: Config, dedupe: map<CodeKey, nat>, patcher: map<nat, nat>, known: map<CodeKey, nat>) {
    && (forall k :: k in known ==> known[k] < TWO_32)
    && (!cfg.debuggable ==> dedupe == known)
    && (cfg.debuggable ==>
          && (forall k :: k in known ==> k.Reference? && k.ref in patcher)
          && (forall r :: r in patcher ==> Reference(r) in known && known[Reference(r)] == patcher[r] != 0))
  }

  /** The relative patcher's SetOffset, for methods with code that have none. */
  function Remembered(patcher: map<nat, nat>, v: Visit, o: nat): map<nat, nat>
    requires v.Compiled()
  {
    if v.Method().code != [] && (v.m.ref !in patcher || patcher[v.m.ref] == 0) then patcher[v.m.ref := o] else patcher
  }

  lemma {:induction false} NextPlan(
    cfg: Config, p: Plan, v: Visit, dedupe: map<CodeKey, nat>, patcher: map<nat, nat>)
    requires v.Compiled() && Agree(cfg, dedupe, patcher, p.known)
    ensures var q, key, start := PlanVisit(cfg, p, v), KeyOf(cfg, v), NewStart(cfg, p.offset, p.count, v.Method());
            var o := q.offsets[|p.offsets|];
            && (if key in p.known then (q.offset, q.count, o) == (p.offset, p.count, p.known[key])
                else (q.offset, q.count, o) ==
                     (start + HEADER + |v.Method().code|, p.count + 1, CodeOffset(start, v.Method())))
            && (o < TWO_32 ==>
                  Agree(cfg, if key in p.known || cfg.debuggable then dedupe else dedupe[key := o],
                        Remembered(patcher, v, o), q.known))
  {
  }

  /** The planning visitor: InitCodeMethodVisitor. */
  class Planner {
    const cfg: Config
    var offset: nat
    var dedupe: map<CodeKey, nat>            // dedupe_map_, uint32_t values
    var patcher: map<nat, nat>               // the relative patcher's method offsets, uint32_t
    var count: nat                           // calls to ReserveSpace
    var stored: map<(nat, nat), nat>         // OatMethodOffsets by class and slot, uint32_t

    constructor (cfg: Config, offset: nat)
      ensures this.cfg == cfg && Follows(Plan(offset, map[], 0, [])) && stored == map[]
    {
      this.cfg, this.offset := cfg, offset;
      dedupe, patcher, count, stored := map[], map[], 0, map[];
    }

    /** The fields agree with a plan whose offsets all fit. */
    ghost predicate Follows(p: Plan)
      reads this
    {
      offset == p.offset && count == p.count && Agree(cfg, dedupe, patcher, p.known)
    }

    method NewQuickCodeOffset(m: CompiledMethod) returns (quickCodeOffset: nat)
      modifies this`offset, this`count
      ensures offset == NewStart(cfg, old(offset), old(count), m) && count == old(count) + 1
      ensures quickCodeOffset == Word(CodeOffset(offset, m))
    {
      offset := offset + cfg.thunks(count);  // ReserveSpace
      count := count + 1;
      offset := offset + AlignmentSize(offset, m);
      quickCodeOffset := Word(offset + HEADER + m.isa.CodeDelta());
    }

    method VisitMethod(v: Visit, ghost p: Plan)
      modifies this
      ensures !v.Compiled() ==> stored == old(stored)
      ensures v.Compiled() ==> v.Key() in stored && stored == old(stored)[v.Key() := stored[v.Key()]]
      ensures old(Follows(p)) && v.Compiled() ==>
                stored[v.Key()] == Word(PlanVisit(cfg, p, v).offsets[|p.offsets|])
      ensures old(Follows(p)) && (v.Compiled() ==> PlanVisit(cfg, p, v).offsets[|p.offsets|] < TWO_32) ==>
                Follows(PlanVisit(cfg, p, v))
    {
      if !v.Compiled() {
        return;
      }
      if old(Follows(p)) {
        NextPlan(cfg, p, v, dedupe, patcher);
      }
      var quickCodeOffset, deduped := Deduplicate(v, p);
      Remember(v, quickCodeOffset, deduped);
    }

    method Remember(v: Visit, quickCodeOffset: nat, deduped: bool)
      requires v.Compiled()
      modifies this`patcher, this`offset, this`stored
      ensures patcher == Remembered(old(patcher), v, quickCodeOffset)
      ensures offset == old(offset) + if deduped then 0 else HEADER + |v.Method().code|
      ensures stored == old(stored)[v.Key() := quickCodeOffset]
    {
      var m := v.Method();
      if m.code != [] {
        if v.m.ref !in patcher || patcher[v.m.ref] == 0 {
          patcher := patcher[v.m.ref := quickCodeOffset];
        }
      }
      if !deduped {
        offset := offset + HEADER;
        offset := offset + |m.code|;
      }
      stored := stored[v.Key() := quickCodeOffset];
    }

    /** The code offset of a duplicate, or a new one. */
    method Deduplicate(v: Visit, ghost p: Plan) returns (quickCodeOffset: nat, deduped: bool)
      requires v.Compiled()
      modifies this`offset, this`count, this`dedupe
      ensures old(Follows(p)) ==> (deduped <==> KeyOf(cfg, v) in p.known)
      ensures old(Follows(p)) && deduped ==>
                quickCodeOffset == p.known[KeyOf(cfg, v)] && offset == old(offset) && count == old(count)
      ensures !deduped ==>
                && offset == NewStart(cfg, old(offset), old(count), v.Method()) && count == old(count) + 1
                && quickCodeOffset == Word(CodeOffset(offset, v.Method()))
      ensures dedupe == if deduped || cfg.debuggable then old(dedupe) else old(dedupe)[KeyOf(cfg, v) := quickCodeOffset]
    {
      var m, key := v.Method(), KeyOf(cfg, v);
      quickCodeOffset, deduped := 0, true;
      if cfg.debuggable {
        quickCodeOffset := if v.m.ref in patcher then patcher[v.m.ref] else 0;
        if quickCodeOffset == 0 {
          quickCodeOffset := NewQuickCodeOffset(m);
          deduped := false;
        }
      } else if key in dedupe {
        quickCodeOffset := dedupe[key];
      } else {
        quickCodeOffset := NewQuickCodeOffset(m);
        deduped := false;
        dedupe := dedupe[key := quickCodeOffset];
      }
    }
  }

  /** The offsets of the first `n` visits are 32-bit numbers. */
  ghost predicate Fit(cfg: Config, base: nat, vs: seq<Visit>, n: nat)
    requires n <= |vs|
  {
    forall k :: 0 <= k < n ==> PlanOf(cfg, base, vs, |vs|).offsets[k] < TWO_32
  }

  /** The records of all visits up to the first whose offset does not fit hold
      the planned offsets as words. */
  ghost predicate AreRecords(cfg: Config, base: nat, vs: seq<Visit>, offsets: seq<nat>) {
    |offsets| == |vs| && forall k :: 0 <= k < |vs| && vs[k].Compiled() && Fit(cfg, base, vs, k) ==>
      offsets[k] == Word(PlanOf(cfg, base, vs, |vs|).offsets[k])
  }

  /** The offsets stored for each visit. */
  ghost function StoredFor(vs: seq<Visit>, stored: map<(nat, nat), nat>): (s: seq<nat>)
    ensures |s| == |vs|
  {
    seq(|vs|, k requires 0 <= k < |vs| => if vs[k].Compiled() && vs[k].Key() in stored then stored[vs[k].Key()] else 0)
  }

  /** All of InitOatCodeDexFiles: every visit, then the space at the end. */
  method PlanCode(cfg: Config, base: nat, vs: seq<Visit>, anyClass: bool)
      returns (end: nat, stored: map<(nat, nat), nat>)
    requires DistinctKeys(vs)
    ensures forall k :: 0 <= k < |vs| && vs[k].Compiled() ==> vs[k].Key() in stored
    ensures AreRecords(cfg, base, vs, StoredFor(vs, stored))
    ensures Fit(cfg, base, vs, |vs|) ==> end == PlannedEnd(cfg, base, vs, anyClass)
  {
    var planner := new Planner(cfg, base);
    for k := 0 to |vs|
      invariant planner.cfg == cfg && fresh(planner)
      invariant Fit(cfg, base, vs, k) ==> planner.Follows(PlanOf(cfg, base, vs, k))
      invariant forall j :: 0 <= j < k && vs[j].Compiled() ==> vs[j].Key() in planner.stored
      invariant forall j :: 0 <= j < k && vs[j].Compiled() && Fit(cfg, base, vs, j) ==>
                  planner.stored[vs[j].Key()] == Word(PlanOf(cfg, base, vs, |vs|).offsets[j])
    {
      OffsetsAreStable(cfg, base, vs, k, |vs|);
      planner.VisitMethod(vs[k], PlanOf(cfg, base, vs, k));
    }
    end, stored := planner.offset, planner.stored;
    if anyClass {
      end := end + cfg.thunks(planner.count);  // ReserveSpaceEnd, after the last class
    }
  }

  function PlannedEnd(cfg: Config, base: nat, vs: seq<Visit>, anyClass: bool): nat {
    var p := PlanOf(cfg, base, vs, |vs|);
    p.offset + if anyClass then cfg.thunks(p.count) else 0
  }

  /** The records hold the planned offset of every compiled method. */
  ghost predicate Stores(cfg: Config, base: nat, vs: seq<Visit>, stored: map<(nat, nat), nat>) {
    forall k :: 0 <= k < |vs| && vs[k].Compiled() ==>
      vs[k].Key() in stored && stored[vs[k].Key()] == PlanOf(cfg, base, vs, |vs|).offsets[k]
  }

  lemma {:induction false} FittingRecordsAreExact(
    cfg: Config, base: nat, vs: seq<Visit>, stored: map<(nat, nat), nat>)
    requires forall k :: 0 <= k < |vs| && vs[k].Compiled() ==> vs[k].Key() in stored
    requires AreRecords(cfg, base, vs, StoredFor(vs, stored)) && Fit(cfg, base, vs, |vs|)
    ensures Stores(cfg, base, vs, stored)
  {
    forall k | 0 <= k < |vs| && vs[k].Compiled()
      ensures stored[vs[k].Key()] == PlanOf(cfg, base, vs, |vs|).offsets[k]
    {
      assert Fit(cfg, base, vs, k) && StoredFor(vs, stored)[k] == stored[vs[k].Key()];
    }
  }

  lemma {:induction false} OffsetsAreStable(cfg: Config, base: nat, vs: seq<Visit>, k: nat, n: nat)
    requires k < n <= |vs|
    ensures PlanOf(cfg, base, vs, n).offsets[k] == PlanOf(cfg, base, vs, k + 1).offsets[k]
    decreases n
  {
    if k + 1 < n {
      OffsetsAreStable(cfg, base, vs, k, n - 1);
    }
  }

  /* ---- The writing pass ---- */

  datatype Written = Written(offset: nat, count: nat, chunks: seq<Chunk>)

  /** WriteCodeMethodVisitor: code is new when its offset lies ahead. */
  function WriteVisit(cfg: Config, file: nat, w: Written, k: nat, v: Visit, codeOffset: nat): Written {
    if v.Compiled() && codeOffset > w.offset then
      Written(NewStart(cfg, w.offset, w.count, v.Method()) + HEADER + |v.Method().code|,
              w.count + 1,
              w.chunks + NewChunks(cfg, file, w.offset, w.count, k, v.Method()))
    else w
  }

  function WrittenOf(cfg: Config, file: nat, base: nat, vs: seq<Visit>, offsets: seq<nat>, n: nat): Written
    requires n <= |vs| && n <= |offsets|
  {
    if n == 0 then Written(base, 0, [])
    else WriteVisit(cfg, file, WrittenOf(cfg, file, base, vs, offsets, n - 1), n - 1, vs[n - 1], offsets[n - 1])
  }

  /** The stream, as a position and what was written where. */
  class Writer {
    const cfg: Config
    const file: nat                  // file_offset_, the stream position of offset 0
    var offset: nat
    var count: nat                   // calls to WriteThunks
    var pos: nat                     // stream position
    var chunks: seq<Chunk>

    constructor (cfg: Config, file: nat, offset: nat)
      ensures this.cfg == cfg && this.file == file
      ensures State() == Written(offset, 0, []) && InStep()
    {
      this.cfg, this.file, this.offset := cfg, file, offset;
      count, pos, chunks := 0, file + offset, [];
    }

    ghost function State(): Written
      reads this
    {
      Written(offset, count, chunks)
    }

    /** DCHECK_OFFSET_. */
    ghost predicate InStep()
      reads this
    {
      pos == file + offset
    }

    method Emit(content: Content, length: nat)
      modifies this`pos, this`chunks
      ensures pos == old(pos) + length && chunks == old(chunks) + [Chunk(old(pos), content, length)]
    {
      chunks := chunks + [Chunk(pos, content, length)];
      pos := pos + length;
    }

    method WriteThunks()
      modifies this
      ensures chunks == old(chunks) + [Chunk(old(pos), Thunks, cfg.thunks(old(count)))]
      ensures offset == old(offset) + cfg.thunks(old(count)) && pos == old(pos) + cfg.thunks(old(count))
      ensures count == old(count) + 1
    {
      Emit(Thunks, cfg.thunks(count));
      offset := offset + cfg.thunks(count);
      count := count + 1;
    }

    method VisitMethod(k: nat, v: Visit, stored: map<(nat, nat), nat>)
      requires v.Compiled() ==> v.Key() in stored
      requires InStep()
      modifies this
      ensures InStep()
      ensures State() == WriteVisit(cfg, file, old(State()), k, v, if v.Compiled() then stored[v.Key()] else 0)
    {
      if v.Compiled() {
        var m := v.Method();
        if stored[v.Key()] > offset {
          WriteThunks();
          var alignmentSize := AlignmentSize(offset, m);
          if alignmentSize != 0 {
            Emit(Padding, alignmentSize);
            offset := offset + alignmentSize;
          }
          Emit(Header(k), HEADER);
          offset := offset + HEADER;
          Emit(Code(k), |m.code|);
          offset := offset + |m.code|;
          assert chunks == old(chunks) + NewChunks(cfg, file, old(offset), old(count), k, m);
        }
      }
    }
  }

  /** WriteCodeDexFiles: every visit, then the thunks at the end. */
  method WriteCode(cfg: Config, file: nat, base: nat, vs: seq<Visit>, stored: map<(nat, nat), nat>, anyClass: bool)
      returns (end: nat, pos: nat, chunks: seq<Chunk>)
    requires forall k :: 0 <= k < |vs| && vs[k].Compiled() ==> vs[k].Key() in stored
    ensures var w := WrittenOf(cfg, file, base, vs, StoredFor(vs, stored), |vs|);
            var last := if anyClass then cfg.thunks(w.count) else 0;
            && end == w.offset + last && pos == file + end
            && chunks == w.chunks + if anyClass then [Chunk(file + w.offset, Thunks, last)] else []
  {
    var writer := new Writer(cfg, file, base);
    for k := 0 to |vs|
      invariant fresh(writer) && writer.cfg == cfg && writer.file == file && writer.InStep()
      invariant writer.State() == WrittenOf(cfg, file, base, vs, StoredFor(vs, stored), k)
    {
      writer.VisitMethod(k, vs[k], stored);
    }
    if anyClass {
      writer.WriteThunks();
    }
    end, pos, chunks := writer.offset, writer.pos, writer.chunks;
  }

  /* ---- The writer agrees with the plan ---- */

  /** The code of visit `r` is planned for the first time at `r`. */
  lemma {:induction false} NewEnds(cfg: Config, base: nat, vs: seq<Visit>, r: nat)
    requires r < |vs| && IsNew(cfg, base, vs, r)
    ensures var p, q := PlanOf(cfg, base, vs, r), PlanOf(cfg, base, vs, r + 1);
            var m := vs[r].Method();
            && q.offsets[r] == CodeOffset(NewStart(cfg, p.offset, p.count, m), m)
            && q.offsets[r] + |m.code| == q.offset + m.isa.CodeDelta()
            && p.offset + HEADER <= q.offset && p.offset < q.offsets[r] < p.offset + TWO_32
  {
  }

  lemma {:induction false} PlanGrows(cfg: Config, base: nat, vs: seq<Visit>, m: nat, n: nat)
    requires m <= n <= |vs|
    ensures PlanOf(cfg, base, vs, m).offset <= PlanOf(cfg, base, vs, n).offset
    decreases n
  {
    if m < n {
      PlanGrows(cfg, base, vs, m, n - 1);
    }
  }

  /** A known key was planned by a new visit. */
  lemma {:induction false} FirstPlanned(cfg: Config, base: nat, vs: seq<Visit>, n: nat, key: CodeKey) returns (r: nat)
    requires n <= |vs| && key in PlanOf(cfg, base, vs, n).known
    ensures r < n && IsNew(cfg, base, vs, r) && IsRemembered(cfg, vs[r]) && KeyOf(cfg, vs[r]) == key
    ensures PlanOf(cfg, base, vs, n).known[key] == PlanOf(cfg, base, vs, r + 1).offsets[r]
    decreases n
  {
    if key in PlanOf(cfg, base, vs, n - 1).known {
      r := FirstPlanned(cfg, base, vs, n - 1, key);
    } else {
      r := n - 1;
    }
  }

  /** The visit that planned the code of visit `k`: the first one with its key. */
  lemma {:induction false} PlannedBy(cfg: Config, base: nat, vs: seq<Visit>, k: nat) returns (r: nat)
    requires k < |vs| && vs[k].Compiled() && KeysIdentifyCode(cfg, vs)
    ensures r <= k && IsNew(cfg, base, vs, r) && KeyOf(cfg, vs[r]) == KeyOf(cfg, vs[k])
    ensures vs[r].Method().code == vs[k].Method().code && vs[r].Method().isa == vs[k].Method().isa
    ensures (IsNew(cfg, base, vs, k) ==> r == k) && (r < k ==> IsRemembered(cfg, vs[r]))
    ensures PlanOf(cfg, base, vs, |vs|).offsets[k] == PlanOf(cfg, base, vs, r + 1).offsets[r]
  {
    OffsetsAreStable(cfg, base, vs, k, |vs|);
    r := k;
    if !IsNew(cfg, base, vs, k) {
      r := FirstPlanned(cfg, base, vs, k, KeyOf(cfg, vs[k]));
    }
    assert SameCode(cfg, vs[r], vs[k]);
  }

  /** Code is aligned as its instruction set wants it, relative to the oat header. */
  lemma {:induction false} CodeIsAligned(cfg: Config, base: nat, vs: seq<Visit>, k: nat)
    requires k < |vs| && vs[k].Compiled() && KeysIdentifyCode(cfg, vs)
    ensures var o, isa := PlanOf(cfg, base, vs, |vs|).offsets[k], vs[k].Method().isa;
            o >= isa.CodeDelta() && (o - isa.CodeDelta()) % isa.Alignment() == 0
  {
    var r := PlannedBy(cfg, base, vs, k);
    NewEnds(cfg, base, vs, r);
    var p := PlanOf(cfg, base, vs, r);
    RoundUpAligned(p.offset + cfg.thunks(p.count) + HEADER, vs[k].Method().isa.Alignment());
  }

  /** Two compiled methods have one code offset exactly if all their arrays are the
      same ones; in a debuggable app exactly if they are visits of one method that
      has code. */
  lemma {:induction false} CodeIsSharedIff(cfg: Config, base: nat, vs: seq<Visit>, j: nat, k: nat)
    requires j < k < |vs| && vs[j].Compiled() && vs[k].Compiled() && KeysIdentifyCode(cfg, vs)
    ensures var p, a, b := PlanOf(cfg, base, vs, |vs|), vs[j].Method(), vs[k].Method();
            p.offsets[j] == p.offsets[k] <==>
              if cfg.debuggable then vs[j].m.ref == vs[k].m.ref && b.code != []
              else a.codePtr == b.codePtr && a.vmapPtr == b.vmapPtr && a.infoPtr == b.infoPtr &&
                   a.patchesPtr == b.patchesPtr
  {
    var q := PlannedBy(cfg, base, vs, j);
    var r := PlannedBy(cfg, base, vs, k);
    NewEnds(cfg, base, vs, q);
    NewEnds(cfg, base, vs, r);
    if q < r {
      PlanGrows(cfg, base, vs, q + 1, r);
      if IsRemembered(cfg, vs[q]) {
        KeysAreNewOnce(cfg, base, vs, q, r);
      }
    } else if r < q {
      PlanGrows(cfg, base, vs, r + 1, q);
      KeysAreNewOnce(cfg, base, vs, r, q);
    }
  }

  /** Code lies between the base and the planned end. */
  lemma {:induction false} CodeIsInside(cfg: Config, base: nat, vs: seq<Visit>, k: nat)
    requires k < |vs| && vs[k].Compiled() && KeysIdentifyCode(cfg, vs)
    ensures var o, m := PlanOf(cfg, base, vs, |vs|).offsets[k], vs[k].Method();
            && base + HEADER + m.isa.CodeDelta() <= o
            && o + |m.code| <= PlanOf(cfg, base, vs, |vs|).offset + m.isa.CodeDelta()
  {
    var r := PlannedBy(cfg, base, vs, k);
    NewEnds(cfg, base, vs, r);
    PlanGrows(cfg, base, vs, 0, r);
    PlanGrows(cfg, base, vs, r + 1, |vs|);
  }

  /** The last new visit before `n`. */
  function LastNew(cfg: Config, base: nat, vs: seq<Visit>, n: nat): (r: Option<nat>)
    requires n <= |vs|
    ensures r.Some? ==> r.value < n && IsNew(cfg, base, vs, r.value)
  {
    if n == 0 then None
    else if IsNew(cfg, base, vs, n - 1) then Some(n - 1)
    else LastNew(cfg, base, vs, n - 1)
  }

  lemma {:induction false} SinceLastNew(cfg: Config, base: nat, vs: seq<Visit>, n: nat, r: nat)
    requires r < n <= |vs| && IsNew(cfg, base, vs, r)
    ensures LastNew(cfg, base, vs, n).Some? && r <= LastNew(cfg, base, vs, n).value
    ensures PlanOf(cfg, base, vs, n).offset == PlanOf(cfg, base, vs, LastNew(cfg, base, vs, n).value + 1).offset
    decreases n
  {
    if !IsNew(cfg, base, vs, n - 1) {
      SinceLastNew(cfg, base, vs, n - 1, r);
    }
  }

  /** A duplicate the writer takes for new: empty Thumb-2 code whose first copy
      is the last thing planned, so that its offset is one past the end. */
  predicate Blind(cfg: Config, base: nat, vs: seq<Visit>, k: nat)
    requires k < |vs|
  {
    && vs[k].Compiled() && !IsNew(cfg, base, vs, k)
    && vs[k].Method().code == [] && vs[k].Method().isa.Thumb2?
    && var r := LastNew(cfg, base, vs, k);
       r.Some? && KeyOf(cfg, vs[r.value]) == KeyOf(cfg, vs[k])
  }

  /** Comparing the recorded word with the offset tells new code from duplicates,
      up to blind ones and while offsets fit. */
  lemma {:induction false} OffsetAheadIff(cfg: Config, base: nat, vs: seq<Visit>, k: nat)
    requires k < |vs| && vs[k].Compiled() && KeysIdentifyCode(cfg, vs)
    ensures var o := PlanOf(cfg, base, vs, k + 1).offsets[k];
            Word(o) > PlanOf(cfg, base, vs, k).offset <==>
            (IsNew(cfg, base, vs, k) || Blind(cfg, base, vs, k)) && o < TWO_32
  {
    ExactOffsetAheadIff(cfg, base, vs, k);
    var o, p := PlanOf(cfg, base, vs, k + 1).offsets[k], PlanOf(cfg, base, vs, k).offset;
    if o >= TWO_32 {
      assert Word(o) <= o - TWO_32;
    }
  }

  lemma {:induction false} ExactOffsetAheadIff(cfg: Config, base: nat, vs: seq<Visit>, k: nat)
    requires k < |vs| && vs[k].Compiled() && KeysIdentifyCode(cfg, vs)
    ensures var o := PlanOf(cfg, base, vs, k + 1).offsets[k];
            && (o > PlanOf(cfg, base, vs, k).offset <==> IsNew(cfg, base, vs, k) || Blind(cfg, base, vs, k))
            && o < PlanOf(cfg, base, vs, k).offset + TWO_32
  {
    if IsNew(cfg, base, vs, k) {
      NewEnds(cfg, base, vs, k);
    } else {
      var r := FirstPlanned(cfg, base, vs, k, KeyOf(cfg, vs[k]));
      assert SameCode(cfg, vs[r], vs[k]);
      NewEnds(cfg, base, vs, r);
      PlanGrows(cfg, base, vs, r + 1, k);
      SinceLastNew(cfg, base, vs, k, r);
      var last := LastNew(cfg, base, vs, k).value;
      if last != r {
        NewEnds(cfg, base, vs, last);
        PlanGrows(cfg, base, vs, r + 1, last);
        KeysAreNewOnce(cfg, base, vs, r, last);
      }
    }
  }

  /** A remembered key is not new a second time. */
  lemma {:induction false} KeysAreNewOnce(cfg: Config, base: nat, vs: seq<Visit>, r: nat, n: nat)
    requires r < n < |vs| && IsNew(cfg, base, vs, r) && IsRemembered(cfg, vs[r]) && vs[n].Compiled()
    ensures KeyOf(cfg, vs[r]) in PlanOf(cfg, base, vs, n).known
    ensures IsNew(cfg, base, vs, n) ==> KeyOf(cfg, vs[n]) != KeyOf(cfg, vs[r])
  {
    KnownStays(cfg, base, vs, KeyOf(cfg, vs[r]), r + 1, n);
  }

  lemma {:induction false} KnownStays(cfg: Config, base: nat, vs: seq<Visit>, key: CodeKey, m: nat, n: nat)
    requires m <= n <= |vs| && key in PlanOf(cfg, base, vs, m).known
    ensures key in PlanOf(cfg, base, vs, n).known
    decreases n
  {
    if m < n {
      KnownStays(cfg, base, vs, key, m, n - 1);
    }
  }

  /** A visit at which the writer leaves the plan: blind, or too far. */
  ghost predicate Bad(cfg: Config, base: nat, vs: seq<Visit>, k: nat)
    requires k < |vs|
  {
    Blind(cfg, base, vs, k) || PlanOf(cfg, base, vs, |vs|).offsets[k] >= TWO_32
  }

  /** Up to the first bad visit, the writer is where the plan is. */
  lemma {:induction false} InStepWithPlan(
    cfg: Config, file: nat, base: nat, vs: seq<Visit>, offsets: seq<nat>, n: nat)
    requires n <= |vs| && KeysIdentifyCode(cfg, vs) && AreRecords(cfg, base, vs, offsets)
    requires forall k :: 0 <= k < n ==> !Bad(cfg, base, vs, k)
    ensures var p := PlanOf(cfg, base, vs, n);
            WrittenOf(cfg, file, base, vs, offsets, n) ==
            Written(p.offset, p.count, PlannedChunks(cfg, file, base, vs, n))
  {
    if n > 0 {
      InStepWithPlan(cfg, file, base, vs, offsets, n - 1);
      OffsetsAreStable(cfg, base, vs, n - 1, |vs|);
      FitUpTo(cfg, base, vs, n - 1);
      assert !Bad(cfg, base, vs, n - 1);
      StepFollowsPlan(cfg, file, base, vs, n - 1, offsets[n - 1], WrittenOf(cfg, file, base, vs, offsets, n - 1));
    }
  }

  lemma {:induction false} StepFollowsPlan(
    cfg: Config, file: nat, base: nat, vs: seq<Visit>, k: nat, recorded: nat, w: Written)
    requires k < |vs| && KeysIdentifyCode(cfg, vs)
    requires var p := PlanOf(cfg, base, vs, k); w == Written(p.offset, p.count, PlannedChunks(cfg, file, base, vs, k))
    requires vs[k].Compiled() ==> recorded == Word(PlanOf(cfg, base, vs, k + 1).offsets[k])
    requires PlanOf(cfg, base, vs, k + 1).offsets[k] < TWO_32 && !Blind(cfg, base, vs, k)
    ensures var q := PlanOf(cfg, base, vs, k + 1);
            WriteVisit(cfg, file, w, k, vs[k], recorded) ==
            Written(q.offset, q.count, PlannedChunks(cfg, file, base, vs, k + 1))
  {
    if vs[k].Compiled() {
      OffsetAheadIff(cfg, base, vs, k);
    }
  }

  /** The writer produces exactly the planned chunks if and only if no visit is
      blind and all code offsets have 32 bits. A blind visit gets a header that is
      not planned; a visit too far does not get the one that is. */
  lemma {:induction false} WritesThePlanIff(cfg: Config, file: nat, base: nat, vs: seq<Visit>, offsets: seq<nat>)
    requires KeysIdentifyCode(cfg, vs) && AreRecords(cfg, base, vs, offsets)
    ensures WrittenOf(cfg, file, base, vs, offsets, |vs|).chunks == PlannedChunks(cfg, file, base, vs, |vs|)
       <==> (forall k :: 0 <= k < |vs| ==> !Blind(cfg, base, vs, k)) && Fit(cfg, base, vs, |vs|)
  {
    if k :| 0 <= k < |vs| && Bad(cfg, base, vs, k) {
      var first := FirstBad(cfg, base, vs, k);
      if PlanOf(cfg, base, vs, |vs|).offsets[first] < TWO_32 {
        BlindIsWritten(cfg, file, base, vs, offsets, first);
      } else {
        FarIsNotWritten(cfg, file, base, vs, offsets, first);
      }
    } else {
      forall k | 0 <= k < |vs| ensures !Blind(cfg, base, vs, k) {
        assert !Bad(cfg, base, vs, k);
      }
      FitUpTo(cfg, base, vs, |vs|);
      InStepWithPlan(cfg, file, base, vs, offsets, |vs|);
    }
  }

  lemma {:induction false} FirstBad(cfg: Config, base: nat, vs: seq<Visit>, k: nat) returns (first: nat)
    requires k < |vs| && Bad(cfg, base, vs, k)
    ensures first < |vs| && Bad(cfg, base, vs, first)
    ensures forall j :: 0 <= j < first ==> !Bad(cfg, base, vs, j)
    decreases k
  {
    if j :| 0 <= j < k && Bad(cfg, base, vs, j) {
      first := FirstBad(cfg, base, vs, j);
    } else {
      first := k;
    }
  }

  ghost predicate HasHeader(chunks: seq<Chunk>, k: nat) {
    exists i :: 0 <= i < |chunks| && chunks[i].content == Header(k)
  }

  lemma {:induction false} BlindIsWritten(
    cfg: Config, file: nat, base: nat, vs: seq<Visit>, offsets: seq<nat>, k: nat)
    requires k < |vs| && KeysIdentifyCode(cfg, vs) && AreRecords(cfg, base, vs, offsets)
    requires Blind(cfg, base, vs, k) && PlanOf(cfg, base, vs, |vs|).offsets[k] < TWO_32
    requires forall j :: 0 <= j < k ==> !Bad(cfg, base, vs, j)
    ensures HasHeader(WrittenOf(cfg, file, base, vs, offsets, |vs|).chunks, k)
    ensures !HasHeader(PlannedChunks(cfg, file, base, vs, |vs|), k)
  {
    InStepWithPlan(cfg, file, base, vs, offsets, k);
    OffsetsAreStable(cfg, base, vs, k, |vs|);
    FitUpTo(cfg, base, vs, k);
    OffsetAheadIff(cfg, base, vs, k);
    var w := WrittenOf(cfg, file, base, vs, offsets, k);
    var own := NewChunks(cfg, file, w.offset, w.count, k, vs[k].Method());
    var next := WrittenOf(cfg, file, base, vs, offsets, k + 1).chunks;
    assert next == w.chunks + own;
    assert own[|own| - 2].content == Header(k);
    assert next[|next| - 2].content == Header(k);
    ChunksStay(cfg, file, base, vs, offsets, k + 1, |vs|);
    PlannedHeaders(cfg, file, base, vs, |vs|, k);
  }

  lemma {:induction false} FitUpTo(cfg: Config, base: nat, vs: seq<Visit>, k: nat)
    requires k <= |vs| && forall j :: 0 <= j < k ==> !Bad(cfg, base, vs, j)
    ensures Fit(cfg, base, vs, k)
  {
    forall j | 0 <= j < k ensures PlanOf(cfg, base, vs, |vs|).offsets[j] < TWO_32 {
      assert !Bad(cfg, base, vs, j);
    }
  }

  /** The first visit with an offset of 4 GiB or more is planned as new, and not
      written: the word on record lies behind. */
  lemma {:induction false} FarIsNotWritten(
    cfg: Config, file: nat, base: nat, vs: seq<Visit>, offsets: seq<nat>, k: nat)
    requires k < |vs| && KeysIdentifyCode(cfg, vs) && AreRecords(cfg, base, vs, offsets)
    requires PlanOf(cfg, base, vs, |vs|).offsets[k] >= TWO_32
    requires forall j :: 0 <= j < k ==> !Bad(cfg, base, vs, j)
    ensures HasHeader(PlannedChunks(cfg, file, base, vs, |vs|), k)
    ensures !HasHeader(WrittenOf(cfg, file, base, vs, offsets, |vs|).chunks, k)
  {
    OffsetsAreStable(cfg, base, vs, k, |vs|);
    if !IsNew(cfg, base, vs, k) {
      var r := FirstPlanned(cfg, base, vs, k, KeyOf(cfg, vs[k]));
      OffsetsAreStable(cfg, base, vs, r, |vs|);
      assert Bad(cfg, base, vs, r);
    }
    PlannedHeaders(cfg, file, base, vs, |vs|, k);
    InStepWithPlan(cfg, file, base, vs, offsets, k);
    FitUpTo(cfg, base, vs, k);
    OffsetAheadIff(cfg, base, vs, k);
    WrittenIsAhead(cfg, file, base, vs, offsets, |vs|, k);
  }

  /** A header is written only at its visit, and only if the offset lies ahead. */
  lemma {:induction false} WrittenIsAhead(
    cfg: Config, file: nat, base: nat, vs: seq<Visit>, offsets: seq<nat>, n: nat, k: nat)
    requires n <= |vs| == |offsets| && k < |vs|
    ensures HasHeader(WrittenOf(cfg, file, base, vs, offsets, n).chunks, k) ==>
              k < n && vs[k].Compiled() && offsets[k] > WrittenOf(cfg, file, base, vs, offsets, k).offset
  {
    if n > 0 {
      WrittenIsAhead(cfg, file, base, vs, offsets, n - 1, k);
      var w, next := WrittenOf(cfg, file, base, vs, offsets, n - 1), WrittenOf(cfg, file, base, vs, offsets, n);
      if next != w {
        var own := NewChunks(cfg, file, w.offset, w.count, n - 1, vs[n - 1].Method());
        assert forall i :: 0 <= i < |own| && own[i].content == Header(k) ==> k == n - 1;
        HeaderInConcat(w.chunks, own, k);
      }
    }
  }

  lemma {:induction false} ChunksStay(
    cfg: Config, file: nat, base: nat, vs: seq<Visit>, offsets: seq<nat>, m: nat, n: nat)
    requires m <= n <= |vs| && |offsets| == |vs|
    ensures WrittenOf(cfg, file, base, vs, offsets, m).chunks <= WrittenOf(cfg, file, base, vs, offsets, n).chunks
    decreases n
  {
    if m < n {
      ChunksStay(cfg, file, base, vs, offsets, m, n - 1);
    }
  }

  /** A planned header belongs to a new visit, and every new visit has one. */
  lemma {:induction false} PlannedHeaders(cfg: Config, file: nat, base: nat, vs: seq<Visit>, n: nat, k: nat)
    requires n <= |vs| && k < |vs|
    ensures HasHeader(PlannedChunks(cfg, file, base, vs, n), k) <==> k < n && IsNew(cfg, base, vs, k)
  {
    if n > 0 {
      PlannedHeaders(cfg, file, base, vs, n - 1, k);
      var before := PlannedChunks(cfg, file, base, vs, n - 1);
      var p := PlanOf(cfg, base, vs, n - 1);
      if IsNew(cfg, base, vs, n - 1) {
        var own := NewChunks(cfg, file, p.offset, p.count, n - 1, vs[n - 1].Method());
        assert own[|own| - 2].content == Header(n - 1);
        assert forall i :: 0 <= i < |own| && own[i].content == Header(k) ==> k == n - 1;
        HeaderInConcat(before, own, k);
      } else {
        assert PlannedChunks(cfg, file, base, vs, n) == before;
      }
    }
  }

  lemma {:induction false} HeaderInConcat(a: seq<Chunk>, b: seq<Chunk>, k: nat)
    ensures HasHeader(a + b, k) <==> HasHeader(a, k) || HasHeader(b, k)
  {
    if i :| 0 <= i < |a + b| && (a + b)[i].content == Header(k) {
      if i >= |a| {
        assert b[i - |a|].content == Header(k);
      }
    }
    if i :| 0 <= i < |a| && a[i].content == Header(k) {
      assert (a + b)[i].content == Header(k);
    }
    if i :| 0 <= i < |b| && b[i].content == Header(k) {
      assert (a + b)[|a| + i].content == Header(k);
    }
  }

  /** Quickened methods are compiled for Arm, not Thumb-2, so that nothing is blind. */
  lemma {:induction false} NothingIsBlind(cfg: Config, base: nat, vs: seq<Visit>)
    requires forall k :: 0 <= k < |vs| && vs[k].Compiled() && vs[k].Method().code == [] ==> !vs[k].Method().isa.Thumb2?
    ensures forall k :: 0 <= k < |vs| ==> !Blind(cfg, base, vs, k)
  {
  }

  /** Two empty Thumb-2 methods in a row are enough for a blind visit. */
  lemma {:induction false} EmptyThumbIsBlind(cfg: Config, base: nat, a: Visit, b: Visit)
    requires !cfg.debuggable && a.Compiled() && b.Compiled() && KeyOf(cfg, a) == KeyOf(cfg, b)
    requires b.Method().code == [] && b.Method().isa.Thumb2?
    ensures Blind(cfg, base, [a, b], 1)
  {
    var vs := [a, b];
    assert PlanOf(cfg, base, vs, 0) == Plan(base, map[], 0, []);
    assert IsNew(cfg, base, vs, 0);
    assert LastNew(cfg, base, vs, 1) == Some(0);
    assert KeyOf(cfg, a) in PlanOf(cfg, base, vs, 1).known;
  }

  /* ---- What the planned chunks amount to ---- */

  /** Chunks follow each other without gap or overlap from `start` to `end`. */
  ghost predicate Tiles(chunks: seq<Chunk>, start: nat, end: nat) {
    if chunks == [] then start == end
    else
      var last := chunks[|chunks| - 1];
      end == last.pos + last.length && Tiles(chunks[..|chunks| - 1], start, last.pos)
  }

  lemma {:induction false} TilesAppend(a: seq<Chunk>, b: seq<Chunk>, start: nat, mid: nat, end: nat)
    requires Tiles(a, start, mid) && Tiles(b, mid, end)
    ensures Tiles(a + b, start, end)
    decreases |b|
  {
    if b == [] {
      assert a + b == a;
    } else {
      var last := b[|b| - 1];
      TilesAppend(a, b[..|b| - 1], start, mid, last.pos);
      assert (a + b)[..|a + b| - 1] == a + b[..|b| - 1];
    }
  }

  lemma {:induction false} NewChunksTile(cfg: Config, file: nat, offset: nat, count: nat, k: nat, m: CompiledMethod)
    ensures Tiles(NewChunks(cfg, file, offset, count, k, m), file + offset,
                  file + NewStart(cfg, offset, count, m) + HEADER + |m.code|)
  {
    var c := NewChunks(cfg, file, offset, count, k, m);
    var n := |c|;
    assert Tiles(c[..0], file + offset, file + offset);
    assert c[..1][..0] == c[..0];
    assert Tiles(c[..1], file + offset, file + offset + cfg.thunks(count));
    assert c[..2][..1] == c[..1];
    assert c[..3][..2] == c[..2];
    assert c[..n - 1][..n - 2] == c[..n - 2];
    assert Tiles(c[..n - 2], file + offset, file + NewStart(cfg, offset, count, m));
    assert Tiles(c[..n - 1], file + offset, file + NewStart(cfg, offset, count, m) + HEADER);
  }

  /** The planned chunks fill the file from the base to the planned offset. */
  lemma {:induction false} PlannedChunksTile(cfg: Config, file: nat, base: nat, vs: seq<Visit>, n: nat)
    requires n <= |vs|
    ensures Tiles(PlannedChunks(cfg, file, base, vs, n), file + base, file + PlanOf(cfg, base, vs, n).offset)
  {
    if n > 0 {
      PlannedChunksTile(cfg, file, base, vs, n - 1);
      OneMoreTile(cfg, file, base, vs, n - 1, PlannedChunks(cfg, file, base, vs, n - 1));
    }
  }

  lemma {:induction false} OneMoreTile(cfg: Config, file: nat, base: nat, vs: seq<Visit>, k: nat, before: seq<Chunk>)
    requires k < |vs| && before == PlannedChunks(cfg, file, base, vs, k)
    requires Tiles(before, file + base, file + PlanOf(cfg, base, vs, k).offset)
    ensures Tiles(PlannedChunks(cfg, file, base, vs, k + 1), file + base, file + PlanOf(cfg, base, vs, k + 1).offset)
  {
    var p := PlanOf(cfg, base, vs, k);
    if IsNew(cfg, base, vs, k) {
      var m := vs[k].Method();
      var own := NewChunks(cfg, file, p.offset, p.count, k, m);
      var end := file + NewStart(cfg, p.offset, p.count, m) + HEADER + |m.code|;
      NewChunksTile(cfg, file, p.offset, p.count, k, m);
      TilesAppend(before, own, file + base, file + p.offset, end);
      assert PlannedChunks(cfg, file, base, vs, k + 1) == before + own;
      assert end == file + PlanOf(cfg, base, vs, k + 1).offset;
    } else {
      assert PlannedChunks(cfg, file, base, vs, k + 1) == before;
    }
  }

  /** Header `h` and code `c` of visit `r` stand at `i` and `i + 1`, and nothing
      else of that visit stands anywhere. */
  ghost predicate Once(chunks: seq<Chunk>, r: nat, i: nat, h: Chunk, c: Chunk) {
    && i + 1 < |chunks| && chunks[i] == h && chunks[i + 1] == c
    && (forall j :: 0 <= j < |chunks| && Owns(chunks[j], r) ==> j == i || j == i + 1)
  }

  predicate Owns(c: Chunk, r: nat) {
    c.content == Header(r) || c.content == Code(r)
  }

  ghost predicate PlacedOnce(cfg: Config, file: nat, base: nat, vs: seq<Visit>, chunks: seq<Chunk>, r: nat, i: nat)
    requires r < |vs| && IsNew(cfg, base, vs, r)
  {
    var p, m := PlanOf(cfg, base, vs, r), vs[r].Method();
    var start := NewStart(cfg, p.offset, p.count, m);
    Once(chunks, r, i, Chunk(file + start, Header(r), HEADER), Chunk(file + start + HEADER, Code(r), |m.code|))
  }

  lemma {:induction false} OnceAppend(a: seq<Chunk>, b: seq<Chunk>, r: nat, i: nat, h: Chunk, c: Chunk)
    requires Once(a, r, i, h, c) && forall j :: 0 <= j < |b| ==> !Owns(b[j], r)
    ensures Once(a + b, r, i, h, c)
  {
    forall j | |a| <= j < |a + b| ensures !Owns((a + b)[j], r) {
      assert (a + b)[j] == b[j - |a|];
    }
  }

  lemma {:induction false} OnceLast(a: seq<Chunk>, b: seq<Chunk>, r: nat, h: Chunk, c: Chunk)
    requires forall j :: 0 <= j < |a| ==> !Owns(a[j], r)
    requires |b| >= 2 && b[|b| - 2] == h && b[|b| - 1] == c
    requires forall j :: 0 <= j < |b| - 2 ==> !Owns(b[j], r)
    ensures Once(a + b, r, |a| + |b| - 2, h, c)
  {
    forall j | 0 <= j < |a| + |b| - 2 ensures !Owns((a + b)[j], r) {
      assert (a + b)[j] == if j < |a| then a[j] else b[j - |a|];
    }
  }

  ghost predicate OnlyEarlier(chunks: seq<Chunk>, n: nat) {
    forall j :: 0 <= j < |chunks| ==>
      match chunks[j].content
      case Header(v) => v < n
      case Code(v) => v < n
      case _ => true
  }

  lemma {:induction false} PlannedOnlyEarlier(cfg: Config, file: nat, base: nat, vs: seq<Visit>, n: nat)
    requires n <= |vs|
    ensures OnlyEarlier(PlannedChunks(cfg, file, base, vs, n), n)
  {
    if n > 0 {
      PlannedOnlyEarlier(cfg, file, base, vs, n - 1);
    }
  }

  lemma {:induction false} NewChunksOwned(
    cfg: Config, file: nat, offset: nat, count: nat, k: nat, m: CompiledMethod, r: nat)
    ensures var own := NewChunks(cfg, file, offset, count, k, m);
            && |own| >= 2
            && own[|own| - 2] == Chunk(file + NewStart(cfg, offset, count, m), Header(k), HEADER)
            && own[|own| - 1] == Chunk(file + NewStart(cfg, offset, count, m) + HEADER, Code(k), |m.code|)
            && (forall j :: 0 <= j < |own| - 2 ==> !Owns(own[j], r))
            && (r != k ==> forall j :: 0 <= j < |own| ==> !Owns(own[j], r))
  {
  }

  lemma {:induction false} NewIsPlacedOnce(cfg: Config, file: nat, base: nat, vs: seq<Visit>, r: nat, n: nat)
      returns (i: nat)
    requires r < n <= |vs| && IsNew(cfg, base, vs, r)
    ensures PlacedOnce(cfg, file, base, vs, PlannedChunks(cfg, file, base, vs, n), r, i)
    decreases n
  {
    var before, p := PlannedChunks(cfg, file, base, vs, n - 1), PlanOf(cfg, base, vs, n - 1);
    var q, m := PlanOf(cfg, base, vs, r), vs[r].Method();
    var start := NewStart(cfg, q.offset, q.count, m);
    var h, c := Chunk(file + start, Header(r), HEADER), Chunk(file + start + HEADER, Code(r), |m.code|);
    if IsNew(cfg, base, vs, n - 1) {
      var own := NewChunks(cfg, file, p.offset, p.count, n - 1, vs[n - 1].Method());
      NewChunksOwned(cfg, file, p.offset, p.count, n - 1, vs[n - 1].Method(), r);
      if r < n - 1 {
        i := NewIsPlacedOnce(cfg, file, base, vs, r, n - 1);
        OnceAppend(before, own, r, i, h, c);
      } else {
        PlannedOnlyEarlier(cfg, file, base, vs, r);
        OnceLast(before, own, r, h, c);
        i := |before| + |own| - 2;
      }
    } else {
      i := NewIsPlacedOnce(cfg, file, base, vs, r, n - 1);
      assert PlannedChunks(cfg, file, base, vs, n) == before;
    }
  }

  /** A header or code chunk of a method with key `key`. */
  ghost predicate HasKey(cfg: Config, vs: seq<Visit>, c: Chunk, key: CodeKey) {
    && (c.content.Header? || c.content.Code?) && c.content.visit < |vs|
    && vs[c.content.visit].Compiled() && KeyOf(cfg, vs[c.content.visit]) == key
  }

  lemma {:induction false} ChunksAreOfNew(cfg: Config, file: nat, base: nat, vs: seq<Visit>, n: nat, j: nat)
    requires n <= |vs| && j < |PlannedChunks(cfg, file, base, vs, n)|
    ensures var c := PlannedChunks(cfg, file, base, vs, n)[j].content;
            c.Header? || c.Code? ==> c.visit < n && IsNew(cfg, base, vs, c.visit)
  {
    if j < |PlannedChunks(cfg, file, base, vs, n - 1)| {
      ChunksAreOfNew(cfg, file, base, vs, n - 1, j);
    }
  }

  /** A code-less method of a debuggable app is new at every visit. */
  lemma {:induction false} UnrememberedIsNew(cfg: Config, base: nat, vs: seq<Visit>, k: nat)
    requires k < |vs| && vs[k].Compiled() && KeysIdentifyCode(cfg, vs) && !IsRemembered(cfg, vs[k])
    ensures IsNew(cfg, base, vs, k)
  {
    if !IsNew(cfg, base, vs, k) {
      var r := FirstPlanned(cfg, base, vs, k, KeyOf(cfg, vs[k]));
    }
  }

  /** Every compiled method, duplicate or not, finds its code in the file, at the
      offset on record less the Thumb bit, right after the header of the first
      method that shares the code. If the patcher remembers the method, no other
      header or code in the file has its key. */
  lemma {:induction false} MethodFindsItsCode(cfg: Config, file: nat, base: nat, vs: seq<Visit>, k: nat)
      returns (r: nat, i: nat)
    requires k < |vs| && vs[k].Compiled() && KeysIdentifyCode(cfg, vs)
    ensures r <= k && IsNew(cfg, base, vs, r) && KeyOf(cfg, vs[r]) == KeyOf(cfg, vs[k])
    ensures IsNew(cfg, base, vs, k) ==> r == k
    ensures vs[r].Method().code == vs[k].Method().code
    ensures PlacedOnce(cfg, file, base, vs, PlannedChunks(cfg, file, base, vs, |vs|), r, i)
    ensures PlannedChunks(cfg, file, base, vs, |vs|)[i + 1].pos + vs[k].Method().isa.CodeDelta() ==
            file + PlanOf(cfg, base, vs, |vs|).offsets[k]
    ensures var chunks := PlannedChunks(cfg, file, base, vs, |vs|);
            IsRemembered(cfg, vs[k]) ==>
              forall j :: 0 <= j < |chunks| ==>
                (HasKey(cfg, vs, chunks[j], KeyOf(cfg, vs[k])) <==> j == i || j == i + 1)
  {
    r := PlannedBy(cfg, base, vs, k);
    NewEnds(cfg, base, vs, r);
    i := NewIsPlacedOnce(cfg, file, base, vs, r, |vs|);
    if IsRemembered(cfg, vs[k]) {
      OnlyOfKey(cfg, file, base, vs, r, i);
    }
  }

  lemma {:induction false} OnlyOfKey(cfg: Config, file: nat, base: nat, vs: seq<Visit>, r: nat, i: nat)
    requires r < |vs| && IsNew(cfg, base, vs, r) && IsRemembered(cfg, vs[r]) && KeysIdentifyCode(cfg, vs)
    requires PlacedOnce(cfg, file, base, vs, PlannedChunks(cfg, file, base, vs, |vs|), r, i)
    ensures var chunks := PlannedChunks(cfg, file, base, vs, |vs|);
            forall j :: 0 <= j < |chunks| && HasKey(cfg, vs, chunks[j], KeyOf(cfg, vs[r])) ==> j == i || j == i + 1
  {
    var chunks := PlannedChunks(cfg, file, base, vs, |vs|);
    forall j | 0 <= j < |chunks| && HasKey(cfg, vs, chunks[j], KeyOf(cfg, vs[r])) ensures j == i || j == i + 1 {
      var v := chunks[j].content.visit;
      ChunksAreOfNew(cfg, file, base, vs, |vs|, j);
      assert SameCode(cfg, vs[r], vs[v]);
      if r < v {
        KeysAreNewOnce(cfg, base, vs, r, v);
      } else if v < r {
        KeysAreNewOnce(cfg, base, vs, v, r);
      }
      assert Owns(chunks[j], r);
    }
  }

  ghost predicate IsHeaderOf(cfg: Config, vs: seq<Visit>, c: Chunk, key: CodeKey) {
    c.content.Header? && HasKey(cfg, vs, c, key)
  }

  /** At most one header in the file belongs to a method with key `key`. */
  ghost predicate OneHeader(cfg: Config, vs: seq<Visit>, chunks: seq<Chunk>, key: CodeKey) {
    forall i, j :: 0 <= i < j < |chunks| ==>
      !(IsHeaderOf(cfg, vs, chunks[i], key) && IsHeaderOf(cfg, vs, chunks[j], key))
  }

  /** Code is written once for all methods that share it, unless the app is
      debuggable, the code is empty, and the method is visited more than once. */
  lemma {:induction false} SharedCodeIsWrittenOnceIff(cfg: Config, file: nat, base: nat, vs: seq<Visit>, k: nat)
    requires k < |vs| && vs[k].Compiled() && KeysIdentifyCode(cfg, vs)
    ensures OneHeader(cfg, vs, PlannedChunks(cfg, file, base, vs, |vs|), KeyOf(cfg, vs[k])) <==>
            !cfg.debuggable || vs[k].Method().code != [] || OnlyVisit(cfg, vs, k)
  {
    var chunks, key := PlannedChunks(cfg, file, base, vs, |vs|), KeyOf(cfg, vs[k]);
    var r, i := MethodFindsItsCode(cfg, file, base, vs, k);
    if !IsRemembered(cfg, vs[k]) {
      UnrememberedIsNew(cfg, base, vs, k);
      var ik := NewIsPlacedOnce(cfg, file, base, vs, k, |vs|);
      if v :| 0 <= v < |vs| && vs[v].Compiled() && KeyOf(cfg, vs[v]) == key && v != k {
        assert SameCode(cfg, vs[v], vs[k]);
        UnrememberedIsNew(cfg, base, vs, v);
        var iv := NewIsPlacedOnce(cfg, file, base, vs, v, |vs|);
        assert chunks[iv].content == Header(v) && chunks[ik].content == Header(k);
        assert IsHeaderOf(cfg, vs, chunks[iv], key) && IsHeaderOf(cfg, vs, chunks[ik], key);
      } else {
        forall j | 0 <= j < |chunks| && IsHeaderOf(cfg, vs, chunks[j], key) ensures j == ik {
          assert Owns(chunks[j], k);
        }
      }
    }
  }

  /** No other visit has the key of visit `k`. */
  ghost predicate OnlyVisit(cfg: Config, vs: seq<Visit>, k: nat)
    requires k < |vs| && vs[k].Compiled()
  {
    forall v :: 0 <= v < |vs| && vs[v].Compiled() && KeyOf(cfg, vs[v]) == KeyOf(cfg, vs[k]) ==> v == k
  }

  /** What the code part of the file should be: the planned chunks and, after
      the last class, thunks. */
  ghost function Expected(cfg: Config, file: nat, base: nat, vs: seq<Visit>, anyClass: bool): seq<Chunk> {
    var p := PlanOf(cfg, base, vs, |vs|);
    PlannedChunks(cfg, file, base, vs, |vs|) +
    if anyClass then [Chunk(file + p.offset, Thunks, cfg.thunks(p.count))] else []
  }

  /** Both passes over one oat file: the file has what was planned, and the
      writer ends where the planner did, exactly if no visit is blind and all code
      offsets have 32 bits. */
  method PlanAndWrite(cfg: Config, file: nat, base: nat, vs: seq<Visit>, anyClass: bool)
      returns (size: nat, end: nat, pos: nat, chunks: seq<Chunk>)
    requires DistinctKeys(vs) && KeysIdentifyCode(cfg, vs)
    ensures chunks == Expected(cfg, file, base, vs, anyClass) <==>
            (forall k :: 0 <= k < |vs| ==> !Blind(cfg, base, vs, k)) && Fit(cfg, base, vs, |vs|)
    ensures chunks == Expected(cfg, file, base, vs, anyClass) ==>
              size == PlannedEnd(cfg, base, vs, anyClass) && end == size && pos == file + size
  {
    var stored;
    size, stored := PlanCode(cfg, base, vs, anyClass);
    end, pos, chunks := WriteCode(cfg, file, base, vs, stored, anyClass);
    ghost var offsets := StoredFor(vs, stored);
    WritesThePlanIff(cfg, file, base, vs, offsets);
    ghost var w, planned := WrittenOf(cfg, file, base, vs, offsets, |vs|), PlannedChunks(cfg, file, base, vs, |vs|);
    if chunks == Expected(cfg, file, base, vs, anyClass) {
      SamePrefix(w.chunks, chunks[|w.chunks|..], planned, Expected(cfg, file, base, vs, anyClass)[|planned|..]);
    }
    if w.chunks == planned {
      InStepAtEnd(cfg, file, base, vs, offsets);
    }
  }

  lemma {:induction false} SamePrefix(a: seq<Chunk>, x: seq<Chunk>, b: seq<Chunk>, y: seq<Chunk>)
    requires a + x == b + y && |x| == |y|
    ensures a == b
  {
    assert a == (a + x)[..|a|] && b == (b + y)[..|a|];
  }

  lemma {:induction false} InStepAtEnd(cfg: Config, file: nat, base: nat, vs: seq<Visit>, offsets: seq<nat>)
    requires KeysIdentifyCode(cfg, vs) && AreRecords(cfg, base, vs, offsets)
    requires (forall k :: 0 <= k < |vs| ==> !Blind(cfg, base, vs, k)) && Fit(cfg, base, vs, |vs|)
    ensures var p := PlanOf(cfg, base, vs, |vs|);
            WrittenOf(cfg, file, base, vs, offsets, |vs|) ==
            Written(p.offset, p.count, PlannedChunks(cfg, file, base, vs, |vs|))
  {
    forall k | 0 <= k < |vs| ensures !Bad(cfg, base, vs, k) {
      assert !Blind(cfg, base, vs, k);
    }
    InStepWithPlan(cfg, file, base, vs, offsets, |vs|);
  }

  /** A debuggable app with a code-less method that is visited twice: both visits
      have a header in the file. */
  method WriteTwice(file: nat) returns (size: nat, end: nat, pos: nat, chunks: seq<Chunk>)
    ensures HasHeader(chunks, 0) && HasHeader(chunks, 1)
  {
    var cfg := Config(true, n => 0);
    var m := DexMethod(0, false, Some(CompiledMethod(Arm, 0, [], 0, [], 0, [], 0)));
    var vs := [Visit(0, 0, m), Visit(0, 1, m)];
    BothAreNew(cfg, vs, m);
    NothingIsBlind(cfg, 0, vs);
    size, end, pos, chunks := PlanAndWrite(cfg, file, 0, vs, false);
    PlannedHeaders(cfg, file, 0, vs, 2, 0);
    PlannedHeaders(cfg, file, 0, vs, 2, 1);
    assert chunks == PlannedChunks(cfg, file, 0, vs, 2);
  }

  lemma {:induction false} BothAreNew(cfg: Config, vs: seq<Visit>, m: DexMethod)
    requires cfg.debuggable && (forall n :: cfg.thunks(n) == 0) && vs == [Visit(0, 0, m), Visit(0, 1, m)]
    requires m == DexMethod(0, false, Some(CompiledMethod(Arm, 0, [], 0, [], 0, [], 0)))
    ensures KeysIdentifyCode(cfg, vs) && IsNew(cfg, 0, vs, 0) && IsNew(cfg, 0, vs, 1) && Fit(cfg, 0, vs, 2)
  {
    assert PlanOf(cfg, 0, vs, 0) == Plan(0, map[], 0, []);
    NewEnds(cfg, 0, vs, 0);
    assert PlanOf(cfg, 0, vs, 1).known == map[];
    NewEnds(cfg, 0, vs, 1);
    assert PlanOf(cfg, 0, vs, 2).offsets == PlanOf(cfg, 0, vs, 1).offsets + [PlanOf(cfg, 0, vs, 2).offsets[1]];
  }

  /** Code that reaches 4 GiB and one method behind it: the header of the second
      method is planned and not written. */
  lemma {:induction false} FarMethodIsLost(cfg: Config, file: nat, base: nat, vs: seq<Visit>, offsets: seq<nat>)
    requires KeysIdentifyCode(cfg, vs) && AreRecords(cfg, base, vs, offsets) && |vs| == 2
    requires vs[0].Compiled() && vs[1].Compiled() && KeyOf(cfg, vs[0]) != KeyOf(cfg, vs[1])
    requires base + cfg.thunks(0) + 41 < TWO_32
    requires |vs[0].Method().code| < TWO_32 <= base + |vs[0].Method().code|
    ensures HasHeader(PlannedChunks(cfg, file, base, vs, 2), 1)
    ensures !HasHeader(WrittenOf(cfg, file, base, vs, offsets, 2).chunks, 1)
  {
    assert PlanOf(cfg, base, vs, 0) == Plan(base, map[], 0, []);
    NewEnds(cfg, base, vs, 0);
    NewEnds(cfg, base, vs, 1);
    assert PlanOf(cfg, base, vs, 2).offsets == PlanOf(cfg, base, vs, 1).offsets + [PlanOf(cfg, base, vs, 2).offsets[1]];
    assert !Blind(cfg, base, vs, 0) && !Bad(cfg, base, vs, 0);
    FarIsNotWritten(cfg, file, base, vs, offsets, 1);
  }
}
