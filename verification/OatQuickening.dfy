/** Quickening info in the vdex file: written by one pass, its offsets predicted
    by the code planning pass. */
module OatQuickening {
  import opened Util
  import opened OatVisits
  import OatCode

  /** The bytes the vdex file gets for a method: its vmap if it has no code. */
  function Info(v: Visit): seq<Byte> {
    if v.Compiled() && v.Method().code == [] then v.Method().vmap else []
  }

  /* ---- The offsets recorded in the method headers ---- */

  /** The offset once `n` methods are planned; the visitor keeps it as a 32-bit
      word, current_quickening_info_offset_. */
  function PlannedOffset(base: nat, vs: seq<Visit>, n: nat): nat
    requires n <= |vs|
  {
    if n == 0 then base
    else PlannedOffset(base, vs, n - 1) + (if vs[n - 1].m.hasCodeItem then 4 else 0) + |Info(vs[n - 1])|
  }

  /** The offset put into the header of a method without code. */
  function Recorded(base: nat, vs: seq<Visit>, k: nat): nat
    requires k < |vs|
  {
    PlannedOffset(base, vs, k) + if vs[k].m.hasCodeItem then 4 else 0
  }

  /** The quickening part of InitCodeMethodVisitor. */
  method PlanQuickening(base: nat, vs: seq<Visit>) returns (end: nat, headers: map<(nat, nat), nat>)
    requires DistinctKeys(vs)
    ensures end == Word(PlannedOffset(base, vs, |vs|))
    ensures forall k :: 0 <= k < |vs| && vs[k].Compiled() && vs[k].Method().code == [] ==>
              vs[k].Key() in headers && headers[vs[k].Key()] == Word(Recorded(base, vs, k))
  {
    end, headers := Word(base), map[];
    for k := 0 to |vs|
      invariant end == Word(PlannedOffset(base, vs, k))
      invariant forall j :: 0 <= j < k && vs[j].Compiled() && vs[j].Method().code == [] ==>
                  vs[j].Key() in headers && headers[vs[j].Key()] == Word(Recorded(base, vs, j))
    {
      WordSum(PlannedOffset(base, vs, k), 4);
      if vs[k].m.hasCodeItem {
        end := Word(end + 4);
      }
      assert end == Word(Recorded(base, vs, k));
      if vs[k].Compiled() && vs[k].Method().code == [] {
        headers := headers[vs[k].Key() := end];
        WordSum(Recorded(base, vs, k), |vs[k].Method().vmap|);
        end := Word(end + |vs[k].Method().vmap|);
      }
    }
  }

  /* ---- What is written ---- */

  datatype Content = Length(visit: nat) | Data(visit: nat)
  datatype Chunk = Chunk(pos: nat, content: Content, length: nat)

  /** Stream position once `n` methods are written. */
  function WrittenOffset(base: nat, vs: seq<Visit>, n: nat): nat
    requires n <= |vs|
  {
    if n == 0 then base
    else WrittenOffset(base, vs, n - 1) + if vs[n - 1].m.hasCodeItem then 4 + |Info(vs[n - 1])| else 0
  }

  function Chunks(base: nat, vs: seq<Visit>, n: nat): seq<Chunk>
    requires n <= |vs|
  {
    if n == 0 then []
    else if vs[n - 1].m.hasCodeItem then
      var pos := WrittenOffset(base, vs, n - 1);
      Chunks(base, vs, n - 1) + [Chunk(pos, Length(n - 1), 4), Chunk(pos + 4, Data(n - 1), |Info(vs[n - 1])|)]
    else Chunks(base, vs, n - 1)
  }

  /** WriteQuickeningInfoMethodVisitor, from the aligned end of the vdex file. */
  method WriteQuickening(vdexSize: nat, vs: seq<Visit>) returns (base: nat, pos: nat, written: nat, chunks: seq<Chunk>)
    ensures base == RoundUp(vdexSize, 4)
    ensures pos == WrittenOffset(base, vs, |vs|) && written == pos - base
    ensures chunks == Chunks(base, vs, |vs|)
  {
    base := RoundUp(vdexSize, 4);
    pos, written, chunks := base, 0, [];
    for k := 0 to |vs|
      invariant pos == WrittenOffset(base, vs, k) && written == pos - base
      invariant chunks == Chunks(base, vs, k)
    {
      if !vs[k].m.hasCodeItem {
        continue;
      }
      var length := 0;
      if vs[k].Compiled() && vs[k].Method().code == [] {
        length := |vs[k].Method().vmap|;
      }
      chunks := chunks + [Chunk(pos, Length(k), 4)];
      pos := pos + 4;
      chunks := chunks + [Chunk(pos, Data(k), length)];
      pos := pos + length;
      written := written + 4 + length;
    }
  }

  /* ---- Agreement ---- */

  /** The info of visit `k` begins where its header says. */
  ghost predicate FoundAsRecorded(base: nat, vs: seq<Visit>, k: nat)
    requires k < |vs|
  {
    exists i :: 0 <= i < |Chunks(base, vs, |vs|)| &&
      Chunks(base, vs, |vs|)[i] == Chunk(Word(Recorded(base, vs, k)), Data(k), |Info(vs[k])|)
  }

  /** The first `n` methods with quickening info have a code item. */
  predicate HaveCodeItems(vs: seq<Visit>, n: nat)
    requires n <= |vs|
  {
    forall k :: 0 <= k < n && Info(vs[k]) != [] ==> vs[k].m.hasCodeItem
  }

  /** Quickening info begins below 4 GiB. */
  ghost predicate AreNear(base: nat, vs: seq<Visit>) {
    forall k :: 0 <= k < |vs| && Info(vs[k]) != [] ==> Recorded(base, vs, k) < TWO_32
  }

  /** The header of every method with quickening info points at it exactly when
      all such methods have a code item and all info begins below 4 GiB: the
      planning pass also counts the info of a method without a code item, the
      writing pass does not, and headers have 32 bits. */
  lemma {:induction false} RecordedOffsetsAreRightIff(base: nat, vs: seq<Visit>)
    ensures (forall k :: 0 <= k < |vs| && Info(vs[k]) != [] ==> FoundAsRecorded(base, vs, k)) <==>
            HaveCodeItems(vs, |vs|) && AreNear(base, vs)
  {
    if HaveCodeItems(vs, |vs|) {
      forall k | 0 <= k < |vs| && Info(vs[k]) != []
        ensures FoundAsRecorded(base, vs, k) <==> Recorded(base, vs, k) < TWO_32
      {
        FoundIff(base, vs, k);
      }
    } else {
      var k :| 0 <= k < |vs| && Info(vs[k]) != [] && !vs[k].m.hasCodeItem;
      NoDataOf(base, vs, |vs|, k);
      assert !FoundAsRecorded(base, vs, k);
    }
  }

  lemma {:induction false} FoundIff(base: nat, vs: seq<Visit>, k: nat)
    requires k < |vs| && Info(vs[k]) != [] && HaveCodeItems(vs, |vs|)
    ensures FoundAsRecorded(base, vs, k) <==> Recorded(base, vs, k) < TWO_32
  {
    PassesDiffer(base, vs, k);
    NothingIsMissing(vs, k);
    var i := DataOf(base, vs, |vs|, k);
    if j :| 0 <= j < |Chunks(base, vs, |vs|)| &&
            Chunks(base, vs, |vs|)[j] == Chunk(Word(Recorded(base, vs, k)), Data(k), |Info(vs[k])|) {
      DataIsAt(base, vs, |vs|, k, j);
    }
  }

  /** The bytes of info that only the planning pass counts. */
  function Missing(vs: seq<Visit>, n: nat): nat
    requires n <= |vs|
  {
    if n == 0 then 0
    else Missing(vs, n - 1) + if vs[n - 1].m.hasCodeItem then 0 else |Info(vs[n - 1])|
  }

  lemma {:induction false} PassesDiffer(base: nat, vs: seq<Visit>, n: nat)
    requires n <= |vs|
    ensures PlannedOffset(base, vs, n) == WrittenOffset(base, vs, n) + Missing(vs, n)
  {
    if n > 0 {
      PassesDiffer(base, vs, n - 1);
    }
  }

  lemma {:induction false} NothingIsMissing(vs: seq<Visit>, n: nat)
    requires n <= |vs|
    ensures Missing(vs, n) == 0 <==> HaveCodeItems(vs, n)
  {
    if n > 0 {
      NothingIsMissing(vs, n - 1);
    }
  }

  /** Both passes end at one offset exactly when that is a 32-bit number and what
      only one of them counts is a multiple of 4 GiB, such as nothing. */
  lemma {:induction false} EndsAgreeIff(base: nat, vs: seq<Visit>)
    ensures Word(PlannedOffset(base, vs, |vs|)) == WrittenOffset(base, vs, |vs|) <==>
            WrittenOffset(base, vs, |vs|) < TWO_32 && Word(Missing(vs, |vs|)) == 0
  {
    PassesDiffer(base, vs, |vs|);
    var w, m := WrittenOffset(base, vs, |vs|), Missing(vs, |vs|);
    WordSum(m, w);
    if w < TWO_32 && Word(w + m) == w {
      ModShift(m, 0, TWO_32);
      WordSum(w + m, -w);
    }
  }

  lemma {:induction false} DataOf(base: nat, vs: seq<Visit>, n: nat, k: nat) returns (i: nat)
    requires k < n <= |vs| && vs[k].m.hasCodeItem
    ensures 0 < i < |Chunks(base, vs, n)|
    ensures Chunks(base, vs, n)[i - 1] == Chunk(WrittenOffset(base, vs, k), Length(k), 4)
    ensures Chunks(base, vs, n)[i] == Chunk(WrittenOffset(base, vs, k) + 4, Data(k), |Info(vs[k])|)
    decreases n
  {
    if k == n - 1 {
      i := |Chunks(base, vs, n - 1)| + 1;
    } else {
      i := DataOf(base, vs, n - 1, k);
    }
  }

  ghost predicate HasData(chunks: seq<Chunk>, k: nat) {
    exists i :: 0 <= i < |chunks| && chunks[i].content == Data(k)
  }

  lemma {:induction false} NoDataOf(base: nat, vs: seq<Visit>, n: nat, k: nat)
    requires n <= |vs| && k < |vs| && !vs[k].m.hasCodeItem
    ensures !HasData(Chunks(base, vs, n), k)
  {
    if n > 0 {
      NoDataOf(base, vs, n - 1, k);
    }
  }

  lemma {:induction false} DataIsAt(base: nat, vs: seq<Visit>, n: nat, k: nat, i: nat)
    requires n <= |vs| && k < |vs| && i < |Chunks(base, vs, n)| && Chunks(base, vs, n)[i].content == Data(k)
    ensures Chunks(base, vs, n)[i].pos == WrittenOffset(base, vs, k) + 4
    decreases n
  {
    if i < |Chunks(base, vs, n - 1)| {
      DataIsAt(base, vs, n - 1, k, i);
    }
  }

  /** The header of a quickened method holds the position of its data. */
  ghost predicate HeaderFinds(vs: seq<Visit>, headers: map<(nat, nat), nat>, chunks: seq<Chunk>, k: nat)
    requires k < |vs|
  {
    vs[k].Key() in headers &&
    exists i :: 0 <= i < |chunks| && chunks[i] == Chunk(headers[vs[k].Key()], Data(k), |Info(vs[k])|)
  }

  /** Both passes over one vdex file: the info is written first, and the offset
      it begins at is handed to the code planning pass. */
  method WriteAndPlanQuickening(vdexSize: nat, vs: seq<Visit>)
      returns (headers: map<(nat, nat), nat>, planned: nat, pos: nat, chunks: seq<Chunk>)
    requires DistinctKeys(vs)
    ensures chunks == Chunks(RoundUp(vdexSize, 4), vs, |vs|)
    ensures (forall k :: 0 <= k < |vs| && Info(vs[k]) != [] ==> HeaderFinds(vs, headers, chunks, k)) <==>
            HaveCodeItems(vs, |vs|) && AreNear(RoundUp(vdexSize, 4), vs)
    ensures planned == pos <==> pos < TWO_32 && Word(Missing(vs, |vs|)) == 0
  {
    var base, written;
    base, pos, written, chunks := WriteQuickening(vdexSize, vs);
    planned, headers := PlanQuickening(base, vs);
    RecordedOffsetsAreRightIff(base, vs);
    EndsAgreeIff(base, vs);
    forall k | 0 <= k < |vs| && Info(vs[k]) != []
      ensures HeaderFinds(vs, headers, chunks, k) <==> FoundAsRecorded(base, vs, k)
    {
      assert vs[k].Compiled() && vs[k].Method().code == [];
    }
  }

  /** A quickened method without a code item: its header points at nothing, and
      the passes end apart. */
  method QuickenWithoutCodeItem() returns (headers: map<(nat, nat), nat>, planned: nat, pos: nat, chunks: seq<Chunk>)
    ensures chunks == [] && (0, 0) in headers && planned == pos + 1
  {
    var v := Visit(0, 0, DexMethod(0, false, Some(CompiledMethod(Arm, 0, [], 0, [7], 0, [], 0))));
    var base, written;
    base, pos, written, chunks := WriteQuickening(0, [v]);
    planned, headers := PlanQuickening(base, [v]);
    RoundUpUnique(0, 4, 0);
    assert PlannedOffset(0, [v], 0) == 0 && WrittenOffset(0, [v], 0) == 0 && Chunks(0, [v], 0) == [];
    assert PlannedOffset(0, [v], 1) == 1 && v.Key() in headers;
  }

  /* ---- What a reader finds ---- */

  /** Methods that share a quickening array by address share its contents. */
  ghost predicate VmapsAreShared(vs: seq<Visit>) {
    forall i, j :: 0 <= i < |vs| && 0 <= j < |vs| && vs[i].Compiled() && vs[j].Compiled() ==>
      SameVmap(vs[i].Method(), vs[j].Method())
  }

  predicate SameVmap(a: CompiledMethod, b: CompiledMethod) {
    a.vmapPtr == b.vmapPtr ==> a.vmap == b.vmap
  }

  /** From the code offset of a quickened method, duplicate or not: the header in
      the file before that offset, whose visit is `r`, holds the position of bytes
      in the vdex file that are the method's own info. */
  lemma {:induction false} ReaderFindsInfo(
    cfg: OatCode.Config, file: nat, base: nat, vdexBase: nat, vs: seq<Visit>, k: nat) returns (r: nat, i: nat)
    requires k < |vs| && vs[k].Compiled() && vs[k].Method().code == [] && vs[k].Method().vmap != []
    requires OatCode.KeysIdentifyCode(cfg, vs) && VmapsAreShared(vs)
    requires HaveCodeItems(vs, |vs|) && AreNear(vdexBase, vs)
    ensures r < |vs| && vs[r].Compiled() && vs[r].Method().vmap == vs[k].Method().vmap && vs[r].Method().code == []
    ensures exists j :: 0 <= j < |Chunks(vdexBase, vs, |vs|)| &&
              Chunks(vdexBase, vs, |vs|)[j] == Chunk(Word(Recorded(vdexBase, vs, r)), Data(r), |vs[k].Method().vmap|)
    ensures var chunks := OatCode.PlannedChunks(cfg, file, base, vs, |vs|);
            && i + 1 < |chunks| && chunks[i].content == OatCode.Header(r)
            && chunks[i].pos + OatCode.HEADER + vs[k].Method().isa.CodeDelta() ==
               file + OatCode.PlanOf(cfg, base, vs, |vs|).offsets[k]
  {
    r, i := OatCode.MethodFindsItsCode(cfg, file, base, vs, k);
    if cfg.debuggable {
      OatCode.UnrememberedIsNew(cfg, base, vs, k);
    } else {
      assert SameVmap(vs[r].Method(), vs[k].Method());
    }
    RecordedOffsetsAreRightIff(vdexBase, vs);
    assert Info(vs[r]) == vs[k].Method().vmap && FoundAsRecorded(vdexBase, vs, r);
  }
}
