/** Stack maps and method infos in an oat file: planned once per distinct array,
    stored in the method header relative to the code, and recovered from there
    by the writing pass. */
module OatMaps {
  import opened Util
  import opened OatVisits

  /** The two tables have the same two passes. */
  datatype Kind = Vmap | MethodInfo

  datatype Table = Table(ptr: nat, bytes: seq<Byte>)

  /** The table a visit has to emit. With the vdex file enabled, the vmap of a
      method without code is quickening info and goes there. */
  function TableOf(kind: Kind, v: Visit): Option<Table> {
    if !v.Compiled() then None
    else
      var m := v.Method();
      match kind
      case Vmap => if m.code != [] && m.vmap != [] then Some(Table(m.vmapPtr, m.vmap)) else None
      case MethodInfo => if m.info != [] then Some(Table(m.infoPtr, m.info)) else None
  }

  /** The bytes that the compiler made for the method of a visit. */
  function Own(kind: Kind, v: Visit): seq<Byte>
    requires v.Compiled()
  {
    if kind.Vmap? then v.Method().vmap else v.Method().info
  }

  /** There are such bytes, and they belong into the oat file. */
  predicate Needs(kind: Kind, v: Visit) {
    v.Compiled() && Own(kind, v) != [] && (kind.Vmap? ==> v.Method().code != [])
  }

  ghost predicate PointersIdentifyTables(kind: Kind, vs: seq<Visit>) {
    forall i, j :: 0 <= i < |vs| && 0 <= j < |vs| ==> SameTable(TableOf(kind, vs[i]), TableOf(kind, vs[j]))
  }

  ghost predicate SameTable(a: Option<Table>, b: Option<Table>) {
    a.Some? && b.Some? && a.value.ptr == b.value.ptr ==> a == b
  }

  /* ---- Offsets in a header are 32-bit and relative to the code ---- */

  function Wrap(x: int): nat {
    x % TWO_32
  }

  /** SetVmapTableOffset(0u - offset), before the code has its place. */
  function Unplaced(offset: nat): nat {
    Wrap(0 - offset)
  }

  /** The planning pass for code adds the code offset to a value that is set. */
  function Relative(unplaced: nat, code: nat): nat {
    if unplaced == 0 then 0 else Wrap(unplaced + code)
  }

  /** The writing pass turns it back into an offset from the oat header. */
  function Absolute(quickCodeOffset: nat, delta: nat, relative: nat): nat {
    Wrap(quickCodeOffset - delta - relative)
  }

  /** A table before the code comes back at the offset it was planned at, and
      the stored value is below the code offset exactly for such tables. */
  lemma {:induction false} OffsetRoundTrip(offset: nat, code: nat, delta: nat)
    requires 0 < offset < TWO_32 && 0 < code && code + delta < TWO_32
    ensures Unplaced(offset) != 0
    ensures Absolute(code + delta, delta, Relative(Unplaced(offset), code)) == offset
    ensures Relative(Unplaced(offset), code) < code <==> offset <= code
    ensures offset < code ==> Relative(Unplaced(offset), code) == code - offset != 0
  {
    assert Unplaced(offset) == TWO_32 - offset;
  }

  /* ---- The passes ---- */

  datatype Chunk = Chunk(pos: nat, visit: nat, bytes: seq<Byte>)

  /** `offsets` has an entry per visit, None where nothing is emitted. */
  datatype Plan = Plan(offset: nat, known: map<nat, nat>, offsets: seq<Option<nat>>)

  function PlanVisit(kind: Kind, p: Plan, v: Visit): Plan {
    match TableOf(kind, v)
    case None => p.(offsets := p.offsets + [None])
    case Some(t) =>
      if t.ptr in p.known then p.(offsets := p.offsets + [Some(p.known[t.ptr])])
      else Plan(p.offset + |t.bytes|, p.known[t.ptr := p.offset], p.offsets + [Some(p.offset)])
  }

  function PlanOf(kind: Kind, base: nat, vs: seq<Visit>, n: nat): (p: Plan)
    requires n <= |vs|
    ensures |p.offsets| == n
  {
    if n == 0 then Plan(base, map[], []) else PlanVisit(kind, PlanOf(kind, base, vs, n - 1), vs[n - 1])
  }

  predicate IsNew(kind: Kind, base: nat, vs: seq<Visit>, k: nat)
    requires k < |vs|
  {
    var t := TableOf(kind, vs[k]);
    t.Some? && t.value.ptr !in PlanOf(kind, base, vs, k).known
  }

  function PlannedChunks(kind: Kind, file: nat, base: nat, vs: seq<Visit>, n: nat): seq<Chunk>
    requires n <= |vs|
  {
    if n == 0 then []
    else
      PlannedChunks(kind, file, base, vs, n - 1) +
      if IsNew(kind, base, vs, n - 1)
      then [Chunk(file + PlanOf(kind, base, vs, n - 1).offset, n - 1, TableOf(kind, vs[n - 1]).value.bytes)]
      else []
  }

  /** InitMapMethodVisitor and InitMethodInfoVisitor: the header fields are set
      to the negated offsets. */
  method PlanMaps(kind: Kind, base: nat, vs: seq<Visit>) returns (end: nat, fields: map<(nat, nat), nat>)
    requires DistinctKeys(vs)
    ensures end == PlanOf(kind, base, vs, |vs|).offset
    ensures forall k :: 0 <= k < |vs| && vs[k].Compiled() ==>
              vs[k].Key() in fields && fields[vs[k].Key()] == Field(PlanOf(kind, base, vs, |vs|).offsets[k])
  {
    end, fields := base, map[];
    var dedupe: map<nat, nat> := map[];
    for k := 0 to |vs|
      invariant Plan(end, dedupe, PlanOf(kind, base, vs, k).offsets) == PlanOf(kind, base, vs, k)
      invariant forall j :: 0 <= j < k && vs[j].Compiled() ==>
                  vs[j].Key() in fields && fields[vs[j].Key()] == Field(PlanOf(kind, base, vs, k).offsets[j])
    {
      if vs[k].Compiled() {
        fields := fields[vs[k].Key() := 0];
        var t := TableOf(kind, vs[k]);
        if t.Some? {
          if t.value.ptr !in dedupe {
            dedupe := dedupe[t.value.ptr := end];
            end := end + |t.value.bytes|;
          }
          fields := fields[vs[k].Key() := Unplaced(dedupe[t.value.ptr])];
        }
      }
    }
  }

  function Field(offset: Option<nat>): nat {
    if offset.None? then 0 else Unplaced(offset.value)
  }

  /** WriteMapMethodVisitor and WriteMethodInfoVisitor, on the header fields as
      the code pass left them: a table is new when it belongs right here. */
  method WriteMaps(kind: Kind, file: nat, base: nat, vs: seq<Visit>,
                   headers: map<(nat, nat), nat>, codeOffsets: map<(nat, nat), nat>)
      returns (end: nat, pos: nat, chunks: seq<Chunk>)
    requires HeadersReady(kind, base, vs, headers, codeOffsets)
    requires PointersIdentifyTables(kind, vs) && base > 0
    ensures end == PlanOf(kind, base, vs, |vs|).offset && pos == file + end
    ensures chunks == PlannedChunks(kind, file, base, vs, |vs|)
  {
    end, pos, chunks := base, file + base, [];
    for k := 0 to |vs|
      invariant end == PlanOf(kind, base, vs, k).offset && pos == file + end
      invariant chunks == PlannedChunks(kind, file, base, vs, k)
    {
      if vs[k].Compiled() {
        assert HeaderReady(kind, base, vs, headers, codeOffsets, k);
        var here := BelongsHere(
          kind, base, vs, k, headers[vs[k].Key()], codeOffsets[vs[k].Key()], end, headers, codeOffsets);
        if here {
          var bytes := TableOf(kind, vs[k]).value.bytes;
          chunks := chunks + [Chunk(pos, k, bytes)];
          pos := pos + |bytes|;
          end := end + |bytes|;
        }
      }
    }
  }

  /** The test of the writing pass for visit `k`, on its header field. */
  method BelongsHere(kind: Kind, base: nat, vs: seq<Visit>, k: nat, field: nat, codeOffset: nat, end: nat,
                     ghost headers: map<(nat, nat), nat>, ghost codeOffsets: map<(nat, nat), nat>)
      returns (here: bool)
    requires k < |vs| && vs[k].Compiled() && HeaderReady(kind, base, vs, headers, codeOffsets, k)
    requires PointersIdentifyTables(kind, vs) && base > 0
    requires field == headers[vs[k].Key()] && codeOffset == codeOffsets[vs[k].Key()]
    requires end == PlanOf(kind, base, vs, k).offset
    ensures here <==> IsNew(kind, base, vs, k)
  {
    OffsetIsPlanned(kind, base, vs, k);
    HeaderDecodes(kind, base, vs, headers, codeOffsets, k);
    here := false;
    if field != 0 && !(kind.Vmap? && vs[k].Method().code == []) {
      var mapOffset := Absolute(codeOffset, vs[k].Method().isa.CodeDelta(), field);
      here := mapOffset == end;
    }
  }

  /** The header field and the code offset of visit `k` when maps are written:
      the field is relative to code that lies after the tables. */
  ghost predicate HeaderReady(kind: Kind, base: nat, vs: seq<Visit>,
                              headers: map<(nat, nat), nat>, codeOffsets: map<(nat, nat), nat>, k: nat)
    requires k < |vs| && vs[k].Compiled()
  {
    var key, delta, offset := vs[k].Key(), vs[k].Method().isa.CodeDelta(), PlanOf(kind, base, vs, |vs|).offsets[k];
    && key in headers && key in codeOffsets
    && (offset.None? ==> (kind.Vmap? && vs[k].Method().code == []) || headers[key] == 0)
    && (offset.Some? ==>
          && delta < codeOffsets[key] < TWO_32
          && offset.value < codeOffsets[key] - delta
          && headers[key] == Relative(Unplaced(offset.value), codeOffsets[key] - delta))
  }

  ghost predicate HeadersReady(kind: Kind, base: nat, vs: seq<Visit>,
                               headers: map<(nat, nat), nat>, codeOffsets: map<(nat, nat), nat>) {
    forall k :: 0 <= k < |vs| && vs[k].Compiled() ==> HeaderReady(kind, base, vs, headers, codeOffsets, k)
  }

  lemma {:induction false} OffsetsAreStable(kind: Kind, base: nat, vs: seq<Visit>, k: nat, n: nat)
    requires k < n <= |vs|
    ensures PlanOf(kind, base, vs, n).offsets[k] == PlanOf(kind, base, vs, k + 1).offsets[k]
    decreases n
  {
    if k + 1 < n {
      OffsetsAreStable(kind, base, vs, k, n - 1);
    }
  }

  /** A known table was planned at some earlier visit and lies below the offset. */
  lemma {:induction false} KnownLiesBelow(kind: Kind, base: nat, vs: seq<Visit>, n: nat, ptr: nat) returns (r: nat)
    requires n <= |vs| && ptr in PlanOf(kind, base, vs, n).known
    ensures r < n && IsNew(kind, base, vs, r) && TableOf(kind, vs[r]).value.ptr == ptr
    ensures var o := PlanOf(kind, base, vs, n).known[ptr];
            && o == PlanOf(kind, base, vs, r).offset >= base
            && o + |TableOf(kind, vs[r]).value.bytes| <= PlanOf(kind, base, vs, n).offset
    decreases n
  {
    PlanGrows(kind, base, vs, 0, n - 1);
    if ptr in PlanOf(kind, base, vs, n - 1).known {
      r := KnownLiesBelow(kind, base, vs, n - 1, ptr);
    } else {
      r := n - 1;
    }
  }

  lemma {:induction false} PlanGrows(kind: Kind, base: nat, vs: seq<Visit>, m: nat, n: nat)
    requires m <= n <= |vs|
    ensures PlanOf(kind, base, vs, m).offset <= PlanOf(kind, base, vs, n).offset
    decreases n
  {
    if m < n {
      PlanGrows(kind, base, vs, m, n - 1);
    }
  }

  /** A visit has an offset when it has a table, from the base on, and the
      offset is the running one exactly when the table is new. */
  lemma {:induction false} OffsetIsPlanned(kind: Kind, base: nat, vs: seq<Visit>, k: nat)
    requires k < |vs| && PointersIdentifyTables(kind, vs)
    ensures var o := PlanOf(kind, base, vs, |vs|).offsets[k];
            && (o.Some? <==> TableOf(kind, vs[k]).Some?)
            && (o.Some? ==> base <= o.value)
            && (o.Some? ==> o.value + |TableOf(kind, vs[k]).value.bytes| <= PlanOf(kind, base, vs, |vs|).offset)
            && (o.Some? ==> (o.value == PlanOf(kind, base, vs, k).offset <==> IsNew(kind, base, vs, k)))
  {
    OffsetsAreStable(kind, base, vs, k, |vs|);
    PlanGrows(kind, base, vs, 0, k);
    PlanGrows(kind, base, vs, k + 1, |vs|);
    var t := TableOf(kind, vs[k]);
    if t.Some? && !IsNew(kind, base, vs, k) {
      var r := KnownLiesBelow(kind, base, vs, k, t.value.ptr);
      assert SameTable(TableOf(kind, vs[r]), t);
    }
  }

  /** The writing pass recovers the planned offset from the header. */
  lemma {:induction false} HeaderDecodes(kind: Kind, base: nat, vs: seq<Visit>,
                headers: map<(nat, nat), nat>, codeOffsets: map<(nat, nat), nat>, k: nat)
    requires k < |vs| && vs[k].Compiled() && PointersIdentifyTables(kind, vs) && base > 0
    requires HeaderReady(kind, base, vs, headers, codeOffsets, k)
    ensures var o := PlanOf(kind, base, vs, |vs|).offsets[k];
            o.Some? ==>
              && 0 < headers[vs[k].Key()] < codeOffsets[vs[k].Key()]
              && Absolute(codeOffsets[vs[k].Key()], vs[k].Method().isa.CodeDelta(), headers[vs[k].Key()]) == o.value
  {
    var o, delta := PlanOf(kind, base, vs, |vs|).offsets[k], vs[k].Method().isa.CodeDelta();
    OffsetIsPlanned(kind, base, vs, k);
    if o.Some? {
      OffsetRoundTrip(o.value, codeOffsets[vs[k].Key()] - delta, delta);
    }
  }

  lemma {:induction false} KnownStays(kind: Kind, base: nat, vs: seq<Visit>, ptr: nat, m: nat, n: nat)
    requires m <= n <= |vs| && ptr in PlanOf(kind, base, vs, m).known
    ensures ptr in PlanOf(kind, base, vs, n).known
    decreases n
  {
    if m < n {
      KnownStays(kind, base, vs, ptr, m, n - 1);
    }
  }

  /** A table is new only once. */
  lemma {:induction false} TablesAreNewOnce(kind: Kind, base: nat, vs: seq<Visit>, r: nat, n: nat)
    requires r < |vs| && n < |vs| && IsNew(kind, base, vs, r) && IsNew(kind, base, vs, n)
    requires TableOf(kind, vs[r]).value.ptr == TableOf(kind, vs[n]).value.ptr
    ensures r == n
  {
    if r < n {
      KnownStays(kind, base, vs, TableOf(kind, vs[r]).value.ptr, r + 1, n);
    } else if n < r {
      KnownStays(kind, base, vs, TableOf(kind, vs[n]).value.ptr, n + 1, r);
    }
  }

  /** A chunk of table `t`. */
  predicate Holds(kind: Kind, vs: seq<Visit>, c: Chunk, t: Option<Table>) {
    c.visit < |vs| && TableOf(kind, vs[c.visit]) == t
  }

  /** The bytes of every table that a method needs are in the file exactly once, at
      the offset planned for all methods that share it; the first of them writes
      it. */
  lemma {:induction false} MethodFindsItsTable(kind: Kind, file: nat, base: nat, vs: seq<Visit>, k: nat)
      returns (r: nat, i: nat)
    requires k < |vs| && Needs(kind, vs[k]) && PointersIdentifyTables(kind, vs)
    ensures r <= k && IsNew(kind, base, vs, r) && TableOf(kind, vs[r]) == TableOf(kind, vs[k])
    ensures var chunks, o := PlannedChunks(kind, file, base, vs, |vs|), PlanOf(kind, base, vs, |vs|).offsets[k];
            && o.Some? && i < |chunks| && chunks[i] == Chunk(file + o.value, r, Own(kind, vs[k]))
            && forall j :: 0 <= j < |chunks| ==> (Holds(kind, vs, chunks[j], TableOf(kind, vs[k])) <==> j == i)
  {
    OffsetsAreStable(kind, base, vs, k, |vs|);
    if IsNew(kind, base, vs, k) {
      r := k;
    } else {
      r := KnownLiesBelow(kind, base, vs, k, TableOf(kind, vs[k]).value.ptr);
      assert SameTable(TableOf(kind, vs[r]), TableOf(kind, vs[k]));
    }
    i := ChunkOf(kind, file, base, vs, |vs|, r);
    var chunks := PlannedChunks(kind, file, base, vs, |vs|);
    forall j | 0 <= j < |chunks| && Holds(kind, vs, chunks[j], TableOf(kind, vs[k])) ensures j == i {
      ChunksAreOfNew(kind, file, base, vs, |vs|, j);
      TablesAreNewOnce(kind, base, vs, r, chunks[j].visit);
    }
  }

  lemma {:induction false} ChunksAreOfNew(kind: Kind, file: nat, base: nat, vs: seq<Visit>, n: nat, j: nat)
    requires n <= |vs| && j < |PlannedChunks(kind, file, base, vs, n)|
    ensures PlannedChunks(kind, file, base, vs, n)[j].visit < n
    ensures IsNew(kind, base, vs, PlannedChunks(kind, file, base, vs, n)[j].visit)
  {
    if j < |PlannedChunks(kind, file, base, vs, n - 1)| {
      ChunksAreOfNew(kind, file, base, vs, n - 1, j);
    }
  }

  /** Chunk `c` of visit `r` stands at `i` and no other chunk is that visit's. */
  ghost predicate Once(chunks: seq<Chunk>, r: nat, i: nat, c: Chunk) {
    i < |chunks| && chunks[i] == c && forall j :: 0 <= j < |chunks| && chunks[j].visit == r ==> j == i
  }

  ghost predicate Earlier(chunks: seq<Chunk>, n: nat) {
    forall j :: 0 <= j < |chunks| ==> chunks[j].visit < n
  }

  lemma {:induction false} PlannedEarlier(kind: Kind, file: nat, base: nat, vs: seq<Visit>, n: nat)
    requires n <= |vs|
    ensures Earlier(PlannedChunks(kind, file, base, vs, n), n)
  {
    if n > 0 {
      PlannedEarlier(kind, file, base, vs, n - 1);
    }
  }

  lemma {:induction false} ChunkOf(kind: Kind, file: nat, base: nat, vs: seq<Visit>, n: nat, r: nat) returns (i: nat)
    requires r < n <= |vs| && IsNew(kind, base, vs, r)
    ensures Once(PlannedChunks(kind, file, base, vs, n), r, i,
                 Chunk(file + PlanOf(kind, base, vs, r).offset, r, TableOf(kind, vs[r]).value.bytes))
    decreases n
  {
    var before := PlannedChunks(kind, file, base, vs, n - 1);
    if r == n - 1 {
      PlannedEarlier(kind, file, base, vs, n - 1);
      i := |before|;
    } else {
      i := ChunkOf(kind, file, base, vs, n - 1, r);
    }
  }
}
