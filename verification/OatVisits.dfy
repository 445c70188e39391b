/** The methods of an oat file in the order all visitors see them, and the
    OatClass records that hold what the visitors compute. */
module OatVisits {
  import opened Util

  datatype InstructionSet = Arm | Arm64 | Thumb2 | Mips | Mips64 | X86 | X86_64 {
    function Alignment(): (a: nat)
      ensures a > 0
    {
      match this
      case Arm | Thumb2 | Mips | Mips64 => 8
      case Arm64 | X86 | X86_64 => 16
    }

    /** The low bit that sends a branch to Thumb mode. */
    function CodeDelta(): nat {
      if Thumb2? then 1 else 0
    }
  }

  /** Arrays come with their address: the compiler driver shares equal ones. */
  datatype CompiledMethod = CompiledMethod(
    isa: InstructionSet,
    codePtr: nat, code: seq<Byte>,
    vmapPtr: nat, vmap: seq<Byte>,
    infoPtr: nat, info: seq<Byte>,
    patchesPtr: nat)

  datatype DexMethod = DexMethod(ref: nat, hasCodeItem: bool, compiled: Option<CompiledMethod>)

  type DexClass = seq<DexMethod>

  /** The number of compiled methods among the first `i`. */
  function Rank(ms: DexClass, i: nat): (r: nat)
    requires i <= |ms|
    ensures r <= i
  {
    if i == 0 then 0 else Rank(ms, i - 1) + if ms[i - 1].compiled.Some? then 1 else 0
  }

  lemma {:induction false} RankCounts(ms: DexClass, i: nat)
    requires i <= |ms|
    ensures Rank(ms, i) == |set j | 0 <= j < i && ms[j].compiled.Some?|
  {
    if i > 0 {
      RankCounts(ms, i - 1);
      var before, now := set j | 0 <= j < i - 1 && ms[j].compiled.Some?, set j | 0 <= j < i && ms[j].compiled.Some?;
      assert now == if ms[i - 1].compiled.Some? then before + {i - 1} else before;
    }
  }

  lemma {:induction false} RankGrows(ms: DexClass, i: nat, j: nat)
    requires i <= j <= |ms|
    ensures Rank(ms, i) <= Rank(ms, j)
    ensures i < j && ms[i].compiled.Some? ==> Rank(ms, i) < Rank(ms, j)
    decreases j
  {
    if i < j {
      RankGrows(ms, i, j - 1);
    }
  }

  /* ---- The visiting order ---- */

  /** One call of VisitMethod; `slot` is the visitor's method_offsets_index_. */
  datatype Visit = Visit(classIndex: nat, slot: nat, m: DexMethod) {
    predicate Compiled() { m.compiled.Some? }
    function Method(): CompiledMethod
      requires Compiled()
    {
      m.compiled.value
    }
    /** Where the visitor keeps this method's offsets and header. */
    function Key(): (nat, nat) { (classIndex, slot) }
  }

  function ClassVisits(c: nat, ms: DexClass, i: nat): (v: seq<Visit>)
    requires i <= |ms|
    ensures |v| == i
  {
    if i == 0 then [] else ClassVisits(c, ms, i - 1) + [Visit(c, Rank(ms, i - 1), ms[i - 1])]
  }

  function Visits(classes: seq<DexClass>, c: nat): seq<Visit>
    requires c <= |classes|
  {
    if c == 0 then [] else Visits(classes, c - 1) + ClassVisits(c - 1, classes[c - 1], |classes[c - 1]|)
  }

  /** VisitDexMethods with the counters of OatDexMethodVisitor: StartClass
      resets the slot, a compiled method advances it. */
  method VisitDexMethods(classes: seq<DexClass>) returns (visits: seq<Visit>)
    ensures visits == Visits(classes, |classes|) && VisitsAll(classes, visits)
  {
    visits := [];
    var oatClassIndex := 0;
    while oatClassIndex < |classes|
      invariant 0 <= oatClassIndex <= |classes|
      invariant visits == Visits(classes, oatClassIndex)
    {
      var ms := classes[oatClassIndex];
      var methodOffsetsIndex := 0;
      for i := 0 to |ms|
        invariant methodOffsetsIndex == Rank(ms, i)
        invariant visits == Visits(classes, oatClassIndex) + ClassVisits(oatClassIndex, ms, i)
      {
        visits := visits + [Visit(oatClassIndex, methodOffsetsIndex, ms[i])];
        if ms[i].compiled.Some? {
          methodOffsetsIndex := methodOffsetsIndex + 1;
        }
      }
      oatClassIndex := oatClassIndex + 1;
    }
    AllAreVisited(classes);
  }

  /** The number of methods in the first `c` classes. */
  function MethodsBefore(classes: seq<DexClass>, c: nat): nat
    requires c <= |classes|
  {
    if c == 0 then 0 else MethodsBefore(classes, c - 1) + |classes[c - 1]|
  }

  /** Every method of every class is visited once, class by class, with the
      number of compiled methods before it in its class as its slot. */
  ghost predicate VisitsAll(classes: seq<DexClass>, visits: seq<Visit>) {
    && |visits| == MethodsBefore(classes, |classes|)
    && forall c, i :: 0 <= c < |classes| && 0 <= i < |classes[c]| ==> IsVisited(classes, visits, c, i)
  }

  ghost predicate IsVisited(classes: seq<DexClass>, visits: seq<Visit>, c: nat, i: nat)
    requires c < |classes| && i < |classes[c]|
  {
    var n := MethodsBefore(classes, c) + i;
    n < |visits| && visits[n].classIndex == c && visits[n].m == classes[c][i] &&
    visits[n].slot == |set j | 0 <= j < i && classes[c][j].compiled.Some?|
  }

  lemma {:induction false} AllAreVisited(classes: seq<DexClass>)
    ensures VisitsAll(classes, Visits(classes, |classes|))
  {
    VisitsAreCounted(classes, |classes|);
    forall c, i | 0 <= c < |classes| && 0 <= i < |classes[c]|
      ensures IsVisited(classes, Visits(classes, |classes|), c, i)
    {
      VisitAt(classes, |classes|, c, i);
    }
  }

  lemma {:induction false} VisitsAreCounted(classes: seq<DexClass>, n: nat)
    requires n <= |classes|
    ensures |Visits(classes, n)| == MethodsBefore(classes, n)
  {
    if n > 0 {
      VisitsAreCounted(classes, n - 1);
    }
  }

  lemma {:induction false} VisitAt(classes: seq<DexClass>, n: nat, c: nat, i: nat)
    requires c < n <= |classes| && i < |classes[c]|
    ensures IsVisited(classes, Visits(classes, n), c, i)
    decreases n
  {
    VisitsAreCounted(classes, n - 1);
    if c < n - 1 {
      VisitAt(classes, n - 1, c, i);
    } else {
      ClassVisitAt(c, classes[c], |classes[c]|, i);
      RankCounts(classes[c], i);
    }
  }

  /** No two compiled methods share a key. */
  ghost predicate DistinctKeys(v: seq<Visit>) {
    forall i, j :: 0 <= i < j < |v| && v[i].Compiled() && v[j].Compiled() ==> v[i].Key() != v[j].Key()
  }

  lemma {:induction false} ClassVisitAt(c: nat, ms: DexClass, n: nat, i: nat)
    requires i < n <= |ms|
    ensures ClassVisits(c, ms, n)[i] == Visit(c, Rank(ms, i), ms[i])
    decreases n
  {
    if i < n - 1 {
      ClassVisitAt(c, ms, n - 1, i);
    }
  }

  lemma {:induction false} KeysAreDistinct(classes: seq<DexClass>, c: nat)
    requires c <= |classes|
    ensures DistinctKeys(Visits(classes, c))
    ensures forall i :: 0 <= i < |Visits(classes, c)| ==> Visits(classes, c)[i].classIndex < c
  {
    if c > 0 {
      KeysAreDistinct(classes, c - 1);
      var before, ms := Visits(classes, c - 1), classes[c - 1];
      var own := ClassVisits(c - 1, ms, |ms|);
      forall i | 0 <= i < |own| ensures own[i] == Visit(c - 1, Rank(ms, i), ms[i]) {
        ClassVisitAt(c - 1, ms, |ms|, i);
      }
      forall i, j | 0 <= i < j < |own| && own[i].Compiled() && own[j].Compiled()
        ensures own[i].Key() != own[j].Key()
      {
        RankGrows(ms, i, j);
      }
    }
  }

  /* ---- OatClass ---- */

  const STATUS_AND_TYPE: nat := 4     // sizeof(status_) + sizeof(type_)
  const BITMAP_SIZE_FIELD: nat := 4   // sizeof(method_bitmap_size_)

  /* An OatMethodOffsets entry takes four bytes. */

  datatype OatClassType = AllCompiled | SomeCompiled | NoneCompiled

  datatype OatClass = OatClass(
    offset: nat, classType: OatClassType, bitmapSize: nat, bitmap: set<nat>,
    offsetsFromClass: seq<nat>,   // per method, 0 if it is not compiled
    entries: nat)                 // |method_offsets_|
  {
    function SizeOf(): nat {
      STATUS_AND_TYPE + (if bitmapSize == 0 then 0 else BITMAP_SIZE_FIELD) + bitmapSize + 4 * entries
    }
  }

  /** Where the entries start in an OatClass for `ms`. */
  function EntriesStart(ms: DexClass): nat {
    var n := Rank(ms, |ms|);
    STATUS_AND_TYPE + if n == 0 || n == |ms| then 0 else BITMAP_SIZE_FIELD + 4 * ((|ms| + 31) / 32)
  }

  /** What a reader of the record relies on: compiled method `i` has entry
      number Rank(i), which lies inside the record; others have none. A bitmap has
      a bit for every method, in as few words as possible. */
  ghost predicate IsOatClass(ms: DexClass, o: OatClass) {
    && |o.offsetsFromClass| == |ms| && o.entries == Rank(ms, |ms|)
    && o.SizeOf() == EntriesStart(ms) + 4 * Rank(ms, |ms|)
    && (forall i :: 0 <= i < |ms| ==>
          o.offsetsFromClass[i] ==
            if ms[i].compiled.Some? then EntriesStart(ms) + 4 * Rank(ms, i) else 0)
    && (o.classType.NoneCompiled? <==> o.entries == 0)
    && (o.classType.AllCompiled? <==> o.entries == |ms| != 0)
    && (o.classType.SomeCompiled? ==> forall i :: i in o.bitmap <==> 0 <= i < |ms| && ms[i].compiled.Some?)
    && (o.classType.SomeCompiled? <==> o.bitmapSize != 0)
    && (o.classType.SomeCompiled? ==> o.bitmapSize % 4 == 0 && |ms| <= 8 * o.bitmapSize < |ms| + 32)
  }

  /** The OatClass constructor, on what InitOatClassesMethodVisitor counted. */
  method MakeOatClass(offset: nat, ms: DexClass, numCompiled: nat) returns (o: OatClass)
    requires numCompiled == Rank(ms, |ms|)
    ensures IsOatClass(ms, o) && o.offset == offset
  {
    var classType := if numCompiled == 0 then NoneCompiled
                     else if numCompiled == |ms| then AllCompiled else SomeCompiled;
    var position := STATUS_AND_TYPE;
    var bitmapSize := 0;
    if classType.SomeCompiled? {
      bitmapSize := 4 * ((|ms| + 31) / 32);
      position := position + BITMAP_SIZE_FIELD;
      position := position + bitmapSize;
    }
    var offsets, bitmap := PlaceEntries(ms, position, classType.SomeCompiled?);
    o := OatClass(offset, classType, bitmapSize, bitmap, offsets, numCompiled);
  }

  /** The loop over the methods of the class, from the first entry's position on. */
  method PlaceEntries(ms: DexClass, start: nat, withBitmap: bool) returns (offsets: seq<nat>, bitmap: set<nat>)
    ensures |offsets| == |ms|
    ensures forall i :: 0 <= i < |ms| ==>
              offsets[i] == if ms[i].compiled.Some? then start + 4 * Rank(ms, i) else 0
    ensures withBitmap ==> forall i :: i in bitmap <==> 0 <= i < |ms| && ms[i].compiled.Some?
  {
    offsets, bitmap := [], {};
    var position := start;
    for i := 0 to |ms|
      invariant position == start + 4 * Rank(ms, i)
      invariant |offsets| == i
      invariant forall j :: 0 <= j < i ==>
                  offsets[j] == if ms[j].compiled.Some? then start + 4 * Rank(ms, j) else 0
      invariant withBitmap ==> forall j :: j in bitmap <==> 0 <= j < i && ms[j].compiled.Some?
    {
      if ms[i].compiled.None? {
        offsets := offsets + [0];
      } else {
        offsets := offsets + [position];
        position := position + 4;
        if withBitmap {
          bitmap := bitmap + {i};
        }
      }
    }
  }

  /** A compiled method's entry is its own four bytes of the record. */
  lemma {:induction false} EntriesAreDisjoint(ms: DexClass, o: OatClass, i: nat, j: nat)
    requires IsOatClass(ms, o) && i < j < |ms| && ms[i].compiled.Some? && ms[j].compiled.Some?
    ensures 0 < o.offsetsFromClass[i] && o.offsetsFromClass[i] + 4 <= o.offsetsFromClass[j]
    ensures o.offsetsFromClass[j] + 4 <= o.SizeOf()
  {
    RankGrows(ms, i, j);
    RankGrows(ms, j, |ms|);
  }
}
