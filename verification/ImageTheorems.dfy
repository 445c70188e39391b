/** What the finished image guarantees: which objects are in it, where their
    references go, that nothing overlaps, that arrays are still arrays, and that
    no hash code is lost. */
module ImageTheorems {
  import opened Util
  import opened ImageBins
  import opened ImageHeap
  import opened ImageState
  import opened ImageWriter
  import D = DexCacheLayout
  import N = ImageNative

  /* ---- The walk ---- */

  lemma {:induction false} SlottedIsWalked(w: World, s: State, o: nat)
    requires Inv(w, s, None) && Walked(w, s) && o in s.slots
    ensures o in s.walked && o in w.graph && FixedUpTo(w, s, o, |w.graph[o]|)
  {
    assert o in s.walked || Waits(s, o);
    assert FixedUpTo(w, s, o, Done(w, s, o));
  }

  lemma {:induction false} NextIsSlotted(w: World, s: State, o: nat, next: nat)
    requires Inv(w, s, None) && Walked(w, s) && o in w.graph && Some(next) in w.graph[o] && next !in w.boot
    requires o in s.slots || (w.appImage && o in w.boot)
    ensures next in s.slots
  {
    var i :| 0 <= i < |w.graph[o]| && w.graph[o][i] == Some(next);
    if o in s.slots {
      SlottedIsWalked(w, s, o);
    } else {
      assert FixedUpTo(w, s, o, Done(w, s, o));
    }
    assert Fixed(w, s, w.graph[o][i], s.refs[o][i]);
  }

  /** The objects with a slot are exactly the objects outside the boot image
      that the walk's sources reach in the original heap. */
  lemma {:induction false} WalkIsExact(w: World, s: State, o: nat)
    requires Inv(w, s, None) && Walked(w, s)
    ensures o in s.slots <==> Reachable(w, o)
  {
    if Reachable(w, o) {
      var p :| IsPath(w, p) && p[|p| - 1] == o;
      forall x | Source(w, x) && x in w.graph && x !in w.boot ensures x in s.slots.Keys {
        if !exists r :: r in w.roots && r.0 == x {
          var b :| b in w.boot && b in w.graph && Some(x) in w.graph[b];
          NextIsSlotted(w, s, b, x);
        }
      }
      forall x, next | x in s.slots.Keys && x in w.graph && Some(next) in w.graph[x] && next !in w.boot
        ensures next in s.slots.Keys
      {
        NextIsSlotted(w, s, x, next);
      }
      ClosedHasReachable(w, s.slots.Keys, p);
    }
  }

  /** Every object is where it belongs: a class and a dex cache in the image of
      its dex file; any other object in an image it is a root of, or in the image
      of a reachable object that refers to it, or, if the boot image refers to it,
      in the default image. */
  lemma {:induction false} ObjectsGoHome(w: World, s: State, o: nat)
    requires Inv(w, s, None) && Walked(w, s) && Reachable(w, o)
    ensures o in s.slots && o in w.objects
    ensures var k, kind := s.slots[o].oatIndex, w.objects[o].kind;
            if kind.Class? || kind.DexCache? then k == w.objects[o].home
            else
              || (o, k) in w.roots
              || (k == w.defaultImage && BootRefers(w, o))
              || exists p :: p in s.slots && Reachable(w, p) && Some(o) in w.graph[p] && s.slots[p].oatIndex == k
  {
    WalkIsExact(w, s, o);
    assert AtHome(w, s, o);
  }

  /** The fields and methods of a class go with it. */
  lemma {:induction false} ClassDataGoesHome(w: World, s: State, o: nat)
    requires Inv(w, s, None) && Walked(w, s) && Reachable(w, o) && o in w.objects && w.objects[o].kind.Class?
    ensures var data, home, n := w.objects[o].kind.data, w.objects[o].home, s.natives.relocations;
            && (data.staticFields.Some? ==> IsIn(n, N.FieldArray(o, false), home))
            && (data.instanceFields.Some? ==> IsIn(n, N.FieldArray(o, true), home))
            && (data.staticFields.Some? ==> forall i :: 0 <= i < data.staticFields.value ==>
                  IsIn(n, N.Field(o, false, i), home))
            && (data.instanceFields.Some? ==> forall i :: 0 <= i < data.instanceFields.value ==>
                  IsIn(n, N.Field(o, true, i), home))
            && (data.dirty != [] ==> IsIn(n, N.MethodArray(o), home))
            && forall i :: 0 <= i < |data.dirty| ==> IsIn(n, N.Method(o, i), home)
  {
    ObjectsGoHome(w, s, o);
    assert HasNatives(w, s, o);
  }

  ghost predicate IsIn(n: map<N.Ptr, N.Relocation>, p: N.Ptr, image: nat) {
    p in n && n[p].oatIndex == image
  }

  /** An interned string of the images is in the image whose table has it. */
  lemma {:induction false} InternedGoWithTables(w: World, s: State, k: nat, c: string)
    requires Inv(w, s, None) && k < |s.interned| && c in s.interned[k]
    ensures var o := s.interned[k][c];
            && o in s.slots && s.slots[o].oatIndex == k && o in w.objects && w.objects[o].kind == Str(c)
            && Find(w, s.interned, c) == Some(o)
  {
    assert Entry(w, s, k, c);
    FindInHolds(s.interned, c, 0);
  }

  /** What a lookup finds is a string of that content, in the image or in the
      boot image. */
  lemma {:induction false} FoundIsThere(w: World, s: State, c: string)
    requires w.Valid() && StringsOk(w, s) && Find(w, s.interned, c).Some?
    ensures var x := Find(w, s.interned, c).value;
            && x in w.objects && w.objects[x].kind == Str(c) && (x in s.slots || x in w.boot)
            && (x in w.boot && x !in s.slots ==> InBoot(w, c) == Some(x))
            && (x !in w.boot ==> InBoot(w, c).None?)
  {
    FindInHolds(s.interned, c, 0);
    if FindIn(s.interned, c, 0).Some? {
      var k :| 0 <= k < |s.interned| && c in s.interned[k] && s.interned[k][c] == FindIn(s.interned, c, 0).value;
      assert Entry(w, s, k, c);
    }
  }

  /** No reference of a visited object leaves the images: each is null, in the
      boot image, or to an object with a slot. */
  lemma {:induction false} ReferencesStayInside(w: World, s: State, o: nat, i: nat)
    requires Inv(w, s, None) && Walked(w, s) && o in s.walked && o in w.graph && i < |w.graph[o]|
    ensures o in s.refs && |s.refs[o]| == |w.graph[o]|
    ensures s.refs[o][i].None? <==> w.graph[o][i].None?
    ensures s.refs[o][i].Some? ==> s.refs[o][i].value in s.slots || s.refs[o][i].value in w.boot
    ensures w.graph[o][i].Some? && s.refs[o][i] != w.graph[o][i] ==>
              var x, y := w.graph[o][i].value, s.refs[o][i].value;
              x in w.objects && y in w.objects && w.objects[x].kind.Str? && w.objects[x].kind == w.objects[y].kind
  {
    assert FixedUpTo(w, s, o, Done(w, s, o));
    var before := w.graph[o][i];
    assert Fixed(w, s, before, s.refs[o][i]);
    if before.Some? && before.value !in w.boot {
      var kind := w.objects[before.value].kind;
      if kind.Str? && Find(w, s.interned, kind.content).Some? {
        FoundIsThere(w, s, kind.content);
      }
    }
  }

  /** Is the reference `i` of `o` one to a string of content `c`? */
  ghost predicate ToString(w: World, o: nat, i: nat, c: string) {
    && o in w.graph && i < |w.graph[o]| && w.graph[o][i].Some?
    && w.graph[o][i].value in w.objects && w.objects[w.graph[o][i].value].kind == Str(c)
  }

  lemma {:induction false} StringGoesToFound(w: World, s: State, o: nat, i: nat, c: string)
    requires Inv(w, s, None) && Walked(w, s) && o in s.walked && ToString(w, o, i, c)
    ensures o in s.refs && i < |s.refs[o]|
    ensures if w.graph[o][i].value in w.boot then s.refs[o][i] == w.graph[o][i]
            else s.refs[o][i].Some? && s.refs[o][i] == Find(w, s.interned, c)
  {
    assert FixedUpTo(w, s, o, Done(w, s, o));
    var x := w.graph[o][i].value;
    assert Fixed(w, s, w.graph[o][i], s.refs[o][i]);
    if x !in w.boot {
      assert IsFound(w, s, x);
    }
  }

  /** References to equal strings outside the boot image end at one object, also
      if boot image objects hold them. */
  lemma {:induction false} EqualStringsMeet(w: World, s: State, o: nat, i: nat, p: nat, j: nat, c: string)
    requires Inv(w, s, None) && Walked(w, s) && o in s.walked && p in s.walked
    requires ToString(w, o, i, c) && w.graph[o][i].value !in w.boot
    requires ToString(w, p, j, c) && w.graph[p][j].value !in w.boot
    ensures o in s.refs && i < |s.refs[o]| && p in s.refs && j < |s.refs[p]| && s.refs[o][i] == s.refs[p][j]
  {
    StringGoesToFound(w, s, o, i, c);
    StringGoesToFound(w, s, p, j, c);
  }

  /** A boot image string and an equal string outside meet exactly when the boot
      image string is the interned one that an app image looks up. */
  lemma {:induction false} BootStringMeetsIff(w: World, s: State, o: nat, i: nat, p: nat, j: nat, c: string)
    requires Inv(w, s, None) && Walked(w, s) && o in s.walked && p in s.walked
    requires ToString(w, o, i, c) && w.graph[o][i].value in w.boot
    requires ToString(w, p, j, c) && w.graph[p][j].value !in w.boot
    ensures o in s.refs && i < |s.refs[o]| && p in s.refs && j < |s.refs[p]|
    ensures s.refs[o][i] == s.refs[p][j] <==> InBoot(w, c) == w.graph[o][i]
  {
    StringGoesToFound(w, s, o, i, c);
    StringGoesToFound(w, s, p, j, c);
    FoundIsThere(w, s, c);
    FindInHolds(s.interned, c, 0);
    if FindIn(s.interned, c, 0).Some? {
      var k :| 0 <= k < |s.interned| && c in s.interned[k] && s.interned[k][c] == FindIn(s.interned, c, 0).value;
      assert Entry(w, s, k, c);
    }
  }

  /** A heap with two equal strings, one of them in the boot image but not
      interned there, and an object that refers to both. */
  function TwoStrings(): World {
    World(map[0 := HeapObject(16, Str("a"), 0), 1 := HeapObject(16, Str("a"), 0), 2 := HeapObject(16, Other, 0)],
          map[0 := [], 1 := [], 2 := [Some(0), Some(1)]],
          map[0 := Unlocked, 1 := Unlocked, 2 := Unlocked],
          {0}, {(2, 0)}, true, map[], 1, 0, 8,
          N.NativeHeap(P64, _ => [], _ => None, _ => 0, _ => D.Counts(0, 0, 0, 0, 0, 0), []))
  }

  lemma {:induction false} TwoStringsAreValid(w: World)
    requires w == TwoStrings()
    ensures w.Valid()
  {
    assert w.objects.Keys == {0, 1, 2} == w.graph.Keys == w.locks.Keys;
    forall o | o in w.objects
      ensures w.objects[o].home < w.images && w.locks[o] == Unlocked
      ensures forall i :: 0 <= i < |w.graph[o]| && w.graph[o][i].Some? ==> w.graph[o][i].value in w.objects
    {
      assert o in {0, 1, 2};
    }
  }

  lemma {:induction false} TwoStringsFacts(w: World)
    requires w == TwoStrings()
    ensures w.Valid() && w.images == 1 && AreRoots(w, [], [Some(2)])
    ensures ToString(w, 2, 0, "a") && ToString(w, 2, 1, "a") && w.graph[2] == [Some(0), Some(1)]
    ensures 0 in w.boot && 1 !in w.boot && InBoot(w, "a").None? && Reachable(w, 2)
  {
    TwoStringsAreValid(w);
    assert Some(2) in [Some(2)];
    SourcesAreReachable(w, 2);
  }

  lemma {:induction false} TwoStringsStayApart(w: World, s: State)
    requires w == TwoStrings() && Inv(w, s, None) && Walked(w, s)
    ensures 2 in s.refs && |s.refs[2]| == 2 && s.refs[2][0] == Some(0) != s.refs[2][1]
  {
    TwoStringsFacts(w);
    TwoStringsWalked(w, s);
    assert 2 in s.walked && |s.refs[2]| == |w.graph[2]| == 2;
  }

  lemma {:induction false} TwoStringsWalked(w: World, s: State)
    requires Inv(w, s, None) && Walked(w, s) && Reachable(w, 2)
    requires ToString(w, 2, 0, "a") && ToString(w, 2, 1, "a")
             && w.graph[2][0].value in w.boot && w.graph[2][1].value !in w.boot
    requires InBoot(w, "a").None?
    ensures 2 in s.walked && 2 in s.refs && |s.refs[2]| == |w.graph[2]|
    ensures s.refs[2][0] == w.graph[2][0] && s.refs[2][0] != s.refs[2][1]
  {
    WalkIsExact(w, s, 2);
    SlottedIsWalked(w, s, 2);
    BootStringMeetsIff(w, s, 2, 0, 2, 1, "a");
    StringGoesToFound(w, s, 2, 0, "a");
  }

  /** Walking it leaves two different references to equal strings. */
  method WalkTwoStrings() returns (first: Option<nat>, second: Option<nat>)
    ensures first == Some(0) && second != first
  {
    var w := TwoStrings();
    TwoStringsFacts(w);
    var writer := new Writer(w, []);
    writer.AssignBinSlots([], [Some(2)]);
    TwoStringsStayApart(w, writer.Current());
    first, second := writer.refs[2][0], writer.refs[2][1];
  }

  /* ---- Layout ---- */

  /** Objects are aligned and lie between the header and the image end. */
  lemma {:induction false} ObjectsAreInside(w: World, s: State, o: nat)
    requires LaidOut(w, s) && o in s.slots && o in w.objects && w.begin % 8 == 0
    ensures s.slots[o].oatIndex < w.images && s.slots[o].bin < ART_FIELD
    ensures Offset(w, s, o) % 8 == 0
    ensures w.begin <= Offset(w, s, o) && Offset(w, s, o) + Extent(w, o) <= s.imageEnds[s.slots[o].oatIndex]
  {
    assert InBin(w, s, o);
    var k := s.slots[o].oatIndex;
    var sizes := s.natives.sizes[k];
    assert ImageAdds(w, s, k);
    MirrorBinsAreAligned(w.begin, w.native.ptr, sizes, s.slots[o].bin);
    MirrorBinsAreTight(w.begin, w.native.ptr, sizes, s.slots[o].bin);
    SumGrows(sizes, s.slots[o].bin + 1, 6);
  }

  /** Two objects of one image do not overlap. */
  lemma {:induction false} ObjectsAreApart(w: World, s: State, o: nat, p: nat)
    requires LaidOut(w, s) && o in s.slots && o in w.objects && p in s.slots && p in w.objects && o != p
    requires s.slots[o].oatIndex == s.slots[p].oatIndex
    ensures s.slots[o].oatIndex < |s.natives.sizes|
    ensures Offset(w, s, o) + Extent(w, o) <= Offset(w, s, p) || Offset(w, s, p) + Extent(w, p) <= Offset(w, s, o)
  {
    assert InBin(w, s, o) && InBin(w, s, p);
    assert Apart(w, o, s.slots[o], p, s.slots[p]);
    var sizes := s.natives.sizes[s.slots[o].oatIndex];
    if s.slots[o].bin < s.slots[p].bin {
      BinsAreApart(w.begin, w.native.ptr, sizes, s.slots[o].bin, s.slots[p].bin);
    } else if s.slots[p].bin < s.slots[o].bin {
      BinsAreApart(w.begin, w.native.ptr, sizes, s.slots[p].bin, s.slots[o].bin);
    }
  }

  /** Native data lies behind the image end, inside its bin. */
  lemma {:induction false} NativesAreBehind(w: World, s: State, p: N.Ptr)
    requires LaidOut(w, s) && NativesOk(w, s) && p in s.natives.relocations
    ensures var r := Moved(w, s.natives, p);
            && r.oatIndex < w.images && s.imageEnds[r.oatIndex] <= r.offset
            && var sizes := s.natives.sizes[r.oatIndex];
            && BinOffset(w.begin, w.native.ptr, sizes, r.kind.Bin()) <= r.offset
            && r.offset + N.SizeOf(w.native, p) <=
               BinOffset(w.begin, w.native.ptr, sizes, r.kind.Bin()) + sizes[r.kind.Bin()]
  {
    assert N.InBin(w.native, s.natives, p);
    var r := s.natives.relocations[p];
    assert ImageAdds(w, s, r.oatIndex);
    var sizes := s.natives.sizes[r.oatIndex];
    MirrorBinsAreTight(w.begin, w.native.ptr, sizes, ART_FIELD);
    if r.kind.Bin() > ART_FIELD {
      BinsAreApart(w.begin, w.native.ptr, sizes, ART_FIELD, r.kind.Bin());
    }
  }

  lemma {:induction false} NativesAreApart(w: World, s: State, p: N.Ptr, q: N.Ptr)
    requires LaidOut(w, s) && NativesOk(w, s) && p in s.natives.relocations && q in s.natives.relocations && p != q
    requires s.natives.relocations[p].oatIndex == s.natives.relocations[q].oatIndex
    ensures var r, t := Moved(w, s.natives, p), Moved(w, s.natives, q);
            r.offset + N.SizeOf(w.native, p) <= t.offset || t.offset + N.SizeOf(w.native, q) <= r.offset
  {
    NativesAreBehind(w, s, p);
    NativesAreBehind(w, s, q);
    var r, t := s.natives.relocations[p], s.natives.relocations[q];
    assert N.Apart(w.native, p, r, q, t);
    var sizes := s.natives.sizes[r.oatIndex];
    if r.kind.Bin() < t.kind.Bin() {
      BinsAreApart(w.begin, w.native.ptr, sizes, r.kind.Bin(), t.kind.Bin());
    } else if t.kind.Bin() < r.kind.Bin() {
      BinsAreApart(w.begin, w.native.ptr, sizes, t.kind.Bin(), r.kind.Bin());
    }
  }

  lemma {:induction false} AlignGivesUnits(ptr: PointerSize, b: Bin, x: nat)
    requires ART_FIELD < b && b != RUNTIME_METHOD
    ensures Align(ptr, b, x) % N.Unit(ptr, b) == 0
  {
    RoundUpAligned(x, N.Unit(ptr, b));
  }

  lemma {:induction false} RoundedBinIsAligned(begin: nat, ptr: PointerSize, sizes: seq<nat>, b: Bin)
    requires |sizes| == 13 && ART_FIELD < b && b != RUNTIME_METHOD
    ensures BinOffset(begin, ptr, sizes, b) % N.Unit(ptr, b) == 0
  {
    AlignGivesUnits(ptr, b, BinOffset(begin, ptr, sizes, b - 1) + sizes[b - 1]);
  }

  lemma {:induction false} RuntimeBinIsAligned(begin: nat, ptr: PointerSize, sizes: seq<nat>)
    requires |sizes| == 13 && sizes[IMT_CONFLICT_TABLE] % N.Unit(ptr, IMT_CONFLICT_TABLE) == 0
    ensures BinOffset(begin, ptr, sizes, RUNTIME_METHOD) % N.Unit(ptr, RUNTIME_METHOD) == 0
  {
    RoundedBinIsAligned(begin, ptr, sizes, IMT_CONFLICT_TABLE);
    SumOfMultiples(BinOffset(begin, ptr, sizes, IMT_CONFLICT_TABLE), sizes[IMT_CONFLICT_TABLE], ptr.Bytes());
  }

  lemma {:induction false} FieldBinIsAligned(begin: nat, ptr: PointerSize, sizes: seq<nat>)
    requires |sizes| == 13 && begin % 8 == 0 && forall m :: 0 <= m < 6 ==> sizes[m] % 8 == 0
    ensures BinOffset(begin, ptr, sizes, ART_FIELD) % N.Unit(ptr, ART_FIELD) == 0
  {
    MirrorBinsAreAligned(begin, ptr, sizes, ART_FIELD);
    EightsAreFours(BinOffset(begin, ptr, sizes, ART_FIELD));
  }

  lemma {:induction false} EightsAreFours(x: nat)
    requires x % 8 == 0
    ensures x % 4 == 0
  {
  }

  /** Native bins begin at the alignment of what they hold, the runtime method bin
      too, although nothing is rounded for it. */
  lemma {:induction false} NativeBinsAreAligned(begin: nat, ptr: PointerSize, sizes: seq<nat>, b: Bin)
    requires |sizes| == 13 && begin % 8 == 0 && ART_FIELD <= b
    requires (forall m :: 0 <= m < 6 ==> sizes[m] % 8 == 0) && N.AlignedSizes(ptr, sizes)
    ensures BinOffset(begin, ptr, sizes, b) % N.Unit(ptr, b) == 0
  {
    if b == ART_FIELD {
      FieldBinIsAligned(begin, ptr, sizes);
    } else if b == RUNTIME_METHOD {
      assert sizes[IMT_CONFLICT_TABLE] % N.Unit(ptr, IMT_CONFLICT_TABLE) == 0;
      RuntimeBinIsAligned(begin, ptr, sizes);
    } else {
      RoundedBinIsAligned(begin, ptr, sizes, b);
    }
  }

  /** Fields end up aligned to words, methods and tables to pointers, dex cache
      arrays to their elements. */
  lemma {:induction false} NativesAreAligned(w: World, s: State, p: N.Ptr)
    requires LaidOut(w, s) && NativesOk(w, s) && p in s.natives.relocations && w.begin % 8 == 0
    ensures var r := Moved(w, s.natives, p); r.offset % N.UnitOf(w.native.ptr, p, r.kind) == 0
  {
    assert N.InBin(w.native, s.natives, p);
    var r := s.natives.relocations[p];
    assert ImageAdds(w, s, r.oatIndex) && N.AlignedSizes(w.native.ptr, s.natives.sizes[r.oatIndex]);
    var offset := BinOffset(w.begin, w.native.ptr, s.natives.sizes[r.oatIndex], r.kind.Bin());
    NativeBinsAreAligned(w.begin, w.native.ptr, s.natives.sizes[r.oatIndex], r.kind.Bin());
    if p.DexCacheArray? {
      D.SumIsAligned(w.native.ptr, offset, r.offset, p.k);
    } else {
      SumOfMultiples(r.offset, offset, N.Unit(w.native.ptr, r.kind.Bin()));
    }
  }

  /** In the image, the arrays of every dex file are at the offsets of the layout
      from one start. */
  lemma {:induction false} DexCachesStayBlocks(w: World, s: State, i: nat) returns (start: nat)
    requires LaidOut(w, s) && NativesOk(w, s) && w.Valid() && i < |w.native.dexFiles|
    ensures var (file, image) := w.native.dexFiles[i];
            forall k: D.Which {:trigger N.DexCacheArray(file, k)} :: N.IsRelocated(w.native, file, k) ==>
              && N.DexCacheArray(file, k) in s.natives.relocations
              && Moved(w, s.natives, N.DexCacheArray(file, k)) ==
                 N.Relocation(image, start + D.ArrayOffset(w.native.ptr, w.native.dexCounts(file), k), N.TDexCacheArray)
  {
    var (file, image) := w.native.dexFiles[i];
    assert N.HasDexCache(w.native, s.natives, file, image);
    var from: nat :| N.DexCacheAt(w.native, s.natives, file, image, from);
    start := from + BinOffset(w.begin, w.native.ptr, s.natives.sizes[image], DEX_CACHE_ARRAY);
  }

  /** In the image, field `i` of a class lies where the array of its fields has
      its element `i`. */
  lemma {:induction false} FieldsStayArrays(w: World, s: State, o: nat, which: bool, i: nat)
    requires LaidOut(w, s) && NativesOk(w, s) && o in s.slots && o in w.objects && w.objects[o].kind.Class?
    requires var data := w.objects[o].kind.data;
             var count := if which then data.instanceFields else data.staticFields;
             count.Some? && i < count.value
    ensures N.FieldArray(o, which) in s.natives.relocations && N.Field(o, which, i) in s.natives.relocations
    ensures var a, field := Moved(w, s.natives, N.FieldArray(o, which)), Moved(w, s.natives, N.Field(o, which, i));
            && field.oatIndex == a.oatIndex == s.slots[o].oatIndex
            && field.offset == a.offset + N.FIELD_HEADER + N.FIELD_SIZE * i
  {
    assert HasNatives(w, s, o);
    assert N.InBin(w.native, s.natives, N.FieldArray(o, which));
  }

  /** The same for methods. */
  lemma {:induction false} MethodsStayArrays(w: World, s: State, o: nat, i: nat)
    requires LaidOut(w, s) && NativesOk(w, s) && o in s.slots && o in w.objects && w.objects[o].kind.Class?
    requires i < |w.objects[o].kind.data.dirty|
    ensures N.MethodArray(o) in s.natives.relocations && N.Method(o, i) in s.natives.relocations
    ensures var a, m := Moved(w, s.natives, N.MethodArray(o)), Moved(w, s.natives, N.Method(o, i));
            && m.oatIndex == a.oatIndex == s.slots[o].oatIndex
            && m.offset == a.offset + N.MethodHeader(w.native.ptr) + N.MethodSize(w.native.ptr) * i
  {
    assert HasNatives(w, s, o);
    assert N.InBin(w.native, s.natives, N.MethodArray(o));
    MethodOffsets(w.native.ptr, i);
  }

  lemma {:induction false} MethodOffsets(ptr: PointerSize, i: nat)
    ensures N.MethodPosition(ptr, i) == N.MethodHeader(ptr) + N.MethodSize(ptr) * i
  {
    if ptr.P32? {
      assert N.MethodSize(ptr) * i == 32 * i;
    } else {
      assert N.MethodSize(ptr) * i == 48 * i;
    }
  }

  /* ---- Addresses ---- */

  /** Image files end behind their image end. */
  ghost predicate Contains(s: State, ends: seq<nat>) {
    |ends| == |s.imageEnds| && forall k :: 0 <= k < |ends| ==> s.imageEnds[k] <= ends[k]
  }

  ghost function AddressIn(w: World, s: State, globalBegin: nat, ends: seq<nat>, o: nat): nat
    requires LaidOut(w, s) && Contains(s, ends) && o in s.slots && s.slots[o].oatIndex < w.images
  {
    ImageBegin(globalBegin, ends, s.slots[o].oatIndex) + Offset(w, s, o)
  }

  /** No two objects overlap in memory, whichever images they are in. */
  lemma {:induction false} AddressesAreApart(w: World, s: State, globalBegin: nat, ends: seq<nat>, o: nat, p: nat)
    requires LaidOut(w, s) && Contains(s, ends) && w.begin % 8 == 0
    requires o in s.slots && o in w.objects && p in s.slots && p in w.objects && o != p
    ensures s.slots[o].oatIndex < w.images && s.slots[p].oatIndex < w.images
    ensures var a, b := AddressIn(w, s, globalBegin, ends, o), AddressIn(w, s, globalBegin, ends, p);
            a + Extent(w, o) <= b || b + Extent(w, p) <= a
  {
    ObjectsAreInside(w, s, o);
    ObjectsAreInside(w, s, p);
    var j, k := s.slots[o].oatIndex, s.slots[p].oatIndex;
    if j == k {
      ObjectsAreApart(w, s, o, p);
    } else if j < k {
      ImagesAreApart(globalBegin, ends, j, k);
    } else {
      ImagesAreApart(globalBegin, ends, k, j);
    }
  }

  /** Copied references tell apart what the references told apart. */
  lemma {:induction false} AddressesAreFaithful(
    w: World, s: State, globalBegin: nat, ends: seq<nat>, begins: seq<nat>, a: Option<nat>, b: Option<nat>)
    requires LaidOut(w, s) && Contains(s, ends) && w.begin % 8 == 0
    requires |begins| == |ends| && forall k :: 0 <= k < |ends| ==> begins[k] == ImageBegin(globalBegin, ends, k)
    requires forall o :: o in w.objects ==> w.objects[o].size > 0
    requires a.Some? ==> a.value in w.boot || (a.value in s.slots && a.value in w.objects)
    requires b.Some? ==> b.value in w.boot || (b.value in s.slots && b.value in w.objects)
    ensures AddressOf(w, s, begins, a) == AddressOf(w, s, begins, b) <==> a == b
  {
    if a.Some? && a.value !in w.boot {
      ObjectsAreInside(w, s, a.value);
    }
    if b.Some? && b.value !in w.boot {
      ObjectsAreInside(w, s, b.value);
    }
    if a.Some? && b.Some? && a.value !in w.boot && b.value !in w.boot && a != b {
      AddressesAreApart(w, s, globalBegin, ends, a.value, b.value);
    }
  }

  /* ---- Hash codes ---- */

  /** The copy carries the lock word the original had before the walk. */
  lemma {:induction false} CopyKeepsHash(w: World, s: State, begins: seq<nat>, o: nat, copy: Copy)
    requires w.Valid() && Marks(w, s) && o in s.slots && IsCopy(w, s, begins, s.saved, s.refs, o, copy)
    ensures o in w.locks && copy.lockWord == w.locks[o]
  {
    assert Marked(w, s, o);
  }

  /** After copying, an original has its lock word back exactly when it had a
      hash code; without one it keeps the offset. */
  lemma {:induction false} OriginalIsRestoredIff(
    w: World, s: State, offsets: map<nat, LockWord>, final: map<nat, LockWord>, o: nat)
    requires w.Valid() && Marks(w, s) && o in s.slots && HasOffset(w, s, offsets, o)
    requires forall x :: x in s.saved ==> x in final && final[x] == HashCode(s.saved[x])
    requires forall x :: x in offsets && x !in s.saved ==> x in final && final[x] == offsets[x]
    ensures o in final && o in w.locks
    ensures final[o] == w.locks[o] <==> w.locks[o].HashCode?
  {
    assert Marked(w, s, o);
  }
}
