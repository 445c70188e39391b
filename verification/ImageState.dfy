/** The state of the object walk, its invariant, and the proof that giving one
    more object a bin slot keeps it. */
module ImageState {
  import opened Util
  import opened ImageBins
  import opened ImageHeap
  import N = ImageNative

  datatype Slot = Slot(oatIndex: nat, bin: Bin, index: nat)

  /** The writer's fields, with two that only the proofs use: the slots behind
      the lock words, and the objects whose references have been visited. */
  datatype State = State(
    lockWords: map<nat, LockWord>, saved: map<nat, nat>, oatIndex: map<nat, nat>,
    natives: N.Natives, imageEnds: seq<nat>, interned: seq<map<string, nat>>,
    refs: Graph, stack: seq<(nat, nat)>,
    slots: map<nat, Slot>, walked: set<nat>)

  /* ---- Lock words ---- */

  /** An object with a slot holds the packed slot in its lock word, and its hash
      code, if it had one, is saved; other lock words are untouched. */
  ghost predicate Marked(w: World, s: State, o: nat)
    requires o in w.locks
  {
    && o in s.lockWords
    && if o in s.slots then
         && s.lockWords[o] == Forwarding(Pack(s.slots[o].bin, s.slots[o].index))
         && o in s.oatIndex && s.oatIndex[o] == s.slots[o].oatIndex
         && (o in s.saved <==> w.locks[o].HashCode?) && (o in s.saved ==> w.locks[o] == HashCode(s.saved[o]))
       else s.lockWords[o] == w.locks[o] && o !in s.saved && o !in s.oatIndex
  }

  ghost predicate Marks(w: World, s: State) {
    && (forall o {:trigger Marked(w, s, o)} :: o in w.locks ==> Marked(w, s, o))
    && s.saved.Keys <= w.locks.Keys
    && (forall o :: o in s.slots ==> o in w.objects && o !in w.boot)
  }

  /* ---- Slots ---- */

  function Extent(w: World, o: nat): nat
    requires o in w.objects
  {
    RoundUp(w.objects[o].size, OBJECT_ALIGNMENT)
  }

  ghost predicate InBin(w: World, s: State, o: nat)
    requires N.Shaped(s.natives.sizes) && o in s.slots && o in w.objects
  {
    var slot := s.slots[o];
    && slot.oatIndex < |s.natives.sizes| && slot.bin == BinOf(w.objects[o].kind) && slot.index % 8 == 0
    && slot.index + Extent(w, o) <= s.natives.sizes[slot.oatIndex][slot.bin]
  }

  ghost predicate Apart(w: World, o: nat, a: Slot, p: nat, b: Slot)
    requires o in w.objects && p in w.objects
  {
    a.oatIndex == b.oatIndex && a.bin == b.bin ==>
      a.index + Extent(w, o) <= b.index || b.index + Extent(w, p) <= a.index
  }

  /** Mirror bins hold whole aligned objects and add up to the image end. */
  ghost predicate ImageAdds(w: World, s: State, k: nat)
    requires N.Shaped(s.natives.sizes) && k < |s.natives.sizes| && k < |s.imageEnds|
  {
    && s.imageEnds[k] == w.begin + Sum(s.natives.sizes[k], 6)
    && forall b :: 0 <= b < 6 ==> s.natives.sizes[k][b] % 8 == 0
  }

  ghost predicate LaidOut(w: World, s: State) {
    && N.Shaped(s.natives.sizes) && |s.natives.sizes| == |s.imageEnds| == w.images
    && (forall o {:trigger InBin(w, s, o)} :: o in s.slots && o in w.objects ==> InBin(w, s, o))
    && (forall o, p {:trigger Apart(w, o, s.slots[o], p, s.slots[p])} ::
          o in s.slots && o in w.objects && p in s.slots && p in w.objects && o != p ==>
            Apart(w, o, s.slots[o], p, s.slots[p]))
    && (forall k {:trigger ImageAdds(w, s, k)} :: 0 <= k < w.images ==> ImageAdds(w, s, k))
  }

  /* ---- Native data ---- */

  ghost predicate HasNatives(w: World, s: State, o: nat)
    requires o in w.objects && o in s.slots
  {
    w.objects[o].kind.Class? ==> N.HasClass(w.native, s.natives, o, w.objects[o].kind.data, s.slots[o].oatIndex)
  }

  ghost predicate Owned(s: State, p: N.Ptr) {
    p.OfClass() ==> p.klass in s.slots
  }

  ghost predicate NativesOk(w: World, s: State) {
    && N.Good(w.native, s.natives) && N.HasDexCaches(w.native, s.natives)
    && (forall p {:trigger Owned(s, p)} :: p in s.natives.relocations ==> Owned(s, p))
    && (forall o {:trigger HasNatives(w, s, o)} :: o in s.slots && o in w.objects ==> HasNatives(w, s, o))
  }

  /* ---- Strings ---- */

  /** Table `k` holds a string for `c` with a slot in image `k`, no other table
      holds one, and the boot image does not. */
  ghost predicate Entry(w: World, s: State, k: nat, c: string)
    requires k < |s.interned| && c in s.interned[k]
  {
    var o := s.interned[k][c];
    && o in s.slots && o in w.objects && w.objects[o].kind == Str(c) && InBoot(w, c).None?
    && s.slots[o].oatIndex == k
    && forall j :: 0 <= j < |s.interned| && j != k ==> c !in s.interned[j]
  }

  ghost predicate IsFound(w: World, s: State, o: nat)
    requires o in w.objects
  {
    w.objects[o].kind.Str? ==> Find(w, s.interned, w.objects[o].kind.content).Some?
  }

  ghost predicate StringsOk(w: World, s: State) {
    && |s.interned| == w.images
    && (forall k, c {:trigger Entry(w, s, k, c)} :: 0 <= k < |s.interned| && c in s.interned[k] ==> Entry(w, s, k, c))
    && (forall o {:trigger IsFound(w, s, o)} :: o in s.slots && o in w.objects ==> IsFound(w, s, o))
  }

  /* ---- Images of objects ---- */

  /** A reason to try `o` in image `k`: it is a root of that image, an object of
      that image refers to it, or `k` is the default and the boot image does. */
  ghost predicate Asks(w: World, s: State, o: nat, k: nat) {
    || (o, k) in w.roots
    || (k == w.defaultImage && BootRefers(w, o))
    || exists p :: p in s.slots && p in w.graph && Some(o) in w.graph[p] && s.slots[p].oatIndex == k
  }

  /** Classes and dex caches go to the image of their dex file, other objects
      where they are tried first. */
  ghost predicate BelongsTo(w: World, s: State, o: nat, k: nat)
    requires o in w.objects
  {
    if w.objects[o].kind.Class? || w.objects[o].kind.DexCache? then k == w.objects[o].home else Asks(w, s, o, k)
  }

  ghost predicate AtHome(w: World, s: State, o: nat)
    requires o in w.objects && o in s.slots
  {
    BelongsTo(w, s, o, s.slots[o].oatIndex)
  }

  ghost predicate AllAtHome(w: World, s: State) {
    forall o {:trigger AtHome(w, s, o)} :: o in s.slots && o in w.objects ==> AtHome(w, s, o)
  }

  /* ---- References ---- */

  /** What becomes of a reference: null and boot image references stay, others
      point at slotted objects, and strings give way to the interned one. */
  ghost predicate Fixed(w: World, s: State, before: Option<nat>, after: Option<nat>) {
    if before.None? || before.value in w.boot then after == before
    else
      && before.value in s.slots && before.value in w.objects
      && after == Redirect(w, s, before.value)
  }

  ghost function Redirect(w: World, s: State, o: nat): Option<nat>
    requires o in w.objects
  {
    var kind := w.objects[o].kind;
    if kind.Str? && Find(w, s.interned, kind.content).Some? then Find(w, s.interned, kind.content) else Some(o)
  }

  ghost predicate FixedUpTo(w: World, s: State, o: nat, n: nat)
    requires o in w.graph
  {
    && o in s.refs && |s.refs[o]| == |w.graph[o]| && n <= |w.graph[o]|
    && (forall i {:trigger s.refs[o][i]} :: 0 <= i < n ==> Fixed(w, s, w.graph[o][i], s.refs[o][i]))
    && (forall i {:trigger s.refs[o][i]} :: n <= i < |w.graph[o]| ==> s.refs[o][i] == w.graph[o][i])
  }

  ghost function Done(w: World, s: State, o: nat): nat
    requires o in w.graph
  {
    if o in s.walked then |w.graph[o]| else 0
  }

  /** References of every object but the one being visited. */
  ghost predicate RefsOk(w: World, s: State, current: Option<nat>) {
    forall o {:trigger FixedUpTo(w, s, o, Done(w, s, o))} ::
      o in w.graph && current != Some(o) ==> FixedUpTo(w, s, o, Done(w, s, o))
  }

  /* ---- The work stack ---- */

  ghost predicate Waits(s: State, o: nat) {
    exists i :: 0 <= i < |s.stack| && s.stack[i].0 == o
  }

  ghost predicate StackOk(w: World, s: State) {
    && (forall i :: 0 <= i < |s.stack| ==>
          && s.stack[i].0 in s.slots && s.stack[i].0 !in s.walked
          && s.stack[i].1 == s.slots[s.stack[i].0].oatIndex < w.images)
    && (forall i, j :: 0 <= i < j < |s.stack| ==> s.stack[i].0 != s.stack[j].0)
    && (forall o {:trigger Waits(s, o)} :: o in s.slots && o !in s.walked ==> Waits(s, o))
    && (forall o :: o in s.walked ==> o in s.slots || o in w.boot)
  }

  ghost predicate AllReachable(w: World, s: State) {
    forall o {:trigger Reachable(w, o)} :: o in s.slots ==> Reachable(w, o)
  }

  ghost predicate Inv(w: World, s: State, current: Option<nat>) {
    && w.Valid() && Marks(w, s) && LaidOut(w, s) && NativesOk(w, s) && StringsOk(w, s)
    && RefsOk(w, s, current) && StackOk(w, s) && AllReachable(w, s) && AllAtHome(w, s)
  }

  /** From `s` to `t` slots and interned strings were only added. */
  ghost predicate Extends(w: World, s: State, t: State) {
    && (forall o :: o in s.slots ==> o in t.slots && t.slots[o] == s.slots[o])
    && (forall c {:trigger Find(w, t.interned, c)} :: Find(w, s.interned, c).Some? ==>
          Find(w, t.interned, c) == Find(w, s.interned, c))
  }

  /* ---- One more slot ---- */

  /** The state after `o` got the next slot of its bin in image `home`. */
  ghost function Slotted(
    w: World, s: State, o: nat, home: nat, interned: seq<map<string, nat>>, natives: N.Natives): State
    requires o in w.objects && o in w.locks
    requires N.Shaped(natives.sizes) && home < |natives.sizes| && home < |s.imageEnds|
  {
    var bin := BinOf(w.objects[o].kind);
    var index: nat := natives.sizes[home][bin];
    var end: nat := s.imageEnds[home] + Extent(w, o);
    s.(lockWords := s.lockWords[o := Forwarding(Pack(bin, index))],
       saved := if w.locks[o].HashCode? then s.saved[o := w.locks[o].hash] else s.saved,
       oatIndex := s.oatIndex[o := home],
       natives := natives.(sizes := Grown(natives.sizes, home, bin, Extent(w, o))),
       imageEnds := s.imageEnds[home := end],
       interned := interned,
       stack := s.stack + [(o, home)],
       slots := s.slots[o := Slot(home, bin, index)])
  }

  function Grown(sizes: seq<seq<nat>>, home: nat, bin: Bin, d: nat): (g: seq<seq<nat>>)
    requires home < |sizes| && |sizes[home]| == 13
    ensures |g| == |sizes|
  {
    var size: nat := sizes[home][bin] + d;
    var bins: seq<nat> := sizes[home][bin := size];
    sizes[home := bins]
  }

  /** `natives` is what the native part of a new object leaves. */
  ghost predicate NativeStep(w: World, s: State, o: nat, home: nat, natives: N.Natives)
    requires o in w.objects
  {
    if w.objects[o].kind.Class? then
      && N.Adds(w.native, s.natives, natives, o) && N.Good(w.native, natives)
      && N.HasClass(w.native, natives, o, w.objects[o].kind.data, home)
    else natives == s.natives
  }

  /** `interned` is what the string part of a new object leaves. */
  ghost predicate StringStep(w: World, s: State, o: nat, oatIndex: nat, interned: seq<map<string, nat>>)
    requires o in w.objects && oatIndex < |s.interned|
  {
    var kind := w.objects[o].kind;
    if kind.Str? && Find(w, s.interned, kind.content).None? then
      interned == Interned(s.interned, oatIndex, kind.content, o)
    else interned == s.interned
  }

  ghost predicate IsNew(w: World, s: State, o: nat) {
    o in w.objects && o in w.locks && o !in w.boot && o !in s.slots
  }

  lemma {:induction false} SlottedMarks(
    w: World, s: State, o: nat, home: nat, interned: seq<map<string, nat>>, natives: N.Natives)
    requires w.Valid() && Marks(w, s) && IsNew(w, s, o)
    requires N.Shaped(natives.sizes) && home < |natives.sizes| && home < |s.imageEnds|
    ensures Marks(w, Slotted(w, s, o, home, interned, natives))
  {
    var t := Slotted(w, s, o, home, interned, natives);
    forall p | p in w.locks ensures Marked(w, t, p) {
      assert Marked(w, s, p);
    }
  }

  lemma {:induction false} SlottedLaidOut(
    w: World, s: State, o: nat, home: nat, interned: seq<map<string, nat>>, natives: N.Natives)
    requires LaidOut(w, s) && IsNew(w, s, o) && home < w.images
    requires N.Grows(s.natives, natives)
    ensures LaidOut(w, Slotted(w, s, o, home, interned, natives))
  {
    SlottedInBin(w, s, o, home, interned, natives);
    SlottedApart(w, s, o, home, interned, natives);
    SlottedAdds(w, s, o, home, interned, natives);
  }

  lemma {:induction false} SlottedApart(
    w: World, s: State, o: nat, home: nat, interned: seq<map<string, nat>>, natives: N.Natives)
    requires LaidOut(w, s) && IsNew(w, s, o) && home < w.images
    requires N.Grows(s.natives, natives)
    ensures var t := Slotted(w, s, o, home, interned, natives);
            forall p, q {:trigger Apart(w, p, t.slots[p], q, t.slots[q])} ::
              p in t.slots && p in w.objects && q in t.slots && q in w.objects && p != q ==>
                Apart(w, p, t.slots[p], q, t.slots[q])
  {
    var t := Slotted(w, s, o, home, interned, natives);
    assert ImageAdds(w, s, home);
    forall p, q | p in t.slots && p in w.objects && q in t.slots && q in w.objects && p != q
      ensures Apart(w, p, t.slots[p], q, t.slots[q])
    {
      assert p != o ==> InBin(w, s, p);
      assert q != o ==> InBin(w, s, q);
      assert p != o && q != o ==> Apart(w, p, s.slots[p], q, s.slots[q]);
    }
  }

  lemma {:induction false} SlottedAdds(
    w: World, s: State, o: nat, home: nat, interned: seq<map<string, nat>>, natives: N.Natives)
    requires LaidOut(w, s) && IsNew(w, s, o) && home < w.images
    requires N.Grows(s.natives, natives)
    ensures var t := Slotted(w, s, o, home, interned, natives);
            && N.Shaped(t.natives.sizes) && |t.natives.sizes| == |t.imageEnds| == w.images
            && forall k {:trigger ImageAdds(w, t, k)} :: 0 <= k < w.images ==> ImageAdds(w, t, k)
  {
    var t := Slotted(w, s, o, home, interned, natives);
    forall k | 0 <= k < w.images ensures ImageAdds(w, t, k) {
      assert ImageAdds(w, s, k);
      SumsAgree(s.natives.sizes[k], natives.sizes[k], 6);
      if k == home {
        RoundUpAligned(w.objects[o].size, OBJECT_ALIGNMENT);
        OneBinGrows(natives.sizes[k], BinOf(w.objects[o].kind), Extent(w, o));
      }
    }
  }

  lemma {:induction false} OneBinGrows(sizes: seq<nat>, bin: nat, d: nat)
    requires |sizes| == 13 && bin < 6 && d % 8 == 0 && forall b :: 0 <= b < 6 ==> sizes[b] % 8 == 0
    ensures var end: nat := sizes[bin] + d;
            var next: seq<nat> := sizes[bin := end];
            Sum(next, 6) == Sum(sizes, 6) + d && forall b :: 0 <= b < 6 ==> next[b] % 8 == 0
  {
    SumUpdate(sizes, bin, d, 6);
    SumOfMultiples(sizes[bin], d, 8);
  }

  lemma {:induction false} SumsAgree(a: seq<nat>, b: seq<nat>, n: nat)
    requires n <= |a| && n <= |b| && forall i :: 0 <= i < n ==> a[i] == b[i]
    ensures Sum(a, n) == Sum(b, n)
  {
    if n > 0 {
      SumsAgree(a, b, n - 1);
    }
  }

  lemma {:induction false} SlottedInBin(
    w: World, s: State, o: nat, home: nat, interned: seq<map<string, nat>>, natives: N.Natives)
    requires LaidOut(w, s) && IsNew(w, s, o) && home < w.images
    requires N.Grows(s.natives, natives)
    ensures var t := Slotted(w, s, o, home, interned, natives);
            && N.Shaped(t.natives.sizes)
            && forall p {:trigger InBin(w, t, p)} :: p in t.slots && p in w.objects ==> InBin(w, t, p)
  {
    var t := Slotted(w, s, o, home, interned, natives);
    assert ImageAdds(w, s, home);
    forall p | p in t.slots && p in w.objects ensures InBin(w, t, p) {
      if p != o {
        assert InBin(w, s, p);
      }
    }
  }

  /** The native invariant does not look at mirror bins. */
  lemma {:induction false} MirrorBinsDoNotMatter(h: N.NativeHeap, n: N.Natives, home: nat, bin: Bin, d: nat)
    requires N.Good(h, n) && home < |n.sizes| && bin < ART_FIELD
    ensures N.Good(h, n.(sizes := Grown(n.sizes, home, bin, d)))
  {
    var m := n.(sizes := Grown(n.sizes, home, bin, d));
    forall p | p in m.relocations ensures N.InBin(h, m, p) {
      assert N.InBin(h, n, p);
    }
    forall p, q | p in m.relocations && q in m.relocations && p != q
      ensures N.Apart(h, p, m.relocations[p], q, m.relocations[q])
    {
      assert N.Apart(h, p, n.relocations[p], q, n.relocations[q]);
    }
    forall k | 0 <= k < |m.sizes| ensures N.AlignedSizes(h.ptr, m.sizes[k]) {
      assert N.AlignedSizes(h.ptr, n.sizes[k]);
    }
    forall imt | N.ImTable(imt) in m.relocations ensures N.HasMethodsOf(h, m, imt) {
      assert N.HasMethodsOf(h, n, imt);
    }
    forall id | N.RuntimeMethod(id) in m.relocations ensures N.HasTableOf(h, m, id) {
      assert N.HasTableOf(h, n, id);
    }
  }

  lemma {:induction false} ClassesDoNotSeeSizes(
    h: N.NativeHeap, n: N.Natives, sizes: seq<seq<nat>>, klass: nat, data: N.ClassData, oatIndex: nat)
    requires N.HasClass(h, n, klass, data, oatIndex)
    ensures N.HasClass(h, n.(sizes := sizes), klass, data, oatIndex)
  {
  }

  lemma {:induction false} SlottedNatives(
    w: World, s: State, o: nat, home: nat, interned: seq<map<string, nat>>, natives: N.Natives)
    requires NativesOk(w, s) && LaidOut(w, s) && IsNew(w, s, o) && home < w.images
    requires NativeStep(w, s, o, home, natives) && N.Grows(s.natives, natives)
    ensures NativesOk(w, Slotted(w, s, o, home, interned, natives))
  {
    var t := Slotted(w, s, o, home, interned, natives);
    MirrorBinsDoNotMatter(w.native, natives, home, BinOf(w.objects[o].kind), Extent(w, o));
    N.DexCachesStay(w.native, s.natives, t.natives, |w.native.dexFiles|);
    forall p | p in t.natives.relocations ensures Owned(t, p) {
      assert p in s.natives.relocations ==> Owned(s, p);
    }
    forall p | p in t.slots && p in w.objects ensures HasNatives(w, t, p) {
      if p != o {
        assert HasNatives(w, s, p);
        if w.objects[p].kind.Class? {
          N.ClassesStay(w.native, s.natives, natives, p, w.objects[p].kind.data, s.slots[p].oatIndex);
        }
      }
      if w.objects[p].kind.Class? {
        ClassesDoNotSeeSizes(w.native, natives, t.natives.sizes, p, w.objects[p].kind.data, t.slots[p].oatIndex);
      }
    }
  }

  /** What was found is still found; the new string is found too. */
  lemma {:induction false} SlottedFinds(
    w: World, s: State, o: nat, oatIndex: nat, interned: seq<map<string, nat>>, c: string)
    requires o in w.objects && oatIndex < |s.interned| && StringStep(w, s, o, oatIndex, interned)
    ensures Find(w, s.interned, c).Some? ==> Find(w, interned, c) == Find(w, s.interned, c)
    ensures w.objects[o].kind == Str(c) ==> Find(w, interned, c).Some?
  {
    var kind := w.objects[o].kind;
    if kind.Str? && Find(w, s.interned, kind.content).None? {
      InterningChangesOne(s.interned, oatIndex, kind.content, o, c, 0);
    }
  }

  lemma {:induction false} SlottedStrings(
    w: World, s: State, o: nat, home: nat, oatIndex: nat, interned: seq<map<string, nat>>, natives: N.Natives)
    requires StringsOk(w, s) && IsNew(w, s, o) && home < |s.imageEnds| && oatIndex < w.images
    requires StringStep(w, s, o, oatIndex, interned) && N.Shaped(natives.sizes) && home < |natives.sizes|
    requires w.objects[o].kind.Str? ==> home == oatIndex
    ensures StringsOk(w, Slotted(w, s, o, home, interned, natives))
  {
    var t := Slotted(w, s, o, home, interned, natives);
    forall p | p in t.slots && p in w.objects ensures IsFound(w, t, p) {
      if w.objects[p].kind.Str? {
        SlottedFinds(w, s, o, oatIndex, interned, w.objects[p].kind.content);
        assert p != o ==> IsFound(w, s, p);
      }
    }
    forall k, c | 0 <= k < |t.interned| && c in t.interned[k] ensures Entry(w, t, k, c) {
      SlottedEntry(w, s, o, home, oatIndex, interned, natives, k, c);
    }
  }

  lemma {:induction false} SlottedEntry(
    w: World, s: State, o: nat, home: nat, oatIndex: nat, interned: seq<map<string, nat>>, natives: N.Natives,
    k: nat, c: string)
    requires StringsOk(w, s) && IsNew(w, s, o) && home < |s.imageEnds| && oatIndex < w.images
    requires StringStep(w, s, o, oatIndex, interned) && N.Shaped(natives.sizes) && home < |natives.sizes|
    requires w.objects[o].kind.Str? ==> home == oatIndex
    requires k < |interned| && c in interned[k]
    ensures Entry(w, Slotted(w, s, o, home, interned, natives), k, c)
  {
    FindInHolds(s.interned, c, 0);
    assert c in s.interned[k] ==> Entry(w, s, k, c);
  }

  lemma {:induction false} ExtendsKeepsFixed(w: World, s: State, t: State, before: Option<nat>, after: Option<nat>)
    requires Fixed(w, s, before, after) && StringsOk(w, s) && Extends(w, s, t)
    ensures Fixed(w, t, before, after)
  {
    if before.Some? && before.value !in w.boot {
      assert IsFound(w, s, before.value);
    }
  }

  /** Finished references stay finished while the walk goes on. */
  lemma {:induction false} ExtendsKeepsRefs(w: World, s: State, t: State, current: Option<nat>)
    requires RefsOk(w, s, current) && StringsOk(w, s) && Extends(w, s, t)
    requires t.refs == s.refs && t.walked == s.walked
    ensures RefsOk(w, t, current)
  {
    forall o | o in w.graph && current != Some(o)
      ensures FixedUpTo(w, t, o, Done(w, t, o))
    {
      var n := Done(w, t, o);
      assert FixedUpTo(w, s, o, Done(w, s, o));
      ExtendsKeepsFixedUpTo(w, s, t, o, n);
    }
  }

  lemma {:induction false} ExtendsKeepsFixedUpTo(w: World, s: State, t: State, o: nat, n: nat)
    requires o in w.graph && FixedUpTo(w, s, o, n) && StringsOk(w, s) && Extends(w, s, t) && t.refs == s.refs
    ensures FixedUpTo(w, t, o, n)
  {
    forall i | 0 <= i < n ensures Fixed(w, t, w.graph[o][i], t.refs[o][i]) {
      ExtendsKeepsFixed(w, s, t, w.graph[o][i], s.refs[o][i]);
    }
  }

  lemma {:induction false} SlottedStack(
    w: World, s: State, o: nat, home: nat, interned: seq<map<string, nat>>, natives: N.Natives)
    requires StackOk(w, s) && IsNew(w, s, o) && home < w.images
    requires N.Shaped(natives.sizes) && home < |natives.sizes| && home < |s.imageEnds|
    ensures StackOk(w, Slotted(w, s, o, home, interned, natives))
  {
    var t := Slotted(w, s, o, home, interned, natives);
    forall p | p in t.slots && p !in t.walked ensures Waits(t, p) {
      if p == o {
        assert t.stack[|s.stack|].0 == o;
      } else {
        assert Waits(s, p);
        var i :| 0 <= i < |s.stack| && s.stack[i].0 == p;
        assert t.stack[i].0 == p;
      }
    }
  }

  lemma {:induction false} SlottedExtends(
    w: World, s: State, o: nat, home: nat, oatIndex: nat, interned: seq<map<string, nat>>, natives: N.Natives)
    requires IsNew(w, s, o) && oatIndex < |s.interned| && StringStep(w, s, o, oatIndex, interned)
    requires N.Shaped(natives.sizes) && home < |natives.sizes| && home < |s.imageEnds|
    ensures Extends(w, s, Slotted(w, s, o, home, interned, natives))
  {
    forall c | Find(w, s.interned, c).Some? ensures Find(w, interned, c) == Find(w, s.interned, c) {
      SlottedFinds(w, s, o, oatIndex, interned, c);
    }
  }

  lemma {:induction false} SlottedReachable(
    w: World, s: State, o: nat, home: nat, interned: seq<map<string, nat>>, natives: N.Natives)
    requires AllReachable(w, s) && Reachable(w, o) && IsNew(w, s, o)
    requires N.Shaped(natives.sizes) && home < |natives.sizes| && home < |s.imageEnds|
    ensures AllReachable(w, Slotted(w, s, o, home, interned, natives))
  {
  }

  lemma {:induction false} SlottedAtHome(
    w: World, s: State, o: nat, home: nat, interned: seq<map<string, nat>>, natives: N.Natives)
    requires AllAtHome(w, s) && IsNew(w, s, o) && BelongsTo(w, s, o, home)
    requires N.Shaped(natives.sizes) && home < |natives.sizes| && home < |s.imageEnds|
    ensures AllAtHome(w, Slotted(w, s, o, home, interned, natives))
  {
    var t := Slotted(w, s, o, home, interned, natives);
    forall p | p in t.slots && p in w.objects ensures AtHome(w, t, p) {
      if p != o {
        assert AtHome(w, s, p);
      }
      AsksOn(w, s, t, p, t.slots[p].oatIndex);
    }
  }

  /** More slots leave the reasons as they are. */
  lemma {:induction false} AsksOn(w: World, s: State, t: State, o: nat, k: nat)
    requires forall p :: p in s.slots ==> p in t.slots && t.slots[p] == s.slots[p]
    ensures Asks(w, s, o, k) ==> Asks(w, t, o, k)
  {
    if p :| p in s.slots && p in w.graph && Some(o) in w.graph[p] && s.slots[p].oatIndex == k {
      assert t.slots[p].oatIndex == k;
    }
  }

  /** The image of a new object, by kind. */
  function HomeOf(w: World, o: nat, oatIndexHint: nat): nat
    requires o in w.objects
  {
    if w.objects[o].kind.Class? || w.objects[o].kind.DexCache? then w.objects[o].home else oatIndexHint
  }

  /** A new slot keeps the whole invariant. */
  lemma {:induction false} SlottedInv(
    w: World, s: State, o: nat, home: nat, oatIndex: nat, interned: seq<map<string, nat>>, natives: N.Natives,
    current: Option<nat>)
    requires Inv(w, s, current) && IsNew(w, s, o) && home < w.images && oatIndex < w.images && Reachable(w, o)
    requires home == HomeOf(w, o, oatIndex) && Asks(w, s, o, oatIndex)
    requires NativeStep(w, s, o, home, natives) && StringStep(w, s, o, oatIndex, interned)
    requires N.Grows(s.natives, natives)
    ensures Inv(w, Slotted(w, s, o, home, interned, natives), current)
  {
    SlottedExtends(w, s, o, home, oatIndex, interned, natives);
    ExtendsKeepsRefs(w, s, Slotted(w, s, o, home, interned, natives), current);
    SlottedMarks(w, s, o, home, interned, natives);
    SlottedLaidOut(w, s, o, home, interned, natives);
    SlottedNatives(w, s, o, home, interned, natives);
    SlottedStrings(w, s, o, home, oatIndex, interned, natives);
    SlottedStack(w, s, o, home, interned, natives);
    SlottedReachable(w, s, o, home, interned, natives);
    SlottedAtHome(w, s, o, home, interned, natives);
  }

  /* ---- Offsets ---- */

  /** Where an object ends up in its image. */
  ghost function Offset(w: World, s: State, o: nat): nat
    requires o in s.slots && N.Shaped(s.natives.sizes) && s.slots[o].oatIndex < |s.natives.sizes|
  {
    BinOffset(w.begin, w.native.ptr, s.natives.sizes[s.slots[o].oatIndex], s.slots[o].bin) + s.slots[o].index
  }

  /** No mirror bin reaches 2^27 bytes. */
  ghost predicate BinsAreSmall(s: State) {
    && N.Shaped(s.natives.sizes)
    && forall k, b :: 0 <= k < |s.natives.sizes| && 0 <= b < 6 ==> s.natives.sizes[k][b] < INDEX_LIMIT
  }

  /** The lock word of `o` holds its offset. */
  ghost predicate HasOffset(w: World, s: State, lockWords: map<nat, LockWord>, o: nat) {
    && o in s.slots && N.Shaped(s.natives.sizes) && s.slots[o].oatIndex < |s.natives.sizes|
    && o in lockWords && lockWords[o] == Forwarding(Offset(w, s, o))
  }

  /** The slot in a lock word can be read back. */
  lemma {:induction false} SlotReadsBack(w: World, s: State, o: nat)
    requires LaidOut(w, s) && BinsAreSmall(s) && o in s.slots && o in w.objects && o in w.locks && Marked(w, s, o)
    ensures var word := s.lockWords[o].address; GetBin(word) == s.slots[o].bin && GetIndex(word) == s.slots[o].index
    ensures o in s.oatIndex && s.oatIndex[o] == s.slots[o].oatIndex < |s.natives.sizes|
  {
    assert InBin(w, s, o);
    SmallIndexFits(s.slots[o].index);
    SlotRoundTripIff(s.slots[o].bin, s.slots[o].index);
  }
}
