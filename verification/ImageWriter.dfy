/** The image writer: walks the heap from the roots with a work stack, gives
    every object it finds a bin slot and sends string references to the interned
    string, turns slots into offsets, and copies the objects. */
module ImageWriter {
  import opened Util
  import opened ImageBins
  import opened ImageHeap
  import opened ImageState
  import N = ImageNative

  /** All static fields final: the class is not expected to be dirtied. */
  method ChooseBin(k: Kind) returns (bin: Bin)
    ensures bin == BinOf(k)
    ensures bin == REGULAR <==> k.Other?
    ensures bin == STRING <==> k.Str?
    ensures bin == MISC_DIRTY <==> k.PlainObject? || k.DexCache?
    ensures bin == CLASS_VERIFIED <==> k.Class? && !k.initialized
    ensures bin == CLASS_INITIALIZED <==>
            k.Class? && k.initialized && exists i :: 0 <= i < |k.finals| && !k.finals[i]
    ensures bin == CLASS_INITIALIZED_FINAL_STATICS <==>
            k.Class? && k.initialized && forall i :: 0 <= i < |k.finals| ==> k.finals[i]
  {
    bin := REGULAR;
    match k
    case Class(initialized, finals, _) =>
      bin := CLASS_VERIFIED;
      if initialized {
        bin := CLASS_INITIALIZED;
        var allFinal := true;
        for i := 0 to |finals|
          invariant allFinal == (false !in finals[..i])
        {
          assert finals[..i + 1] == finals[..i] + [finals[i]];
          if !finals[i] {
            allFinal := false;
          }
        }
        assert finals[..|finals|] == finals;
        if allFinal {
          bin := CLASS_INITIALIZED_FINAL_STATICS;
        }
      }
    case Str(_) => bin := STRING;
    case PlainObject => bin := MISC_DIRTY;
    case DexCache => bin := MISC_DIRTY;
    case Other =>
  }

  /** The strings of the dex files, each in the image of its dex file, and the
      runtime's roots, in the default image, are the roots. */
  ghost predicate AreRoots(w: World, strings: seq<(Option<nat>, nat)>, roots: seq<Option<nat>>) {
    && AreHomed(w, strings)
    && (forall i :: 0 <= i < |roots| && roots[i].Some? ==> (roots[i].value, w.defaultImage) in w.roots)
    && (forall r :: r in w.roots ==> (Some(r.0), r.1) in strings || (Some(r.0) in roots && r.1 == w.defaultImage))
  }

  class Writer {
    const w: World
    var lockWords: map<nat, LockWord>
    var saved: map<nat, nat>
    var oatIndex: map<nat, nat>
    var natives: N.Natives
    var imageEnds: seq<nat>
    var interned: seq<map<string, nat>>
    var refs: Graph
    var stack: seq<(nat, nat)>
    ghost var slots: map<nat, Slot>
    ghost var walked: set<nat>

    ghost function Current(): State
      reads this
    {
      State(lockWords, saved, oatIndex, natives, imageEnds, interned, refs, stack, slots, walked)
    }

    /** Before the walk: lock words and references as they are, no slot. Image
        methods and dex cache arrays are placed; the arrays could as well be
        placed after the walk, since nothing else goes into their bin. */
    constructor (w: World, imageMethods: seq<nat>)
      requires w.Valid()
      requires forall i, j :: 0 <= i < j < |imageMethods| ==> imageMethods[i] != imageMethods[j]
      ensures this.w == w && Inv(w, Current(), None)
      ensures slots == map[] && walked == {} && stack == []
    {
      var methodsPlaced := N.AssignImageMethods(w.native, w.images, imageMethods, w.defaultImage);
      var placed := N.AssignDexCacheArrays(w.native, methodsPlaced);
      this.w, natives := w, placed;
      lockWords, saved, oatIndex := w.locks, map[], map[];
      imageEnds := seq(w.images, _ => w.begin);
      interned := seq(w.images, _ => map[]);
      refs, stack := w.graph, [];
      slots, walked := map[], {};
      new;
      InitialState(w, Current());
    }

    method FindInternedString(c: string) returns (found: Option<nat>)
      ensures found == Find(w, interned, c)
    {
      for k := 0 to |interned|
        invariant FindIn(interned, c, k) == FindIn(interned, c, 0)
      {
        if c in interned[k] {
          return Some(interned[k][c]);
        }
      }
      if w.appImage && c in w.runtimeStrings && w.runtimeStrings[c] in w.boot {
        return Some(w.runtimeStrings[c]);
      }
      return None;
    }

    /** Saves the hash code before the slot overwrites the lock word. */
    method SetImageBinSlot(o: nat, word: nat)
      requires o in lockWords && (lockWords[o].Unlocked? || lockWords[o].HashCode?)
      modifies this`lockWords, this`saved
      ensures lockWords == old(lockWords)[o := Forwarding(word)]
      ensures saved == if old(lockWords)[o].HashCode? then old(saved)[o := old(lockWords)[o].hash] else old(saved)
    {
      if lockWords[o].HashCode? {
        saved := saved[o := lockWords[o].hash];
      }
      lockWords := lockWords[o := Forwarding(word)];
    }

    method AssignImageBinSlot(o: nat, home: nat)
      requires o in w.objects && o in w.locks && o in lockWords && lockWords[o] == w.locks[o]
      requires w.locks[o].Unlocked? || w.locks[o].HashCode?  // otherwise fatal
      requires N.Shaped(natives.sizes) && home < |natives.sizes| && home < |imageEnds|
      modifies this`lockWords, this`saved, this`oatIndex, this`natives, this`imageEnds, this`slots
      ensures Current() == Slotted(w, old(Current()), o, home, interned, old(natives)).(stack := stack)
    {
      var bin := ChooseBin(w.objects[o].kind);
      oatIndex := oatIndex[o := home];
      var delta := RoundUp(w.objects[o].size, OBJECT_ALIGNMENT);
      var index := natives.sizes[home][bin];
      natives := natives.(sizes := Grown(natives.sizes, home, bin, delta));
      SetImageBinSlot(o, Pack(bin, index));
      imageEnds := imageEnds[home := imageEnds[home] + delta];
      slots := slots[o := Slot(home, bin, index)];
    }

    ghost function Unslotted(): nat
      reads this
    {
      |w.objects.Keys - slots.Keys|
    }

    /** Progress: nothing happened, or one more object has a slot. */
    twostate predicate Progress()
      reads this
    {
      (slots == old(slots) && stack == old(stack)) || Unslotted() < old(Unslotted())
    }

    /** Gives the object behind a reference a slot unless it has one, and says
        what the reference should be. */
    method TryAssignBinSlot(ref: Option<nat>, oatIndexHint: nat, ghost current: Option<nat>) returns (r: Option<nat>)
      requires Inv(w, Current(), current) && oatIndexHint < w.images
      requires ref.Some? ==> ref.value in w.objects && (ref.value in w.boot || Reachable(w, ref.value))
      requires ref.Some? && ref.value !in w.boot ==> Asks(w, Current(), ref.value, oatIndexHint)
      modifies this
      ensures Inv(w, Current(), current) && Extends(w, old(Current()), Current())
      ensures refs == old(refs) && walked == old(walked)
      ensures Fixed(w, Current(), ref, r)
      ensures Progress()
    {
      if ref.None? || ref.value in w.boot {
        return ref;
      }
      var o := ref.value;
      assert Marked(w, Current(), o);
      if !lockWords[o].Forwarding? {
        AssignNew(o, oatIndexHint, current);
      }
      if w.objects[o].kind.Str? {
        assert IsFound(w, Current(), o);
        r := FindInternedString(w.objects[o].kind.content);
        if r.Some? {
          return;
        }
      }
      r := ref;
    }

    /** The first visit of an object: interning, native data, slot, work. */
    method AssignNew(o: nat, oatIndexHint: nat, ghost current: Option<nat>)
      requires Inv(w, Current(), current) && oatIndexHint < w.images && IsNew(w, Current(), o) && Reachable(w, o)
      requires Asks(w, Current(), o, oatIndexHint)
      modifies this
      ensures Inv(w, Current(), current) && Extends(w, old(Current()), Current())
      ensures refs == old(refs) && walked == old(walked) && o in slots
      ensures Unslotted() < old(Unslotted())
    {
      ghost var s := Current();
      NewIsFresh(w, s, o, current);
      ghost var home, n := StoreNew(o, oatIndexHint);
      NewSlot(w, s, o, home, oatIndexHint, interned, n, Current(), current);
    }

    method StoreNew(o: nat, oatIndexHint: nat) returns (ghost home: nat, ghost n: N.Natives)
      requires w.Valid() && N.Good(w.native, natives) && |natives.sizes| == |interned| == |imageEnds| == w.images
      requires oatIndexHint < w.images && o in w.objects && N.FreshClass(natives, o)
      requires o in w.locks && o in lockWords && lockWords[o] == w.locks[o]
      requires w.locks[o].Unlocked? || w.locks[o].HashCode?
      modifies this`interned, this`lockWords, this`saved, this`oatIndex,
               this`natives, this`imageEnds, this`slots, this`stack
      ensures home == HomeOf(w, o, oatIndexHint) < w.images && N.Grows(old(natives), n) && |n.sizes| == w.images
      ensures NativeStep(w, old(Current()), o, home, n)
      ensures StringStep(w, old(Current()), o, oatIndexHint, interned)
      ensures Current() == Slotted(w, old(Current()), o, home, interned, n)
    {
      ghost var s := Current();
      var image := PrepareNew(o, oatIndexHint);
      home, n := image, natives;
      PushNew(o, image, s);
    }

    method PushNew(o: nat, home: nat, ghost s: State)
      requires o in w.objects && o in w.locks && o in lockWords && lockWords[o] == w.locks[o]
      requires w.locks[o].Unlocked? || w.locks[o].HashCode?
      requires N.Shaped(natives.sizes) && home < |natives.sizes| && home < |imageEnds|
      requires Current() == s.(interned := interned, natives := natives)
      modifies this`lockWords, this`saved, this`oatIndex, this`natives, this`imageEnds, this`slots, this`stack
      ensures Current() == Slotted(w, s, o, home, interned, old(natives))
    {
      ghost var mid := Current();
      AssignImageBinSlot(o, home);
      ghost var t := Current();
      stack := stack + [(o, home)];
      SameSlotted(w, s, mid, t, Current(), o, home);
    }

    /** Interning and native data, depending on the kind of object; a class and
        a dex cache go to the image of their dex file. */
    method PrepareNew(o: nat, oatIndexHint: nat) returns (home: nat)
      requires w.Valid() && N.Good(w.native, natives) && |natives.sizes| == |interned| == w.images
      requires oatIndexHint < w.images && o in w.objects && N.FreshClass(natives, o)
      modifies this`interned, this`natives
      ensures var kind := w.objects[o].kind;
              home == if kind.Class? || kind.DexCache? then w.objects[o].home else oatIndexHint
      ensures home < w.images && N.Grows(old(natives), natives)
      ensures NativeStep(w, old(Current()), o, home, natives)
      ensures StringStep(w, old(Current()), o, oatIndexHint, interned)
    {
      home := oatIndexHint;
      match w.objects[o].kind {
        case Str(c) =>
          var found := FindInternedString(c);
          if found.None? {
            interned := Interned(interned, oatIndexHint, c, o);
          }
        case DexCache =>
          home := w.objects[o].home;
        case Class(_, _, data) =>
          home := w.objects[o].home;
          natives := N.AssignClass(w.native, natives, o, data, home);
        case _ =>
      }
    }

    /** Visits the references of an object in order and stores what each
        should be. */
    method VisitReferences(o: nat, oatIndexHint: nat)
      requires Inv(w, Current(), Some(o)) && oatIndexHint < w.images
      requires o in w.graph && o in walked && FixedUpTo(w, Current(), o, 0)
      requires Gives(w, Current(), o, oatIndexHint)
      modifies this
      ensures Inv(w, Current(), None)
      ensures walked == old(walked) && old(slots).Keys <= slots.Keys
      ensures Progress()
    {
      for i := 0 to |refs[o]|
        invariant Inv(w, Current(), Some(o)) && FixedUpTo(w, Current(), o, i) && Gives(w, Current(), o, oatIndexHint)
        invariant walked == old(walked) && old(slots).Keys <= slots.Keys
        invariant Progress()
      {
        VisitReference(o, i, oatIndexHint);
      }
      LastReference(w, Current(), o);
    }

    method VisitReference(o: nat, i: nat, oatIndexHint: nat)
      requires Inv(w, Current(), Some(o)) && oatIndexHint < w.images
      requires o in w.graph && o in walked && FixedUpTo(w, Current(), o, i) && i < |w.graph[o]|
      requires Gives(w, Current(), o, oatIndexHint)
      modifies this
      ensures Inv(w, Current(), Some(o)) && FixedUpTo(w, Current(), o, i + 1) && Gives(w, Current(), o, oatIndexHint)
      ensures walked == old(walked) && old(slots).Keys <= slots.Keys
      ensures Progress()
    {
      ghost var before := Current();
      RefersToReachable(w, before, o, i, oatIndexHint);
      var r := TryAssignBinSlot(refs[o][i], oatIndexHint, Some(o));
      ghost var s := Current();
      SetReference(o, i, r);
      Stored(w, before, s, Current(), o, i, r);
    }

    method SetReference(o: nat, i: nat, r: Option<nat>)
      requires o in refs && i < |refs[o]|
      modifies this`refs
      ensures Current() == old(Current()).(refs := old(refs)[o := old(refs)[o][i := r]])
    {
      refs := refs[o := refs[o][i := r]];
    }

    method Pop() returns (o: nat, oatIndexHint: nat)
      requires stack != [] && Inv(w, Current(), None)
      modifies this`stack, this`walked
      ensures (o, oatIndexHint) == old(stack)[|old(stack)| - 1]
      ensures stack == old(stack)[..|old(stack)| - 1] && walked == old(walked) + {o}
      ensures Inv(w, Current(), Some(o)) && FixedUpTo(w, Current(), o, 0)
      ensures o in w.graph && o !in w.boot && oatIndexHint < w.images && Gives(w, Current(), o, oatIndexHint)
    {
      ghost var s := Current();
      o, oatIndexHint := stack[|stack| - 1].0, stack[|stack| - 1].1;
      stack := stack[..|stack| - 1];
      walked := walked + {o};
      Popped(w, s, Current(), o);
    }

    /** Pops objects and visits their references until nothing is left. */
    method ProcessWorkStack()
      requires Inv(w, Current(), None)
      modifies this
      ensures Inv(w, Current(), None)
      ensures stack == [] && old(walked) <= walked && old(slots).Keys <= slots.Keys
      ensures forall o :: o in w.boot && o in walked ==> o in old(walked)
    {
      while stack != []
        invariant Inv(w, Current(), None)
        invariant old(walked) <= walked && old(slots).Keys <= slots.Keys
        invariant forall o :: o in w.boot && o in walked ==> o in old(walked)
        decreases Unslotted(), |stack|
      {
        ProcessTop();
      }
    }

    method ProcessTop()
      requires Inv(w, Current(), None) && stack != []
      modifies this
      ensures Inv(w, Current(), None)
      ensures old(slots).Keys <= slots.Keys
      ensures var o := old(stack)[|old(stack)| - 1].0; o !in w.boot && walked == old(walked) + {o}
      ensures Unslotted() < old(Unslotted()) || (Unslotted() == old(Unslotted()) && |stack| < |old(stack)|)
    {
      var o, oatIndexHint := Pop();
      VisitReferences(o, oatIndexHint);
    }

    /** Strings interned for the dex files, each in the image of its dex file. */
    method AssignStrings(strings: seq<(Option<nat>, nat)>)
      requires Inv(w, Current(), None) && AreHomed(w, strings)
      modifies this
      ensures Inv(w, Current(), None) && walked == old(walked) && AllCovered(w, slots.Keys, strings, |strings|)
    {
      for i := 0 to |strings|
        invariant Inv(w, Current(), None) && walked == old(walked) && AllCovered(w, slots.Keys, strings, i)
      {
        AssignNext(strings, i);
      }
    }

    method AssignNext(strings: seq<(Option<nat>, nat)>, i: nat)
      requires Inv(w, Current(), None) && AreHomed(w, strings)
      requires i < |strings| && AllCovered(w, slots.Keys, strings, i)
      modifies this
      ensures Inv(w, Current(), None) && walked == old(walked) && old(slots).Keys <= slots.Keys
      ensures AllCovered(w, slots.Keys, strings, i + 1)
    {
      AssignRoot(strings[i].0, strings[i].1);
      CoveredGrows(w, old(slots).Keys, slots.Keys, strings, i);
    }

    /** The other roots, in the default image. */
    method AssignRoots(roots: seq<(Option<nat>, nat)>)
      requires Inv(w, Current(), None) && AreHomed(w, roots)
      modifies this
      ensures Inv(w, Current(), None) && walked == old(walked) && old(slots).Keys <= slots.Keys
      ensures AllCovered(w, slots.Keys, roots, |roots|)
    {
      for i := 0 to |roots|
        invariant Inv(w, Current(), None) && walked == old(walked) && old(slots).Keys <= slots.Keys
        invariant AllCovered(w, slots.Keys, roots, i)
      {
        AssignNext(roots, i);
      }
    }

    method AssignRoot(root: Option<nat>, oatIndexHint: nat)
      requires Inv(w, Current(), None) && oatIndexHint < w.images
      requires root.Some? ==> (root.value, oatIndexHint) in w.roots
      modifies this
      ensures Inv(w, Current(), None) && walked == old(walked) && old(slots).Keys <= slots.Keys
      ensures Covered(w, slots.Keys, root)
    {
      RootIsReachable(w, root, oatIndexHint);
      var _ := TryAssignBinSlot(root, oatIndexHint, None);
    }

    /** For an app image: what only boot image objects hold live. */
    method VisitBootImage()
      requires Inv(w, Current(), None) && w.appImage && walked !! w.boot
      modifies this
      ensures Inv(w, Current(), None) && old(slots).Keys <= slots.Keys
      ensures w.boot <= walked
    {
      var rest := w.boot;
      while rest != {}
        invariant Inv(w, Current(), None) && old(slots).Keys <= slots.Keys
        invariant rest <= w.boot <= walked + rest && rest !! walked
      {
        var o :| o in rest;
        VisitBootObject(o);
        rest := rest - {o};
      }
    }

    method VisitBootObject(o: nat)
      requires Inv(w, Current(), None) && w.appImage && o in w.boot && o !in walked
      modifies this
      ensures Inv(w, Current(), None) && walked == old(walked) + {o} && old(slots).Keys <= slots.Keys
    {
      ghost var s := Current();
      walked := walked + {o};
      BootVisited(w, s, Current(), o);
      VisitReferences(o, w.defaultImage);
    }

    method WalkRoots(strings: seq<(Option<nat>, nat)>, roots: seq<Option<nat>>)
      requires Inv(w, Current(), None) && walked == {} && AreRoots(w, strings, roots)
      modifies this
      ensures Inv(w, Current(), None) && stack == [] && walked !! w.boot
      ensures forall r :: r in w.roots ==> r.0 in slots || r.0 in w.boot
    {
      AssignAllRoots(strings, roots);
      ProcessWorkStack();
    }

    method AssignAllRoots(strings: seq<(Option<nat>, nat)>, roots: seq<Option<nat>>)
      requires Inv(w, Current(), None) && AreRoots(w, strings, roots)
      modifies this
      ensures Inv(w, Current(), None) && walked == old(walked)
      ensures forall r :: r in w.roots ==> r.0 in slots || r.0 in w.boot
    {
      var homed := seq(|roots|, i requires 0 <= i < |roots| => (roots[i], w.defaultImage));
      AssignStrings(strings);
      ghost var before := slots.Keys;
      AssignRoots(homed);
      CoveredGrows(w, before, slots.Keys, strings, |strings|);
      AllAreCovered(w, slots.Keys, strings, roots, homed);
    }

    /** The whole walk. It ends with a slot for exactly the objects outside the
        boot image that the roots reach. */
    method AssignBinSlots(strings: seq<(Option<nat>, nat)>, roots: seq<Option<nat>>)
      requires Inv(w, Current(), None) && walked == {} && AreRoots(w, strings, roots)
      modifies this
      ensures Inv(w, Current(), None) && Walked(w, Current())
    {
      WalkRoots(strings, roots);
      if w.appImage {
        VisitBootImage();
        ProcessWorkStack();
      }
    }

    /** The check after the walk: every object outside the boot image has a slot. */
    method EnsureBinSlotsAssigned(order: seq<nat>) returns (ok: bool)
      requires w.Valid() && Marks(w, Current()) && forall o :: o in w.locks <==> o in order
      ensures ok <==> forall o :: o in w.locks && o !in w.boot ==> o in slots
    {
      for i := 0 to |order|
        invariant forall j :: 0 <= j < i && order[j] !in w.boot ==> order[j] in slots
      {
        assert Marked(w, Current(), order[i]);
        if order[i] !in w.boot && !lockWords[order[i]].Forwarding? {
          return false;
        }
      }
      return true;
    }

    ghost predicate AreOffsets(sizes: seq<nat>, offsets: seq<nat>)
      requires |sizes| == 13
    {
      |offsets| == 13 && forall b :: 0 <= b < 13 ==> offsets[b] == BinOffset(w.begin, w.native.ptr, sizes, b)
    }

    ghost predicate AllOffsets(sizes: seq<seq<nat>>, offsets: seq<seq<nat>>)
      requires N.Shaped(sizes)
    {
      |offsets| == |sizes| && forall k {:trigger offsets[k]} :: 0 <= k < |sizes| ==> AreOffsets(sizes[k], offsets[k])
    }

    method CalculateOffsets() returns (offsets: seq<seq<nat>>)
      requires N.Shaped(natives.sizes)
      ensures AllOffsets(natives.sizes, offsets)
    {
      offsets := [];
      for k := 0 to |natives.sizes|
        invariant |offsets| == k &&
                  forall j {:trigger offsets[j]} :: 0 <= j < k ==> AreOffsets(natives.sizes[j], offsets[j])
      {
        var one := CalculateBinOffsets(w.begin, w.native.ptr, natives.sizes[k]);
        assert AreOffsets(natives.sizes[k], one);
        offsets := offsets + [one];
      }
    }

    /** Turns the slot in every lock word into an offset. */
    method UnbinObjects(order: seq<nat>, offsets: seq<seq<nat>>)
      requires Marks(w, Current()) && LaidOut(w, Current()) && BinsAreSmall(Current())
      requires AllOffsets(natives.sizes, offsets)
      requires forall i, j :: 0 <= i < j < |order| ==> order[i] != order[j]
      requires forall i :: 0 <= i < |order| ==> order[i] in w.objects && order[i] in w.locks
      requires forall i :: 0 <= i < |order| && order[i] !in w.boot ==> order[i] in slots
      modifies this`lockWords
      ensures forall i :: 0 <= i < |order| && order[i] !in w.boot ==> HasOffset(w, old(Current()), lockWords, order[i])
      ensures forall o :: o in old(lockWords) && o in w.boot ==> o in lockWords && lockWords[o] == old(lockWords)[o]
    {
      ghost var s := Current();
      for i := 0 to |order|
        invariant forall j :: 0 <= j < i && order[j] !in w.boot ==> HasOffset(w, s, lockWords, order[j])
        invariant forall j :: i <= j < |order| && order[j] in s.lockWords ==>
                    order[j] in lockWords && lockWords[order[j]] == s.lockWords[order[j]]
        invariant forall o :: o in s.lockWords && o in w.boot ==> o in lockWords && lockWords[o] == s.lockWords[o]
      {
        if order[i] !in w.boot {
          assert Marked(w, s, order[i]);
          UnbinObject(order[i], offsets, s);
        }
      }
    }

    method UnbinObject(o: nat, offsets: seq<seq<nat>>, ghost s: State)
      requires LaidOut(w, s) && BinsAreSmall(s) && o in s.slots && o in w.objects && o in w.locks && Marked(w, s, o)
      requires oatIndex == s.oatIndex && o in lockWords && lockWords[o] == s.lockWords[o]
      requires AllOffsets(s.natives.sizes, offsets)
      modifies this`lockWords
      ensures HasOffset(w, s, lockWords, o) && lockWords == old(lockWords)[o := lockWords[o]]
    {
      SlotReadsBack(w, s, o);
      var word := lockWords[o].address;
      assert AreOffsets(s.natives.sizes[oatIndex[o]], offsets[oatIndex[o]]);
      lockWords := lockWords[o := Forwarding(offsets[oatIndex[o]][GetBin(word)] + GetIndex(word))];
    }

    /** Adds the offset of its bin to every native relocation. */
    method UpdateRelocations(offsets: seq<seq<nat>>)
      requires N.Valid(w.native, natives) && AllOffsets(natives.sizes, offsets)
      modifies this`natives
      ensures natives.sizes == old(natives).sizes
      ensures natives.relocations.Keys == old(natives).relocations.Keys
      ensures forall p :: p in natives.relocations ==> natives.relocations[p] == Moved(w, old(natives), p)
    {
      ghost var n := natives;
      var rest := natives.relocations.Keys;
      var moved: map<N.Ptr, N.Relocation> := map[];
      while rest != {}
        invariant rest <= n.relocations.Keys && moved.Keys == n.relocations.Keys - rest
        invariant forall p :: p in moved ==> moved[p] == Moved(w, n, p)
      {
        var p :| p in rest;
        assert N.InBin(w.native, n, p);
        var r := natives.relocations[p];
        assert AreOffsets(n.sizes[r.oatIndex], offsets[r.oatIndex]);
        moved := moved[p := r.(offset := r.offset + offsets[r.oatIndex][r.kind.Bin()])];
        rest := rest - {p};
      }
      natives := natives.(relocations := moved);
    }

    /** Where a reference points in the image. */
    method GetImageAddress(ref: Option<nat>, begins: seq<nat>, ghost s: State) returns (address: Option<Address>)
      requires ref.Some? && ref.value !in w.boot ==>
                 && HasOffset(w, s, lockWords, ref.value) && ref.value in oatIndex
                 && oatIndex[ref.value] == s.slots[ref.value].oatIndex < |begins|
      ensures address == AddressOf(w, s, begins, ref)
    {
      if ref.None? {
        return None;
      }
      if ref.value in w.boot {
        return Some(Boot(ref.value));
      }
      return Some(Image(begins[oatIndex[ref.value]] + lockWords[ref.value].address));
    }

    /** The copy of one object: its hash code back in the lock word, its
        references turned into image addresses. */
    method CopyAndFixupObject(o: nat, begins: seq<nat>, ghost s: State) returns (copy: Copy)
      requires CanCopy(w, s, lockWords, oatIndex, begins, refs, o)
      ensures IsAt(w, s, o, copy) && copy.lockWord == if o in saved then HashCode(saved[o]) else Unlocked
      ensures copy.refs == Addresses(w, s, begins, refs[o])
    {
      var lockWord := if o in saved then HashCode(saved[o]) else Unlocked;
      var addresses: seq<Option<Address>> := [];
      for i := 0 to |refs[o]|
        invariant addresses == Addresses(w, s, begins, refs[o][..i])
      {
        var address := GetImageAddress(refs[o][i], begins, s);
        assert refs[o][..i + 1] == refs[o][..i] + [refs[o][i]];
        addresses := addresses + [address];
      }
      assert refs[o][..|refs[o]|] == refs[o];
      copy := Copy(oatIndex[o], lockWords[o].address, lockWord, addresses);
    }

    /** Copies every object, then puts saved hash codes back into the originals. */
    method CopyAndFixupObjects(order: seq<nat>, begins: seq<nat>, ghost s: State) returns (copies: map<nat, Copy>)
      requires CanCopyAll(w, s, lockWords, oatIndex, begins, refs, order)
      modifies this`lockWords, this`saved
      ensures AreCopies(w, s, begins, old(saved), refs, order, copies)
      ensures saved == map[] && AreRestored(old(lockWords), old(saved), lockWords)
    {
      copies := map[];
      for i := 0 to |order|
        invariant forall j :: 0 <= j < i && order[j] !in w.boot ==>
                    order[j] in copies && IsCopy(w, s, begins, saved, refs, order[j], copies[order[j]])
        invariant lockWords == old(lockWords) && saved == old(saved)
      {
        if order[i] !in w.boot {
          var copy := CopyAndFixupObject(order[i], begins, s);
          copies := copies[order[i] := copy];
        }
      }
      RestoreHashCodes();
    }

    method RestoreHashCodes()
      modifies this`lockWords, this`saved
      ensures saved == map[]
      ensures forall o :: o in old(saved) ==> o in lockWords && lockWords[o] == HashCode(old(saved)[o])
      ensures forall o :: o in old(lockWords) && o !in old(saved) ==>
                o in lockWords && lockWords[o] == old(lockWords)[o]
    {
      var rest := saved.Keys;
      while rest != {}
        invariant rest <= saved.Keys && saved == old(saved)
        invariant forall o :: o in saved && o !in rest ==> o in lockWords && lockWords[o] == HashCode(saved[o])
        invariant forall o :: o in old(lockWords) && o !in saved ==> o in lockWords && lockWords[o] == old(lockWords)[o]
      {
        var o :| o in rest;
        lockWords := lockWords[o := HashCode(saved[o])];
        rest := rest - {o};
      }
      saved := map[];
    }
  }

  /* ---- Copies ---- */

  /** An address in the new images, or a boot image object. */
  datatype Address = Boot(o: nat) | Image(address: nat)

  /** The copy of an object: in which image file and where it is written, its
      lock word and its references. */
  datatype Copy = Copy(image: nat, offset: nat, lockWord: LockWord, refs: seq<Option<Address>>)

  ghost function AddressOf(w: World, s: State, begins: seq<nat>, ref: Option<nat>): Option<Address> {
    if ref.None? then None
    else if ref.value in w.boot then Some(Boot(ref.value))
    else if IsPlaced(w, s, begins, ref.value) then
      Some(Image(begins[s.slots[ref.value].oatIndex] + Offset(w, s, ref.value)))
    else None
  }

  ghost predicate IsPlaced(w: World, s: State, begins: seq<nat>, o: nat) {
    o in s.slots && N.Shaped(s.natives.sizes)
    && s.slots[o].oatIndex < |s.natives.sizes| && s.slots[o].oatIndex < |begins|
  }

  ghost function Addresses(w: World, s: State, begins: seq<nat>, refs: seq<Option<nat>>): (a: seq<Option<Address>>)
    ensures |a| == |refs|
    ensures forall i :: 0 <= i < |refs| ==> a[i] == AddressOf(w, s, begins, refs[i])
  {
    seq(|refs|, i requires 0 <= i < |refs| => AddressOf(w, s, begins, refs[i]))
  }

  ghost predicate CanAddress(
    w: World, s: State, lockWords: map<nat, LockWord>, oatIndex: map<nat, nat>, begins: seq<nat>, ref: Option<nat>)
  {
    ref.Some? && ref.value !in w.boot ==>
      && HasOffset(w, s, lockWords, ref.value) && ref.value in oatIndex
      && oatIndex[ref.value] == s.slots[ref.value].oatIndex < |begins|
  }

  /** An object and everything it refers to has an address. */
  ghost predicate CanCopy(
    w: World, s: State, lockWords: map<nat, LockWord>, oatIndex: map<nat, nat>, begins: seq<nat>, refs: Graph, o: nat)
  {
    && o in refs && HasOffset(w, s, lockWords, o) && o in oatIndex && oatIndex[o] == s.slots[o].oatIndex
    && forall i :: 0 <= i < |refs[o]| ==> CanAddress(w, s, lockWords, oatIndex, begins, refs[o][i])
  }

  /** The copy of `o` lies in its image at its offset. */
  ghost predicate IsAt(w: World, s: State, o: nat, copy: Copy) {
    && o in s.slots && N.Shaped(s.natives.sizes) && s.slots[o].oatIndex < |s.natives.sizes|
    && copy.image == s.slots[o].oatIndex && copy.offset == Offset(w, s, o)
  }

  ghost predicate IsCopy(w: World, s: State, begins: seq<nat>, saved: map<nat, nat>, refs: Graph, o: nat, copy: Copy) {
    && IsAt(w, s, o, copy) && copy.lockWord == (if o in saved then HashCode(saved[o]) else Unlocked)
    && o in refs && copy.refs == Addresses(w, s, begins, refs[o])
  }

  ghost function Moved(w: World, n: N.Natives, p: N.Ptr): N.Relocation
    requires N.Shaped(n.sizes) && p in n.relocations
  {
    var r := n.relocations[p];
    if r.oatIndex < |n.sizes| then
      r.(offset := r.offset + BinOffset(w.begin, w.native.ptr, n.sizes[r.oatIndex], r.kind.Bin()))
    else r
  }

  ghost predicate CanCopyAll(
    w: World, s: State, lockWords: map<nat, LockWord>, oatIndex: map<nat, nat>, begins: seq<nat>,
    refs: Graph, order: seq<nat>)
  {
    forall i :: 0 <= i < |order| && order[i] !in w.boot ==> CanCopy(w, s, lockWords, oatIndex, begins, refs, order[i])
  }

  /** Every object outside the boot image has its copy. */
  ghost predicate AreCopies(
    w: World, s: State, begins: seq<nat>, saved: map<nat, nat>, refs: Graph, order: seq<nat>,
    copies: map<nat, Copy>)
  {
    forall i :: 0 <= i < |order| && order[i] !in w.boot ==>
      order[i] in copies && IsCopy(w, s, begins, saved, refs, order[i], copies[order[i]])
  }

  /** Saved hash codes are back, and other lock words are as they were. */
  ghost predicate AreRestored(before: map<nat, LockWord>, saved: map<nat, nat>, after: map<nat, LockWord>) {
    && (forall o :: o in saved ==> o in after && after[o] == HashCode(saved[o]))
    && (forall o :: o in before && o !in saved ==> o in after && after[o] == before[o])
  }

  ghost predicate Covered(w: World, slotted: set<nat>, root: Option<nat>) {
    root.Some? ==> root.value in slotted || root.value in w.boot
  }

  /** Every root is a root of the heap for its image, and that image exists. */
  ghost predicate AreHomed(w: World, roots: seq<(Option<nat>, nat)>) {
    forall i :: 0 <= i < |roots| ==>
      roots[i].1 < w.images && (roots[i].0.Some? ==> (roots[i].0.value, roots[i].1) in w.roots)
  }

  /** Object `o`, whose references are visited, lies in image `k`, or it is in the
      boot image and `k` is the default. */
  ghost predicate Gives(w: World, s: State, o: nat, k: nat) {
    if o in w.boot then w.appImage && k == w.defaultImage
    else Reachable(w, o) && o in s.slots && s.slots[o].oatIndex == k
  }

  ghost predicate AllCovered(w: World, slotted: set<nat>, roots: seq<(Option<nat>, nat)>, n: nat) {
    n <= |roots| && forall i :: 0 <= i < n ==> Covered(w, slotted, roots[i].0)
  }

  lemma {:induction false} CoveredGrows(w: World, a: set<nat>, b: set<nat>, roots: seq<(Option<nat>, nat)>, n: nat)
    requires a <= b && AllCovered(w, a, roots, n)
    ensures AllCovered(w, b, roots, n)
  {
    forall i | 0 <= i < n ensures Covered(w, b, roots[i].0) {
      assert Covered(w, a, roots[i].0);
    }
  }

  lemma {:induction false} AllAreCovered(
    w: World, slotted: set<nat>, strings: seq<(Option<nat>, nat)>, roots: seq<Option<nat>>,
    homed: seq<(Option<nat>, nat)>)
    requires AreRoots(w, strings, roots)
    requires |homed| == |roots| && forall i :: 0 <= i < |roots| ==> homed[i].0 == roots[i]
    requires AllCovered(w, slotted, strings, |strings|) && AllCovered(w, slotted, homed, |homed|)
    ensures forall r :: r in w.roots ==> r.0 in slotted || r.0 in w.boot
  {
    forall r | r in w.roots ensures r.0 in slotted || r.0 in w.boot {
      if Some(r.0) in roots {
        var i :| 0 <= i < |roots| && roots[i] == Some(r.0);
        assert Covered(w, slotted, homed[i].0);
      } else {
        var i :| 0 <= i < |strings| && strings[i] == (Some(r.0), r.1);
        assert Covered(w, slotted, strings[i].0);
      }
    }
  }

  lemma {:induction false} RootIsReachable(w: World, root: Option<nat>, k: nat)
    requires w.Valid() && (root.Some? ==> (root.value, k) in w.roots)
    ensures root.Some? ==> root.value in w.objects && (root.value in w.boot || Reachable(w, root.value))
  {
    if root.Some? && root.value !in w.boot {
      assert (root.value, k).0 == root.value;
      SourcesAreReachable(w, root.value);
    }
  }

  lemma {:induction false} BootVisited(w: World, s: State, t: State, o: nat)
    requires Inv(w, s, None) && o in w.boot && o !in s.walked
    requires t == s.(walked := s.walked + {o})
    ensures Inv(w, t, Some(o)) && FixedUpTo(w, t, o, 0) && o in w.graph
  {
    StoreKeepsState(w, s, t);
    PoppedRefs(w, s, t, o);
    forall p | p in t.slots && p !in t.walked ensures Waits(t, p) {
      assert Waits(s, p);
    }
  }

  /** The walk is over: nothing waits, all roots are in the image or in the boot
      image, and for an app image the boot image has been visited. */
  ghost predicate Walked(w: World, s: State) {
    && s.stack == []
    && (forall r :: r in w.roots ==> r.0 in s.slots || r.0 in w.boot)
    && (w.appImage ==> w.boot <= s.walked)
  }

  lemma {:induction false} InitialState(w: World, s: State)
    requires w.Valid() && N.Good(w.native, s.natives) && N.HasDexCaches(w.native, s.natives)
    requires |s.natives.sizes| == w.images
    requires forall k, b :: 0 <= k < w.images && 0 <= b < 6 ==> s.natives.sizes[k][b] == 0
    requires forall p :: p in s.natives.relocations ==> !p.OfClass()
    requires s == State(w.locks, map[], map[], s.natives, seq(w.images, _ => w.begin), seq(w.images, _ => map[]),
                        w.graph, [], map[], {})
    ensures Inv(w, s, None)
  {
    forall k | 0 <= k < w.images ensures ImageAdds(w, s, k) {
      ZeroSum(s.natives.sizes[k], 6);
    }
  }

  lemma {:induction false} ZeroSum(sizes: seq<nat>, n: nat)
    requires n <= |sizes| && forall b :: 0 <= b < n ==> sizes[b] == 0
    ensures Sum(sizes, n) == 0
  {
    if n > 0 {
      ZeroSum(sizes, n - 1);
    }
  }

  lemma {:induction false} RefersToReachable(w: World, s: State, o: nat, i: nat, k: nat)
    requires w.Valid() && o in w.graph && FixedUpTo(w, s, o, i) && i < |w.graph[o]| && Gives(w, s, o, k)
    ensures s.refs[o][i] == w.graph[o][i]
    ensures s.refs[o][i].Some? ==>
              var next := s.refs[o][i].value;
              next in w.objects && (next in w.boot || (Reachable(w, next) && Asks(w, s, next, k)))
  {
    var ref := s.refs[o][i];
    if ref.Some? && ref.value !in w.boot {
      assert Some(ref.value) in w.graph[o];
      if o in w.boot {
        SourcesAreReachable(w, ref.value);
      } else {
        ReachesOn(w, o, ref.value);
      }
    }
  }

  lemma {:induction false} Stored(w: World, before: State, s: State, t: State, o: nat, i: nat, r: Option<nat>)
    requires StringsOk(w, before) && Extends(w, before, s) && s.refs == before.refs
    requires Inv(w, s, Some(o)) && o in w.graph && FixedUpTo(w, before, o, i) && i < |w.graph[o]|
    requires Fixed(w, s, w.graph[o][i], r)
    requires t == s.(refs := s.refs[o := s.refs[o][i := r]])
    ensures Inv(w, t, Some(o)) && FixedUpTo(w, t, o, i + 1)
  {
    ExtendsKeepsFixedUpTo(w, before, s, o, i);
    StoreReference(w, s, t, o, i, r);
    StoredIsFixed(w, s, t, o, i, r);
  }

  lemma {:induction false} StoreReference(w: World, s: State, t: State, o: nat, i: nat, r: Option<nat>)
    requires Inv(w, s, Some(o)) && o in w.graph && FixedUpTo(w, s, o, i) && i < |w.graph[o]|
    requires Fixed(w, s, w.graph[o][i], r)
    requires t == s.(refs := s.refs[o := s.refs[o][i := r]])
    ensures Inv(w, t, Some(o)) && Extends(w, s, t)
  {
    StoreKeepsState(w, s, t);
    StoreKeepsRefs(w, s, t, o);
    StackStays(w, s, t);
  }

  lemma {:induction false} StackStays(w: World, s: State, t: State)
    requires StackOk(w, s) && t == s.(refs := t.refs)
    ensures StackOk(w, t)
  {
    forall p | p in t.slots && p !in t.walked ensures Waits(t, p) {
      assert Waits(s, p);
    }
  }

  lemma {:induction false} StoredIsFixed(w: World, s: State, t: State, o: nat, i: nat, r: Option<nat>)
    requires o in w.graph && FixedUpTo(w, s, o, i) && i < |w.graph[o]| && Fixed(w, s, w.graph[o][i], r)
    requires t == s.(refs := s.refs[o := s.refs[o][i := r]])
    ensures FixedUpTo(w, t, o, i + 1)
  {
    forall j | 0 <= j < i + 1 ensures Fixed(w, t, w.graph[o][j], t.refs[o][j]) {
      assert j < i ==> Fixed(w, s, w.graph[o][j], s.refs[o][j]);
    }
  }

  lemma {:induction false} StoreKeepsRefs(w: World, s: State, t: State, o: nat)
    requires RefsOk(w, s, Some(o)) && t == s.(refs := t.refs)
    requires forall p :: p in s.refs && p != o ==> p in t.refs && t.refs[p] == s.refs[p]
    ensures RefsOk(w, t, Some(o))
  {
    forall p | p in w.graph && p != o
      ensures FixedUpTo(w, t, p, Done(w, t, p))
    {
      assert FixedUpTo(w, s, p, Done(w, s, p));
      OtherRefsStay(w, s, t, p, Done(w, s, p));
    }
  }

  lemma {:induction false} OtherRefsStay(w: World, s: State, t: State, p: nat, n: nat)
    requires p in w.graph && FixedUpTo(w, s, p, n) && p in t.refs && t.refs[p] == s.refs[p]
    requires t == s.(refs := t.refs)
    ensures FixedUpTo(w, t, p, n)
  {
    forall j | 0 <= j < n ensures Fixed(w, t, w.graph[p][j], t.refs[p][j]) {
      assert Fixed(w, s, w.graph[p][j], s.refs[p][j]);
    }
  }

  /** Nothing but the reference invariant looks at references, stack and visits. */
  lemma {:induction false} StoreKeepsState(w: World, s: State, t: State)
    requires Marks(w, s) && LaidOut(w, s) && NativesOk(w, s) && StringsOk(w, s) && AllReachable(w, s)
    requires AllAtHome(w, s)
    requires t == s.(refs := t.refs, stack := t.stack, walked := t.walked)
    ensures Marks(w, t) && LaidOut(w, t) && NativesOk(w, t) && StringsOk(w, t) && AllReachable(w, t)
    ensures AllAtHome(w, t) && Extends(w, s, t)
  {
    forall o | o in w.locks ensures Marked(w, t, o) {
      assert Marked(w, s, o);
    }
    forall p | p in t.natives.relocations ensures Owned(t, p) {
      assert Owned(s, p);
    }
    forall o | o in t.slots && o in w.objects ensures InBin(w, t, o) && HasNatives(w, t, o) && IsFound(w, t, o) {
      assert InBin(w, s, o) && HasNatives(w, s, o) && IsFound(w, s, o);
    }
    forall o, p | o in t.slots && o in w.objects && p in t.slots && p in w.objects && o != p
      ensures Apart(w, o, t.slots[o], p, t.slots[p])
    {
      assert Apart(w, o, s.slots[o], p, s.slots[p]);
    }
    forall k | 0 <= k < w.images ensures ImageAdds(w, t, k) {
      assert ImageAdds(w, s, k);
    }
    forall k, c | 0 <= k < |t.interned| && c in t.interned[k] ensures Entry(w, t, k, c) {
      assert Entry(w, s, k, c);
    }
    forall o | o in t.slots && o in w.objects ensures AtHome(w, t, o) {
      assert AtHome(w, s, o);
      AsksOn(w, s, t, o, t.slots[o].oatIndex);
    }
  }

  lemma {:induction false} LastReference(w: World, s: State, o: nat)
    requires Inv(w, s, Some(o)) && o in w.graph && o in s.walked && FixedUpTo(w, s, o, |w.graph[o]|)
    ensures Inv(w, s, None)
  {
  }

  /** Taking the top of the stack to visit it. */
  lemma {:induction false} Popped(w: World, s: State, t: State, o: nat)
    requires Inv(w, s, None) && s.stack != [] && o == s.stack[|s.stack| - 1].0
    requires t == s.(stack := s.stack[..|s.stack| - 1], walked := s.walked + {o})
    ensures Inv(w, t, Some(o)) && FixedUpTo(w, t, o, 0) && Extends(w, s, t)
    ensures o in w.graph && o !in w.boot && s.stack[|s.stack| - 1].1 < w.images
    ensures Gives(w, t, o, s.stack[|s.stack| - 1].1)
  {
    StoreKeepsState(w, s, t);
    PoppedRefs(w, s, t, o);
    PoppedStack(w, s, t, o);
  }

  lemma {:induction false} PoppedRefs(w: World, s: State, t: State, o: nat)
    requires RefsOk(w, s, None) && o !in s.walked && o in w.graph
    requires t == s.(stack := t.stack, walked := s.walked + {o})
    ensures RefsOk(w, t, Some(o)) && FixedUpTo(w, t, o, 0)
  {
    assert FixedUpTo(w, s, o, Done(w, s, o));
    VisitsStay(w, s, t, o, 0);
    forall p | p in w.graph && p != o
      ensures FixedUpTo(w, t, p, Done(w, t, p))
    {
      assert FixedUpTo(w, s, p, Done(w, s, p));
      VisitsStay(w, s, t, p, Done(w, s, p));
    }
  }

  lemma {:induction false} PoppedStack(w: World, s: State, t: State, o: nat)
    requires StackOk(w, s) && s.stack != [] && o == s.stack[|s.stack| - 1].0
    requires t == s.(stack := s.stack[..|s.stack| - 1], walked := s.walked + {o})
    ensures StackOk(w, t)
  {
    forall p | p in t.slots && p !in t.walked ensures Waits(t, p) {
      assert Waits(s, p);
      var i :| 0 <= i < |s.stack| && s.stack[i].0 == p;
      assert t.stack[i].0 == p;
    }
  }

  lemma {:induction false} VisitsStay(w: World, s: State, t: State, p: nat, n: nat)
    requires p in w.graph && FixedUpTo(w, s, p, n)
    requires t == s.(stack := t.stack, walked := t.walked)
    ensures FixedUpTo(w, t, p, n)
  {
    forall j | 0 <= j < n ensures Fixed(w, t, w.graph[p][j], t.refs[p][j]) {
      assert Fixed(w, s, w.graph[p][j], s.refs[p][j]);
    }
  }

  lemma {:induction false} NewIsFresh(w: World, s: State, o: nat, current: Option<nat>)
    requires Inv(w, s, current) && IsNew(w, s, o)
    ensures N.FreshClass(s.natives, o) && N.Good(w.native, s.natives)
    ensures |s.natives.sizes| == |s.interned| == |s.imageEnds| == w.images
    ensures o in s.lockWords && s.lockWords[o] == w.locks[o] && (w.locks[o].Unlocked? || w.locks[o].HashCode?)
  {
    assert Marked(w, s, o);
    forall p | p in s.natives.relocations && p.OfClass() ensures p.klass != o {
      assert Owned(s, p);
    }
  }

  /** The updates in the order the code makes them. */
  lemma {:induction false} SameSlotted(w: World, s: State, mid: State, t: State, u: State, o: nat, home: nat)
    requires o in w.objects && o in w.locks
    requires N.Shaped(mid.natives.sizes) && home < |mid.natives.sizes| && home < |s.imageEnds|
    requires mid == s.(interned := mid.interned, natives := mid.natives)
    requires t == Slotted(w, mid, o, home, mid.interned, mid.natives).(stack := s.stack)
    requires u == t.(stack := s.stack + [(o, home)])
    ensures u == Slotted(w, s, o, home, mid.interned, mid.natives)
  {
  }

  lemma {:induction false} NewSlot(
    w: World, s: State, o: nat, home: nat, oatIndex: nat, interned: seq<map<string, nat>>, natives: N.Natives,
    t: State, current: Option<nat>)
    requires Inv(w, s, current) && IsNew(w, s, o) && home < w.images && oatIndex < w.images && Reachable(w, o)
    requires home == HomeOf(w, o, oatIndex) && Asks(w, s, o, oatIndex)
    requires NativeStep(w, s, o, home, natives) && StringStep(w, s, o, oatIndex, interned)
    requires N.Grows(s.natives, natives) && t == Slotted(w, s, o, home, interned, natives)
    ensures Inv(w, t, current) && Extends(w, s, t) && o in t.slots
    ensures |w.objects.Keys - t.slots.Keys| < |w.objects.Keys - s.slots.Keys|
  {
    SlottedInv(w, s, o, home, oatIndex, interned, natives, current);
    SlottedExtends(w, s, o, home, oatIndex, interned, natives);
    Fewer(w.objects.Keys, s.slots.Keys, t.slots.Keys, o);
  }

  lemma {:induction false} Fewer(all: set<nat>, a: set<nat>, b: set<nat>, o: nat)
    requires o in all && o !in a && o in b && a <= b
    ensures |all - b| < |all - a|
  {
    assert all - b <= all - a - {o};
    SubsetSize(all - b, all - a - {o});
  }

  lemma {:induction false} SubsetSize(a: set<nat>, b: set<nat>)
    requires a <= b
    ensures |a| <= |b|
  {
    if a != {} {
      var x :| x in a;
      SubsetSize(a - {x}, b - {x});
    }
  }
}
