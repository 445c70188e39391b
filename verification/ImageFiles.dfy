/** CalculateNewObjectOffsets and CopyAndFixupObjects in one run. */
module ImageFiles {
  import opened Util
  import opened ImageBins
  import opened ImageHeap
  import opened ImageState
  import opened ImageWriter
  import opened ImageTheorems
  import N = ImageNative

  /** The debug check of BinSlot, after the fact: no index ran into the bin bits. */
  method BinsFit(sizes: seq<seq<nat>>) returns (fit: bool)
    requires N.Shaped(sizes)
    ensures fit <==> forall k, b :: 0 <= k < |sizes| && 0 <= b < 6 ==> sizes[k][b] < INDEX_LIMIT
  {
    for k := 0 to |sizes|
      invariant forall j, b :: 0 <= j < k && 0 <= b < 6 ==> sizes[j][b] < INDEX_LIMIT
    {
      for c := 0 to 6
        invariant forall b :: 0 <= b < c ==> sizes[k][b] < INDEX_LIMIT
      {
        if sizes[k][c] >= INDEX_LIMIT {
          return false;
        }
      }
    }
    return true;
  }

  /** Sections of every image; each file ends behind its objects and its native
      data. */
  method CreateAllSections(writer: Writer, offsets: seq<seq<nat>>, tableBytes: seq<(nat, nat)>, ghost s: State)
      returns (sections: seq<Sections>, ends: seq<nat>)
    requires s == writer.Current() && LaidOut(writer.w, s) && N.Good(writer.w.native, s.natives)
    requires writer.AllOffsets(s.natives.sizes, offsets) && |tableBytes| == writer.w.images
    ensures Contains(s, ends) && |sections| == |ends|
    ensures forall k {:trigger ends[k]} :: 0 <= k < |ends| ==>
              AreSections(writer.w, s.natives.sizes[k], s.imageEnds[k], sections[k], ends[k])
  {
    AllAreReady(writer, offsets, s);
    sections, ends := CreateEach(writer.w, writer.imageEnds, writer.natives.sizes, offsets, tableBytes);
  }

  /** Bins and image end of one image, as CreateImageSections expects them. */
  ghost predicate IsReady(w: World, imageEnd: nat, sizes: seq<nat>, offsets: seq<nat>) {
    && |sizes| == |offsets| == 13 && N.AlignedSizes(w.native.ptr, sizes)
    && (forall b :: 0 <= b < 13 ==> offsets[b] == BinOffset(w.begin, w.native.ptr, sizes, b))
    && imageEnd == w.begin + Sum(sizes, 6)
  }

  ghost predicate AreReady(w: World, imageEnds: seq<nat>, sizes: seq<seq<nat>>, offsets: seq<seq<nat>>) {
    && |imageEnds| == |sizes| == |offsets|
    && forall k {:trigger offsets[k]} :: 0 <= k < |offsets| ==> IsReady(w, imageEnds[k], sizes[k], offsets[k])
  }

  lemma {:induction false} AllAreReady(writer: Writer, offsets: seq<seq<nat>>, s: State)
    requires LaidOut(writer.w, s) && N.Good(writer.w.native, s.natives)
    requires writer.AllOffsets(s.natives.sizes, offsets)
    ensures AreReady(writer.w, s.imageEnds, s.natives.sizes, offsets)
  {
    forall k | 0 <= k < |offsets| ensures IsReady(writer.w, s.imageEnds[k], s.natives.sizes[k], offsets[k]) {
      assert ImageAdds(writer.w, s, k) && writer.AreOffsets(s.natives.sizes[k], offsets[k]);
      assert N.AlignedSizes(writer.w.native.ptr, s.natives.sizes[k]);
    }
  }

  method CreateEach(
    w: World, imageEnds: seq<nat>, sizes: seq<seq<nat>>, offsets: seq<seq<nat>>, tableBytes: seq<(nat, nat)>)
      returns (sections: seq<Sections>, ends: seq<nat>)
    requires N.Shaped(sizes) && AreReady(w, imageEnds, sizes, offsets) && |tableBytes| == |offsets|
    ensures |sections| == |ends| == |offsets|
    ensures forall k {:trigger ends[k]} :: 0 <= k < |ends| ==>
              imageEnds[k] <= ends[k] && AreSections(w, sizes[k], imageEnds[k], sections[k], ends[k])
  {
    sections, ends := [], [];
    for k := 0 to |offsets|
      invariant |ends| == |sections| == k
      invariant forall j {:trigger ends[j]} :: 0 <= j < k ==>
                  imageEnds[j] <= ends[j] && AreSections(w, sizes[j], imageEnds[j], sections[j], ends[j])
    {
      var one, end := CreateSections(w, imageEnds[k], sizes[k], offsets[k], tableBytes[k]);
      sections, ends := sections + [one], ends + [end];
    }
  }

  /** The sections are in order, cover all bins, and the file ends with the last. */
  ghost predicate AreSections(w: World, sizes: seq<nat>, imageEnd: nat, sections: Sections, end: nat)
    requires |sizes| == 13
  {
    && sections.InOrder() && sections.objects == Section(0, imageEnd) && end == sections.classTable.End()
    && forall b: Bin :: sections.Covers(w.begin, w.native.ptr, sizes, b)
  }

  method CreateSections(w: World, imageEnd: nat, sizes: seq<nat>, offsets: seq<nat>, tableBytes: (nat, nat))
      returns (sections: Sections, end: nat)
    requires IsReady(w, imageEnd, sizes, offsets)
    ensures imageEnd <= end && AreSections(w, sizes, imageEnd, sections, end)
  {
    assert N.Unit(w.native.ptr, ART_METHOD_CLEAN) == w.native.ptr.Bytes();
    sections, end := CreateImageSections(w.begin, w.native.ptr, imageEnd, sizes, offsets, tableBytes.0, tableBytes.1);
  }

  /** The images are finished: every object outside the boot image has a copy at
      its offset with its original lock word, whose references are the image
      addresses of what the walk left in the original. */
  ghost predicate Finished(w: World, s: State, begins: seq<nat>, copies: map<nat, Copy>) {
    forall o :: o in w.objects && o !in w.boot ==>
      && o in copies && IsAt(w, s, o, copies[o]) && o in w.locks && copies[o].lockWord == w.locks[o]
      && o in s.refs && copies[o].refs == Addresses(w, s, begins, s.refs[o])
  }

  ghost predicate Placed(globalBegin: nat, ends: seq<nat>, begins: seq<nat>) {
    |begins| == |ends| && forall k :: 0 <= k < |ends| ==> begins[k] == ImageBegin(globalBegin, ends, k)
  }

  ghost predicate HaveOffsets(w: World, s: State, lockWords: map<nat, LockWord>) {
    forall o :: o in s.slots ==> HasOffset(w, s, lockWords, o)
  }

  lemma {:induction false} ReadyToCopy(
    w: World, s: State, lockWords: map<nat, LockWord>, begins: seq<nat>, o: nat)
    requires Inv(w, s, None) && Walked(w, s) && |begins| == w.images && o in s.slots
    requires HaveOffsets(w, s, lockWords)
    ensures CanCopy(w, s, lockWords, s.oatIndex, begins, s.refs, o)
  {
    SlottedIsWalked(w, s, o);
    assert Marked(w, s, o);
    forall i | 0 <= i < |s.refs[o]| ensures CanAddress(w, s, lockWords, s.oatIndex, begins, s.refs[o][i]) {
      ReferencesStayInside(w, s, o, i);
      if s.refs[o][i].Some? && s.refs[o][i].value !in w.boot {
        assert Marked(w, s, s.refs[o][i].value) && InBin(w, s, s.refs[o][i].value);
      }
    }
  }

  /** `order` visits all objects, and those outside the boot image have slots. */
  ghost predicate IsOrder(w: World, s: State, order: seq<nat>) {
    && (forall o :: o in w.objects <==> o in order)
    && (forall i :: 0 <= i < |order| && order[i] !in w.boot ==> order[i] in s.slots)
  }

  lemma {:induction false} AllReadyToCopy(
    w: World, s: State, lockWords: map<nat, LockWord>, begins: seq<nat>, order: seq<nat>)
    requires Inv(w, s, None) && Walked(w, s) && |begins| == w.images && IsOrder(w, s, order)
    requires HaveOffsets(w, s, lockWords)
    ensures CanCopyAll(w, s, lockWords, s.oatIndex, begins, s.refs, order)
  {
    forall i | 0 <= i < |order| && order[i] !in w.boot
      ensures CanCopy(w, s, lockWords, s.oatIndex, begins, s.refs, order[i])
    {
      ReadyToCopy(w, s, lockWords, begins, order[i]);
    }
  }

  lemma {:induction false} CopiesFinish(w: World, s: State, begins: seq<nat>, order: seq<nat>, copies: map<nat, Copy>)
    requires w.Valid() && Marks(w, s) && IsOrder(w, s, order)
    requires AreCopies(w, s, begins, s.saved, s.refs, order, copies)
    ensures Finished(w, s, begins, copies)
  {
    forall o | o in w.objects && o !in w.boot
      ensures o in copies && IsAt(w, s, o, copies[o]) && o in w.locks && copies[o].lockWord == w.locks[o]
    {
      var i :| 0 <= i < |order| && order[i] == o;
      CopyKeepsHash(w, s, begins, order[i], copies[order[i]]);
    }
  }

  /** Every native relocation has moved to its place in the image. */
  ghost predicate AreMoved(w: World, s: State, relocations: map<N.Ptr, N.Relocation>) {
    && N.Shaped(s.natives.sizes) && relocations.Keys == s.natives.relocations.Keys
    && forall p :: p in s.natives.relocations ==> relocations[p] == Moved(w, s.natives, p)
  }

  lemma {:induction false} OffsetsOfAll(w: World, s: State, order: seq<nat>, lockWords: map<nat, LockWord>)
    requires w.Valid() && AllReachable(w, s) && IsOrder(w, s, order)
    requires forall i :: 0 <= i < |order| && order[i] !in w.boot ==> HasOffset(w, s, lockWords, order[i])
    ensures HaveOffsets(w, s, lockWords)
  {
    forall o | o in s.slots ensures HasOffset(w, s, lockWords, o) {
      assert Reachable(w, o);
      assert o in w.objects && o in order;
    }
  }

  /** Offsets for objects and native data. */
  method PlaceAll(writer: Writer, order: seq<nat>, offsets: seq<seq<nat>>, ghost s: State)
    requires s == writer.Current() && writer.w.Valid() && BinsAreSmall(s)
    requires Marks(writer.w, s) && LaidOut(writer.w, s) && AllReachable(writer.w, s)
    requires N.Valid(writer.w.native, s.natives)
    requires writer.AllOffsets(s.natives.sizes, offsets)
    requires IsOrder(writer.w, s, order) && forall i, j :: 0 <= i < j < |order| ==> order[i] != order[j]
    modifies writer
    ensures writer.saved == s.saved && writer.refs == s.refs && writer.oatIndex == s.oatIndex
    ensures HaveOffsets(writer.w, s, writer.lockWords)
    ensures AreMoved(writer.w, s, writer.natives.relocations)
  {
    writer.UnbinObjects(order, offsets);
    OffsetsOfAll(writer.w, s, order, writer.lockWords);
    writer.UpdateRelocations(offsets);
  }

  /** Copies, and hash codes back in the originals that had one. */
  method CopyAll(writer: Writer, order: seq<nat>, begins: seq<nat>, ghost s: State) returns (copies: map<nat, Copy>)
    requires writer.w.Valid() && Marks(writer.w, s) && IsOrder(writer.w, s, order)
    requires writer.saved == s.saved && writer.refs == s.refs && writer.oatIndex == s.oatIndex
    requires HaveOffsets(writer.w, s, writer.lockWords)
    requires CanCopyAll(writer.w, s, writer.lockWords, s.oatIndex, begins, s.refs, order)
    modifies writer`lockWords, writer`saved
    ensures Finished(writer.w, s, begins, copies) && AllRestoredIffHashed(writer.w, s, writer.lockWords)
  {
    ghost var offsetWords := writer.lockWords;
    copies := writer.CopyAndFixupObjects(order, begins, s);
    CopiesFinish(writer.w, s, begins, order, copies);
    OriginalsAreRestored(writer.w, s, offsetWords, writer.lockWords);
  }

  /** The part of a run after the walk and the layout. */
  method FinishImages(writer: Writer, order: seq<nat>, offsets: seq<seq<nat>>, begins: seq<nat>, ghost s: State)
      returns (copies: map<nat, Copy>)
    requires s == writer.Current() && Inv(writer.w, s, None) && Walked(writer.w, s) && BinsAreSmall(s)
    requires writer.AllOffsets(s.natives.sizes, offsets) && |begins| == writer.w.images
    requires IsOrder(writer.w, s, order) && forall i, j :: 0 <= i < j < |order| ==> order[i] != order[j]
    modifies writer
    ensures Finished(writer.w, s, begins, copies) && AllRestoredIffHashed(writer.w, s, writer.lockWords)
    ensures AreMoved(writer.w, s, writer.natives.relocations)
  {
    PlaceAll(writer, order, offsets, s);
    AllReadyToCopy(writer.w, s, writer.lockWords, begins, order);
    copies := CopyAll(writer, order, begins, s);
  }

  lemma {:induction false} OriginalsAreRestored(
    w: World, s: State, offsets: map<nat, LockWord>, final: map<nat, LockWord>)
    requires w.Valid() && Marks(w, s) && HaveOffsets(w, s, offsets) && AreRestored(offsets, s.saved, final)
    ensures AllRestoredIffHashed(w, s, final)
  {
    forall o | o in s.slots ensures RestoredIffHashed(w, final, o) {
      OriginalIsRestoredIff(w, s, offsets, final, o);
    }
  }

  ghost predicate RestoredIffHashed(w: World, lockWords: map<nat, LockWord>, o: nat) {
    o in lockWords && o in w.locks && (lockWords[o] == w.locks[o] <==> w.locks[o].HashCode?)
  }

  ghost predicate AllRestoredIffHashed(w: World, s: State, lockWords: map<nat, LockWord>) {
    forall o :: o in s.slots ==> RestoredIffHashed(w, lockWords, o)
  }

  /** The walk and the check that it found everything. */
  method WalkHeap(
    w: World, imageMethods: seq<nat>, strings: seq<(Option<nat>, nat)>,
    roots: seq<Option<nat>>, order: seq<nat>)
      returns (writer: Writer, complete: bool)
    requires w.Valid()
    requires forall i, j :: 0 <= i < j < |imageMethods| ==> imageMethods[i] != imageMethods[j]
    requires AreRoots(w, strings, roots)
    requires forall o :: o in w.objects <==> o in order
    ensures fresh(writer) && writer.w == w && Inv(w, writer.Current(), None) && Walked(w, writer.Current())
    ensures complete <==> forall o :: o in w.objects && o !in w.boot ==> Reachable(w, o)
    ensures complete ==> IsOrder(w, writer.Current(), order)
  {
    writer := new Writer(w, imageMethods);
    writer.AssignBinSlots(strings, roots);
    complete := writer.EnsureBinSlotsAssigned(order);
    forall o ensures o in writer.slots <==> Reachable(w, o) {
      WalkIsExact(w, writer.Current(), o);
    }
  }

  /** What a run leaves: where the image files begin and end, their sections, the
      copies, the lock words of the originals, and the native relocations. */
  datatype Images = Images(
    begins: seq<nat>, ends: seq<nat>, sections: seq<Sections>, copies: map<nat, Copy>,
    lockWords: map<nat, LockWord>, relocations: map<N.Ptr, N.Relocation>)

  ghost predicate AreLaidOut(w: World, s: State, globalBegin: nat, r: Images) {
    && LaidOut(w, s) && Contains(s, r.ends) && Placed(globalBegin, r.ends, r.begins) && |r.sections| == |r.ends|
    && forall k {:trigger r.ends[k]} :: 0 <= k < |r.ends| ==>
         AreSections(w, s.natives.sizes[k], s.imageEnds[k], r.sections[k], r.ends[k])
  }

  /** One run over a heap. `complete` says that every object outside the boot
      image is reached, `fits` that the bins stay small; then objects are copied,
      native data has its place, and originals with hash codes are restored. */
  method WriteImages(
    w: World, imageMethods: seq<nat>, strings: seq<(Option<nat>, nat)>,
    roots: seq<Option<nat>>, order: seq<nat>, tableBytes: seq<(nat, nat)>, globalBegin: nat)
      returns (complete: bool, fits: bool, r: Images, ghost s: State)
    requires w.Valid() && |tableBytes| == w.images
    requires forall i, j :: 0 <= i < j < |imageMethods| ==> imageMethods[i] != imageMethods[j]
    requires AreRoots(w, strings, roots)
    requires forall i, j :: 0 <= i < j < |order| ==> order[i] != order[j]
    requires forall o :: o in w.objects <==> o in order
    ensures Inv(w, s, None) && Walked(w, s) && AreLaidOut(w, s, globalBegin, r)
    ensures complete <==> forall o :: o in w.objects && o !in w.boot ==> Reachable(w, o)
    ensures fits <==> BinsAreSmall(s)
    ensures complete && fits ==> Finished(w, s, r.begins, r.copies) && AreMoved(w, s, r.relocations)
    ensures complete && fits ==> AllRestoredIffHashed(w, s, r.lockWords)
  {
    var writer: Writer;
    writer, complete := WalkHeap(w, imageMethods, strings, roots, order);
    s := writer.Current();
    fits := BinsFit(writer.natives.sizes);
    var offsets := writer.CalculateOffsets();
    var sections, ends := CreateAllSections(writer, offsets, tableBytes, s);
    var begins := PlaceImages(globalBegin, ends);
    var copies: map<nat, Copy> := map[];
    if complete && fits {
      copies := FinishImages(writer, order, offsets, begins, s);
    }
    r := Images(begins, ends, sections, copies, writer.lockWords, writer.natives.relocations);
  }

  /** `copied` is what reference `ref` becomes: null, a boot image object, or the
      address at which the copy of the object lies, inside its image file. */
  ghost predicate Meets(
    w: World, begins: seq<nat>, ends: seq<nat>, copies: map<nat, Copy>, ref: Option<nat>, copied: Option<Address>)
  {
    if ref.None? then copied.None?
    else if ref.value in w.boot then copied == Some(Boot(ref.value))
    else
      && ref.value in copies && ref.value in w.objects
      && var c := copies[ref.value];
         && c.image < |begins| == |ends| && copied == Some(Image(begins[c.image] + c.offset))
         && w.begin <= c.offset && c.offset + Extent(w, ref.value) <= ends[c.image]
  }

  lemma {:induction false} AddressMeetsCopy(
    w: World, s: State, begins: seq<nat>, ends: seq<nat>, copies: map<nat, Copy>, ref: Option<nat>)
    requires LaidOut(w, s) && Contains(s, ends) && |begins| == |ends| && w.begin % 8 == 0
    requires ref.Some? && ref.value !in w.boot ==>
               && ref.value in s.slots && ref.value in w.objects
               && ref.value in copies && IsAt(w, s, ref.value, copies[ref.value])
    ensures Meets(w, begins, ends, copies, ref, AddressOf(w, s, begins, ref))
  {
    if ref.Some? && ref.value !in w.boot {
      ObjectsAreInside(w, s, ref.value);
    }
  }

  /** The address of a copy is the address that objects are apart by. */
  lemma {:induction false} CopiesAreAtAddresses(w: World, s: State, globalBegin: nat, r: Images, o: nat)
    requires AreLaidOut(w, s, globalBegin, r) && o in r.copies && IsAt(w, s, o, r.copies[o])
    ensures s.slots[o].oatIndex < w.images && r.copies[o].image < |r.begins|
    ensures r.begins[r.copies[o].image] + r.copies[o].offset == AddressIn(w, s, globalBegin, r.ends, o)
  {
  }

  /** A finished copy refers to the very bytes where the copies of the objects
      lie. */
  lemma {:induction false} ReferencesMeetCopies(w: World, s: State, globalBegin: nat, r: Images, o: nat, i: nat)
    requires Inv(w, s, None) && Walked(w, s) && AreLaidOut(w, s, globalBegin, r) && Finished(w, s, r.begins, r.copies)
    requires w.begin % 8 == 0 && o in s.slots && o in w.graph && i < |w.graph[o]|
    ensures o in r.copies && o in s.refs && |s.refs[o]| == |r.copies[o].refs| == |w.graph[o]|
    ensures Meets(w, r.begins, r.ends, r.copies, s.refs[o][i], r.copies[o].refs[i])
  {
    SlottedIsWalked(w, s, o);
    ReferencesStayInside(w, s, o, i);
    assert o in w.objects && o !in w.boot;
    AddressMeetsCopy(w, s, r.begins, r.ends, r.copies, s.refs[o][i]);
  }

  /** A heap for one image in which the roots reach everything. */
  ghost predicate IsReached(w: World, roots: seq<Option<nat>>, order: seq<nat>) {
    && w.Valid() && w.images == 1 && AreRoots(w, [], roots)
    && (forall i, j :: 0 <= i < j < |order| ==> order[i] != order[j])
    && (forall p :: p in w.objects <==> p in order)
    && (forall p :: p in w.objects && p !in w.boot ==> Reachable(w, p))
  }

  /** A run over a heap in which everything is reached: an original without a hash
      code does not get its lock word back. */
  method WriteUnlocked(w: World, roots: seq<Option<nat>>, order: seq<nat>, o: nat)
      returns (complete: bool, fits: bool, r: Images)
    requires IsReached(w, roots, order) && o in w.objects && o !in w.boot && w.locks[o].Unlocked?
    ensures complete
    ensures fits ==> o in r.lockWords && r.lockWords[o] != w.locks[o]
  {
    ghost var s;
    complete, fits, r, s := WriteImages(w, [], [], roots, order, [(0, 0)], 0);
    WalkIsExact(w, s, o);
    assert fits ==> RestoredIffHashed(w, r.lockWords, o);
  }

  method WriteTwoStrings() returns (complete: bool, fits: bool, r: Images)
    ensures complete
    ensures fits ==> 2 in r.lockWords && r.lockWords[2] != Unlocked
  {
    var w := TwoStrings();
    TwoStringsFacts(w);
    TwoStringsObjects(w);
    TwoStringsAreReached(w);
    complete, fits, r := WriteUnlocked(w, [Some(2)], [0, 1, 2], 2);
  }

  lemma {:induction false} TwoStringsObjects(w: World)
    requires w == TwoStrings()
    ensures w.objects.Keys == {0, 1, 2} && 2 in w.locks && w.locks[2] == Unlocked && w.boot == {0}
  {
  }

  lemma {:induction false} TwoStringsAreReached(w: World)
    requires w.Valid() && w.images == 1 && AreRoots(w, [], [Some(2)]) && Reachable(w, 2)
    requires w.objects.Keys == {0, 1, 2} && w.boot == {0} && w.graph[2] == [Some(0), Some(1)]
    ensures IsReached(w, [Some(2)], [0, 1, 2])
  {
    assert w.graph[2][1] == Some(1);
    ReachesOn(w, 2, 1);
  }
}
