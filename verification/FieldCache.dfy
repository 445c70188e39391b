/** The hash-slotted field array of a dex cache, made deterministic before it is
    written into an image: every slot ends with its lowest valid index. */
module FieldCache {
  import opened Util

  type FieldIndex = nat
  type ClassIdx = nat
  type FieldPtr = nat

  const FIELD_CACHE_SIZE: nat := 1024

  /** What the class linker answers for one dex file. A type index has a value
      when the type is resolved to a class that is kept, and `find` is the field
      lookup in that class. */
  datatype DexFile = DexFile(
    classOf: seq<ClassIdx>,                          // field_id.class_idx_, per field index
    keptClass: ClassIdx -> Option<nat>,              // LookupResolvedType, null unless KeepClass
    find: (nat, FieldIndex) -> Option<FieldPtr>)     // Class::FindField on that class

  datatype Pair = Pair(index: FieldIndex, field: FieldPtr)
  type Slot = Option<Pair>  // None for a pair whose object is null

  function SlotIndex(i: FieldIndex): (s: nat)
    ensures s < FIELD_CACHE_SIZE
  {
    i % FIELD_CACHE_SIZE
  }

  /** The field that index `i` resolves to in the image, if any. */
  function Resolved(d: DexFile, i: FieldIndex): Option<FieldPtr>
    requires i < |d.classOf|
  {
    var k := d.keptClass(d.classOf[i]);
    if k.None? then None else d.find(k.value, i)
  }

  /** `p` is the entry of the lowest index below `n` that maps to slot `s` and resolves. */
  ghost predicate IsLowest(d: DexFile, s: nat, n: nat, p: Pair)
    requires n <= |d.classOf|
  {
    && p.index < n && SlotIndex(p.index) == s && Resolved(d, p.index) == Some(p.field)
    && forall j :: 0 <= j < p.index && SlotIndex(j) == s ==> Resolved(d, j).None?
  }

  ghost predicate NoneBelow(d: DexFile, s: nat, n: nat)
    requires n <= |d.classOf|
  {
    forall j :: 0 <= j < n && SlotIndex(j) == s ==> Resolved(d, j).None?
  }

  /** A stored pair sits in its own slot and, if its class is kept, holds the
      field its index resolves to. */
  ghost predicate ConsistentSlot(d: DexFile, s: nat, slot: Slot) {
    slot.Some? ==>
      var p := slot.value;
      && p.index < |d.classOf| && SlotIndex(p.index) == s
      && (d.keptClass(d.classOf[p.index]).Some? ==> Resolved(d, p.index) == Some(p.field))
  }

  ghost predicate Consistent(d: DexFile, slots: seq<Slot>) {
    forall s :: 0 <= s < |slots| ==> ConsistentSlot(d, s, slots[s])
  }

  /** The contents the array must have whatever it held before. */
  ghost predicate Deterministic(d: DexFile, slots: seq<Slot>) {
    forall s :: 0 <= s < |slots| ==>
      match slots[s]
      case Some(p) => IsLowest(d, s, |d.classOf|, p)
      case None => NoneBelow(d, s, |d.classOf|)
  }

  lemma {:induction false} DeterministicIsUnique(d: DexFile, a: seq<Slot>, b: seq<Slot>)
    requires |a| == |b| && Deterministic(d, a) && Deterministic(d, b)
    ensures a == b
  {
    forall s | 0 <= s < |a| ensures a[s] == b[s] {
      if a[s].Some? && b[s].Some? {
        var i, j := a[s].value.index, b[s].value.index;
        assert SlotIndex(i) == SlotIndex(j) == s;
      }
    }
  }

  /** Progress of the field loop on one slot: it is final below `n`, or it
      still holds what it started with, at an index not yet reached. */
  ghost predicate SlotDone(d: DexFile, s: nat, n: nat, slot: Slot, start: Slot)
    requires n <= |d.classOf|
  {
    || (slot.Some? && IsLowest(d, s, n, slot.value))
    || (NoneBelow(d, s, n) && (slot.Some? ==> slot == start && n <= slot.value.index))
  }

  /** What the loop body does to the slot of index `n`. */
  function StepSlot(d: DexFile, n: FieldIndex, slot: Slot): Slot
    requires n < |d.classOf|
  {
    if slot.Some? && n > slot.value.index then slot
    else if slot.None? || n < slot.value.index then
      (if Resolved(d, n).Some? then Some(Pair(n, Resolved(d, n).value)) else slot)
    else if d.keptClass(d.classOf[n]).None? then None else slot
  }

  lemma {:induction false} StepKeepsProgress(d: DexFile, s: nat, n: nat, slot: Slot, start: Slot)
    requires n < |d.classOf| && SlotDone(d, s, n, slot, start)
    requires ConsistentSlot(d, s, start)
    ensures SlotDone(d, s, n + 1, if SlotIndex(n) == s then StepSlot(d, n, slot) else slot, start)
  {
  }

  class DexCache {
    const dex: DexFile
    var slots: seq<Slot>

    constructor (dex: DexFile, slots: seq<Slot>)
      ensures this.dex == dex && this.slots == slots
    {
      this.dex := dex;
      this.slots := slots;
    }

    method SetResolvedField(i: FieldIndex, field: FieldPtr)
      requires SlotIndex(i) < |slots|
      modifies this`slots
      ensures slots == old(slots)[SlotIndex(i) := Some(Pair(i, field))]
    {
      slots := slots[SlotIndex(i) := Some(Pair(i, field))];
    }

    method ClearResolvedField(i: FieldIndex)
      requires SlotIndex(i) < |slots|
      modifies this`slots
      ensures |slots| == |old(slots)|
      ensures forall s :: 0 <= s < |slots| ==>
                slots[s] == if s == SlotIndex(i) && old(slots)[s].Some? && old(slots)[s].value.index == i
                            then None else old(slots)[s]
    {
      var slot := slots[SlotIndex(i)];
      if slot.Some? && slot.value.index == i {
        slots := slots[SlotIndex(i) := None];
      }
    }

    /** The loop over field ids of PruneAndPreloadDexCache. */
    method PruneFields()
      requires Consistent(dex, slots)
      requires forall i :: 0 <= i < |dex.classOf| ==> SlotIndex(i) < |slots|
      modifies this`slots
      ensures |slots| == |old(slots)|
      ensures Deterministic(dex, slots)
    {
      var lastClassIdx: Option<ClassIdx> := None;
      var lastClass: Option<nat> := None;
      for i := 0 to |dex.classOf|
        invariant |slots| == |old(slots)|
        invariant forall s :: 0 <= s < |slots| ==> SlotDone(dex, s, i, slots[s], old(slots)[s])
        // The cached class is always what a fresh lookup would give.
        invariant lastClassIdx.Some? ==> lastClass == dex.keptClass(lastClassIdx.value)
      {
        ghost var before := slots;
        forall s | 0 <= s < |slots|
          ensures SlotDone(dex, s, i + 1,
                           if SlotIndex(i) == s then StepSlot(dex, i, before[s]) else before[s], old(slots)[s])
        {
          StepKeepsProgress(dex, s, i, before[s], old(slots)[s]);
        }
        var slot := slots[SlotIndex(i)];
        if slot.Some? && i > slot.value.index {
          continue;
        }
        if lastClassIdx != Some(dex.classOf[i]) {
          lastClassIdx := Some(dex.classOf[i]);
          lastClass := dex.keptClass(dex.classOf[i]);
        }
        if slot.None? || i < slot.value.index {
          if lastClass.Some? {
            var field := dex.find(lastClass.value, i);
            if field.Some? {
              SetResolvedField(i, field.value);
            }
          }
        } else if lastClass.None? {
          ClearResolvedField(slot.value.index);
        }
      }
    }
  }
}
