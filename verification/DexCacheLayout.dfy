/** DexCacheArraysLayout: the arrays of one dex cache in one block. */
module DexCacheLayout {
  import opened Util
  import opened ImageBins

  const CACHE_SIZE: nat := 1024

  /** Numbers of ids in the header of a dex file. */
  datatype Counts = Counts(types: nat, methods: nat, strings: nat, fields: nat, protos: nat, callSites: nat)

  /** Types, methods, strings, fields, method types and call sites, in this order. */
  type Which = k: nat | k < 6

  function Capped(n: nat): nat {
    if n < CACHE_SIZE then n else CACHE_SIZE
  }

  function Words(ptr: PointerSize, n: nat): nat {
    if ptr.P32? then 4 * n else 8 * n
  }

  function Pairs(ptr: PointerSize, n: nat): nat {
    if ptr.P32? then 8 * n else 16 * n
  }

  /** The room an array takes; fields get room for all ids, not only for a cache. */
  function Reserved(ptr: PointerSize, c: Counts, k: Which): nat {
    match k
    case 0 => 8 * Capped(c.types)
    case 1 => Words(ptr, c.methods)
    case 2 => 8 * Capped(c.strings)
    case 3 => Pairs(ptr, c.fields)
    case 4 => 8 * Capped(c.protos)
    case _ => 4 * c.callSites
  }

  /** The bytes of an array that the dex cache uses. */
  function Used(ptr: PointerSize, c: Counts, k: Which): nat {
    if k == 3 then Pairs(ptr, Capped(c.fields)) else Reserved(ptr, c, k)
  }

  /** Alignment of the elements of an array. */
  function Alignment(ptr: PointerSize, k: Which): (a: nat)
    ensures a == 4 || a == 8 || a == 16
  {
    if k == 1 then ptr.Bytes() else if k == 3 then 2 * ptr.Bytes() else 8
  }

  function ArrayOffset(ptr: PointerSize, c: Counts, k: Which): nat {
    if k == 0 then 0 else RoundUp(ArrayOffset(ptr, c, k - 1) + Reserved(ptr, c, k - 1), Alignment(ptr, k))
  }

  function Size(ptr: PointerSize, c: Counts): nat {
    RoundUp(ArrayOffset(ptr, c, 5) + Reserved(ptr, c, 5), 2 * ptr.Bytes())
  }

  lemma {:induction false} ArraysAreApart(ptr: PointerSize, c: Counts, j: Which, k: Which)
    requires j < k
    ensures ArrayOffset(ptr, c, j) + Reserved(ptr, c, j) <= ArrayOffset(ptr, c, k)
  {
    if j < k - 1 {
      ArraysAreApart(ptr, c, j, k - 1);
    }
  }

  /** Arrays lie in the block at their alignment, relative to its start, and what
      is used fits into what is reserved. The block ends at its own alignment. */
  lemma {:induction false} ArrayFits(ptr: PointerSize, c: Counts, k: Which)
    ensures ArrayOffset(ptr, c, k) % Alignment(ptr, k) == 0
    ensures Used(ptr, c, k) <= Reserved(ptr, c, k)
    ensures ArrayOffset(ptr, c, k) + Reserved(ptr, c, k) <= Size(ptr, c)
    ensures Size(ptr, c) % (2 * ptr.Bytes()) == 0
  {
    RoundUpAligned(ArrayOffset(ptr, c, 5) + Reserved(ptr, c, 5), 2 * ptr.Bytes());
    if k > 0 {
      RoundUpAligned(ArrayOffset(ptr, c, k - 1) + Reserved(ptr, c, k - 1), Alignment(ptr, k));
    }
    if k < 5 {
      ArraysAreApart(ptr, c, k, 5);
    }
  }

  /** The element of every id lies in the used part of the array that serves its
      kind: methods and call sites have an element each, other ids share one with
      those that differ by a multiple of the cache size. */
  lemma {:induction false} ElementsFit(ptr: PointerSize, c: Counts, id: nat)
    ensures id < c.types ==> 8 * (id % CACHE_SIZE) + 8 <= Used(ptr, c, 0)
    ensures id < c.methods ==> ptr.Bytes() * id + ptr.Bytes() <= Used(ptr, c, 1)
    ensures id < c.strings ==> 8 * (id % CACHE_SIZE) + 8 <= Used(ptr, c, 2)
    ensures id < c.fields ==> 2 * ptr.Bytes() * (id % CACHE_SIZE) + 2 * ptr.Bytes() <= Used(ptr, c, 3)
    ensures id < c.protos ==> 8 * (id % CACHE_SIZE) + 8 <= Used(ptr, c, 4)
    ensures id < c.callSites ==> 4 * id + 4 <= Used(ptr, c, 5)
  {
    CachedIdFits(id, c.types);
    CachedIdFits(id, c.strings);
    CachedIdFits(id, c.fields);
    CachedIdFits(id, c.protos);
    if ptr.P32? {
      assert ptr.Bytes() * id == 4 * id;
    } else {
      assert ptr.Bytes() * id == 8 * id;
    }
  }

  lemma {:induction false} CachedIdFits(id: nat, n: nat)
    ensures id < n ==> id % CACHE_SIZE < Capped(n)
  {
    if id < CACHE_SIZE {
      assert id % CACHE_SIZE == id;
    }
  }

  /** And the used part has no more than that: if element `n` begins in it, there is
      an id `n`, and it is one of those that a cache has an element for. */
  lemma {:induction false} ElementsFill(ptr: PointerSize, c: Counts, n: nat)
    ensures 8 * n < Used(ptr, c, 0) ==> n < c.types && n < CACHE_SIZE
    ensures ptr.Bytes() * n < Used(ptr, c, 1) ==> n < c.methods
    ensures 8 * n < Used(ptr, c, 2) ==> n < c.strings && n < CACHE_SIZE
    ensures 2 * ptr.Bytes() * n < Used(ptr, c, 3) ==> n < c.fields && n < CACHE_SIZE
    ensures 8 * n < Used(ptr, c, 4) ==> n < c.protos && n < CACHE_SIZE
    ensures 4 * n < Used(ptr, c, 5) ==> n < c.callSites
  {
    if ptr.P32? {
      assert ptr.Bytes() * n == 4 * n && 2 * ptr.Bytes() * n == 8 * n;
    } else {
      assert ptr.Bytes() * n == 8 * n && 2 * ptr.Bytes() * n == 16 * n;
    }
  }

  /** A block at its alignment has all its arrays at theirs. */
  lemma {:induction false} ArrayIsAligned(ptr: PointerSize, c: Counts, start: nat, k: Which)
    requires start % (2 * ptr.Bytes()) == 0
    ensures (start + ArrayOffset(ptr, c, k)) % Alignment(ptr, k) == 0
  {
    ArrayFits(ptr, c, k);
    SumIsAligned(ptr, start, ArrayOffset(ptr, c, k), k);
  }

  lemma {:induction false} SumIsAligned(ptr: PointerSize, start: nat, offset: nat, k: Which)
    requires start % (2 * ptr.Bytes()) == 0 && offset % Alignment(ptr, k) == 0
    ensures (start + offset) % Alignment(ptr, k) == 0
  {
    var n := Alignment(ptr, k);
    assert start % n == 0 by {
      assert n == 2 * ptr.Bytes() || start % 8 == 0;
    }
    SumOfMultiples(start, offset, n);
  }
}
