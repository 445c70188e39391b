/** Decoding of the catch handler list of a code item (Dalvik Executable format,
    "code_item" and "encoded_catch_handler_list"): the walk that is bounded by
    the size of the list it builds, and the separate size computation. */
module CatchHandlers {
  import opened Util

  type Bytes = seq<Byte>

  const TWO_16: nat := 0x1_0000
  const NO_INDEX_16: nat := 0xFFFF

  /* ---- LEB128 ---- */

  /** The position after the LEB128 value at `p`, of at most `left` bytes;
      None when it would be read past the end. */
  function LebEnd(b: Bytes, p: nat, left: nat): (r: Option<nat>)
    requires left > 0
    ensures r.Some? ==> p < r.value <= |b| && r.value <= p + left
    decreases |b|, left
  {
    if p >= |b| then None
    else if left == 1 || b[p] <= 0x7f then Some(p + 1)
    else LebEnd(b, p + 1, left - 1)
  }

  /** Its value as a uint32_t; of a fifth byte only the low four bits remain. */
  function LebValue(b: Bytes, p: nat, left: nat): nat
    requires left > 0 && LebEnd(b, p, left).Some?
    decreases |b|, left
  {
    if left == 1 then b[p] % 16
    else if b[p] <= 0x7f then b[p]
    else b[p] - 0x80 + 0x80 * LebValue(b, p + 1, left - 1)
  }

  /** The number of values that `len` bytes of seven bits hold. */
  function Width(len: nat): nat
    requires 1 <= len <= 5
  {
    match len
    case 1 => 0x80
    case 2 => 0x4000
    case 3 => 0x20_0000
    case 4 => 0x1000_0000
    case _ => TWO_32
  }

  function UlebEnd(b: Bytes, p: nat): (r: Option<nat>)
    ensures r.Some? ==> p < r.value <= |b|
  {
    LebEnd(b, p, 5)
  }

  function Uleb(b: Bytes, p: nat): nat
    requires UlebEnd(b, p).Some?
  {
    LebValue(b, p, 5)
  }

  function Sleb(b: Bytes, p: nat): int
    requires UlebEnd(b, p).Some?
  {
    var v, w := Uleb(b, p), Width(UlebEnd(b, p).value - p);
    if 2 * v >= w then v - w else v
  }

  /** The position after `n` consecutive LEB128 values. */
  function SkipEnd(b: Bytes, p: nat, n: nat): (r: Option<nat>)
    ensures r.Some? ==> p + n <= r.value && (p <= |b| ==> r.value <= |b|)
  {
    if n == 0 then Some(p)
    else match SkipEnd(b, p, n - 1)
      case None => None
      case Some(q) => UlebEnd(b, q)
  }

  /* ---- One encoded_catch_handler ---- */

  datatype Pair = Pair(typeIdx: Option<nat>, address: nat)  // None catches all

  datatype CatchHandler = CatchHandler(catchAll: bool, listOffset: nat, pairs: seq<Pair>)

  function TypeIdOrNull(index: nat): Option<nat> {
    if index % TWO_16 == NO_INDEX_16 then None else Some(index % TWO_16)
  }

  function Abs(x: int): nat {
    if x < 0 then -x else x
  }

  /** The first `n` type and address pairs at `p`. */
  function Pairs(b: Bytes, p: nat, n: nat): (ps: seq<Pair>)
    requires SkipEnd(b, p, 2 * n).Some?
    ensures |ps| == n
  {
    if n == 0 then []
    else
      SkipPrefix(b, p, 2 * n - 1, 2 * n);
      SkipPrefix(b, p, 2 * n - 2, 2 * n);
      Pairs(b, p, n - 1) +
      [Pair(TypeIdOrNull(Uleb(b, SkipEnd(b, p, 2 * n - 2).value)), Uleb(b, SkipEnd(b, p, 2 * n - 1).value))]
  }

  lemma {:induction false} SkipPrefix(b: Bytes, p: nat, m: nat, n: nat)
    requires m <= n && SkipEnd(b, p, n).Some?
    ensures SkipEnd(b, p, m).Some?
    ensures m < n ==> UlebEnd(b, SkipEnd(b, p, m).value).Some?
    decreases n
  {
    if m < n {
      SkipPrefix(b, p, m, n - 1);
    }
  }

  /** The LEB128 values after the size of the entry at `p`. */
  function ValueCount(b: Bytes, p: nat): nat
    requires UlebEnd(b, p).Some?
  {
    var size := Sleb(b, p);
    2 * Abs(size) + (if size <= 0 then 1 else 0)
  }

  /** Where the entry at `p` ends. */
  function EntryEnd(b: Bytes, p: nat): (r: Option<nat>)
    ensures r.Some? ==> p < r.value <= |b|
  {
    if UlebEnd(b, p).None? then None else SkipEnd(b, UlebEnd(b, p).value, ValueCount(b, p))
  }

  /** The entry at `p`, with the list offset under which it is filed. */
  function Entry(b: Bytes, p: nat, offset: nat): CatchHandler
    requires EntryEnd(b, p).Some?
  {
    var q, size := UlebEnd(b, p).value, Sleb(b, p);
    SkipPrefix(b, q, 2 * Abs(size), ValueCount(b, p));
    var typed := Pairs(b, q, Abs(size));
    if size <= 0
    then CatchHandler(true, offset, typed + [Pair(None, Uleb(b, SkipEnd(b, q, 2 * Abs(size)).value))])
    else CatchHandler(false, offset, typed)
  }

  /* ---- The list ---- */

  /** `starts` are the entry positions of the list in `b`, then its end. */
  ghost predicate IsHandlerList(b: Bytes, starts: seq<nat>) {
    && |b| < 0x8000_0000
    && UlebEnd(b, 0).Some?
    && |starts| == Uleb(b, 0) + 1 && starts[0] == UlebEnd(b, 0).value
    && forall j :: 0 <= j < |starts| - 1 ==> EntryAt(b, starts, j)
  }

  ghost predicate EntryAt(b: Bytes, starts: seq<nat>, j: nat)
    requires j < |starts| - 1
  {
    EntryEnd(b, starts[j]) == Some(starts[j + 1])
  }

  /** No typed handler of the entry has the index that stands for "no type". */
  ghost predicate TypesNamed(b: Bytes, p: nat)
    requires EntryEnd(b, p).Some?
  {
    var q, n := UlebEnd(b, p).value, Abs(Sleb(b, p));
    SkipPrefix(b, q, 2 * n, ValueCount(b, p));
    !HasNull(Pairs(b, q, n))
  }

  method SkipValues(b: Bytes, q: nat, n: nat) returns (cursor: nat)
    requires SkipEnd(b, q, n).Some?
    ensures SkipEnd(b, q, n) == Some(cursor)
  {
    cursor := q;
    for j := 0 to n
      invariant SkipEnd(b, q, j) == Some(cursor)
    {
      SkipPrefix(b, q, j, n);
      cursor := UlebEnd(b, cursor).value;
    }
  }

  /** The handler part of GetCodeItemSize: the cursor it stops at. */
  method SizeWalk(b: Bytes, ghost starts: seq<nat>) returns (cursor: nat)
    requires IsHandlerList(b, starts)
    ensures cursor == starts[|starts| - 1]
  {
    var handlersSize := Uleb(b, 0);
    cursor := UlebEnd(b, 0).value;
    for i := 0 to handlersSize
      invariant cursor == starts[i]
    {
      assert EntryAt(b, starts, i);
      var count := Sleb(b, cursor) * 2;
      // No overflow of the int32_t count: the entry's values are all in `b`.
      assert -0x8000_0000 < count < 0x8000_0000;
      if count <= 0 {
        count := -count + 1;
      }
      cursor := SkipValues(b, UlebEnd(b, cursor).value, count);
    }
  }

  ghost predicate HasNull(pairs: seq<Pair>) {
    exists i :: 0 <= i < |pairs| && pairs[i].typeIdx.None?
  }

  lemma {:induction false} HasNullAppend(pairs: seq<Pair>, p: Pair)
    ensures HasNull(pairs + [p]) <==> HasNull(pairs) || p.typeIdx.None?
  {
    var all := pairs + [p];
    assert all[|pairs|] == p;
    assert forall i :: 0 <= i < |pairs| ==> all[i] == pairs[i];
  }

  lemma {:induction false} SkipOne(b: Bytes, p: nat, m: nat, n: nat)
    requires m < n && SkipEnd(b, p, n).Some?
    ensures SkipEnd(b, p, m).Some? && SkipEnd(b, p, m + 1).Some?
    ensures SkipEnd(b, p, m + 1) == UlebEnd(b, SkipEnd(b, p, m).value)
  {
    SkipPrefix(b, p, m, n);
    SkipPrefix(b, p, m + 1, n);
  }

  lemma {:induction false} OneMorePair(b: Bytes, q: nat, i: nat)
    requires SkipEnd(b, q, 2 * i).Some? && SkipEnd(b, q, 2 * i + 1).Some? && SkipEnd(b, q, 2 * i + 2).Some?
    requires UlebEnd(b, SkipEnd(b, q, 2 * i).value).Some? && UlebEnd(b, SkipEnd(b, q, 2 * i + 1).value).Some?
    ensures Pairs(b, q, i + 1) == Pairs(b, q, i) +
            [Pair(TypeIdOrNull(Uleb(b, SkipEnd(b, q, 2 * i).value)), Uleb(b, SkipEnd(b, q, 2 * i + 1).value))]
  {
    assert 2 * (i + 1) - 2 == 2 * i && 2 * (i + 1) - 1 == 2 * i + 1;
  }

  /** Pair `j` is read from values `2 * j` and `2 * j + 1`. */
  lemma {:induction false} PairAt(b: Bytes, q: nat, n: nat, j: nat)
    requires j < n && SkipEnd(b, q, 2 * n).Some?
    ensures SkipEnd(b, q, 2 * j).Some? && SkipEnd(b, q, 2 * j + 1).Some?
    ensures UlebEnd(b, SkipEnd(b, q, 2 * j).value).Some? && UlebEnd(b, SkipEnd(b, q, 2 * j + 1).value).Some?
    ensures Pairs(b, q, n)[j] ==
            Pair(TypeIdOrNull(Uleb(b, SkipEnd(b, q, 2 * j).value)), Uleb(b, SkipEnd(b, q, 2 * j + 1).value))
    decreases n
  {
    SkipPrefix(b, q, 2 * j, 2 * n);
    SkipPrefix(b, q, 2 * j + 1, 2 * n);
    if j < n - 1 {
      SkipPrefix(b, q, 2 * n - 2, 2 * n);
      PairAt(b, q, n - 1, j);
    }
  }

  /** The `j`-th pair after `q`: value `2 * j` is its type, the next one its address. */
  ghost predicate IsPair(b: Bytes, q: nat, j: nat, pair: Pair) {
    && SkipEnd(b, q, 2 * j).Some? && SkipEnd(b, q, 2 * j + 1).Some?
    && var t, a := SkipEnd(b, q, 2 * j).value, SkipEnd(b, q, 2 * j + 1).value;
       && UlebEnd(b, t).Some? && UlebEnd(b, a).Some? && pair == Pair(TypeIdOrNull(Uleb(b, t)), Uleb(b, a))
  }

  /** `pairs` are the values behind the size of the entry at `p`, two each; if the
      size is not positive, the value that ends the entry is the address of one
      more pair, which has no type. */
  ghost predicate AreValues(b: Bytes, p: nat, pairs: seq<Pair>)
    requires EntryEnd(b, p).Some?
  {
    var q, size := UlebEnd(b, p).value, Sleb(b, p);
    var n: nat := if size <= 0 then -size else size;
    && |pairs| == (if size <= 0 then n + 1 else n)
    && (forall j :: 0 <= j < n ==> IsPair(b, q, j, pairs[j]))
    && (size <= 0 ==>
          && SkipEnd(b, q, 2 * n).Some?
          && var last := SkipEnd(b, q, 2 * n).value;
             UlebEnd(b, last) == EntryEnd(b, p) && pairs[n] == Pair(None, Uleb(b, last)))
  }

  lemma {:induction false} EntryIsRead(b: Bytes, p: nat, offset: nat)
    requires EntryEnd(b, p).Some?
    ensures AreValues(b, p, Entry(b, p, offset).pairs)
  {
    var q, size := UlebEnd(b, p).value, Sleb(b, p);
    var n, pairs := Abs(size), Entry(b, p, offset).pairs;
    SkipPrefix(b, q, 2 * n, ValueCount(b, p));
    forall j | 0 <= j < n ensures IsPair(b, q, j, pairs[j]) {
      PairAt(b, q, n, j);
    }
  }

  /** Pair `i` of the entry, and the cursor behind it. */
  method ReadPair(b: Bytes, q: nat, i: nat, n: nat, cursor: nat) returns (pair: Pair, next: nat)
    requires i < n && SkipEnd(b, q, 2 * n).Some? && SkipEnd(b, q, 2 * i) == Some(cursor)
    ensures SkipEnd(b, q, 2 * i + 2) == Some(next)
    ensures Pairs(b, q, i + 1) == Pairs(b, q, i) + [pair]
  {
    SkipOne(b, q, 2 * i, 2 * n);
    SkipOne(b, q, 2 * i + 1, 2 * n);
    OneMorePair(b, q, i);
    var typeIdx := TypeIdOrNull(Uleb(b, cursor));
    var middle := UlebEnd(b, cursor).value;
    pair := Pair(typeIdx, Uleb(b, middle));
    next := UlebEnd(b, middle).value;
  }

  /** Reads `n` type and address pairs; `anyNull` if one names no type. */
  method ReadPairs(b: Bytes, q: nat, n: nat) returns (pairs: seq<Pair>, anyNull: bool, cursor: nat)
    requires SkipEnd(b, q, 2 * n).Some?
    ensures pairs == Pairs(b, q, n) && SkipEnd(b, q, 2 * n) == Some(cursor)
    ensures anyNull <==> HasNull(pairs)
  {
    pairs, anyNull, cursor := [], false, q;
    for i := 0 to n
      invariant SkipEnd(b, q, 2 * i) == Some(cursor) && pairs == Pairs(b, q, i)
      invariant anyNull <==> HasNull(pairs)
    {
      var pair;
      pair, cursor := ReadPair(b, q, i, n, cursor);
      HasNullAppend(pairs, pair);
      anyNull := anyNull || pair.typeIdx.None?;
      pairs := pairs + [pair];
    }
  }

  /** CatchHandlerIterator over the entry at `p`, as CreateCodeItem collects it:
      "catches all" is read off the pairs. */
  method IterateHandlers(b: Bytes, p: nat) returns (catchAll: bool, pairs: seq<Pair>)
    requires EntryEnd(b, p).Some?
    ensures pairs == Entry(b, p, p).pairs && AreValues(b, p, pairs) && (catchAll <==> HasNull(pairs))
  {
    EntryIsRead(b, p, p);
    var size := Sleb(b, p);
    var cursor := UlebEnd(b, p).value;
    var remaining, catchAllLeft := size, false;
    if remaining <= 0 {
      catchAllLeft, remaining := true, -remaining;
    }
    SkipPrefix(b, cursor, 2 * Abs(size), ValueCount(b, p));
    pairs, catchAll, cursor := ReadPairs(b, cursor, remaining);
    if catchAllLeft {
      HasNullAppend(pairs, Pair(None, Uleb(b, cursor)));
      catchAll := true;
      pairs := pairs + [Pair(None, Uleb(b, cursor))];
    }
  }

  /** The iterator and the walk read "catches all" alike exactly for entries that
      have a catch-all or only typed handlers that name a type. */
  lemma {:induction false} ReadingsAgreeIff(b: Bytes, p: nat)
    requires EntryEnd(b, p).Some?
    ensures HasNull(Entry(b, p, p).pairs) == Entry(b, p, p).catchAll <==> Sleb(b, p) <= 0 || TypesNamed(b, p)
  {
    var q, size := UlebEnd(b, p).value, Sleb(b, p);
    SkipPrefix(b, q, 2 * Abs(size), ValueCount(b, p));
    if size <= 0 {
      HasNullAppend(Pairs(b, q, Abs(size)), Pair(None, Uleb(b, SkipEnd(b, q, 2 * Abs(size)).value)));
    }
  }

  method SkipPairs(b: Bytes, q: nat, n: nat) returns (cursor: nat)
    requires SkipEnd(b, q, 2 * n).Some?
    ensures SkipEnd(b, q, 2 * n) == Some(cursor)
  {
    cursor := q;
    for i := 0 to n
      invariant SkipEnd(b, q, 2 * i) == Some(cursor)
    {
      SkipPrefix(b, q, 2 * i, 2 * n);
      SkipPrefix(b, q, 2 * i + 1, 2 * n);
      cursor := UlebEnd(b, cursor).value;
      cursor := UlebEnd(b, cursor).value;
      assert SkipEnd(b, q, 2 * i + 2) == Some(cursor);
    }
  }

  /** The walk's own reading of the entry at `p`, and where it leaves the cursor. */
  method WalkEntry(b: Bytes, p: nat, offset: nat, alreadyAdded: bool)
      returns (handler: Option<CatchHandler>, cursor: nat)
    requires EntryEnd(b, p).Some?
    ensures Some(cursor) == EntryEnd(b, p)
    ensures handler == if alreadyAdded then None else Some(Entry(b, p, offset))
    ensures handler.Some? ==> AreValues(b, p, handler.value.pairs)
  {
    EntryIsRead(b, p, offset);
    var size := Sleb(b, p);
    cursor := UlebEnd(b, p).value;
    var hasCatchAll := size <= 0;
    if hasCatchAll {
      size := -size;
    }
    ghost var q := cursor;
    SkipPrefix(b, q, 2 * size, ValueCount(b, p));
    if alreadyAdded {
      cursor := SkipPairs(b, cursor, size);
      if hasCatchAll {
        cursor := UlebEnd(b, cursor).value;
      }
      return None, cursor;
    }
    var pairs, anyNull;
    pairs, anyNull, cursor := ReadPairs(b, cursor, size);
    if hasCatchAll {
      pairs := pairs + [Pair(None, Uleb(b, cursor))];
      cursor := UlebEnd(b, cursor).value;
    }
    return Some(CatchHandler(hasCatchAll, offset, pairs)), cursor;
  }

  /* ---- The walk bounded by the size of the list ---- */

  /** `uint16_t handler_off`: an offset into the list loses its high bits. */
  function Truncated(starts: seq<nat>): seq<nat>
    requires |starts| > 0
  {
    seq(|starts| - 1, j requires 0 <= j < |starts| - 1 => starts[j] % TWO_16)
  }

  ghost predicate Distinct(q: seq<nat>) {
    forall i, j :: 0 <= i < j < |q| ==> q[i] != q[j]
  }

  ghost function Elements(q: seq<nat>): set<nat> {
    set x | x in q
  }

  lemma {:induction false} DistinctCardinality(q: seq<nat>)
    ensures |Elements(q)| <= |q|
    ensures |Elements(q)| == |q| <==> Distinct(q)
  {
    if q != [] {
      var p, x := q[..|q| - 1], q[|q| - 1];
      DistinctCardinality(p);
      assert q == p + [x];
      assert Elements(q) == Elements(p) + {x};
      if x in p {
        var i :| 0 <= i < |p| && p[i] == x;
        assert q[i] == q[|q| - 1];
      } else {
        assert Distinct(p) ==> Distinct(q);
      }
      assert Distinct(q) ==> Distinct(p);
    }
  }

  lemma {:induction false} SubsetCardinality(a: set<nat>, b: set<nat>)
    requires a <= b
    ensures |a| <= |b|
    ensures |a| == |b| ==> a == b
  {
    if a != {} {
      var x :| x in a;
      SubsetCardinality(a - {x}, b - {x});
      assert a == (a - {x}) + {x} && b == (b - {x}) + {x};
    }
  }

  /** The list offsets on file once the walk has passed `j` entries. */
  ghost function Walked(offsets: seq<nat>, entries: seq<nat>, j: nat): seq<nat>
    requires j <= |entries|
  {
    if j == 0 then offsets
    else if entries[j - 1] in Walked(offsets, entries, j - 1) then Walked(offsets, entries, j - 1)
    else Walked(offsets, entries, j - 1) + [entries[j - 1]]
  }

  lemma {:induction false} WalkedElements(offsets: seq<nat>, entries: seq<nat>, j: nat)
    requires j <= |entries| && Distinct(offsets)
    ensures Distinct(Walked(offsets, entries, j))
    ensures Elements(Walked(offsets, entries, j)) == Elements(offsets) + Elements(entries[..j])
  {
    if j > 0 {
      WalkedElements(offsets, entries, j - 1);
      assert entries[..j] == entries[..j - 1] + [entries[j - 1]];
      var before := Walked(offsets, entries, j - 1);
      assert Elements(before + [entries[j - 1]]) == Elements(before) + {entries[j - 1]};
      assert Elements(entries[..j]) == Elements(entries[..j - 1]) + {entries[j - 1]};
      if entries[j - 1] in before {
        assert entries[j - 1] in Elements(before);
      }
    }
  }

  /** However many entries the try items already filed, the list has reached
      its full size at the last entry exactly when no two truncated offsets
      collide. Otherwise the loop reads on past the end of the list. */
  lemma {:induction false} WalkEndsInsideList(offsets: seq<nat>, entries: seq<nat>)
    requires Distinct(offsets) && Elements(offsets) <= Elements(entries)
    ensures |Walked(offsets, entries, |entries|)| == |entries| <==> Distinct(entries)
    ensures |Walked(offsets, entries, |entries|)| <= |entries|
  {
    var all := Walked(offsets, entries, |entries|);
    WalkedElements(offsets, entries, |entries|);
    assert entries[..|entries|] == entries;
    assert Elements(all) == Elements(entries);
    DistinctCardinality(all);
    DistinctCardinality(entries);
  }

  /** A list that fits in 64 KiB has no collision. */
  lemma {:induction false} SmallListsAreDistinct(b: Bytes, starts: seq<nat>)
    requires IsHandlerList(b, starts) && starts[|starts| - 1] <= TWO_16
    ensures Distinct(Truncated(starts))
  {
    forall i, j | 0 <= i < j < |starts| ensures starts[i] < starts[j] {
      StartsIncrease(b, starts, i, j);
    }
  }

  lemma {:induction false} StartsIncrease(b: Bytes, starts: seq<nat>, i: nat, j: nat)
    requires IsHandlerList(b, starts) && i < j < |starts|
    ensures starts[i] < starts[j]
    decreases j
  {
    assert EntryAt(b, starts, j - 1);
    if i < j - 1 {
      StartsIncrease(b, starts, i, j - 1);
    }
  }

  datatype TryItem = TryItem(startAddr: nat, insnCount: nat, handlerOff: nat)

  /** Every handler on file is an entry, under its list offset. */
  ghost predicate Faithful(b: Bytes, starts: seq<nat>, list: seq<CatchHandler>)
    requires IsHandlerList(b, starts)
  {
    forall i :: 0 <= i < |list| ==> OnFile(b, starts, list[i])
  }

  ghost predicate OnFile(b: Bytes, starts: seq<nat>, h: CatchHandler)
    requires IsHandlerList(b, starts)
  {
    exists j :: 0 <= j < |starts| - 1 && IsEntry(b, starts, j, h)
  }

  ghost predicate IsEntry(b: Bytes, starts: seq<nat>, j: nat, h: CatchHandler)
    requires IsHandlerList(b, starts) && j < |starts| - 1
  {
    EntryAt(b, starts, j) && Reads(Entry(b, starts[j], starts[j] % TWO_16), h)
  }

  /** `h` is entry `e`; whether it catches all is read off the size or the pairs. */
  ghost predicate Reads(e: CatchHandler, h: CatchHandler) {
    h.listOffset == e.listOffset && h.pairs == e.pairs && (h.catchAll == e.catchAll || h.catchAll == HasNull(e.pairs))
  }

  /** With named types both readings are the entry. */
  lemma {:induction false} NamedEntriesAreExact(b: Bytes, starts: seq<nat>, j: nat, h: CatchHandler)
    requires IsHandlerList(b, starts) && j < |starts| - 1 && IsEntry(b, starts, j, h)
    requires Sleb(b, starts[j]) <= 0 || TypesNamed(b, starts[j])
    ensures h == Entry(b, starts[j], starts[j] % TWO_16)
  {
    ReadingsAgreeIff(b, starts[j]);
  }

  function Offsets(list: seq<CatchHandler>): (r: seq<nat>)
    ensures |r| == |list|
  {
    seq(|list|, i requires 0 <= i < |list| => list[i].listOffset)
  }

  lemma {:induction false} Append(b: Bytes, starts: seq<nat>, list: seq<CatchHandler>, h: CatchHandler, j: nat)
    requires IsHandlerList(b, starts) && Faithful(b, starts, list)
    requires j < |starts| - 1 && IsEntry(b, starts, j, h)
    ensures Faithful(b, starts, list + [h])
    ensures Offsets(list + [h]) == Offsets(list) + [h.listOffset]
    ensures Distinct(Offsets(list)) && h.listOffset !in Offsets(list) ==> Distinct(Offsets(list + [h]))
  {
    assert OnFile(b, starts, h);
  }

  /** The search for an entry by its list offset. */
  method FindHandler(list: seq<CatchHandler>, offset: nat) returns (found: Option<nat>)
    ensures found.Some? ==> found.value < |list| && list[found.value].listOffset == offset
    ensures found.None? ==> offset !in Offsets(list)
  {
    for i := 0 to |list|
      invariant forall k :: 0 <= k < i ==> list[k].listOffset != offset
    {
      if list[i].listOffset == offset {
        return Some(i);
      }
    }
    return None;
  }

  /** `h` is the entry that begins at `off`, not only one with that list offset. */
  ghost predicate IsHandlerAt(b: Bytes, starts: seq<nat>, off: nat, h: CatchHandler)
    requires IsHandlerList(b, starts)
  {
    exists j :: 0 <= j < |starts| - 1 && starts[j] == off && IsEntry(b, starts, j, h)
  }

  ghost predicate AllAtOffsets(b: Bytes, starts: seq<nat>, list: seq<CatchHandler>)
    requires IsHandlerList(b, starts)
  {
    forall i :: 0 <= i < |list| ==> IsHandlerAt(b, starts, list[i].listOffset, list[i])
  }

  /** One try item: its handler is looked up, or read and filed. While only try
      items have filed handlers, list offsets are not truncated. */
  method FileTry(b: Bytes, list: seq<CatchHandler>, off: nat, ghost starts: seq<nat>)
      returns (updated: seq<CatchHandler>, index: nat)
    requires IsHandlerList(b, starts) && Faithful(b, starts, list) && Distinct(Offsets(list))
    requires AllAtOffsets(b, starts, list) && off in starts[..|starts| - 1] && off < TWO_16
    ensures Faithful(b, starts, updated) && Distinct(Offsets(updated)) && list <= updated
    ensures AllAtOffsets(b, starts, updated) && index < |updated| && IsHandlerAt(b, starts, off, updated[index])
  {
    var found := FindHandler(list, off);
    if found.Some? {
      return list, found.value;
    }
    ghost var j :| 0 <= j < |starts| - 1 && starts[j] == off;
    var handler := ReadHandler(b, off, starts, j);
    Append(b, starts, list, handler, j);
    assert IsHandlerAt(b, starts, off, handler);
    return list + [handler], |list|;
  }

  /** The handler that a try item is given is the one that it names. */
  ghost predicate HasHandler(b: Bytes, starts: seq<nat>, list: seq<CatchHandler>, t: TryItem, index: nat)
    requires IsHandlerList(b, starts)
  {
    index < |list| && IsHandlerAt(b, starts, t.handlerOff, list[index])
  }

  method ReadHandler(b: Bytes, off: nat, ghost starts: seq<nat>, ghost j: nat) returns (handler: CatchHandler)
    requires IsHandlerList(b, starts) && j < |starts| - 1 && starts[j] == off < TWO_16
    ensures IsEntry(b, starts, j, handler) && handler.listOffset == off
  {
    assert EntryAt(b, starts, j);
    var catchAll, pairs := IterateHandlers(b, off);
    handler := CatchHandler(catchAll, off, pairs);
  }

  ghost predicate HaveHandlers(
    b: Bytes, starts: seq<nat>, list: seq<CatchHandler>, tries: seq<TryItem>, handlerOf: seq<nat>)
    requires IsHandlerList(b, starts)
  {
    |handlerOf| <= |tries| &&
    forall t :: 0 <= t < |handlerOf| ==> HasHandler(b, starts, list, tries[t], handlerOf[t])
  }

  lemma {:induction false} HandlersStay(
    b: Bytes, starts: seq<nat>, list: seq<CatchHandler>, more: seq<CatchHandler>, tries: seq<TryItem>,
    handlerOf: seq<nat>)
    requires IsHandlerList(b, starts) && list <= more && HaveHandlers(b, starts, list, tries, handlerOf)
    ensures HaveHandlers(b, starts, more, tries, handlerOf)
  {
    forall t | 0 <= t < |handlerOf| ensures HasHandler(b, starts, more, tries[t], handlerOf[t]) {
      assert HasHandler(b, starts, list, tries[t], handlerOf[t]);
    }
  }

  /** The try items of CreateCodeItem: each handler they refer to, once. */
  method DecodeTries(b: Bytes, tries: seq<TryItem>, ghost starts: seq<nat>)
      returns (list: seq<CatchHandler>, handlerOf: seq<nat>)
    requires IsHandlerList(b, starts)
    requires forall t :: 0 <= t < |tries| ==>
               tries[t].handlerOff in starts[..|starts| - 1] && tries[t].handlerOff < TWO_16
    ensures Faithful(b, starts, list) && Distinct(Offsets(list))
    ensures |handlerOf| == |tries| && HaveHandlers(b, starts, list, tries, handlerOf)
  {
    list, handlerOf := [], [];
    for t := 0 to |tries|
      invariant Faithful(b, starts, list) && Distinct(Offsets(list)) && AllAtOffsets(b, starts, list)
      invariant |handlerOf| == t && HaveHandlers(b, starts, list, tries, handlerOf)
    {
      ghost var before := list;
      var index;
      list, index := FileTry(b, list, tries[t].handlerOff, starts);
      HandlersStay(b, starts, before, list, tries, handlerOf);
      handlerOf := handlerOf + [index];
    }
  }

  /** One round of the walk: the entry at the cursor is skipped or filed. */
  method WalkStep(b: Bytes, list: seq<CatchHandler>, cursor: nat, ghost starts: seq<nat>, ghost j: nat)
      returns (updated: seq<CatchHandler>, next: nat)
    requires IsHandlerList(b, starts) && Faithful(b, starts, list)
    requires j < |starts| - 1 && cursor == starts[j]
    ensures Faithful(b, starts, updated) && list <= updated && next == starts[j + 1]
    ensures Offsets(updated) == if starts[j] % TWO_16 in Offsets(list) then Offsets(list)
                              else Offsets(list) + [starts[j] % TWO_16]
  {
    assert EntryAt(b, starts, j);
    var handlerOff := cursor % TWO_16;
    var found := FindHandler(list, handlerOff);
    var handler;
    handler, next := WalkEntry(b, cursor, handlerOff, found.Some?);
    updated := list;
    if handler.Some? {
      Append(b, starts, list, handler.value, j);
      updated := list + [handler.value];
    } else {
      assert Offsets(list)[found.value] == handlerOff;
    }
  }

  /** The walk over the encoded list that adds the handlers no try item names, as
      far as the last entry. It is `inside` if the list is full by then;
      otherwise the loop would go on behind the list. */
  method AddUnreferenced(b: Bytes, initial: seq<CatchHandler>, ghost starts: seq<nat>)
      returns (list: seq<CatchHandler>, inside: bool)
    requires IsHandlerList(b, starts)
    requires Faithful(b, starts, initial) && Distinct(Offsets(initial))
    ensures inside <==> Distinct(Truncated(starts))
    ensures Faithful(b, starts, list) && Distinct(Offsets(list)) && initial <= list
    ensures Elements(Offsets(list)) <= Elements(Truncated(starts))
    ensures inside ==> |list| == |starts| - 1 && Elements(Offsets(list)) == Elements(Truncated(starts))
    ensures !inside ==> |list| < |starts| - 1
  {
    ghost var entries, given := Truncated(starts), Offsets(initial);
    list := initial;
    OffsetsAreEntries(b, starts, initial);
    WalkEndsInsideList(given, entries);
    var handlersSize := Uleb(b, 0);
    var cursor := UlebEnd(b, 0).value;
    var j := 0;
    while handlersSize > |list| && j < handlersSize
      invariant 0 <= j <= |entries| && cursor == starts[j]
      invariant Offsets(list) == Walked(given, entries, j)
      invariant Faithful(b, starts, list) && initial <= list
      decreases handlersSize - j
    {
      list, cursor := WalkStep(b, list, cursor, starts, j);
      j := j + 1;
    }
    inside := handlersSize <= |list|;
    OffsetsAreEntries(b, starts, list);
    WalkedElements(given, entries, j);
    if inside {
      FullListIsComplete(given, entries, j);
    }
  }

  lemma {:induction false} FullListIsComplete(given: seq<nat>, entries: seq<nat>, j: nat)
    requires j <= |entries| && Distinct(given)
    requires Elements(Walked(given, entries, j)) <= Elements(entries)
    requires |Walked(given, entries, j)| >= |entries|
    ensures Distinct(entries) && |Walked(given, entries, j)| == |entries|
    ensures Elements(Walked(given, entries, j)) == Elements(entries)
  {
    var all := Walked(given, entries, j);
    WalkedElements(given, entries, j);
    DistinctCardinality(all);
    DistinctCardinality(entries);
    SubsetCardinality(Elements(all), Elements(entries));
  }

  lemma {:induction false} OffsetsAreEntries(b: Bytes, starts: seq<nat>, list: seq<CatchHandler>)
    requires IsHandlerList(b, starts) && Faithful(b, starts, list)
    ensures Elements(Offsets(list)) <= Elements(Truncated(starts))
  {
    forall x | x in Offsets(list) ensures x in Truncated(starts) {
      var i :| 0 <= i < |list| && Offsets(list)[i] == x;
      assert OnFile(b, starts, list[i]);
      var j :| 0 <= j < |starts| - 1 && IsEntry(b, starts, j, list[i]);
      assert Truncated(starts)[j] == x;
    }
  }

  /** The try and handler part of CreateCodeItem, with the size that
      GetCodeItemSize computes on its own. Every try item gets its handler, and
      the size walk stops at the end of the parsed list. The handler walk stays
      inside the list exactly when no two truncated offsets agree; then each
      entry is filed exactly once. */
  method CreateHandlers(b: Bytes, tries: seq<TryItem>, ghost starts: seq<nat>)
      returns (list: seq<CatchHandler>, handlerOf: seq<nat>, end: nat, inside: bool)
    requires IsHandlerList(b, starts)
    requires forall t :: 0 <= t < |tries| ==>
               tries[t].handlerOff in starts[..|starts| - 1] && tries[t].handlerOff < TWO_16
    ensures inside <==> Distinct(Truncated(starts))
    ensures Distinct(Offsets(list)) && forall i :: 0 <= i < |list| ==> OnFile(b, starts, list[i])
    ensures inside ==> |list| == |starts| - 1 && forall j :: 0 <= j < |starts| - 1 ==> Filed(b, starts, list, j)
    ensures |handlerOf| == |tries| && HaveHandlers(b, starts, list, tries, handlerOf)
    ensures end == starts[|starts| - 1]
  {
    var initial;
    initial, handlerOf := DecodeTries(b, tries, starts);
    list, inside := AddUnreferenced(b, initial, starts);
    HandlersStay(b, starts, initial, list, tries, handlerOf);
    if inside {
      forall j | 0 <= j < |starts| - 1 ensures Filed(b, starts, list, j) {
        EntryIsFiled(b, starts, list, j);
      }
    }
    end := SizeWalk(b, starts);
  }

  ghost predicate Filed(b: Bytes, starts: seq<nat>, list: seq<CatchHandler>, j: nat)
    requires IsHandlerList(b, starts) && j < |starts| - 1
  {
    exists i :: 0 <= i < |list| && IsEntry(b, starts, j, list[i])
  }

  lemma {:induction false} EntryIsFiled(b: Bytes, starts: seq<nat>, list: seq<CatchHandler>, j: nat)
    requires IsHandlerList(b, starts) && Faithful(b, starts, list) && Distinct(Truncated(starts))
    requires Elements(Offsets(list)) == Elements(Truncated(starts)) && j < |starts| - 1
    ensures Filed(b, starts, list, j)
  {
    var off := Truncated(starts)[j];
    assert off in Elements(Truncated(starts));
    assert off in Offsets(list);
    var i :| 0 <= i < |list| && Offsets(list)[i] == off;
    assert OnFile(b, starts, list[i]);
    var k :| 0 <= k < |starts| - 1 && IsEntry(b, starts, k, list[i]);
    assert Truncated(starts)[k] == off;
    assert k == j;
  }

  /* ---- A list whose truncated offsets collide ---- */

  /** Two entries of which the first takes exactly 64 KiB: 32766 typed pairs
      and a catch-all, all of them single zero bytes. */
  const COLLIDING: Bytes := [2, 0x82, 0x80, 0x7e] + seq(65535, i => 0 as Byte)

  const COLLIDING_STARTS: seq<nat> := [1, 65537, 65539]

  lemma {:induction false} ZeroesSkip(p: nat, n: nat)
    requires 4 <= p && p + n <= |COLLIDING|
    ensures SkipEnd(COLLIDING, p, n) == Some(p + n)
  {
    if n > 0 {
      ZeroesSkip(p, n - 1);
      assert COLLIDING[p + n - 1] == 0;
    }
  }

  /** The format allows lists on which the walk does not stop in time. */
  lemma {:induction false} SomeListsCollide()
    ensures IsHandlerList(COLLIDING, COLLIDING_STARTS) && !Distinct(Truncated(COLLIDING_STARTS))
    ensures UlebEnd(COLLIDING, 0).Some? && |Walked([], Truncated(COLLIDING_STARTS), 2)| < Uleb(COLLIDING, 0)
  {
    var b, starts := COLLIDING, COLLIDING_STARTS;
    FirstColliding();
    SecondColliding();
    assert UlebEnd(b, 0) == Some(1) && Uleb(b, 0) == 2;
    assert forall j :: 0 <= j < 2 ==> EntryAt(b, starts, j);
    assert Truncated(starts)[0] == Truncated(starts)[1] == 1;
    WalkEndsInsideList([], Truncated(starts));
  }

  /** On that list the walk has passed the last entry and still wants more. */
  method WalkColliding() returns (list: seq<CatchHandler>, inside: bool)
    ensures !inside && |list| < 2
  {
    SomeListsCollide();
    list, inside := AddUnreferenced(COLLIDING, [], COLLIDING_STARTS);
  }

  lemma {:induction false} FirstColliding()
    ensures EntryAt(COLLIDING, COLLIDING_STARTS, 0)
  {
    var b := COLLIDING;
    assert b[1] == 0x82 && b[2] == 0x80 && b[3] == 0x7e;
    assert LebEnd(b, 3, 3) == Some(4) && LebValue(b, 3, 3) == 0x7e;
    assert LebEnd(b, 2, 4) == Some(4) && LebValue(b, 2, 4) == 0x80 * 0x7e;
    assert LebEnd(b, 1, 5) == Some(4) && LebValue(b, 1, 5) == 2 + 0x80 * 0x80 * 0x7e;
    assert Sleb(b, 1) == -32766;
    ZeroesSkip(4, 65533);
    ZeroesSkip(4, 65532);
  }

  lemma {:induction false} SecondColliding()
    ensures EntryAt(COLLIDING, COLLIDING_STARTS, 1)
  {
    var b := COLLIDING;
    assert b[65537] == 0 && b[65538] == 0;
    assert UlebEnd(b, 65537) == Some(65538) && Sleb(b, 65537) == 0;
    ZeroesSkip(65538, 1);
    ZeroesSkip(65538, 0);
  }

  /** One typed handler with the index that stands for "no type". */
  const UNNAMED: Bytes := [1, 0xff, 0xff, 3, 0]

  /** The iterator takes it for a catch-all, the walk does not. */
  lemma {:induction false} UnnamedTypeIsReadTwice()
    ensures EntryEnd(UNNAMED, 0) == Some(5)
    ensures HasNull(Entry(UNNAMED, 0, 0).pairs) && !Entry(UNNAMED, 0, 0).catchAll
  {
    var b := UNNAMED;
    assert UlebEnd(b, 0) == Some(1) && Sleb(b, 0) == 1;
    assert LebEnd(b, 3, 3) == Some(4) && LebValue(b, 3, 3) == 3;
    assert LebEnd(b, 2, 4) == Some(4) && LebValue(b, 2, 4) == 0x7f + 0x80 * 3;
    assert UlebEnd(b, 1) == Some(4) && Uleb(b, 1) == NO_INDEX_16;
    assert UlebEnd(b, 4) == Some(5);
    assert SkipEnd(b, 1, 0) == Some(1);
    assert SkipEnd(b, 1, 1) == Some(4);
    assert SkipEnd(b, 1, 2) == Some(5);
    OneMorePair(b, 1, 0);
    assert Pairs(b, 1, 1)[0].typeIdx.None?;
  }
}
