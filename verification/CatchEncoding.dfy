/** Catch handlers as the dex writer encodes them, against the readers of
    CatchHandlers: what is written reads back. */
module CatchEncoding {
  import opened Util
  import opened CatchHandlers

  /** The bytes `e` stand at `p`. */
  ghost predicate At(b: Bytes, p: nat, e: Bytes) {
    p + |e| <= |b| && b[p..p + |e|] == e
  }

  lemma {:induction false} AtParts(b: Bytes, p: nat, e: Bytes, f: Bytes)
    requires At(b, p, e + f)
    ensures At(b, p, e) && At(b, p + |e|, f)
  {
    assert b[p..p + |e|] == b[p..p + |e + f|][..|e|];
    assert b[p + |e|..p + |e| + |f|] == b[p..p + |e + f|][|e|..];
  }

  lemma {:induction false} FirstByte(b: Bytes, p: nat, x: Byte, e: Bytes)
    requires At(b, p, [x] + e)
    ensures p < |b| && b[p] == x && At(b, p + 1, e)
  {
    AtParts(b, p, [x], e);
    assert b[p] == b[p..p + 1][0];
  }

  /* ---- LEB128 ---- */

  /** What `len` bytes count modulo, if `left` bytes are read at most: the last
      of them has four bits. */
  function Modulus(len: nat, left: nat): (m: nat)
    requires 1 <= len <= left
    ensures m >= 16 && m % 2 == 0
    decreases left
  {
    if len == 1 then (if left == 1 then 16 else 128) else 128 * Modulus(len - 1, left - 1)
  }

  /** EncodeUnsignedLeb128. */
  function EncodeUleb(n: nat): (e: Bytes)
    ensures |e| > 0
  {
    if n < 128 then [n] else [128 + n % 128] + EncodeUleb(n / 128)
  }

  lemma {:induction false} UlebReadsBack(b: Bytes, p: nat, n: nat, left: nat)
    requires 1 <= left && At(b, p, EncodeUleb(n)) && n < Modulus(left, left)
    ensures LebEnd(b, p, left) == Some(p + |EncodeUleb(n)|) && LebValue(b, p, left) == n
    decreases left
  {
    if n >= 128 {
      FirstByte(b, p, 128 + n % 128, EncodeUleb(n / 128));
      UlebReadsBack(b, p + 1, n / 128, left - 1);
    } else {
      assert b[p] == b[p..p + 1][0];
    }
  }

  /** EncodeSignedLeb128. */
  function EncodeSleb(x: int): (e: Bytes)
    ensures |e| > 0
    decreases if x < 0 then -x else x
  {
    if -64 <= x < 64 then [x % 128] else [128 + x % 128] + EncodeSleb(x / 128)
  }

  lemma {:induction false} ModSplits(x: int, m: nat)
    requires m > 0
    ensures x % (128 * m) == x % 128 + 128 * (x / 128 % m)
  {
    var q := x / 128;
    assert x == 128 * q + x % 128 && q == m * (q / m) + q % m;
    assert x == (q / m) * (128 * m) + (x % 128 + 128 * (q % m)) by {
      assert 128 * (m * (q / m)) == (q / m) * (128 * m);
    }
    DivModUnique(x, 128 * m, q / m, x % 128 + 128 * (q % m));
  }

  /** `x` is a signed number modulo `m`. */
  predicate InRange(x: int, m: nat) {
    0 <= 2 * x + m && 2 * x < m
  }

  lemma {:induction false} RangeOfRest(x: int, m: nat)
    requires m % 2 == 0 && m >= 16
    ensures InRange(x, 128 * m) <==> InRange(x / 128, m)
  {
    var h := m / 2;
    assert x == 128 * (x / 128) + x % 128;
  }

  lemma {:induction false} SlebReadsBack(b: Bytes, p: nat, x: int, left: nat)
    requires 1 <= left && At(b, p, EncodeSleb(x)) && InRange(x, Modulus(left, left))
    ensures |EncodeSleb(x)| <= left && LebEnd(b, p, left) == Some(p + |EncodeSleb(x)|)
    ensures LebValue(b, p, left) == x % Modulus(|EncodeSleb(x)|, left)
    ensures InRange(x, Modulus(|EncodeSleb(x)|, left))
    decreases left
  {
    if -64 <= x < 64 {
      assert [x % 128] == [x % 128] + [];
      FirstByte(b, p, x % 128, []);
      if left == 1 {
        assert x % 128 % 16 == x % 16;
      }
    } else {
      assert left > 1;
      RangeOfRest(x, Modulus(left - 1, left - 1));
      FirstByte(b, p, 128 + x % 128, EncodeSleb(x / 128));
      SlebReadsBack(b, p + 1, x / 128, left - 1);
      OneMoreByte(x, Modulus(|EncodeSleb(x / 128)|, left - 1));
    }
  }

  lemma {:induction false} OneMoreByte(x: int, m: nat)
    requires m % 2 == 0 && m >= 16 && InRange(x / 128, m)
    ensures x % 128 + 128 * (x / 128 % m) == x % (128 * m) && InRange(x, 128 * m)
  {
    ModSplits(x, m);
    RangeOfRest(x, m);
  }

  lemma {:induction false} WidthIsModulus(len: nat)
    requires 1 <= len <= 5
    ensures Width(len) == Modulus(len, 5)
  {
    assert Modulus(1, 1) == 16 && Modulus(1, 2) == Modulus(1, 3) == Modulus(1, 4) == 128;
    assert Modulus(2, 2) == 0x800 && Modulus(2, 3) == Modulus(2, 4) == 0x4000;
    assert Modulus(3, 3) == 0x4_0000 && Modulus(3, 4) == 0x20_0000;
    assert Modulus(4, 4) == 0x200_0000;
  }

  /** Every unsigned number of 32 bits reads back. */
  lemma {:induction false} UlebRoundTrip(b: Bytes, p: nat, n: nat)
    requires At(b, p, EncodeUleb(n)) && n < TWO_32
    ensures UlebEnd(b, p) == Some(p + |EncodeUleb(n)|) && Uleb(b, p) == n
  {
    WidthIsModulus(5);
    UlebReadsBack(b, p, n, 5);
  }

  /** Every signed number of 32 bits reads back. */
  lemma {:induction false} SlebRoundTrip(b: Bytes, p: nat, x: int)
    requires At(b, p, EncodeSleb(x)) && -0x8000_0000 <= x < 0x8000_0000
    ensures UlebEnd(b, p) == Some(p + |EncodeSleb(x)|) && Sleb(b, p) == x
  {
    WidthIsModulus(5);
    SlebReadsBack(b, p, x, 5);
    WidthIsModulus(|EncodeSleb(x)|);
    SignedFromWord(x, Modulus(|EncodeSleb(x)|, 5));
  }

  lemma {:induction false} SignedFromWord(x: int, m: nat)
    requires m > 0 && InRange(x, m)
    ensures var v := x % m; x == if 2 * v >= m then v - m else v
  {
    if x < 0 {
      DivModUnique(x, m, -1, x + m);
    } else {
      DivModUnique(x, m, 0, x);
    }
  }

  /* ---- The encoders as loops, and their sizes ---- */

  /** The number of bits of `n`. */
  function Bits(n: nat): nat {
    if n == 0 then 0 else 1 + Bits(n / 2)
  }

  function MaxOne(n: nat): nat {
    if n == 0 then 1 else n
  }

  /** UnsignedLeb128Size: the division by seven is a multiplication and a shift. */
  function UlebSize(n: nat): nat {
    (6 + MaxOne(Bits(n))) * 37 / 256
  }

  /** The number without its sign: `x` or, if negative, its complement. */
  function Magnitude(x: int): nat {
    if x < 0 then -x - 1 else x
  }

  /** SignedLeb128Size. */
  function SlebSize(x: int): nat {
    (1 + 6 + MaxOne(Bits(Magnitude(x)))) * 37 / 256
  }

  lemma {:induction false} BySeven(x: nat)
    requires x <= 39
    ensures x * 37 / 256 == x / 7
  {
    var q, r := x / 7, x % 7;
    assert x == 7 * q + r && x * 37 == q * 256 + (3 * q + 37 * r);
    DivModUnique(x * 37, 256, q, 3 * q + 37 * r);
  }

  lemma {:induction false} ThreeBits(n: nat)
    requires n >= 4
    ensures Bits(n) >= 3 && Bits(n / 8) == Bits(n) - 3
  {
    assert n / 2 / 2 == n / 4 && n / 4 / 2 == n / 8;
    assert Bits(n / 2) == 1 + Bits(n / 4) && Bits(n / 4) == 1 + Bits(n / 8);
  }

  lemma {:induction false} SevenBits(n: nat)
    requires n >= 64
    ensures Bits(n) >= 7 && Bits(n / 128) == Bits(n) - 7
  {
    assert n / 8 / 8 == n / 64 && n / 64 / 2 == n / 128;
    ThreeBits(n);
    ThreeBits(n / 8);
  }

  lemma {:induction false} FewBits(n: nat, k: nat)
    ensures Bits(n) <= k <==> n < Power(k)
    decreases k
  {
    if k > 0 {
      if n > 0 {
        FewBits(n / 2, k - 1);
      }
    }
  }

  function Power(k: nat): (p: nat)
    ensures p > 0
  {
    if k == 0 then 1 else 2 * Power(k - 1)
  }

  lemma {:induction false} PowersAdd(j: nat, k: nat)
    ensures Power(j + k) == Power(j) * Power(k)
  {
    if k > 0 {
      PowersAdd(j, k - 1);
    }
  }

  lemma {:induction false} WordBits(n: nat)
    requires n < TWO_32
    ensures Bits(n) <= 32
  {
    assert Power(4) == 16;
    PowersAdd(4, 4);
    PowersAdd(8, 8);
    PowersAdd(16, 16);
    FewBits(n, 32);
  }

  lemma {:induction false} UlebLength(n: nat)
    ensures |EncodeUleb(n)| == (6 + MaxOne(Bits(n))) / 7
  {
    if n < 128 {
      assert Power(4) == 16;
      PowersAdd(4, 3);
      FewBits(n, 7);
    } else {
      SevenBits(n);
      UlebLength(n / 128);
      assert Bits(n / 128) > 0;
    }
  }

  lemma {:induction false} SlebLength(x: int)
    ensures |EncodeSleb(x)| == (7 + MaxOne(Bits(Magnitude(x)))) / 7
    decreases Magnitude(x)
  {
    if -64 <= x < 64 {
      assert Power(4) == 16;
      PowersAdd(4, 2);
      FewBits(Magnitude(x), 6);
    } else {
      assert Magnitude(x / 128) == Magnitude(x) / 128;
      SevenBits(Magnitude(x));
      SlebLength(x / 128);
      if Bits(Magnitude(x) / 128) == 0 {
        assert Bits(Magnitude(x)) == 7;
      }
    }
  }

  /** The sizes are those of the encodings. */
  lemma {:induction false} SizesAreRight(n: nat, x: int)
    requires n < TWO_32 && -0x8000_0000 <= x < 0x8000_0000
    ensures UlebSize(n) == |EncodeUleb(n)| && SlebSize(x) == |EncodeSleb(x)|
  {
    UlebLength(n);
    SlebLength(x);
    WordBits(n);
    WordBits(Magnitude(x));
    BySeven(6 + MaxOne(Bits(n)));
    BySeven(7 + MaxOne(Bits(Magnitude(x))));
  }

  lemma {:induction false} UlebStep(out: nat, value: nat)
    requires out < 128 && value > 0
    ensures EncodeUleb(out + 128 * value) == [128 + out] + EncodeUleb(value)
    ensures value % 128 + 128 * (value / 128) == value
  {
  }

  /** WriteUleb128: the encoder fills a buffer, of which the computed size is
      written. */
  method WriteUleb(n: nat) returns (written: Bytes)
    requires n < TWO_32
    ensures written == EncodeUleb(n)
  {
    var buffer: Bytes, out: nat, value: nat := [], n % 128, n / 128;
    while value != 0
      invariant 0 <= out < 128 && buffer + EncodeUleb(out + 128 * value) == EncodeUleb(n)
      decreases value
    {
      UlebStep(out, value);
      buffer := buffer + [128 + out];
      out := value % 128;
      value := value / 128;
    }
    buffer := buffer + [out];
    SizesAreRight(n, 0);
    written := buffer[..UlebSize(n)];
  }

  /** WriteSleb128. The loop counts the bits beyond the sign. */
  method WriteSleb(x: int) returns (written: Bytes)
    requires -0x8000_0000 <= x < 0x8000_0000
    ensures written == EncodeSleb(x)
  {
    var buffer: Bytes, value, extra, out := [], x, Magnitude(x) / 64, x % 128;
    while extra != 0
      invariant extra == Magnitude(value) / 64 && out == value % 128
      invariant buffer + EncodeSleb(value) == EncodeSleb(x)
      decreases extra
    {
      buffer := buffer + [128 + out];
      assert Magnitude(value / 128) == Magnitude(value) / 128;
      value := value / 128;
      out := value % 128;
      extra := extra / 128;
    }
    buffer := buffer + [out];
    SizesAreRight(0, x);
    written := buffer[..SlebSize(x)];
  }

  /* ---- One handler ---- */

  /** The values of a pair: a type, if there is one, and an address. */
  function ValuesOf(p: Pair): seq<nat> {
    if p.typeIdx.Some? then [p.typeIdx.value, p.address] else [p.address]
  }

  function Values(ps: seq<Pair>, k: nat): seq<nat>
    requires k <= |ps|
  {
    if k == 0 then [] else Values(ps, k - 1) + ValuesOf(ps[k - 1])
  }

  function EncodeValues(vs: seq<nat>, k: nat): Bytes
    requires k <= |vs|
  {
    if k == 0 then [] else EncodeValues(vs, k - 1) + EncodeUleb(vs[k - 1])
  }

  /** The size field: negated for handlers that catch all, which is not counted. */
  function SizeField(h: CatchHandler): int {
    if h.catchAll then 1 - |h.pairs| else |h.pairs|
  }

  /** A handler as WriteCodeItems writes it. */
  function Encoded(h: CatchHandler): Bytes {
    var vs := Values(h.pairs, |h.pairs|);
    EncodeSleb(SizeField(h)) + EncodeValues(vs, |vs|)
  }

  /** Types, addresses and counts are 32-bit numbers. */
  ghost predicate IsSized(h: CatchHandler) {
    && |h.pairs| < 0x8000_0000
    && forall i :: 0 <= i < |h.pairs| ==>
         h.pairs[i].address < TWO_32 && (h.pairs[i].typeIdx.Some? ==> h.pairs[i].typeIdx.value < TWO_32)
  }

  ghost predicate AreWords(vs: seq<nat>) {
    forall j :: 0 <= j < |vs| ==> vs[j] < TWO_32
  }

  lemma {:induction false} ValuesAreWords(h: CatchHandler, k: nat)
    requires IsSized(h) && k <= |h.pairs|
    ensures AreWords(Values(h.pairs, k)) && k <= |Values(h.pairs, k)| <= 2 * k
  {
    if k > 0 {
      ValuesAreWords(h, k - 1);
    }
  }

  lemma {:induction false} PrefixAt(b: Bytes, q: nat, vs: seq<nat>, j: nat, k: nat)
    requires j <= k <= |vs| && At(b, q, EncodeValues(vs, k))
    ensures At(b, q, EncodeValues(vs, j))
    decreases k
  {
    if j < k {
      AtParts(b, q, EncodeValues(vs, k - 1), EncodeUleb(vs[k - 1]));
      PrefixAt(b, q, vs, j, k - 1);
    }
  }

  /** Value `j` reads back, from where the values before it end. */
  lemma {:induction false} ValueReadsBack(b: Bytes, q: nat, vs: seq<nat>, j: nat)
    requires j < |vs| && AreWords(vs) && At(b, q, EncodeValues(vs, |vs|))
    ensures UlebEnd(b, q + |EncodeValues(vs, j)|) == Some(q + |EncodeValues(vs, j + 1)|)
    ensures Uleb(b, q + |EncodeValues(vs, j)|) == vs[j]
  {
    PrefixAt(b, q, vs, j + 1, |vs|);
    AtParts(b, q, EncodeValues(vs, j), EncodeUleb(vs[j]));
    UlebRoundTrip(b, q + |EncodeValues(vs, j)|, vs[j]);
  }

  /** From `ends[0]` on, `vs` are read, value `j` from `ends[j]` to `ends[j + 1]`. */
  ghost predicate ReadAs(b: Bytes, ends: seq<nat>, vs: seq<nat>) {
    |ends| == |vs| + 1 && AreRead(b, ends, vs, |vs|)
  }

  /** The first `k` values are. */
  ghost predicate AreRead(b: Bytes, ends: seq<nat>, vs: seq<nat>, k: nat) {
    k < |ends| && k <= |vs| && forall j {:trigger IsRead(b, ends, vs, j)} :: 0 <= j < k ==> IsRead(b, ends, vs, j)
  }

  ghost predicate IsRead(b: Bytes, ends: seq<nat>, vs: seq<nat>, j: nat)
    requires j + 1 < |ends| && j < |vs|
  {
    UlebEnd(b, ends[j]) == Some(ends[j + 1]) && Uleb(b, ends[j]) == vs[j]
  }

  lemma {:induction false} EncodedReads(b: Bytes, q: nat, vs: seq<nat>, k: nat) returns (ends: seq<nat>)
    requires k <= |vs| && AreWords(vs) && At(b, q, EncodeValues(vs, |vs|))
    ensures |ends| == k + 1 && AreRead(b, ends, vs, k)
    ensures ends[0] == q && ends[k] == q + |EncodeValues(vs, k)|
  {
    if k == 0 {
      ends := [q];
    } else {
      var before := EncodedReads(b, q, vs, k - 1);
      ValueReadsBack(b, q, vs, k - 1);
      ends := MoreAreRead(b, before, vs, k - 1, q + |EncodeValues(vs, k)|);
    }
  }

  lemma {:induction false} MoreAreRead(b: Bytes, before: seq<nat>, vs: seq<nat>, k: nat, end: nat)
    returns (ends: seq<nat>)
    requires AreRead(b, before, vs, k) && |before| == k + 1 && k < |vs|
    requires UlebEnd(b, before[k]) == Some(end) && Uleb(b, before[k]) == vs[k]
    ensures |ends| == k + 2 && ends[..k + 1] == before && ends[k + 1] == end && AreRead(b, ends, vs, k + 1)
  {
    ends := before + [end];
    forall j | 0 <= j < k ensures IsRead(b, ends, vs, j) {
      assert IsRead(b, before, vs, j);
    }
  }

  lemma {:induction false} SkipFollows(b: Bytes, ends: seq<nat>, vs: seq<nat>, j: nat)
    requires ReadAs(b, ends, vs) && j <= |vs|
    ensures SkipEnd(b, ends[0], j) == Some(ends[j])
  {
    if j > 0 {
      SkipFollows(b, ends, vs, j - 1);
      assert IsRead(b, ends, vs, j - 1);
    }
  }

  /** Pairs take two values each. */
  ghost predicate ArePairs(vs: seq<nat>, ps: seq<Pair>) {
    2 * |ps| <= |vs| && forall j :: 0 <= j < |ps| ==> ps[j] == Pair(TypeIdOrNull(vs[2 * j]), vs[2 * j + 1])
  }

  lemma {:induction false} PairsReadBack(b: Bytes, ends: seq<nat>, vs: seq<nat>, n: nat)
    requires ReadAs(b, ends, vs) && 2 * n <= |vs|
    ensures SkipEnd(b, ends[0], 2 * n).Some? && ArePairs(vs, Pairs(b, ends[0], n))
  {
    SkipFollows(b, ends, vs, 2 * n);
    var ps := Pairs(b, ends[0], n);
    forall j | 0 <= j < n ensures ps[j] == Pair(TypeIdOrNull(vs[2 * j]), vs[2 * j + 1]) {
      PairReadsBack(b, ends, vs, n, j);
    }
  }

  lemma {:induction false} PairReadsBack(b: Bytes, ends: seq<nat>, vs: seq<nat>, n: nat, j: nat)
    requires ReadAs(b, ends, vs) && 2 * n <= |vs| && j < n && SkipEnd(b, ends[0], 2 * n).Some?
    ensures Pairs(b, ends[0], n)[j] == Pair(TypeIdOrNull(vs[2 * j]), vs[2 * j + 1])
  {
    PairAt(b, ends[0], n, j);
    SkipFollows(b, ends, vs, 2 * j);
    SkipFollows(b, ends, vs, 2 * j + 1);
    assert IsRead(b, ends, vs, 2 * j) && IsRead(b, ends, vs, 2 * j + 1);
  }

  /** The pair names a type that is not the index for "no type". */
  predicate IsNamed(p: Pair) {
    p.typeIdx.Some? && p.typeIdx.value < NO_INDEX_16
  }

  /** There is a handler, the last one catches all if `catchAll` says so, and all
      others name their types. */
  ghost predicate IsWritable(h: CatchHandler) {
    && |h.pairs| > 0 && (forall i :: 0 <= i < |h.pairs| - 1 ==> IsNamed(h.pairs[i]))
    && var last := h.pairs[|h.pairs| - 1]; if h.catchAll then last.typeIdx.None? else IsNamed(last)
  }

  /** As long as pairs have types, pair `j` has values `2 * j` and `2 * j + 1`. */
  lemma {:induction false} TypedValues(ps: seq<Pair>, k: nat, j: nat)
    requires k <= |ps| && (forall i :: 0 <= i < k ==> ps[i].typeIdx.Some?) && j < k
    ensures |Values(ps, k)| == 2 * k
    ensures Values(ps, k)[2 * j] == ps[j].typeIdx.value && Values(ps, k)[2 * j + 1] == ps[j].address
    decreases k
  {
    if k > 1 {
      TypedValues(ps, k - 1, if j < k - 1 then j else 0);
    }
  }

  lemma {:induction false} MoreValues(ps: seq<Pair>, j: nat, k: nat)
    requires j <= k <= |ps|
    ensures Values(ps, j) <= Values(ps, k)
    decreases k
  {
    if j < k {
      MoreValues(ps, j, k - 1);
    }
  }

  /** What a reader of the encoded handler meets: its size, and then its values. */
  lemma {:induction false} SizeReadsBack(b: Bytes, p: nat, h: CatchHandler) returns (ends: seq<nat>)
    requires IsSized(h) && At(b, p, Encoded(h))
    ensures ReadAs(b, ends, Values(h.pairs, |h.pairs|)) && ends[|ends| - 1] == p + |Encoded(h)|
    ensures UlebEnd(b, p) == Some(ends[0]) && Sleb(b, p) == SizeField(h)
  {
    var vs := Values(h.pairs, |h.pairs|);
    AtParts(b, p, EncodeSleb(SizeField(h)), EncodeValues(vs, |vs|));
    SlebRoundTrip(b, p, SizeField(h));
    ValuesAreWords(h, |h.pairs|);
    ends := EncodedReads(b, p + |EncodeSleb(SizeField(h))|, vs, |vs|);
  }

  /** The first pairs have types, so their values are those of the pairs. */
  lemma {:induction false} TypedPairsReadBack(ps: seq<Pair>, vs: seq<nat>, read: seq<Pair>, n: nat)
    requires n == |read| <= |ps| && vs == Values(ps, |ps|) && ArePairs(vs, read)
    requires forall i :: 0 <= i < n ==> ps[i].typeIdx.Some?
    ensures forall i :: 0 <= i < n ==> read[i] == Pair(TypeIdOrNull(ps[i].typeIdx.value), ps[i].address)
  {
    MoreValues(ps, n, |ps|);
    forall i | 0 <= i < n ensures read[i] == Pair(TypeIdOrNull(ps[i].typeIdx.value), ps[i].address) {
      TypedValues(ps, n, i);
    }
  }

  /** The entry from `p` to `end` is `h`, filed under `offset`. */
  ghost predicate ReadsHandler(b: Bytes, p: nat, end: nat, h: CatchHandler, offset: nat) {
    EntryEnd(b, p) == Some(end) && Entry(b, p, offset) == h.(listOffset := offset)
  }

  /** A writable handler reads back, wherever its bytes stand. */
  lemma {:induction false} HandlerReadsBack(b: Bytes, p: nat, h: CatchHandler, offset: nat)
    requires IsSized(h) && IsWritable(h) && At(b, p, Encoded(h))
    ensures ReadsHandler(b, p, p + |Encoded(h)|, h, offset)
  {
    var ends := SizeReadsBack(b, p, h);
    ValuesAreRead(b, p, h, ends, p + |Encoded(h)|, offset);
  }

  lemma {:induction false} ValuesAreRead(b: Bytes, p: nat, h: CatchHandler, ends: seq<nat>, end: nat, offset: nat)
    requires IsWritable(h) && ReadAs(b, ends, Values(h.pairs, |h.pairs|)) && end == ends[|ends| - 1]
    requires UlebEnd(b, p) == Some(ends[0]) && Sleb(b, p) == SizeField(h)
    ensures ReadsHandler(b, p, end, h, offset)
  {
    var vs, typed := Values(h.pairs, |h.pairs|), if h.catchAll then |h.pairs| - 1 else |h.pairs|;
    CountValues(h, typed);
    EntryReads(b, p, SizeField(h), ends, vs, offset);
    TypedPairs(b, h, ends, vs, typed);
    AllPairs(h, typed);
  }

  lemma {:induction false} TypedPairs(b: Bytes, h: CatchHandler, ends: seq<nat>, vs: seq<nat>, typed: nat)
    requires IsWritable(h) && vs == Values(h.pairs, |h.pairs|) && ReadAs(b, ends, vs) && 2 * typed <= |vs|
    requires typed == if h.catchAll then |h.pairs| - 1 else |h.pairs|
    ensures SkipEnd(b, ends[0], 2 * typed).Some? && Pairs(b, ends[0], typed) == h.pairs[..typed]
  {
    PairsReadBack(b, ends, vs, typed);
    PairsAreThose(h, Pairs(b, ends[0], typed), typed);
  }

  lemma {:induction false} AllPairs(h: CatchHandler, typed: nat)
    requires IsWritable(h) && typed == if h.catchAll then |h.pairs| - 1 else |h.pairs|
    ensures h.pairs == h.pairs[..typed] + if h.catchAll then [Pair(None, h.pairs[typed].address)] else []
  {
  }

  /** An entry whose size announces the values behind it: where it ends, and what
      is read. */
  lemma {:induction false} EntryReads(b: Bytes, p: nat, size: int, ends: seq<nat>, vs: seq<nat>, offset: nat)
    requires ReadAs(b, ends, vs) && UlebEnd(b, p) == Some(ends[0]) && Sleb(b, p) == size
    requires |vs| == 2 * Abs(size) + if size <= 0 then 1 else 0
    ensures EntryEnd(b, p) == Some(ends[|vs|]) && SkipEnd(b, ends[0], 2 * Abs(size)).Some?
    ensures Entry(b, p, offset) ==
            CatchHandler(size <= 0, offset,
                         Pairs(b, ends[0], Abs(size)) + if size <= 0 then [Pair(None, vs[2 * Abs(size)])] else [])
  {
    SkipFollows(b, ends, vs, |vs|);
    SkipFollows(b, ends, vs, 2 * Abs(size));
    if size <= 0 {
      assert IsRead(b, ends, vs, 2 * Abs(size));
    }
  }

  lemma {:induction false} PairsAreThose(h: CatchHandler, read: seq<Pair>, typed: nat)
    requires IsWritable(h) && typed == if h.catchAll then |h.pairs| - 1 else |h.pairs|
    requires |read| == typed && ArePairs(Values(h.pairs, |h.pairs|), read)
    ensures read == h.pairs[..typed]
  {
    TypedPairsReadBack(h.pairs, Values(h.pairs, |h.pairs|), read, typed);
    forall i | 0 <= i < typed ensures read[i] == h.pairs[i] {
      assert IsNamed(h.pairs[i]);
    }
  }

  /** A writable handler has as many values as its size announces. */
  lemma {:induction false} CountValues(h: CatchHandler, typed: nat)
    requires IsWritable(h) && typed == if h.catchAll then |h.pairs| - 1 else |h.pairs|
    ensures var vs := Values(h.pairs, |h.pairs|);
            && |vs| == 2 * typed + (if h.catchAll then 1 else 0)
            && (h.catchAll ==> vs[2 * typed] == h.pairs[typed].address)
  {
    if typed > 0 {
      TypedValues(h.pairs, typed, 0);
    }
  }

  /* ---- Exactly the writable handlers ---- */

  /** Handlers without a type among the first `k`. */
  function CountNull(ps: seq<Pair>, k: nat): (c: nat)
    requires k <= |ps|
    ensures c <= k
  {
    if k == 0 then 0 else CountNull(ps, k - 1) + if ps[k - 1].typeIdx.None? then 1 else 0
  }

  lemma {:induction false} ValuesAreCounted(ps: seq<Pair>, k: nat)
    requires k <= |ps|
    ensures |Values(ps, k)| == 2 * k - CountNull(ps, k)
  {
    if k > 0 {
      ValuesAreCounted(ps, k - 1);
    }
  }

  lemma {:induction false} NoNull(ps: seq<Pair>, k: nat, i: nat)
    requires i < k <= |ps| && CountNull(ps, k) == 0
    ensures ps[i].typeIdx.Some?
    decreases k
  {
    if i < k - 1 {
      NoNull(ps, k - 1, i);
    }
  }

  lemma {:induction false} EndsIncrease(b: Bytes, ends: seq<nat>, vs: seq<nat>, j: nat, k: nat)
    requires ReadAs(b, ends, vs) && j < k <= |vs|
    ensures ends[j] < ends[k]
    decreases k
  {
    assert IsRead(b, ends, vs, k - 1);
    if j < k - 1 {
      EndsIncrease(b, ends, vs, j, k - 1);
    }
  }

  /** If the bytes are the whole input, only as many values can be read. */
  lemma {:induction false} OnlyThoseValues(b: Bytes, ends: seq<nat>, vs: seq<nat>, m: nat)
    requires ReadAs(b, ends, vs) && ends[|vs|] == |b|
    ensures SkipEnd(b, ends[0], m) == Some(|b|) <==> m == |vs|
    ensures m > |vs| ==> SkipEnd(b, ends[0], m).None?
  {
    if m <= |vs| {
      SkipFollows(b, ends, vs, m);
      if m < |vs| {
        EndsIncrease(b, ends, vs, m, |vs|);
      }
    } else if m == |vs| + 1 {
      SkipFollows(b, ends, vs, |vs|);
    } else {
      OnlyThoseValues(b, ends, vs, m - 1);
    }
  }

  /** A handler that reads back is writable. */
  lemma {:induction false} ReadBackIsWritable(h: CatchHandler)
    requires IsSized(h) && EntryEnd(Encoded(h), 0) == Some(|Encoded(h)|)
    requires Entry(Encoded(h), 0, h.listOffset) == h
    ensures IsWritable(h)
  {
    var b, vs, size := Encoded(h), Values(h.pairs, |h.pairs|), SizeField(h);
    assert At(b, 0, Encoded(h)) by {
      assert b[0..0 + |b|] == b;
    }
    var ends := SizeReadsBack(b, 0, h);
    OnlyThoseValues(b, ends, vs, ValueCount(b, 0));
    EntryReads(b, 0, size, ends, vs, h.listOffset);
    PairsReadBack(b, ends, vs, Abs(size));
    ValuesAreCounted(h.pairs, |h.pairs|);
    TypesReadBack(h, Pairs(b, ends[0], Abs(size)), vs);
  }

  lemma {:induction false} TypesReadBack(h: CatchHandler, read: seq<Pair>, vs: seq<nat>)
    requires vs == Values(h.pairs, |h.pairs|) && |vs| == 2 * |h.pairs| - CountNull(h.pairs, |h.pairs|)
    requires |read| == Abs(SizeField(h)) && ArePairs(vs, read)
    requires |vs| == 2 * |read| + (if SizeField(h) <= 0 then 1 else 0) && (h.catchAll <==> SizeField(h) <= 0)
    requires h.pairs == read + if SizeField(h) <= 0 then [Pair(None, vs[2 * |read|])] else []
    ensures IsWritable(h)
  {
    var n, typed := |h.pairs|, |read|;
    assert CountNull(h.pairs, typed) == 0;
    forall i | 0 <= i < typed ensures h.pairs[i].typeIdx.Some? {
      NoNull(h.pairs, typed, i);
    }
    TypedPairsReadBack(h.pairs, vs, read, typed);
    forall i | 0 <= i < typed ensures IsNamed(h.pairs[i]) {
      assert h.pairs[i] == read[i];
    }
  }

  /** What the writer encodes reads back as the same handler, types, addresses and
      catch-all included, exactly for handlers that are writable. */
  lemma {:induction false} ReadsBackIff(h: CatchHandler)
    requires IsSized(h)
    ensures ReadsHandler(Encoded(h), 0, |Encoded(h)|, h, h.listOffset) <==> IsWritable(h)
  {
    var b := Encoded(h);
    if IsWritable(h) {
      assert b[0..0 + |b|] == b;
      HandlerReadsBack(b, 0, h, h.listOffset);
    }
    if ReadsHandler(b, 0, |b|, h, h.listOffset) {
      ReadBackIsWritable(h);
    }
  }

  /** The handler part of WriteCodeItems for one handler. */
  method WriteHandler(h: CatchHandler) returns (written: Bytes)
    requires IsSized(h)
    ensures written == Encoded(h)
  {
    var n := |h.pairs|;
    var size := if h.catchAll then (n - 1) * -1 else n;
    var head := WriteSleb(size);
    var tail: Bytes := [];
    for i := 0 to n
      invariant tail == EncodeValues(Values(h.pairs, i), |Values(h.pairs, i)|)
    {
      var pair := h.pairs[i];
      EncodeMore(Values(h.pairs, i), ValuesOf(pair));
      if pair.typeIdx.Some? {
        var typeIdx := WriteUleb(pair.typeIdx.value);
        tail := tail + typeIdx;
      }
      var address := WriteUleb(pair.address);
      tail := tail + address;
    }
    written := head + tail;
  }

  lemma {:induction false} EncodeMore(vs: seq<nat>, ws: seq<nat>)
    requires 1 <= |ws| <= 2
    ensures EncodeValues(vs + ws, |vs + ws|) ==
            EncodeValues(vs, |vs|) + EncodeUleb(ws[0]) + if |ws| == 2 then EncodeUleb(ws[1]) else []
  {
    EncodePrefix(vs + ws, vs, |vs|);
    assert EncodeValues(vs + ws, |vs| + 1) == EncodeValues(vs + ws, |vs|) + EncodeUleb((vs + ws)[|vs|]);
  }

  lemma {:induction false} EncodePrefix(vs: seq<nat>, ws: seq<nat>, k: nat)
    requires k <= |vs| && k <= |ws| && vs[..k] == ws[..k]
    ensures EncodeValues(vs, k) == EncodeValues(ws, k)
  {
    if k > 0 {
      assert vs[..k - 1] == vs[..k][..k - 1] && ws[..k - 1] == ws[..k][..k - 1];
      EncodePrefix(vs, ws, k - 1);
      assert vs[k - 1] == vs[..k][k - 1] == ws[..k][k - 1] == ws[k - 1];
    }
  }

  /** What the writer writes, both readers read: the iterator of the try items and
      the walk. */
  method WriteAndRead(h: CatchHandler) returns (written: Bytes, catchAll: bool, pairs: seq<Pair>, walked: CatchHandler)
    requires IsSized(h) && IsWritable(h)
    ensures catchAll == h.catchAll && pairs == h.pairs && walked == h
  {
    written := WriteHandler(h);
    assert written[0..0 + |written|] == written;
    HandlerReadsBack(written, 0, h, 0);
    HandlerReadsBack(written, 0, h, h.listOffset);
    catchAll, pairs := IterateHandlers(written, 0);
    if h.catchAll {
      assert h.pairs[|h.pairs| - 1].typeIdx.None?;
    } else {
      assert forall i :: 0 <= i < |h.pairs| ==> IsNamed(h.pairs[i]);
    }
    var handler, end := WalkEntry(written, 0, h.listOffset, false);
    walked := handler.value;
  }
}
