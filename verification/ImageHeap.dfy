/** The heap the image writer walks, the state of the walk, and what each newly
    found object does to that state. */
module ImageHeap {
  import opened Util
  import opened ImageBins
  import N = ImageNative

  /* ---- The heap ---- */

  datatype Kind =
    | Str(content: string)
    | DexCache
    | Class(initialized: bool, finals: seq<bool>, data: N.ClassData)  // finals: of the static fields
    | PlainObject                                                     // an instance of java.lang.Object
    | Other

  /** `home` is the image of the dex cache of a class or of a dex cache. */
  datatype HeapObject = HeapObject(size: nat, kind: Kind, home: nat)

  datatype LockWord = Unlocked | ThinLocked | FatLocked | HashCode(hash: nat) | Forwarding(address: nat)

  type Graph = map<nat, seq<Option<nat>>>

  /** Everything that is given: objects, references and lock words as they are
      before the walk, the boot image, the runtime's table of interned strings,
      the roots with the image each is tried in first, the image of everything
      that has no better one, and where the objects of an image begin. */
  datatype World = World(
    objects: map<nat, HeapObject>, graph: Graph, locks: map<nat, LockWord>,
    boot: set<nat>, roots: set<(nat, nat)>, appImage: bool, runtimeStrings: map<string, nat>,
    images: nat, defaultImage: nat, begin: nat, native: N.NativeHeap)
  {
    ghost predicate Valid() {
      && objects.Keys == graph.Keys == locks.Keys && boot <= objects.Keys && defaultImage < images
      && (forall r :: r in roots ==> r.0 in objects && r.1 < images)
      && (forall o :: o in objects ==> objects[o].home < images)
      && (forall o, i :: o in graph && 0 <= i < |graph[o]| && graph[o][i].Some? ==> graph[o][i].value in objects)
      && (forall o :: o in locks && o !in boot ==> locks[o].Unlocked? || locks[o].HashCode?)
      && (forall o :: o in locks ==> !locks[o].Forwarding?)
      && (forall c :: c in runtimeStrings ==>
            runtimeStrings[c] in objects && objects[runtimeStrings[c]].kind == Str(c))
      && native.Valid(images)
    }
  }

  function BinOf(k: Kind): (b: Bin)
    ensures b < ART_FIELD
  {
    match k
    case Str(_) => STRING
    case DexCache | PlainObject => MISC_DIRTY
    case Class(initialized, finals, _) =>
      if !initialized then CLASS_VERIFIED
      else if false in finals then CLASS_INITIALIZED
      else CLASS_INITIALIZED_FINAL_STATICS
    case Other => REGULAR
  }

  /* ---- Reachability in the original graph ---- */

  /** Where the walk starts: a root, or for an app image a reference in the boot
      image. */
  ghost predicate Source(w: World, o: nat) {
    (exists r :: r in w.roots && r.0 == o) || BootRefers(w, o)
  }

  /** For an app image: a boot image object refers to `o`. */
  ghost predicate BootRefers(w: World, o: nat) {
    w.appImage && exists b :: b in w.boot && b in w.graph && Some(o) in w.graph[b]
  }

  ghost predicate IsPath(w: World, p: seq<nat>) {
    && |p| > 0 && Source(w, p[0])
    && (forall i :: 0 <= i < |p| ==> p[i] in w.graph && p[i] !in w.boot)
    && (forall i :: 0 < i < |p| ==> Some(p[i]) in w.graph[p[i - 1]])
  }

  /** Some path outside the boot image leads from a source to `o`. */
  ghost predicate Reachable(w: World, o: nat) {
    exists p: seq<nat> :: IsPath(w, p) && p[|p| - 1] == o
  }

  lemma {:induction false} SourcesAreReachable(w: World, o: nat)
    requires Source(w, o) && o in w.graph && o !in w.boot
    ensures Reachable(w, o)
  {
    assert IsPath(w, [o]);
  }

  lemma {:induction false} ReachesOn(w: World, o: nat, next: nat)
    requires Reachable(w, o) && Some(next) in w.graph[o] && next in w.graph && next !in w.boot
    ensures Reachable(w, next)
  {
    var p :| IsPath(w, p) && p[|p| - 1] == o;
    assert IsPath(w, p + [next]);
    assert (p + [next])[|p + [next]| - 1] == next;
  }

  /** A set with all sources that is closed under references has everything
      reachable. */
  lemma {:induction false} ClosedHasReachable(w: World, s: set<nat>, p: seq<nat>)
    requires IsPath(w, p)
    requires forall o :: Source(w, o) && o in w.graph && o !in w.boot ==> o in s
    requires forall o, next :: o in s && o in w.graph && Some(next) in w.graph[o] && next !in w.boot ==> next in s
    ensures p[|p| - 1] in s
  {
    if |p| > 1 {
      var q := p[..|p| - 1];
      assert IsPath(w, q);
      ClosedHasReachable(w, s, q);
      assert Some(p[|p| - 1]) in w.graph[q[|q| - 1]];
    }
  }

  /* ---- Interned strings ---- */

  function FindIn(tables: seq<map<string, nat>>, c: string, k: nat): Option<nat>
    requires k <= |tables|
    decreases |tables| - k
  {
    if k == |tables| then None
    else if c in tables[k] then Some(tables[k][c])
    else FindIn(tables, c, k + 1)
  }

  function InBoot(w: World, c: string): Option<nat> {
    if w.appImage && c in w.runtimeStrings && w.runtimeStrings[c] in w.boot then Some(w.runtimeStrings[c]) else None
  }

  /** FindInternedString: the tables of all images, then for an app image the
      strings interned in the boot image. */
  function Find(w: World, tables: seq<map<string, nat>>, c: string): Option<nat> {
    var found := FindIn(tables, c, 0);
    if found.Some? then found else InBoot(w, c)
  }

  lemma {:induction false} FindInHolds(tables: seq<map<string, nat>>, c: string, k: nat)
    requires k <= |tables|
    ensures FindIn(tables, c, k).Some? ==>
              exists j :: k <= j < |tables| && c in tables[j] && tables[j][c] == FindIn(tables, c, k).value
    ensures FindIn(tables, c, k).None? ==> forall j :: k <= j < |tables| ==> c !in tables[j]
    decreases |tables| - k
  {
    if k < |tables| && c !in tables[k] {
      FindInHolds(tables, c, k + 1);
    }
  }

  function Interned(tables: seq<map<string, nat>>, k: nat, c: string, o: nat): seq<map<string, nat>>
    requires k < |tables|
  {
    var table: map<string, nat> := tables[k][c := o];
    tables[k := table]
  }

  lemma {:induction false} InterningChangesOne(
    tables: seq<map<string, nat>>, n: nat, c: string, o: nat, d: string, k: nat)
    requires n < |tables| && k <= |tables| && FindIn(tables, c, k).None?
    ensures FindIn(Interned(tables, n, c, o), d, k) ==
            if d == c && k <= n then Some(o) else FindIn(tables, d, k)
    decreases |tables| - k
  {
    if k < |tables| {
      InterningChangesOne(tables, n, c, o, d, k + 1);
    }
  }
}
