/** Which classes an app image keeps: the memoised search over the cyclic class
    graph, against the plain notion "a bad class is reachable". */
module ClassPruning {
  import opened Util

  type ClassId = nat
  type ClassRef = Option<ClassId>  // a class pointer, None for null

  datatype Klass = Klass(
    inBootImage: bool,
    bootLoader: bool,            // defined by the boot class loader
    imageClass: bool,            // its descriptor is in the compiler driver's set
    erroneous: bool,
    interfaces: seq<ClassRef>,
    objectArray: bool,
    componentType: ClassRef,
    resolved: bool,
    staticRefs: seq<ClassRef>,   // per static reference field: the class its value is or has
    superClass: ClassRef,
    foreignDexFile: bool)        // has a dex cache whose dex file is not compiled here

  type Graph = map<ClassId, Klass>

  ghost predicate InGraph(g: Graph, r: ClassRef) {
    r.Some? ==> r.value in g
  }

  ghost predicate WellFormed(g: Graph) {
    forall k :: k in g ==>
      && (forall i :: 0 <= i < |g[k].interfaces| ==> InGraph(g, g[k].interfaces[i]))
      && InGraph(g, g[k].componentType)
      && (forall i :: 0 <= i < |g[k].staticRefs| ==> InGraph(g, g[k].staticRefs[i]))
      && InGraph(g, g[k].superClass)
  }

  /** A class that may not be in an app image, whatever it refers to. */
  predicate LocallyBad(c: Klass) {
    c.bootLoader || !c.imageClass || c.erroneous || c.foreignDexFile
  }

  /** `c` depends on class `t`. */
  ghost predicate Edge(c: Klass, t: ClassId) {
    || Some(t) in c.interfaces
    || (c.objectArray && c.componentType == Some(t))
    || (c.resolved && Some(t) in c.staticRefs)
    || c.superClass == Some(t)
  }

  /** `p` leads from `k` to a locally bad class through classes that are
      neither in the boot image nor in `avoid`. */
  ghost predicate BadPath(g: Graph, k: ClassId, p: seq<ClassId>, avoid: set<ClassId>) {
    && |p| > 0 && p[0] == k
    && (forall i :: 0 <= i < |p| ==> p[i] in g && !g[p[i]].inBootImage && p[i] !in avoid)
    && (forall i :: 0 <= i < |p| - 1 ==> Edge(g[p[i]], p[i + 1]))
    && LocallyBad(g[p[|p| - 1]])
  }

  ghost predicate ReachesBadAvoiding(g: Graph, k: ClassId, avoid: set<ClassId>) {
    exists p :: BadPath(g, k, p, avoid)
  }

  ghost predicate ReachesBad(g: Graph, k: ClassId) {
    ReachesBadAvoiding(g, k, {})
  }

  ghost predicate Clean(g: Graph, r: ClassRef, avoid: set<ClassId>) {
    r.Some? ==> !ReachesBadAvoiding(g, r.value, avoid)
  }

  lemma {:induction false} CleanAvoidingMore(g: Graph, r: ClassRef, small: set<ClassId>, large: set<ClassId>)
    requires small <= large && Clean(g, r, small)
    ensures Clean(g, r, large)
  {
    if r.Some? && ReachesBadAvoiding(g, r.value, large) {
      var p :| BadPath(g, r.value, p, large);
      assert BadPath(g, r.value, p, small);
    }
  }

  lemma {:induction false} ReachesThroughEdge(g: Graph, k: ClassId, t: ClassId)
    requires k in g && !g[k].inBootImage && Edge(g[k], t) && ReachesBad(g, t)
    ensures ReachesBad(g, k)
  {
    var p :| BadPath(g, t, p, {});
    assert BadPath(g, k, [k] + p, {});
  }

  /** Cutting a path at its last visit to `k` leaves a path from a successor
      of `k` that never returns to `k`. */
  lemma {:induction false} CutAtLastVisit(g: Graph, k: ClassId, p: seq<ClassId>, avoid: set<ClassId>)
      returns (t: ClassId, q: seq<ClassId>)
    requires BadPath(g, k, p, avoid) && !LocallyBad(g[k])
    ensures Edge(g[k], t) && BadPath(g, t, q, avoid + {k})
    decreases |p|
  {
    var rest := p[1..];
    if k in rest {
      var j :| 0 <= j < |rest| && rest[j] == k;
      assert BadPath(g, k, rest[j..], avoid);
      t, q := CutAtLastVisit(g, k, rest[j..], avoid);
    } else {
      t, q := p[1], rest;
    }
  }

  /** A class that is not bad itself is clean when its successors are, even if
      they were only searched with the class itself cut out. */
  lemma {:induction false} CleanStep(g: Graph, k: ClassId, avoid: set<ClassId>)
    requires k in g ==> !LocallyBad(g[k])
    requires k in g ==> forall t :: Edge(g[k], t) ==> Clean(g, Some(t), avoid + {k})
    ensures Clean(g, Some(k), avoid)
  {
    if ReachesBadAvoiding(g, k, avoid) {
      var p :| BadPath(g, k, p, avoid);
      var t, q := CutAtLastVisit(g, k, p, avoid);
    }
  }

  /** A class is kept: KeepClass as a property of the graph. */
  ghost predicate Kept(g: Graph, appImage: bool, r: ClassRef)
    requires InGraph(g, r)
  {
    r.Some? &&
    var c := g[r.value];
    (appImage && c.inBootImage) || (c.imageClass && (appImage ==> !ReachesBad(g, r.value)))
  }

  /** The kept classes of an app image are closed under dependency. */
  lemma {:induction false} KeptClassesAreClosed(g: Graph, k: ClassId, t: ClassId)
    requires k in g && t in g && Edge(g[k], t)
    requires Kept(g, true, Some(k)) && !g[k].inBootImage
    ensures Kept(g, true, Some(t))
  {
    if !g[t].inBootImage {
      if ReachesBad(g, t) {
        ReachesThroughEdge(g, k, t);
      }
      if !g[t].imageClass {
        assert BadPath(g, t, [t], {});
      }
    }
  }

  /** A class pointer is null or to a class in `kept`. */
  ghost predicate IsNullOrIn(r: ClassRef, kept: iset<ClassId>) {
    r.Some? ==> r.value in kept
  }

  /** Class `c` may be kept together with `kept`: it is in the boot image, or it is
      an image class of the app with nothing wrong, whose interfaces, component
      type, values of static fields and superclass are kept. */
  ghost predicate MayStay(c: Klass, kept: iset<ClassId>) {
    || c.inBootImage
    || (&& !c.bootLoader && c.imageClass && !c.erroneous && !c.foreignDexFile
        && (forall i :: 0 <= i < |c.interfaces| ==> IsNullOrIn(c.interfaces[i], kept))
        && (c.objectArray ==> IsNullOrIn(c.componentType, kept))
        && (c.resolved ==> forall i :: 0 <= i < |c.staticRefs| ==> IsNullOrIn(c.staticRefs[i], kept))
        && IsNullOrIn(c.superClass, kept))
  }

  ghost function AllKept(g: Graph): iset<ClassId> {
    iset k | k in g && Kept(g, true, Some(k))
  }

  /** Every kept class may stay with the others. */
  lemma {:induction false} KeptMayStay(g: Graph, k: ClassId)
    requires WellFormed(g) && k in AllKept(g)
    ensures MayStay(g[k], AllKept(g))
  {
    if !g[k].inBootImage {
      assert LocallyBad(g[k]) ==> BadPath(g, k, [k], {});
      forall t | Edge(g[k], t) && t in g ensures t in AllKept(g) {
        KeptClassesAreClosed(g, k, t);
      }
    }
  }

  /** No larger set of classes has that property. */
  lemma {:induction false} KeptIsLargest(g: Graph, s: iset<ClassId>, k: ClassId)
    requires forall t :: t in s ==> t in g && MayStay(g[t], s)
    requires k in s
    ensures k in AllKept(g)
  {
    if p :| BadPath(g, k, p, {}) {
      StaysInside(g, s, p, |p| - 1);
    }
  }

  lemma {:induction false} StaysInside(g: Graph, s: iset<ClassId>, p: seq<ClassId>, i: nat)
    requires forall t :: t in s ==> t in g && MayStay(g[t], s)
    requires i < |p| && p[0] in s && BadPath(g, p[0], p, {})
    ensures p[i] in s && !LocallyBad(g[p[i]])
  {
    if i > 0 {
      StaysInside(g, s, p, i - 1);
      assert Edge(g[p[i - 1]], p[i]);
    }
  }

  class Pruner {
    const graph: Graph
    const appImage: bool
    var memo: map<ClassId, bool>

    constructor (graph: Graph, appImage: bool)
      ensures this.graph == graph && this.appImage == appImage
      ensures MemoExact()
    {
      this.graph := graph;
      this.appImage := appImage;
      memo := map[];
    }

    ghost predicate MemoExact()
      reads this
    {
      forall k :: k in memo ==> k in graph && (memo[k] <==> ReachesBad(graph, k))
    }

    /** A class that has just been marked as visited: its own flags, and what it
        depends on. */
    method PruneClass(k: ClassId, visited: set<ClassId>) returns (result: bool, earlyExit: bool)
      requires WellFormed(graph) && MemoExact() && k in graph && !graph[k].inBootImage && visited <= graph.Keys
      modifies this`memo
      ensures MemoExact() && forall j :: j in old(memo) ==> j in memo
      ensures result ==> ReachesBad(graph, k)
      ensures !result ==> !LocallyBad(graph[k])
      ensures !result ==> forall t :: Edge(graph[k], t) ==> Clean(graph, Some(t), visited)
      ensures !result && !earlyExit ==> forall t :: Edge(graph[k], t) ==> Clean(graph, Some(t), {})
      decreases graph.Keys - visited, 3
    {
      var c := graph[k];
      result := c.bootLoader;
      result := result || !c.imageClass;
      earlyExit := false;
      if c.erroneous {
        result := true;
      }
      if result {
        assert BadPath(graph, k, [k], {});
      } else {
        result, earlyExit := AnyPruned(k, c.interfaces, result, earlyExit, visited);
      }
      if c.objectArray {
        result, earlyExit := OrPruned(k, c.componentType, result, earlyExit, visited);
      }
      if c.resolved && |c.staticRefs| != 0 {
        result, earlyExit := AnyPruned(k, c.staticRefs, result, earlyExit, visited);
      }
      result, earlyExit := OrPruned(k, c.superClass, result, earlyExit, visited);
      if !result && c.foreignDexFile {
        result := true;
        assert BadPath(graph, k, [k], {});
      }
    }

    /** What one search call establishes about the class it was given. */
    ghost predicate Answer(r: ClassRef, visited: set<ClassId>, result: bool, earlyExit: bool) {
      && (result ==> r.Some? && ReachesBad(graph, r.value))
      && (!result ==> Clean(graph, r, visited))
      && (!result && !earlyExit ==> Clean(graph, r, {}))
    }

    method PruneInternal(r: ClassRef, earlyExit: bool, visited: set<ClassId>)
        returns (result: bool, earlyExit': bool, visited': set<ClassId>)
      requires WellFormed(graph) && InGraph(graph, r) && MemoExact()
      requires visited <= graph.Keys
      modifies this`memo
      ensures MemoExact()
      ensures visited' == visited
      ensures earlyExit ==> earlyExit'
      ensures Answer(r, visited, result, earlyExit')
      ensures forall k :: k in old(memo) ==> k in memo
      ensures visited == {} && r.Some? && !graph[r.value].inBootImage ==> r.value in memo
      decreases graph.Keys - visited, 0
    {
      visited', earlyExit' := visited, earlyExit;
      if r.None? || graph[r.value].inBootImage {
        return false, earlyExit', visited';
      }
      var k := r.value;
      var c := graph[k];
      if k in memo {
        if !memo[k] {
          CleanAvoidingMore(graph, r, {}, visited);
        }
        return memo[k], earlyExit', visited';
      }
      if k in visited {
        // Circular dependency: answer false, but remember that a cycle was cut.
        return false, true, visited';
      }
      visited' := visited + {k};
      var myEarlyExit;
      result, myEarlyExit := PruneClass(k, visited');
      visited' := visited' - {k};
      assert visited' == visited;
      if !result {
        CleanStep(graph, k, visited);
        if !myEarlyExit {
          forall t | Edge(c, t) ensures Clean(graph, Some(t), {} + {k}) {
            CleanAvoidingMore(graph, Some(t), {}, {} + {k});
          }
          CleanStep(graph, k, {});
        }
      }
      if result || !myEarlyExit || visited' == {} {
        memo := memo[k := result];
      }
      earlyExit' := earlyExit || myEarlyExit;
    }

    /** `result = result || Prune(r)` for a class `r` that `k` depends on. */
    method OrPruned(k: ClassId, r: ClassRef, result: bool, earlyExit: bool, visited: set<ClassId>)
        returns (result': bool, earlyExit': bool)
      requires WellFormed(graph) && InGraph(graph, r) && MemoExact()
      requires k in graph && !graph[k].inBootImage && (r.Some? ==> Edge(graph[k], r.value))
      requires visited <= graph.Keys
      requires result ==> ReachesBad(graph, k)
      modifies this`memo
      ensures MemoExact()
      ensures result ==> result'
      ensures earlyExit ==> earlyExit'
      ensures result' ==> ReachesBad(graph, k)
      ensures !result' ==> Clean(graph, r, visited)
      ensures !result' && !earlyExit' ==> Clean(graph, r, {})
      ensures forall k :: k in old(memo) ==> k in memo
      decreases graph.Keys - visited, 1
    {
      result', earlyExit' := result, earlyExit;
      if !result {
        var v;
        result', earlyExit', v := PruneInternal(r, earlyExit, visited);
        if result' {
          ReachesThroughEdge(graph, k, r.value);
        }
      }
    }

    /** The same over a list of dependencies, in order. */
    method AnyPruned(k: ClassId, refs: seq<ClassRef>, result: bool, earlyExit: bool, visited: set<ClassId>)
        returns (result': bool, earlyExit': bool)
      requires WellFormed(graph) && MemoExact()
      requires forall i :: 0 <= i < |refs| ==> InGraph(graph, refs[i])
      requires k in graph && !graph[k].inBootImage
      requires forall i :: 0 <= i < |refs| && refs[i].Some? ==> Edge(graph[k], refs[i].value)
      requires visited <= graph.Keys
      requires result ==> ReachesBad(graph, k)
      modifies this`memo
      ensures MemoExact()
      ensures result ==> result'
      ensures earlyExit ==> earlyExit'
      ensures result' ==> ReachesBad(graph, k)
      ensures !result' ==> forall i :: 0 <= i < |refs| ==> Clean(graph, refs[i], visited)
      ensures !result' && !earlyExit' ==> forall i :: 0 <= i < |refs| ==> Clean(graph, refs[i], {})
      ensures forall k :: k in old(memo) ==> k in memo
      decreases graph.Keys - visited, 2
    {
      result', earlyExit' := result, earlyExit;
      for i := 0 to |refs|
        invariant MemoExact()
        invariant result ==> result'
        invariant earlyExit ==> earlyExit'
        invariant result' ==> ReachesBad(graph, k)
        invariant !result' ==> forall j :: 0 <= j < i ==> Clean(graph, refs[j], visited)
        invariant !result' && !earlyExit' ==> forall j :: 0 <= j < i ==> Clean(graph, refs[j], {})
        invariant forall k :: k in old(memo) ==> k in memo
      {
        result', earlyExit' := OrPruned(k, refs[i], result', earlyExit', visited);
      }
    }

    /** The root call: exact on every class graph, from every exact memo. */
    method Prune(r: ClassRef) returns (result: bool)
      requires WellFormed(graph) && InGraph(graph, r) && MemoExact()
      modifies this`memo
      ensures MemoExact()
      ensures result <==> r.Some? && ReachesBad(graph, r.value)
      ensures r.Some? && !graph[r.value].inBootImage ==> r.value in memo
    {
      var earlyExit, visited;
      result, earlyExit, visited := PruneInternal(r, false, {});
    }

    method KeepClass(r: ClassRef) returns (keep: bool)
      requires WellFormed(graph) && InGraph(graph, r) && MemoExact()
      modifies this`memo
      ensures MemoExact()
      ensures keep <==> Kept(graph, appImage, r)
    {
      if r.None? {
        return false;
      }
      if appImage && graph[r.value].inBootImage {
        return true;
      }
      if !graph[r.value].imageClass {
        return false;
      }
      if appImage {
        var pruned := Prune(r);
        return !pruned;
      }
      return true;
    }

    /** PruneClassesVisitor over one class table: any sequence of root calls
        against one growing memo collects exactly the classes not kept, and
        counts those that the loader of the table defines. */
    /** PruneClassesVisitor on one class. */
    method Collect(table: seq<ClassId>, n: nat, pruned: set<ClassId>, count: nat, definedHere: set<ClassId>)
        returns (next: set<ClassId>, defined: nat)
      requires WellFormed(graph) && MemoExact() && n < |table| && table[n] in graph && table[n] !in table[..n]
      requires Collects(graph, appImage, table[..n], pruned) && count == |pruned * definedHere|
      modifies this`memo
      ensures MemoExact() && Collects(graph, appImage, table[..n + 1], next) && defined == |next * definedHere|
    {
      var klass := table[n];
      var keep := KeepClass(Some(klass));
      next, defined := pruned, count;
      CollectsOneMore(graph, appImage, table, n, pruned);
      if !keep {
        CountOne(pruned, definedHere, klass);
        next := next + {klass};
        if klass in definedHere {
          defined := defined + 1;
        }
      }
    }

    method CollectPruned(table: seq<ClassId>, definedHere: set<ClassId>) returns (pruned: set<ClassId>, defined: nat)
      requires WellFormed(graph) && MemoExact()
      requires forall i :: 0 <= i < |table| ==> table[i] in graph
      requires forall i, j :: 0 <= i < j < |table| ==> table[i] != table[j]
      modifies this`memo
      ensures MemoExact()
      ensures forall k :: k in pruned <==> k in table && k in graph && !Kept(graph, appImage, Some(k))
      ensures defined == |pruned * definedHere|
    {
      pruned, defined := {}, 0;
      for n := 0 to |table|
        invariant MemoExact() && Collects(graph, appImage, table[..n], pruned) && defined == |pruned * definedHere|
      {
        pruned, defined := Collect(table, n, pruned, defined, definedHere);
      }
      assert table[..|table|] == table;
    }

    /** PruneClassesVisitor and its Prune: what stays in the class table is what
        is kept. A table has one class per descriptor, so removing a descriptor
        removes that class. */
    method PruneTable(table: seq<ClassId>, definedHere: set<ClassId>) returns (rest: set<ClassId>, removed: nat)
      requires WellFormed(graph) && MemoExact()
      requires forall i :: 0 <= i < |table| ==> table[i] in graph
      requires forall i, j :: 0 <= i < j < |table| ==> table[i] != table[j]
      modifies this`memo
      ensures MemoExact()
      ensures forall k :: k in rest <==> k in table && k in graph && Kept(graph, appImage, Some(k))
      ensures removed == |(Classes(table) - rest) * definedHere|
    {
      var pruned;
      pruned, removed := CollectPruned(table, definedHere);
      rest := RemoveAll(Classes(table), pruned);
      assert Classes(table) - rest == pruned;
    }
  }

  function Classes(table: seq<ClassId>): set<ClassId> {
    set k | k in table
  }

  method RemoveAll(table: set<ClassId>, pruned: set<ClassId>) returns (rest: set<ClassId>)
    ensures rest == table - pruned
  {
    rest := table;
    var pending := pruned;
    while pending != {}
      invariant pending <= pruned && rest == table - (pruned - pending)
    {
      var klass :| klass in pending;
      rest := rest - {klass};
      pending := pending - {klass};
    }
  }

  /** `pruned` are the classes of `table` that are not kept. */
  ghost predicate Collects(g: Graph, appImage: bool, table: seq<ClassId>, pruned: set<ClassId>) {
    forall k :: k in pruned <==> k in table && k in g && !Kept(g, appImage, Some(k))
  }

  lemma {:induction false} CollectsOneMore(
    g: Graph, appImage: bool, table: seq<ClassId>, n: nat, pruned: set<ClassId>)
    requires n < |table| && table[n] in g && table[n] !in table[..n] && Collects(g, appImage, table[..n], pruned)
    ensures table[n] !in pruned
    ensures Collects(g, appImage, table[..n + 1],
                     if Kept(g, appImage, Some(table[n])) then pruned else pruned + {table[n]})
  {
    assert table[..n + 1] == table[..n] + [table[n]];
  }

  lemma {:induction false} CountOne(pruned: set<ClassId>, definedHere: set<ClassId>, k: ClassId)
    requires k !in pruned
    ensures |(pruned + {k}) * definedHere| == |pruned * definedHere| + if k in definedHere then 1 else 0
  {
    if k in definedHere {
      assert (pruned + {k}) * definedHere == pruned * definedHere + {k};
    } else {
      assert (pruned + {k}) * definedHere == pruned * definedHere;
    }
  }
}
