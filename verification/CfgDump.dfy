/** The whole dump, in terms of the instructions. */
module CfgDump {
  import opened Util
  import opened Cfg

  /* ---- Flow edges ---- */

  /** Control can pass from `i` to `j` and the graph needs an edge for it. */
  ghost predicate Passes(c: Code, i: nat, j: nat)
    requires i < |c| && j < |c|
  {
    || Leads(c, i, Pc(c, j))
    || (&& j == i + 1 && !Together(c, i)
        && !c[i].isReturn && !c[i].isThrowOpcode && !(c[i].isBranch && c[i].isUnconditional))
  }

  /** Edge `e` leads from instruction `i` to `j` and names the blocks that hold them. */
  ghost predicate Links(c: Code, inclId: map<nat, nat>, e: FlowEdge, i: nat, j: nat)
    requires i < |c| && j < |c|
  {
    && e.fromPc == Pc(c, i) && e.fromPc in inclId && e.fromNode == inclId[e.fromPc]
    && e.toPc == Pc(c, j) && e.toPc in inclId && e.toNode == inclId[e.toPc]
  }

  /** The flow edges are exactly those. */
  ghost predicate AreFlowEdges(c: Code, inclId: map<nat, nat>, flow: set<FlowEdge>) {
    forall e :: e in flow <==>
      exists i, j :: 0 <= i < |c| && 0 <= j < |c| && Passes(c, i, j) && Links(c, inclId, e, i, j)
  }

  lemma {:induction false} FlowEdgeIff(c: Code, i: nat, j: nat)
    requires WellFormed(c) && i < |c| && j < |c|
    ensures Between(c, i, j) in Regular(c, |c|) + Taken(c, |c|) <==> Passes(c, i, j)
  {
    var e := Between(c, i, j);
    LeadsIsJump(c, i, Pc(c, j));
    if i + 1 < |c| {
      TogetherIff(c, i);
    }
    GraphIsFlow(c, i, j);
    RegularMember(c, |c|, e);
    if Passes(c, i, j) && j == i + 1 && !Leads(c, i, Pc(c, j)) {
      assert BlockStart(c, j);
    }
    if Between(c, i, j) in Regular(c, |c|) {
      var k :| 1 <= k < |c| && BlockStart(c, k) && c[k - 1].Falls() && e == Between(c, k - 1, k);
      PcInjective(c, k, j);
    }
    if Between(c, i, j) in Taken(c, |c|) {
      var x := TakenIsJump(c, |c|, e);
      PcInjective(c, x, i);
    }
  }

  lemma {:induction false} FlowEdgesAreRight(c: Code, inclId: map<nat, nat>)
    requires WellFormed(c) && inclId == InclIds(c, |c|)
    ensures AreFlowEdges(c, inclId, Regular(c, |c|) + Taken(c, |c|))
  {
    var flow := Regular(c, |c|) + Taken(c, |c|);
    forall i, j, e | 0 <= i < |c| && 0 <= j < |c|
      ensures Links(c, inclId, e, i, j) <==> e == Between(c, i, j)
    {
      NodeTables(c, |c|, i);
      NodeTables(c, |c|, j);
    }
    forall i, j | 0 <= i < |c| && 0 <= j < |c| ensures Between(c, i, j) in flow <==> Passes(c, i, j) {
      FlowEdgeIff(c, i, j);
    }
    forall e | e in flow ensures exists i, j :: 0 <= i < |c| && 0 <= j < |c| && e == Between(c, i, j) {
      EdgesAreBetweenInstructions(c, e);
    }
  }

  /* ---- Exception edges ---- */

  /** The block of instruction `i` has two neighbours of which the second lacks a
      handler of the first. */
  ghost predicate IsUneven(c: Code, inclId: map<nat, nat>, i: nat)
    requires i < |c|
  {
    exists k :: 0 <= k < |c| - 1 && Together(c, k) && Shares(c, inclId, i, k) && Lacks(c, k)
  }

  ghost predicate Shares(c: Code, inclId: map<nat, nat>, i: nat, k: nat)
    requires i < |c| && k < |c|
  {
    Pc(c, i) in inclId && Pc(c, k) in inclId && inclId[Pc(c, i)] == inclId[Pc(c, k)]
  }

  ghost predicate Lacks(c: Code, k: nat)
    requires k + 1 < |c|
  {
    exists h :: h in c[k].handlers && h !in c[k + 1].handlers
  }

  /** Exception edge `e` belongs to instruction `i`: from its pc to one of its
      handlers in an uneven block, or from the whole block, which `i` ends, to a
      handler that is still common. */
  ghost predicate Raises(c: Code, inclId: map<nat, nat>, e: ExEdge, i: nat)
    requires i < |c|
  {
    && Pc(c, i) in inclId && e.fromNode == inclId[Pc(c, i)]
    && e.toPc in inclId && e.toNode == inclId[e.toPc] && e.toPc in c[i].handlers
    && match e.fromPc
       case Some(pc) => pc == Pc(c, i) && IsUneven(c, inclId, i)
       case None => (i + 1 == |c| || !Together(c, i)) && e.toPc in Kept(c, i)
  }

  /** The exception edges are exactly those. In a block that is not uneven, all
      handlers of the block are common in the end. */
  ghost predicate AreExceptionEdges(c: Code, inclId: map<nat, nat>, exceptions: set<ExEdge>) {
    && (forall e :: e in exceptions <==> exists i :: 0 <= i < |c| && Raises(c, inclId, e, i))
    && (forall i, j :: 0 <= i <= j < |c| && Shares(c, inclId, i, j) && !IsUneven(c, inclId, i) ==>
          HandlerSet(c[i]) <= Kept(c, j))
  }

  lemma {:induction false} UnevenIff(c: Code, inclId: map<nat, nat>, i: nat)
    requires WellFormed(c) && inclId == InclIds(c, |c|) && i < |c|
    ensures IsUneven(c, inclId, i) <==> HasDrop(c, StartOf(c, i))
  {
    NodeTables(c, |c|, i);
    forall k | 0 <= k < |c| - 1
      ensures Together(c, k) && Shares(c, inclId, i, k) && Lacks(c, k) <==>
              Drops(c, k + 1) && StartOf(c, k + 1) == StartOf(c, i)
    {
      DropIs(c, inclId, i, k);
    }
    if k :| 0 <= k < |c| && Drops(c, k) && StartOf(c, k) == StartOf(c, i) {
      assert Lacks(c, k - 1);
    }
  }

  lemma {:induction false} DropIs(c: Code, inclId: map<nat, nat>, i: nat, k: nat)
    requires WellFormed(c) && inclId == InclIds(c, |c|) && i < |c| && k + 1 < |c|
    ensures Together(c, k) && Shares(c, inclId, i, k) && Lacks(c, k) <==>
            Drops(c, k + 1) && StartOf(c, k + 1) == StartOf(c, i)
  {
    TogetherIff(c, k);
    NodeTables(c, |c|, i);
    NodeTables(c, |c|, k);
    SameStartIff(c, i, k);
    var before, now := HandlerSet(c[k]), HandlerSet(c[k + 1]);
    if h :| h in c[k].handlers && h !in c[k + 1].handlers {
      assert h in before && h !in now;
    } else {
      assert before <= now;
    }
  }

  lemma {:induction false} SameStartIff(c: Code, i: nat, k: nat)
    requires i < |c| && k < |c|
    ensures BlockOf(c, i) == BlockOf(c, k) <==> StartOf(c, i) == StartOf(c, k)
  {
    if i <= k {
      BlocksAreOrdered(c, i, k);
      BlocksAreOrdered(c, StartOf(c, i), StartOf(c, k));
    } else {
      BlocksAreOrdered(c, k, i);
      BlocksAreOrdered(c, StartOf(c, k), StartOf(c, i));
    }
  }

  /** In a block without a drop that ends with `j`, an edge of the whole node
      speaks for every instruction exactly if the last one has no handler that the
      first one lacks. */
  lemma {:induction false} CommonSpeaksForAllIff(c: Code, j: nat)
    requires j < |c| && !HasDrop(c, StartOf(c, j))
    ensures (forall i :: StartOf(c, j) <= i <= j ==> Kept(c, j) <= HandlerSet(c[i])) <==>
            HandlerSet(c[j]) <= HandlerSet(c[StartOf(c, j)])
  {
    var start := StartOf(c, j);
    KeptGrows(c, j, j);
    if HandlerSet(c[j]) <= HandlerSet(c[start]) {
      forall i | start <= i <= j ensures Kept(c, j) <= HandlerSet(c[i]) {
        StartIs(c, start, i);
        KeptGrows(c, start, i);
      }
    }
  }

  /** A nop outside any try block, then an instruction with a handler: the pass
      sees no difference, and the edge of the node speaks for both. */
  lemma {:induction false} LateHandlerIsCommon()
    ensures var nop := Insn(1, false, 0, false, false, [], false, false, true, []);
            var c := [nop, nop.(handlers := [0])];
            && WellFormed(c) && IsLast(c, 1) && StartOf(c, 1) == 0 && !HasDrop(c, 0)
            && 0 in Kept(c, 1) && 0 !in c[0].handlers
  {
    var nop := Insn(1, false, 0, false, false, [], false, false, true, []);
    var c := [nop, nop.(handlers := [0])];
    assert Pc(c, 1) == 1 && Pc(c, 2) == 2;
    assert HandlerSet(c[0]) == {} && HandlerSet(c[1]) == {0};
    assert !BlockStart(c, 1);
  }

  lemma {:induction false} CommonIsRaised(c: Code, inclId: map<nat, nat>, i: nat, e: ExEdge)
    requires WellFormed(c) && inclId == InclIds(c, |c|) && i < |c|
    ensures IsLast(c, i) && IsCommonEdge(c, i, e) <==> e.fromPc.None? && Raises(c, inclId, e, i)
  {
    NodeTables(c, |c|, i);
    if i + 1 < |c| {
      TogetherIff(c, i);
    }
    assert forall h :: h in Kept(c, i) ==> h in HandlerSet(c[i]);
  }

  lemma {:induction false} DetailIsRaised(c: Code, inclId: map<nat, nat>, i: nat, e: ExEdge)
    requires WellFormed(c) && inclId == InclIds(c, |c|) && i < |c|
    ensures Pc(c, StartOf(c, i)) in Exceptions(c, |c|).detailed && e in PcEdges(c, i) <==>
            e.fromPc.Some? && Raises(c, inclId, e, i)
  {
    NodeTables(c, |c|, i);
    MarkedIff(c, StartOf(c, i));
    UnevenIff(c, inclId, i);
  }

  lemma {:induction false} ExceptionEdgesAreRight(
    c: Code, inclId: map<nat, nat>, common: set<ExEdge>, detail: set<ExEdge>)
    requires WellFormed(c) && inclId == InclIds(c, |c|)
    requires common == if |c| == 0 then {}
                       else Exceptions(c, |c|).edges + CommonEdges(c, BlockOf(c, |c| - 1), Exceptions(c, |c|).targets)
    requires forall e :: e in detail <==> InDetailedBlock(c, Exceptions(c, |c|).detailed, e)
    ensures AreExceptionEdges(c, inclId, common + detail)
  {
    forall e ensures e in common + detail <==> exists i :: 0 <= i < |c| && Raises(c, inclId, e, i) {
      if |c| > 0 {
        CommonIff(c, e);
      }
      forall i | 0 <= i < |c|
        ensures Raises(c, inclId, e, i) <==>
                (IsLast(c, i) && IsCommonEdge(c, i, e)) ||
                (Pc(c, StartOf(c, i)) in Exceptions(c, |c|).detailed && e in PcEdges(c, i))
      {
        CommonIsRaised(c, inclId, i, e);
        DetailIsRaised(c, inclId, i, e);
      }
    }
    forall i, j | 0 <= i <= j < |c| && Shares(c, inclId, i, j) && !IsUneven(c, inclId, i)
      ensures HandlerSet(c[i]) <= Kept(c, j)
    {
      NodeTables(c, |c|, i);
      NodeTables(c, |c|, j);
      UnevenIff(c, inclId, i);
      SameStartIff(c, i, j);
      KeptGrows(c, i, j);
    }
  }

  /** Edges and in-block adjacency are the fall-throughs and jumps, and every edge
      joins two instructions and names their blocks. */
  ghost predicate IsFlowGraph(c: Code, flow: set<FlowEdge>) {
    && (forall i, j :: 0 <= i < |c| && 0 <= j < |c| ==>
          (Connected(c, flow, i, j) <==> (c[i].Falls() && j == i + 1) || JumpsTo(c, i, Pc(c, j))))
    && (forall e :: e in flow ==> exists i, j :: 0 <= i < |c| && 0 <= j < |c| && e == Between(c, i, j))
  }

  /** Exception edges are, block by block, the handlers of its instructions, and
      every edge leads into the block of its handler. */
  ghost predicate IsExceptionGraph(c: Code, exceptions: set<ExEdge>) {
    && (forall node, h ::
        (exists e :: e in exceptions && e.fromNode == node && e.toPc == h) <==> BlockRaises(c, node, h))
    && (forall e :: e in exceptions ==> RightEnds(c, e))
  }

  lemma {:induction false} FlowIsRight(c: Code)
    requires WellFormed(c)
    ensures IsFlowGraph(c, Regular(c, |c|) + Taken(c, |c|))
  {
    var flow := Regular(c, |c|) + Taken(c, |c|);
    forall i, j | 0 <= i < |c| && 0 <= j < |c|
      ensures Connected(c, flow, i, j) <==> (c[i].Falls() && j == i + 1) || JumpsTo(c, i, Pc(c, j))
    {
      GraphIsFlow(c, i, j);
    }
    forall e | e in flow ensures exists i, j :: 0 <= i < |c| && 0 <= j < |c| && e == Between(c, i, j) {
      EdgesAreBetweenInstructions(c, e);
    }
  }

  lemma {:induction false} ExceptionsAreRight(c: Code, common: set<ExEdge>, detail: set<ExEdge>)
    requires WellFormed(c)
    requires common == if |c| == 0 then {}
                       else Exceptions(c, |c|).edges + CommonEdges(c, BlockOf(c, |c| - 1), Exceptions(c, |c|).targets)
    requires forall e :: e in detail <==> InDetailedBlock(c, Exceptions(c, |c|).detailed, e)
    ensures IsExceptionGraph(c, common + detail)
  {
    if |c| > 0 {
      ExceptionEdgesExact(c, common, detail, 0, 0);
      forall node, h
        ensures (exists e :: e in common + detail && e.fromNode == node && e.toPc == h) <==> BlockRaises(c, node, h)
      {
        ExceptionEdgesExact(c, common, detail, node, h);
      }
    }
  }

  /** The whole of dumpMethodCFGImpl, up to printing. */
  method DumpMethodCfg(c: Code)
      returns (nodeId: map<nat, nat>, inclId: map<nat, nat>, flow: set<FlowEdge>, exceptions: set<ExEdge>)
    requires WellFormed(c)
    ensures AreTables(c, nodeId, inclId) && inclId == InclIds(c, |c|)
    ensures IsFlowGraph(c, flow)
    ensures IsExceptionGraph(c, exceptions)
    ensures AreBlocks(c, nodeId, inclId)
    ensures AreFlowEdges(c, inclId, flow)
    ensures AreExceptionEdges(c, inclId, exceptions)
  {
    var targets := CollectTargets(c);
    nodeId, inclId := FormBlocks(c, targets);
    var regular, taken, common, detailed := EdgePass(c, nodeId, inclId);
    forall pc | pc in detailed ensures exists k :: 0 <= k < |c| && Pc(c, k) == pc && BlockStart(c, k) {
      MarkedIs(c, |c|, pc);
    }
    var detail := DetailedPass(c, detailed, nodeId, inclId);
    flow, exceptions := regular + taken, common + detail;
    FlowIsRight(c);
    ExceptionsAreRight(c, common, detail);
    FlowEdgesAreRight(c, inclId);
    ExceptionEdgesAreRight(c, inclId, common, detail);
  }
}
