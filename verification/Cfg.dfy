/** The control flow graph that dexdump prints for a method: target collection,
    block formation, edges and exception edges, against the instruction-level
    successor relation. */
module Cfg {
  import opened Util

  datatype Insn = Insn(
    size: nat,                 // in code units
    isBranch: bool,
    targetOffset: int,         // of a branch
    isUnconditional: bool,
    isSwitch: bool,
    switchOffsets: seq<int>,   // the targets in the payload of a switch
    isReturn: bool,
    isThrowOpcode: bool,
    canContinue: bool,         // the opcode table's kContinue flag
    handlers: seq<nat>)        // handler addresses CatchHandlerIterator yields here
  {
    predicate IsBasicBlockEnd() {
      isBranch || isReturn || isThrowOpcode
    }

    /** What the edge pass tests: control may fall through to the next instruction. */
    predicate Falls() {
      !(isReturn || isThrowOpcode || (isBranch && isUnconditional))
    }

    function Offsets(): seq<int> {
      if isBranch then [targetOffset] else if isSwitch then switchOffsets else []
    }
  }

  type Code = seq<Insn>

  function Pc(c: Code, k: nat): nat
    requires k <= |c|
  {
    if k == 0 then 0 else Pc(c, k - 1) + c[k - 1].size
  }

  /** Every instruction takes room and the code unit count is a uint32_t. */
  ghost predicate WellFormed(c: Code) {
    && (forall k :: 0 <= k < |c| ==> c[k].size > 0)
    && Pc(c, |c|) < TWO_32
  }

  lemma {:induction false} PcIncreases(c: Code, i: nat, j: nat)
    requires WellFormed(c) && i < j <= |c|
    ensures Pc(c, i) < Pc(c, j)
    decreases j
  {
    if i < j - 1 {
      PcIncreases(c, i, j - 1);
    }
  }

  lemma {:induction false} PcInjective(c: Code, i: nat, j: nat)
    requires WellFormed(c) && i <= |c| && j <= |c| && Pc(c, i) == Pc(c, j)
    ensures i == j
  {
    if i < j {
      PcIncreases(c, i, j);
    } else if j < i {
      PcIncreases(c, j, i);
    }
  }

  /** `dex_pc + offset` in uint32_t arithmetic. */
  function Target(pc: nat, offset: int): nat {
    (pc + offset) % TWO_32
  }

  ghost predicate JumpsTo(c: Code, i: nat, pc: nat)
    requires i < |c|
  {
    exists o :: o in c[i].Offsets() && Target(Pc(c, i), o) == pc
  }

  /** The instruction-level successors of `i`, exceptions aside. */
  ghost predicate Successor(c: Code, i: nat, j: nat)
    requires i < |c| && j < |c|
  {
    (c[i].canContinue && j == i + 1) || JumpsTo(c, i, Pc(c, j))
  }

  /* ---- Blocks ---- */

  ghost predicate IsTarget(c: Code, pc: nat) {
    exists i :: 0 <= i < |c| && JumpsTo(c, i, pc)
  }

  ghost predicate BlockStart(c: Code, k: nat)
    requires k < |c|
  {
    k == 0 || IsTarget(c, Pc(c, k)) || c[k - 1].isSwitch || c[k - 1].IsBasicBlockEnd()
  }

  ghost function BlockOf(c: Code, k: nat): (id: nat)
    requires k < |c|
    ensures id <= k
  {
    if k == 0 then 0 else BlockOf(c, k - 1) + (if BlockStart(c, k) then 1 else 0)
  }

  /** The first instruction of the block that holds `k`. */
  ghost function StartOf(c: Code, k: nat): (s: nat)
    requires k < |c|
    ensures s <= k && BlockStart(c, s) && BlockOf(c, s) == BlockOf(c, k)
    ensures forall i :: s < i <= k ==> !BlockStart(c, i)
  {
    if BlockStart(c, k) then k else StartOf(c, k - 1)
  }

  lemma {:induction false} BlocksAreOrdered(c: Code, i: nat, j: nat)
    requires i <= j < |c|
    ensures BlockOf(c, i) <= BlockOf(c, j)
    ensures BlockOf(c, i) == BlockOf(c, j) <==> StartOf(c, j) <= i
    decreases j
  {
    if i < j {
      BlocksAreOrdered(c, i, j - 1);
    }
  }

  /** The node table after `n` instructions: block starts only. */
  ghost function NodeIds(c: Code, n: nat): map<nat, nat>
    requires n <= |c|
  {
    if n == 0 then map[]
    else if BlockStart(c, n - 1) then NodeIds(c, n - 1)[Pc(c, n - 1) := BlockOf(c, n - 1)]
    else NodeIds(c, n - 1)
  }

  /** The table of all instructions. */
  ghost function InclIds(c: Code, n: nat): map<nat, nat>
    requires n <= |c|
  {
    if n == 0 then map[] else InclIds(c, n - 1)[Pc(c, n - 1) := BlockOf(c, n - 1)]
  }

  lemma {:induction false} NodeIdsBelow(c: Code, n: nat)
    requires WellFormed(c) && n <= |c|
    ensures forall pc :: pc in NodeIds(c, n) ==> pc < Pc(c, n)
    ensures |NodeIds(c, n)| == if n == 0 then 0 else BlockOf(c, n - 1) + 1
  {
    if n > 0 {
      NodeIdsBelow(c, n - 1);
      if n > 1 && BlockStart(c, n - 1) {
        assert Pc(c, n - 1) !in NodeIds(c, n - 1);
      }
    }
  }

  /** A block is known by its first pc, an instruction by its own. */
  lemma {:induction false} NodeTables(c: Code, n: nat, k: nat)
    requires WellFormed(c) && k < n <= |c|
    ensures Pc(c, k) in InclIds(c, n) && InclIds(c, n)[Pc(c, k)] == BlockOf(c, k)
    ensures Pc(c, k) in NodeIds(c, n) <==> BlockStart(c, k)
    ensures BlockStart(c, k) ==> NodeIds(c, n)[Pc(c, k)] == BlockOf(c, k)
  {
    if k < n - 1 {
      PcIncreases(c, k, n - 1);
      NodeTables(c, n - 1, k);
    } else {
      NodeIdsBelow(c, k);
    }
  }

  lemma {:induction false} NodeTablesOnly(c: Code, n: nat, pc: nat)
    requires n <= |c| && (pc in InclIds(c, n) || pc in NodeIds(c, n))
    ensures exists k :: 0 <= k < n && Pc(c, k) == pc
  {
    if Pc(c, n - 1) != pc {
      NodeTablesOnly(c, n - 1, pc);
    }
  }

  /* ---- Blocks in terms of the instructions ---- */

  /** Instruction `i`, a branch or a switch, can jump to `pc`. */
  ghost predicate Leads(c: Code, i: nat, pc: nat)
    requires i < |c|
  {
    if c[i].isBranch then (Pc(c, i) + c[i].targetOffset) % TWO_32 == pc
    else
      && c[i].isSwitch
      && exists t :: 0 <= t < |c[i].switchOffsets| && (Pc(c, i) + c[i].switchOffsets[t]) % TWO_32 == pc
  }

  lemma {:induction false} LeadsIsJump(c: Code, i: nat, pc: nat)
    requires i < |c|
    ensures Leads(c, i, pc) <==> JumpsTo(c, i, pc)
  {
    var offsets := c[i].Offsets();
    if c[i].isBranch {
      assert Target(Pc(c, i), offsets[0]) == (Pc(c, i) + c[i].targetOffset) % TWO_32;
    } else if Leads(c, i, pc) {
      var t :| 0 <= t < |offsets| && (Pc(c, i) + offsets[t]) % TWO_32 == pc;
      assert Target(Pc(c, i), offsets[t]) == pc;
    }
  }

  ghost predicate IsReached(c: Code, pc: nat) {
    exists k :: 0 <= k < |c| && Leads(c, k, pc)
  }

  lemma {:induction false} TargetIsReached(c: Code, pc: nat)
    ensures IsTarget(c, pc) <==> IsReached(c, pc)
  {
    forall k | 0 <= k < |c| ensures Leads(c, k, pc) <==> JumpsTo(c, k, pc) {
      LeadsIsJump(c, k, pc);
    }
  }

  /** Instructions `i` and `i + 1` belong together: `i` is no branch, switch,
      return or throw, and nothing jumps to `i + 1`. */
  ghost predicate Together(c: Code, i: nat)
    requires i + 1 < |c|
  {
    && !c[i].isBranch && !c[i].isSwitch && !c[i].isReturn && !c[i].isThrowOpcode
    && !IsReached(c, Pc(c, i + 1))
  }

  lemma {:induction false} TogetherIff(c: Code, i: nat)
    requires i + 1 < |c|
    ensures Together(c, i) <==> !BlockStart(c, i + 1)
  {
    TargetIsReached(c, Pc(c, i + 1));
  }

  /** Instruction `i + 1` stays in the block of `i`, or begins the next one. */
  ghost predicate IsNext(c: Code, nodeId: map<nat, nat>, inclId: map<nat, nat>, i: nat)
    requires i + 1 < |c|
  {
    && Pc(c, i) in inclId && Pc(c, i + 1) in inclId
    && inclId[Pc(c, i + 1)] == inclId[Pc(c, i)] + (if Together(c, i) then 0 else 1)
    && (Pc(c, i + 1) in nodeId <==> !Together(c, i))
  }

  /** `inclId` numbers the blocks of the instructions from 0, two neighbours share
      a block exactly if they belong together, and `nodeId` is `inclId` at the
      first instruction of each block. */
  ghost predicate AreBlocks(c: Code, nodeId: map<nat, nat>, inclId: map<nat, nat>) {
    && (forall pc :: pc in inclId <==> exists k :: 0 <= k < |c| && Pc(c, k) == pc)
    && (|c| > 0 ==> 0 in inclId && inclId[0] == 0 && 0 in nodeId)
    && (forall i :: 0 <= i < |c| - 1 ==> IsNext(c, nodeId, inclId, i))
    && (forall pc :: pc in nodeId ==> pc in inclId && nodeId[pc] == inclId[pc])
  }

  /** The tables map exactly the instructions and exactly the block starts to
      their blocks. */
  ghost predicate AreTables(c: Code, nodeId: map<nat, nat>, inclId: map<nat, nat>) {
    && (forall k :: 0 <= k < |c| ==> Pc(c, k) in inclId && inclId[Pc(c, k)] == BlockOf(c, k))
    && (forall k :: 0 <= k < |c| ==> (Pc(c, k) in nodeId <==> BlockStart(c, k)))
    && (forall k :: 0 <= k < |c| && BlockStart(c, k) ==> Pc(c, k) in nodeId && nodeId[Pc(c, k)] == BlockOf(c, k))
    && (forall pc :: pc in inclId || pc in nodeId ==> exists k :: 0 <= k < |c| && Pc(c, k) == pc)
  }

  lemma {:induction false} TablesAreRight(c: Code)
    requires WellFormed(c)
    ensures AreTables(c, NodeIds(c, |c|), InclIds(c, |c|))
  {
    var nodeId, inclId := NodeIds(c, |c|), InclIds(c, |c|);
    forall k | 0 <= k < |c|
      ensures Pc(c, k) in inclId && inclId[Pc(c, k)] == BlockOf(c, k) && (Pc(c, k) in nodeId <==> BlockStart(c, k))
      ensures BlockStart(c, k) ==> nodeId[Pc(c, k)] == BlockOf(c, k)
    {
      NodeTables(c, |c|, k);
    }
    forall pc | pc in inclId || pc in nodeId ensures exists k :: 0 <= k < |c| && Pc(c, k) == pc {
      NodeTablesOnly(c, |c|, pc);
    }
  }

  lemma {:induction false} BlocksAreRight(c: Code, nodeId: map<nat, nat>, inclId: map<nat, nat>)
    requires WellFormed(c) && AreTables(c, nodeId, inclId)
    ensures AreBlocks(c, nodeId, inclId)
  {
    forall i | 0 <= i < |c| - 1 ensures IsNext(c, nodeId, inclId, i) {
      TogetherIff(c, i);
    }
    if |c| > 0 {
      assert Pc(c, 0) == 0 && BlockStart(c, 0);
    }
  }

  /* ---- The passes ---- */

  method CollectTargets(c: Code) returns (targets: set<nat>)
    ensures forall pc :: pc in targets <==> IsTarget(c, pc)
    ensures forall pc :: pc in targets <==> IsReached(c, pc)
  {
    targets := {};
    var dexPc := 0;
    for k := 0 to |c|
      invariant dexPc == Pc(c, k)
      invariant forall pc :: pc in targets <==> exists i :: 0 <= i < k && JumpsTo(c, i, pc)
    {
      ghost var before := targets;
      var inst := c[k];
      if inst.isBranch {
        targets := targets + {Target(dexPc, inst.targetOffset)};
        assert inst.Offsets() == [inst.targetOffset];
      } else if inst.isSwitch {
        for t := 0 to |inst.switchOffsets|
          invariant forall pc :: pc in targets <==>
                      pc in before || exists o :: o in inst.switchOffsets[..t] && Target(dexPc, o) == pc
        {
          targets := targets + {Target(dexPc, inst.switchOffsets[t])};
          assert inst.switchOffsets[..t + 1] == inst.switchOffsets[..t] + [inst.switchOffsets[t]];
        }
        assert inst.switchOffsets[..|inst.switchOffsets|] == inst.switchOffsets;
      }
      assert forall pc :: pc in targets <==> pc in before || JumpsTo(c, k, pc);
      dexPc := dexPc + inst.size;
    }
    forall pc ensures IsTarget(c, pc) <==> IsReached(c, pc) {
      TargetIsReached(c, pc);
    }
  }

  method FormBlocks(c: Code, targets: set<nat>) returns (nodeId: map<nat, nat>, inclId: map<nat, nat>)
    requires WellFormed(c)
    requires forall pc :: pc in targets <==> IsTarget(c, pc)
    ensures nodeId == NodeIds(c, |c|) && inclId == InclIds(c, |c|)
    ensures AreTables(c, nodeId, inclId) && AreBlocks(c, nodeId, inclId)
  {
    nodeId, inclId := map[], map[];
    var forceNewBlock := false;
    var dexPc := 0;
    for k := 0 to |c|
      invariant dexPc == Pc(c, k)
      invariant k > 0 ==> forceNewBlock == (c[k - 1].isSwitch || c[k - 1].IsBasicBlockEnd())
      invariant nodeId == NodeIds(c, k) && inclId == InclIds(c, k)
    {
      NodeIdsBelow(c, k);
      if k > 0 {
        PcIncreases(c, 0, k);
      }
      if dexPc == 0 || dexPc in targets || forceNewBlock {
        nodeId := nodeId[dexPc := |nodeId|];
        forceNewBlock := false;
      }
      NodeIdsBelow(c, k + 1);
      inclId := inclId[dexPc := |nodeId| - 1];
      forceNewBlock := c[k].isSwitch || c[k].IsBasicBlockEnd();
      dexPc := dexPc + c[k].size;
    }
    TablesAreRight(c);
    BlocksAreRight(c, nodeId, inclId);
  }

  /* ---- Edges ---- */

  datatype FlowEdge = FlowEdge(fromNode: nat, fromPc: nat, toNode: nat, toPc: nat)

  /** Fall-through edges into the block starts among the first `n` instructions. */
  ghost function Regular(c: Code, n: nat): set<FlowEdge>
    requires n <= |c|
  {
    if n <= 1 then {}
    else if BlockStart(c, n - 1) && c[n - 2].Falls() then Regular(c, n - 1) + {Between(c, n - 2, n - 1)}
    else Regular(c, n - 1)
  }

  ghost function Between(c: Code, i: nat, j: nat): FlowEdge
    requires i < |c| && j < |c|
  {
    FlowEdge(BlockOf(c, i), Pc(c, i), BlockOf(c, j), Pc(c, j))
  }

  /** Edges of the first `t` jump offsets of instruction `i` that hit a block start. */
  ghost function TakenFrom(c: Code, i: nat, t: nat): set<FlowEdge>
    requires i < |c| && t <= |c[i].Offsets()|
  {
    if t == 0 then {}
    else
      var pc := Target(Pc(c, i), c[i].Offsets()[t - 1]);
      TakenFrom(c, i, t - 1) +
      if pc in NodeIds(c, |c|) then {FlowEdge(BlockOf(c, i), Pc(c, i), NodeIds(c, |c|)[pc], pc)} else {}
  }

  ghost function Taken(c: Code, n: nat): set<FlowEdge>
    requires n <= |c|
  {
    if n == 0 then {} else Taken(c, n - 1) + TakenFrom(c, n - 1, |c[n - 1].Offsets()|)
  }

  /** An edge of the exception subgraph: from a whole node, or from one pc of it. */
  datatype ExEdge = ExEdge(fromNode: nat, fromPc: Option<nat>, toNode: nat, toPc: nat)

  /** The running state of the exception part of the edge pass. */
  datatype ExState = ExState(targets: set<nat>, detailed: set<nat>, edges: set<ExEdge>)

  function HandlerSet(x: Insn): set<nat> {
    set h | h in x.handlers
  }

  ghost function CommonEdges(c: Code, node: nat, targets: set<nat>): set<ExEdge> {
    set h | h in targets && h in InclIds(c, |c|) :: ExEdge(node, None, InclIds(c, |c|)[h], h)
  }

  ghost function Exceptions(c: Code, n: nat): ExState
    requires n <= |c|
    decreases n, 1
  {
    if n == 0 then ExState({}, {}, {})
    else
      var st := Flush(c, n);
      var targets := st.targets + HandlerSet(c[n - 1]);
      if StartOf(c, n - 1) != n - 1 && HandlerSet(c[n - 1]) != targets
      then ExState({}, st.detailed + {Pc(c, StartOf(c, n - 1))}, st.edges)
      else st.(targets := targets)
  }

  /** Common edges of the finished block are added when the next block starts. */
  ghost function Flush(c: Code, n: nat): ExState
    requires 0 < n <= |c|
    decreases n, 0
  {
    var st := Exceptions(c, n - 1);
    if n > 1 && BlockStart(c, n - 1)
    then ExState({}, st.detailed, st.edges + CommonEdges(c, BlockOf(c, n - 2), st.targets))
    else st
  }

  method EmitCommon(node: nat, targets: set<nat>, inclId: map<nat, nat>) returns (edges: set<ExEdge>)
    ensures edges == set h | h in targets && h in inclId :: ExEdge(node, None, inclId[h], h)
  {
    edges := {};
    var pending := targets;
    while pending != {}
      invariant pending <= targets
      invariant edges == set h | h in targets - pending && h in inclId :: ExEdge(node, None, inclId[h], h)
      decreases pending
    {
      var handlerPc :| handlerPc in pending;
      pending := pending - {handlerPc};
      if handlerPc in inclId {
        edges := edges + {ExEdge(node, None, inclId[handlerPc], handlerPc)};
      }
    }
  }

  /** The branch and switch part of the edge pass for instruction `k`. */
  method JumpEdges(c: Code, k: nat, dexPc: nat, node: nat, nodeId: map<nat, nat>) returns (taken: set<FlowEdge>)
    requires k < |c| && dexPc == Pc(c, k) && node == BlockOf(c, k) && nodeId == NodeIds(c, |c|)
    ensures taken == TakenFrom(c, k, |c[k].Offsets()|)
  {
    taken := {};
    var inst := c[k];
    if inst.isBranch {
      var target := Target(dexPc, inst.targetOffset);
      assert TakenFrom(c, k, 0) == {};
      if target in nodeId {
        taken := {FlowEdge(node, dexPc, nodeId[target], target)};
      }
    } else if inst.isSwitch {
      for t := 0 to |inst.switchOffsets|
        invariant taken == TakenFrom(c, k, t)
      {
        var target := Target(dexPc, inst.switchOffsets[t]);
        if target in nodeId {
          taken := taken + {FlowEdge(node, dexPc, nodeId[target], target)};
        }
      }
    }
  }

  /** The start of the loop body: at a block start the common exception edges of
      the block before are flushed, and control falling in makes an edge. */
  method EnterBlock(c: Code, k: nat, nodeId: map<nat, nat>, inclId: map<nat, nat>, dexPc: nat, oldDexPc: nat,
                    oldLast: Option<nat>, oldStart: Option<nat>, oldRegular: set<FlowEdge>, ex: ExState)
      returns (lastNodeId: nat, blockStart: nat, regular: set<FlowEdge>, flushed: ExState)
    requires WellFormed(c) && k < |c| && nodeId == NodeIds(c, |c|) && inclId == InclIds(c, |c|)
    requires dexPc == Pc(c, k) && (k > 0 ==> oldDexPc == Pc(c, k - 1))
    requires oldLast == if k > 0 && c[k - 1].Falls() then Some(BlockOf(c, k - 1)) else None
    requires oldStart == if k > 0 then Some(Pc(c, StartOf(c, k - 1))) else None
    requires oldRegular == Regular(c, k) && ex == Exceptions(c, k)
    ensures lastNodeId == BlockOf(c, k) && blockStart == Pc(c, StartOf(c, k))
    ensures regular == Regular(c, k + 1) && flushed == Flush(c, k + 1)
  {
    regular, flushed := oldRegular, ex;
    NodeTables(c, |c|, k);
    if dexPc in nodeId {
      if ex.targets != {} {
        NodeTables(c, |c|, StartOf(c, k - 1));
        var edges := EmitCommon(nodeId[oldStart.value], ex.targets, inclId);
        flushed := ExState({}, ex.detailed, ex.edges + edges);
      }
      blockStart, lastNodeId := dexPc, nodeId[dexPc];
      if oldLast.Some? {
        regular := regular + {FlowEdge(oldLast.value, oldDexPc, lastNodeId, dexPc)};
      }
    } else {
      blockStart, lastNodeId := oldStart.value, oldLast.value;
    }
  }

  /** Adds the handlers of instruction `k`; if they differ within the block, the
      block is left to the detailed pass. */
  method NoteHandlers(c: Code, k: nat, start: nat, dexPc: nat, ex: ExState) returns (noted: ExState)
    requires WellFormed(c) && k < |c| && dexPc == Pc(c, k) && start == Pc(c, StartOf(c, k)) && ex == Flush(c, k + 1)
    ensures noted == Exceptions(c, k + 1)
  {
    noted := ex.(targets := ex.targets + HandlerSet(c[k]));
    if start == dexPc {
      PcInjective(c, StartOf(c, k), k);
    } else if HandlerSet(c[k]) != noted.targets {
      noted := noted.(targets := {}, detailed := noted.detailed + {start});
    }
  }

  /** The variables of the edge pass: edges so far, the handlers of the current
      block, the block that falls into the next instruction, where the current
      block begins, and the last two pcs. */
  datatype Pass = Pass(
    regular: set<FlowEdge>, taken: set<FlowEdge>, ex: ExState, lastNodeId: Option<nat>, blockStart: Option<nat>,
    oldDexPc: nat, dexPc: nat)

  /** Their values before instruction `k`. */
  ghost predicate IsPass(c: Code, k: nat, p: Pass) {
    && k <= |c| && p.dexPc == Pc(c, k) && (k > 0 ==> p.oldDexPc == Pc(c, k - 1))
    && p.lastNodeId == (if k > 0 && c[k - 1].Falls() then Some(BlockOf(c, k - 1)) else None)
    && p.blockStart == (if k > 0 then Some(Pc(c, StartOf(c, k - 1))) else None)
    && p.regular == Regular(c, k) && p.taken == Taken(c, k) && p.ex == Exceptions(c, k)
  }

  /** The loop body. */
  method EdgeStep(c: Code, k: nat, nodeId: map<nat, nat>, inclId: map<nat, nat>, p: Pass) returns (q: Pass)
    requires WellFormed(c) && k < |c| && nodeId == NodeIds(c, |c|) && inclId == InclIds(c, |c|) && IsPass(c, k, p)
    ensures IsPass(c, k + 1, q)
  {
    var inst := c[k];
    var node, start, regular, flushed := EnterBlock(
      c, k, nodeId, inclId, p.dexPc, p.oldDexPc, p.lastNodeId, p.blockStart, p.regular, p.ex);
    var jumps := JumpEdges(c, k, p.dexPc, node, nodeId);
    var ex := NoteHandlers(c, k, start, p.dexPc, flushed);
    var ends := inst.isReturn || inst.isThrowOpcode || (inst.isBranch && inst.isUnconditional);
    q := Pass(regular, p.taken + jumps, ex, if ends then None else Some(node), Some(start), p.dexPc,
              p.dexPc + inst.size);
  }

  method EdgePass(c: Code, nodeId: map<nat, nat>, inclId: map<nat, nat>)
      returns (regular: set<FlowEdge>, taken: set<FlowEdge>, exceptions: set<ExEdge>, detailed: set<nat>)
    requires WellFormed(c)
    requires nodeId == NodeIds(c, |c|) && inclId == InclIds(c, |c|)
    ensures regular == Regular(c, |c|) && taken == Taken(c, |c|)
    ensures detailed == Exceptions(c, |c|).detailed
    ensures exceptions == if |c| == 0 then {}
                          else Exceptions(c, |c|).edges +
                               CommonEdges(c, BlockOf(c, |c| - 1), Exceptions(c, |c|).targets)
  {
    var pass := Pass({}, {}, ExState({}, {}, {}), None, None, 0, 0);
    for k := 0 to |c|
      invariant IsPass(c, k, pass)
    {
      pass := EdgeStep(c, k, nodeId, inclId, pass);
    }
    regular, taken, detailed := pass.regular, pass.taken, pass.ex.detailed;
    exceptions := LastBlock(c, nodeId, inclId, pass.blockStart, pass.ex);
  }

  /** The common exception edges of the last block. */
  method LastBlock(c: Code, nodeId: map<nat, nat>, inclId: map<nat, nat>, blockStart: Option<nat>, ex: ExState)
      returns (exceptions: set<ExEdge>)
    requires WellFormed(c) && nodeId == NodeIds(c, |c|) && inclId == InclIds(c, |c|) && ex == Exceptions(c, |c|)
    requires blockStart == if |c| > 0 then Some(Pc(c, StartOf(c, |c| - 1))) else None
    ensures exceptions == if |c| == 0 then {} else ex.edges + CommonEdges(c, BlockOf(c, |c| - 1), ex.targets)
  {
    exceptions := ex.edges;
    if ex.targets != {} {
      NodeTables(c, |c|, StartOf(c, |c| - 1));
      var edges := EmitCommon(nodeId[blockStart.value], ex.targets, inclId);
      exceptions := exceptions + edges;
    }
  }

  /** The per-pc exception edges of instruction `i`. */
  ghost function PcEdges(c: Code, i: nat): set<ExEdge>
    requires i < |c|
  {
    set h | h in c[i].handlers && h in InclIds(c, |c|) ::
      ExEdge(BlockOf(c, i), Some(Pc(c, i)), InclIds(c, |c|)[h], h)
  }

  ghost function RangeEdges(c: Code, lo: nat, hi: nat): set<ExEdge>
    requires lo <= hi <= |c|
  {
    if lo == hi then {} else RangeEdges(c, lo, hi - 1) + PcEdges(c, hi - 1)
  }

  lemma {:induction false} RangeEdgesMember(c: Code, lo: nat, hi: nat, e: ExEdge)
    requires lo <= hi <= |c|
    ensures e in RangeEdges(c, lo, hi) <==> exists i :: lo <= i < hi && e in PcEdges(c, i)
    decreases hi
  {
    if lo < hi {
      RangeEdgesMember(c, lo, hi - 1, e);
    }
  }

  /** The handler loop for one instruction, each handler once. */
  method EmitPcEdges(c: Code, k: nat, dexPc: nat, node: nat, inclId: map<nat, nat>) returns (edges: set<ExEdge>)
    requires k < |c| && dexPc == Pc(c, k) && node == BlockOf(c, k) && inclId == InclIds(c, |c|)
    ensures edges == PcEdges(c, k)
  {
    edges := {};
    var handled: set<nat> := {};
    for t := 0 to |c[k].handlers|
      invariant handled == set h | h in c[k].handlers[..t]
      invariant edges == set h | h in c[k].handlers[..t] && h in inclId :: ExEdge(node, Some(dexPc), inclId[h], h)
    {
      var handlerPc := c[k].handlers[t];
      assert c[k].handlers[..t + 1] == c[k].handlers[..t] + [handlerPc];
      if handlerPc !in handled {
        if handlerPc in inclId {
          edges := edges + {ExEdge(node, Some(dexPc), inclId[handlerPc], handlerPc)};
        }
        handled := handled + {handlerPc};
      }
    }
    assert c[k].handlers[..|c[k].handlers|] == c[k].handlers;
  }

  /** Whether the block of the detailed pass ends with instruction `k`. */
  method EndsBlock(c: Code, k: nat, dexPc: nat, nodeId: map<nat, nat>) returns (stop: bool)
    requires WellFormed(c) && k < |c| && dexPc == Pc(c, k) && nodeId == NodeIds(c, |c|)
    ensures stop <==> k + 1 == |c| || BlockStart(c, k + 1)
  {
    if c[k].IsBasicBlockEnd() {
      return true;
    }
    if k + 1 == |c| {
      return true;
    }
    NodeTables(c, |c|, k + 1);
    return dexPc + c[k].size in nodeId;
  }

  /** The second pass, over one block that needs per-pc exception edges. */
  method DetailBlock(c: Code, start: nat, nodeId: map<nat, nat>, inclId: map<nat, nat>)
      returns (edges: set<ExEdge>, ghost end: nat)
    requires WellFormed(c) && start < |c| && BlockStart(c, start)
    requires nodeId == NodeIds(c, |c|) && inclId == InclIds(c, |c|)
    ensures start < end <= |c|
    ensures forall i :: start < i < end ==> !BlockStart(c, i)
    ensures end < |c| ==> BlockStart(c, end)
    ensures edges == RangeEdges(c, start, end)
  {
    edges := {};
    var k, dexPc := start, Pc(c, start);
    NodeTables(c, |c|, start);
    var node := inclId[dexPc];
    while true
      invariant start <= k < |c| && dexPc == Pc(c, k)
      invariant forall i :: start < i <= k ==> !BlockStart(c, i)
      invariant node == BlockOf(c, k)
      invariant edges == RangeEdges(c, start, k)
      decreases |c| - k
    {
      var here := EmitPcEdges(c, k, dexPc, node, inclId);
      edges := edges + here;
      end := k + 1;
      var stop := EndsBlock(c, k, dexPc, nodeId);
      if stop {
        return;
      }
      dexPc := dexPc + c[k].size;
      k := k + 1;
    }
  }

  lemma {:induction false} StartIs(c: Code, start: nat, i: nat)
    requires start <= i < |c| && BlockStart(c, start)
    requires forall j :: start < j <= i ==> !BlockStart(c, j)
    ensures StartOf(c, i) == start
    decreases i
  {
    if start < i {
      StartIs(c, start, i - 1);
    }
  }

  ghost predicate InDetailedBlock(c: Code, detailed: set<nat>, e: ExEdge) {
    exists i :: 0 <= i < |c| && Pc(c, StartOf(c, i)) in detailed && e in PcEdges(c, i)
  }

  /** From a block start up to the next one: the edges of that whole block. */
  lemma {:induction false} BlockEdges(c: Code, start: nat, end: nat, e: ExEdge)
    requires WellFormed(c) && start < end <= |c| && BlockStart(c, start)
    requires forall i :: start < i < end ==> !BlockStart(c, i)
    requires end < |c| ==> BlockStart(c, end)
    ensures e in RangeEdges(c, start, end) <==> InDetailedBlock(c, {Pc(c, start)}, e)
  {
    RangeEdgesMember(c, start, end, e);
    if i :| start <= i < end && e in PcEdges(c, i) {
      StartIs(c, start, i);
      assert Pc(c, StartOf(c, i)) in {Pc(c, start)};
    }
    if i :| 0 <= i < |c| && Pc(c, StartOf(c, i)) in {Pc(c, start)} && e in PcEdges(c, i) {
      PcInjective(c, StartOf(c, i), start);
    }
  }

  /** The second pass: every block marked by the edge pass, in some order. */
  method DetailedPass(c: Code, detailed: set<nat>, nodeId: map<nat, nat>, inclId: map<nat, nat>)
      returns (edges: set<ExEdge>)
    requires WellFormed(c)
    requires nodeId == NodeIds(c, |c|) && inclId == InclIds(c, |c|)
    requires forall pc :: pc in detailed ==> exists k :: 0 <= k < |c| && Pc(c, k) == pc && BlockStart(c, k)
    ensures forall e :: e in edges <==> InDetailedBlock(c, detailed, e)
  {
    edges := {};
    var pending := detailed;
    ghost var done: set<nat> := {};
    while pending != {}
      invariant detailed == done + pending
      invariant forall e :: e in edges <==> InDetailedBlock(c, done, e)
      decreases pending
    {
      var pc :| pc in pending;
      ghost var s0 :| 0 <= s0 < |c| && Pc(c, s0) == pc && BlockStart(c, s0);
      var start :| 0 <= start < |c| && Pc(c, start) == pc;
      PcInjective(c, start, s0);
      var block, end := DetailBlock(c, start, nodeId, inclId);
      forall e ensures InDetailedBlock(c, done + {pc}, e) <==> e in edges + block {
        BlockEdges(c, start, end, e);
        InDetailedUnion(c, done, pc, e);
      }
      pending, done := pending - {pc}, done + {pc};
      edges := edges + block;
    }
    assert done == detailed;
  }

  lemma {:induction false} InDetailedUnion(c: Code, done: set<nat>, pc: nat, e: ExEdge)
    ensures InDetailedBlock(c, done + {pc}, e) <==> InDetailedBlock(c, done, e) || InDetailedBlock(c, {pc}, e)
  {
    if i :| 0 <= i < |c| && Pc(c, StartOf(c, i)) in done + {pc} && e in PcEdges(c, i) {
      assert Pc(c, StartOf(c, i)) in done || Pc(c, StartOf(c, i)) in {pc};
    }
    if i :| 0 <= i < |c| && Pc(c, StartOf(c, i)) in done && e in PcEdges(c, i) {
      assert Pc(c, StartOf(c, i)) in done + {pc};
    }
    if i :| 0 <= i < |c| && Pc(c, StartOf(c, i)) in {pc} && e in PcEdges(c, i) {
      assert Pc(c, StartOf(c, i)) in done + {pc};
    }
  }

  /* ---- The graph is the successor relation ---- */

  lemma {:induction false} RegularMember(c: Code, n: nat, e: FlowEdge)
    requires n <= |c|
    ensures e in Regular(c, n) <==>
            exists j :: 1 <= j < n && BlockStart(c, j) && c[j - 1].Falls() && e == Between(c, j - 1, j)
  {
    if n > 1 {
      RegularMember(c, n - 1, e);
    }
  }

  /** Edge `e` is the jump of `i` to block start `j` by one of its first `t` offsets. */
  ghost predicate IsJump(c: Code, i: nat, t: nat, e: FlowEdge, j: nat)
    requires i < |c| && t <= |c[i].Offsets()|
  {
    && j < |c| && BlockStart(c, j) && e == Between(c, i, j)
    && exists o :: o in c[i].Offsets()[..t] && Target(Pc(c, i), o) == Pc(c, j)
  }

  lemma {:induction false} TakenFromMember(c: Code, i: nat, t: nat, e: FlowEdge)
    requires WellFormed(c) && i < |c| && t <= |c[i].Offsets()|
    ensures e in TakenFrom(c, i, t) <==> exists j :: IsJump(c, i, t, e, j)
  {
    if t > 0 {
      TakenFromMember(c, i, t - 1, e);
      var o := c[i].Offsets()[t - 1];
      assert c[i].Offsets()[..t] == c[i].Offsets()[..t - 1] + [o];
      var pc := Target(Pc(c, i), o);
      if e in TakenFrom(c, i, t) {
        if e in TakenFrom(c, i, t - 1) {
          var j :| IsJump(c, i, t - 1, e, j);
          assert IsJump(c, i, t, e, j);
        } else {
          NodeTablesOnly(c, |c|, pc);
          var j :| 0 <= j < |c| && Pc(c, j) == pc;
          NodeTables(c, |c|, j);
          assert o in c[i].Offsets()[..t];
          assert IsJump(c, i, t, e, j);
        }
      }
      if j :| IsJump(c, i, t, e, j) {
        NodeTables(c, |c|, j);
        if Pc(c, j) != pc {
          assert IsJump(c, i, t - 1, e, j);
        }
      }
    }
  }

  /** Edge `e` is a jump out of instruction `i`. */
  ghost predicate IsJumpFrom(c: Code, i: nat, e: FlowEdge)
    requires i < |c|
  {
    exists j :: 0 <= j < |c| && e == Between(c, i, j) && JumpsTo(c, i, Pc(c, j))
  }

  lemma {:induction false} TakenFromOne(c: Code, i: nat, e: FlowEdge)
    requires WellFormed(c) && i < |c|
    ensures e in TakenFrom(c, i, |c[i].Offsets()|) <==> IsJumpFrom(c, i, e)
  {
    TakenFromMember(c, i, |c[i].Offsets()|, e);
    assert c[i].Offsets()[..|c[i].Offsets()|] == c[i].Offsets();
    forall j | 0 <= j < |c| && e == Between(c, i, j)
      ensures JumpsTo(c, i, Pc(c, j)) <==> IsJump(c, i, |c[i].Offsets()|, e, j)
    {
      assert JumpsTo(c, i, Pc(c, j)) ==> IsTarget(c, Pc(c, j));
    }
  }

  lemma {:induction false} TakenIsJump(c: Code, n: nat, e: FlowEdge) returns (i: nat)
    requires WellFormed(c) && n <= |c| && e in Taken(c, n)
    ensures i < n && IsJumpFrom(c, i, e)
  {
    if e in Taken(c, n - 1) {
      i := TakenIsJump(c, n - 1, e);
    } else {
      i := n - 1;
      TakenFromOne(c, i, e);
    }
  }

  lemma {:induction false} JumpIsTaken(c: Code, n: nat, i: nat, e: FlowEdge)
    requires WellFormed(c) && i < n <= |c| && IsJumpFrom(c, i, e)
    ensures e in Taken(c, n)
  {
    if i < n - 1 {
      JumpIsTaken(c, n - 1, i, e);
    } else {
      TakenFromOne(c, i, e);
    }
  }

  /** Control passes from `i` to `j` in the printed graph: along an edge, or by
      standing next to each other in one block. */
  ghost predicate Connected(c: Code, edges: set<FlowEdge>, i: nat, j: nat)
    requires i < |c| && j < |c|
  {
    Between(c, i, j) in edges || (j == i + 1 && BlockOf(c, i) == BlockOf(c, j))
  }

  /** The graph contains the fall-throughs and the jumps, and nothing else. */
  lemma {:induction false} GraphIsFlow(c: Code, i: nat, j: nat)
    requires WellFormed(c) && i < |c| && j < |c|
    ensures Connected(c, Regular(c, |c|) + Taken(c, |c|), i, j) <==>
            (c[i].Falls() && j == i + 1) || JumpsTo(c, i, Pc(c, j))
  {
    var e := Between(c, i, j);
    RegularMember(c, |c|, e);
    forall x: nat, y: nat | x < |c| && y < |c| && e == Between(c, x, y) ensures x == i && y == j {
      PcInjective(c, x, i);
      PcInjective(c, y, j);
    }
    if JumpsTo(c, i, Pc(c, j)) {
      assert IsJumpFrom(c, i, e);
      JumpIsTaken(c, |c|, i, e);
    } else if e in Taken(c, |c|) {
      var x := TakenIsJump(c, |c|, e);
    }
  }

  /** The graph is the instruction-level successor relation exactly when the
      opcode table's "continues" flag agrees with the pass' fall-through test
      on every instruction that has a next one and does not jump to it. */
  lemma {:induction false} GraphIsSuccessorRelation(c: Code)
    requires WellFormed(c)
    ensures (forall i, j :: 0 <= i < |c| && 0 <= j < |c| ==>
               (Connected(c, Regular(c, |c|) + Taken(c, |c|), i, j) <==> Successor(c, i, j)))
       <==> (forall i :: 0 <= i < |c| - 1 ==> FlagAgrees(c, i))
  {
    var edges := Regular(c, |c|) + Taken(c, |c|);
    forall i, j | 0 <= i < |c| && 0 <= j < |c|
      ensures (Connected(c, edges, i, j) <==> Successor(c, i, j)) <==> (j == i + 1 ==> FlagAgrees(c, i))
    {
      ConnectedAgreesIff(c, i, j);
    }
    if forall i, j :: 0 <= i < |c| && 0 <= j < |c| ==> (Connected(c, edges, i, j) <==> Successor(c, i, j)) {
      forall i | 0 <= i < |c| - 1 ensures FlagAgrees(c, i) {
        assert Connected(c, edges, i, i + 1) <==> Successor(c, i, i + 1);
      }
    }
  }

  /** The flag of instruction `i` agrees with the pass, or does not matter. */
  ghost predicate FlagAgrees(c: Code, i: nat)
    requires i + 1 < |c|
  {
    c[i].canContinue == c[i].Falls() || JumpsTo(c, i, Pc(c, i + 1))
  }

  lemma {:induction false} ConnectedAgreesIff(c: Code, i: nat, j: nat)
    requires WellFormed(c) && i < |c| && j < |c|
    ensures (Connected(c, Regular(c, |c|) + Taken(c, |c|), i, j) <==> Successor(c, i, j)) <==>
            (j == i + 1 ==> FlagAgrees(c, i))
  {
    GraphIsFlow(c, i, j);
  }

  /** An unused opcode has no flags, so it has no successor; the pass lets control
      fall through it. */
  lemma {:induction false} UnusedOpcodeBreaksGraph()
    ensures var unused := Insn(1, false, 0, false, false, [], false, false, false, []);
            var nop := Insn(1, false, 0, false, false, [], false, false, true, []);
            var c := [unused, nop];
            && WellFormed(c) && Connected(c, Regular(c, |c|) + Taken(c, |c|), 0, 1) && !Successor(c, 0, 1)
  {
    var unused := Insn(1, false, 0, false, false, [], false, false, false, []);
    var nop := Insn(1, false, 0, false, false, [], false, false, true, []);
    var c := [unused, nop];
    assert Pc(c, 1) == 1 && Pc(c, 2) == 2;
    GraphIsFlow(c, 0, 1);
  }

  /** Every edge joins two instructions and names the blocks that hold them. */
  lemma {:induction false} EdgesAreBetweenInstructions(c: Code, e: FlowEdge)
    requires WellFormed(c) && e in Regular(c, |c|) + Taken(c, |c|)
    ensures exists i, j :: 0 <= i < |c| && 0 <= j < |c| && e == Between(c, i, j)
  {
    RegularMember(c, |c|, e);
    if e in Taken(c, |c|) {
      var i := TakenIsJump(c, |c|, e);
    }
  }

  /** Node ids and blocks correspond one to one. */
  lemma {:induction false} EachIdIsOneBlock(c: Code, n: nat, id: nat)
    requires n < |c| && id <= BlockOf(c, n)
    ensures exists s :: 0 <= s <= n && BlockStart(c, s) && BlockOf(c, s) == id
    ensures forall s, s' :: 0 <= s < s' < |c| && BlockStart(c, s) && BlockStart(c, s') ==>
              BlockOf(c, s) != BlockOf(c, s')
  {
    if n > 0 && id <= BlockOf(c, n - 1) {
      EachIdIsOneBlock(c, n - 1, id);
    } else {
      assert BlockStart(c, n) && BlockOf(c, n) == id;
    }
    forall s, s' | 0 <= s < s' < |c| && BlockStart(c, s) && BlockStart(c, s')
      ensures BlockOf(c, s) != BlockOf(c, s')
    {
      BlocksAreOrdered(c, s, s');
    }
  }

  /* ---- Exception edges ---- */

  /** Some instruction of block `node` has handler `h`, and `h` is an instruction start. */
  ghost predicate BlockRaises(c: Code, node: nat, h: nat) {
    h in InclIds(c, |c|) && exists i :: 0 <= i < |c| && BlockOf(c, i) == node && h in c[i].handlers
  }

  /** The edge names the block that holds its handler; from a pc, it is one of the
      edges of the instruction there. */
  ghost predicate RightEnds(c: Code, e: ExEdge) {
    && e.toPc in InclIds(c, |c|) && e.toNode == InclIds(c, |c|)[e.toPc]
    && (e.fromPc.Some? ==> IsPcEdge(c, e))
  }

  ghost predicate IsPcEdge(c: Code, e: ExEdge) {
    exists i :: 0 <= i < |c| && e in PcEdges(c, i)
  }

  /** The handlers that are common to the block up to `k`, as the pass sees it:
      it starts over when an instruction lacks one of them. */
  ghost function Kept(c: Code, k: nat): set<nat>
    requires k < |c|
  {
    if BlockStart(c, k) || Kept(c, k - 1) <= HandlerSet(c[k]) then HandlerSet(c[k]) else {}
  }

  /** The pass marks the block of `k` because of `k`. */
  ghost predicate Cuts(c: Code, k: nat)
    requires k < |c|
  {
    !BlockStart(c, k) && !(Kept(c, k - 1) <= HandlerSet(c[k]))
  }

  /** Instruction `k` lacks a handler of the one before it in its block. */
  ghost predicate Drops(c: Code, k: nat)
    requires k < |c|
  {
    !BlockStart(c, k) && !(HandlerSet(c[k - 1]) <= HandlerSet(c[k]))
  }

  ghost predicate HasDrop(c: Code, start: nat) {
    exists k :: 0 <= k < |c| && Drops(c, k) && StartOf(c, k) == start
  }

  ghost predicate IsLast(c: Code, i: nat)
    requires i < |c|
  {
    i + 1 == |c| || BlockStart(c, i + 1)
  }

  lemma {:induction false} TargetsAreKept(c: Code, n: nat)
    requires 0 < n <= |c|
    ensures Exceptions(c, n).targets == Kept(c, n - 1)
  {
    if n > 1 {
      TargetsAreKept(c, n - 1);
    } else {
      assert Exceptions(c, 0) == ExState({}, {}, {});
    }
  }

  lemma {:induction false} ExceptionStep(c: Code, n: nat)
    requires 0 < n <= |c|
    ensures var st, st' := Exceptions(c, n - 1), Exceptions(c, n);
            && st'.detailed == st.detailed + (if Cuts(c, n - 1) then {Pc(c, StartOf(c, n - 1))} else {})
            && st'.edges == st.edges + if n > 1 && BlockStart(c, n - 1)
                                       then CommonEdges(c, BlockOf(c, n - 2), Kept(c, n - 2)) else {}
  {
    if n > 1 {
      TargetsAreKept(c, n - 1);
    }
  }

  lemma {:induction false} MarkedIs(c: Code, n: nat, pc: nat)
    requires n <= |c|
    ensures pc in Exceptions(c, n).detailed <==> exists k :: 0 <= k < n && Cuts(c, k) && Pc(c, StartOf(c, k)) == pc
  {
    if n > 0 {
      MarkedIs(c, n - 1, pc);
      ExceptionStep(c, n);
    }
  }

  /** A block is left to the detailed pass exactly if one of its instructions
      lacks a handler of the one before it. */
  lemma {:induction false} MarkedIff(c: Code, start: nat)
    requires WellFormed(c) && start < |c|
    ensures Pc(c, start) in Exceptions(c, |c|).detailed <==> HasDrop(c, start)
  {
    MarkedIs(c, |c|, Pc(c, start));
    if k :| 0 <= k < |c| && Cuts(c, k) && Pc(c, StartOf(c, k)) == Pc(c, start) {
      PcInjective(c, StartOf(c, k), start);
      assert Drops(c, k);
    }
    if k :| 0 <= k < |c| && Drops(c, k) && StartOf(c, k) == start {
      assert Cuts(c, k) || Cuts(c, k - 1);
    }
  }

  ghost predicate IsCommonEdge(c: Code, i: nat, e: ExEdge)
    requires i < |c|
  {
    e in CommonEdges(c, BlockOf(c, i), Kept(c, i))
  }

  lemma {:induction false} CommonIs(c: Code, n: nat, e: ExEdge)
    requires n <= |c|
    ensures e in Exceptions(c, n).edges <==>
            exists i :: 0 <= i < n - 1 && BlockStart(c, i + 1) && IsCommonEdge(c, i, e)
  {
    if n > 0 {
      CommonIs(c, n - 1, e);
      ExceptionStep(c, n);
      assert n > 1 ==> (IsCommonEdge(c, n - 2, e) <==> e in CommonEdges(c, BlockOf(c, n - 2), Kept(c, n - 2)));
    }
  }

  /** The edges of whole nodes: what the last instruction of the block has kept. */
  lemma {:induction false} CommonIff(c: Code, e: ExEdge)
    requires |c| > 0
    ensures e in Exceptions(c, |c|).edges + CommonEdges(c, BlockOf(c, |c| - 1), Exceptions(c, |c|).targets) <==>
            exists i :: 0 <= i < |c| && IsLast(c, i) && IsCommonEdge(c, i, e)
  {
    CommonIs(c, |c|, e);
    TargetsAreKept(c, |c|);
    assert IsLast(c, |c| - 1);
    if i :| 0 <= i < |c| - 1 && BlockStart(c, i + 1) && IsCommonEdge(c, i, e) {
      assert IsLast(c, i);
    }
  }

  /** Without a drop, the common handlers are all those of the block so far. */
  lemma {:induction false} KeptGrows(c: Code, i: nat, j: nat)
    requires i <= j < |c| && StartOf(c, j) <= i && !HasDrop(c, StartOf(c, j))
    ensures HandlerSet(c[i]) <= Kept(c, j) == HandlerSet(c[j])
    decreases j
  {
    if StartOf(c, j) < j {
      assert !Drops(c, j);
      KeptGrows(c, if i < j then i else j - 1, j - 1);
    }
  }

  lemma {:induction false} LastOf(c: Code, i: nat) returns (j: nat)
    requires i < |c|
    ensures i <= j < |c| && IsLast(c, j) && BlockOf(c, j) == BlockOf(c, i) && StartOf(c, j) == StartOf(c, i)
    decreases |c| - i
  {
    if IsLast(c, i) {
      j := i;
    } else {
      j := LastOf(c, i + 1);
    }
  }

  /** Read at block level, both passes together yield exactly the pairs of a
      block and a handler that some instruction of the block has, and every edge
      leads into the block of its handler. */
  lemma {:induction false} ExceptionEdgesExact(c: Code, common: set<ExEdge>, detail: set<ExEdge>, node: nat, h: nat)
    requires WellFormed(c) && |c| > 0
    requires common == Exceptions(c, |c|).edges +
                       CommonEdges(c, BlockOf(c, |c| - 1), Exceptions(c, |c|).targets)
    requires forall e :: e in detail <==> InDetailedBlock(c, Exceptions(c, |c|).detailed, e)
    ensures (exists e :: e in common + detail && e.fromNode == node && e.toPc == h) <==> BlockRaises(c, node, h)
    ensures forall e :: e in common + detail ==> RightEnds(c, e)
  {
    forall e | e in common + detail ensures RightEnds(c, e) && BlockRaises(c, e.fromNode, e.toPc) {
      if e in common {
        CommonIff(c, e);
      } else {
        var i :| 0 <= i < |c| && Pc(c, StartOf(c, i)) in Exceptions(c, |c|).detailed && e in PcEdges(c, i);
      }
    }
    if BlockRaises(c, node, h) {
      var e := RaisedEdge(c, common, detail, node, h);
    }
  }

  lemma {:induction false} RaisedEdge(c: Code, common: set<ExEdge>, detail: set<ExEdge>, node: nat, h: nat)
      returns (e: ExEdge)
    requires WellFormed(c) && |c| > 0 && BlockRaises(c, node, h)
    requires common == Exceptions(c, |c|).edges +
                       CommonEdges(c, BlockOf(c, |c| - 1), Exceptions(c, |c|).targets)
    requires forall e :: e in detail <==> InDetailedBlock(c, Exceptions(c, |c|).detailed, e)
    ensures e in common + detail && e.fromNode == node && e.toPc == h
  {
    var i :| 0 <= i < |c| && BlockOf(c, i) == node && h in c[i].handlers;
    MarkedIff(c, StartOf(c, i));
    if HasDrop(c, StartOf(c, i)) {
      e := ExEdge(node, Some(Pc(c, i)), InclIds(c, |c|)[h], h);
      assert e in PcEdges(c, i);
      assert InDetailedBlock(c, Exceptions(c, |c|).detailed, e);
    } else {
      var j := LastOf(c, i);
      KeptGrows(c, i, j);
      e := ExEdge(node, None, InclIds(c, |c|)[h], h);
      assert h in HandlerSet(c[i]) && IsCommonEdge(c, j, e);
      CommonIff(c, e);
    }
  }
}
