/** The finished block graph of one function against the instruction graph it
    was built from. */
module FlowGraphs {
  import opened CodeImage
  import opened OrderedSets
  import opened BasicBlocks
  import opened FunctionBuilding
  import opened FunctionProperties

  ghost predicate GoodBlock(img: Image, leaders: set<nat>, blocks: map<nat, BasicBlock>, k: nat)
    requires k in blocks
  {
    && blocks[k].addr == k && Final(img, leaders, blocks[k])
    && NonZero(blocks[k].jump) <= leaders && NonZero(blocks[k].fail) <= leaders
  }

  /** Blocks keyed by address, one for every leader, none with a leader inside. */
  ghost predicate IsFlowGraph(img: Image, leaders: set<nat>, blocks: map<nat, BasicBlock>) {
    && blocks.Keys == leaders && 0 !in leaders
    && forall k {:trigger GoodBlock(img, leaders, blocks, k)} :: k in blocks ==>
         GoodBlock(img, leaders, blocks, k)
  }

  lemma TruncationKeepsEdges(img: Image, leaders: set<nat>, b: BasicBlock)
    requires Traced(img, leaders, b)
    requires NonZero(b.jump) <= leaders && NonZero(b.fail) <= leaders
    ensures var t := Truncated(leaders, b);
            && Final(img, leaders, t) && t.addr == b.addr && t.instrs <= b.instrs
            && NonZero(t.jump) <= leaders && NonZero(t.fail) <= leaders
  {
    TruncatedIsFinal(img, leaders, b);
  }

  lemma FinalBlocksFormFlowGraph(img: Image, entry: nat)
    requires entry != 0
    ensures var s := Built(img, entry); IsFlowGraph(img, s.leaders, FinalBlocks(s))
    ensures entry in FinalBlocks(Built(img, entry))
  {
    BuiltInv(img, entry);
    var s := Built(img, entry);
    forall k | k in s.blocks
      ensures GoodBlock(img, s.leaders, FinalBlocks(s), k)
    {
      assert TracedAt(img, s.leaders, s.blocks, k);
      TruncationKeepsEdges(img, s.leaders, s.blocks[k]);
    }
  }

  // ---------- block flow and instruction flow ----------

  /** The decodable addresses control may go to after `a`. */
  ghost predicate Flows(img: Image, a: nat, b: nat) {
    a in img && b in img && b in Successors(img, a)
  }

  /** Inside a block there is one way on: the next instruction listed. */
  lemma FlowInsideBlock(img: Image, leaders: set<nat>, blocks: map<nat, BasicBlock>, k: nat, i: nat)
    requires IsFlowGraph(img, leaders, blocks) && k in blocks && i + 1 < |blocks[k].instrs|
    ensures forall b :: Flows(img, blocks[k].instrs[i], b) <==> b == blocks[k].instrs[i + 1]
  {
    var r := blocks[k].instrs;
    assert GoodBlock(img, leaders, blocks, k);
    assert Linked(img, r, i);
    assert Successors(img, r[i]) == {r[i + 1]};
  }

  /** A non-empty block named by an edge of the block at `k`. */
  ghost predicate BlockEdge(blocks: map<nat, BasicBlock>, k: nat, b: nat) {
    && k in blocks && b in blocks && blocks[b].instrs != []
    && (b == blocks[k].jump || b == blocks[k].fail)
  }

  /** Out of a block control goes exactly where its two edges say. */
  lemma FlowOutOfBlock(img: Image, leaders: set<nat>, blocks: map<nat, BasicBlock>, k: nat, b: nat)
    requires IsFlowGraph(img, leaders, blocks) && k in blocks && blocks[k].instrs != []
    ensures Flows(img, blocks[k].instrs[|blocks[k].instrs| - 1], b) <==> BlockEdge(blocks, k, b)
  {
    var bb := blocks[k];
    var last := bb.instrs[|bb.instrs| - 1];
    assert GoodBlock(img, leaders, blocks, k);
    if b in blocks { assert GoodBlock(img, leaders, blocks, b); }
    if Flows(img, last, b) {
      assert b == bb.jump || b == Next(img, last);
      assert b != 0;
      assert b == bb.jump || b == bb.fail;
      assert b in leaders;
      assert BlockEdge(blocks, k, b);
    }
    if BlockEdge(blocks, k, b) {
      assert b in img && b != 0;
    }
  }

  /** Every listed instruction has its decodable successors listed. */
  lemma CodeIsClosed(img: Image, entry: nat, leaders: set<nat>, blocks: map<nat, BasicBlock>)
    requires IsFlowGraph(img, leaders, blocks) && entry in blocks
    ensures ClosedUnderFlow(img, entry, Code(blocks))
  {
    assert GoodBlock(img, leaders, blocks, entry);
    assert entry in img ==> entry == blocks[entry].instrs[0] && entry in blocks[entry].instrs;
    forall a, b | a in Code(blocks) && Flows(img, a, b)
      ensures b in Code(blocks)
    {
      var k :| k in blocks && a in blocks[k].instrs;
      var r := blocks[k].instrs;
      var i :| 0 <= i < |r| && r[i] == a;
      if i + 1 < |r| {
        FlowInsideBlock(img, leaders, blocks, k, i);
        assert b in r;
      } else {
        FlowOutOfBlock(img, leaders, blocks, k, b);
        assert GoodBlock(img, leaders, blocks, b);
        assert b == blocks[b].instrs[0] && b in blocks[b].instrs;
      }
    }
  }

  lemma CodeIsReachable(img: Image, entry: nat, leaders: set<nat>, blocks: map<nat, BasicBlock>, a: nat)
    requires forall k :: k in blocks ==> blocks[k].addr == k && Traced(img, leaders, blocks[k])
    requires forall k :: k in blocks ==> Reaches(img, entry, k)
    requires a in Code(blocks)
    ensures a in img && Reaches(img, entry, a)
  {
    var k :| k in blocks && a in blocks[k].instrs;
    var i :| 0 <= i < |blocks[k].instrs| && blocks[k].instrs[i] == a;
    ChainIsReachable(img, entry, k, blocks[k].instrs, i);
  }

  lemma ReachableIsCode(img: Image, entry: nat, leaders: set<nat>, blocks: map<nat, BasicBlock>, a: nat)
    requires IsFlowGraph(img, leaders, blocks) && entry in blocks
    requires a in img && Reaches(img, entry, a)
    ensures a in Code(blocks)
  {
    CodeIsClosed(img, entry, leaders, blocks);
    var p :| IsWalk(img, p) && p[0] == entry && p[|p| - 1] == a;
    WalkStaysInside(img, entry, Code(blocks), p);
  }

  /** Splitting changes which block lists an instruction, not which are listed. */
  lemma SplittingKeepsCode(img: Image, entry: nat)
    requires entry != 0
    ensures var s := Built(img, entry); Code(s.blocks) == Code(FinalBlocks(s))
    ensures forall a :: a in Code(FinalBlocks(Built(img, entry))) <==> a in img && Reaches(img, entry, a)
  {
    BuiltInv(img, entry);
    FinalBlocksFormFlowGraph(img, entry);
    var s := Built(img, entry);
    var f := FinalBlocks(s);
    forall k | k in s.blocks
      ensures Reaches(img, entry, k)
      ensures f[k].addr == k && Traced(img, s.leaders, f[k])
      ensures s.blocks[k].addr == k && Traced(img, s.leaders, s.blocks[k])
    {
      assert TracedAt(img, s.leaders, s.blocks, k);
      LeadersAreReachable(img, entry, k);
      assert GoodBlock(img, s.leaders, f, k);
    }
    forall a | a in Code(f)
      ensures a in img && Reaches(img, entry, a)
    {
      CodeIsReachable(img, entry, s.leaders, f, a);
    }
    forall a | a in Code(s.blocks)
      ensures a in img && Reaches(img, entry, a)
    {
      CodeIsReachable(img, entry, s.leaders, s.blocks, a);
    }
    forall a | a in img && Reaches(img, entry, a)
      ensures a in Code(f) && a in Code(s.blocks)
    {
      ReachableIsCode(img, entry, s.leaders, f, a);
      var k :| k in f && a in f[k].instrs;
      assert TracedAt(img, s.leaders, s.blocks, k);
      TruncationKeepsEdges(img, s.leaders, s.blocks[k]);
      assert a in s.blocks[k].instrs;
    }
  }

  /** The listed instructions are the least set with the entry and closed under
      decodable successors: nothing missed, nothing added. */
  lemma CodeIsLeastClosed(img: Image, entry: nat)
    requires entry != 0
    ensures IsLeastClosed(img, entry, Code(FinalBlocks(Built(img, entry))))
  {
    SplittingKeepsCode(img, entry);
    ReachableIsLeast(img, entry, Code(FinalBlocks(Built(img, entry))));
  }

  lemma LeadersStartBlocks(img: Image, leaders: set<nat>, blocks: map<nat, BasicBlock>, a: nat, l: nat)
    requires IsFlowGraph(img, leaders, blocks)
    requires a in Code(blocks) && a in img && MakesLeader(img, a, l)
    ensures l in blocks
  {
    var k :| k in blocks && a in blocks[k].instrs;
    assert GoodBlock(img, leaders, blocks, k);
    var r := blocks[k].instrs;
    var i :| 0 <= i < |r| && r[i] == a;
    assert i + 1 < |r| ==> Linked(img, r, i);
    assert l in NonZero(blocks[k].jump) + NonZero(blocks[k].fail);
  }

  /** Block starts are a property of the program, not of the order of discovery. */
  lemma LeadersAreExact(img: Image, entry: nat)
    requires entry != 0
    ensures forall l :: l in FinalBlocks(Built(img, entry)) <==> IsLeader(img, entry, l)
  {
    BuiltInv(img, entry);
    FinalBlocksFormFlowGraph(img, entry);
    SplittingKeepsCode(img, entry);
    var s := Built(img, entry);
    forall l | IsLeader(img, entry, l) && l != entry
      ensures l in FinalBlocks(s)
    {
      var a :| a in img && Reaches(img, entry, a) && MakesLeader(img, a, l);
      LeadersStartBlocks(img, s.leaders, FinalBlocks(s), a, l);
    }
  }

  /** Two phases, one result: each final block is the single trace from its address
      under the finished leader set, but for a fall-through into undecodable bytes. */
  lemma TwoPhaseRefinesOnePass(img: Image, entry: nat, k: nat)
    requires entry != 0
    requires k in FinalBlocks(Built(img, entry))
    ensures var s := Built(img, entry);
            SameUpToDeadFall(img, FinalBlocks(s)[k], BlockAt(img, s.leaders, k))
  {
    FinalBlocksFormFlowGraph(img, entry);
    var s := Built(img, entry);
    assert GoodBlock(img, s.leaders, FinalBlocks(s), k);
    FinalBlockIsOnePass(img, s.leaders, FinalBlocks(s)[k]);
  }

  /** The instructions of `b` run off the decodable code at the address that follows. */
  ghost predicate RunsOffCode(img: Image, b: BasicBlock) {
    b.instrs != [] &&
      var last := b.instrs[|b.instrs| - 1];
      last in img && !EndsRun(img[last].flow) && Next(img, last) !in img
  }

  /** The fall-through on record in a block that needed no cut is the one its trace saw. */
  lemma FallOfFinalBlock(img: Image, early: set<nat>, leaders: set<nat>, k: nat)
    requires early <= leaders
    ensures var b := Truncated(leaders, BlockAt(img, early, k));
            RunsOffCode(img, b) ==> b.fail == if k + b.size in early then k + b.size else 0
  {
    RunIsChain(img, early, k);
    var t := BlockAt(img, early, k);
    if CutPoint(leaders, t) < |t.instrs| {
      assert Linked(img, t.instrs, CutPoint(leaders, t) - 1);
    }
  }

  lemma FallOfOnePass(img: Image, leaders: set<nat>, k: nat)
    ensures var b := BlockAt(img, leaders, k);
            RunsOffCode(img, b) ==> b.fail == if k + b.size in leaders then k + b.size else 0
  {
    RunIsChain(img, leaders, k);
  }

  lemma FallDecides(img: Image, early: set<nat>, leaders: set<nat>, k: nat)
    requires early <= leaders && 0 !in leaders
    ensures var b := Truncated(leaders, BlockAt(img, early, k));
            b == BlockAt(img, leaders, k) <==>
              (RunsOffCode(img, b) && k + b.size in leaders ==> k + b.size in early)
  {
    var t := BlockAt(img, early, k);
    var b, onePass := Truncated(leaders, t), BlockAt(img, leaders, k);
    BlockAtIsTraced(img, early, k);
    TracedWithMoreLeaders(img, early, leaders, t);
    TruncatedIsFinal(img, leaders, t);
    FinalBlockIsOnePass(img, leaders, b);
    FallOfFinalBlock(img, early, leaders, k);
    FallOfOnePass(img, leaders, k);
  }

  lemma BuiltLeaders(img: Image, entry: nat)
    requires entry != 0
    ensures var s := Built(img, entry);
            0 !in s.leaders && s.blocks.Keys == s.leaders && forall l :: l in s.leaders ==> IsLeader(img, entry, l)
  {
    BuiltInv(img, entry);
  }

  lemma LeaderIsKnown(img: Image, entry: nat, a: nat, l: nat)
    requires entry != 0 && a in img && Reaches(img, entry, a) && MakesLeader(img, a, l)
    ensures l in Built(img, entry).leaders
  {
    LeadersAreExact(img, entry);
    BuiltLeaders(img, entry);
    assert IsLeader(img, entry, l);
  }

  lemma {:induction false} LeadersGrow(img: Image, s: Build)
    ensures s.leaders <= BuildLoop(img, s).leaders
    decreases |Mentioned(img) - s.queued|, |s.work|
  {
    if s.work != [] {
      StepShrinks(img, s);
      LeadersGrow(img, Step(img, s));
    }
  }

  lemma LeadersOnlyGrow(img: Image, s: Build, k: nat)
    ensures LeadersWhenTraced(img, s, k) <= BuildLoop(img, s).leaders
    decreases |Mentioned(img) - s.queued|, |s.work|
  {
    LeadersGrow(img, s);
    if s.work != [] && !(s.work[0] == k && k !in s.blocks) {
      StepShrinks(img, s);
      LeadersOnlyGrow(img, Step(img, s), k);
    }
  }

  lemma FinalBlockOfItsTime(img: Image, entry: nat, k: nat)
    requires entry != 0 && k in FinalBlocks(Built(img, entry))
    ensures var s := Built(img, entry);
            var early := LeadersWhenTraced(img, Start(entry), k);
            && FinalBlocks(s)[k] == Truncated(s.leaders, BlockAt(img, early, k))
            && early <= s.leaders && 0 !in s.leaders
  {
    BlockIsTraceOfItsTime(img, Start(entry), k);
    LeadersOnlyGrow(img, Start(entry), k);
    BuiltLeaders(img, entry);
  }

  /** The two agree in every field exactly if a fall-through into bytes that do not decode,
      but lead a block in the end, led one already when the run was traced. */
  lemma OnePassIffFallWasKnown(img: Image, entry: nat, k: nat)
    requires entry != 0 && k in FinalBlocks(Built(img, entry))
    ensures var s := Built(img, entry);
            var b := FinalBlocks(s)[k];
            b == BlockAt(img, s.leaders, k) <==>
              (RunsOffCode(img, b) && k + b.size in s.leaders ==>
                 k + b.size in LeadersWhenTraced(img, Start(entry), k))
  {
    FinalBlockOfItsTime(img, entry, k);
    FallDecides(img, LeadersWhenTraced(img, Start(entry), k), Built(img, entry).leaders, k);
  }

  /** No reachable instruction falls through into bytes that do not decode but lead a block. */
  ghost predicate NoDeadLeaderBelow(img: Image, entry: nat) {
    forall a :: a in img && Reaches(img, entry, a) && !EndsRun(img[a].flow) && Next(img, a) !in img ==>
      !IsLeader(img, entry, Next(img, a))
  }

  lemma ListedIsCode(blocks: map<nat, BasicBlock>, k: nat, i: nat)
    requires k in blocks && i < |blocks[k].instrs|
    ensures blocks[k].instrs[i] in Code(blocks)
  {
    var a := blocks[k].instrs[i];
    assert k in blocks && a in blocks[k].instrs;
  }

  lemma BlockEndsBelow(img: Image, leaders: set<nat>, blocks: map<nat, BasicBlock>, k: nat)
    requires IsFlowGraph(img, leaders, blocks) && k in blocks && blocks[k].instrs != []
    ensures var last := blocks[k].instrs[|blocks[k].instrs| - 1];
            last in img && k + blocks[k].size == Next(img, last)
  {
    assert GoodBlock(img, leaders, blocks, k);
  }

  lemma LastOfBlockIsCode(img: Image, entry: nat, k: nat)
    requires entry != 0 && k in FinalBlocks(Built(img, entry)) && FinalBlocks(Built(img, entry))[k].instrs != []
    ensures var b := FinalBlocks(Built(img, entry))[k];
            var last := b.instrs[|b.instrs| - 1];
            last in img && Reaches(img, entry, last) && k + b.size == Next(img, last)
  {
    var b := FinalBlocks(Built(img, entry))[k];
    FinalBlocksFormFlowGraph(img, entry);
    BlockEndsBelow(img, Built(img, entry).leaders, FinalBlocks(Built(img, entry)), k);
    SplittingKeepsCode(img, entry);
    ListedIsCode(FinalBlocks(Built(img, entry)), k, |b.instrs| - 1);
  }

  /** Then two phases give exactly what one pass gives. */
  lemma TwoPhasesAreOnePass(img: Image, entry: nat, k: nat)
    requires entry != 0 && k in FinalBlocks(Built(img, entry)) && NoDeadLeaderBelow(img, entry)
    ensures FinalBlocks(Built(img, entry))[k] == BlockAt(img, Built(img, entry).leaders, k)
  {
    OnePassIffFallWasKnown(img, entry, k);
    if RunsOffCode(img, FinalBlocks(Built(img, entry))[k]) {
      LastOfBlockIsCode(img, entry, k);
      BuiltLeaders(img, entry);
    }
  }

  function LateLeader(): Image {
    map[16 := Insn(1, Sequential, 0), 32 := Insn(2, CondJump, 16), 34 := Insn(2, Jump, 17)]
  }

  lemma LateLeaderLeads()
    ensures var s := Built(LateLeader(), 32);
            16 in s.leaders && 17 in s.leaders && s.leaders == s.blocks.Keys
  {
    var img := LateLeader();
    ReachesSelf(img, 32);
    ReachesStep(img, 32, 32, 34);
    LeaderIsKnown(img, 32, 32, 16);
    LeaderIsKnown(img, 32, 34, 17);
    BuiltLeaders(img, 32);
  }

  lemma LateLeaderIsLate()
    ensures LeadersWhenTraced(LateLeader(), Start(32), 16) == {32, 16, 34}
  {
    var img := LateLeader();
    var t := Step(img, Start(32));
    assert Run(img, {32}, 32) == [32];
    assert t.work == [16, 34] && t.leaders == {32, 16, 34} && 16 !in t.blocks;
    assert LeadersWhenTraced(img, t, 16) == t.leaders;
  }

  lemma RunIntoLateLeader(leaders: set<nat>)
    ensures var img := LateLeader();
            BlockAt(img, leaders, 16) == BasicBlock(16, 1, 0, if 17 in leaders then 17 else 0, [16])
  {
    assert Run(LateLeader(), leaders, 17) == [];
    assert Run(LateLeader(), leaders, 16) == [16];
  }

  lemma SingleIsUncut(leaders: set<nat>, b: BasicBlock)
    requires |b.instrs| == 1
    ensures Truncated(leaders, b) == b
  {
  }

  /** An image where the order of discovery shows: address 17, where nothing decodes, comes
      to lead a block only after the block at 16 that runs into it has been traced. */
  lemma DeadFallIsLost()
    ensures var s := Built(LateLeader(), 32);
            && 16 in FinalBlocks(s) && FinalBlocks(s)[16].fail == 0
            && BlockAt(LateLeader(), s.leaders, 16).fail == 17
  {
    LateLeaderLeads();
    LateLeaderIsLate();
    FinalBlockOfItsTime(LateLeader(), 32, 16);
    RunIntoLateLeader({32, 16, 34});
    SingleIsUncut(Built(LateLeader(), 32).leaders, BlockAt(LateLeader(), {32, 16, 34}, 16));
    RunIntoLateLeader(Built(LateLeader(), 32).leaders);
  }

  /** What is reported for an entry: one block for each address that starts one, in
      increasing order, each the one-pass block but for dead fall-throughs. */
  lemma ReportedBlocks(img: Image, entry: nat)
    requires entry != 0
    ensures var bs := FunctionAt(img, entry).blocks;
            var leaders := Built(img, entry).leaders;
            && (forall i, j :: 0 <= i < j < |bs| ==> bs[i].addr < bs[j].addr)
            && (forall i :: 0 <= i < |bs| ==>
                  IsLeader(img, entry, bs[i].addr) && SameUpToDeadFall(img, bs[i], BlockAt(img, leaders, bs[i].addr)))
            && (forall l :: IsLeader(img, entry, l) ==> exists i :: 0 <= i < |bs| && bs[i].addr == l)
  {
    var s := Built(img, entry);
    var keys := Elements(FinalBlocks(s).Keys);
    var bs := FunctionAt(img, entry).blocks;
    LeadersAreExact(img, entry);
    FinalBlocksFormFlowGraph(img, entry);
    forall i | 0 <= i < |keys|
      ensures bs[i].addr == keys[i] && SameUpToDeadFall(img, bs[i], BlockAt(img, s.leaders, keys[i]))
      ensures IsLeader(img, entry, keys[i])
    {
      assert keys[i] in keys;
      assert GoodBlock(img, s.leaders, FinalBlocks(s), keys[i]);
      TwoPhaseRefinesOnePass(img, entry, keys[i]);
    }
    forall l | IsLeader(img, entry, l)
      ensures exists i :: 0 <= i < |bs| && bs[i].addr == l
    {
      assert l in keys;
      var i :| 0 <= i < |keys| && keys[i] == l;
      assert bs[i].addr == l;
    }
  }

  /** Instruction `i` follows a non-transfer right behind it in memory. */
  ghost predicate RunsOnInto(img: Image, r: seq<nat>, i: int)
    requires 1 <= i < |r| && r[i - 1] in img
  {
    var before := img[r[i - 1]];
    (before.flow.Sequential? || before.flow.Call?) && r[i] == r[i - 1] + before.length
  }

  /** A block spelled out on the decoded instructions it lists: consecutive, none but the
      last a transfer or a leader's predecessor, with the size and the edges they give it. */
  ghost predicate AsDecoded(img: Image, leaders: set<nat>, b: BasicBlock) {
    var r := b.instrs;
    && (r == [] <==> b.addr !in img)
    && (r != [] ==> r[0] == b.addr)
    && (forall i :: 0 <= i < |r| ==> r[i] in img)
    && (forall i :: 1 <= i < |r| ==> RunsOnInto(img, r, i) && r[i] !in leaders)
    && if r == [] then b.size == 0 && b.jump == 0 && b.fail == 0 else
         var last := img[r[|r| - 1]];
         var end := r[|r| - 1] + last.length;
         && b.size == end - b.addr
         && match last.flow
            case Jump => b.jump == last.target && b.fail == 0
            case CondJump => b.jump == last.target && b.fail == end
            case Return => b.jump == 0 && b.fail == 0
            case _ =>
              && b.jump == 0
              && if end in img then end in leaders && b.fail == end
                 else b.fail == 0 || (end in leaders && b.fail == end)
  }

  lemma FinalIsAsDecoded(img: Image, leaders: set<nat>, b: BasicBlock)
    requires Final(img, leaders, b)
    ensures AsDecoded(img, leaders, b)
  {
    var r := b.instrs;
    forall i | 1 <= i < |r|
      ensures RunsOnInto(img, r, i)
    {
      assert Linked(img, r, i - 1);
    }
  }

  /** Every reported block is as decoded. */
  lemma ReportedBlockIsAsDecoded(img: Image, entry: nat, n: nat)
    requires entry != 0 && n < |FunctionAt(img, entry).blocks|
    ensures AsDecoded(img, Built(img, entry).leaders, FunctionAt(img, entry).blocks[n])
  {
    var s := Built(img, entry);
    var k := Elements(FinalBlocks(s).Keys)[n];
    assert k in Elements(FinalBlocks(s).Keys);
    FinalBlocksFormFlowGraph(img, entry);
    assert GoodBlock(img, s.leaders, FinalBlocks(s), k);
    FinalIsAsDecoded(img, s.leaders, FinalBlocks(s)[k]);
  }

  /** Callees and references are those of the instructions the final blocks list. */
  lemma ReferencesAreExact(img: Image, entry: nat)
    requires entry != 0
    ensures var s := Built(img, entry);
            && (forall c :: c in FunctionAt(img, entry).callees <==> CallsFrom(img, Code(FinalBlocks(s)), c))
            && (forall x :: x in s.xrefs <==> RefersFrom(img, Code(FinalBlocks(s)), x))
    ensures Ascending(FunctionAt(img, entry).callees)
  {
    BuiltInv(img, entry);
    SplittingKeepsCode(img, entry);
  }

  // ---------- paths ----------

  ghost predicate FlowsAt(img: Image, p: seq<nat>, i: nat)
    requires i + 1 < |p|
  {
    Flows(img, p[i], p[i + 1])
  }

  /** A walk that only visits instructions that decode. */
  ghost predicate IsCodePath(img: Image, p: seq<nat>) {
    && (forall i :: 0 <= i < |p| ==> p[i] in img)
    && forall i :: 0 <= i < |p| - 1 ==> FlowsAt(img, p, i)
  }

  ghost predicate EdgeAt(blocks: map<nat, BasicBlock>, q: seq<nat>, i: nat)
    requires i + 1 < |q|
  {
    BlockEdge(blocks, q[i], q[i + 1])
  }

  ghost predicate IsBlockPath(blocks: map<nat, BasicBlock>, q: seq<nat>) {
    && (forall i :: 0 <= i < |q| ==> q[i] in blocks && blocks[q[i]].instrs != [])
    && forall i :: 0 <= i < |q| - 1 ==> EdgeAt(blocks, q, i)
  }

  /** The instructions of the blocks of a path, in order. */
  ghost function Listing(blocks: map<nat, BasicBlock>, q: seq<nat>): seq<nat>
    requires forall i :: 0 <= i < |q| ==> q[i] in blocks
  {
    if q == [] then [] else blocks[q[0]].instrs + Listing(blocks, q[1..])
  }

  lemma TailOfBlockPath(blocks: map<nat, BasicBlock>, q: seq<nat>)
    requires IsBlockPath(blocks, q) && q != []
    ensures IsBlockPath(blocks, q[1..])
  {
    var t := q[1..];
    forall i | 0 <= i < |t| - 1
      ensures EdgeAt(blocks, t, i)
    {
      assert EdgeAt(blocks, q, i + 1);
    }
  }

  lemma JoinPaths(img: Image, p: seq<nat>, q: seq<nat>)
    requires IsCodePath(img, p) && IsCodePath(img, q)
    requires p != [] && q != [] ==> Flows(img, p[|p| - 1], q[0])
    ensures IsCodePath(img, p + q)
  {
    var r := p + q;
    forall i | 0 <= i < |r| - 1
      ensures FlowsAt(img, r, i)
    {
      if i + 1 < |p| {
        assert FlowsAt(img, p, i);
      } else if i >= |p| {
        assert FlowsAt(img, q, i - |p|);
      }
    }
  }

  lemma BlockIsCodePath(img: Image, leaders: set<nat>, blocks: map<nat, BasicBlock>, k: nat)
    requires IsFlowGraph(img, leaders, blocks) && k in blocks
    ensures IsCodePath(img, blocks[k].instrs)
  {
    var r := blocks[k].instrs;
    assert GoodBlock(img, leaders, blocks, k);
    forall i | 0 <= i < |r| - 1
      ensures FlowsAt(img, r, i)
    {
      FlowInsideBlock(img, leaders, blocks, k, i);
    }
  }

  /** Every path of blocks spells out a path of instructions. */
  lemma {:induction false} BlockPathRuns(img: Image, leaders: set<nat>, blocks: map<nat, BasicBlock>, q: seq<nat>)
    requires IsFlowGraph(img, leaders, blocks) && IsBlockPath(blocks, q)
    ensures IsCodePath(img, Listing(blocks, q))
    ensures q != [] ==> Listing(blocks, q) != [] && Listing(blocks, q)[0] == q[0]
    decreases |q|
  {
    if q != [] {
      assert GoodBlock(img, leaders, blocks, q[0]);
      TailOfBlockPath(blocks, q);
      BlockPathRuns(img, leaders, blocks, q[1..]);
      BlockIsCodePath(img, leaders, blocks, q[0]);
      if |q| > 1 {
        assert EdgeAt(blocks, q, 0);
        FlowOutOfBlock(img, leaders, blocks, q[0], q[1]);
      }
      JoinPaths(img, blocks[q[0]].instrs, Listing(blocks, q[1..]));
    }
  }

  lemma {:induction false} PathFollowsBlock(img: Image, leaders: set<nat>, blocks: map<nat, BasicBlock>,
                                            k: nat, p: seq<nat>, n: nat)
    requires IsFlowGraph(img, leaders, blocks) && k in blocks
    requires IsCodePath(img, p) && p != [] && p[0] == k
    requires n <= |p| && n <= |blocks[k].instrs|
    ensures p[..n] == blocks[k].instrs[..n]
    decreases n
  {
    if n == 1 {
      assert GoodBlock(img, leaders, blocks, k);
    } else if n > 1 {
      PathFollowsBlock(img, leaders, blocks, k, p, n - 1);
      assert p[n - 2] == p[..n - 1][n - 2] == blocks[k].instrs[..n - 1][n - 2];
      FlowInsideBlock(img, leaders, blocks, k, n - 2);
      assert FlowsAt(img, p, n - 2);
    }
  }

  /** Every path of instructions from a block start runs along a path of blocks: it is
      the listing of that path, cut off somewhere in the last block. */
  lemma {:induction false} CodePathFollowsBlocks(img: Image, leaders: set<nat>, blocks: map<nat, BasicBlock>,
                                                 p: seq<nat>) returns (q: seq<nat>)
    requires IsFlowGraph(img, leaders, blocks)
    requires IsCodePath(img, p) && p != [] && p[0] in blocks
    ensures IsBlockPath(blocks, q) && q != [] && q[0] == p[0]
    ensures p <= Listing(blocks, q)
    ensures |Listing(blocks, q)| - |blocks[q[|q| - 1]].instrs| < |p|
    decreases |p|
  {
    var k := p[0];
    var r := blocks[k].instrs;
    assert GoodBlock(img, leaders, blocks, k);
    if |p| <= |r| {
      PathFollowsBlock(img, leaders, blocks, k, p, |p|);
      q := [k];
      assert Listing(blocks, q) == r;
      assert p == p[..|p|];
    } else {
      PathFollowsBlock(img, leaders, blocks, k, p, |r|);
      assert p[..|r|] == r;
      assert p[|r| - 1] == p[..|r|][|r| - 1];
      var rest := p[|r|..];
      forall i | 0 <= i < |rest| - 1
        ensures FlowsAt(img, rest, i)
      {
        assert FlowsAt(img, p, i + |r|);
      }
      assert FlowsAt(img, p, |r| - 1);
      FlowOutOfBlock(img, leaders, blocks, k, rest[0]);
      var t := CodePathFollowsBlocks(img, leaders, blocks, rest);
      q := [k] + t;
      assert q[1..] == t;
      forall i | 0 <= i < |q| - 1
        ensures EdgeAt(blocks, q, i)
      {
        assert i > 0 ==> EdgeAt(blocks, t, i - 1);
      }
      assert Listing(blocks, q) == r + Listing(blocks, t);
      assert p == r + rest;
      assert q[|q| - 1] == t[|t| - 1];
    }
  }
}
