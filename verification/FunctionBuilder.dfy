/** The builder object itself: `leaders` and `blocks` grow as runs are traced, and
    `Finalize` cuts blocks in place until no leader lies inside one. */
module FunctionDiscovery {
  import opened CodeImage
  import opened OrderedSets
  import opened BasicBlocks
  import opened FunctionBuilding
  import opened FunctionProperties
  import opened Sequences

  ghost function Remaining(img: Image, leaders: set<nat>, r: seq<nat>, pc: nat): seq<nat> {
    if r != [] && pc in leaders then [] else Run(img, leaders, pc)
  }

  /** `r` is what a trace from `start` has listed when it looks at `pc` next. */
  ghost predicate PartOfRun(img: Image, leaders: set<nat>, start: nat, r: seq<nat>, pc: nat) {
    && (pc == start <==> r == [])
    && (forall i :: 0 <= i < |r| ==> r[i] in img)
    && (r != [] ==> !EndsRun(img[r[|r| - 1]].flow) && Next(img, r[|r| - 1]) == pc > start)
    && Run(img, leaders, start) == r + Remaining(img, leaders, r, pc)
  }

  /** The output vectors hold what they held at first and then the references of `r`. */
  ghost predicate Collected(img: Image, outCallees: seq<nat>, outXrefs: seq<Xref>, r: seq<nat>,
                            callees: seq<nat>, xrefs: seq<Xref>) {
    && callees == outCallees + CalleesOf(img, r)
    && xrefs == outXrefs + XrefsOf(img, r)
  }

  lemma CollectNext(img: Image, outCallees: seq<nat>, outXrefs: seq<Xref>, r: seq<nat>,
                    callees: seq<nat>, xrefs: seq<Xref>, pc: nat)
    requires Collected(img, outCallees, outXrefs, r, callees, xrefs)
    ensures Collected(img, outCallees, outXrefs, r + [pc], callees + CalleesAt(img, pc), xrefs + XrefsAt(img, pc))
  {
    var t := r + [pc];
    assert t[..|t| - 1] == r && t[|t| - 1] == pc;
    Associate(outCallees, CalleesOf(img, r), CalleesAt(img, pc));
    Associate(outXrefs, XrefsOf(img, r), XrefsAt(img, pc));
  }

  lemma AppendToRun(img: Image, leaders: set<nat>, start: nat, r: seq<nat>, pc: nat)
    requires PartOfRun(img, leaders, start, r, pc) && pc in img && (pc == start || pc !in leaders)
    ensures EndsRun(img[pc].flow) ==> Run(img, leaders, start) == r + [pc]
    ensures !EndsRun(img[pc].flow) ==> PartOfRun(img, leaders, start, r + [pc], Next(img, pc))
  {
    var next := Next(img, pc);
    if EndsRun(img[pc].flow) || next in leaders {
      Associate(r, [pc], []);
    } else {
      Associate(r, [pc], Run(img, leaders, next));
    }
  }

  /** The block under construction when `pc` is looked at next. */
  ghost predicate Tracing(img: Image, leaders: set<nat>, bb: BasicBlock, pc: nat) {
    && PartOfRun(img, leaders, bb.addr, bb.instrs, pc)
    && bb.size == pc - bb.addr && bb.jump == 0 && bb.fail == 0
  }

  lemma TraceStops(img: Image, leaders: set<nat>, bb: BasicBlock, pc: nat)
    requires Tracing(img, leaders, bb, pc) && (pc !in img || (pc != bb.addr && pc in leaders))
    ensures bb.(fail := if pc != bb.addr && pc in leaders then pc else 0) == BlockAt(img, leaders, bb.addr)
    ensures pc in leaders ==> WithEdges(leaders, bb.(fail := pc)) == leaders
    ensures WithEdges(leaders, bb) == leaders
  {
  }

  lemma TraceGoesOn(img: Image, leaders: set<nat>, bb: BasicBlock, pc: nat, next: BasicBlock)
    requires Tracing(img, leaders, bb, pc) && pc in img && (pc == bb.addr || pc !in leaders)
    requires next == BasicBlock(bb.addr, bb.size + img[pc].length, BranchTarget(img[pc]),
                                if img[pc].flow.CondJump? then Next(img, pc) else 0, bb.instrs + [pc])
    ensures EndsRun(img[pc].flow) ==> next == BlockAt(img, leaders, bb.addr)
    ensures !EndsRun(img[pc].flow) ==>
              Tracing(img, leaders, next, Next(img, pc)) && WithEdges(leaders, next) == leaders
  {
    AppendToRun(img, leaders, bb.addr, bb.instrs, pc);
  }

  lemma LoopUnfolds(img: Image, s: Build)
    requires s.work != []
    ensures BuildLoop(img, s) == BuildLoop(img, Step(img, s))
  {
  }

  /** The blocks that still have a leader inside. */
  ghost function UnsplitIn(leaders: set<nat>, blocks: map<nat, BasicBlock>): set<nat> {
    set k | k in blocks && CutPoint(leaders, blocks[k]) < |blocks[k].instrs|
  }

  ghost function CutAt(leaders: set<nat>, blocks: map<nat, BasicBlock>, a: nat): map<nat, BasicBlock>
    requires a in blocks
  {
    blocks[a := Truncated(leaders, blocks[a])]
  }

  /** Every block is as it was traced or already cut at its first inner leader. */
  ghost predicate PartlySplit(leaders: set<nat>, traced: map<nat, BasicBlock>, blocks: map<nat, BasicBlock>) {
    && blocks.Keys == traced.Keys
    && forall k :: k in blocks ==>
         blocks[k] == traced[k] || blocks[k] == Truncated(leaders, traced[k])
  }

  lemma TruncatedHasNoCut(img: Image, leaders: set<nat>, b: BasicBlock)
    requires Traced(img, leaders, b)
    ensures var t := Truncated(leaders, b);
            && CutPoint(leaders, t) == |t.instrs| && Truncated(leaders, t) == t
            && Final(img, leaders, t)
  {
    TruncatedIsFinal(img, leaders, b);
  }

  lemma SplitMakesProgress(img: Image, leaders: set<nat>, traced: map<nat, BasicBlock>, before: map<nat, BasicBlock>, a: nat)
    requires leaders == before.Keys && BlocksTraced(img, leaders, traced)
    requires PartlySplit(leaders, traced, before)
    requires a in UnsplitIn(leaders, before)
    ensures PartlySplit(leaders, traced, CutAt(leaders, before, a))
    ensures |UnsplitIn(leaders, CutAt(leaders, before, a))| < |UnsplitIn(leaders, before)|
  {
    assert TracedAt(img, leaders, traced, a);
    TruncatedHasNoCut(img, leaders, traced[a]);
    assert before[a] == traced[a];
    assert UnsplitIn(leaders, CutAt(leaders, before, a)) == UnsplitIn(leaders, before) - {a};
  }

  function Tail(b: BasicBlock, k: nat): BasicBlock
    requires 0 < k < |b.instrs|
  {
    BasicBlock(b.instrs[k], b.size - (b.instrs[k] - b.addr), b.jump, b.fail, b.instrs[k..])
  }

  /** The block at `addr` cut before its instruction `k`; the tail goes in only where
      nothing is stored yet. */
  function SplitAt(blocks: map<nat, BasicBlock>, addr: nat, k: nat): map<nat, BasicBlock>
    requires addr in blocks && 0 < k < |blocks[addr].instrs|
  {
    var b := blocks[addr];
    var cut := blocks[addr := Head(b, k)];
    if b.instrs[k] in cut then cut else cut[b.instrs[k] := Tail(b, k)]
  }

  /** A cut divides a block: the two parts list its instructions, in order, and cover its
      bytes; the first falls through to the second, which keeps the edges. */
  lemma CutDividesBlock(blocks: map<nat, BasicBlock>, addr: nat, k: nat)
    requires addr in blocks && 0 < k < |blocks[addr].instrs| && blocks[addr].addr == addr
    requires blocks[addr].instrs[k] !in blocks
    ensures var b := blocks[addr];
            var leader := b.instrs[k];
            var after := SplitAt(blocks, addr, k);
            && after.Keys == blocks.Keys + {leader}
            && (forall a :: a in blocks && a != addr ==> after[a] == blocks[a])
            && var (head, tail) := (after[addr], after[leader]);
               && head.addr == addr && tail.addr == leader == addr + head.size
               && head.size + tail.size == b.size && head.instrs + tail.instrs == b.instrs && |head.instrs| == k
               && head.jump == 0 && head.fail == leader && tail.jump == b.jump && tail.fail == b.fail
  {
  }

  /** When every leader has a block, splitting never adds one. */
  lemma SplitOnlyTruncates(leaders: set<nat>, blocks: map<nat, BasicBlock>, addr: nat)
    requires addr in blocks && leaders == blocks.Keys
    requires CutPoint(leaders, blocks[addr]) < |blocks[addr].instrs|
    ensures SplitAt(blocks, addr, CutPoint(leaders, blocks[addr])) == CutAt(leaders, blocks, addr)
    ensures SplitAt(blocks, addr, CutPoint(leaders, blocks[addr])).Keys == blocks.Keys
    ensures addr in UnsplitIn(leaders, blocks)
  {
  }

  lemma AllChecked(leaders: set<nat>, blocks: map<nat, BasicBlock>, keys: seq<nat>)
    requires keys == Elements(blocks.Keys)
    requires forall m :: 0 <= m < |keys| ==> keys[m] !in UnsplitIn(leaders, blocks)
    ensures UnsplitIn(leaders, blocks) == {}
  {
    forall k | k in blocks
      ensures k !in UnsplitIn(leaders, blocks)
    {
      assert k in keys;
    }
  }

  lemma OneMoreBlock(bs: seq<BasicBlock>, i: nat)
    requires i < |bs|
    ensures bs[..i + 1] == bs[..i] + [bs[i]]
    ensures TotalSize(bs[..i + 1]) == TotalSize(bs[..i]) + bs[i].size
  {
    assert bs[..i + 1][..i] == bs[..i];
  }

  lemma NothingUnsplitIsTruncated(leaders: set<nat>, traced: map<nat, BasicBlock>, blocks: map<nat, BasicBlock>)
    requires PartlySplit(leaders, traced, blocks) && UnsplitIn(leaders, blocks) == {}
    ensures blocks == map k | k in traced :: Truncated(leaders, traced[k])
  {
    forall k | k in blocks
      ensures blocks[k] == Truncated(leaders, traced[k])
    {
      assert k !in UnsplitIn(leaders, blocks);
    }
  }

  lemma PartlySplitIsTraced(img: Image, leaders: set<nat>, traced: map<nat, BasicBlock>, blocks: map<nat, BasicBlock>)
    requires BlocksTraced(img, leaders, traced) && PartlySplit(leaders, traced, blocks)
    ensures BlocksTraced(img, leaders, blocks)
  {
    forall k | k in blocks
      ensures TracedAt(img, leaders, blocks, k)
    {
      assert TracedAt(img, leaders, traced, k);
      TruncatedHasNoCut(img, leaders, traced[k]);
    }
  }

  /** The first inner leader of a block in set order is the one at its cut point. */
  lemma FirstInnerLeader(img: Image, leaders: set<nat>, bb: BasicBlock, ls: seq<nat>, j: nat)
    requires Traced(img, leaders, bb) && ls == Elements(leaders) && j < |ls|
    requires ls[j] in bb.instrs && ls[j] > bb.addr
    requires forall m :: 0 <= m < j ==> ls[m] <= bb.addr || ls[m] !in bb.instrs
    ensures var k := CutPoint(leaders, bb); k < |bb.instrs| && bb.instrs[k] == ls[j]
  {
    var k := CutPoint(leaders, bb);
    var m :| 0 <= m < |bb.instrs| && bb.instrs[m] == ls[j];
    assert ls[j] in ls;
    ChainIsAscending(img, bb.addr, bb.instrs);
    assert 1 <= m && 1 <= k <= m;
    var c := bb.instrs[k];
    assert bb.instrs[0] < c;
    assert c in ls && c in bb.instrs;
    var n :| 0 <= n < |ls| && ls[n] == c;
    assert !(n < j);
  }

  lemma InsideBlock(img: Image, leaders: set<nat>, bb: BasicBlock, a: nat)
    requires Traced(img, leaders, bb) && a in bb.instrs
    ensures bb.addr <= a < bb.addr + bb.size
  {
    ChainIsAscending(img, bb.addr, bb.instrs);
    var n := |bb.instrs| - 1;
    var i :| 0 <= i <= n && bb.instrs[i] == a;
  }

  lemma NoInnerLeaderLeft(img: Image, leaders: set<nat>, bb: BasicBlock, ls: seq<nat>)
    requires Traced(img, leaders, bb) && ls == Elements(leaders)
    requires forall m :: 0 <= m < |ls| ==> ls[m] <= bb.addr || ls[m] !in bb.instrs
    ensures CutPoint(leaders, bb) == |bb.instrs|
  {
    var k := CutPoint(leaders, bb);
    if k < |bb.instrs| {
      ChainIsAscending(img, bb.addr, bb.instrs);
      assert false;
    }
  }

  class FunctionBuilder {
    const img: Image
    var leaders: set<nat>
    var blocks: map<nat, BasicBlock>

    constructor (img: Image)
      ensures this.img == img && leaders == {} && blocks == map[]
    {
      this.img := img;
      leaders, blocks := {}, map[];
    }

    /** What a decoded instruction does to the block being traced: records references,
        registers leaders, sets the block's edges, and tells whether the run ends. */
    method Transfer(pc: nat, b: BasicBlock, outCallees: seq<nat>, outXrefs: seq<Xref>)
      returns (ends: bool, bb: BasicBlock, callees: seq<nat>, xrefs: seq<Xref>)
      requires pc in img && b.jump == 0 && b.fail == 0
      modifies this`leaders
      ensures ends == EndsRun(img[pc].flow)
      ensures bb == b.(jump := BranchTarget(img[pc]),
                       fail := if img[pc].flow.CondJump? then Next(img, pc) else 0)
      ensures leaders == WithEdges(old(leaders), bb)
      ensures callees == outCallees + CalleesAt(img, pc)
      ensures xrefs == outXrefs + XrefsAt(img, pc)
    {
      bb, callees, xrefs := b, outCallees, outXrefs;
      var insn := img[pc];
      match insn.flow {
        case Jump =>
          if insn.target != 0 {
            xrefs := xrefs + [Xref(pc, insn.target, JumpRef)];
            leaders := leaders + {insn.target};
            bb := bb.(jump := insn.target);
          }
          ends := true;
        case CondJump =>
          if insn.target != 0 {
            xrefs := xrefs + [Xref(pc, insn.target, JumpRef)];
            leaders := leaders + {insn.target};
            bb := bb.(jump := insn.target);
          }
          leaders := leaders + {pc + insn.length};
          bb := bb.(fail := pc + insn.length);
          ends := true;
        case Call =>
          if insn.target != 0 {
            xrefs := xrefs + [Xref(pc, insn.target, CallRef)];
            callees := callees + [insn.target];
          }
          ends := false;
        case Return =>
          ends := true;
        case Sequential =>
          ends := false;
      }
    }

    /** Decodes the straight-line run from `start`. */
    method TraceBlock(start: nat, outCallees: seq<nat>, outXrefs: seq<Xref>)
      returns (bb: BasicBlock, callees: seq<nat>, xrefs: seq<Xref>)
      modifies this`leaders
      ensures bb == BlockAt(img, old(leaders), start)
      ensures leaders == WithEdges(old(leaders), bb)
      ensures Collected(img, outCallees, outXrefs, bb.instrs, callees, xrefs)
    {
      ghost var known := leaders;
      bb := BasicBlock(start, 0, 0, 0, []);
      callees, xrefs := outCallees, outXrefs;
      var pc: nat := start;
      while true
        invariant leaders == known && bb.addr == start
        invariant Tracing(img, known, bb, pc)
        invariant Collected(img, outCallees, outXrefs, bb.instrs, callees, xrefs)
        decreases if pc in img then ADDRESS_LIMIT - pc else 0
      {
        if pc != start && pc in leaders {
          TraceStops(img, known, bb, pc);
          bb := bb.(fail := pc);
          return;
        }
        if pc !in img {
          TraceStops(img, known, bb, pc);
          return;
        }
        ghost var before := bb;
        CollectNext(img, outCallees, outXrefs, bb.instrs, callees, xrefs, pc);
        bb := bb.(instrs := bb.instrs + [pc], size := bb.size + img[pc].length);
        var ends;
        ends, bb, callees, xrefs := Transfer(pc, bb, callees, xrefs);
        TraceGoesOn(img, known, before, pc, bb);
        if ends {
          return;
        }
        pc := pc + img[pc].length;
      }
    }

    /** Cuts the block at `addr` before its instruction at `leader`. The tail is only
        added when nothing is stored at `leader` yet. */
    method SplitBlock(addr: nat, leader: nat, ghost k: nat) returns (split: bool)
      requires addr in blocks && leader != addr && blocks[addr].addr == addr
      requires Ascending(blocks[addr].instrs)
      requires 0 < k < |blocks[addr].instrs| && blocks[addr].instrs[k] == leader
      modifies this`blocks
      ensures split
      ensures blocks == SplitAt(old(blocks), addr, k)
    {
      var bb := blocks[addr];
      var tail := BasicBlock(leader, 0, bb.jump, bb.fail, []);
      var headInstrs, tailInstrs := [], [];
      for i := 0 to |bb.instrs|
        invariant headInstrs == bb.instrs[..if i < k then i else k]
        invariant tailInstrs == if i < k then [] else bb.instrs[k..i]
      {
        var ia := bb.instrs[i];
        if ia < leader {
          headInstrs := headInstrs + [ia];
        } else {
          tailInstrs := tailInstrs + [ia];
        }
      }
      var headSize := leader - bb.addr;
      assert tailInstrs == bb.instrs[k..];
      tail := tail.(size := bb.size - headSize, instrs := tailInstrs);
      blocks := blocks[addr := bb.(size := headSize, instrs := headInstrs, jump := 0, fail := leader)];
      if leader !in blocks {
        blocks := blocks[leader := tail];
      }
      split := true;
    }

    /** Looks through the leaders in order for one that starts an instruction inside `bb`. */
    method FindInnerLeader(bb: BasicBlock) returns (found: bool, leader: nat)
      requires Traced(img, leaders, bb)
      ensures found <==> CutPoint(leaders, bb) < |bb.instrs|
      ensures found ==> leader == bb.instrs[CutPoint(leaders, bb)]
    {
      var ls := Traverse(leaders);
      for j := 0 to |ls|
        invariant forall m :: 0 <= m < j ==> ls[m] <= bb.addr || ls[m] !in bb.instrs
      {
        leader := ls[j];
        if leader in bb.instrs { InsideBlock(img, leaders, bb, leader); }
        if leader <= bb.addr || leader >= bb.addr + bb.size {
          continue;
        }
        if leader !in bb.instrs {
          continue;
        }
        FirstInnerLeader(img, leaders, bb, ls, j);
        return true, leader;
      }
      NoInnerLeaderLeft(img, leaders, bb, ls);
      return false, 0;
    }

    /** Cuts the block at `addr` if a leader is inside. */
    method CutBlock(addr: nat) returns (cut: bool)
      requires BlocksTraced(img, leaders, blocks) && leaders == blocks.Keys && addr in blocks
      modifies this`blocks
      ensures cut <==> addr in UnsplitIn(leaders, old(blocks))
      ensures blocks == if cut then CutAt(leaders, old(blocks), addr) else old(blocks)
    {
      var bb := blocks[addr];
      assert TracedAt(img, leaders, blocks, addr);
      var found, leader := FindInnerLeader(bb);
      cut := false;
      if found {
        ChainIsAscending(img, bb.addr, bb.instrs);
        SplitOnlyTruncates(leaders, blocks, addr);
        cut := SplitBlock(addr, leader, CutPoint(leaders, bb));
      }
    }

    /** One sweep over the blocks: cuts the first one with a leader inside, if any. */
    method SplitOne() returns (changed: bool, ghost at: nat)
      requires BlocksTraced(img, leaders, blocks) && leaders == blocks.Keys
      modifies this`blocks
      ensures changed ==>
                at in UnsplitIn(leaders, old(blocks)) && blocks == CutAt(leaders, old(blocks), at)
      ensures !changed ==> blocks == old(blocks) && UnsplitIn(leaders, blocks) == {}
    {
      var keys := Traverse(blocks.Keys);
      ghost var all := blocks;
      for i := 0 to |keys|
        invariant blocks == all
        invariant forall m :: 0 <= m < i ==> keys[m] !in UnsplitIn(leaders, all)
      {
        assert keys[i] in keys && keys[i] in all;
        changed := CutBlock(keys[i]);
        if changed {
          at := keys[i];
          return;
        }
      }
      AllChecked(leaders, all, keys);
      changed, at := false, 0;
    }

    method Assemble(entry: nat) returns (fn: Function)
      ensures fn == Function(entry, TotalSize(InOrder(blocks)), InOrder(blocks), [])
    {
      fn := Function(entry, 0, [], []);
      var keys := Traverse(blocks.Keys);
      ghost var all := InOrder(blocks);
      for i := 0 to |keys|
        invariant fn == Function(entry, TotalSize(all[..i]), all[..i], [])
      {
        assert keys[i] in keys;
        var bb := blocks[keys[i]];
        OneMoreBlock(all, i);
        fn := fn.(size := fn.size + bb.size, blocks := fn.blocks + [bb]);
      }
      assert all[..|keys|] == all;
    }

    /** Splits to a fixpoint and lists the blocks by address. */
    method Finalize(entry: nat) returns (fn: Function)
      requires BlocksTraced(img, leaders, blocks) && leaders == blocks.Keys
      modifies this`blocks
      ensures blocks == map k | k in old(blocks) :: Truncated(leaders, old(blocks)[k])
      ensures fn == Function(entry, TotalSize(InOrder(blocks)), InOrder(blocks), [])
    {
      ghost var traced := blocks;
      var changed := true;
      while changed
        invariant PartlySplit(leaders, traced, blocks)
        invariant !changed ==> UnsplitIn(leaders, blocks) == {}
        decreases |UnsplitIn(leaders, blocks)|, changed
      {
        ghost var before := blocks;
        PartlySplitIsTraced(img, leaders, traced, before);
        ghost var at;
        changed, at := SplitOne();
        if changed { SplitMakesProgress(img, leaders, traced, before, at); }
      }
      NothingUnsplitIsTruncated(leaders, traced, blocks);
      fn := Assemble(entry);
    }

    method Enqueue(succ: nat, work: seq<nat>, queued: set<nat>) returns (work': seq<nat>, queued': set<nat>)
      ensures if succ != 0 && succ !in queued
              then work' == work + [succ] && queued' == queued + {succ}
              else work' == work && queued' == queued
    {
      work', queued' := work, queued;
      if succ != 0 && succ !in queued {
        queued' := queued + {succ};
        work' := work + [succ];
      }
    }

    /** One round of the worklist: traces the first address unless that is done already. */
    method Round(work: seq<nat>, queued: set<nat>, callees: seq<nat>, xrefs: seq<Xref>,
                 ghost outXrefs: seq<Xref>, ghost s: FunctionBuilding.Build)
      returns (work': seq<nat>, queued': set<nat>, callees': seq<nat>, xrefs': seq<Xref>,
               ghost s': FunctionBuilding.Build)
      requires work != [] && xrefs == outXrefs + s.xrefs
      requires s == FunctionBuilding.Build(leaders, blocks, work, queued, callees, s.xrefs)
      modifies this
      ensures s' == Step(img, s) && xrefs' == outXrefs + s'.xrefs
      ensures s' == FunctionBuilding.Build(leaders, blocks, work', queued', callees', s'.xrefs)
    {
      var start := work[0];
      work', queued', callees', xrefs' := work[1..], queued, callees, xrefs;
      s' := s.(work := work');
      if start in blocks {
        return;
      }
      var bb;
      bb, callees', xrefs' := TraceBlock(start, callees', xrefs');
      BlockAtIsTraced(img, s.leaders, start);
      blocks := blocks[bb.addr := bb];
      s' := Recorded(img, s', bb);
      work', queued' := Enqueue(bb.jump, work', queued');
      s' := Enqueued(s', bb.jump);
      work', queued' := Enqueue(bb.fail, work', queued');
      s' := Enqueued(s', bb.fail);
    }

    /** Runs the build worklist until it is empty. */
    method TraceReachable(entry: nat, outXrefs: seq<Xref>)
      returns (callees: seq<nat>, xrefs: seq<Xref>, ghost s: FunctionBuilding.Build)
      requires leaders == {} && blocks == map[]
      modifies this
      ensures s == Built(img, entry) && leaders == s.leaders && blocks == s.blocks
      ensures callees == s.callees && xrefs == outXrefs + s.xrefs
    {
      leaders := leaders + {entry};
      var work, queued := [entry], {entry};
      callees, xrefs := [], outXrefs;
      s := Start(entry);
      while work != []
        invariant s == FunctionBuilding.Build(leaders, blocks, work, queued, callees, s.xrefs)
        invariant xrefs == outXrefs + s.xrefs
        invariant BuildLoop(img, s) == Built(img, entry)
        decreases |Mentioned(img) - queued|, |work|
      {
        StepShrinks(img, s);
        LoopUnfolds(img, s);
        work, queued, callees, xrefs, s := Round(work, queued, callees, xrefs, outXrefs, s);
      }
    }

    /** Discovers the function at `entry`. */
    method Build(entry: nat, outXrefs: seq<Xref>)
      returns (fn: Function, callees: seq<nat>, xrefs: seq<Xref>)
      requires entry != 0 && leaders == {} && blocks == map[]
      modifies this
      ensures fn == FunctionAt(img, entry).(callees := [])
      ensures callees == Built(img, entry).callees
      ensures xrefs == outXrefs + Built(img, entry).xrefs
      ensures leaders == Built(img, entry).leaders && blocks == FinalBlocks(Built(img, entry))
    {
      ghost var s;
      callees, xrefs, s := TraceReachable(entry, outXrefs);
      BuiltInv(img, entry);
      fn := Finalize(entry);
      assert blocks == FinalBlocks(s);
    }
  }
}
