/** Basic blocks: what one trace yields, what later splits leave of it, and the
    relation of both to the one-pass run under the final leader set. */
module BasicBlocks {
  import opened CodeImage
  import opened OrderedSets

  datatype BasicBlock = BasicBlock(addr: nat, size: int, jump: nat, fail: nat, instrs: seq<nat>)

  /** The maximal straight-line run from `pc`: it stops after a transfer, before
      another leader, or where nothing decodes. */
  function Run(img: Image, leaders: set<nat>, pc: nat): seq<nat>
    decreases if pc in img then ADDRESS_LIMIT - pc else 0
  {
    if pc !in img then []
    else if EndsRun(img[pc].flow) || Next(img, pc) in leaders then [pc]
    else [pc] + Run(img, leaders, Next(img, pc))
  }

  /** The fall-through edge of a block whose last instruction is `last`. */
  function FallThrough(img: Image, leaders: set<nat>, last: nat): nat
    requires last in img
  {
    if img[last].flow.CondJump? || (!EndsRun(img[last].flow) && Next(img, last) in leaders)
    then Next(img, last) else 0
  }

  function BlockFromRun(img: Image, leaders: set<nat>, start: nat, r: seq<nat>): BasicBlock
    requires r != [] ==> r[|r| - 1] in img
  {
    if r == [] then BasicBlock(start, 0, 0, 0, []) else
      var last := r[|r| - 1];
      BasicBlock(start, Next(img, last) - start, BranchTarget(img[last]),
                 FallThrough(img, leaders, last), r)
  }

  /** Instruction `i` of `r` is no transfer and is followed in memory by the next one listed. */
  ghost predicate Linked(img: Image, r: seq<nat>, i: nat)
    requires i + 1 < |r|
  {
    r[i] in img && !EndsRun(img[r[i]].flow) && r[i + 1] == Next(img, r[i])
  }

  /** `r` lists consecutive instructions from `start`, none but the last a transfer. */
  ghost predicate Chain(img: Image, start: nat, r: seq<nat>) {
    && (r == [] <==> start !in img)
    && (r != [] ==> r[0] == start)
    && (forall i :: 0 <= i < |r| ==> r[i] in img)
    && (forall i :: 0 <= i < |r| - 1 ==> Linked(img, r, i))
  }

  /** Why a trace ended where it did. */
  ghost predicate Stops(img: Image, leaders: set<nat>, r: seq<nat>)
    requires r != [] ==> r[|r| - 1] in img
  {
    r != [] ==>
      var last := r[|r| - 1];
      EndsRun(img[last].flow) || Next(img, last) in leaders || Next(img, last) !in img
  }

  ghost predicate NoInnerLeader(leaders: set<nat>, r: seq<nat>) {
    forall i :: 1 <= i < |r| ==> r[i] !in leaders
  }

  lemma ChainOneLonger(img: Image, leaders: set<nat>, pc: nat, t: seq<nat>)
    requires pc in img && !EndsRun(img[pc].flow) && Next(img, pc) !in leaders
    requires Chain(img, Next(img, pc), t) && Stops(img, leaders, t) && NoInnerLeader(leaders, t)
    ensures var r := [pc] + t; Chain(img, pc, r) && Stops(img, leaders, r) && NoInnerLeader(leaders, r)
  {
    var r := [pc] + t;
    forall i | 0 <= i < |r| - 1
      ensures Linked(img, r, i)
    {
      assert i > 0 ==> Linked(img, t, i - 1);
    }
  }

  lemma {:induction false} RunIsChain(img: Image, leaders: set<nat>, pc: nat)
    ensures Chain(img, pc, Run(img, leaders, pc))
    ensures Stops(img, leaders, Run(img, leaders, pc))
    ensures NoInnerLeader(leaders, Run(img, leaders, pc))
    decreases if pc in img then ADDRESS_LIMIT - pc else 0
  {
    if pc in img && !EndsRun(img[pc].flow) && Next(img, pc) !in leaders {
      RunIsChain(img, leaders, Next(img, pc));
      ChainOneLonger(img, leaders, pc, Run(img, leaders, Next(img, pc)));
    }
  }

  /** Those three properties determine the run. */
  lemma {:induction false} ChainIsRun(img: Image, leaders: set<nat>, start: nat, r: seq<nat>)
    requires Chain(img, start, r) && Stops(img, leaders, r) && NoInnerLeader(leaders, r)
    ensures r == Run(img, leaders, start)
    decreases |r|
  {
    if |r| > 1 {
      var t := r[1..];
      assert Linked(img, r, 0);
      forall i | 0 <= i < |t| - 1
        ensures Linked(img, t, i)
      {
        assert Linked(img, r, i + 1);
      }
      ChainIsRun(img, leaders, r[1], t);
      assert r == [r[0]] + r[1..];
    } else if |r| == 1 {
      assert Next(img, r[0]) !in img ==> Run(img, leaders, Next(img, r[0])) == [];
    }
  }

  lemma {:induction false} ChainAscends(img: Image, start: nat, r: seq<nat>, i: nat, j: nat)
    requires Chain(img, start, r) && i < j < |r|
    ensures Next(img, r[i]) <= r[j]
    decreases j
  {
    if i + 1 < j {
      ChainAscends(img, start, r, i, j - 1);
    }
    assert Linked(img, r, j - 1);
  }

  lemma ChainIsAscending(img: Image, start: nat, r: seq<nat>)
    requires Chain(img, start, r)
    ensures Ascending(r)
    ensures forall i :: 0 <= i < |r| ==> start <= r[i]
  {
    forall i, j | 0 <= i < j < |r|
      ensures r[i] < r[j]
    {
      ChainAscends(img, start, r, i, j);
    }
  }

  /** The block one call of `trace_block` builds. */
  function BlockAt(img: Image, leaders: set<nat>, start: nat): BasicBlock {
    RunIsChain(img, leaders, start);
    BlockFromRun(img, leaders, start, Run(img, leaders, start))
  }

  ghost predicate DeadFallOmitted(img: Image, b: BasicBlock)
    requires b.instrs != [] && b.instrs[|b.instrs| - 1] in img
  {
    var last := b.instrs[|b.instrs| - 1];
    b.fail == 0 && !EndsRun(img[last].flow) && Next(img, last) !in img
  }

  /** `b` may have been traced when fewer leaders were known. A fall-through into an
      address where nothing decodes is on record only if that address was a leader then. */
  ghost predicate Traced(img: Image, leaders: set<nat>, b: BasicBlock) {
    && Chain(img, b.addr, b.instrs)
    && Stops(img, leaders, b.instrs)
    && if b.instrs == [] then b.size == 0 && b.jump == 0 && b.fail == 0 else
         var last := b.instrs[|b.instrs| - 1];
         && b.size == Next(img, last) - b.addr
         && b.jump == BranchTarget(img[last])
         && (b.fail == FallThrough(img, leaders, last) || DeadFallOmitted(img, b))
  }

  lemma BlockAtIsTraced(img: Image, leaders: set<nat>, start: nat)
    ensures Traced(img, leaders, BlockAt(img, leaders, start))
    ensures BlockAt(img, leaders, start).addr == start
  {
    RunIsChain(img, leaders, start);
  }

  lemma TracedWithMoreLeaders(img: Image, few: set<nat>, many: set<nat>, b: BasicBlock)
    requires Traced(img, few, b) && few <= many
    ensures Traced(img, many, b)
  {
    if b.instrs != [] {
      var last := b.instrs[|b.instrs| - 1];
      assert b.fail == FallThrough(img, few, last) && b.fail != FallThrough(img, many, last) ==>
          DeadFallOmitted(img, b);
    }
  }

  /** The first index from `i` on that holds a leader, or the length. */
  function FirstLeader(leaders: set<nat>, r: seq<nat>, i: nat): (k: nat)
    ensures i <= |r| ==> i <= k <= |r|
    ensures k < |r| ==> r[k] in leaders
    ensures forall j :: i <= j < k && j < |r| ==> r[j] !in leaders
    decreases |r| - i
  {
    if i >= |r| then |r| else if r[i] in leaders then i else FirstLeader(leaders, r, i + 1)
  }

  /** Where splitting has to cut `b`; the length when it need not. */
  function CutPoint(leaders: set<nat>, b: BasicBlock): (k: nat)
    ensures k <= |b.instrs|
    ensures k < |b.instrs| ==> k > 0 && b.instrs[k] in leaders
    ensures forall j :: 1 <= j < k ==> b.instrs[j] !in leaders
  {
    if b.instrs == [] then 0 else FirstLeader(leaders, b.instrs, 1)
  }

  /** The part of `b` before instruction `k`, falling through to it. */
  function Head(b: BasicBlock, k: nat): BasicBlock
    requires 0 < k < |b.instrs|
  {
    BasicBlock(b.addr, b.instrs[k] - b.addr, 0, b.instrs[k], b.instrs[..k])
  }

  /** What splitting at every leader leaves at the address of `b`. */
  function Truncated(leaders: set<nat>, b: BasicBlock): BasicBlock
  {
    var k := CutPoint(leaders, b);
    if k == |b.instrs| then b else Head(b, k)
  }

  /** A block that needs no more splitting. */
  ghost predicate Final(img: Image, leaders: set<nat>, b: BasicBlock) {
    Traced(img, leaders, b) && NoInnerLeader(leaders, b.instrs)
  }

  lemma TruncatedIsFinal(img: Image, leaders: set<nat>, b: BasicBlock)
    requires Traced(img, leaders, b)
    ensures Final(img, leaders, Truncated(leaders, b))
  {
    var k := CutPoint(leaders, b);
    if k < |b.instrs| {
      var t := Truncated(leaders, b);
      assert Linked(img, b.instrs, k - 1);
      forall i | 0 <= i < k - 1
        ensures Linked(img, t.instrs, i)
      {
        assert Linked(img, b.instrs, i);
      }
    }
  }

  /** Equal in every field, but for a fall-through edge into undecodable bytes that
      the two-phase construction may have left out. */
  ghost predicate SameUpToDeadFall(img: Image, b: BasicBlock, onePass: BasicBlock) {
    && b.addr == onePass.addr && b.size == onePass.size
    && b.instrs == onePass.instrs && b.jump == onePass.jump
    && (b.fail == onePass.fail || (b.fail == 0 && onePass.fail !in img))
  }

  /** A fully split block is the block a single trace under the final leaders gives. */
  lemma FinalBlockIsOnePass(img: Image, leaders: set<nat>, b: BasicBlock)
    requires Final(img, leaders, b)
    ensures SameUpToDeadFall(img, b, BlockAt(img, leaders, b.addr))
  {
    ChainIsRun(img, leaders, b.addr, b.instrs);
  }
}
