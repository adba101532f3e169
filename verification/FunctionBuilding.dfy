/** Discovery of one function by recursive descent: the build worklist as a
    transition function on values, and the builder that runs it in place. */
module FunctionBuilding {
  import opened CodeImage
  import opened OrderedSets
  import opened BasicBlocks

  datatype XrefKind = CallRef | JumpRef
  datatype Xref = Xref(from: nat, to: nat, kind: XrefKind)

  datatype Function = Function(addr: nat, size: int, blocks: seq<BasicBlock>, callees: seq<nat>)

  /** The references made at `a`; none where nothing decodes. */
  function XrefsAt(img: Image, a: nat): seq<Xref> {
    if a !in img || img[a].target == 0 then []
    else if img[a].flow.Jump? || img[a].flow.CondJump? then [Xref(a, img[a].target, JumpRef)]
    else if img[a].flow.Call? then [Xref(a, img[a].target, CallRef)]
    else []
  }

  function CalleesAt(img: Image, a: nat): seq<nat> {
    if a in img && CallTarget(img[a]) != 0 then [CallTarget(img[a])] else []
  }

  function XrefsOf(img: Image, r: seq<nat>): seq<Xref> {
    if r == [] then [] else XrefsOf(img, r[..|r| - 1]) + XrefsAt(img, r[|r| - 1])
  }

  function CalleesOf(img: Image, r: seq<nat>): seq<nat> {
    if r == [] then [] else CalleesOf(img, r[..|r| - 1]) + CalleesAt(img, r[|r| - 1])
  }

  /** What the build loop carries: the builder's two fields, the local worklist with
      its `queued` set, and the two output vectors. */
  datatype Build = Build(leaders: set<nat>, blocks: map<nat, BasicBlock>,
                         work: seq<nat>, queued: set<nat>,
                         callees: seq<nat>, xrefs: seq<Xref>)

  function Start(entry: nat): Build {
    Build({entry}, map[], [entry], {entry}, [], [])
  }

  function Enqueued(s: Build, succ: nat): Build {
    if succ != 0 && succ !in s.queued
    then s.(queued := s.queued + {succ}, work := s.work + [succ]) else s
  }

  function NonZero(a: nat): set<nat> {
    if a == 0 then {} else {a}
  }

  /** The leaders once the edges of a traced block are registered. */
  function WithEdges(leaders: set<nat>, bb: BasicBlock): set<nat> {
    leaders + NonZero(bb.jump) + NonZero(bb.fail)
  }

  /** Takes down a traced block, its leaders and its references. */
  function Recorded(img: Image, s: Build, bb: BasicBlock): Build {
    s.(blocks := s.blocks[bb.addr := bb],
       leaders := WithEdges(s.leaders, bb),
       callees := s.callees + CalleesOf(img, bb.instrs),
       xrefs := s.xrefs + XrefsOf(img, bb.instrs))
  }

  /** One round of the build worklist. */
  function Step(img: Image, s: Build): Build
    requires s.work != []
  {
    var start := s.work[0];
    var rest := s.(work := s.work[1..]);
    if start in s.blocks then rest else
      var bb := BlockAt(img, s.leaders, start);
      Enqueued(Enqueued(Recorded(img, rest, bb), bb.jump), bb.fail)
  }

  /** All addresses an instruction can name or fall through to. */
  function Mentioned(img: Image): set<nat> {
    (set a | a in img :: Next(img, a)) + (set a | a in img :: img[a].target)
  }

  lemma EdgesAreMentioned(img: Image, leaders: set<nat>, start: nat)
    ensures NonZero(BlockAt(img, leaders, start).jump) <= Mentioned(img)
    ensures NonZero(BlockAt(img, leaders, start).fail) <= Mentioned(img)
  {
    RunIsChain(img, leaders, start);
    var r := Run(img, leaders, start);
    if r != [] {
      assert r[|r| - 1] in img;
    }
  }

  lemma ShrinksWhenGrown<T>(universe: set<T>, small: set<T>, large: set<T>)
    requires small <= large && large - small <= universe
    ensures small != large ==> |universe - large| < |universe - small|
    ensures |universe - large| <= |universe - small|
  {
    assert universe - small == (universe - large) + (large - small);
    if small != large {
      assert exists x :: x in large && x !in small;
      assert |large - small| > 0;
    }
  }

  /** A round adds mentioned addresses to the queued ones, or only takes from the queue. */
  lemma StepQueues(img: Image, s: Build)
    requires s.work != []
    ensures var t := Step(img, s);
            && s.queued <= t.queued && t.queued - s.queued <= Mentioned(img)
            && (t.queued == s.queued ==> t.work == s.work[1..])
  {
    EdgesAreMentioned(img, s.leaders, s.work[0]);
  }

  lemma StepShrinks(img: Image, s: Build)
    requires s.work != []
    ensures |Mentioned(img) - Step(img, s).queued| < |Mentioned(img) - s.queued| ||
            (Step(img, s).queued == s.queued && |Step(img, s).work| < |s.work|)
  {
    StepQueues(img, s);
    ShrinksWhenGrown(Mentioned(img), s.queued, Step(img, s).queued);
  }

  /** The build worklist run until it is empty. */
  function BuildLoop(img: Image, s: Build): (t: Build)
    ensures t.work == []
    decreases |Mentioned(img) - s.queued|, |s.work|
  {
    if s.work == [] then s else
      StepShrinks(img, s);
      BuildLoop(img, Step(img, s))
  }

  /** The leaders known when the block at `k` is traced, in the rounds from `s` on. */
  function LeadersWhenTraced(img: Image, s: Build, k: nat): set<nat>
    decreases |Mentioned(img) - s.queued|, |s.work|
  {
    if s.work == [] || (s.work[0] == k && k !in s.blocks) then s.leaders else
      StepShrinks(img, s);
      LeadersWhenTraced(img, Step(img, s), k)
  }

  lemma StepTracesOne(img: Image, s: Build, k: nat)
    requires s.work != []
    ensures var t := Step(img, s);
            && (k in t.blocks <==> k in s.blocks || k == s.work[0])
            && (k in t.blocks ==> t.blocks[k] == if k in s.blocks then s.blocks[k] else BlockAt(img, s.leaders, k))
  {
    assert BlockAt(img, s.leaders, s.work[0]).addr == s.work[0];
  }

  /** A block is the trace under the leaders known at its time, and is not traced again. */
  lemma {:induction false} BlockIsTraceOfItsTime(img: Image, s: Build, k: nat)
    requires k in BuildLoop(img, s).blocks
    ensures BuildLoop(img, s).blocks[k] ==
            if k in s.blocks then s.blocks[k] else BlockAt(img, LeadersWhenTraced(img, s, k), k)
    decreases |Mentioned(img) - s.queued|, |s.work|
  {
    if s.work != [] {
      var t := Step(img, s);
      StepShrinks(img, s);
      StepTracesOne(img, s, k);
      assert BuildLoop(img, s) == BuildLoop(img, t);
      BlockIsTraceOfItsTime(img, t, k);
    }
  }

  function FinalBlocks(s: Build): map<nat, BasicBlock> {
    map k | k in s.blocks :: Truncated(s.leaders, s.blocks[k])
  }

  ghost function InOrder(blocks: map<nat, BasicBlock>): seq<BasicBlock> {
    var keys := Elements(blocks.Keys);
    seq(|keys|, i requires 0 <= i < |keys| => blocks[keys[i]])
  }

  function TotalSize(blocks: seq<BasicBlock>): int {
    if blocks == [] then 0 else TotalSize(blocks[..|blocks| - 1]) + blocks[|blocks| - 1].size
  }

  ghost function Built(img: Image, entry: nat): Build {
    BuildLoop(img, Start(entry))
  }

  /** The function the analyzer reports for `entry`. */
  ghost function FunctionAt(img: Image, entry: nat): Function {
    var s := Built(img, entry);
    var blocks := InOrder(FinalBlocks(s));
    Function(entry, TotalSize(blocks), blocks, Elements(set c | c in s.callees))
  }
}
