/** What holds of every function the builder finds. */
module FunctionProperties {
  import opened CodeImage
  import opened BasicBlocks
  import opened FunctionBuilding

  /** All instruction addresses listed in some block. */
  ghost function Code(blocks: map<nat, BasicBlock>): set<nat> {
    set k, a | k in blocks && a in blocks[k].instrs :: a
  }

  /** The instruction at `a` makes `l` the start of a block. */
  ghost predicate MakesLeader(img: Image, a: nat, l: nat)
    requires a in img
  {
    match img[a].flow
    case Jump => l == img[a].target != 0
    case CondJump => l == img[a].target != 0 || l == a + img[a].length
    case _ => false
  }

  /** `l` starts a block of the function at `entry`: said of the program alone. */
  ghost predicate IsLeader(img: Image, entry: nat, l: nat) {
    l == entry || exists a :: a in img && Reaches(img, entry, a) && MakesLeader(img, a, l)
  }

  lemma LeadersAreReachable(img: Image, entry: nat, l: nat)
    requires IsLeader(img, entry, l)
    ensures Reaches(img, entry, l)
  {
    ReachesSelf(img, entry);
    if l != entry {
      var a :| a in img && Reaches(img, entry, a) && MakesLeader(img, a, l);
      ReachesStep(img, entry, a, l);
    }
  }

  lemma {:induction false} ChainIsReachable(img: Image, entry: nat, start: nat, r: seq<nat>, i: nat)
    requires Reaches(img, entry, start) && Chain(img, start, r) && i < |r|
    ensures Reaches(img, entry, r[i])
    decreases i
  {
    if i > 0 {
      ChainIsReachable(img, entry, start, r, i - 1);
      assert Linked(img, r, i - 1);
      ReachesStep(img, entry, r[i - 1], r[i]);
    }
  }

  /** `x` is the direct jump or call its instruction makes. */
  ghost predicate IsReference(img: Image, x: Xref) {
    && x.from in img && x.to == img[x.from].target != 0
    && match x.kind
       case CallRef => img[x.from].flow.Call?
       case JumpRef => img[x.from].flow.Jump? || img[x.from].flow.CondJump?
  }

  /** The instruction at `a` is a direct call of `c`. */
  ghost predicate IsCall(img: Image, a: nat, c: nat) {
    a in img && img[a].flow.Call? && c == img[a].target != 0
  }

  lemma {:induction false} XrefsOfMembers(img: Image, r: seq<nat>, x: Xref)
    ensures x in XrefsOf(img, r) <==> x.from in r && IsReference(img, x)
  {
    if r != [] {
      var n := |r| - 1;
      assert r == r[..n] + [r[n]];
      XrefsOfMembers(img, r[..n], x);
    }
  }

  lemma {:induction false} CalleesOfMembers(img: Image, r: seq<nat>, c: nat)
    ensures c in CalleesOf(img, r) <==> exists a :: a in r && IsCall(img, a, c)
  {
    if r != [] {
      var n := |r| - 1;
      assert r == r[..n] + [r[n]];
      CalleesOfMembers(img, r[..n], c);
      assert c in CalleesAt(img, r[n]) <==> IsCall(img, r[n], c);
      assert forall a :: a in r <==> a in r[..n] || a == r[n];
    }
  }

  // ---------- the invariant of the build loop ----------

  ghost predicate TracedAt(img: Image, leaders: set<nat>, blocks: map<nat, BasicBlock>, k: nat)
    requires k in blocks
  {
    && blocks[k].addr == k
    && Traced(img, leaders, blocks[k])
    && NonZero(blocks[k].jump) <= leaders
    && NonZero(blocks[k].fail) <= leaders
  }

  ghost predicate BlocksTraced(img: Image, leaders: set<nat>, blocks: map<nat, BasicBlock>) {
    forall k {:trigger TracedAt(img, leaders, blocks, k)} :: k in blocks ==>
      TracedAt(img, leaders, blocks, k)
  }

  ghost predicate RefersFrom(img: Image, code: set<nat>, x: Xref) {
    x.from in code && IsReference(img, x)
  }

  ghost predicate CallsFrom(img: Image, code: set<nat>, c: nat) {
    exists a :: a in code && IsCall(img, a, c)
  }

  ghost predicate ReferencesCollected(img: Image, code: set<nat>, callees: seq<nat>, xrefs: seq<Xref>) {
    && (forall c :: c in callees <==> CallsFrom(img, code, c))
    && (forall x :: x in xrefs <==> RefersFrom(img, code, x))
  }

  ghost function Queue(s: Build): set<nat> {
    set a | a in s.work
  }

  /** The queue, the traced addresses and the leaders stay in step. */
  ghost predicate InStep(s: Build) {
    s.queued == s.leaders && s.queued == s.blocks.Keys + Queue(s)
  }

  ghost predicate Inv(img: Image, entry: nat, s: Build) {
    && entry in s.leaders && 0 !in s.leaders
    && InStep(s)
    && (forall l :: l in s.leaders ==> IsLeader(img, entry, l))
    && BlocksTraced(img, s.leaders, s.blocks)
    && ReferencesCollected(img, Code(s.blocks), s.callees, s.xrefs)
  }

  lemma StartInv(img: Image, entry: nat)
    requires entry != 0
    ensures Inv(img, entry, Start(entry))
  {
    assert Code(map[]) == {};
  }

  /** A newly traced block only registers addresses that really start blocks. */
  lemma EdgesAreLeaders(img: Image, entry: nat, leaders: set<nat>, start: nat)
    requires Reaches(img, entry, start)
    requires forall l :: l in leaders ==> IsLeader(img, entry, l)
    ensures var bb := BlockAt(img, leaders, start);
            forall l :: l in NonZero(bb.jump) + NonZero(bb.fail) ==> IsLeader(img, entry, l)
  {
    RunIsChain(img, leaders, start);
    var r := Run(img, leaders, start);
    if r != [] {
      ChainIsReachable(img, entry, start, r, |r| - 1);
      var last := r[|r| - 1];
      var bb := BlockAt(img, leaders, start);
      forall l | l in NonZero(bb.jump) + NonZero(bb.fail)
        ensures IsLeader(img, entry, l)
      {
        assert l in leaders || MakesLeader(img, last, l);
      }
    }
  }

  lemma EnqueueAdds(s: Build, succ: nat)
    ensures var t := Enqueued(s, succ);
            && t.queued == s.queued + NonZero(succ)
            && s.queued + Queue(t) == s.queued + Queue(s) + NonZero(succ)
            && Queue(s) <= Queue(t)
            && t == s.(queued := t.queued, work := t.work)
  {
  }

  lemma RecordKeepsStep(img: Image, s: Build, bb: BasicBlock)
    requires s.work != [] && s.work[0] == bb.addr && InStep(s)
    ensures InStep(Enqueued(Enqueued(Recorded(img, s.(work := s.work[1..]), bb), bb.jump), bb.fail))
  {
    assert forall a :: a in s.work <==> a == bb.addr || a in s.work[1..];
    var r := Recorded(img, s.(work := s.work[1..]), bb);
    assert r.queued == r.blocks.Keys + Queue(r);
    var e := Enqueued(r, bb.jump);
    EnqueueAdds(r, bb.jump);
    EnqueueAdds(e, bb.fail);
  }

  lemma RecordKeepsBlocks(img: Image, leaders: set<nat>, more: set<nat>, blocks: map<nat, BasicBlock>, bb: BasicBlock)
    requires BlocksTraced(img, leaders, blocks) && Traced(img, leaders, bb)
    requires leaders + NonZero(bb.jump) + NonZero(bb.fail) == more
    ensures BlocksTraced(img, more, blocks[bb.addr := bb])
  {
    var t := blocks[bb.addr := bb];
    forall k | k in t
      ensures TracedAt(img, more, t, k)
    {
      assert k != bb.addr ==> TracedAt(img, leaders, blocks, k);
      TracedWithMoreLeaders(img, leaders, more, t[k]);
    }
  }

  lemma CodeGrows(blocks: map<nat, BasicBlock>, bb: BasicBlock)
    requires bb.addr !in blocks
    ensures Code(blocks[bb.addr := bb]) == Code(blocks) + (set a | a in bb.instrs)
  {
    var t := blocks[bb.addr := bb];
    forall a ensures a in Code(t) <==> a in Code(blocks) || a in bb.instrs {
      if a in Code(blocks) {
        var k :| k in blocks && a in blocks[k].instrs;
        assert k in t && a in t[k].instrs;
      }
      if a in bb.instrs {
        assert a in t[bb.addr].instrs;
      }
    }
  }

  lemma RecordKeepsReferences(img: Image, s: Build, bb: BasicBlock)
    requires ReferencesCollected(img, Code(s.blocks), s.callees, s.xrefs) && bb.addr !in s.blocks
    ensures var t := Recorded(img, s, bb);
            ReferencesCollected(img, Code(t.blocks), t.callees, t.xrefs)
  {
    var t := Recorded(img, s, bb);
    CodeGrows(s.blocks, bb);
    forall c ensures c in t.callees <==> CallsFrom(img, Code(t.blocks), c) {
      CalleesOfMembers(img, bb.instrs, c);
    }
    forall x ensures x in t.xrefs <==> RefersFrom(img, Code(t.blocks), x) {
      XrefsOfMembers(img, bb.instrs, x);
    }
  }

  lemma RecordInv(img: Image, entry: nat, s: Build, bb: BasicBlock)
    requires Inv(img, entry, s) && s.work != [] && s.work[0] == bb.addr && bb.addr !in s.blocks
    requires Traced(img, s.leaders, bb)
    requires forall l :: l in NonZero(bb.jump) + NonZero(bb.fail) ==> IsLeader(img, entry, l)
    ensures Inv(img, entry,
                Enqueued(Enqueued(Recorded(img, s.(work := s.work[1..]), bb), bb.jump), bb.fail))
  {
    var r := Recorded(img, s.(work := s.work[1..]), bb);
    var t := Enqueued(Enqueued(r, bb.jump), bb.fail);
    RecordKeepsStep(img, s, bb);
    RecordKeepsReferences(img, s.(work := s.work[1..]), bb);
    RecordKeepsBlocks(img, s.leaders, r.leaders, s.blocks, bb);
    assert t == r.(queued := t.queued, work := t.work);
  }

  lemma StepInv(img: Image, entry: nat, s: Build)
    requires Inv(img, entry, s) && s.work != []
    ensures Inv(img, entry, Step(img, s))
  {
    var start := s.work[0];
    assert start in Queue(s);
    if start in s.blocks {
      assert forall a :: a in s.work <==> a == start || a in s.work[1..];
    } else {
      BlockAtIsTraced(img, s.leaders, start);
      LeadersAreReachable(img, entry, start);
      EdgesAreLeaders(img, entry, s.leaders, start);
      RecordInv(img, entry, s, BlockAt(img, s.leaders, start));
    }
  }

  lemma {:induction false} LoopInv(img: Image, entry: nat, s: Build)
    requires Inv(img, entry, s)
    ensures Inv(img, entry, BuildLoop(img, s))
    decreases |Mentioned(img) - s.queued|, |s.work|
  {
    if s.work != [] {
      StepInv(img, entry, s);
      StepShrinks(img, s);
      LoopInv(img, entry, Step(img, s));
    }
  }

  /** When the worklist is empty the traced addresses are exactly the leaders. */
  lemma BuiltInv(img: Image, entry: nat)
    requires entry != 0
    ensures Inv(img, entry, Built(img, entry))
    ensures Built(img, entry).blocks.Keys == Built(img, entry).leaders
  {
    StartInv(img, entry);
    LoopInv(img, entry, Start(entry));
  }
}
