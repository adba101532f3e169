/** The bytes a function covers: when blocks are disjoint, and what the function's
    `size` counts. */
module Extents {
  import opened CodeImage
  import opened OrderedSets
  import opened BasicBlocks
  import opened FunctionBuilding
  import opened FunctionProperties
  import opened FlowGraphs

  predicate Within(x: int, lo: int, hi: int) {
    lo <= x < hi
  }

  function Interval(lo: int, hi: int): set<int> {
    set x | lo <= x < hi && Within(x, lo, hi)
  }

  lemma {:induction false} IntervalSize(lo: int, hi: int)
    requires lo <= hi
    ensures |Interval(lo, hi)| == hi - lo
    decreases hi - lo
  {
    if lo < hi {
      IntervalSize(lo, hi - 1);
      assert Interval(lo, hi) == Interval(lo, hi - 1) + {hi - 1};
    } else {
      assert Interval(lo, hi) == {};
    }
  }

  function Bytes(b: BasicBlock): set<int> {
    Interval(b.addr, b.addr + b.size)
  }

  /** No two of these instructions share a byte. */
  ghost predicate NoOverlap(img: Image, code: set<nat>) {
    forall a, b :: a in code && b in code && a in img && b in img && a < b ==> Next(img, a) <= b
  }

  ghost predicate DisjointBlocks(blocks: map<nat, BasicBlock>) {
    forall k, l :: k in blocks && l in blocks && k != l ==> Bytes(blocks[k]) !! Bytes(blocks[l])
  }

  /** A byte of a run belongs to one of its instructions. */
  lemma {:induction false} ByteHasInstruction(img: Image, start: nat, r: seq<nat>, n: nat, x: int) returns (i: nat)
    requires Chain(img, start, r) && n < |r| && start <= x < Next(img, r[n])
    ensures i <= n && r[i] <= x < Next(img, r[i])
    decreases n
  {
    if x >= r[n] {
      i := n;
    } else {
      assert Linked(img, r, n - 1);
      i := ByteHasInstruction(img, start, r, n - 1, x);
    }
  }

  lemma InstructionBytesInBlock(img: Image, leaders: set<nat>, b: BasicBlock, i: nat)
    requires Final(img, leaders, b) && i < |b.instrs|
    ensures b.addr <= b.instrs[i] && Next(img, b.instrs[i]) <= b.addr + b.size
  {
    var n := |b.instrs| - 1;
    if 0 < i { ChainAscends(img, b.addr, b.instrs, 0, i); }
    if i < n { ChainAscends(img, b.addr, b.instrs, i, n); }
  }

  /** Only overlapping instructions can make a later block start inside an earlier one. */
  lemma StartInsideOverlaps(img: Image, leaders: set<nat>, blocks: map<nat, BasicBlock>, k: nat, l: nat) returns (a: nat)
    requires IsFlowGraph(img, leaders, blocks)
    requires k in blocks && l in blocks && k < l && l in Bytes(blocks[k])
    ensures a in Code(blocks) && a in img && a < l < Next(img, a)
  {
    assert GoodBlock(img, leaders, blocks, k);
    var r := blocks[k].instrs;
    var i := ByteHasInstruction(img, k, r, |r| - 1, l);
    a := r[i];
    assert a in blocks[k].instrs;
  }

  lemma NoOverlapSeparates(img: Image, leaders: set<nat>, blocks: map<nat, BasicBlock>, k: nat, l: nat)
    requires IsFlowGraph(img, leaders, blocks) && NoOverlap(img, Code(blocks))
    requires k in blocks && l in blocks && k < l
    ensures Bytes(blocks[k]) !! Bytes(blocks[l])
  {
    if x :| x in Bytes(blocks[k]) && x in Bytes(blocks[l]) {
      assert GoodBlock(img, leaders, blocks, k) && GoodBlock(img, leaders, blocks, l);
      assert l == blocks[l].instrs[0] && l in blocks[l].instrs && l in Code(blocks);
      var a := StartInsideOverlaps(img, leaders, blocks, k, l);
      assert false;
    }
  }

  lemma ListedInstructionBytes(img: Image, leaders: set<nat>, blocks: map<nat, BasicBlock>, k: nat, a: nat, x: int)
    requires IsFlowGraph(img, leaders, blocks)
    requires k in blocks && a in blocks[k].instrs && a in img && a <= x < Next(img, a)
    ensures x in Bytes(blocks[k])
  {
    assert GoodBlock(img, leaders, blocks, k);
    var i :| 0 <= i < |blocks[k].instrs| && blocks[k].instrs[i] == a;
    InstructionBytesInBlock(img, leaders, blocks[k], i);
  }

  lemma InstructionsOfOneBlockAreApart(img: Image, leaders: set<nat>, blocks: map<nat, BasicBlock>, k: nat, a: nat, b: nat)
    requires IsFlowGraph(img, leaders, blocks)
    requires k in blocks && a in blocks[k].instrs && b in blocks[k].instrs && a in img && a < b
    ensures Next(img, a) <= b
  {
    assert GoodBlock(img, leaders, blocks, k);
    var r := blocks[k].instrs;
    var i :| 0 <= i < |r| && r[i] == a;
    var j :| 0 <= j < |r| && r[j] == b;
    ChainIsAscending(img, k, r);
    ChainAscends(img, k, r, i, j);
  }

  lemma DisjointBlocksDoNotOverlap(img: Image, leaders: set<nat>, blocks: map<nat, BasicBlock>, a: nat, b: nat)
    requires IsFlowGraph(img, leaders, blocks) && DisjointBlocks(blocks)
    requires a in Code(blocks) && b in Code(blocks) && a in img && b in img && a < b
    ensures Next(img, a) <= b
  {
    var k :| k in blocks && a in blocks[k].instrs;
    var l :| l in blocks && b in blocks[l].instrs;
    if k == l {
      InstructionsOfOneBlockAreApart(img, leaders, blocks, k, a, b);
    } else if b < Next(img, a) {
      ListedInstructionBytes(img, leaders, blocks, k, a, b);
      ListedInstructionBytes(img, leaders, blocks, l, b, b);
      assert false;
    }
  }

  /** Block ranges are disjoint exactly when no two reachable instructions overlap. */
  lemma DisjointIffNoOverlap(img: Image, leaders: set<nat>, blocks: map<nat, BasicBlock>)
    requires IsFlowGraph(img, leaders, blocks)
    ensures DisjointBlocks(blocks) <==> NoOverlap(img, Code(blocks))
  {
    if NoOverlap(img, Code(blocks)) {
      forall k, l | k in blocks && l in blocks && k != l
        ensures Bytes(blocks[k]) !! Bytes(blocks[l])
      {
        NoOverlapSeparates(img, leaders, blocks, if k < l then k else l, if k < l then l else k);
      }
    }
    if DisjointBlocks(blocks) {
      forall a, b | a in Code(blocks) && b in Code(blocks) && a in img && b in img && a < b
        ensures Next(img, a) <= b
      {
        DisjointBlocksDoNotOverlap(img, leaders, blocks, a, b);
      }
    }
  }

  /** Without overlap a reachable instruction is listed in one block only. */
  lemma OneBlockPerInstruction(img: Image, leaders: set<nat>, blocks: map<nat, BasicBlock>, k: nat, l: nat, a: nat)
    requires IsFlowGraph(img, leaders, blocks) && NoOverlap(img, Code(blocks))
    requires k in blocks && l in blocks && a in blocks[k].instrs && a in blocks[l].instrs
    ensures k == l
  {
    assert GoodBlock(img, leaders, blocks, k);
    ListedInstructionBytes(img, leaders, blocks, k, a, a);
    ListedInstructionBytes(img, leaders, blocks, l, a, a);
    DisjointIffNoOverlap(img, leaders, blocks);
  }

  // ---------- the size of a function ----------

  ghost function AllBytes(bs: seq<BasicBlock>): set<int> {
    if bs == [] then {} else AllBytes(bs[..|bs| - 1]) + Bytes(bs[|bs| - 1])
  }

  ghost predicate PairwiseDisjoint(bs: seq<BasicBlock>) {
    forall i, j :: 0 <= i < j < |bs| ==> Bytes(bs[i]) !! Bytes(bs[j])
  }

  lemma {:induction false} AllBytesMembers(bs: seq<BasicBlock>, x: int)
    ensures x in AllBytes(bs) <==> exists i :: 0 <= i < |bs| && x in Bytes(bs[i])
  {
    if bs != [] {
      var n := |bs| - 1;
      AllBytesMembers(bs[..n], x);
      if i :| 0 <= i < |bs| && x in Bytes(bs[i]) {
        if i < n { assert x in Bytes(bs[..n][i]); }
      }
    }
  }

  lemma SizeOfUnion<T>(a: set<T>, b: set<T>)
    ensures |a + b| <= |a| + |b|
    ensures |a + b| == |a| + |b| <==> a !! b
  {
    assert a + b == a + (b - a);
    assert b == (b - a) + (b * a);
  }

  lemma {:induction false} DisjointFromAll(bs: seq<BasicBlock>, s: set<int>)
    ensures AllBytes(bs) !! s <==> forall i :: 0 <= i < |bs| ==> Bytes(bs[i]) !! s
  {
    if bs != [] {
      var n := |bs| - 1;
      DisjointFromAll(bs[..n], s);
      assert forall i :: 0 <= i < n ==> bs[..n][i] == bs[i];
    }
  }

  lemma DisjointWithLast(bs: seq<BasicBlock>)
    requires bs != []
    ensures var n := |bs| - 1;
            PairwiseDisjoint(bs) <==>
              PairwiseDisjoint(bs[..n]) && forall i :: 0 <= i < n ==> Bytes(bs[i]) !! Bytes(bs[n])
  {
  }

  lemma DisjointOneMore(bs: seq<BasicBlock>)
    requires bs != []
    ensures var n := |bs| - 1;
            PairwiseDisjoint(bs) <==> PairwiseDisjoint(bs[..n]) && AllBytes(bs[..n]) !! Bytes(bs[n])
  {
    var n := |bs| - 1;
    DisjointWithLast(bs);
    DisjointFromAll(bs[..n], Bytes(bs[n]));
    assert forall i :: 0 <= i < n ==> bs[..n][i] == bs[i];
  }

  /** Block sizes add up to the covered bytes, with equality exactly for disjoint blocks. */
  lemma {:induction false} SizeCountsBytes(bs: seq<BasicBlock>)
    requires forall i :: 0 <= i < |bs| ==> bs[i].size >= 0
    ensures |AllBytes(bs)| <= TotalSize(bs)
    ensures |AllBytes(bs)| == TotalSize(bs) <==> PairwiseDisjoint(bs)
  {
    if bs != [] {
      var n := |bs| - 1;
      var init, last := AllBytes(bs[..n]), Bytes(bs[n]);
      SizeCountsBytes(bs[..n]);
      IntervalSize(bs[n].addr, bs[n].addr + bs[n].size);
      SizeOfUnion(init, last);
      DisjointOneMore(bs);
    }
  }

  /** The bytes of the reachable instructions of a function. */
  ghost function CodeBytes(img: Image, code: set<nat>): set<int> {
    set a, x | a in code && a in img && x in Interval(a, Next(img, a)) :: x
  }

  lemma ListedByteIsCodeByte(img: Image, leaders: set<nat>, blocks: map<nat, BasicBlock>, x: int)
    requires IsFlowGraph(img, leaders, blocks) && x in AllBytes(InOrder(blocks))
    ensures x in CodeBytes(img, Code(blocks))
  {
    AllBytesMembers(InOrder(blocks), x);
    var i :| 0 <= i < |InOrder(blocks)| && x in Bytes(InOrder(blocks)[i]);
    var k := Elements(blocks.Keys)[i];
    assert k in Elements(blocks.Keys);
    assert GoodBlock(img, leaders, blocks, k);
    var r := blocks[k].instrs;
    var j := ByteHasInstruction(img, k, r, |r| - 1, x);
    assert r[j] in blocks[k].instrs;
    assert r[j] in Code(blocks) && x in Interval(r[j], Next(img, r[j]));
  }

  lemma CodeByteHasBlock(img: Image, leaders: set<nat>, blocks: map<nat, BasicBlock>, x: int) returns (k: nat)
    requires IsFlowGraph(img, leaders, blocks) && x in CodeBytes(img, Code(blocks))
    ensures k in blocks && x in Bytes(blocks[k])
  {
    var a :| a in Code(blocks) && a in img && x in Interval(a, Next(img, a));
    k :| k in blocks && a in blocks[k].instrs;
    assert GoodBlock(img, leaders, blocks, k);
    var j :| 0 <= j < |blocks[k].instrs| && blocks[k].instrs[j] == a;
    InstructionBytesInBlock(img, leaders, blocks[k], j);
  }

  lemma CodeByteIsListed(img: Image, leaders: set<nat>, blocks: map<nat, BasicBlock>, x: int)
    requires IsFlowGraph(img, leaders, blocks) && x in CodeBytes(img, Code(blocks))
    ensures x in AllBytes(InOrder(blocks))
  {
    var k := CodeByteHasBlock(img, leaders, blocks, x);
    var keys := Elements(blocks.Keys);
    assert k in keys;
    var i :| 0 <= i < |keys| && keys[i] == k;
    assert x in Bytes(InOrder(blocks)[i]);
    AllBytesMembers(InOrder(blocks), x);
  }

  lemma ListedBytesAreCodeBytes(img: Image, leaders: set<nat>, blocks: map<nat, BasicBlock>)
    requires IsFlowGraph(img, leaders, blocks)
    ensures AllBytes(InOrder(blocks)) == CodeBytes(img, Code(blocks))
  {
    forall x | x in AllBytes(InOrder(blocks)) ensures x in CodeBytes(img, Code(blocks)) {
      ListedByteIsCodeByte(img, leaders, blocks, x);
    }
    forall x | x in CodeBytes(img, Code(blocks)) ensures x in AllBytes(InOrder(blocks)) {
      CodeByteIsListed(img, leaders, blocks, x);
    }
  }

  lemma DisjointListDisjointMap(blocks: map<nat, BasicBlock>, k: nat, l: nat)
    requires PairwiseDisjoint(InOrder(blocks)) && k in blocks && l in blocks && k < l
    ensures Bytes(blocks[k]) !! Bytes(blocks[l])
  {
    var keys := Elements(blocks.Keys);
    assert k in keys && l in keys;
    var i :| 0 <= i < |keys| && keys[i] == k;
    var j :| 0 <= j < |keys| && keys[j] == l;
    assert i < j;
    assert InOrder(blocks)[i] == blocks[k] && InOrder(blocks)[j] == blocks[l];
  }

  lemma DisjointInAnyOrder(blocks: map<nat, BasicBlock>)
    ensures PairwiseDisjoint(InOrder(blocks)) <==> DisjointBlocks(blocks)
  {
    if PairwiseDisjoint(InOrder(blocks)) {
      forall k, l | k in blocks && l in blocks && k != l
        ensures Bytes(blocks[k]) !! Bytes(blocks[l])
      {
        DisjointListDisjointMap(blocks, if k < l then k else l, if k < l then l else k);
      }
    }
    if DisjointBlocks(blocks) {
      var keys := Elements(blocks.Keys);
      forall i, j | 0 <= i < j < |keys|
        ensures Bytes(InOrder(blocks)[i]) !! Bytes(InOrder(blocks)[j])
      {
        assert keys[i] in keys && keys[j] in keys && keys[i] != keys[j];
      }
    }
  }

  /** A function's size is at least the number of its distinct code bytes, and equal to
      it exactly when no two of its instructions overlap. */
  lemma FunctionSizeCountsCode(img: Image, entry: nat)
    requires entry != 0
    ensures var code := Code(FinalBlocks(Built(img, entry)));
            && |CodeBytes(img, code)| <= FunctionAt(img, entry).size
            && (FunctionAt(img, entry).size == |CodeBytes(img, code)| <==> NoOverlap(img, code))
  {
    FinalBlocksFormFlowGraph(img, entry);
    var s := Built(img, entry);
    var f := FinalBlocks(s);
    var bs := InOrder(f);
    forall i | 0 <= i < |bs|
      ensures bs[i].size >= 0
    {
      var k := Elements(f.Keys)[i];
      assert k in Elements(f.Keys);
      assert GoodBlock(img, s.leaders, f, k);
      if f[k].instrs != [] { InstructionBytesInBlock(img, s.leaders, f[k], 0); }
    }
    SizeCountsBytes(bs);
    ListedBytesAreCodeBytes(img, s.leaders, f);
    DisjointInAnyOrder(f);
    DisjointIffNoOverlap(img, s.leaders, f);
  }
}
