/** The layered layout of a function's block graph: breadth-first layers, columns by
    address, and rectangles over real coordinates. */
module GraphLayout {

  const PADDING_X := 10.0
  const PADDING_Y := 8.0
  const HORIZONTAL_SPACING := 40.0
  const VERTICAL_SPACING := 60.0

  /** A block to be drawn; `lines` are the text widths of its lines. */
  datatype Block = Block(addr: nat, jump: nat, fail: nat, lines: seq<real>)

  datatype Box = Box(layer: int, column: int, x: real, y: real, width: real, height: real)

  // ---------- the graph ----------

  /** `j` is the block an edge to `target` leads to: the last one at that address. */
  ghost predicate LeadsTo(blocks: seq<Block>, target: nat, j: int) {
    && target != 0 && 0 <= j < |blocks| && blocks[j].addr == target
    && forall k :: j < k < |blocks| ==> blocks[k].addr != target
  }

  /** Of blocks at one address the last is meant. */
  lemma LastBlockWins(blocks: seq<Block>, target: nat, i: int, j: int)
    requires 0 <= i < j < |blocks| && blocks[j].addr == target
    ensures !LeadsTo(blocks, target, i)
  {
  }

  ghost predicate Edge(blocks: seq<Block>, i: int, j: int)
    requires 0 <= i < |blocks|
  {
    LeadsTo(blocks, blocks[i].jump, j) || LeadsTo(blocks, blocks[i].fail, j)
  }

  /** Some walk of `d` edges leads from block 0 to block `i`. */
  ghost predicate WalkOf(blocks: seq<Block>, i: int, d: nat)
    decreases d
  {
    if d == 0 then i == 0 && |blocks| > 0 else
      exists k :: 0 <= k < |blocks| && WalkOf(blocks, k, d - 1) && Edge(blocks, k, i)
  }

  ghost predicate Reachable(blocks: seq<Block>, i: int) {
    exists d: nat :: WalkOf(blocks, i, d)
  }

  ghost predicate IsDistance(blocks: seq<Block>, i: int, d: int) {
    d >= 0 && WalkOf(blocks, i, d) && forall m: nat :: WalkOf(blocks, i, m) ==> d <= m
  }

  // ---------- breadth-first layers ----------

  method FindBlock(blocks: seq<Block>, target: nat) returns (j: int)
    ensures if j >= 0 then LeadsTo(blocks, target, j) else forall k :: !LeadsTo(blocks, target, k)
  {
    if target == 0 {
      return -1;
    }
    j := -1;
    for i := 0 to |blocks|
      invariant -1 <= j < i
      invariant j >= 0 ==> blocks[j].addr == target
      invariant forall k :: 0 <= k < i && k > j ==> blocks[k].addr != target
    {
      if blocks[i].addr == target {
        j := i;
      }
    }
  }

  /** The search state: `layer` is -1 for blocks not seen, `order` the queue with all seen. */
  ghost predicate Searching(blocks: seq<Block>, layer: seq<int>, order: seq<int>) {
    && |layer| == |blocks|
    && (forall k :: 0 <= k < |order| ==> 0 <= order[k] < |blocks|)
    && (forall i :: 0 <= i < |blocks| ==> layer[i] >= -1 && (layer[i] >= 0 <==> i in order))
    && (forall i :: 0 <= i < |blocks| && layer[i] >= 0 ==> WalkOf(blocks, i, layer[i]))
    && (forall k, m :: 0 <= k < m < |order| ==> layer[order[k]] <= layer[order[m]])
  }

  ghost predicate Expanded(blocks: seq<Block>, layer: seq<int>, i: int)
    requires |layer| == |blocks| && 0 <= i < |blocks|
  {
    forall j {:trigger Edge(blocks, i, j)} :: 0 <= j < |blocks| && Edge(blocks, i, j) ==> 0 <= layer[j] <= layer[i] + 1
  }

  ghost function Unseen(layer: seq<int>): set<int> {
    set i | 0 <= i < |layer| && layer[i] == -1
  }

  lemma SeeBlock(blocks: seq<Block>, layer: seq<int>, order: seq<int>, cur: int, ti: int)
    requires Searching(blocks, layer, order) && 0 <= cur < |blocks| && layer[cur] >= 0
    requires 0 <= ti < |blocks| && layer[ti] == -1 && Edge(blocks, cur, ti)
    requires forall k :: 0 <= k < |order| ==> layer[order[k]] <= layer[cur] + 1
    ensures var layer' := layer[ti := layer[cur] + 1];
            Searching(blocks, layer', order + [ti]) && |Unseen(layer')| + 1 == |Unseen(layer)|
  {
    var layer' := layer[ti := layer[cur] + 1];
    assert Unseen(layer) == Unseen(layer') + {ti};
    assert WalkOf(blocks, ti, layer[cur] + 1);
    assert forall k :: 0 <= k < |order| ==> order[k] in order;
  }

  /** Puts the block an edge leads to, if it is new, one layer further out. */
  method Visit(blocks: seq<Block>, layer: seq<int>, order: seq<int>, cur: int, target: nat)
    returns (layer': seq<int>, order': seq<int>)
    requires Searching(blocks, layer, order) && 0 <= cur < |blocks| && layer[cur] >= 0
    requires target == blocks[cur].jump || target == blocks[cur].fail
    requires forall k :: 0 <= k < |order| ==> layer[order[k]] <= layer[cur] + 1
    ensures Searching(blocks, layer', order')
    ensures order <= order'
    ensures forall i :: 0 <= i < |blocks| && layer[i] >= 0 ==> layer'[i] == layer[i]
    ensures forall k :: 0 <= k < |order'| ==> layer'[order'[k]] <= layer[cur] + 1
    ensures forall j :: LeadsTo(blocks, target, j) ==> 0 <= layer'[j] <= layer[cur] + 1
    ensures |Unseen(layer')| + |order'| == |Unseen(layer)| + |order|
  {
    layer', order' := layer, order;
    var ti := FindBlock(blocks, target);
    if ti >= 0 {
      assert forall j :: LeadsTo(blocks, target, j) ==> j == ti;
      if layer[ti] == -1 {
        SeeBlock(blocks, layer, order, cur, ti);
        layer' := layer[ti := layer[cur] + 1];
        order' := order + [ti];
      } else {
        assert ti in order;
      }
    }
  }

  /** Visits both successors of the queue element at `head`. */
  method Expand(blocks: seq<Block>, layer: seq<int>, order: seq<int>, head: int)
    returns (layer': seq<int>, order': seq<int>)
    requires Searching(blocks, layer, order) && 0 <= head < |order|
    requires forall k :: 0 <= k < |order| ==> layer[order[k]] <= layer[order[head]] + 1
    ensures Searching(blocks, layer', order') && order <= order'
    ensures forall i :: 0 <= i < |blocks| && layer[i] >= 0 ==> layer'[i] == layer[i]
    ensures forall k :: 0 <= k < |order'| ==> layer'[order'[k]] <= layer'[order[head]] + 1
    ensures Expanded(blocks, layer', order[head])
    ensures |Unseen(layer')| + |order'| == |Unseen(layer)| + |order|
  {
    var cur := order[head];
    assert cur in order;
    layer', order' := Visit(blocks, layer, order, cur, blocks[cur].jump);
    layer', order' := Visit(blocks, layer', order', cur, blocks[cur].fail);
  }

  lemma StillExpanded(blocks: seq<Block>, layer: seq<int>, layer': seq<int>, i: int)
    requires |layer| == |layer'| == |blocks| && 0 <= i < |blocks| && layer[i] >= 0
    requires Expanded(blocks, layer, i)
    requires forall k :: 0 <= k < |blocks| && layer[k] >= 0 ==> layer'[k] == layer[k]
    ensures Expanded(blocks, layer', i)
  {
  }

  lemma {:induction false} WalksAreSeen(blocks: seq<Block>, layer: seq<int>, i: int, d: nat)
    requires |layer| == |blocks| && 0 <= i < |blocks| && layer[0] == 0
    requires forall k :: 0 <= k < |blocks| && layer[k] >= 0 ==> Expanded(blocks, layer, k)
    requires WalkOf(blocks, i, d)
    ensures 0 <= layer[i] <= d
    decreases d
  {
    if d > 0 {
      var k :| 0 <= k < |blocks| && WalkOf(blocks, k, d - 1) && Edge(blocks, k, i);
      WalksAreSeen(blocks, layer, k, d - 1);
      assert Expanded(blocks, layer, k);
    }
  }

  lemma SearchIsComplete(blocks: seq<Block>, layer: seq<int>, i: int)
    requires |layer| == |blocks| && 0 <= i < |blocks| && layer[0] == 0
    requires forall k :: 0 <= k < |blocks| && layer[k] >= 0 ==>
               Expanded(blocks, layer, k) && WalkOf(blocks, k, layer[k])
    requires layer[i] >= -1
    ensures if Reachable(blocks, i) then IsDistance(blocks, i, layer[i]) else layer[i] == -1
  {
    forall d: nat | WalkOf(blocks, i, d)
      ensures 0 <= layer[i] <= d
    {
      WalksAreSeen(blocks, layer, i, d);
    }
  }

  lemma AllStillExpanded(blocks: seq<Block>, before: seq<int>, layer: seq<int>, queue: seq<int>, head: int)
    requires Searching(blocks, before, queue) && |layer| == |blocks| && 0 <= head <= |queue|
    requires forall k :: 0 <= k < |blocks| && before[k] >= 0 ==> layer[k] == before[k]
    requires forall k :: 0 <= k < head ==> Expanded(blocks, before, queue[k])
    ensures forall k :: 0 <= k < head ==> Expanded(blocks, layer, queue[k])
  {
    forall k | 0 <= k < head
      ensures Expanded(blocks, layer, queue[k])
    {
      assert queue[k] in queue;
      StillExpanded(blocks, before, layer, queue[k]);
    }
  }

  /** With every block of the queue expanded the layers are the distances. */
  lemma SearchIsDone(blocks: seq<Block>, layer: seq<int>, order: seq<int>)
    requires blocks != [] && Searching(blocks, layer, order) && layer[0] == 0
    requires forall k :: 0 <= k < |order| ==> Expanded(blocks, layer, order[k])
    ensures forall i :: 0 <= i < |blocks| ==>
              if Reachable(blocks, i) then IsDistance(blocks, i, layer[i]) else layer[i] == -1
  {
    forall i | 0 <= i < |blocks| && layer[i] >= 0 ensures Expanded(blocks, layer, i) {
      assert i in order;
    }
    forall i | 0 <= i < |blocks|
      ensures if Reachable(blocks, i) then IsDistance(blocks, i, layer[i]) else layer[i] == -1
    {
      SearchIsComplete(blocks, layer, i);
    }
  }

  method Search(blocks: seq<Block>) returns (layer: seq<int>)
    requires blocks != []
    ensures |layer| == |blocks|
    ensures forall i :: 0 <= i < |blocks| ==>
              if Reachable(blocks, i) then IsDistance(blocks, i, layer[i]) else layer[i] == -1
  {
    layer := seq(|blocks|, _ => -1);
    layer := layer[0 := 0];
    var order := [0];
    var head := 0;
    while head < |order|
      invariant 0 <= head <= |order| && layer != [] && layer[0] == 0
      invariant Searching(blocks, layer, order)
      invariant head < |order| ==>
                  forall k :: 0 <= k < |order| ==> layer[order[k]] <= layer[order[head]] + 1
      invariant forall k :: 0 <= k < head ==> Expanded(blocks, layer, order[k])
      decreases |Unseen(layer)| + |order| - head
    {
      ghost var before, queue := layer, order;
      layer, order := Expand(blocks, layer, order, head);
      AllStillExpanded(blocks, before, layer, queue, head);
      head := head + 1;
    }
    SearchIsDone(blocks, layer, order);
  }

  // ---------- all layers ----------

  /** Reachable blocks sit at their distance; every other block has a layer of its own,
      below all reachable ones and below the unreachable ones listed before it. */
  ghost predicate Layered(blocks: seq<Block>, layer: seq<int>) {
    && |layer| == |blocks|
    && (forall i :: 0 <= i < |blocks| ==> layer[i] >= 0)
    && (forall i :: 0 <= i < |blocks| && Reachable(blocks, i) ==> IsDistance(blocks, i, layer[i]))
    && (forall i, j :: 0 <= i < |blocks| && 0 <= j < |blocks| ==>
          !Reachable(blocks, i) && (Reachable(blocks, j) || j < i) ==> layer[j] < layer[i])
  }

  method AssignLayers(blocks: seq<Block>) returns (layer: seq<int>)
    requires blocks != []
    ensures Layered(blocks, layer)
  {
    layer := Search(blocks);
    ghost var found := layer;
    var maxLayer := 0;
    for i := 0 to |layer|
      invariant maxLayer >= 0 && forall k :: 0 <= k < i ==> layer[k] <= maxLayer
    {
      if layer[i] > maxLayer {
        maxLayer := layer[i];
      }
    }
    for i := 0 to |blocks|
      invariant |layer| == |blocks| && maxLayer >= 0
      invariant forall k :: i <= k < |blocks| ==> layer[k] == found[k]
      invariant forall k :: 0 <= k < |blocks| ==> layer[k] <= maxLayer
      invariant forall k :: 0 <= k < |blocks| && found[k] != -1 ==> layer[k] == found[k]
      invariant forall k :: 0 <= k < i ==> layer[k] >= 0
      invariant forall k, m :: 0 <= k < i && 0 <= m < |blocks| ==>
                  found[k] == -1 && (found[m] != -1 || m < k) ==> layer[m] < layer[k]
    {
      if layer[i] == -1 {
        maxLayer := maxLayer + 1;
        layer := layer[i := maxLayer];
      }
    }
  }

  // ---------- columns and rectangles ----------

  function Widest(lines: seq<real>): (w: real)
    ensures w >= 0.0 && forall i :: 0 <= i < |lines| ==> lines[i] <= w
    ensures w == 0.0 || w in lines
  {
    if lines == [] then 0.0 else
      var w := Widest(lines[..|lines| - 1]);
      if w < lines[|lines| - 1] then lines[|lines| - 1] else w
  }

  function Width(b: Block): real {
    Widest(b.lines) + 2.0 * PADDING_X
  }

  ghost predicate RowSoFar(blocks: seq<Block>, layer: seq<int>, l: int, ids: seq<int>, n: int)
    requires |layer| == |blocks| && 0 <= n <= |blocks|
  {
    && (forall c :: 0 <= c < |ids| ==> 0 <= ids[c] < n && layer[ids[c]] == l)
    && (forall i :: 0 <= i < n && layer[i] == l ==> i in ids)
    && (forall c, d :: 0 <= c < d < |ids| ==> ids[c] != ids[d] && blocks[ids[c]].addr <= blocks[ids[d]].addr)
  }

  /** `ids` lists exactly the blocks of layer `l`, once each, by increasing address. */
  ghost predicate Row(blocks: seq<Block>, layer: seq<int>, l: int, ids: seq<int>)
    requires |layer| == |blocks|
  {
    RowSoFar(blocks, layer, l, ids, |blocks|)
  }

  function Inserted(ids: seq<int>, k: int, i: int): (t: seq<int>)
    requires 0 <= k <= |ids|
    ensures |t| == |ids| + 1
    ensures forall c :: 0 <= c < |t| ==> t[c] == if c < k then ids[c] else if c == k then i else ids[c - 1]
  {
    ids[..k] + [i] + ids[k..]
  }

  lemma InsertKeepsMembers(ids: seq<int>, k: int, i: int, m: int)
    requires 0 <= k <= |ids|
    ensures m in Inserted(ids, k, i) <==> m in ids || m == i
  {
    var t := Inserted(ids, k, i);
    assert t[k] == i;
    if m in ids {
      var c :| 0 <= c < |ids| && ids[c] == m;
      assert t[if c < k then c else c + 1] == m;
    }
  }

  lemma InsertKeepsOrder(blocks: seq<Block>, ids: seq<int>, i: int, k: int, c: int, d: int)
    requires 0 <= i < |blocks| && 0 <= k <= |ids| && forall c :: 0 <= c < |ids| ==> 0 <= ids[c] < i
    requires forall c, d :: 0 <= c < d < |ids| ==> ids[c] != ids[d] && blocks[ids[c]].addr <= blocks[ids[d]].addr
    requires forall m :: 0 <= m < k ==> blocks[ids[m]].addr <= blocks[i].addr
    requires k < |ids| ==> blocks[i].addr < blocks[ids[k]].addr
    requires 0 <= c < d <= |ids|
    ensures var t := Inserted(ids, k, i);
            0 <= t[c] <= i && 0 <= t[d] <= i && t[c] != t[d] && blocks[t[c]].addr <= blocks[t[d]].addr
  {
    if c == k && d > k + 1 {
      assert blocks[ids[k]].addr <= blocks[ids[d - 1]].addr;
    }
  }

  lemma InsertIntoRow(blocks: seq<Block>, layer: seq<int>, l: int, ids: seq<int>, i: int, k: int)
    requires |layer| == |blocks| && 0 <= i < |blocks| && layer[i] == l
    requires RowSoFar(blocks, layer, l, ids, i) && 0 <= k <= |ids|
    requires forall m :: 0 <= m < k ==> blocks[ids[m]].addr <= blocks[i].addr
    requires k < |ids| ==> blocks[i].addr < blocks[ids[k]].addr
    ensures RowSoFar(blocks, layer, l, Inserted(ids, k, i), i + 1)
  {
    var t := Inserted(ids, k, i);
    forall c, d | 0 <= c < d < |t|
      ensures t[c] != t[d] && 0 <= t[c] <= i && 0 <= t[d] <= i && blocks[t[c]].addr <= blocks[t[d]].addr
    {
      InsertKeepsOrder(blocks, ids, i, k, c, d);
    }
    forall m | 0 <= m <= i && layer[m] == l ensures m in t {
      InsertKeepsMembers(ids, k, i, m);
    }
  }

  /** Behind all blocks of the row at or below the address of block `i`. */
  method InsertionPoint(blocks: seq<Block>, ids: seq<int>, i: int) returns (k: int)
    requires 0 <= i < |blocks| && forall c :: 0 <= c < |ids| ==> 0 <= ids[c] < |blocks|
    ensures 0 <= k <= |ids|
    ensures forall m :: 0 <= m < k ==> blocks[ids[m]].addr <= blocks[i].addr
    ensures k < |ids| ==> blocks[i].addr < blocks[ids[k]].addr
  {
    k := 0;
    while k < |ids| && blocks[ids[k]].addr <= blocks[i].addr
      invariant 0 <= k <= |ids|
      invariant forall m :: 0 <= m < k ==> blocks[ids[m]].addr <= blocks[i].addr
    {
      k := k + 1;
    }
  }

  /** The blocks of one layer, ordered by address. */
  method BlocksOfLayer(blocks: seq<Block>, layer: seq<int>, l: int) returns (ids: seq<int>)
    requires |layer| == |blocks|
    ensures Row(blocks, layer, l, ids)
  {
    ids := [];
    for i := 0 to |blocks|
      invariant RowSoFar(blocks, layer, l, ids, i)
    {
      if layer[i] == l {
        var k := InsertionPoint(blocks, ids, i);
        InsertIntoRow(blocks, layer, l, ids, i, k);
        ids := Inserted(ids, k, i);
      }
    }
  }

  /** The total width of the first `n` blocks of a row, each with the gap after it. */
  ghost function Extent(blocks: seq<Block>, ids: seq<int>, n: nat): real
    requires n <= |ids| && forall c :: 0 <= c < |ids| ==> 0 <= ids[c] < |blocks|
  {
    if n == 0 then 0.0 else Extent(blocks, ids, n - 1) + Width(blocks[ids[n - 1]]) + HORIZONTAL_SPACING
  }

  /** Where box `c` of a row starts: the boxes before it and their gaps, the whole row
      being centred around 0. */
  ghost function StartOf(blocks: seq<Block>, ids: seq<int>, c: nat): real
    requires c <= |ids| && forall d :: 0 <= d < |ids| ==> 0 <= ids[d] < |blocks|
  {
    Extent(blocks, ids, c) - (Extent(blocks, ids, |ids|) - HORIZONTAL_SPACING) / 2.0
  }

  lemma StartOfNext(blocks: seq<Block>, ids: seq<int>, c: nat)
    requires c < |ids| && forall d :: 0 <= d < |ids| ==> 0 <= ids[d] < |blocks|
    ensures StartOf(blocks, ids, c + 1) ==
            StartOf(blocks, ids, c) + Width(blocks[ids[c]]) + HORIZONTAL_SPACING
  {
  }

  ghost predicate PlacedAt(box: Box, column: int, x: real, y: real) {
    box.column == column && box.x == x && box.y == y
  }

  ghost predicate RowPlaced(blocks: seq<Block>, boxes: seq<Box>, ids: seq<int>, y: real)
    requires |boxes| == |blocks| && forall c :: 0 <= c < |ids| ==> 0 <= ids[c] < |blocks|
  {
    forall c :: 0 <= c < |ids| ==> PlacedAt(boxes[ids[c]], c, StartOf(blocks, ids, c), y)
  }

  method RowWidth(blocks: seq<Block>, ids: seq<int>) returns (totalWidth: real)
    requires forall c :: 0 <= c < |ids| ==> 0 <= ids[c] < |blocks|
    ensures ids != [] ==> -totalWidth / 2.0 == StartOf(blocks, ids, 0)
  {
    totalWidth := 0.0;
    for c := 0 to |ids|
      invariant totalWidth == Extent(blocks, ids, c) - HORIZONTAL_SPACING * c as real
    {
      totalWidth := totalWidth + Width(blocks[ids[c]]);
    }
    totalWidth := totalWidth + HORIZONTAL_SPACING * (if |ids| > 0 then |ids| - 1 else 0) as real;
  }

  ghost predicate SameSize(a: Box, b: Box) {
    a.layer == b.layer && a.width == b.width && a.height == b.height
  }

  method PlaceRow(blocks: seq<Block>, ids: seq<int>, y: real, boxes: seq<Box>) returns (out: seq<Box>)
    requires |boxes| == |blocks| && forall c :: 0 <= c < |ids| ==> 0 <= ids[c] < |blocks|
    requires forall c, d :: 0 <= c < d < |ids| ==> ids[c] != ids[d]
    ensures |out| == |boxes| && RowPlaced(blocks, out, ids, y)
    ensures forall i :: 0 <= i < |boxes| ==> SameSize(out[i], boxes[i])
    ensures forall i :: 0 <= i < |boxes| && i !in ids ==> out[i] == boxes[i]
  {
    out := boxes;
    var totalWidth := RowWidth(blocks, ids);
    var x := -totalWidth / 2.0;
    for c := 0 to |ids|
      invariant |out| == |boxes|
      invariant ids != [] ==> x == StartOf(blocks, ids, c)
      invariant forall d :: 0 <= d < c ==> PlacedAt(out[ids[d]], d, StartOf(blocks, ids, d), y)
      invariant forall i :: 0 <= i < |boxes| ==> SameSize(out[i], boxes[i])
      invariant forall i :: 0 <= i < |boxes| && i !in ids ==> out[i] == boxes[i]
    {
      var id := ids[c];
      assert id in ids;
      StartOfNext(blocks, ids, c);
      out := out[id := out[id].(column := c, x := x, y := y)];
      x := x + Width(blocks[id]) + HORIZONTAL_SPACING;
    }
  }

  lemma {:induction false} ExtentGrows(blocks: seq<Block>, ids: seq<int>, c: nat, d: nat)
    requires c < d <= |ids| && forall k :: 0 <= k < |ids| ==> 0 <= ids[k] < |blocks|
    ensures Extent(blocks, ids, c) + Width(blocks[ids[c]]) + HORIZONTAL_SPACING <= Extent(blocks, ids, d)
    decreases d
  {
    if c + 1 < d {
      ExtentGrows(blocks, ids, c, d - 1);
    }
  }

  // ---------- the whole layout ----------

  function Height(b: Block, lineHeight: real): real {
    lineHeight * |b.lines| as real + 2.0 * PADDING_Y
  }

  /** A box is the widest of its lines and ten units either side. */
  lemma WidthIsWidestLine(b: Block)
    ensures Width(b) >= 20.0 && forall i :: 0 <= i < |b.lines| ==> b.lines[i] + 20.0 <= Width(b)
    ensures Width(b) == 20.0 || exists i :: 0 <= i < |b.lines| && b.lines[i] + 20.0 == Width(b)
  {
  }

  /** A box is sixteen units high without text, and one line height more for each line. */
  lemma HeightGrowsByLine(b: Block, lineHeight: real, line: real)
    ensures Height(b.(lines := []), lineHeight) == 16.0
    ensures Height(b.(lines := b.lines + [line]), lineHeight) == Height(b, lineHeight) + lineHeight
  {
    assert lineHeight * (|b.lines| + 1) as real == lineHeight * |b.lines| as real + lineHeight;
  }

  /** Sizes come from the text, layers from the search. */
  ghost predicate Sized(blocks: seq<Block>, layer: seq<int>, lineHeight: real, boxes: seq<Box>) {
    && |boxes| == |layer| == |blocks|
    && forall i :: 0 <= i < |boxes| ==>
         && boxes[i].layer == layer[i] && boxes[i].width == Width(blocks[i])
         && boxes[i].height == Height(blocks[i], lineHeight)
  }

  /** `h` is the height of the tallest box of the layer, or 0 if it has none. */
  ghost predicate IsRowHeight(boxes: seq<Box>, l: int, h: real) {
    && h >= 0.0
    && (forall i :: 0 <= i < |boxes| && boxes[i].layer == l ==> boxes[i].height <= h)
    && (h == 0.0 || exists i :: 0 <= i < |boxes| && boxes[i].layer == l && boxes[i].height == h)
  }

  ghost predicate StackedAt(boxes: seq<Box>, layerY: seq<real>, l: int)
    requires 0 <= l < |layerY| - 1
  {
    IsRowHeight(boxes, l, layerY[l + 1] - 60.0 - layerY[l])
  }

  /** Rows are stacked from 0 on, each exactly one gap below the tallest box of the one
      above, down to the last layer there is. */
  ghost predicate Stacked(boxes: seq<Box>, layerY: seq<real>) {
    && layerY != [] && layerY[0] == 0.0
    && (forall i :: 0 <= i < |boxes| ==> 0 <= boxes[i].layer < |layerY|)
    && (exists i :: 0 <= i < |boxes| && boxes[i].layer == |layerY| - 1)
    && forall l :: 0 <= l < |layerY| - 1 ==> StackedAt(boxes, layerY, l)
  }

  lemma {:induction false} StackedRowsAreApart(boxes: seq<Box>, layerY: seq<real>, l: int, m: int, i: int)
    requires Stacked(boxes, layerY) && 0 <= l < m < |layerY| && 0 <= i < |boxes| && boxes[i].layer == l
    ensures layerY[l] + boxes[i].height + 60.0 <= layerY[m]
    decreases m
  {
    assert StackedAt(boxes, layerY, m - 1);
    if l < m - 1 {
      StackedRowsAreApart(boxes, layerY, l, m - 1, i);
    }
  }

  method RowHeight(boxes: seq<Box>, l: int) returns (h: real)
    ensures IsRowHeight(boxes, l, h)
  {
    h := 0.0;
    for i := 0 to |boxes|
      invariant h >= 0.0 && forall k :: 0 <= k < i && boxes[k].layer == l ==> boxes[k].height <= h
      invariant h == 0.0 || exists k :: 0 <= k < i && boxes[k].layer == l && boxes[k].height == h
    {
      if boxes[i].layer == l && h < boxes[i].height {
        h := boxes[i].height;
      }
    }
  }

  method LastLayer(boxes: seq<Box>) returns (last: int)
    requires boxes != [] && forall i :: 0 <= i < |boxes| ==> boxes[i].layer >= 0
    ensures forall i :: 0 <= i < |boxes| ==> boxes[i].layer <= last
    ensures exists i :: 0 <= i < |boxes| && boxes[i].layer == last
  {
    last := 0;
    for i := 0 to |boxes|
      invariant last >= 0 && forall k :: 0 <= k < i ==> boxes[k].layer <= last
      invariant i == 0 || exists k :: 0 <= k < i && boxes[k].layer == last
      invariant i == 0 ==> last == 0
    {
      if last < boxes[i].layer {
        last := boxes[i].layer;
      }
      assert i == 0 ==> boxes[i].layer == last;
    }
  }

  method PlaceLayers(boxes: seq<Box>) returns (layerY: seq<real>)
    requires boxes != [] && forall i :: 0 <= i < |boxes| ==> boxes[i].layer >= 0
    ensures Stacked(boxes, layerY)
  {
    var lastLayer := LastLayer(boxes);
    layerY := [];
    var y := 0.0;
    for l := 0 to lastLayer + 1
      invariant |layerY| == l
      invariant if l == 0 then y == 0.0 else
                  layerY[0] == 0.0 && IsRowHeight(boxes, l - 1, y - VERTICAL_SPACING - layerY[l - 1])
      invariant forall m :: 0 <= m < l - 1 ==> StackedAt(boxes, layerY, m)
    {
      ghost var above := layerY;
      layerY := layerY + [y];
      forall m | 0 <= m < l ensures StackedAt(boxes, layerY, m) {
        assert m < l - 1 ==> StackedAt(boxes, above, m);
      }
      var rowHeight := RowHeight(boxes, l);
      y := y + rowHeight + VERTICAL_SPACING;
      assert y - VERTICAL_SPACING - layerY[l] == rowHeight;
    }
  }

  /** Boxes of one layer stand side by side in address order, at least one gap apart. */
  ghost predicate SideBySide(blocks: seq<Block>, boxes: seq<Box>, i: int, j: int)
    requires |boxes| == |blocks| && 0 <= i < |blocks| && 0 <= j < |blocks|
  {
    && boxes[i].y == boxes[j].y && boxes[i].column != boxes[j].column
    && (boxes[i].column < boxes[j].column ==>
          && blocks[i].addr <= blocks[j].addr
          && boxes[i].x + boxes[i].width + 40.0 <= boxes[j].x)
  }

  /** The boxes of layer `l` form one row at height `y`, in address order. */
  ghost predicate LayerPlaced(blocks: seq<Block>, layer: seq<int>, boxes: seq<Box>, l: int, y: real)
    requires |boxes| == |layer| == |blocks|
  {
    exists ids :: Row(blocks, layer, l, ids) && RowPlaced(blocks, boxes, ids, y)
  }

  lemma BoxesOfRow(blocks: seq<Block>, layer: seq<int>, boxes: seq<Box>, ids: seq<int>, l: int, y: real, i: int, j: int)
    requires |boxes| == |layer| == |blocks| && Row(blocks, layer, l, ids) && RowPlaced(blocks, boxes, ids, y)
    requires forall k :: 0 <= k < |blocks| ==> boxes[k].width == Width(blocks[k])
    requires 0 <= i < |blocks| && 0 <= j < |blocks| && layer[i] == l && layer[j] == l
    ensures boxes[i].y == y && (i != j ==> SideBySide(blocks, boxes, i, j))
  {
    assert i in ids && j in ids;
    var c :| 0 <= c < |ids| && ids[c] == i;
    var d :| 0 <= d < |ids| && ids[d] == j;
    assert PlacedAt(boxes[ids[c]], c, StartOf(blocks, ids, c), y);
    assert PlacedAt(boxes[ids[d]], d, StartOf(blocks, ids, d), y);
    if c < d { ExtentGrows(blocks, ids, c, d); }
  }

  /** Neighbours in a row stand exactly one gap apart, and the row is centred around x = 0. */
  lemma RowIsCentred(blocks: seq<Block>, boxes: seq<Box>, ids: seq<int>, y: real)
    requires |boxes| == |blocks| && ids != [] && forall d :: 0 <= d < |ids| ==> 0 <= ids[d] < |blocks|
    requires RowPlaced(blocks, boxes, ids, y) && forall k :: 0 <= k < |blocks| ==> boxes[k].width == Width(blocks[k])
    ensures forall c :: 0 <= c < |ids| - 1 ==>
              boxes[ids[c + 1]].x == boxes[ids[c]].x + boxes[ids[c]].width + 40.0
    ensures var first, last := boxes[ids[0]], boxes[ids[|ids| - 1]];
            first.x == -(last.x + last.width)
  {
    var n := |ids| - 1;
    assert PlacedAt(boxes[ids[0]], 0, StartOf(blocks, ids, 0), y);
    assert PlacedAt(boxes[ids[n]], n, StartOf(blocks, ids, n), y);
    assert Extent(blocks, ids, |ids|) == Extent(blocks, ids, n) + Width(blocks[ids[n]]) + HORIZONTAL_SPACING;
    forall c | 0 <= c < n
      ensures boxes[ids[c + 1]].x == boxes[ids[c]].x + boxes[ids[c]].width + HORIZONTAL_SPACING
    {
      assert PlacedAt(boxes[ids[c]], c, StartOf(blocks, ids, c), y);
      assert PlacedAt(boxes[ids[c + 1]], c + 1, StartOf(blocks, ids, c + 1), y);
      StartOfNext(blocks, ids, c);
    }
  }

  /** The rectangles of two boxes share no area. */
  ghost predicate Apart(a: Box, b: Box) {
    || a.x + a.width < b.x || b.x + b.width < a.x
    || a.y + a.height < b.y || b.y + b.height < a.y
  }

  lemma OtherLayersStay(blocks: seq<Block>, layer: seq<int>, before: seq<Box>, boxes: seq<Box>,
                        ids: seq<int>, l: int, m: int, y: real)
    requires |before| == |boxes| == |layer| == |blocks| && Row(blocks, layer, l, ids) && m != l
    requires forall i :: 0 <= i < |boxes| && i !in ids ==> boxes[i] == before[i]
    requires LayerPlaced(blocks, layer, before, m, y)
    ensures LayerPlaced(blocks, layer, boxes, m, y)
  {
    var row :| Row(blocks, layer, m, row) && RowPlaced(blocks, before, row, y);
    forall c | 0 <= c < |row|
      ensures PlacedAt(boxes[row[c]], c, StartOf(blocks, row, c), y)
    {
      assert row[c] !in ids;
      assert PlacedAt(before[row[c]], c, StartOf(blocks, row, c), y);
    }
  }

  /** The first `n` layers are placed. */
  ghost predicate LayersPlaced(blocks: seq<Block>, layer: seq<int>, boxes: seq<Box>, layerY: seq<real>, n: nat)
    requires |boxes| == |layer| == |blocks| && n <= |layerY|
  {
    n == 0 || (LayersPlaced(blocks, layer, boxes, layerY, n - 1) && LayerPlaced(blocks, layer, boxes, n - 1, layerY[n - 1]))
  }

  lemma {:induction false} PlacedLayer(blocks: seq<Block>, layer: seq<int>, boxes: seq<Box>, layerY: seq<real>, n: nat, l: int)
    requires |boxes| == |layer| == |blocks| && 0 <= l < n <= |layerY| && LayersPlaced(blocks, layer, boxes, layerY, n)
    ensures LayerPlaced(blocks, layer, boxes, l, layerY[l])
  {
    if l < n - 1 {
      PlacedLayer(blocks, layer, boxes, layerY, n - 1, l);
    }
  }

  lemma {:induction false} LayersStay(blocks: seq<Block>, layer: seq<int>, before: seq<Box>, boxes: seq<Box>,
                                      ids: seq<int>, l: int, layerY: seq<real>, n: nat)
    requires |before| == |boxes| == |layer| == |blocks| && Row(blocks, layer, l, ids) && n <= l <= |layerY|
    requires forall i :: 0 <= i < |boxes| && i !in ids ==> boxes[i] == before[i]
    requires LayersPlaced(blocks, layer, before, layerY, n)
    ensures LayersPlaced(blocks, layer, boxes, layerY, n)
  {
    if n > 0 {
      LayersStay(blocks, layer, before, boxes, ids, l, layerY, n - 1);
      OtherLayersStay(blocks, layer, before, boxes, ids, l, n - 1, layerY[n - 1]);
    }
  }

  lemma RowIsLayer(blocks: seq<Block>, layer: seq<int>, boxes: seq<Box>, ids: seq<int>, l: int, y: real)
    requires |boxes| == |layer| == |blocks| && Row(blocks, layer, l, ids) && RowPlaced(blocks, boxes, ids, y)
    ensures LayerPlaced(blocks, layer, boxes, l, y)
  {
  }

  lemma OneMoreRow(blocks: seq<Block>, layer: seq<int>, before: seq<Box>, boxes: seq<Box>,
                   ids: seq<int>, l: int, layerY: seq<real>)
    requires |before| == |boxes| == |layer| == |blocks| && 0 <= l < |layerY| && Row(blocks, layer, l, ids)
    requires RowPlaced(blocks, boxes, ids, layerY[l])
    requires forall i :: 0 <= i < |boxes| && i !in ids ==> boxes[i] == before[i]
    requires LayersPlaced(blocks, layer, before, layerY, l)
    ensures LayersPlaced(blocks, layer, boxes, layerY, l + 1)
  {
    RowIsLayer(blocks, layer, boxes, ids, l, layerY[l]);
    LayersStay(blocks, layer, before, boxes, ids, l, layerY, l);
  }

  lemma SizesStay(blocks: seq<Block>, layer: seq<int>, lineHeight: real, before: seq<Box>, boxes: seq<Box>)
    requires Sized(blocks, layer, lineHeight, before) && |boxes| == |before|
    requires forall i :: 0 <= i < |boxes| ==> SameSize(boxes[i], before[i])
    ensures Sized(blocks, layer, lineHeight, boxes)
  {
  }

  /** Assigns columns and positions, one layer after the other. */
  method PlaceRows(blocks: seq<Block>, layer: seq<int>, lineHeight: real, sized: seq<Box>, layerY: seq<real>)
    returns (boxes: seq<Box>)
    requires Sized(blocks, layer, lineHeight, sized)
    ensures Sized(blocks, layer, lineHeight, boxes) && LayersPlaced(blocks, layer, boxes, layerY, |layerY|)
  {
    boxes := sized;
    for l := 0 to |layerY|
      invariant Sized(blocks, layer, lineHeight, boxes) && LayersPlaced(blocks, layer, boxes, layerY, l)
    {
      var ids := BlocksOfLayer(blocks, layer, l);
      ghost var before := boxes;
      boxes := PlaceRow(blocks, ids, layerY[l], boxes);
      OneMoreRow(blocks, layer, before, boxes, ids, l, layerY);
      SizesStay(blocks, layer, lineHeight, before, boxes);
    }
  }

  function LayersOf(boxes: seq<Box>): seq<int> {
    seq(|boxes|, i requires 0 <= i < |boxes| => boxes[i].layer)
  }

  lemma LayersAreKept(blocks: seq<Block>, layer: seq<int>, lineHeight: real, boxes: seq<Box>)
    requires Sized(blocks, layer, lineHeight, boxes)
    ensures LayersOf(boxes) == layer
  {
  }

  /** Every box is where its layer and its place in the row put it. */
  ghost predicate Positioned(blocks: seq<Block>, boxes: seq<Box>, layerY: seq<real>)
    requires |boxes| == |blocks|
  {
    && Stacked(boxes, layerY)
    && LayersPlaced(blocks, LayersOf(boxes), boxes, layerY, |layerY|)
  }

  ghost predicate WellPlacedPair(blocks: seq<Block>, boxes: seq<Box>, i: int, j: int)
    requires |boxes| == |blocks| && 0 <= i < |blocks| && 0 <= j < |blocks|
  {
    && Apart(boxes[i], boxes[j])
    && (boxes[i].layer == boxes[j].layer ==> SideBySide(blocks, boxes, i, j))
    && (boxes[i].layer < boxes[j].layer ==> boxes[i].y + boxes[i].height + 60.0 <= boxes[j].y)
  }

  /** Boxes of one layer stand side by side, boxes of different layers one above the
      other, and no two overlap. */
  ghost predicate WellPlaced(blocks: seq<Block>, boxes: seq<Box>)
    requires |boxes| == |blocks|
  {
    forall i, j :: 0 <= i < |boxes| && 0 <= j < |boxes| && i != j ==> WellPlacedPair(blocks, boxes, i, j)
  }

  lemma StackedBySize(boxes: seq<Box>, boxes': seq<Box>, layerY: seq<real>)
    requires Stacked(boxes, layerY) && |boxes| == |boxes'|
    requires forall i :: 0 <= i < |boxes| ==> SameSize(boxes'[i], boxes[i])
    ensures Stacked(boxes', layerY)
  {
    var last :| 0 <= last < |boxes| && boxes[last].layer == |layerY| - 1;
    assert SameSize(boxes'[last], boxes[last]);
    forall l | 0 <= l < |layerY| - 1 ensures StackedAt(boxes', layerY, l) {
      assert StackedAt(boxes, layerY, l);
      var h := layerY[l + 1] - VERTICAL_SPACING - layerY[l];
      if h != 0.0 {
        var i :| 0 <= i < |boxes| && boxes[i].layer == l && boxes[i].height == h;
        assert SameSize(boxes'[i], boxes[i]);
      }
    }
  }

  lemma YOfLayer(blocks: seq<Block>, boxes: seq<Box>, lineHeight: real, layerY: seq<real>, i: int, j: int)
    requires Sized(blocks, LayersOf(boxes), lineHeight, boxes) && Positioned(blocks, boxes, layerY)
    requires 0 <= i < |boxes| && 0 <= j < |boxes| && boxes[i].layer == boxes[j].layer
    ensures boxes[i].y == layerY[boxes[i].layer] && (i != j ==> SideBySide(blocks, boxes, i, j))
  {
    var l := boxes[i].layer;
    PlacedLayer(blocks, LayersOf(boxes), boxes, layerY, |layerY|, l);
    var ids :| Row(blocks, LayersOf(boxes), l, ids) && RowPlaced(blocks, boxes, ids, layerY[l]);
    BoxesOfRow(blocks, LayersOf(boxes), boxes, ids, l, layerY[l], i, j);
  }

  lemma LowerLayerIsBelow(blocks: seq<Block>, boxes: seq<Box>, lineHeight: real, layerY: seq<real>, i: int, j: int)
    requires Sized(blocks, LayersOf(boxes), lineHeight, boxes) && Positioned(blocks, boxes, layerY)
    requires 0 <= i < |boxes| && 0 <= j < |boxes| && boxes[i].layer < boxes[j].layer
    ensures boxes[i].y + boxes[i].height + VERTICAL_SPACING <= boxes[j].y
  {
    YOfLayer(blocks, boxes, lineHeight, layerY, i, i);
    YOfLayer(blocks, boxes, lineHeight, layerY, j, j);
    StackedRowsAreApart(boxes, layerY, boxes[i].layer, boxes[j].layer, i);
  }

  lemma PairIsWellPlaced(blocks: seq<Block>, boxes: seq<Box>, lineHeight: real, layerY: seq<real>, i: int, j: int)
    requires lineHeight >= 0.0
    requires Sized(blocks, LayersOf(boxes), lineHeight, boxes) && Positioned(blocks, boxes, layerY)
    requires 0 <= i < |boxes| && 0 <= j < |boxes| && i != j
    ensures WellPlacedPair(blocks, boxes, i, j)
  {
    if boxes[i].layer == boxes[j].layer {
      YOfLayer(blocks, boxes, lineHeight, layerY, i, j);
      YOfLayer(blocks, boxes, lineHeight, layerY, j, i);
    } else if boxes[i].layer < boxes[j].layer {
      LowerLayerIsBelow(blocks, boxes, lineHeight, layerY, i, j);
    } else {
      LowerLayerIsBelow(blocks, boxes, lineHeight, layerY, j, i);
    }
  }

  /** Exact positions keep the boxes apart. */
  lemma PositionedIsWellPlaced(blocks: seq<Block>, boxes: seq<Box>, lineHeight: real, layerY: seq<real>)
    requires lineHeight >= 0.0
    requires Sized(blocks, LayersOf(boxes), lineHeight, boxes) && Positioned(blocks, boxes, layerY)
    ensures WellPlaced(blocks, boxes)
  {
    forall i, j | 0 <= i < |boxes| && 0 <= j < |boxes| && i != j
      ensures WellPlacedPair(blocks, boxes, i, j)
    {
      PairIsWellPlaced(blocks, boxes, lineHeight, layerY, i, j);
    }
  }

  lemma PlacedIsPositioned(blocks: seq<Block>, layer: seq<int>, lineHeight: real, sized: seq<Box>, boxes: seq<Box>,
                           layerY: seq<real>)
    requires Sized(blocks, layer, lineHeight, sized) && Sized(blocks, layer, lineHeight, boxes)
    requires Stacked(sized, layerY) && LayersPlaced(blocks, layer, boxes, layerY, |layerY|)
    ensures Positioned(blocks, boxes, layerY)
  {
    StackedBySize(sized, boxes, layerY);
    LayersAreKept(blocks, layer, lineHeight, boxes);
  }

  /** Lays out the blocks of a function. */
  method Layout(blocks: seq<Block>, lineHeight: real) returns (boxes: seq<Box>)
    requires lineHeight >= 0.0
    ensures |boxes| == |blocks|
    ensures blocks != [] ==> Layered(blocks, LayersOf(boxes))
    ensures Sized(blocks, LayersOf(boxes), lineHeight, boxes)
    ensures blocks != [] ==> exists layerY :: Positioned(blocks, boxes, layerY)
    ensures WellPlaced(blocks, boxes)
  {
    if blocks == [] {
      return [];
    }
    var layer := AssignLayers(blocks);
    var sized := seq(|blocks|, i requires 0 <= i < |blocks| && |layer| == |blocks| =>
      Box(layer[i], 0, 0.0, 0.0, Width(blocks[i]), Height(blocks[i], lineHeight)));
    var layerY := PlaceLayers(sized);
    boxes := PlaceRows(blocks, layer, lineHeight, sized, layerY);
    LayersAreKept(blocks, layer, lineHeight, boxes);
    PlacedIsPositioned(blocks, layer, lineHeight, sized, boxes, layerY);
    PositionedIsWellPlaced(blocks, boxes, lineHeight, layerY);
  }
}
