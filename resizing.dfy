/**
 * Corner-handle resizing of src/block.rs (`handle_blocks_resizing`): the resized block keeps its
 * centre and aspect ratio, and when it is chained every other chained block takes its new height.
 */
module Resizing {
  import opened Wrappers
  import opened Constants
  import opened Geometry
  import opened Blocks

  datatype ResizeHandle = TopLeft | TopRight | BottomLeft | BottomRight

  /** The state of a resize gesture, captured when the secondary button went down. */
  datatype InteractionState = InteractionState(
    id: Id, handle: ResizeHandle, initialMouse: Vec2, initialRect: Rect)

  /** -1 for the handles on the left edge, +1 for those on the right. */
  function XSign(h: ResizeHandle): real {
    match h
    case TopLeft => -1.0
    case BottomLeft => -1.0
    case _ => 1.0
  }

  /** -1 for the handles on the top edge, +1 for those at the bottom. */
  function YSign(h: ResizeHandle): real {
    match h
    case TopLeft => -1.0
    case TopRight => -1.0
    case _ => 1.0
  }

  /** The pointer movement since the gesture began, in world units. */
  function WorldDelta(st: InteractionState, mouse: Vec2, zoom: real): Vec2
    requires zoom != 0.0
  {
    Vec2((mouse.x - st.initialMouse.x) / zoom, (mouse.y - st.initialMouse.y) / zoom)
  }

  /** The width a chained block takes at a given height: from its own aspect ratio, at least MIN_BLOCK_SIZE. */
  function ChainedWidth(height: real, aspect: real): (w: real)
    ensures w >= MIN_BLOCK_SIZE && w >= height * aspect
    ensures w == height * aspect || w == MIN_BLOCK_SIZE
  {
    RMax(height * aspect, MIN_BLOCK_SIZE)
  }

  /**
   * The resized block's new image width: from the x movement when it dominates, otherwise from the
   * y movement through the aspect ratio; never below MIN_BLOCK_SIZE.
   */
  function LeaderWidth(st: InteractionState, delta: Vec2, aspect: real): (w: real)
    ensures w >= MIN_BLOCK_SIZE
  {
    var halfWidth := (st.initialRect.Width() - BLOCK_PADDING * 2.0) * 0.5;
    var halfHeight := (st.initialRect.Height() - BLOCK_PADDING * 2.0) * 0.5;
    var widthFromX := RMax(2.0 * RAbs(halfWidth * XSign(st.handle) + delta.x), MIN_BLOCK_SIZE);
    var widthFromY := ChainedWidth(2.0 * RAbs(halfHeight * YSign(st.handle) + delta.y), aspect);
    var w := if RAbs(delta.x) >= RAbs(delta.y) then widthFromX else widthFromY;
    RMax(w, MIN_BLOCK_SIZE)
  }

  /**
   * The dominant axis decides: a mostly horizontal drag sets the width to twice the distance from the
   * centre to the dragged corner's new x; a mostly vertical one sets the height the same way and derives
   * the width through the aspect ratio.
   */
  lemma LeaderWidthCases(st: InteractionState, delta: Vec2, aspect: real)
    ensures RAbs(delta.x) >= RAbs(delta.y) ==>
              LeaderWidth(st, delta, aspect) ==
              RMax(2.0 * RAbs((st.initialRect.Width() - 2.0 * BLOCK_PADDING) * 0.5 * XSign(st.handle) + delta.x),
                   MIN_BLOCK_SIZE)
    ensures RAbs(delta.x) < RAbs(delta.y) ==>
              LeaderWidth(st, delta, aspect) ==
              ChainedWidth(2.0 * RAbs((st.initialRect.Height() - 2.0 * BLOCK_PADDING) * 0.5 * YSign(st.handle) + delta.y),
                           aspect)
  {
  }

  /** A block given a new image size and re-centred on `center`; the size becomes its preferred size. */
  function Recentred(b: ImageBlock, center: Vec2, size: Vec2): ImageBlock {
    var outer := Vec2(size.x + BLOCK_PADDING * 2.0, size.y + BLOCK_PADDING * 2.0);
    SetPreferredSize(b.(pos := RectFromCenterSize(center, outer).min), size)
  }

  /** A re-centred block: only its geometry changes, it has the given size and it is centred on `center`. */
  lemma RecentredFacts(b: ImageBlock, center: Vec2, size: Vec2)
    ensures var r := Recentred(b, center, size);
            r == b.(pos := r.pos, imageSize := size, preferred := size) &&
            BlockRect(r).Center() == center
  {
  }

  /** The block under the handle after the gesture. */
  function LeaderResized(b: ImageBlock, st: InteractionState, delta: Vec2): ImageBlock
    requires b.aspect != 0.0
  {
    var w := LeaderWidth(st, delta, b.aspect);
    Recentred(b, st.initialRect.Center(), Vec2(w, w / b.aspect))
  }

  /** Another chained block: the leader's height, its own aspect ratio, its own centre. */
  function FollowerResized(b: ImageBlock, height: real): ImageBlock {
    Recentred(b, BlockRect(b).Center(), Vec2(ChainedWidth(height, b.aspect), height))
  }

  /** The first block with the gesture's id can be divided by its aspect ratio. */
  predicate LeaderHasAspect(bs: seq<ImageBlock>, id: Id) {
    match BlockIndexInSlice(bs, id)
    case None => true
    case Some(i) => bs[i].aspect != 0.0
  }

  /** Two blocks that differ at most in position, current size and preferred size. */
  predicate SameButGeometry(a: ImageBlock, b: ImageBlock) {
    a.(pos := b.pos, imageSize := b.imageSize, preferred := b.preferred) == b
  }

  /** Block `i` after the gesture, given the resized leader and whether the chain follows it. */
  function ResizedAt(bs: seq<ImageBlock>, idx: nat, leader: ImageBlock, propagate: bool, i: nat): ImageBlock
    requires i < |bs|
  {
    if i == idx then leader
    else if propagate && bs[i].chained then FollowerResized(bs[i], leader.imageSize.y)
    else bs[i]
  }

  /** The blocks after one pointer move of a resize gesture. */
  function Resized(bs: seq<ImageBlock>, st: InteractionState, mouse: Vec2, zoom: real): (r: seq<ImageBlock>)
    requires zoom != 0.0 && LeaderHasAspect(bs, st.id)
    ensures |r| == |bs|
    ensures BlockIndexInSlice(bs, st.id).None? ==> r == bs
  {
    match BlockIndexInSlice(bs, st.id)
    case None => bs
    case Some(idx) =>
      var leader := LeaderResized(bs[idx], st, WorldDelta(st, mouse, zoom));
      var propagate := leader.chained && CountChained(bs[idx := leader]) > 1;
      seq(|bs|, i requires 0 <= i < |bs| => ResizedAt(bs, idx, leader, propagate, i))
  }

  /** Whether the gesture on block `idx` carries the other chained blocks along. */
  predicate Propagates(bs: seq<ImageBlock>, idx: nat)
    requires idx < |bs|
  {
    bs[idx].chained && CountChained(bs) > 1
  }

  /** Each block of the result, stated against the chained count of the blocks before the gesture. */
  lemma ResizedElements(bs: seq<ImageBlock>, st: InteractionState, mouse: Vec2, zoom: real, idx: nat)
    requires zoom != 0.0 && LeaderHasAspect(bs, st.id)
    requires BlockIndexInSlice(bs, st.id) == Some(idx)
    ensures forall i :: 0 <= i < |bs| ==>
              Resized(bs, st, mouse, zoom)[i] ==
              ResizedAt(bs, idx, LeaderResized(bs[idx], st, WorldDelta(st, mouse, zoom)), Propagates(bs, idx), i)
  {
    CountChainedUpdate(bs, idx, LeaderResized(bs[idx], st, WorldDelta(st, mouse, zoom)));
  }

  /** Those not under the handle and not carried along by the chain are left exactly as they were. */
  lemma ResizeUntouched(bs: seq<ImageBlock>, st: InteractionState, mouse: Vec2, zoom: real, idx: nat, j: nat)
    requires zoom != 0.0 && LeaderHasAspect(bs, st.id)
    requires BlockIndexInSlice(bs, st.id) == Some(idx)
    requires j < |bs| && j != idx && !(Propagates(bs, idx) && bs[j].chained)
    ensures Resized(bs, st, mouse, zoom)[j] == bs[j]
  {
    ResizedElements(bs, st, mouse, zoom, idx);
  }

  /**
   * With the leader chained and more than one chained block, every other chained block takes the
   * leader's new height, is at least MIN_BLOCK_SIZE wide, keeps its own aspect ratio unless clamped,
   * keeps its centre, and gets the new size as its preferred size.
   */
  lemma ResizeFollower(bs: seq<ImageBlock>, st: InteractionState, mouse: Vec2, zoom: real, idx: nat, j: nat)
    requires zoom != 0.0 && LeaderHasAspect(bs, st.id)
    requires BlockIndexInSlice(bs, st.id) == Some(idx)
    requires j < |bs| && j != idx && Propagates(bs, idx) && bs[j].chained
    ensures var r := Resized(bs, st, mouse, zoom);
            SameButGeometry(r[j], bs[j]) &&
            r[j].imageSize.y == r[idx].imageSize.y &&
            r[j].imageSize.x == ChainedWidth(r[idx].imageSize.y, bs[j].aspect) &&
            r[j].preferred == r[j].imageSize &&
            BlockRect(r[j]).Center() == BlockRect(bs[j]).Center()
  {
    ResizedElements(bs, st, mouse, zoom, idx);
    var r := Resized(bs, st, mouse, zoom);
    var leader := LeaderResized(bs[idx], st, WorldDelta(st, mouse, zoom));
    FollowerAt(bs, idx, leader, j);
    assert r[idx] == ResizedAt(bs, idx, leader, true, idx) == leader;
    assert r[j] == ResizedAt(bs, idx, leader, true, j);
  }

  /** `ResizeFollower` for an arbitrary leader. */
  lemma FollowerAt(bs: seq<ImageBlock>, idx: nat, leader: ImageBlock, j: nat)
    requires j < |bs| && j != idx && bs[j].chained
    ensures var r := ResizedAt(bs, idx, leader, true, j);
            SameButGeometry(r, bs[j]) &&
            r.imageSize.y == leader.imageSize.y &&
            r.imageSize.x == ChainedWidth(leader.imageSize.y, bs[j].aspect) &&
            r.preferred == r.imageSize &&
            BlockRect(r).Center() == BlockRect(bs[j]).Center()
  {
    var h := leader.imageSize.y;
    RecentredFacts(bs[j], BlockRect(bs[j]).Center(), Vec2(ChainedWidth(h, bs[j].aspect), h));
  }

  /** Replacing a block by one with the same chained flag keeps the chained count. */
  lemma {:induction false} CountChainedUpdate(bs: seq<ImageBlock>, i: nat, b: ImageBlock)
    requires i < |bs| && b.chained == bs[i].chained
    ensures CountChained(bs[i := b]) == CountChained(bs)
  {
    if i > 0 {
      assert bs[i := b][1..] == bs[1..][i - 1 := b];
      CountChainedUpdate(bs[1..], i - 1, b);
    } else {
      assert bs[i := b][1..] == bs[1..];
    }
  }

  /** `handle_blocks_resizing`, in place over the slice of top-level blocks. */
  method HandleBlocksResizing(blocks: array<ImageBlock>, st: InteractionState, mouse: Vec2, zoom: real)
    requires zoom != 0.0 && LeaderHasAspect(blocks[..], st.id)
    modifies blocks
    ensures blocks[..] == Resized(old(blocks[..]), st, mouse, zoom)
  {
    var found := BlockIndexInSlice(blocks[..], st.id);
    if found.None? {
      return;
    }
    var idx := found.value;
    ghost var before := blocks[..];
    var delta := WorldDelta(st, mouse, zoom);
    var leader := ResizeLeader(blocks[idx], st, delta);
    var newHeight := leader.imageSize.y;
    blocks[idx] := leader;
    ResizedElements(before, st, mouse, zoom, idx);

    if blocks[idx].chained {
      var chainedCount := CountChained(blocks[..]);
      CountChainedUpdate(before, idx, leader);
      if chainedCount > 1 {
        PropagateHeight(blocks, idx, newHeight);
        assert Propagates(before, idx);
        assert forall j :: 0 <= j < blocks.Length ==> blocks[j] == ResizedAt(before, idx, leader, true, j);
        return;
      }
    }
    assert !Propagates(before, idx);
    assert forall j :: 0 <= j < blocks.Length ==> blocks[j] == ResizedAt(before, idx, leader, false, j);
  }

  /** The leader's new size and position in `handle_blocks_resizing`: its centre stays where the drag began. */
  method ResizeLeader(b: ImageBlock, st: InteractionState, delta: Vec2) returns (r: ImageBlock)
    requires b.aspect != 0.0
    ensures r == LeaderResized(b, st, delta)
  {
    var originalCenter := st.initialRect.Center();
    var halfWidth := (st.initialRect.Width() - BLOCK_PADDING * 2.0) * 0.5;
    var halfHeight := (st.initialRect.Height() - BLOCK_PADDING * 2.0) * 0.5;
    var xSign := XSign(st.handle);
    var ySign := YSign(st.handle);

    var widthFromX := RMax(2.0 * RAbs(halfWidth * xSign + delta.x), MIN_BLOCK_SIZE);
    var heightFromY := 2.0 * RAbs(halfHeight * ySign + delta.y);
    var widthFromY := ChainedWidth(heightFromY, b.aspect);
    var newWidth := if RAbs(delta.x) >= RAbs(delta.y) then widthFromX else widthFromY;
    // The source's fallback for a non-finite width has no counterpart over the reals.
    newWidth := RMax(newWidth, MIN_BLOCK_SIZE);
    assert newWidth == LeaderWidth(st, delta, b.aspect);

    var newHeight := newWidth / b.aspect;
    var newSize := Vec2(newWidth, newHeight);
    var newOuter := Vec2(newWidth + BLOCK_PADDING * 2.0, newHeight + BLOCK_PADDING * 2.0);
    var newRect := RectFromCenterSize(originalCenter, newOuter);
    r := SetPreferredSize(b.(pos := newRect.min), newSize);
    assert newSize == Vec2(LeaderWidth(st, delta, b.aspect), LeaderWidth(st, delta, b.aspect) / b.aspect);
  }

  /** The loop of `handle_blocks_resizing` that gives every other chained block the new height. */
  method PropagateHeight(blocks: array<ImageBlock>, leaderIndex: nat, newHeight: real)
    modifies blocks
    ensures forall j :: 0 <= j < blocks.Length ==>
              blocks[j] == if j != leaderIndex && old(blocks[j]).chained
                           then FollowerResized(old(blocks[j]), newHeight) else old(blocks[j])
  {
    for i := 0 to blocks.Length
      invariant forall j :: 0 <= j < i ==>
                  blocks[j] == if j != leaderIndex && old(blocks[j]).chained
                               then FollowerResized(old(blocks[j]), newHeight) else old(blocks[j])
      invariant forall j :: i <= j < blocks.Length ==> blocks[j] == old(blocks[j])
    {
      if blocks[i].chained && i != leaderIndex {
        var aspectRatio := blocks[i].aspect;
        var chainedWidth := ChainedWidth(newHeight, aspectRatio);
        var chainedSize := Vec2(chainedWidth, newHeight);
        var chainedOuter := Vec2(chainedWidth + BLOCK_PADDING * 2.0, newHeight + BLOCK_PADDING * 2.0);
        var center := BlockRect(blocks[i]).Center();
        var chainedRect := RectFromCenterSize(center, chainedOuter);
        blocks[i] := SetPreferredSize(blocks[i].(pos := chainedRect.min), chainedSize);
      }
    }
  }
}
