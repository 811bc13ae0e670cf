/** The read-only queries of src/block_manager.rs over the top-level blocks. */
module Queries {
  import opened Wrappers
  import opened Geometry
  import opened Blocks

  /** `max_block_height`: the largest preferred height among the non-groups, folded from 0. */
  function MaxBlockHeight(bs: seq<ImageBlock>): (r: real)
    ensures r >= 0.0
    ensures forall i :: 0 <= i < |bs| && !bs[i].isGroup ==> bs[i].preferred.y <= r
    ensures r == 0.0 || exists i :: 0 <= i < |bs| && !bs[i].isGroup && r == bs[i].preferred.y
  {
    if |bs| == 0 then 0.0
    else
      var m := MaxBlockHeight(bs[..|bs| - 1]);
      var last := bs[|bs| - 1];
      assert forall i :: 0 <= i < |bs| - 1 ==> bs[..|bs| - 1][i] == bs[i];
      if last.isGroup then m else RMax(m, last.preferred.y)
  }

  /** Whether `b` is a drop target at `pos` for the block `excludeId`. */
  predicate IsDropTarget(b: ImageBlock, pos: Vec2, excludeId: Id) {
    b.id != excludeId && b.isGroup && BlockRect(b).Contains(pos)
  }

  /** `find_group_at_pos`: the first group other than `excludeId` whose rectangle contains `pos`. */
  function FindGroupAtPos(bs: seq<ImageBlock>, pos: Vec2, excludeId: Id): (r: Option<nat>)
    ensures r.Some? ==> r.value < |bs| && IsDropTarget(bs[r.value], pos, excludeId) &&
                        forall j :: 0 <= j < r.value ==> !IsDropTarget(bs[j], pos, excludeId)
    ensures r.None? ==> forall j :: 0 <= j < |bs| ==> !IsDropTarget(bs[j], pos, excludeId)
  {
    if |bs| == 0 then None
    else if IsDropTarget(bs[0], pos, excludeId) then Some(0)
    else match FindGroupAtPos(bs[1..], pos, excludeId)
      case None => None
      case Some(k) => Some(k + 1)
  }

  /** `any_dragging`. */
  function AnyDragging(bs: seq<ImageBlock>): (r: bool)
    ensures r <==> exists i :: 0 <= i < |bs| && bs[i].dragging
  {
    if |bs| == 0 then false
    else
      assert forall i :: 1 <= i < |bs| ==> bs[1..][i - 1] == bs[i];
      bs[0].dragging || AnyDragging(bs[1..])
  }
}
