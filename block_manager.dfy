/**
 * `BlockManager` of src/block_manager.rs: the top-level blocks and the registries kept beside them.
 * Each method changes the fields in place as the source does and states the new state as a
 * function of the old one; the properties of those functions are proved in the modules they
 * come from.
 */
module Manager {
  import opened Wrappers
  import opened Constants
  import opened Geometry
  import opened Blocks
  import opened LayoutSort
  import opened Reflow
  import opened Reorder
  import opened Chains
  import opened Grouping
  import opened Drop
  import opened AnimationCache
  import opened Removal

  /**
   * One pass of the placement loop of `reflow`: a new row when groups give way to images (or
   * back) mid-row, then another when the block would cross `rowLimit`; `b` moved to its slot,
   * and the cursor after it.
   */
  method PlaceBlock(c: Cursor, b: ImageBlock, rowLimit: real) returns (placed: ImageBlock, next: Cursor)
    ensures var slot := SlotFor(c, b, rowLimit);
            placed == b.(pos := Vec2(slot.x, slot.y)) && next == Advance(slot, b)
  {
    var slot := c;
    if slot.prevIsGroup.Some? && slot.prevIsGroup.value != b.isGroup && slot.x > CANVAS_PADDING {
      slot := slot.(x := CANVAS_PADDING, y := slot.y + slot.rowHeight + ALIGN_SPACING, rowHeight := 0.0);
    }
    slot := slot.(prevIsGroup := Some(b.isGroup));
    var size := OuterSize(b);
    if slot.x + size.x > rowLimit {
      slot := slot.(x := CANVAS_PADDING, y := slot.y + slot.rowHeight + ALIGN_SPACING, rowHeight := 0.0);
    }
    placed := b.(pos := Vec2(slot.x, slot.y));
    next := slot.(x := slot.x + size.x + ALIGN_SPACING, rowHeight := RMax(slot.rowHeight, size.y));
  }

  /** The running minimum of `box_chained` over the removed blocks, which are the children reversed. */
  method MinPosition(taken: seq<ImageBlock>) returns (minPos: Vec2)
    ensures minPos == MinCorner(Reversed(taken))
  {
    ghost var children := Reversed(taken);
    ghost var n := |taken|;
    minPos := Vec2(F32_MAX, F32_MAX);
    assert children[n..] == [];
    for k := 0 to |taken|
      invariant minPos == MinCorner(children[n - k..])
    {
      MinCornerStep(children, n - k - 1, taken[k]);
      minPos := Vec2(RMin(minPos.x, taken[k].pos.x), RMin(minPos.y, taken[k].pos.y));
    }
    assert children[0..] == children;
  }

  /** The ids of every tree of `taken`, in order: the cascade's collection loop. */
  method CollectForestIds(taken: seq<ImageBlock>) returns (ids: seq<Id>)
    ensures ids == ForestIds(taken)
  {
    ids := [];
    for k := 0 to |taken|
      invariant ids == ForestIds(taken[..k])
    {
      ForestIdsSnoc(taken[..k], taken[k]);
      assert taken[..k + 1] == taken[..k] + [taken[k]];
      ids := ids + [taken[k].id];
      ids := CollectChildIds(taken[k], ids);
    }
    assert taken[..|taken|] == taken;
  }

  /** The nested `collect_child_ids`: appends the ids of `b`'s descendants in preorder. */
  method CollectChildIds(b: ImageBlock, ids: seq<Id>) returns (r: seq<Id>)
    ensures r == ids + ChildIdsFrom(b, 0)
    decreases b
  {
    r := ids;
    for i := 0 to |b.children|
      invariant r + ChildIdsFrom(b, i) == ids + ChildIdsFrom(b, 0)
    {
      var child := b.children[i];
      assert child in b.children;
      r := r + [child.id];
      r := CollectChildIds(child, r);
    }
  }

  class BlockManager {
    var blocks: seq<ImageBlock>
    var nextBlockId: nat
    var rememberedChains: seq<set<Id>>
    var animationAccessOrder: seq<Id>

    constructor ()
      ensures blocks == [] && nextBlockId == 0 && rememberedChains == [] && animationAccessOrder == []
    {
      blocks := [];
      nextBlockId := 0;
      rememberedChains := [];
      animationAccessOrder := [];
    }

    /** `allocate_block_id`: hands out the counter and moves it on. */
    method AllocateBlockId() returns (id: nat)
      modifies this
      ensures id == old(nextBlockId) && nextBlockId == old(nextBlockId) + 1
      ensures blocks == old(blocks) && rememberedChains == old(rememberedChains)
      ensures animationAccessOrder == old(animationAccessOrder)
    {
      id := nextBlockId;
      nextBlockId := nextBlockId + 1;
    }

    /** `push`. */
    method Push(b: ImageBlock)
      modifies this
      ensures blocks == old(blocks) + [b]
      ensures nextBlockId == old(nextBlockId) && rememberedChains == old(rememberedChains)
      ensures animationAccessOrder == old(animationAccessOrder)
    {
      blocks := blocks + [b];
    }

    /** `insert`: `Vec::insert` panics past the end. */
    method Insert(index: nat, b: ImageBlock)
      requires index <= |blocks|
      modifies this
      ensures blocks == old(blocks)[..index] + [b] + old(blocks)[index..]
      ensures nextBlockId == old(nextBlockId) && rememberedChains == old(rememberedChains)
      ensures animationAccessOrder == old(animationAccessOrder)
    {
      blocks := blocks[..index] + [b] + blocks[index..];
    }

    /** `remove`: the block leaves the list and the access order forgets its id. */
    method Remove(index: nat) returns (b: ImageBlock)
      requires index < |blocks|
      modifies this
      ensures b == old(blocks)[index] && blocks == RemovedAt(old(blocks), index)
      ensures animationAccessOrder == Without(old(animationAccessOrder), b.id)
      ensures nextBlockId == old(nextBlockId) && rememberedChains == old(rememberedChains)
    {
      b := blocks[index];
      blocks := blocks[..index] + blocks[index + 1..];
      animationAccessOrder := Without(animationAccessOrder, b.id);
    }

    /** `remove_by_id`: the first block with the id, if any. */
    method RemoveById(id: Id) returns (r: Option<ImageBlock>)
      modifies this
      ensures BlockIndexInSlice(old(blocks), id).None? ==>
                r.None? && blocks == old(blocks) && animationAccessOrder == old(animationAccessOrder)
      ensures BlockIndexInSlice(old(blocks), id).Some? ==>
                var i := BlockIndexInSlice(old(blocks), id).value;
                r == Some(old(blocks)[i]) && blocks == RemovedAt(old(blocks), i) &&
                animationAccessOrder == Without(old(animationAccessOrder), id)
      ensures nextBlockId == old(nextBlockId) && rememberedChains == old(rememberedChains)
    {
      match BlockIndexInSlice(blocks, id)
      case None => r := None;
      case Some(i) =>
        var b := Remove(i);
        r := Some(b);
    }

    /** One `retain(|x| x != id)` on the access order per removed id. */
    method ForgetAll(ids: seq<Id>)
      modifies this
      ensures animationAccessOrder == WithoutAll(old(animationAccessOrder), ids)
      ensures blocks == old(blocks) && nextBlockId == old(nextBlockId) && rememberedChains == old(rememberedChains)
    {
      for k := 0 to |ids|
        invariant WithoutAll(animationAccessOrder, ids[k..]) == WithoutAll(old(animationAccessOrder), ids)
        invariant blocks == old(blocks) && nextBlockId == old(nextBlockId) && rememberedChains == old(rememberedChains)
      {
        assert ids[k..][1..] == ids[k + 1..];
        animationAccessOrder := Without(animationAccessOrder, ids[k]);
      }
      assert ids[|ids|..] == [];
    }

    /** `remove_with_children`: the block goes, and the ids of its whole tree are returned and forgotten. */
    method RemoveWithChildren(index: nat) returns (ids: seq<Id>)
      requires index < |blocks|
      modifies this
      ensures ids == SubtreeIds(old(blocks)[index]) && blocks == RemovedAt(old(blocks), index)
      ensures animationAccessOrder == WithoutAll(old(animationAccessOrder), ids)
      ensures nextBlockId == old(nextBlockId) && rememberedChains == old(rememberedChains)
    {
      var b := blocks[index];
      blocks := blocks[..index] + blocks[index + 1..];
      ids := CollectChildIds(b, [b.id]);
      ForgetAll(ids);
    }

    /**
     * The reverse-index removal loop shared by `remove_cascade` and `box_chained`: every chained
     * block leaves the list, and the blocks come out highest index first.
     */
    method TakeChained() returns (taken: seq<ImageBlock>)
      modifies this
      ensures blocks == UnchainedBlocks(old(blocks)) && taken == Reversed(ChainedBlocks(old(blocks)))
      ensures nextBlockId == old(nextBlockId) && rememberedChains == old(rememberedChains)
      ensures animationAccessOrder == old(animationAccessOrder)
    {
      var orig := blocks;
      var indices := ChainedIndices(blocks);
      var k := |indices|;
      ghost var bound := |orig|;
      taken := [];
      while k > 0
        invariant 0 <= k <= |indices| && bound <= |orig|
        invariant bound == if k < |indices| then indices[k] else |orig|
        invariant blocks == orig[..bound] + UnchainedBlocks(orig[bound..])
        invariant taken == Reversed(ChainedBlocks(orig[bound..]))
        invariant nextBlockId == old(nextBlockId) && rememberedChains == old(rememberedChains)
        invariant animationAccessOrder == old(animationAccessOrder)
      {
        var idx := indices[k - 1];
        NoChainedBetween(orig, k, bound);
        TakeStep(orig, idx, bound);
        taken := taken + [blocks[idx]];
        blocks := blocks[..idx] + blocks[idx + 1..];
        k := k - 1;
        bound := idx;
      }
      NoChainedBetween(orig, 0, bound);
      TakeDone(orig, bound);
    }

    /** `remove_cascade`: a chained block takes the whole chain, and the chains it touches, with it. */
    method RemoveCascade(index: nat) returns (ids: seq<Id>)
      requires index < |blocks|
      modifies this
      ensures !old(blocks)[index].chained ==>
                ids == SubtreeIds(old(blocks)[index]) && blocks == RemovedAt(old(blocks), index) &&
                rememberedChains == old(rememberedChains)
      ensures old(blocks)[index].chained ==>
                ids == CascadeIds(old(blocks)) && blocks == UnchainedBlocks(old(blocks)) &&
                rememberedChains == DisjointFrom(old(rememberedChains), Elements(ids))
      ensures animationAccessOrder == WithoutAll(old(animationAccessOrder), ids)
      ensures nextBlockId == old(nextBlockId)
    {
      if !blocks[index].chained {
        ids := RemoveWithChildren(index);
        return;
      }
      var taken := TakeChained();
      ids := CollectForestIds(taken);
      rememberedChains := DisjointFrom(rememberedChains, Elements(ids));
      ForgetAll(ids);
    }

    /** `clear`: no blocks and an empty access order; the remembered chains stay. */
    method Clear()
      modifies this
      ensures blocks == [] && animationAccessOrder == []
      ensures nextBlockId == old(nextBlockId) && rememberedChains == old(rememberedChains)
    {
      blocks := [];
      animationAccessOrder := [];
    }

    /** `purge_animation_frames`. */
    method PurgeAnimationFrames(id: Id)
      modifies this
      ensures blocks == Purged(old(blocks), id)
      ensures nextBlockId == old(nextBlockId) && rememberedChains == old(rememberedChains)
      ensures animationAccessOrder == old(animationAccessOrder)
    {
      match BlockIndexInSlice(blocks, id)
      case None =>
      case Some(i) =>
        var b := blocks[i];
        if b.isFullSequence && b.frameCount > 1 {
          b := b.(frameCount := 1);
          b := b.(isFullSequence := false);
          b := StopAnimation(b);
          blocks := blocks[i := b];
        }
    }

    /** `mark_animation_used`: the id becomes the most recent; past the cache size the oldest is purged. */
    method MarkAnimationUsed(id: Id)
      modifies this
      ensures animationAccessOrder == MarkedOrder(old(animationAccessOrder), id)
      ensures blocks == MarkedBlocks(old(blocks), old(animationAccessOrder), id)
      ensures nextBlockId == old(nextBlockId) && rememberedChains == old(rememberedChains)
    {
      animationAccessOrder := Without(animationAccessOrder, id);
      animationAccessOrder := animationAccessOrder + [id];
      if |animationAccessOrder| > MAX_CACHED_ANIMATIONS {
        var toPurge := animationAccessOrder[0];
        animationAccessOrder := animationAccessOrder[1..];
        PurgeAnimationFrames(toPurge);
      }
    }

    /** `set_remembered_chains`. */
    method SetRememberedChains(chains: seq<set<Id>>)
      modifies this
      ensures rememberedChains == chains
      ensures blocks == old(blocks) && nextBlockId == old(nextBlockId)
      ensures animationAccessOrder == old(animationAccessOrder)
    {
      rememberedChains := chains;
    }

    /** `clear_chain_group`: a chain of two or more is remembered, then every flag is cleared. */
    method ClearChainGroup()
      modifies this
      ensures rememberedChains == Remembered(old(rememberedChains), ChainedIds(old(blocks)))
      ensures blocks == Unchained(old(blocks))
      ensures nextBlockId == old(nextBlockId) && animationAccessOrder == old(animationAccessOrder)
    {
      var ids := ChainedIds(blocks);
      if |ids| >= 2 {
        rememberedChains := DisjointFrom(rememberedChains, ids);
        rememberedChains := rememberedChains + [ids];
      }
      var orig := blocks;
      for i := 0 to |blocks|
        invariant |blocks| == |orig|
        invariant forall j :: 0 <= j < i ==> blocks[j] == orig[j].(chained := false)
        invariant forall j :: i <= j < |orig| ==> blocks[j] == orig[j]
        invariant rememberedChains == Remembered(old(rememberedChains), ChainedIds(old(blocks)))
        invariant nextBlockId == old(nextBlockId) && animationAccessOrder == old(animationAccessOrder)
      {
        blocks := blocks[i := blocks[i].(chained := false)];
      }
    }

    /**
     * `toggle_chain(index)`; its opening guard (`!can_chain() && !is_group`) cannot hold for a valid
     * index, since a list with an element at `index` is not empty.
     */
    method ToggleChain(index: nat)
      requires index < |blocks|
      modifies this
      ensures blocks == ToggledChain(old(blocks), old(rememberedChains), index)
      ensures rememberedChains == old(rememberedChains)
      ensures nextBlockId == old(nextBlockId) && animationAccessOrder == old(animationAccessOrder)
    {
      var blockId := blocks[index].id;
      var wasChained := blocks[index].chained;
      if !wasChained {
        match FirstChainWith(rememberedChains, blockId)
        case Some(chain) =>
          var orig := blocks;
          for i := 0 to |blocks|
            invariant |blocks| == |orig|
            invariant forall j :: 0 <= j < i ==> blocks[j] == if orig[j].id in chain then orig[j].(chained := true) else orig[j]
            invariant forall j :: i <= j < |orig| ==> blocks[j] == orig[j]
            invariant rememberedChains == old(rememberedChains)
            invariant nextBlockId == old(nextBlockId) && animationAccessOrder == old(animationAccessOrder)
          {
            if blocks[i].id in chain {
              blocks := blocks[i := blocks[i].(chained := true)];
            }
          }
        case None =>
          blocks := blocks[index := blocks[index].(chained := true)];
      } else {
        blocks := blocks[index := blocks[index].(chained := false)];
      }
    }

    /** `enforce_chain_constraints`: with no blocks there is no chain to clear, so nothing changes. */
    method EnforceChainConstraints()
      modifies this
      ensures blocks == old(blocks) && rememberedChains == old(rememberedChains)
      ensures nextBlockId == old(nextBlockId) && animationAccessOrder == old(animationAccessOrder)
    {
      if |blocks| == 0 {
        ClearChainGroup();
        assert ChainedIds(old(blocks)) == {};
      }
    }

    /**
     * `box_chained`: the chained blocks, in list order, become the children of a new group at the
     * front, placed at their minimum corner. `groupId` stands for the fresh random id of the group.
     */
    method BoxChained(groupId: Id) returns (newId: Id)
      modifies this
      ensures blocks == Boxed(old(blocks), groupId)
      ensures |ChainedIndices(old(blocks))| == 0 ==> newId == NIL_ID && nextBlockId == old(nextBlockId)
      ensures |ChainedIndices(old(blocks))| > 0 ==> newId == groupId && nextBlockId == old(nextBlockId) + 1
      ensures rememberedChains == old(rememberedChains) && animationAccessOrder == old(animationAccessOrder)
    {
      if |ChainedIndices(blocks)| == 0 {
        return NIL_ID;
      }
      ghost var orig := blocks;
      var taken := TakeChained();
      var minPos := MinPosition(taken);
      var children := Reversed(taken);
      nextBlockId := nextBlockId + 1;
      var group := UpdateGroupName(NewGroup(groupId, "", children));
      group := group.(pos := minPos);
      newId := group.id;
      BoxedFromTaken(orig, groupId, taken, group);
      blocks := [group] + blocks;
    }

    /** `unbox_group`: the block leaves; a group's children, unchained, go in before the first non-group. */
    method UnboxGroup(index: nat) returns (ids: seq<Id>)
      requires index < |blocks|
      modifies this
      ensures blocks == Unboxed(old(blocks), index) && ids == UnboxedIds(old(blocks), index)
      ensures nextBlockId == old(nextBlockId) && rememberedChains == old(rememberedChains)
      ensures animationAccessOrder == old(animationAccessOrder)
    {
      var group := blocks[index];
      blocks := blocks[..index] + blocks[index + 1..];
      ids := [];
      if group.isGroup {
        var insertIdx := FirstNonGroup(blocks);
        ghost var rest := blocks;
        var unchained := Unchained(group.children);
        for i := 0 to |group.children|
          invariant blocks == rest[..insertIdx] + unchained[..i] + rest[insertIdx..]
          invariant ids == IdsOf(group.children[..i])
          invariant nextBlockId == old(nextBlockId) && rememberedChains == old(rememberedChains)
          invariant animationAccessOrder == old(animationAccessOrder)
        {
          var child := group.children[i];
          IdsOfPrefix(group.children, i);
          ids := ids + [child.id];
          child := child.(chained := false);
          InsertStep(rest, insertIdx, unchained, i, blocks);
          blocks := blocks[..insertIdx + i] + [child] + blocks[insertIdx + i..];
        }
        assert unchained[..|group.children|] == unchained;
        assert group.children[..|group.children|] == group.children;
      }
    }

    /** `move_single_into_group`: the block, no longer dragged or chained, becomes the target's last child. */
    method MoveSingleIntoGroup(bi: nat, gi: nat)
      requires CanMoveSingle(blocks, bi, gi)
      modifies this
      ensures blocks == MoveSingle(old(blocks), bi, gi)
      ensures nextBlockId == old(nextBlockId) && rememberedChains == old(rememberedChains)
      ensures animationAccessOrder == old(animationAccessOrder)
    {
      var block := blocks[bi];
      blocks := blocks[..bi] + blocks[bi + 1..];
      block := block.(dragging := false);
      block := block.(chained := false);
      var target := if gi > bi then gi - 1 else gi;
      var group := blocks[target];
      group := group.(children := group.children + [block]);
      group := UpdateGroupName(group);
      blocks := blocks[target := group];
    }

    /**
     * `drop_into_group`, corrected: a chained block takes every chained block along, in the
     * iteration order `order` of the chained-id set, skipping the target group's own id.
     */
    method DropIntoGroup(bi: nat, gi: nat, order: seq<Id>)
      requires bi < |blocks| && gi < |blocks| && bi != gi
      modifies this
      ensures blocks == Drop.DropIntoGroup(old(blocks), bi, gi, order)
      ensures nextBlockId == old(nextBlockId) && rememberedChains == old(rememberedChains)
      ensures animationAccessOrder == old(animationAccessOrder)
    {
      if !blocks[bi].chained {
        MoveSingleIntoGroup(bi, gi);
        return;
      }
      var groupId := blocks[gi].id;
      for k := 0 to |order|
        invariant DropChain(blocks, groupId, order[k..]) == DropChain(old(blocks), groupId, order)
        invariant nextBlockId == old(nextBlockId) && rememberedChains == old(rememberedChains)
        invariant animationAccessOrder == old(animationAccessOrder)
      {
        assert order[k..][1..] == order[k + 1..];
        var id := order[k];
        if id != groupId {
          match BlockIndexInSlice(blocks, id)
          case None =>
          case Some(b) =>
            match BlockIndexInSlice(blocks, groupId)
            case None =>
            case Some(g) =>
              MoveSingleIntoGroup(b, g);
        }
      }
      assert order[|order|..] == [];
    }

    /** `reflow(inner_width)`: every block resized to fit, then placed row by row. */
    method Reflow(w: real)
      requires Reflowable(blocks, w)
      modifies this
      ensures blocks == Reflowed(old(blocks), w)
      ensures nextBlockId == old(nextBlockId) && rememberedChains == old(rememberedChains)
      ensures animationAccessOrder == old(animationAccessOrder)
    {
      var innerWidth := RMax(w, MIN_CANVAS_INNER_WIDTH);
      var rowLimit := CANVAS_PADDING + innerWidth;
      var maxImageWidth := RMax(innerWidth - BLOCK_PADDING * 2.0, 1.0);
      ResizeAll(w, maxImageWidth);
      PlaceRows(rowLimit);
    }

    /** The first loop of `reflow`: each block back to its preferred size, then narrowed. */
    method ResizeAll(ghost w: real, maxImageWidth: real)
      requires Reflowable(blocks, w) && maxImageWidth == MaxImageWidth(w)
      modifies this
      ensures blocks == Sized(old(blocks), w)
      ensures nextBlockId == old(nextBlockId) && rememberedChains == old(rememberedChains)
      ensures animationAccessOrder == old(animationAccessOrder)
    {
      ghost var orig := blocks;
      for i := 0 to |blocks|
        invariant |blocks| == |orig|
        invariant forall j :: 0 <= j < i ==> blocks[j] == Sized(orig, w)[j]
        invariant forall j :: i <= j < |orig| ==> blocks[j] == orig[j]
        invariant nextBlockId == old(nextBlockId) && rememberedChains == old(rememberedChains)
        invariant animationAccessOrder == old(animationAccessOrder)
      {
        var b := ResetToPreferredSize(blocks[i]);
        b := ConstrainToWidth(b, maxImageWidth);
        blocks := blocks[i := b];
      }
    }

    /** The second loop of `reflow`: each block placed at the cursor, wrapping at `rowLimit`. */
    method PlaceRows(rowLimit: real)
      modifies this
      ensures blocks == PlaceAll(START, old(blocks), rowLimit)
      ensures nextBlockId == old(nextBlockId) && rememberedChains == old(rememberedChains)
      ensures animationAccessOrder == old(animationAccessOrder)
    {
      ghost var sized := blocks;
      var cursor := START;
      for i := 0 to |blocks|
        invariant |blocks| == |sized| && blocks[i..] == sized[i..]
        invariant blocks[..i] + PlaceAll(cursor, sized[i..], rowLimit) == PlaceAll(START, sized, rowLimit)
        invariant nextBlockId == old(nextBlockId) && rememberedChains == old(rememberedChains)
        invariant animationAccessOrder == old(animationAccessOrder)
      {
        assert blocks[i] == blocks[i..][0] == sized[i];
        var placed, next := PlaceBlock(cursor, blocks[i], rowLimit);
        PlaceStep(blocks, cursor, sized, i, rowLimit);
        blocks := blocks[i := placed];
        cursor := next;
      }
      assert sized[|sized|..] == [];
      assert blocks[..|blocks|] == blocks;
    }

    /**
     * `reorder_and_reflow`: with a leader, its run (the chain, or the leader alone) is taken out,
     * the rest sorted and the run put back where the leader was dropped; without one, everything is
     * sorted. A leader that is not in the list changes nothing.
     */
    method ReorderAndReflow(leader: Option<Id>, w: real)
      requires Reflowable(blocks, w)
      modifies this
      ensures blocks == ReorderedAndReflowed(old(blocks), leader, w)
      ensures nextBlockId == old(nextBlockId) && rememberedChains == old(rememberedChains)
      ensures animationAccessOrder == old(animationAccessOrder)
    {
      ArrangedReflowable(blocks, leader, w);
      match leader {
      case None =>
        blocks := Sort(blocks);
      case Some(leaderId) =>
        var found := BlockIndexInSlice(blocks, leaderId);
        if found.None? {
          return;
        }
        MoveRun(leaderId, found.value);
      }
      Reflow(w);
    }

    /** The reordering with a leader found at `index`: its run moves to where the leader was dropped. */
    method MoveRun(leaderId: Id, index: nat)
      requires BlockIndexInSlice(blocks, leaderId) == Some(index)
      modifies this
      ensures blocks == Arranged(old(blocks), Some(leaderId))
      ensures nextBlockId == old(nextBlockId) && rememberedChains == old(rememberedChains)
      ensures animationAccessOrder == old(animationAccessOrder)
    {
      ghost var orig := blocks;
      var isLeaderChained := blocks[index].chained;
      LeaderFoundInMoved(blocks, leaderId, index);
      LeaderMoves(blocks, leaderId, index);
      var moved, remaining := Drain(leaderId, isLeaderChained);
      // The leader is always moved (LeaderMoves), so the source's branch for an empty run is dead.
      var leaderPos := moved[BlockIndexInSlice(moved, leaderId).value].pos;
      SpliceRun(moved, remaining, leaderPos);
      assert blocks == ArrangedAround(orig, leaderId, index);
    }

    /** The kept blocks sorted, and the moved run inserted where the leader's position goes. */
    method SpliceRun(moved: seq<ImageBlock>, kept: seq<ImageBlock>, leaderPos: Vec2)
      requires |moved| > 0
      modifies this
      ensures var remaining := Sort(kept);
              blocks == Splice(remaining, InsertIndex(remaining, leaderPos, moved[0].isGroup, FirstNonGroup(remaining)), moved)
      ensures nextBlockId == old(nextBlockId) && rememberedChains == old(rememberedChains)
      ensures animationAccessOrder == old(animationAccessOrder)
    {
      var remaining := Sort(kept);
      var isLeaderGroup := moved[0].isGroup;
      var boundary := FirstNonGroup(remaining);
      var insertIdx := FindInsertIndex(remaining, leaderPos, isLeaderGroup, boundary);
      blocks := remaining;
      InsertRun(insertIdx, moved);
    }

    /** The `drain(..)` loop of `reorder_and_reflow`: the list empties into the moved and the kept blocks. */
    method Drain(leaderId: Id, isLeaderChained: bool) returns (moved: seq<ImageBlock>, remaining: seq<ImageBlock>)
      modifies this
      ensures moved == MovedPart(old(blocks), leaderId, isLeaderChained)
      ensures remaining == KeptPart(old(blocks), leaderId, isLeaderChained)
      ensures blocks == [] && nextBlockId == old(nextBlockId) && rememberedChains == old(rememberedChains)
      ensures animationAccessOrder == old(animationAccessOrder)
    {
      moved, remaining := [], [];
      for i := 0 to |blocks|
        invariant moved == MovedPart(blocks[..i], leaderId, isLeaderChained)
        invariant remaining == KeptPart(blocks[..i], leaderId, isLeaderChained)
      {
        assert blocks[..i + 1][..i] == blocks[..i];
        if IsMoved(blocks[i], leaderId, isLeaderChained) {
          moved := moved + [blocks[i]];
        } else {
          remaining := remaining + [blocks[i]];
        }
      }
      assert blocks[..|blocks|] == blocks;
      blocks := [];
    }

    /** The insertion loop of `reorder_and_reflow`: the run goes in, in order, from index `k`. */
    method InsertRun(k: nat, run: seq<ImageBlock>)
      requires k <= |blocks|
      modifies this
      ensures blocks == Splice(old(blocks), k, run)
      ensures nextBlockId == old(nextBlockId) && rememberedChains == old(rememberedChains)
      ensures animationAccessOrder == old(animationAccessOrder)
    {
      ghost var remaining := blocks;
      for i := 0 to |run|
        invariant blocks == remaining[..k] + run[..i] + remaining[k..]
        invariant nextBlockId == old(nextBlockId) && rememberedChains == old(rememberedChains)
        invariant animationAccessOrder == old(animationAccessOrder)
      {
        InsertStep(remaining, k, run, i, blocks);
        blocks := blocks[..k + i] + [run[i]] + blocks[k + i..];
      }
      assert run[..|run|] == run;
      SpliceIsInsertion(remaining, k, run);
    }

    /** `reset_all_counters`: every counter in every tree is zero, and nothing else changes. */
    method ResetAllCounters()
      modifies this
      ensures |blocks| == |old(blocks)|
      ensures forall i :: 0 <= i < |blocks| ==> AllCountersZero(blocks[i]) && SameButCounters(blocks[i], old(blocks)[i])
      ensures forall i :: 0 <= i < |blocks| ==> blocks[i] == ResetCountersRecursive(old(blocks)[i])
      ensures nextBlockId == old(nextBlockId) && rememberedChains == old(rememberedChains)
      ensures animationAccessOrder == old(animationAccessOrder)
    {
      ghost var orig := blocks;
      for i := 0 to |blocks|
        invariant |blocks| == |orig|
        invariant forall j :: 0 <= j < i ==> blocks[j] == ResetCountersRecursive(orig[j])
        invariant forall j :: i <= j < |orig| ==> blocks[j] == orig[j]
        invariant nextBlockId == old(nextBlockId) && rememberedChains == old(rememberedChains)
        invariant animationAccessOrder == old(animationAccessOrder)
      {
        blocks := blocks[i := ResetCountersRecursive(blocks[i])];
      }
    }
  }

  /** One step of the minimum loop of `box_chained`: each removed block extends the suffix of the children by one. */
  lemma MinCornerStep(children: seq<ImageBlock>, j: nat, b: ImageBlock)
    requires j < |children| && children[j] == b
    ensures MinCorner(children[j..]) ==
            Vec2(RMin(MinCorner(children[j + 1..]).x, b.pos.x), RMin(MinCorner(children[j + 1..]).y, b.pos.y))
  {
    assert children[j..][1..] == children[j + 1..];
    MinCornerCons(children[j..]);
  }

  /** The minimum corner of a non-empty list, folded from its tail. */
  lemma MinCornerCons(s: seq<ImageBlock>)
    requires |s| > 0
    ensures MinCorner(s) == Vec2(RMin(MinCorner(s[1..]).x, s[0].pos.x), RMin(MinCorner(s[1..]).y, s[0].pos.y))
  {
  }

  /** One step of the placement loop: the block at `i` goes to its slot, the cursor moves past it. */
  lemma PlaceStep(cur: seq<ImageBlock>, c: Cursor, sized: seq<ImageBlock>, i: nat, rowLimit: real)
    requires i < |sized| && |cur| == |sized| && cur[i..] == sized[i..]
    requires cur[..i] + PlaceAll(c, sized[i..], rowLimit) == PlaceAll(START, sized, rowLimit)
    ensures var slot := SlotFor(c, sized[i], rowLimit);
            var next := cur[i := sized[i].(pos := Vec2(slot.x, slot.y))];
            next[i + 1..] == sized[i + 1..] &&
            next[..i + 1] + PlaceAll(Advance(slot, sized[i]), sized[i + 1..], rowLimit) == PlaceAll(START, sized, rowLimit)
  {
    var slot := SlotFor(c, sized[i], rowLimit);
    var v := sized[i].(pos := Vec2(slot.x, slot.y));
    PlaceAllCons(c, sized[i..], rowLimit);
    assert sized[i..][1..] == sized[i + 1..];
    PrefixShift(cur, i, v, PlaceAll(Advance(slot, sized[i]), sized[i + 1..], rowLimit), PlaceAll(START, sized, rowLimit));
    TailAfterUpdate(cur, sized, i, v);
  }

  /** `PlaceAll` on a non-empty list, one step unfolded. */
  lemma PlaceAllCons(c: Cursor, s: seq<ImageBlock>, rowLimit: real)
    requires |s| > 0
    ensures var slot := SlotFor(c, s[0], rowLimit);
            PlaceAll(c, s, rowLimit) == [s[0].(pos := Vec2(slot.x, slot.y))] + PlaceAll(Advance(slot, s[0]), s[1..], rowLimit)
  {
  }

  /** Moving the placed block from the front of the rest onto the end of the prefix. */
  lemma PrefixShift(cur: seq<ImageBlock>, i: nat, v: ImageBlock, rest: seq<ImageBlock>, whole: seq<ImageBlock>)
    requires i < |cur| && cur[..i] + ([v] + rest) == whole
    ensures cur[i := v][..i + 1] + rest == whole
  {
    UpdateExtends(cur, i, v);
  }

  /** The tail past `i` is untouched by a write at `i`. */
  lemma TailAfterUpdate(cur: seq<ImageBlock>, sized: seq<ImageBlock>, i: nat, v: ImageBlock)
    requires i < |sized| && |cur| == |sized| && cur[i..] == sized[i..]
    ensures cur[i := v][i + 1..] == sized[i + 1..]
  {
    UpdateExtends(cur, i, v);
    assert cur[i + 1..] == cur[i..][1..];
  }

  /** Writing index `i` extends the prefix below it by the new value and keeps the tail. */
  lemma UpdateExtends(s: seq<ImageBlock>, i: nat, v: ImageBlock)
    requires i < |s|
    ensures s[i := v][..i + 1] == s[..i] + [v] && s[i := v][i + 1..] == s[i + 1..]
  {
  }

  /** One step of inserting a run at `k`: the next element goes in right after the ones already in. */
  lemma InsertStep(rest: seq<ImageBlock>, k: nat, run: seq<ImageBlock>, i: nat, cur: seq<ImageBlock>)
    requires k <= |rest| && i < |run| && cur == rest[..k] + run[..i] + rest[k..]
    ensures cur[..k + i] + [run[i]] + cur[k + i..] == rest[..k] + run[..i + 1] + rest[k..]
  {
    assert cur[..k + i] == rest[..k] + run[..i];
    assert cur[k + i..] == rest[k..];
    assert run[..i + 1] == run[..i] + [run[i]];
  }

  /** The ids of a one-longer prefix. */
  lemma IdsOfPrefix(bs: seq<ImageBlock>, i: nat)
    requires i < |bs|
    ensures IdsOf(bs[..i + 1]) == IdsOf(bs[..i]) + [bs[i].id]
  {
  }

  /** Inserting a run element by element is splicing it in. */
  lemma SpliceIsInsertion(remaining: seq<ImageBlock>, k: nat, run: seq<ImageBlock>)
    requires k <= |remaining|
    ensures remaining[..k] + run + remaining[k..] == Splice(remaining, k, run)
  {
    var r := Splice(remaining, k, run);
    assert r == r[..k] + r[k..k + |run|] + r[k + |run|..];
    assert r[..k] == remaining[..k];
  }

  /** The group built from the blocks the removal loop took out is the one `Boxed` describes. */
  lemma BoxedFromTaken(orig: seq<ImageBlock>, groupId: Id, taken: seq<ImageBlock>, group: ImageBlock)
    requires |ChainedIndices(orig)| > 0 && taken == Reversed(ChainedBlocks(orig))
    requires group == UpdateGroupName(NewGroup(groupId, "", Reversed(taken))).(pos := MinCorner(Reversed(taken)))
    ensures Boxed(orig, groupId) == [group] + UnchainedBlocks(orig)
  {
    ReversedTwice(ChainedBlocks(orig));
  }

  /** Reversing twice gives the list back. */
  lemma ReversedTwice(s: seq<ImageBlock>)
    ensures Reversed(Reversed(s)) == s
  {
  }

  /** Between consecutive chained indices (or past the last one) no block is chained. */
  lemma NoChainedBetween(orig: seq<ImageBlock>, k: nat, bound: nat)
    requires k <= |ChainedIndices(orig)| && bound <= |orig|
    requires bound == if k < |ChainedIndices(orig)| then ChainedIndices(orig)[k] else |orig|
    ensures k > 0 ==> ChainedIndices(orig)[k - 1] < bound
    ensures forall j :: (if k > 0 then ChainedIndices(orig)[k - 1] < j else 0 <= j) && j < bound ==> !orig[j].chained
  {
    var indices := ChainedIndices(orig);
    assert forall m :: 0 <= m < |indices| ==> (k > 0 && indices[m] <= indices[k - 1]) || bound <= indices[m];
  }

  /** One step of the reverse removal loop: the block at `i` leaves, the chained part gains it in front. */
  lemma TakeStep(orig: seq<ImageBlock>, i: nat, bound: nat)
    requires i < bound <= |orig| && orig[i].chained
    requires forall j :: i < j < bound ==> !orig[j].chained
    ensures var cur := orig[..bound] + UnchainedBlocks(orig[bound..]);
            cur[..i] + cur[i + 1..] == orig[..i] + UnchainedBlocks(orig[i..])
    ensures Reversed(ChainedBlocks(orig[bound..])) + [orig[i]] == Reversed(ChainedBlocks(orig[i..]))
  {
    TakePartsFrom(orig, i, bound);
    ReversedCons(orig[i], ChainedBlocks(orig[bound..]));
    TakeCut(orig, i, bound, orig[..bound] + UnchainedBlocks(orig[bound..]));
  }

  /** From a chained `orig[i]` up to `bound` nothing else is chained. */
  lemma TakePartsFrom(orig: seq<ImageBlock>, i: nat, bound: nat)
    requires i < bound <= |orig| && orig[i].chained
    requires forall j :: i < j < bound ==> !orig[j].chained
    ensures ChainedBlocks(orig[i..]) == [orig[i]] + ChainedBlocks(orig[bound..])
    ensures UnchainedBlocks(orig[i..]) == orig[i + 1..bound] + UnchainedBlocks(orig[bound..])
  {
    ThreeWay(orig, i, bound);
    ChainedHead(orig[i], orig[i + 1..bound], orig[bound..], orig[i..]);
  }

  lemma ThreeWay(s: seq<ImageBlock>, i: nat, bound: nat)
    requires i < bound <= |s|
    ensures s[i..] == [s[i]] + s[i + 1..bound] + s[bound..]
  {
  }

  /** A chained block followed by unchained ones, then anything. */
  lemma ChainedHead(x: ImageBlock, mid: seq<ImageBlock>, rest: seq<ImageBlock>, t: seq<ImageBlock>)
    requires t == [x] + mid + rest && x.chained
    requires forall j :: 0 <= j < |mid| ==> !mid[j].chained
    ensures ChainedBlocks(t) == [x] + ChainedBlocks(rest)
    ensures UnchainedBlocks(t) == mid + UnchainedBlocks(rest)
  {
    NoChainedParts(mid);
    PartsAppend([x] + mid, rest);
    PartsAppend([x], mid);
    PartsSnoc([], x);
    assert [] + [x] == [x];
  }

  lemma TakeCut(orig: seq<ImageBlock>, i: nat, bound: nat, cur: seq<ImageBlock>)
    requires i < bound <= |orig| && cur == orig[..bound] + UnchainedBlocks(orig[bound..])
    requires UnchainedBlocks(orig[i..]) == orig[i + 1..bound] + UnchainedBlocks(orig[bound..])
    ensures cur[..i] + cur[i + 1..] == orig[..i] + UnchainedBlocks(orig[i..])
  {
    assert cur[..i] == orig[..i];
    assert cur[i + 1..] == orig[i + 1..bound] + UnchainedBlocks(orig[bound..]);
  }

  lemma ReversedCons(x: ImageBlock, s: seq<ImageBlock>)
    ensures Reversed([x] + s) == Reversed(s) + [x]
  {
    assert ([x] + s)[1..] == s;
  }

  /** Once the loop is past every chained index, the list is its unchained part. */
  lemma TakeDone(orig: seq<ImageBlock>, bound: nat)
    requires bound <= |orig| && forall j :: 0 <= j < bound ==> !orig[j].chained
    ensures orig[..bound] + UnchainedBlocks(orig[bound..]) == UnchainedBlocks(orig)
    ensures ChainedBlocks(orig[bound..]) == ChainedBlocks(orig)
  {
    NoChainedParts(orig[..bound]);
    assert orig == orig[..bound] + orig[bound..];
    PartsAppend(orig[..bound], orig[bound..]);
  }

  /** A list without chained blocks is all unchained part. */
  lemma {:induction false} NoChainedParts(s: seq<ImageBlock>)
    requires forall j :: 0 <= j < |s| ==> !s[j].chained
    ensures UnchainedBlocks(s) == s && ChainedBlocks(s) == []
  {
    if |s| > 0 {
      NoChainedParts(s[..|s| - 1]);
      assert s == s[..|s| - 1] + [s[|s| - 1]];
    }
  }
}
