/**
 * The app logic of src/main.rs: `MaBlocksApp` owns the block manager and the interaction state
 * around it, and turns clicks, drags and the toolbar's box/unbox toggle into manager calls.
 * Pointer coordinates arrive already converted to the canvas's world units; the painting, the
 * file dialogs and the image loading around these calls are not part of this model.
 */
module App {
  import opened Wrappers
  import opened Constants
  import opened Geometry
  import opened Blocks
  import opened Chains
  import opened Grouping
  import opened Reflow
  import opened AnimationCache
  import opened Resizing
  import opened Manager
  import opened AppInvariant
  import opened AppState
  import opened AppHelpers

  // ---------------------------------------------------------------------------
  // Counters
  // ---------------------------------------------------------------------------

  /** An integer reduced to the `i32` range the way two's-complement arithmetic wraps it. */
  function WrapI32(n: int): (r: int)
    ensures I32_MIN <= r <= I32_MAX
    ensures I32_MIN <= n <= I32_MAX ==> r == n
    ensures (r - n) % 0x1_0000_0000 == 0
  {
    (n - I32_MIN) % 0x1_0000_0000 + I32_MIN
  }

  /** `counter += 1` on the `i32` counter, wrapping at the top as a release build does. */
  function Incremented(c: int): (r: int)
    ensures I32_MIN <= r <= I32_MAX
    ensures I32_MIN <= c < I32_MAX ==> r == c + 1
    ensures c == I32_MAX ==> r == I32_MIN
  {
    WrapI32(c + 1)
  }

  /** `counter = (counter - 1).max(0)`: one less, but never below zero. */
  function Decremented(c: int): (r: int)
    ensures 0 <= r <= I32_MAX
    ensures 0 < c <= I32_MAX ==> r == c - 1
    ensures I32_MIN < c <= 0 ==> r == 0
  {
    var d := WrapI32(c - 1);
    if d > 0 then d else 0
  }

  /** A click on the counter's badge and a right-click on it cancel out on a counter below the top. */
  lemma CounterRoundTrip(c: int)
    requires 0 <= c < I32_MAX
    ensures Decremented(Incremented(c)) == c
  {
  }

  // ---------------------------------------------------------------------------
  // Pointer input over a block
  // ---------------------------------------------------------------------------

  /** The part of `InputSnapshot` a block's interaction reads. */
  datatype PointerInput = PointerInput(
    primaryClicked: bool, secondaryClicked: bool, secondaryPressed: bool, hoverPos: Option<Vec2>)

  /** `BlockControlHover`: which of the block's controls the pointer is over. */
  datatype ControlHover = ControlHover(closeHovered: bool, chainHovered: bool, counterHovered: bool)

  predicate AnyControlHovered(h: ControlHover) {
    h.closeHovered || h.chainHovered || h.counterHovered
  }

  /** A primary click on the chain control toggles the block's chain. */
  predicate TogglesChain(input: PointerInput, h: ControlHover) {
    input.primaryClicked && h.chainHovered
  }

  /** A primary click on the counter (and not on the chain control) counts up. */
  predicate CountsUp(input: PointerInput, h: ControlHover) {
    input.primaryClicked && !h.chainHovered && h.counterHovered
  }

  /** A secondary click on the counter counts down. */
  predicate CountsDown(input: PointerInput, h: ControlHover) {
    input.secondaryClicked && h.counterHovered
  }

  /** A secondary press on the block itself, away from its controls, with a pointer position, starts a resize. */
  predicate StartsResize(input: PointerInput, h: ControlHover, isHoveringBlock: bool) {
    input.secondaryPressed && isHoveringBlock && !AnyControlHovered(h) && input.hoverPos.Some?
  }

  /** The counter after an interaction: up first, then down. */
  function CounterAfter(c: int, input: PointerInput, h: ControlHover): (r: int)
    ensures CountsDown(input, h) ==> 0 <= r
    ensures !CountsUp(input, h) && !CountsDown(input, h) ==> r == c
  {
    var up := if CountsUp(input, h) then Incremented(c) else c;
    if CountsDown(input, h) then Decremented(up) else up
  }

  /** The blocks after an interaction: the chain toggled if asked, then the block's counter updated. */
  function Interacted(bs: seq<ImageBlock>, chains: seq<set<Id>>, index: nat, input: PointerInput, h: ControlHover): (r: seq<ImageBlock>)
    requires index < |bs|
    ensures |r| == |bs|
  {
    var toggled := if TogglesChain(input, h) then ToggledChain(bs, chains, index) else bs;
    toggled[index := toggled[index].(counter := CounterAfter(bs[index].counter, input, h))]
  }

  /** An interaction changes at most chain flags and the one block's counter. */
  lemma InteractedChanges(bs: seq<ImageBlock>, chains: seq<set<Id>>, index: nat, input: PointerInput, h: ControlHover)
    requires index < |bs|
    ensures var r := Interacted(bs, chains, index, input, h);
            (forall i :: 0 <= i < |bs| && i != index ==> r[i] == bs[i].(chained := r[i].chained)) &&
            r[index] == bs[index].(chained := r[index].chained, counter := r[index].counter) &&
            r[index].counter == CounterAfter(bs[index].counter, input, h) &&
            (!TogglesChain(input, h) ==> forall i :: 0 <= i < |bs| ==> r[i].chained == bs[i].chained)
  {
  }

  lemma InteractedAspects(bs: seq<ImageBlock>, chains: seq<set<Id>>, index: nat, input: PointerInput, h: ControlHover)
    requires AllAspects(bs) && index < |bs|
    ensures AllAspects(Interacted(bs, chains, index, input, h))
  {
    var toggled := if TogglesChain(input, h) then ToggledChain(bs, chains, index) else bs;
    if TogglesChain(input, h) {
      ToggledAspects(bs, chains, index);
    }
    UpdatedAspects(toggled, index, toggled[index].(counter := CounterAfter(bs[index].counter, input, h)));
  }

  /** The gesture a secondary press starts: the corner of the pointer's quadrant, and where it began. */
  function ResizeStart(b: ImageBlock, mouse: Vec2, worldMouse: Vec2): (st: InteractionState)
    ensures st.id == b.id && st.initialMouse == mouse && st.initialRect == BlockRect(b)
    ensures (XSign(st.handle) < 0.0 <==> worldMouse.x < BlockRect(b).Center().x)
    ensures (YSign(st.handle) < 0.0 <==> worldMouse.y < BlockRect(b).Center().y)
  {
    var center := BlockRect(b).Center();
    var h := PickHandle(worldMouse, center);
    PickHandleQuadrant(worldMouse, center, h);
    InteractionState(b.id, h, mouse, BlockRect(b))
  }

  // ---------------------------------------------------------------------------
  // Dragging
  // ---------------------------------------------------------------------------

  /** The block at `j` moves with a drag of the block at `index`: both chained, different ids. */
  predicate Follows(bs: seq<ImageBlock>, index: nat, j: nat)
    requires index < |bs| && j < |bs|
  {
    bs[index].chained && bs[j].chained && bs[j].id != bs[index].id
  }

  /**
   * A drag step of `process_block_drag`: the block goes to `newPos` and, when it is chained, every
   * other chained block whose id differs moves by the same amount.
   */
  function Dragged(bs: seq<ImageBlock>, index: nat, newPos: Vec2): (r: seq<ImageBlock>)
    requires index < |bs|
    ensures |r| == |bs|
  {
    var leader := bs[index];
    var delta := newPos.Minus(leader.pos);
    var placed := bs[index := leader.(pos := newPos)];
    if !leader.chained then placed
    else seq(|bs|, i requires 0 <= i < |bs| =>
               if placed[i].chained && placed[i].id != leader.id then placed[i].(pos := placed[i].pos.Plus(delta)) else placed[i])
  }

  /**
   * A drag moves the chain rigidly: the dragged block lands on `newPos`, every follower keeps its
   * offset from it, and nothing else moves or changes but positions.
   */
  lemma DragMovesChainRigidly(bs: seq<ImageBlock>, index: nat, newPos: Vec2)
    requires index < |bs|
    ensures var r := Dragged(bs, index, newPos);
            r[index].pos == newPos &&
            (forall j :: 0 <= j < |bs| ==> r[j] == bs[j].(pos := r[j].pos)) &&
            (forall j :: 0 <= j < |bs| && j != index && !Follows(bs, index, j) ==> r[j] == bs[j]) &&
            (forall j :: 0 <= j < |bs| && Follows(bs, index, j) ==>
               r[j].pos.Minus(r[index].pos) == bs[j].pos.Minus(bs[index].pos))
  {
    var r := Dragged(bs, index, newPos);
    forall j | 0 <= j < |bs| && Follows(bs, index, j)
      ensures r[j].pos.Minus(r[index].pos) == bs[j].pos.Minus(bs[index].pos)
    {
      assert j != index;
    }
  }

  lemma DraggedAspects(bs: seq<ImageBlock>, index: nat, newPos: Vec2)
    requires AllAspects(bs) && index < |bs|
    ensures AllAspects(Dragged(bs, index, newPos))
  {
    var r := Dragged(bs, index, newPos);
    DragMovesChainRigidly(bs, index, newPos);
    forall k | 0 <= k < |r| ensures TreeAspect(r[k]) { SameTreeAspect(r[k], bs[k]); }
  }

  // ---------------------------------------------------------------------------
  // Clicks
  // ---------------------------------------------------------------------------

  /** What `handle_block_click` did. */
  datatype ClickOutcome = ChainToggled | NotAnimated | LoadRequested(path: string) | PlaybackToggled

  /** The branch `handle_block_click` takes for a block. */
  function ClickOutcomeFor(b: ImageBlock, ctrlHeld: bool): (o: ClickOutcome)
    ensures o == ChainToggled <==> ctrlHeld
    ensures o == PlaybackToggled <==> !ctrlHeld && b.hasAnimation && b.isFullSequence
    ensures o.LoadRequested? <==> !ctrlHeld && b.hasAnimation && !b.isFullSequence
    ensures o.LoadRequested? ==> o.path == b.path
  {
    if ctrlHeld then ChainToggled
    else if !b.hasAnimation then NotAnimated
    else if !b.isFullSequence then LoadRequested(b.path)
    else PlaybackToggled
  }

  /** A view that agrees with boxing field by field is the boxed view. */
  lemma BoxView(v: AppView, groupId: Id, w: real, u: AppView)
    requires AllAspects(v.blocks) && AllAspects(Boxed(v.blocks, groupId)) && Reflowable(Boxed(v.blocks, groupId), w)
    requires u.blocks == Reflowed(Boxed(v.blocks, groupId), w) && u.lastUnboxedIds == [] && u.lastBoxedId == Some(BoxedId(v.blocks, groupId))
    requires u.nextBlockId == v.nextBlockId + (if |ChainedIndices(v.blocks)| > 0 then 1 else 0)
    ensures u == Box(v, groupId, w)
  {
  }

  // ---------------------------------------------------------------------------
  // The app
  // ---------------------------------------------------------------------------

  class MaBlocksApp {
    var manager: BlockManager
    var resizingState: Option<InteractionState>
    var skipChainCancel: bool
    var workingInnerWidth: real
    var lastUnboxedIds: seq<Id>
    var lastBoxedId: Option<Id>

    /**
     * Every block tree has a non-zero aspect ratio (so the blocks reflow at any width), the
     * remembered chains are disjoint, and the animation access order is a bounded list
     * without repeats.
     */
    predicate Valid()
      reads this, manager
    {
      AllAspects(manager.blocks) &&
      PairwiseDisjoint(manager.rememberedChains) &&
      NoDuplicates(manager.animationAccessOrder) && |manager.animationAccessOrder| <= MAX_CACHED_ANIMATIONS
    }

    /** The state the box/unbox toggle works on. */
    function View(): AppView
      reads this, manager
    {
      AppView(manager.blocks, lastUnboxedIds, lastBoxedId, manager.nextBlockId)
    }

    /** `MaBlocksApp::new` with no saved session. */
    constructor ()
      ensures Valid() && fresh(manager)
      ensures manager.blocks == [] && manager.rememberedChains == [] && manager.animationAccessOrder == []
      ensures manager.nextBlockId == 0
      ensures resizingState == None && !skipChainCancel && workingInnerWidth == CANVAS_WORKING_WIDTH
      ensures lastUnboxedIds == [] && lastBoxedId == None
    {
      manager := new BlockManager();
      resizingState := None;
      skipChainCancel := false;
      workingInnerWidth := CANVAS_WORKING_WIDTH;
      lastUnboxedIds := [];
      lastBoxedId := None;
    }

    /** `reflow_blocks`. */
    method ReflowBlocks()
      requires Valid()
      modifies manager
      ensures Valid()
      ensures Reflowable(old(manager.blocks), workingInnerWidth) && manager.blocks == Reflowed(old(manager.blocks), workingInnerWidth)
      ensures manager.rememberedChains == old(manager.rememberedChains)
      ensures manager.animationAccessOrder == old(manager.animationAccessOrder)
      ensures manager.nextBlockId == old(manager.nextBlockId)
    {
      ReflowedAspects(manager.blocks, workingInnerWidth);
      manager.Reflow(workingInnerWidth);
    }

    /** `clear_chain_group`: the chain is remembered and cleared, and the next background click counts again. */
    method ClearChainGroup()
      requires Valid()
      modifies this, manager
      ensures Valid() && manager == old(manager)
      ensures manager.blocks == Unchained(old(manager.blocks))
      ensures manager.rememberedChains == Remembered(old(manager.rememberedChains), ChainedIds(old(manager.blocks)))
      ensures manager.animationAccessOrder == old(manager.animationAccessOrder)
      ensures manager.nextBlockId == old(manager.nextBlockId)
      ensures !skipChainCancel
      ensures resizingState == old(resizingState) && workingInnerWidth == old(workingInnerWidth)
      ensures lastUnboxedIds == old(lastUnboxedIds) && lastBoxedId == old(lastBoxedId)
    {
      RememberedDisjoint(manager.rememberedChains, ChainedIds(manager.blocks));
      UnchainedAspects(manager.blocks);
      manager.ClearChainGroup();
      skipChainCancel := false;
    }

    /** `toggle_chain_for_block`: the click that toggled must not also cancel the chain. */
    method ToggleChainForBlock(index: nat)
      requires Valid() && index < |manager.blocks|
      modifies this, manager
      ensures Valid() && manager == old(manager)
      ensures manager.blocks == ToggledChain(old(manager.blocks), old(manager.rememberedChains), index)
      ensures manager.rememberedChains == old(manager.rememberedChains)
      ensures manager.animationAccessOrder == old(manager.animationAccessOrder)
      ensures manager.nextBlockId == old(manager.nextBlockId)
      ensures skipChainCancel
      ensures resizingState == old(resizingState) && workingInnerWidth == old(workingInnerWidth)
      ensures lastUnboxedIds == old(lastUnboxedIds) && lastBoxedId == old(lastBoxedId)
    {
      ToggledAspects(manager.blocks, manager.rememberedChains, index);
      manager.ToggleChain(index);
      skipChainCancel := true;
    }

    /** `box_group`: box the chained blocks, reflow, and return the new group's id (nil when nothing is chained). */
    method BoxGroup(groupId: Id) returns (newId: Id)
      requires Valid()
      modifies manager
      ensures Valid()
      ensures AllAspects(Boxed(old(manager.blocks), groupId)) && Reflowable(Boxed(old(manager.blocks), groupId), workingInnerWidth)
      ensures manager.blocks == Reflowed(Boxed(old(manager.blocks), groupId), workingInnerWidth)
      ensures newId == BoxedId(old(manager.blocks), groupId)
      ensures manager.nextBlockId == old(manager.nextBlockId) + (if |ChainedIndices(old(manager.blocks))| > 0 then 1 else 0)
      ensures manager.rememberedChains == old(manager.rememberedChains)
      ensures manager.animationAccessOrder == old(manager.animationAccessOrder)
    {
      BoxedAspects(manager.blocks, groupId);
      newId := manager.BoxChained(groupId);
      ReflowBlocks();
    }

    /** `unbox_group`: unbox the block at `index`, then reflow. */
    method UnboxGroup(index: nat)
      requires Valid() && index < |manager.blocks|
      modifies manager
      ensures Valid()
      ensures AllAspects(Unboxed(old(manager.blocks), index)) && Reflowable(Unboxed(old(manager.blocks), index), workingInnerWidth)
      ensures manager.blocks == Reflowed(Unboxed(old(manager.blocks), index), workingInnerWidth)
      ensures manager.nextBlockId == old(manager.nextBlockId)
      ensures manager.rememberedChains == old(manager.rememberedChains)
      ensures manager.animationAccessOrder == old(manager.animationAccessOrder)
    {
      UnboxedAspects(manager.blocks, index);
      var _ := manager.UnboxGroup(index);
      ReflowBlocks();
    }

    /** The loop of `try_rebox_last_unboxed`: chain every block whose id is in `ids`; report whether any was. */
    method ChainMatchingBlocks(ids: seq<Id>) returns (found: bool)
      modifies manager
      ensures manager.blocks == ChainMatching(old(manager.blocks), ids)
      ensures found == AnyMatch(old(manager.blocks), ids)
      ensures manager.nextBlockId == old(manager.nextBlockId)
      ensures manager.rememberedChains == old(manager.rememberedChains)
      ensures manager.animationAccessOrder == old(manager.animationAccessOrder)
    {
      ghost var orig := manager.blocks;
      found := false;
      for i := 0 to |manager.blocks|
        invariant |manager.blocks| == |orig|
        invariant forall j :: 0 <= j < i ==> manager.blocks[j] == ChainMatching(orig, ids)[j]
        invariant forall j :: i <= j < |orig| ==> manager.blocks[j] == orig[j]
        invariant found <==> exists j :: 0 <= j < i && orig[j].id in ids
        invariant manager.nextBlockId == old(manager.nextBlockId)
        invariant manager.rememberedChains == old(manager.rememberedChains)
        invariant manager.animationAccessOrder == old(manager.animationAccessOrder)
      {
        if manager.blocks[i].id in ids {
          manager.blocks := manager.blocks[i := manager.blocks[i].(chained := true)];
          found := true;
        }
      }
      assert manager.blocks == ChainMatching(orig, ids);
    }

    /** `try_rebox_last_unboxed`. */
    method TryReboxLastUnboxed(groupId: Id) returns (acted: bool)
      requires Valid()
      modifies this, manager
      ensures Valid() && manager == old(manager)
      ensures acted == Rebox(old(View()), groupId, workingInnerWidth).acted
      ensures View() == Rebox(old(View()), groupId, workingInnerWidth).view
      ensures manager.rememberedChains == old(manager.rememberedChains)
      ensures manager.animationAccessOrder == old(manager.animationAccessOrder)
      ensures resizingState == old(resizingState) && skipChainCancel == old(skipChainCancel)
      ensures workingInnerWidth == old(workingInnerWidth)
    {
      if lastUnboxedIds == [] {
        return false;
      }
      ghost var v := View();
      MatchingAspects(manager.blocks, lastUnboxedIds);
      acted := ChainMatchingBlocks(lastUnboxedIds);
      if acted {
        ghost var m := View();
        assert m == v.(blocks := ChainMatching(v.blocks, v.lastUnboxedIds));
        BoxAndRemember(groupId);
        assert Rebox(v, groupId, workingInnerWidth) == Step(true, Box(m, groupId, workingInnerWidth));
      } else {
        MatchingWithoutMatch(v.blocks, v.lastUnboxedIds);
      }
    }

    /** Box the chained blocks and remember the new group as the one to unbox next. */
    method BoxAndRemember(groupId: Id)
      requires Valid()
      modifies this, manager
      ensures Valid() && manager == old(manager)
      ensures View() == Box(old(View()), groupId, workingInnerWidth)
      ensures manager.rememberedChains == old(manager.rememberedChains)
      ensures manager.animationAccessOrder == old(manager.animationAccessOrder)
      ensures resizingState == old(resizingState) && skipChainCancel == old(skipChainCancel)
      ensures workingInnerWidth == old(workingInnerWidth)
    {
      ghost var v := View();
      var id := BoxGroup(groupId);
      lastBoxedId := Some(id);
      lastUnboxedIds := [];
      BoxView(v, groupId, workingInnerWidth, View());
    }

    /** The common tail of the two unboxing steps: remember the children's ids, unbox, forget the group. */
    method UnboxAndForget(index: nat)
      requires Valid() && index < |manager.blocks|
      modifies this, manager
      ensures Valid() && manager == old(manager)
      ensures View() == UnboxAt(old(View()), index, workingInnerWidth)
      ensures manager.rememberedChains == old(manager.rememberedChains)
      ensures manager.animationAccessOrder == old(manager.animationAccessOrder)
      ensures resizingState == old(resizingState) && skipChainCancel == old(skipChainCancel)
      ensures workingInnerWidth == old(workingInnerWidth)
    {
      lastUnboxedIds := IdsOf(manager.blocks[index].children);
      UnboxGroup(index);
      lastBoxedId := None;
    }

    /** `try_unbox_last_boxed`. */
    method TryUnboxLastBoxed() returns (acted: bool)
      requires Valid()
      modifies this, manager
      ensures Valid() && manager == old(manager)
      ensures acted == UnboxLast(old(View()), workingInnerWidth).acted
      ensures View() == UnboxLast(old(View()), workingInnerWidth).view
      ensures manager.rememberedChains == old(manager.rememberedChains)
      ensures manager.animationAccessOrder == old(manager.animationAccessOrder)
      ensures resizingState == old(resizingState) && skipChainCancel == old(skipChainCancel)
      ensures workingInnerWidth == old(workingInnerWidth)
    {
      if lastBoxedId.None? {
        return false;
      }
      var index := BlockIndexInSlice(manager.blocks, lastBoxedId.value);
      if index.None? {
        return false;
      }
      UnboxAndForget(index.value);
      acted := true;
    }

    /** `unbox_single_chained_group`. */
    method UnboxSingleChainedGroup() returns (acted: bool)
      requires Valid()
      modifies this, manager
      ensures Valid() && manager == old(manager)
      ensures acted == UnboxSingle(old(View()), workingInnerWidth).acted
      ensures View() == UnboxSingle(old(View()), workingInnerWidth).view
      ensures manager.rememberedChains == old(manager.rememberedChains)
      ensures manager.animationAccessOrder == old(manager.animationAccessOrder)
      ensures resizingState == old(resizingState) && skipChainCancel == old(skipChainCancel)
      ensures workingInnerWidth == old(workingInnerWidth)
    {
      var groups := ChainedGroups(manager.blocks);
      if |groups| != 1 {
        return false;
      }
      ghost var v := View();
      UnboxAndForget(groups[0]);
      assert UnboxSingle(v, workingInnerWidth) == Step(true, UnboxAt(v, groups[0], workingInnerWidth));
      acted := true;
    }

    /** `toggle_compact_group`: the toolbar's box/unbox button. `groupId` is the id a new group would get. */
    method ToggleCompactGroup(groupId: Id)
      requires Valid()
      modifies this, manager
      ensures Valid() && manager == old(manager)
      ensures View() == ToggleCompact(old(View()), groupId, workingInnerWidth)
      ensures manager.rememberedChains == old(manager.rememberedChains)
      ensures manager.animationAccessOrder == old(manager.animationAccessOrder)
      ensures resizingState == old(resizingState) && skipChainCancel == old(skipChainCancel)
      ensures workingInnerWidth == old(workingInnerWidth)
    {
      ghost var v := View();
      ghost var w := workingInnerWidth;
      var chainedCount := CountChained(manager.blocks);
      if chainedCount == 0 {
        var reboxed := TryReboxLastUnboxed(groupId);
        if reboxed {
          assert ToggleCompact(v, groupId, w) == Rebox(v, groupId, w).view;
          return;
        }
        var unboxed := TryUnboxLastBoxed();
        assert ToggleCompact(v, groupId, w) == UnboxLast(v, w).view;
        return;
      }
      var single := UnboxSingleChainedGroup();
      if single {
        assert ToggleCompact(v, groupId, w) == UnboxSingle(v, w).view;
        return;
      }
      if chainedCount > 0 {
        BoxAndRemember(groupId);
        assert ToggleCompact(v, groupId, w) == Box(v, groupId, w);
      }
    }

    /**
     * The drag step of `process_block_drag` once the pointer has moved: `newPos` is where the
     * pointer puts the block, in world units.
     */
    method DragBlock(index: nat, newPos: Vec2)
      requires Valid() && index < |manager.blocks|
      modifies manager
      ensures Valid()
      ensures manager.blocks == Dragged(old(manager.blocks), index, newPos)
      ensures manager.nextBlockId == old(manager.nextBlockId)
      ensures manager.rememberedChains == old(manager.rememberedChains)
      ensures manager.animationAccessOrder == old(manager.animationAccessOrder)
    {
      ghost var orig := manager.blocks;
      var oldPos := manager.blocks[index].pos;
      var isChained := manager.blocks[index].chained;
      var leaderId := manager.blocks[index].id;
      var delta := newPos.Minus(oldPos);
      manager.blocks := manager.blocks[index := manager.blocks[index].(pos := newPos)];
      if isChained {
        ghost var placed := manager.blocks;
        for i := 0 to |manager.blocks|
          invariant |manager.blocks| == |orig|
          invariant forall j :: 0 <= j < i ==> manager.blocks[j] == Dragged(orig, index, newPos)[j]
          invariant forall j :: i <= j < |orig| ==> manager.blocks[j] == placed[j]
          invariant manager.nextBlockId == old(manager.nextBlockId)
          invariant manager.rememberedChains == old(manager.rememberedChains)
          invariant manager.animationAccessOrder == old(manager.animationAccessOrder)
        {
          var other := manager.blocks[i];
          if other.chained && other.id != leaderId {
            manager.blocks := manager.blocks[i := other.(pos := other.pos.Plus(delta))];
          }
        }
      }
      assert manager.blocks == Dragged(orig, index, newPos);
      DraggedAspects(orig, index, newPos);
    }

    /**
     * `handle_block_interaction`: the chain and counter controls, and the start of a resize.
     * `worldMouse` is the hover position in world units. Returns whether the background click
     * handler must skip this frame.
     */
    method HandleBlockInteraction(index: nat, input: PointerInput, hover: ControlHover, isHoveringBlock: bool, worldMouse: Vec2)
      returns (skip: bool)
      requires Valid() && index < |manager.blocks|
      modifies this, manager
      ensures Valid() && manager == old(manager)
      ensures skip == (CountsUp(input, hover) || CountsDown(input, hover))
      ensures manager.blocks == Interacted(old(manager.blocks), old(manager.rememberedChains), index, input, hover)
      ensures resizingState ==
                if StartsResize(input, hover, isHoveringBlock)
                then Some(ResizeStart(manager.blocks[index], input.hoverPos.value, worldMouse))
                else old(resizingState)
      ensures skipChainCancel == (old(skipChainCancel) || TogglesChain(input, hover))
      ensures manager.rememberedChains == old(manager.rememberedChains)
      ensures manager.animationAccessOrder == old(manager.animationAccessOrder)
      ensures manager.nextBlockId == old(manager.nextBlockId)
      ensures workingInnerWidth == old(workingInnerWidth)
      ensures lastUnboxedIds == old(lastUnboxedIds) && lastBoxedId == old(lastBoxedId)
    {
      ghost var bs := manager.blocks;
      ghost var c := manager.blocks[index].counter;
      InteractedAspects(bs, manager.rememberedChains, index, input, hover);
      skip := false;
      var anyHovered := hover.closeHovered || hover.chainHovered || hover.counterHovered;
      if input.primaryClicked {
        if hover.chainHovered {
          ToggleChainForBlock(index);
        } else if hover.counterHovered {
          var b := manager.blocks[index];
          manager.blocks := manager.blocks[index := b.(counter := Incremented(b.counter))];
          skip := true;
        }
      }
      if input.secondaryClicked && hover.counterHovered {
        var b := manager.blocks[index];
        manager.blocks := manager.blocks[index := b.(counter := Decremented(b.counter))];
        skip := true;
      }
      if input.secondaryPressed && isHoveringBlock && !anyHovered {
        if input.hoverPos.Some? {
          var b := manager.blocks[index];
          resizingState := Some(ResizeStart(b, input.hoverPos.value, worldMouse));
        }
      }
    }

    /**
     * `handle_block_click`: with Ctrl the chain toggles; otherwise an animation that is only
     * partly loaded asks for the full load (left to the caller), and a loaded one toggles
     * playback, marking it used when it starts.
     */
    method HandleBlockClick(index: nat, ctrlHeld: bool) returns (outcome: ClickOutcome)
      requires Valid() && index < |manager.blocks|
      modifies this, manager
      ensures Valid() && manager == old(manager)
      ensures outcome == ClickOutcomeFor(old(manager.blocks[index]), ctrlHeld)
      ensures outcome == ChainToggled ==>
                manager.blocks == ToggledChain(old(manager.blocks), old(manager.rememberedChains), index) && skipChainCancel
      ensures outcome != ChainToggled ==> skipChainCancel == old(skipChainCancel)
      ensures outcome.NotAnimated? || outcome.LoadRequested? ==>
                manager.blocks == old(manager.blocks) && manager.animationAccessOrder == old(manager.animationAccessOrder)
      ensures outcome == PlaybackToggled ==>
                var t := ToggleAnimation(old(manager.blocks[index]));
                var bs := old(manager.blocks)[index := t];
                if t.animationEnabled then
                  manager.blocks == MarkedBlocks(bs, old(manager.animationAccessOrder), t.id) &&
                  manager.animationAccessOrder == MarkedOrder(old(manager.animationAccessOrder), t.id)
                else
                  manager.blocks == bs && manager.animationAccessOrder == old(manager.animationAccessOrder)
      ensures manager.rememberedChains == old(manager.rememberedChains)
      ensures manager.nextBlockId == old(manager.nextBlockId)
      ensures resizingState == old(resizingState) && workingInnerWidth == old(workingInnerWidth)
      ensures lastUnboxedIds == old(lastUnboxedIds) && lastBoxedId == old(lastBoxedId)
    {
      var b := manager.blocks[index];
      outcome := ClickOutcomeFor(b, ctrlHeld);
      if ctrlHeld {
        ToggleChainForBlock(index);
        return;
      }
      if !b.hasAnimation {
        return;
      }
      if !b.isFullSequence {
        return;
      }
      var t := ToggleAnimation(b);
      UpdatedAspects(manager.blocks, index, t);
      manager.blocks := manager.blocks[index := t];
      if t.animationEnabled {
        MarkedAspects(manager.blocks, manager.animationAccessOrder, t.id);
        MarkedBounded(manager.animationAccessOrder, t.id);
        manager.MarkAnimationUsed(t.id);
      }
    }
  }
}
