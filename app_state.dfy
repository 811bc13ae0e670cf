/**
 * The box/unbox toggle of `MaBlocksApp` in src/main.rs, on values: the blocks together with the
 * app's memory of the last unbox (`last_unboxed_ids`) and the last box (`last_boxed_id`). A
 * single toggle boxes the chained blocks, unboxes a lone chained group, or, with nothing chained,
 * re-boxes what was last unboxed or unboxes what was last boxed. Each step reflows afterwards.
 */
module AppState {
  import opened Wrappers
  import opened Blocks
  import opened Chains
  import opened Reorder
  import opened Grouping
  import opened Reflow
  import opened AppInvariant

  /** The state the toggle reads and writes; `nextBlockId` counts the group textures made. */
  datatype AppView = AppView(blocks: seq<ImageBlock>, lastUnboxedIds: seq<Id>, lastBoxedId: Option<Id>, nextBlockId: nat)

  /** Whether a step acted (the `bool` the source returns), and the state after it. */
  datatype Step = Step(acted: bool, view: AppView)

  // ---------------------------------------------------------------------------
  // Helpers of the steps
  // ---------------------------------------------------------------------------

  /** The loop of `try_rebox_last_unboxed`: every block whose id was last unboxed becomes chained. */
  function ChainMatching(bs: seq<ImageBlock>, ids: seq<Id>): (r: seq<ImageBlock>)
    ensures |r| == |bs|
    ensures forall i :: 0 <= i < |bs| ==> r[i].chained == (bs[i].chained || bs[i].id in ids)
    ensures forall i :: 0 <= i < |bs| ==> r[i] == bs[i].(chained := r[i].chained)
  {
    seq(|bs|, i requires 0 <= i < |bs| => if bs[i].id in ids then bs[i].(chained := true) else bs[i])
  }

  /** `found_any`: some block's id was last unboxed. */
  predicate AnyMatch(bs: seq<ImageBlock>, ids: seq<Id>) {
    exists i :: 0 <= i < |bs| && bs[i].id in ids
  }

  /** Chaining keeps the app invariant. */
  lemma MatchingAspects(bs: seq<ImageBlock>, ids: seq<Id>)
    requires AllAspects(bs)
    ensures AllAspects(ChainMatching(bs, ids))
  {
    var m := ChainMatching(bs, ids);
    forall i | 0 <= i < |m| ensures TreeAspect(m[i]) { SameTreeAspect(m[i], bs[i]); }
  }

  /** With no block matching, the loop changes nothing. */
  lemma MatchingWithoutMatch(bs: seq<ImageBlock>, ids: seq<Id>)
    requires !AnyMatch(bs, ids)
    ensures ChainMatching(bs, ids) == bs
  {
    var r := ChainMatching(bs, ids);
    forall i | 0 <= i < |bs|
      ensures r[i] == bs[i]
    {
      assert bs[i].id !in ids;
    }
  }

  /** The indices of the chained groups, ascending (the filter of `unbox_single_chained_group`). */
  function ChainedGroups(bs: seq<ImageBlock>): (r: seq<nat>)
    ensures forall k :: 0 <= k < |r| ==> r[k] < |bs| && bs[r[k]].chained && bs[r[k]].isGroup
    ensures forall i :: 0 <= i < |bs| && bs[i].chained && bs[i].isGroup ==> i in r
    ensures forall k, l :: 0 <= k < l < |r| ==> r[k] < r[l]
  {
    ChainedGroupsBelow(bs, |bs|)
  }

  function ChainedGroupsBelow(bs: seq<ImageBlock>, n: nat): (r: seq<nat>)
    requires n <= |bs|
    ensures forall k :: 0 <= k < |r| ==> r[k] < n && bs[r[k]].chained && bs[r[k]].isGroup
    ensures forall i :: 0 <= i < n && bs[i].chained && bs[i].isGroup ==> i in r
    ensures forall k, l :: 0 <= k < l < |r| ==> r[k] < r[l]
  {
    if n == 0 then []
    else ChainedGroupsBelow(bs, n - 1) + (if bs[n - 1].chained && bs[n - 1].isGroup then [n - 1] else [])
  }

  /** The id `box_chained` returns: the new group's, or nil when nothing is chained. */
  function BoxedId(bs: seq<ImageBlock>, groupId: Id): Id {
    if |ChainedIndices(bs)| > 0 then groupId else NIL_ID
  }

  /**
   * `last_boxed_id = Some(self.box_group(ctx)); last_unboxed_ids.clear()`: box the chained blocks,
   * reflow, and remember the group. `groupId` stands for the fresh id of the group.
   */
  function Box(v: AppView, groupId: Id, w: real): (r: AppView)
    requires AllAspects(v.blocks)
    ensures AllAspects(r.blocks)
  {
    BoxedAspects(v.blocks, groupId);
    ReflowedAspects(Boxed(v.blocks, groupId), w);
    var made := if |ChainedIndices(v.blocks)| > 0 then 1 else 0;
    AppView(Reflowed(Boxed(v.blocks, groupId), w), [], Some(BoxedId(v.blocks, groupId)), v.nextBlockId + made)
  }

  /** The common tail of the two unboxing steps: remember the children's ids, unbox, reflow, forget the group. */
  function UnboxAt(v: AppView, index: nat, w: real): (r: AppView)
    requires AllAspects(v.blocks) && index < |v.blocks|
    ensures AllAspects(r.blocks)
  {
    UnboxedAspects(v.blocks, index);
    ReflowedAspects(Unboxed(v.blocks, index), w);
    AppView(Reflowed(Unboxed(v.blocks, index), w), IdsOf(v.blocks[index].children), None, v.nextBlockId)
  }

  // ---------------------------------------------------------------------------
  // The steps
  // ---------------------------------------------------------------------------

  /** `try_rebox_last_unboxed`. */
  function Rebox(v: AppView, groupId: Id, w: real): (s: Step)
    requires AllAspects(v.blocks)
    ensures !s.acted ==> s.view == v
    ensures AllAspects(s.view.blocks)
  {
    if v.lastUnboxedIds == [] then Step(false, v)
    else if !AnyMatch(v.blocks, v.lastUnboxedIds) then Step(false, v)
    else
      var m := ChainMatching(v.blocks, v.lastUnboxedIds);
      MatchingAspects(v.blocks, v.lastUnboxedIds);
      Step(true, Box(v.(blocks := m), groupId, w))
  }

  /** `try_unbox_last_boxed`. */
  function UnboxLast(v: AppView, w: real): (s: Step)
    requires AllAspects(v.blocks)
    ensures !s.acted ==> s.view == v
    ensures AllAspects(s.view.blocks)
  {
    match v.lastBoxedId
    case None => Step(false, v)
    case Some(id) =>
      match BlockIndexInSlice(v.blocks, id)
      case None => Step(false, v)
      case Some(index) => Step(true, UnboxAt(v, index, w))
  }

  /** `unbox_single_chained_group`. */
  function UnboxSingle(v: AppView, w: real): (s: Step)
    requires AllAspects(v.blocks)
    ensures !s.acted ==> s.view == v
    ensures s.acted <==> |ChainedGroups(v.blocks)| == 1
    ensures AllAspects(s.view.blocks)
  {
    var groups := ChainedGroups(v.blocks);
    if |groups| != 1 then Step(false, v) else Step(true, UnboxAt(v, groups[0], w))
  }

  /**
   * `toggle_compact_group`. Its final `chained_count > 0` guard always holds where it is reached,
   * since the zero case returned earlier.
   */
  function ToggleCompact(v: AppView, groupId: Id, w: real): (r: AppView)
    requires AllAspects(v.blocks)
    ensures AllAspects(r.blocks)
  {
    if CountChained(v.blocks) == 0 then
      var rebox := Rebox(v, groupId, w);
      if rebox.acted then rebox.view else UnboxLast(v, w).view
    else
      var single := UnboxSingle(v, w);
      if single.acted then single.view else Box(v, groupId, w)
  }

  // ---------------------------------------------------------------------------
  // What a step does to the blocks
  // ---------------------------------------------------------------------------

  /** Two lists that agree, block by block, on everything the toggle looks at. */
  predicate SameShape(r: seq<ImageBlock>, bs: seq<ImageBlock>) {
    |r| == |bs| &&
    forall i :: 0 <= i < |r| ==>
      r[i].id == bs[i].id && r[i].chained == bs[i].chained && r[i].isGroup == bs[i].isGroup &&
      r[i].children == bs[i].children
  }

  /** Reflow keeps each block but its position and current size. */
  lemma ReflowSameShape(bs: seq<ImageBlock>, w: real)
    requires Reflowable(bs, w)
    ensures SameShape(Reflowed(bs, w), bs)
  {
    ReflowChangesOnlyGeometry(bs, w);
  }

  lemma SameShapeIds(r: seq<ImageBlock>, bs: seq<ImageBlock>)
    requires SameShape(r, bs)
    ensures IdsOf(r) == IdsOf(bs)
    ensures |bs| > 0 ==> IdsOf(r[1..]) == IdsOf(bs[1..])
  {
  }

  /** Boxing with something chained, before the reflow. */
  lemma BoxedFacts(bs: seq<ImageBlock>, groupId: Id)
    requires CountChained(bs) > 0
    ensures var b := Boxed(bs, groupId);
            |ChainedIndices(bs)| > 0 &&
            |b| == |bs| - |ChainedBlocks(bs)| + 1 &&
            b[0].id == groupId && b[0].isGroup && b[0].children == ChainedBlocks(bs) &&
            IdsOf(b[1..]) == IdsOf(UnchainedBlocks(bs)) &&
            forall i :: 0 <= i < |b| ==> !b[i].chained
  {
    var i :| 0 <= i < |bs| && bs[i].chained;
    assert i in ChainedIndices(bs);
    BoxedMembers(bs, groupId, i);
    BoxedShape(bs, groupId, i);
    PartsPermutation(bs, NIL_ID, true);
    assert |multiset(bs)| == |ChainedBlocks(bs)| + |UnchainedBlocks(bs)|;
  }

  /**
   * Boxing with something chained: the new group comes first with exactly the chained blocks as
   * children, the other blocks follow, nothing is left chained, and the group is remembered.
   */
  lemma BoxFacts(v: AppView, groupId: Id, w: real)
    requires AllAspects(v.blocks) && CountChained(v.blocks) > 0
    ensures var r := Box(v, groupId, w);
            |r.blocks| == |v.blocks| - |ChainedBlocks(v.blocks)| + 1 &&
            r.blocks[0].id == groupId && r.blocks[0].isGroup &&
            r.blocks[0].children == ChainedBlocks(v.blocks) &&
            IdsOf(r.blocks[1..]) == IdsOf(UnchainedBlocks(v.blocks)) &&
            (forall i :: 0 <= i < |r.blocks| ==> !r.blocks[i].chained) &&
            r.lastBoxedId == Some(groupId) && r.lastUnboxedIds == [] && r.nextBlockId == v.nextBlockId + 1
  {
    var boxed := Boxed(v.blocks, groupId);
    BoxedFacts(v.blocks, groupId);
    BoxedAspects(v.blocks, groupId);
    AllAspectsReflowable(boxed, w);
    ReflowSameShape(boxed, w);
    SameShapeIds(Reflowed(boxed, w), boxed);
  }

  lemma IdsOfAppend(a: seq<ImageBlock>, b: seq<ImageBlock>)
    ensures IdsOf(a + b) == IdsOf(a) + IdsOf(b)
  {
  }

  /** The ids of a splice are those of the list and the run. */
  lemma SpliceIds(remaining: seq<ImageBlock>, k: nat, moved: seq<ImageBlock>)
    requires k <= |remaining|
    ensures multiset(IdsOf(Splice(remaining, k, moved))) == multiset(IdsOf(remaining)) + multiset(IdsOf(moved))
  {
    var a, c := remaining[..k], remaining[k..];
    SpliceParts(remaining, k, moved);
    IdsOfAppend(a + moved, c);
    IdsOfAppend(a, moved);
    IdsOfAppend(a, c);
  }

  lemma SpliceParts(remaining: seq<ImageBlock>, k: nat, moved: seq<ImageBlock>)
    requires k <= |remaining|
    ensures Splice(remaining, k, moved) == remaining[..k] + moved + remaining[k..]
    ensures remaining == remaining[..k] + remaining[k..]
  {
  }

  /** Splitting by the chained flag keeps every id once. */
  lemma {:induction false} PartsIds(bs: seq<ImageBlock>)
    ensures multiset(IdsOf(bs)) == multiset(IdsOf(ChainedBlocks(bs))) + multiset(IdsOf(UnchainedBlocks(bs)))
  {
    if |bs| > 0 {
      var init, last := bs[..|bs| - 1], bs[|bs| - 1];
      PartsIds(init);
      PartsIdsStep(bs, init, last);
    }
  }

  lemma PartsIdsStep(bs: seq<ImageBlock>, init: seq<ImageBlock>, last: ImageBlock)
    requires |bs| > 0 && init == bs[..|bs| - 1] && last == bs[|bs| - 1]
    requires multiset(IdsOf(init)) == multiset(IdsOf(ChainedBlocks(init))) + multiset(IdsOf(UnchainedBlocks(init)))
    ensures multiset(IdsOf(bs)) == multiset(IdsOf(ChainedBlocks(bs))) + multiset(IdsOf(UnchainedBlocks(bs)))
  {
    LastOf(bs);
    IdsOfAppend(init, [last]);
    PartsLast(bs);
    if last.chained {
      IdsOfAppend(ChainedBlocks(init), [last]);
    } else {
      IdsOfAppend(UnchainedBlocks(init), [last]);
    }
  }

  /** The last block goes to the side its flag says. */
  lemma PartsLast(bs: seq<ImageBlock>)
    requires |bs| > 0
    ensures var init, last := bs[..|bs| - 1], bs[|bs| - 1];
            if last.chained then ChainedBlocks(bs) == ChainedBlocks(init) + [last] && UnchainedBlocks(bs) == UnchainedBlocks(init)
            else ChainedBlocks(bs) == ChainedBlocks(init) && UnchainedBlocks(bs) == UnchainedBlocks(init) + [last]
  {
    var init, last := bs[..|bs| - 1], bs[|bs| - 1];
    if last.chained {
      assert UnchainedBlocks(bs) == UnchainedBlocks(init) + [];
    } else {
      assert ChainedBlocks(bs) == ChainedBlocks(init) + [];
    }
  }

  lemma LastOf(bs: seq<ImageBlock>)
    requires |bs| > 0
    ensures bs == bs[..|bs| - 1] + [bs[|bs| - 1]]
  {
  }

  /** Unboxing a group, before the reflow: the ids are the others' and the children's. */
  lemma UnboxedIdsFacts(bs: seq<ImageBlock>, index: nat)
    requires index < |bs| && bs[index].isGroup
    ensures multiset(IdsOf(Unboxed(bs, index))) ==
            multiset(IdsOf(bs[..index] + bs[index + 1..])) + multiset(IdsOf(bs[index].children))
  {
    var rest := bs[..index] + bs[index + 1..];
    var kids := Unchained(bs[index].children);
    SpliceIds(rest, FirstNonGroup(rest), kids);
    assert IdsOf(kids) == IdsOf(bs[index].children);
  }

  /** Unboxing a group, before the reflow: with nothing else chained, nothing is chained after. */
  lemma UnboxedUnchained(bs: seq<ImageBlock>, index: nat)
    requires index < |bs| && bs[index].isGroup
    requires forall i :: 0 <= i < |bs| && i != index ==> !bs[i].chained
    ensures forall i :: 0 <= i < |Unboxed(bs, index)| ==> !Unboxed(bs, index)[i].chained
  {
    var rest := bs[..index] + bs[index + 1..];
    assert forall i :: 0 <= i < |rest| ==> !rest[i].chained by {
      forall i | 0 <= i < |rest| ensures !rest[i].chained {
        if i >= index { assert rest[i] == bs[i + 1]; }
      }
    }
    SpliceUnchained(rest, FirstNonGroup(rest), Unchained(bs[index].children));
  }

  lemma SpliceUnchained(rest: seq<ImageBlock>, k: nat, kids: seq<ImageBlock>)
    requires k <= |rest|
    requires forall i :: 0 <= i < |rest| ==> !rest[i].chained
    requires forall i :: 0 <= i < |kids| ==> !kids[i].chained
    ensures forall i :: 0 <= i < |Splice(rest, k, kids)| ==> !Splice(rest, k, kids)[i].chained
  {
    var u := Splice(rest, k, kids);
    forall i | 0 <= i < |u|
      ensures !u[i].chained
    {
      if k <= i < k + |kids| {
        assert u[i] == u[k..k + |kids|][i - k];
      }
    }
  }

  /**
   * Unboxing the group at `index`: its children, unchained, join the other blocks, so the ids are
   * the others' and the children's; with nothing else chained nothing is chained afterwards.
   */
  lemma UnboxAtFacts(v: AppView, index: nat, w: real)
    requires AllAspects(v.blocks) && index < |v.blocks| && v.blocks[index].isGroup
    ensures var r := UnboxAt(v, index, w);
            var rest := v.blocks[..index] + v.blocks[index + 1..];
            multiset(IdsOf(r.blocks)) == multiset(IdsOf(rest)) + multiset(IdsOf(v.blocks[index].children)) &&
            ((forall i :: 0 <= i < |v.blocks| && i != index ==> !v.blocks[i].chained) ==>
               forall i :: 0 <= i < |r.blocks| ==> !r.blocks[i].chained) &&
            r.lastUnboxedIds == IdsOf(v.blocks[index].children) && r.lastBoxedId == None
  {
    var u := Unboxed(v.blocks, index);
    UnboxedIdsFacts(v.blocks, index);
    if forall i :: 0 <= i < |v.blocks| && i != index ==> !v.blocks[i].chained {
      UnboxedUnchained(v.blocks, index);
    }
    UnboxedAspects(v.blocks, index);
    AllAspectsReflowable(u, w);
    ReflowSameShape(u, w);
    SameShapeIds(Reflowed(u, w), u);
  }

  /** A block at the index of its own id. */
  lemma IndexOfFirst(bs: seq<ImageBlock>)
    requires |bs| > 0
    ensures BlockIndexInSlice(bs, bs[0].id) == Some(0)
  {
  }

  // ---------------------------------------------------------------------------
  // The toggle
  // ---------------------------------------------------------------------------

  /** Nothing chained and nothing remembered: the toggle does nothing. */
  lemma ToggleIdle(v: AppView, groupId: Id, w: real)
    requires AllAspects(v.blocks) && CountChained(v.blocks) == 0
    requires v.lastUnboxedIds == [] && v.lastBoxedId == None
    ensures ToggleCompact(v, groupId, w) == v
  {
  }

  /** With blocks chained but not exactly one chained group, the toggle boxes the chained blocks. */
  lemma ToggleBoxesChained(v: AppView, groupId: Id, w: real)
    requires AllAspects(v.blocks) && CountChained(v.blocks) > 0 && |ChainedGroups(v.blocks)| != 1
    ensures var r := ToggleCompact(v, groupId, w);
            |r.blocks| > 0 && r.blocks[0].id == groupId && r.blocks[0].isGroup &&
            r.blocks[0].children == ChainedBlocks(v.blocks) &&
            (forall i :: 0 <= i < |r.blocks| ==> !r.blocks[i].chained) &&
            r.lastBoxedId == Some(groupId) && r.lastUnboxedIds == []
  {
    ToggleIsBox(v, groupId, w);
    BoxFacts(v, groupId, w);
  }

  lemma ToggleIsBox(v: AppView, groupId: Id, w: real)
    requires AllAspects(v.blocks) && CountChained(v.blocks) > 0 && |ChainedGroups(v.blocks)| != 1
    ensures ToggleCompact(v, groupId, w) == Box(v, groupId, w)
  {
  }

  /** With exactly one chained group, the toggle unboxes it (whatever else is chained) and remembers its children. */
  lemma ToggleUnboxesSingleGroup(v: AppView, groupId: Id, w: real)
    requires AllAspects(v.blocks) && |ChainedGroups(v.blocks)| == 1
    ensures var g := ChainedGroups(v.blocks)[0];
            var r := ToggleCompact(v, groupId, w);
            r.lastUnboxedIds == IdsOf(v.blocks[g].children) && r.lastBoxedId == None &&
            multiset(IdsOf(r.blocks)) == multiset(IdsOf(v.blocks[..g] + v.blocks[g + 1..])) + multiset(IdsOf(v.blocks[g].children))
  {
    var g := ChainedGroups(v.blocks)[0];
    assert v.blocks[g].chained;
    UnboxAtFacts(v, g, w);
  }

  /** Right after a box, the toggle finds nothing chained and nothing to re-box, and unboxes the group. */
  lemma ToggleAfterBox(v: AppView, boxedId: Id, groupId: Id, w: real)
    requires AllAspects(v.blocks) && |v.blocks| > 0 && v.blocks[0].id == boxedId
    requires forall i :: 0 <= i < |v.blocks| ==> !v.blocks[i].chained
    requires v.lastUnboxedIds == [] && v.lastBoxedId == Some(boxedId)
    ensures ToggleCompact(v, groupId, w) == UnboxAt(v, 0, w)
  {
    IndexOfFirst(v.blocks);
  }

  /**
   * Toggling twice from chained blocks undoes the box: the second toggle finds nothing chained and
   * nothing to re-box, so it unboxes the group just made. The same ids are there, none chained,
   * and the chained blocks' ids are remembered for a third toggle.
   */
  lemma ToggleTwiceUnboxes(v: AppView, g1: Id, g2: Id, w: real)
    requires AllAspects(v.blocks) && CountChained(v.blocks) > 0 && |ChainedGroups(v.blocks)| != 1
    ensures var v3 := ToggleCompact(ToggleCompact(v, g1, w), g2, w);
            v3.lastUnboxedIds == IdsOf(ChainedBlocks(v.blocks)) && v3.lastBoxedId == None &&
            multiset(IdsOf(v3.blocks)) == multiset(IdsOf(v.blocks)) &&
            (forall i :: 0 <= i < |v3.blocks| ==> !v3.blocks[i].chained)
  {
    ToggleTwiceIsUnbox(v, g1, g2, w);
    BoxFacts(v, g1, w);
    ToggleAfterBoxFacts(v, Box(v, g1, w), g1, w);
  }

  lemma ToggleTwiceIsUnbox(v: AppView, g1: Id, g2: Id, w: real)
    requires AllAspects(v.blocks) && CountChained(v.blocks) > 0 && |ChainedGroups(v.blocks)| != 1
    ensures |Box(v, g1, w).blocks| > 0
    ensures ToggleCompact(ToggleCompact(v, g1, w), g2, w) == UnboxAt(Box(v, g1, w), 0, w)
  {
    var v2 := Box(v, g1, w);
    ToggleIsBox(v, g1, w);
    BoxFacts(v, g1, w);
    assert ToggleCompact(v, g1, w) == v2;
    ToggleAfterBox(v2, g1, g2, w);
  }

  lemma ToggleAfterBoxFacts(v: AppView, v2: AppView, g1: Id, w: real)
    requires AllAspects(v.blocks) && AllAspects(v2.blocks) && |v2.blocks| > 0 && v2.blocks[0].isGroup
    requires v2.blocks[0].children == ChainedBlocks(v.blocks)
    requires IdsOf(v2.blocks[1..]) == IdsOf(UnchainedBlocks(v.blocks))
    requires forall i :: 0 <= i < |v2.blocks| ==> !v2.blocks[i].chained
    ensures var v3 := UnboxAt(v2, 0, w);
            v3.lastUnboxedIds == IdsOf(ChainedBlocks(v.blocks)) && v3.lastBoxedId == None &&
            multiset(IdsOf(v3.blocks)) == multiset(IdsOf(v.blocks)) &&
            (forall i :: 0 <= i < |v3.blocks| ==> !v3.blocks[i].chained)
  {
    UnboxAtFacts(v2, 0, w);
    assert v2.blocks[..0] + v2.blocks[1..] == v2.blocks[1..];
    PartsIds(v.blocks);
  }

  /**
   * A third toggle re-boxes: the remembered ids are on the canvas again and nothing is chained,
   * so the toggle chains them and boxes them into a new group.
   */
  lemma ToggleThriceReboxes(v: AppView, g1: Id, g2: Id, g3: Id, w: real)
    requires AllAspects(v.blocks) && CountChained(v.blocks) > 0 && |ChainedGroups(v.blocks)| != 1
    ensures var v4 := ToggleCompact(ToggleCompact(ToggleCompact(v, g1, w), g2, w), g3, w);
            v4.lastBoxedId == Some(g3) && v4.lastUnboxedIds == [] &&
            |v4.blocks| > 0 && v4.blocks[0].id == g3 && v4.blocks[0].isGroup &&
            forall c :: c in v4.blocks[0].children ==> c.id in IdsOf(ChainedBlocks(v.blocks))
  {
    var v3 := ToggleCompact(ToggleCompact(v, g1, w), g2, w);
    ToggleTwiceUnboxes(v, g1, g2, w);
    RememberedOnCanvas(v, v3);
    ToggleReboxes(v3, g3, w);
  }

  /** After the second toggle some remembered id is on the canvas. */
  lemma RememberedOnCanvas(v: AppView, v3: AppView)
    requires CountChained(v.blocks) > 0
    requires v3.lastUnboxedIds == IdsOf(ChainedBlocks(v.blocks))
    requires multiset(IdsOf(v3.blocks)) == multiset(IdsOf(v.blocks))
    ensures v3.lastUnboxedIds != [] && AnyMatch(v3.blocks, v3.lastUnboxedIds)
  {
    var i :| 0 <= i < |v.blocks| && v.blocks[i].chained;
    var x := v.blocks[i].id;
    ChainedIdListed(v.blocks, i);
    PartsIds(v.blocks);
    IdOnCanvas(v3.blocks, x, v3.lastUnboxedIds);
  }

  /** The id of a chained block is among the chained blocks' ids. */
  lemma ChainedIdListed(bs: seq<ImageBlock>, i: nat)
    requires i < |bs| && bs[i].chained
    ensures bs[i].id in IdsOf(ChainedBlocks(bs))
  {
    MovedPartContains(bs, NIL_ID, true, i);
    var ch := ChainedBlocks(bs);
    var k :| 0 <= k < |ch| && ch[k] == bs[i];
    assert IdsOf(ch)[k] == bs[i].id;
  }

  lemma IdOnCanvas(bs: seq<ImageBlock>, x: Id, ids: seq<Id>)
    requires x in multiset(IdsOf(bs)) && x in ids
    ensures AnyMatch(bs, ids)
  {
    var j :| 0 <= j < |bs| && IdsOf(bs)[j] == x;
    assert bs[j].id in ids;
  }

  /** With nothing chained and a remembered id on the canvas, the toggle re-boxes the remembered blocks. */
  lemma ToggleReboxes(v: AppView, groupId: Id, w: real)
    requires AllAspects(v.blocks) && (forall i :: 0 <= i < |v.blocks| ==> !v.blocks[i].chained)
    requires v.lastUnboxedIds != [] && AnyMatch(v.blocks, v.lastUnboxedIds)
    ensures var r := ToggleCompact(v, groupId, w);
            r.lastBoxedId == Some(groupId) && r.lastUnboxedIds == [] &&
            |r.blocks| > 0 && r.blocks[0].id == groupId && r.blocks[0].isGroup &&
            forall c :: c in r.blocks[0].children ==> c.id in v.lastUnboxedIds
  {
    var m := ChainMatching(v.blocks, v.lastUnboxedIds);
    var mv := v.(blocks := m);
    ToggleIsRebox(v, groupId, w);
    MatchingChains(v.blocks, v.lastUnboxedIds);
    BoxFacts(mv, groupId, w);
    forall c | c in ChainedBlocks(m)
      ensures c.id in v.lastUnboxedIds
    {
      MatchedChained(v.blocks, v.lastUnboxedIds, c);
    }
  }

  /** With nothing chained and a remembered id on the canvas, the toggle is the re-box. */
  lemma ToggleIsRebox(v: AppView, groupId: Id, w: real)
    requires AllAspects(v.blocks) && (forall i :: 0 <= i < |v.blocks| ==> !v.blocks[i].chained)
    requires v.lastUnboxedIds != [] && AnyMatch(v.blocks, v.lastUnboxedIds)
    ensures AllAspects(ChainMatching(v.blocks, v.lastUnboxedIds))
    ensures ToggleCompact(v, groupId, w) == Box(v.(blocks := ChainMatching(v.blocks, v.lastUnboxedIds)), groupId, w)
  {
    MatchingAspects(v.blocks, v.lastUnboxedIds);
  }

  /** Some block gets chained when an id matches. */
  lemma MatchingChains(bs: seq<ImageBlock>, ids: seq<Id>)
    requires AnyMatch(bs, ids)
    ensures CountChained(ChainMatching(bs, ids)) > 0
  {
    var j :| 0 <= j < |bs| && bs[j].id in ids;
    assert ChainMatching(bs, ids)[j].chained;
  }

  /** With nothing chained before, what the loop chains is exactly what matched. */
  lemma MatchedChained(bs: seq<ImageBlock>, ids: seq<Id>, c: ImageBlock)
    requires forall i :: 0 <= i < |bs| ==> !bs[i].chained
    requires c in ChainedBlocks(ChainMatching(bs, ids))
    ensures c.id in ids
  {
    var m := ChainMatching(bs, ids);
    ChainedFrom(m, c);
    var k :| 0 <= k < |m| && m[k] == c;
    assert bs[k].id in ids;
  }

  /** Every chained block in the list is one of its blocks, and it is chained. */
  lemma ChainedFrom(bs: seq<ImageBlock>, c: ImageBlock)
    requires c in ChainedBlocks(bs)
    ensures c.chained && c in bs
  {
    PartsPermutation(bs, NIL_ID, true);
    assert c in multiset(ChainedBlocks(bs));
    assert c in multiset(bs);
  }
}
