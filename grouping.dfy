/**
 * Grouping in src/block_manager.rs: `box_chained` folds the chained blocks into a new group,
 * `unbox_group` gives a group's children back to the top level, and `drop_into_group` /
 * `move_single_into_group` hand a dragged block (or its whole chain) to a group. Every operation
 * moves ownership of blocks without losing or duplicating any id.
 */
module Grouping {
  import opened Wrappers
  import opened Constants
  import opened Geometry
  import opened Blocks
  import opened Chains
  import opened Reorder

  /** The chained blocks in list order: what a chained drag moves, and what boxing takes. */
  function ChainedBlocks(bs: seq<ImageBlock>): seq<ImageBlock> {
    MovedPart(bs, NIL_ID, true)
  }

  /** The unchained blocks in list order. */
  function UnchainedBlocks(bs: seq<ImageBlock>): seq<ImageBlock> {
    KeptPart(bs, NIL_ID, true)
  }

  lemma {:induction false} PartsAppend(a: seq<ImageBlock>, b: seq<ImageBlock>)
    ensures ChainedBlocks(a + b) == ChainedBlocks(a) + ChainedBlocks(b)
    ensures UnchainedBlocks(a + b) == UnchainedBlocks(a) + UnchainedBlocks(b)
    decreases |b|
  {
    if |b| == 0 {
      assert a + b == a;
    } else {
      var ab := a + b;
      assert ab[..|ab| - 1] == a + b[..|b| - 1];
      assert ab[|ab| - 1] == b[|b| - 1];
      PartsAppend(a, b[..|b| - 1]);
    }
  }

  /** The ids of a list of blocks (top level only). */
  function IdsOf(bs: seq<ImageBlock>): (r: seq<Id>)
    ensures |r| == |bs| && forall i :: 0 <= i < |bs| ==> r[i] == bs[i].id
  {
    seq(|bs|, i requires 0 <= i < |bs| => bs[i].id)
  }

  /** Two blocks that agree on id and children own the same ids. */
  lemma SameTreeSameIds(a: ImageBlock, b: ImageBlock)
    requires a.id == b.id && a.children == b.children
    ensures SubtreeIds(a) == SubtreeIds(b)
  {
    SubtreeIdsSplit(a);
    SubtreeIdsSplit(b);
  }

  /** Clearing chain flags changes no ids. */
  lemma {:induction false} UnchainedForestIds(s: seq<ImageBlock>)
    ensures ForestIds(Unchained(s)) == ForestIds(s)
  {
    if |s| > 0 {
      SameTreeSameIds(s[0], s[0].(chained := false));
      assert Unchained(s)[1..] == Unchained(s[1..]);
      UnchainedForestIds(s[1..]);
    }
  }

  lemma ForestIdsSnoc(s: seq<ImageBlock>, x: ImageBlock)
    ensures ForestIds(s + [x]) == ForestIds(s) + SubtreeIds(x)
  {
    ForestIdsAppend(s, [x]);
    assert [x][1..] == [];
  }

  /** The ids of a forest, split around its tree at `i`. */
  lemma ForestIdsAround(s: seq<ImageBlock>, i: nat)
    requires i < |s|
    ensures ForestIds(s) == ForestIds(s[..i]) + SubtreeIds(s[i]) + ForestIds(s[i + 1..])
    ensures ForestIds(s[..i] + s[i + 1..]) == ForestIds(s[..i]) + ForestIds(s[i + 1..])
  {
    SplitAt(s, i);
    ForestIdsMiddle(s[..i], s[i], s[i + 1..]);
    ForestIdsAppend(s[..i], s[i + 1..]);
  }

  /** A list is its prefix, its element at `i` and its suffix. */
  lemma SplitAt(s: seq<ImageBlock>, i: nat)
    requires i < |s|
    ensures s[..i] + [s[i]] + s[i + 1..] == s
  {
  }

  /** The ids of a forest with one tree between two others. */
  lemma ForestIdsMiddle(a: seq<ImageBlock>, x: ImageBlock, c: seq<ImageBlock>)
    ensures ForestIds(a + [x] + c) == ForestIds(a) + SubtreeIds(x) + ForestIds(c)
  {
    ForestIdsAppend(a + [x], c);
    ForestIdsSnoc(a, x);
  }

  /** The ids of three forests laid end to end. */
  lemma ForestIds3(a: seq<ImageBlock>, b: seq<ImageBlock>, c: seq<ImageBlock>)
    ensures ForestIds(a + b + c) == ForestIds(a) + ForestIds(b) + ForestIds(c)
  {
    ForestIdsAppend(a + b, c);
    ForestIdsAppend(a, b);
  }

  /** The chained part grows by the last block exactly when it is chained. */
  lemma PartsSnoc(s: seq<ImageBlock>, x: ImageBlock)
    ensures ChainedBlocks(s + [x]) == ChainedBlocks(s) + (if x.chained then [x] else [])
    ensures UnchainedBlocks(s + [x]) == UnchainedBlocks(s) + (if x.chained then [] else [x])
  {
    assert (s + [x])[..|s|] == s;
  }

  /** Splitting a list into its chained and unchained blocks splits its ids. */
  lemma {:induction false} PartsForestIds(s: seq<ImageBlock>)
    ensures multiset(ForestIds(ChainedBlocks(s))) + multiset(ForestIds(UnchainedBlocks(s))) == multiset(ForestIds(s))
  {
    if |s| > 0 {
      var init, last := s[..|s| - 1], s[|s| - 1];
      assert s == init + [last];
      PartsForestIds(init);
      PartsForestIdsStep(init, last);
    }
  }

  lemma PartsForestIdsStep(init: seq<ImageBlock>, last: ImageBlock)
    requires multiset(ForestIds(ChainedBlocks(init))) + multiset(ForestIds(UnchainedBlocks(init))) == multiset(ForestIds(init))
    ensures multiset(ForestIds(ChainedBlocks(init + [last]))) + multiset(ForestIds(UnchainedBlocks(init + [last]))) ==
            multiset(ForestIds(init + [last]))
  {
    PartsSnoc(init, last);
    ForestIdsSnoc(init, last);
    var c, u := ChainedBlocks(init), UnchainedBlocks(init);
    if last.chained {
      ForestIdsSnoc(c, last);
      assert UnchainedBlocks(init + [last]) == u + [] == u;
      MultisetSnoc(ForestIds(c), ForestIds(u), ForestIds(init), SubtreeIds(last));
    } else {
      ForestIdsSnoc(u, last);
      assert ChainedBlocks(init + [last]) == c + [] == c;
      MultisetSnoc(ForestIds(u), ForestIds(c), ForestIds(init), SubtreeIds(last));
    }
  }

  lemma MultisetSnoc(a: seq<Id>, b: seq<Id>, c: seq<Id>, d: seq<Id>)
    requires multiset(a) + multiset(b) == multiset(c) || multiset(b) + multiset(a) == multiset(c)
    ensures multiset(a + d) + multiset(b) == multiset(c + d)
    ensures multiset(b) + multiset(a + d) == multiset(c + d)
  {
  }

  // ---------------------------------------------------------------------------
  // box_chained
  // ---------------------------------------------------------------------------

  /** The component-wise minimum of the positions, starting from (f32::MAX, f32::MAX). */
  function MinCorner(s: seq<ImageBlock>): (r: Vec2)
    ensures r.x <= F32_MAX && r.y <= F32_MAX
    ensures forall i :: 0 <= i < |s| ==> r.x <= s[i].pos.x && r.y <= s[i].pos.y
    ensures r.x == F32_MAX || exists i :: 0 <= i < |s| && r.x == s[i].pos.x
    ensures r.y == F32_MAX || exists i :: 0 <= i < |s| && r.y == s[i].pos.y
  {
    if |s| == 0 then Vec2(F32_MAX, F32_MAX)
    else
      var m := MinCorner(s[1..]);
      assert forall i :: 0 <= i < |s| - 1 ==> s[1..][i] == s[i + 1];
      Vec2(RMin(s[0].pos.x, m.x), RMin(s[0].pos.y, m.y))
  }

  /** A list in reverse order (`children.reverse()`). */
  function Reversed(s: seq<ImageBlock>): (r: seq<ImageBlock>)
    ensures |r| == |s|
    ensures forall i :: 0 <= i < |s| ==> r[i] == s[|s| - 1 - i]
  {
    if |s| == 0 then [] else Reversed(s[1..]) + [s[0]]
  }

  /** The group `box_chained` builds: `children` in order, named from them, at their minimum corner. */
  function BoxedGroup(children: seq<ImageBlock>, groupId: Id): (g: ImageBlock)
    ensures g.isGroup && g.id == groupId && g.children == children && !g.chained
    ensures g.groupName == GroupNameFor(children) && g.pos == MinCorner(children)
    ensures g.imageSize == Vec2(DEFAULT_GROUP_SIZE, DEFAULT_GROUP_SIZE) && g.aspect == 1.0
  {
    UpdateGroupName(NewGroup(groupId, "", children)).(pos := MinCorner(children))
  }

  /** The blocks after `box_chained`, with `groupId` the fresh id of the new group. */
  function Boxed(bs: seq<ImageBlock>, groupId: Id): seq<ImageBlock> {
    if |ChainedIndices(bs)| == 0 then bs
    else [BoxedGroup(ChainedBlocks(bs), groupId)] + UnchainedBlocks(bs)
  }

  /** With nothing chained, boxing changes nothing. */
  lemma BoxedNothing(bs: seq<ImageBlock>, groupId: Id)
    requires forall i :: 0 <= i < |bs| ==> !bs[i].chained
    ensures Boxed(bs, groupId) == bs
  {
    assert ChainedIndices(bs) == [];
  }

  /**
   * Boxing puts a new group first whose children are exactly the chained blocks in their order
   * (still chained) at their minimum corner; the unchained blocks follow in their order.
   */
  lemma BoxedShape(bs: seq<ImageBlock>, groupId: Id, i: nat)
    requires i < |bs| && bs[i].chained
    ensures |Boxed(bs, groupId)| >= 1
    ensures Boxed(bs, groupId)[0] == BoxedGroup(ChainedBlocks(bs), groupId)
    ensures Boxed(bs, groupId)[1..] == UnchainedBlocks(bs)
    ensures bs[i] in Boxed(bs, groupId)[0].children
  {
    assert i in ChainedIndices(bs);
    var r := Boxed(bs, groupId);
    assert r == [BoxedGroup(ChainedBlocks(bs), groupId)] + UnchainedBlocks(bs);
    MovedPartContains(bs, NIL_ID, true, i);
  }

  /**
   * Boxing keeps every block exactly once: the group's children are the chained blocks of before,
   * the blocks after it the unchained ones.
   */
  lemma BoxedMembers(bs: seq<ImageBlock>, groupId: Id, i: nat)
    requires i < |bs| && bs[i].chained
    ensures |Boxed(bs, groupId)| >= 1
    ensures forall c :: c in Boxed(bs, groupId)[0].children ==> c.chained && c in bs
    ensures forall k :: 1 <= k < |Boxed(bs, groupId)| ==> !Boxed(bs, groupId)[k].chained && Boxed(bs, groupId)[k] in bs
    ensures multiset(Boxed(bs, groupId)[0].children) + multiset(Boxed(bs, groupId)[1..]) == multiset(bs)
  {
    BoxedShape(bs, groupId, i);
    var ch, un := ChainedBlocks(bs), UnchainedBlocks(bs);
    PartsPermutation(bs, NIL_ID, true);
    InSplit(ch, un, bs);
  }

  /** What is in either side of a split is in the whole. */
  lemma InSplit(a: seq<ImageBlock>, b: seq<ImageBlock>, whole: seq<ImageBlock>)
    requires multiset(a) + multiset(b) == multiset(whole)
    ensures forall c :: c in a ==> c in whole
    ensures forall c :: c in b ==> c in whole
  {
    forall c | c in a ensures c in whole {
      assert c in multiset(whole);
    }
    forall c | c in b ensures c in whole {
      assert c in multiset(whole);
    }
  }

  /** Boxing owns the ids of before plus the new group's own. */
  lemma BoxedOwnership(bs: seq<ImageBlock>, groupId: Id, i: nat)
    requires i < |bs| && bs[i].chained
    ensures multiset(ForestIds(Boxed(bs, groupId))) == multiset(ForestIds(bs)) + multiset{groupId}
  {
    assert i in ChainedIndices(bs);
    var ch, un := ChainedBlocks(bs), UnchainedBlocks(bs);
    var g := BoxedGroup(ch, groupId);
    assert Boxed(bs, groupId) == [g] + un;
    ForestIdsAppend([g], un);
    assert ForestIds([g]) == SubtreeIds(g) by {
      assert [g][1..] == [];
    }
    SubtreeIdsSplit(g);
    PartsForestIds(bs);
    MultisetCons(groupId, ForestIds(ch), ForestIds(un), ForestIds(bs));
  }

  lemma MultisetCons(x: Id, a: seq<Id>, b: seq<Id>, c: seq<Id>)
    requires multiset(a) + multiset(b) == multiset(c)
    ensures multiset([x] + a + b) == multiset(c) + multiset{x}
  {
  }

  // ---------------------------------------------------------------------------
  // unbox_group
  // ---------------------------------------------------------------------------

  /** The blocks after `unbox_group(index)`: a group's children go back, unchained, at the first non-group. */
  function Unboxed(bs: seq<ImageBlock>, index: nat): seq<ImageBlock>
    requires index < |bs|
  {
    var rest := bs[..index] + bs[index + 1..];
    if bs[index].isGroup then Splice(rest, FirstNonGroup(rest), Unchained(bs[index].children)) else rest
  }

  /** The ids `unbox_group` returns: the group's direct children, in order. */
  function UnboxedIds(bs: seq<ImageBlock>, index: nat): seq<Id>
    requires index < |bs|
  {
    if bs[index].isGroup then IdsOf(bs[index].children) else []
  }

  /**
   * Unboxing takes the block out; a group's children come back as one contiguous, unchained run in
   * their order at the first non-group of the rest, after groups only. A non-group is just removed.
   */
  lemma UnboxedShape(bs: seq<ImageBlock>, index: nat)
    requires index < |bs|
    ensures !bs[index].isGroup ==> Unboxed(bs, index) == bs[..index] + bs[index + 1..]
    ensures bs[index].isGroup ==>
              var rest := bs[..index] + bs[index + 1..];
              var r := Unboxed(bs, index);
              var k := FirstNonGroup(rest);
              var n := |bs[index].children|;
              |r| == |rest| + n &&
              r[k..k + n] == Unchained(bs[index].children) &&
              r[..k] + r[k + n..] == rest &&
              (forall i :: 0 <= i < k ==> r[i].isGroup) &&
              (k + n < |r| ==> !r[k + n].isGroup)
  {
  }

  /** Unboxing loses no id but the group's own; removing a non-group loses everything it owns. */
  lemma UnboxedOwnership(bs: seq<ImageBlock>, index: nat)
    requires index < |bs|
    ensures bs[index].isGroup ==>
              multiset(ForestIds(Unboxed(bs, index))) + multiset{bs[index].id} == multiset(ForestIds(bs))
    ensures !bs[index].isGroup ==>
              multiset(ForestIds(Unboxed(bs, index))) + multiset(SubtreeIds(bs[index])) == multiset(ForestIds(bs))
  {
    ForestIdsAround(bs, index);
    if bs[index].isGroup {
      UnboxedGroupIds(bs, index);
    } else {
      MultisetGap(ForestIds(bs[..index]), SubtreeIds(bs[index]), ForestIds(bs[index + 1..]));
    }
  }

  /** The group case of `UnboxedOwnership`. */
  lemma UnboxedGroupIds(bs: seq<ImageBlock>, index: nat)
    requires index < |bs| && bs[index].isGroup
    requires ForestIds(bs) == ForestIds(bs[..index]) + SubtreeIds(bs[index]) + ForestIds(bs[index + 1..])
    requires ForestIds(bs[..index] + bs[index + 1..]) == ForestIds(bs[..index]) + ForestIds(bs[index + 1..])
    ensures multiset(ForestIds(Unboxed(bs, index))) + multiset{bs[index].id} == multiset(ForestIds(bs))
  {
    var rest := bs[..index] + bs[index + 1..];
    var b := bs[index];
    var k := FirstNonGroup(rest);
    var kids := Unchained(b.children);
    assert Unboxed(bs, index) == rest[..k] + kids + rest[k..];
    ForestIds3(rest[..k], kids, rest[k..]);
    assert rest == rest[..k] + rest[k..];
    ForestIdsAppend(rest[..k], rest[k..]);
    UnchainedForestIds(b.children);
    SubtreeIdsSplit(b);
    MultisetMiddle(ForestIds(rest[..k]), ForestIds(b.children), ForestIds(rest[k..]),
                   ForestIds(bs[..index]), ForestIds(bs[index + 1..]), b.id);
  }

  lemma MultisetMiddle(a: seq<Id>, m: seq<Id>, c: seq<Id>, p: seq<Id>, q: seq<Id>, x: Id)
    requires a + c == p + q
    ensures multiset(a + m + c) + multiset{x} == multiset(p + ([x] + m) + q)
  {
    assert multiset(a + c) == multiset(p + q);
    calc {
      multiset(a + m + c) + multiset{x};
      multiset(a) + multiset(c) + multiset(m) + multiset{x};
      multiset(p) + multiset(q) + multiset(m) + multiset{x};
      multiset(p + ([x] + m) + q);
    }
  }

  lemma MultisetGap(p: seq<Id>, m: seq<Id>, q: seq<Id>)
    ensures multiset(p + q) + multiset(m) == multiset(p + m + q)
  {
  }

  /** The chained blocks, unchained. */
  lemma {:induction false} UnchainedParts(s: seq<ImageBlock>)
    ensures multiset(Unchained(ChainedBlocks(s))) + multiset(UnchainedBlocks(s)) == multiset(Unchained(s))
  {
    if |s| > 0 {
      var init, last := s[..|s| - 1], s[|s| - 1];
      assert s == init + [last];
      UnchainedParts(init);
      UnchainedPartsStep(init, last);
    }
  }

  lemma UnchainedPartsStep(init: seq<ImageBlock>, last: ImageBlock)
    requires multiset(Unchained(ChainedBlocks(init))) + multiset(UnchainedBlocks(init)) == multiset(Unchained(init))
    ensures multiset(Unchained(ChainedBlocks(init + [last]))) + multiset(UnchainedBlocks(init + [last])) ==
            multiset(Unchained(init + [last]))
  {
    PartsSnoc(init, last);
    var c, u := ChainedBlocks(init), UnchainedBlocks(init);
    var x := last.(chained := false);
    UnchainedSnoc(init, last);
    if last.chained {
      UnchainedSnoc(c, last);
      assert c + [last] == ChainedBlocks(init + [last]);
      assert u == UnchainedBlocks(init + [last]);
      BlockMultisetSnoc(Unchained(c), u, Unchained(init), [x]);
    } else {
      assert u + [x] == UnchainedBlocks(init + [last]);
      assert c == ChainedBlocks(init + [last]);
      BlockMultisetSnoc(u, Unchained(c), Unchained(init), [x]);
    }
  }

  /** Clearing the flags of a longer list clears the new last block's too. */
  lemma UnchainedSnoc(s: seq<ImageBlock>, y: ImageBlock)
    ensures Unchained(s + [y]) == Unchained(s) + [y.(chained := false)]
  {
  }

  lemma BlockMultisetSnoc(a: seq<ImageBlock>, b: seq<ImageBlock>, c: seq<ImageBlock>, d: seq<ImageBlock>)
    requires multiset(a) + multiset(b) == multiset(c) || multiset(b) + multiset(a) == multiset(c)
    ensures multiset(a + d) + multiset(b) == multiset(c + d)
    ensures multiset(b) + multiset(a + d) == multiset(c + d)
  {
  }

  /**
   * Box and unbox are inverse up to the chain flags and the order: unboxing the group just boxed
   * gives back the chained blocks' ids in order and every block, unchained.
   */
  lemma BoxThenUnbox(bs: seq<ImageBlock>, groupId: Id, i: nat)
    requires i < |bs| && bs[i].chained
    ensures UnboxedIds(Boxed(bs, groupId), 0) == IdsOf(ChainedBlocks(bs))
    ensures multiset(Unboxed(Boxed(bs, groupId), 0)) == multiset(Unchained(bs))
  {
    BoxedThenUnboxed(bs, groupId, i);
    UnchainedParts(bs);
  }

  /** The group that boxing puts first unboxes into the chained blocks, unchained, spliced into the rest. */
  lemma BoxedThenUnboxed(bs: seq<ImageBlock>, groupId: Id, i: nat)
    requires i < |bs| && bs[i].chained
    ensures UnboxedIds(Boxed(bs, groupId), 0) == IdsOf(ChainedBlocks(bs))
    ensures var un := UnchainedBlocks(bs);
            Unboxed(Boxed(bs, groupId), 0) == Splice(un, FirstNonGroup(un), Unchained(ChainedBlocks(bs)))
  {
    assert i in ChainedIndices(bs);
    var boxed := Boxed(bs, groupId);
    assert boxed[..0] + boxed[1..] == UnchainedBlocks(bs);
  }

  // ---------------------------------------------------------------------------
  // move_single_into_group, drop_into_group
  // ---------------------------------------------------------------------------

  /** Indexing the target after the removal of `bi` does not panic. */
  predicate CanMoveSingle(bs: seq<ImageBlock>, bi: nat, gi: nat) {
    bi < |bs| && gi < |bs| && (bi != gi || gi + 1 < |bs|)
  }

  /** Where the target sits once the moved block is out. */
  function TargetIndex(bi: nat, gi: nat): nat {
    if gi > bi then gi - 1 else gi
  }

  /** The block as it enters a group: no longer dragged, no longer chained. */
  function Dropped(b: ImageBlock): ImageBlock {
    b.(dragging := false, chained := false)
  }

  /**
   * `move_single_into_group(bi, gi)`: the block at `bi` leaves the top level and becomes the last
   * child of the block that was at `gi`, whose name is recomputed.
   */
  function MoveSingle(bs: seq<ImageBlock>, bi: nat, gi: nat): (r: seq<ImageBlock>)
    requires CanMoveSingle(bs, bi, gi)
    ensures |r| == |bs| - 1
  {
    var rest := bs[..bi] + bs[bi + 1..];
    var t := TargetIndex(bi, gi);
    rest[t := UpdateGroupName(rest[t].(children := rest[t].children + [Dropped(bs[bi])]))]
  }

  /** The block moved into a group becomes the last child of the block formerly at `gi`; nobody else changes. */
  lemma MoveSingleShape(bs: seq<ImageBlock>, bi: nat, gi: nat)
    requires CanMoveSingle(bs, bi, gi) && bi != gi
    ensures MoveSingle(bs, bi, gi)[TargetIndex(bi, gi)] ==
            UpdateGroupName(bs[gi].(children := bs[gi].children + [Dropped(bs[bi])]))
    ensures forall k :: 0 <= k < |bs| - 1 && k != TargetIndex(bi, gi) ==>
              MoveSingle(bs, bi, gi)[k] == if k < bi then bs[k] else bs[k + 1]
  {
  }

  /** Moving a block into a group changes no ids owned. */
  lemma MoveSingleOwnership(bs: seq<ImageBlock>, bi: nat, gi: nat)
    requires CanMoveSingle(bs, bi, gi) && bi != gi
    ensures multiset(ForestIds(MoveSingle(bs, bi, gi))) == multiset(ForestIds(bs))
  {
    var rest := bs[..bi] + bs[bi + 1..];
    var t := TargetIndex(bi, gi);
    ForestIdsAround(bs, bi);
    ForestIdsAround(rest, t);
    MoveSingleForest(bs, bi, gi);
    MultisetMoved(ForestIds(rest[..t]), SubtreeIds(rest[t]), SubtreeIds(bs[bi]), ForestIds(rest[t + 1..]),
                  ForestIds(bs[..bi]), ForestIds(bs[bi + 1..]));
  }

  /** After the move the target's tree owns its old ids followed by the moved block's. */
  lemma MoveSingleForest(bs: seq<ImageBlock>, bi: nat, gi: nat)
    requires CanMoveSingle(bs, bi, gi) && bi != gi
    ensures var rest := bs[..bi] + bs[bi + 1..];
            var t := TargetIndex(bi, gi);
            ForestIds(MoveSingle(bs, bi, gi)) ==
            ForestIds(rest[..t]) + (SubtreeIds(rest[t]) + SubtreeIds(bs[bi])) + ForestIds(rest[t + 1..])
  {
    var rest := bs[..bi] + bs[bi + 1..];
    var t := TargetIndex(bi, gi);
    var g := rest[t];
    var nw := UpdateGroupName(g.(children := g.children + [Dropped(bs[bi])]));
    ForestIdsReplace(rest, t, nw);
    AdoptedIds(g, bs[bi], nw);
  }

  /** The ids of a forest with the tree at `t` replaced. */
  lemma ForestIdsReplace(s: seq<ImageBlock>, t: nat, y: ImageBlock)
    requires t < |s|
    ensures ForestIds(s[t := y]) == ForestIds(s[..t]) + SubtreeIds(y) + ForestIds(s[t + 1..])
  {
    var r := s[t := y];
    assert r == s[..t] + [y] + s[t + 1..];
    ForestIdsMiddle(s[..t], y, s[t + 1..]);
  }

  /** A group that adopts `b` (renamed, `b` dropped) owns its ids followed by `b`'s. */
  lemma AdoptedIds(g: ImageBlock, b: ImageBlock, nw: ImageBlock)
    requires nw == UpdateGroupName(g.(children := g.children + [Dropped(b)]))
    ensures SubtreeIds(nw) == SubtreeIds(g) + SubtreeIds(b)
  {
    assert nw.id == g.id && nw.children == g.children + [Dropped(b)];
    AppendedChildIds(g, Dropped(b), b, nw.id, nw.children);
    SameTreeSameIds(nw, g.(children := nw.children));
  }

  /** Appending a child `d` (with `b`'s id and children) appends `b`'s ids. */
  lemma AppendedChildIds(g: ImageBlock, d: ImageBlock, b: ImageBlock, id: Id, kids: seq<ImageBlock>)
    requires d.id == b.id && d.children == b.children && id == g.id && kids == g.children + [d]
    ensures SubtreeIds(g.(children := kids)) == SubtreeIds(g) + SubtreeIds(b)
  {
    SubtreeIdsSplit(g);
    SubtreeIdsSplit(g.(children := kids));
    ForestIdsSnoc(g.children, d);
    SameTreeSameIds(d, b);
  }

  lemma MultisetMoved(a: seq<Id>, g: seq<Id>, m: seq<Id>, c: seq<Id>, p: seq<Id>, q: seq<Id>)
    requires a + g + c == p + q
    ensures multiset(a + (g + m) + c) == multiset(p + m + q)
  {
    assert multiset(a + g + c) == multiset(p + q);
    calc {
      multiset(a + (g + m) + c);
      multiset(a) + multiset(g) + multiset(m) + multiset(c);
      multiset(a + g + c) + multiset(m);
      multiset(p) + multiset(q) + multiset(m);
      multiset(p + m + q);
    }
  }

  /** The top-level ids after the move are those of before without the moved block's. */
  lemma MoveSingleIds(bs: seq<ImageBlock>, bi: nat, gi: nat)
    requires CanMoveSingle(bs, bi, gi) && bi != gi
    ensures IdsOf(MoveSingle(bs, bi, gi)) == IdsOf(bs[..bi] + bs[bi + 1..])
  {
    MoveSingleShape(bs, bi, gi);
    var r := MoveSingle(bs, bi, gi);
    var t := TargetIndex(bi, gi);
    assert r[t].id == (if t < bi then bs[t] else bs[t + 1]).id;
  }

  /** Distinct ids stay distinct when one is taken out, and only that one goes. */
  lemma RemoveAtDistinct(ids: seq<Id>, i: nat)
    requires i < |ids| && forall k, l :: 0 <= k < l < |ids| ==> ids[k] != ids[l]
    ensures var rest := ids[..i] + ids[i + 1..];
            (forall k, l :: 0 <= k < l < |rest| ==> rest[k] != rest[l]) &&
            (forall x :: x in rest <==> x in ids && x != ids[i])
  {
    var rest := ids[..i] + ids[i + 1..];
    assert forall k :: 0 <= k < |rest| ==> rest[k] == ids[if k < i then k else k + 1];
    forall x | x in ids && x != ids[i] ensures x in rest {
      var j :| 0 <= j < |ids| && ids[j] == x;
      assert rest[if j < i then j else j - 1] == x;
    }
  }

  /** With unique top-level ids, the moved id and only it leaves the top level; ids stay unique. */
  lemma MoveSingleTopIds(bs: seq<ImageBlock>, bi: nat, gi: nat)
    requires CanMoveSingle(bs, bi, gi) && bi != gi && UniqueIds(bs)
    ensures UniqueIds(MoveSingle(bs, bi, gi))
    ensures forall x :: x in IdsOf(MoveSingle(bs, bi, gi)) <==> x in IdsOf(bs) && x != bs[bi].id
  {
    MoveSingleIds(bs, bi, gi);
    var ids := IdsOf(bs);
    assert IdsOf(bs[..bi] + bs[bi + 1..]) == ids[..bi] + ids[bi + 1..];
    RemoveAtDistinct(ids, bi);
    UniqueIdsOf(MoveSingle(bs, bi, gi));
  }

  lemma UniqueIdsOf(bs: seq<ImageBlock>)
    requires forall k, l :: 0 <= k < l < |IdsOf(bs)| ==> IdsOf(bs)[k] != IdsOf(bs)[l]
    ensures UniqueIds(bs)
  {
    var ids := IdsOf(bs);
    forall k, l | 0 <= k < l < |bs| ensures bs[k].id != bs[l].id {
      assert ids[k] != ids[l];
    }
  }
}
