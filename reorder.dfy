/**
 * Drag-and-drop reordering of src/block_manager.rs (`reorder_and_reflow`, `find_insert_index`,
 * `should_insert_before`): the dragged block, or its whole chain, is taken out, the rest is sorted
 * into layout order, and the moved blocks go back in as one run where the leader was dropped.
 */
module Reorder {
  import opened Wrappers
  import opened Constants
  import opened Geometry
  import opened Blocks
  import opened LayoutSort
  import opened Reflow

  /** `should_insert_before`: the leader's position comes first in (quantized row, x) order. */
  function ShouldInsertBefore(leaderPos: Vec2, blockPos: Vec2): bool {
    var leaderRow := TruncToI32(leaderPos.y / ROW_QUANTIZATION_HEIGHT);
    var blockRow := TruncToI32(blockPos.y / ROW_QUANTIZATION_HEIGHT);
    leaderRow < blockRow || (leaderRow == blockRow && leaderPos.x < blockPos.x)
  }

  /** Within one category the insertion test is exactly the strict layout order. */
  lemma ShouldInsertBeforeIsLayoutOrder(a: ImageBlock, b: ImageBlock)
    requires a.isGroup == b.isGroup
    ensures ShouldInsertBefore(a.pos, b.pos) <==> CmpLayout(a, b) == Less
  {
  }

  /** The cases of the source's unit test for `should_insert_before`. */
  lemma ShouldInsertBeforeExamples()
    ensures ShouldInsertBefore(Vec2(100.0, 50.0), Vec2(200.0, 50.0))
    ensures !ShouldInsertBefore(Vec2(200.0, 50.0), Vec2(100.0, 50.0))
    ensures ShouldInsertBefore(Vec2(100.0, 50.0), Vec2(100.0, 250.0))
    ensures !ShouldInsertBefore(Vec2(100.0, 250.0), Vec2(100.0, 50.0))
  {
    assert TruncToI32(50.0 / ROW_QUANTIZATION_HEIGHT) == 0;
    assert TruncToI32(250.0 / ROW_QUANTIZATION_HEIGHT) == 2;
  }

  /** The index of the first non-group (`position(|b| !b.is_group)`), or the length. */
  function FirstNonGroup(s: seq<ImageBlock>): (k: nat)
    ensures k <= |s|
    ensures forall i :: 0 <= i < k ==> s[i].isGroup
    ensures k < |s| ==> !s[k].isGroup
  {
    if |s| == 0 || !s[0].isGroup then 0 else 1 + FirstNonGroup(s[1..])
  }

  /** The first index in [lo, hi) that the leader's position goes before, or `hi`. */
  function FirstInsertBefore(s: seq<ImageBlock>, lo: nat, hi: nat, leaderPos: Vec2): (k: nat)
    requires lo <= hi <= |s|
    ensures lo <= k <= hi
    ensures forall i :: lo <= i < k ==> !ShouldInsertBefore(leaderPos, s[i].pos)
    ensures k < hi ==> ShouldInsertBefore(leaderPos, s[k].pos)
    decreases hi - lo
  {
    if lo == hi then hi
    else if ShouldInsertBefore(leaderPos, s[lo].pos) then lo
    else FirstInsertBefore(s, lo + 1, hi, leaderPos)
  }

  /** What `find_insert_index` returns: a group leader searches the groups, any other the rest. */
  function InsertIndex(remaining: seq<ImageBlock>, leaderPos: Vec2, isLeaderGroup: bool, boundary: nat): (k: nat)
    requires boundary <= |remaining|
    ensures isLeaderGroup ==> k <= boundary
    ensures !isLeaderGroup ==> boundary <= k <= |remaining|
  {
    if isLeaderGroup then FirstInsertBefore(remaining, 0, boundary, leaderPos)
    else FirstInsertBefore(remaining, boundary, |remaining|, leaderPos)
  }

  /** `find_insert_index`: the two scans with early return. */
  method FindInsertIndex(remaining: seq<ImageBlock>, leaderPos: Vec2, isLeaderGroup: bool, boundary: nat)
    returns (k: nat)
    requires boundary <= |remaining|
    ensures k == InsertIndex(remaining, leaderPos, isLeaderGroup, boundary)
  {
    var lo, hi := if isLeaderGroup then 0 else boundary, if isLeaderGroup then boundary else |remaining|;
    var i := lo;
    while i < hi
      invariant lo <= i <= hi
      invariant FirstInsertBefore(remaining, i, hi, leaderPos) == InsertIndex(remaining, leaderPos, isLeaderGroup, boundary)
      decreases hi - i
    {
      if ShouldInsertBefore(leaderPos, remaining[i].pos) {
        return i;
      }
      i := i + 1;
    }
    return hi;
  }

  /** Whether a block travels with the leader: the whole chain for a chained leader, else the leader itself. */
  predicate IsMoved(b: ImageBlock, leaderId: Id, leaderChained: bool) {
    if leaderChained then b.chained else b.id == leaderId
  }

  /** The moved blocks, in their original order. */
  function MovedPart(s: seq<ImageBlock>, leaderId: Id, leaderChained: bool): (r: seq<ImageBlock>)
    ensures |r| <= |s|
    ensures forall i :: 0 <= i < |r| ==> IsMoved(r[i], leaderId, leaderChained)
  {
    if |s| == 0 then []
    else
      var last := s[|s| - 1];
      MovedPart(s[..|s| - 1], leaderId, leaderChained) + (if IsMoved(last, leaderId, leaderChained) then [last] else [])
  }

  /** The blocks that stay, in their original order. */
  function KeptPart(s: seq<ImageBlock>, leaderId: Id, leaderChained: bool): (r: seq<ImageBlock>)
    ensures |r| <= |s|
    ensures forall i :: 0 <= i < |r| ==> !IsMoved(r[i], leaderId, leaderChained)
  {
    if |s| == 0 then []
    else
      var last := s[|s| - 1];
      KeptPart(s[..|s| - 1], leaderId, leaderChained) + (if IsMoved(last, leaderId, leaderChained) then [] else [last])
  }

  /** Splitting into moved and kept blocks loses and duplicates nothing. */
  lemma {:induction false} PartsPermutation(s: seq<ImageBlock>, leaderId: Id, leaderChained: bool)
    ensures multiset(MovedPart(s, leaderId, leaderChained)) + multiset(KeptPart(s, leaderId, leaderChained)) == multiset(s)
  {
    if |s| > 0 {
      var init, last := s[..|s| - 1], s[|s| - 1];
      PartsPermutation(init, leaderId, leaderChained);
      var m, k := MovedPart(init, leaderId, leaderChained), KeptPart(init, leaderId, leaderChained);
      assert s == init + [last];
      SplitSnoc(m, k, init, last, MovedPart(s, leaderId, leaderChained), KeptPart(s, leaderId, leaderChained), s);
    }
  }

  /** Adding one element to either side of a split adds it to the whole. */
  lemma SplitSnoc(a: seq<ImageBlock>, b: seq<ImageBlock>, whole: seq<ImageBlock>, x: ImageBlock,
                  a2: seq<ImageBlock>, b2: seq<ImageBlock>, whole2: seq<ImageBlock>)
    requires multiset(a) + multiset(b) == multiset(whole) && whole2 == whole + [x]
    requires (a2 == a + [x] && b2 == b) || (a2 == a && b2 == b + [x])
    ensures multiset(a2) + multiset(b2) == multiset(whole2)
  {
  }

  /** A block that is moved is among the moved blocks. */
  lemma {:induction false} MovedPartContains(s: seq<ImageBlock>, leaderId: Id, leaderChained: bool, i: nat)
    requires i < |s| && IsMoved(s[i], leaderId, leaderChained)
    ensures s[i] in MovedPart(s, leaderId, leaderChained)
  {
    if i < |s| - 1 {
      MovedPartContains(s[..|s| - 1], leaderId, leaderChained, i);
    }
  }

  /** The moved run spliced into the sorted remaining blocks at index `k`. */
  function Splice(remaining: seq<ImageBlock>, k: nat, moved: seq<ImageBlock>): (r: seq<ImageBlock>)
    requires k <= |remaining|
    ensures |r| == |remaining| + |moved|
    ensures r[k..k + |moved|] == moved
    ensures r[..k] + r[k + |moved|..] == remaining
    ensures forall i :: 0 <= i < k ==> r[i] == remaining[i]
    ensures forall i :: k + |moved| <= i < |r| ==> r[i] == remaining[i - |moved|]
    ensures multiset(r) == multiset(remaining) + multiset(moved)
  {
    assert remaining == remaining[..k] + remaining[k..];
    var r := remaining[..k] + moved + remaining[k..];
    assert r[..k] == remaining[..k];
    assert r[k + |moved|..] == remaining[k..];
    r
  }

  /** The arrangement around a leader found at index `idx`. */
  function ArrangedAround(bs: seq<ImageBlock>, id: Id, idx: nat): seq<ImageBlock>
    requires idx < |bs|
  {
    var leaderChained := bs[idx].chained;
    var moved := MovedPart(bs, id, leaderChained);
    var kept := KeptPart(bs, id, leaderChained);
    if |moved| == 0 then kept
    else
      var remaining := Sort(kept);
      var boundary := FirstNonGroup(remaining);
      Splice(remaining, InsertIndex(remaining, bs[idx].pos, moved[0].isGroup, boundary), moved)
  }

  /** The order `reorder_and_reflow` leaves the blocks in, before reflowing. */
  function Arranged(bs: seq<ImageBlock>, leader: Option<Id>): (r: seq<ImageBlock>)
    ensures leader.Some? && BlockIndexInSlice(bs, leader.value).None? ==> r == bs
  {
    match leader
    case None => Sort(bs)
    case Some(id) =>
      match BlockIndexInSlice(bs, id)
      case None => bs
      case Some(idx) => ArrangedAround(bs, id, idx)
  }

  /** The leader itself always moves, so the branch for an empty moved run is never taken. */
  lemma LeaderMoves(bs: seq<ImageBlock>, id: Id, idx: nat)
    requires BlockIndexInSlice(bs, id) == Some(idx)
    ensures bs[idx] in MovedPart(bs, id, bs[idx].chained)
  {
    MovedPartContains(bs, id, bs[idx].chained, idx);
  }

  lemma {:induction false} MovedPartAppend(a: seq<ImageBlock>, b: seq<ImageBlock>, leaderId: Id, leaderChained: bool)
    ensures MovedPart(a + b, leaderId, leaderChained) == MovedPart(a, leaderId, leaderChained) + MovedPart(b, leaderId, leaderChained)
    decreases |b|
  {
    if |b| == 0 {
      assert a + b == a;
    } else {
      var ab := a + b;
      assert ab[..|ab| - 1] == a + b[..|b| - 1];
      MovedPartAppend(a, b[..|b| - 1], leaderId, leaderChained);
    }
  }

  /** The first block with an id, after a prefix without it. */
  lemma {:induction false} BlockIndexAfter(p: seq<ImageBlock>, x: ImageBlock, rest: seq<ImageBlock>, id: Id)
    requires x.id == id && forall i :: 0 <= i < |p| ==> p[i].id != id
    ensures BlockIndexInSlice(p + [x] + rest, id) == Some(|p|)
  {
    if |p| > 0 {
      assert (p + [x] + rest)[1..] == p[1..] + [x] + rest;
      BlockIndexAfter(p[1..], x, rest, id);
    }
  }

  /** `moved_group.iter().find(|b| b.id == leader_id).unwrap()` is the leader itself. */
  lemma LeaderFoundInMoved(bs: seq<ImageBlock>, id: Id, idx: nat)
    requires BlockIndexInSlice(bs, id) == Some(idx)
    ensures BlockIndexInSlice(MovedPart(bs, id, bs[idx].chained), id).Some?
    ensures MovedPart(bs, id, bs[idx].chained)[BlockIndexInSlice(MovedPart(bs, id, bs[idx].chained), id).value] == bs[idx]
  {
    var ch := bs[idx].chained;
    var pre, post := bs[..idx], bs[idx + 1..];
    assert bs == (pre + [bs[idx]]) + post;
    MovedPartAppend(pre + [bs[idx]], post, id, ch);
    assert (pre + [bs[idx]])[..idx] == pre;
    var m0 := MovedPart(pre, id, ch);
    assert MovedPart(pre + [bs[idx]], id, ch) == m0 + [bs[idx]];
    forall i | 0 <= i < |m0| ensures m0[i].id != id {
      MovedPartFrom(pre, id, ch, i);
    }
    BlockIndexAfter(m0, bs[idx], MovedPart(post, id, ch), id);
  }

  /** Every moved block comes from the list. */
  lemma {:induction false} MovedPartFrom(s: seq<ImageBlock>, leaderId: Id, leaderChained: bool, i: nat)
    requires i < |MovedPart(s, leaderId, leaderChained)|
    ensures MovedPart(s, leaderId, leaderChained)[i] in s
  {
    var init := s[..|s| - 1];
    if i < |MovedPart(init, leaderId, leaderChained)| {
      MovedPartFrom(init, leaderId, leaderChained, i);
    }
  }

  /** Reordering only permutes the blocks. */
  lemma ArrangedPermutation(bs: seq<ImageBlock>, leader: Option<Id>)
    ensures multiset(Arranged(bs, leader)) == multiset(bs)
  {
    match leader
    case None => SortPermutation(bs);
    case Some(id) =>
      match BlockIndexInSlice(bs, id)
      case None =>
      case Some(idx) =>
        var ch := bs[idx].chained;
        PartsPermutation(bs, id, ch);
        LeaderMoves(bs, id, idx);
        SortPermutation(KeptPart(bs, id, ch));
  }

  /**
   * The moved run sits at index `k` of `r`. Taking it out leaves the kept blocks in layout order; a
   * run led by a group has only groups before it, any other run only non-groups after it; and within
   * the leader's category the run sits after every block the leader's position does not go before
   * and right before the first one it does.
   */
  predicate RunPlacedAt(r: seq<ImageBlock>, moved: seq<ImageBlock>, kept: seq<ImageBlock>, leaderPos: Vec2, k: nat) {
    |moved| > 0 && k + |moved| <= |r| && r[k..k + |moved|] == moved &&
    LayoutSorted(r[..k] + r[k + |moved|..]) &&
    multiset(r[..k] + r[k + |moved|..]) == multiset(kept) &&
    (moved[0].isGroup ==> forall i :: 0 <= i < k ==> r[i].isGroup) &&
    (!moved[0].isGroup ==> forall i :: k + |moved| <= i < |r| ==> !r[i].isGroup) &&
    (forall i :: 0 <= i < k && r[i].isGroup == moved[0].isGroup ==> !ShouldInsertBefore(leaderPos, r[i].pos)) &&
    (k + |moved| < |r| && r[k + |moved|].isGroup == moved[0].isGroup ==>
       ShouldInsertBefore(leaderPos, r[k + |moved|].pos))
  }

  /** Where the moved run lands when the leader exists. */
  lemma ArrangedPlacement(bs: seq<ImageBlock>, id: Id, idx: nat)
    requires BlockIndexInSlice(bs, id) == Some(idx)
    ensures exists k :: RunPlacedAt(Arranged(bs, Some(id)), MovedPart(bs, id, bs[idx].chained),
                                    KeptPart(bs, id, bs[idx].chained), bs[idx].pos, k)
  {
    var ch := bs[idx].chained;
    var moved, kept := MovedPart(bs, id, ch), KeptPart(bs, id, ch);
    LeaderMoves(bs, id, idx);
    var remaining := Sort(kept);
    SortSorted(kept);
    SortPermutation(kept);
    var boundary := FirstNonGroup(remaining);
    var k := InsertIndex(remaining, bs[idx].pos, moved[0].isGroup, boundary);
    SpliceRunPlaced(remaining, kept, bs[idx].pos, moved, k);
    assert Arranged(bs, Some(id)) == Splice(remaining, k, moved);
  }

  lemma SpliceRunPlaced(remaining: seq<ImageBlock>, kept: seq<ImageBlock>, leaderPos: Vec2, moved: seq<ImageBlock>, k: nat)
    requires LayoutSorted(remaining) && multiset(remaining) == multiset(kept) && |moved| > 0
    requires k == InsertIndex(remaining, leaderPos, moved[0].isGroup, FirstNonGroup(remaining))
    ensures RunPlacedAt(Splice(remaining, k, moved), moved, kept, leaderPos, k)
  {
    SplicePlacement(remaining, leaderPos, moved, k);
  }

  /** `ArrangedPlacement` for the splice itself. */
  lemma SplicePlacement(remaining: seq<ImageBlock>, leaderPos: Vec2, moved: seq<ImageBlock>, k: nat)
    requires LayoutSorted(remaining) && |moved| > 0
    requires k == InsertIndex(remaining, leaderPos, moved[0].isGroup, FirstNonGroup(remaining))
    ensures var r := Splice(remaining, k, moved);
            (moved[0].isGroup ==> forall i :: 0 <= i < k ==> r[i].isGroup) &&
            (!moved[0].isGroup ==> forall i :: k + |moved| <= i < |r| ==> !r[i].isGroup) &&
            (forall i :: 0 <= i < k && r[i].isGroup == moved[0].isGroup ==> !ShouldInsertBefore(leaderPos, r[i].pos)) &&
            (k + |moved| < |r| && r[k + |moved|].isGroup == moved[0].isGroup ==>
               ShouldInsertBefore(leaderPos, r[k + |moved|].pos))
  {
    var boundary := FirstNonGroup(remaining);
    var r := Splice(remaining, k, moved);
    if k + |moved| < |r| && r[k + |moved|].isGroup == moved[0].isGroup {
      assert r[k + |moved|] == remaining[k];
    }
  }

  /** Without a leader the blocks are sorted into layout order, and nothing else. */
  lemma ArrangedWithoutLeader(bs: seq<ImageBlock>)
    ensures LayoutSorted(Arranged(bs, None)) && multiset(Arranged(bs, None)) == multiset(bs)
    ensures forall k :: KeyClass(Arranged(bs, None), k) == KeyClass(bs, k)
  {
    SortSorted(bs);
    SortPermutation(bs);
    forall k {
      SortStable(bs, k);
    }
  }

  /** Reflow needs nothing of a block that depends on its place in the list. */
  lemma ReflowablePermutation(a: seq<ImageBlock>, b: seq<ImageBlock>, w: real)
    requires Reflowable(a, w) && multiset(a) == multiset(b)
    ensures Reflowable(b, w)
  {
    forall i | 0 <= i < |b|
      ensures CanConstrain(ResetToPreferredSize(b[i]), MaxImageWidth(w))
    {
      assert b[i] in multiset(a);
      var j :| 0 <= j < |a| && a[j] == b[i];
    }
  }

  /** Arranging the blocks keeps them reflowable. */
  lemma ArrangedReflowable(bs: seq<ImageBlock>, leader: Option<Id>, w: real)
    requires Reflowable(bs, w)
    ensures Reflowable(Arranged(bs, leader), w) && |Arranged(bs, leader)| == |bs|
  {
    ArrangedPermutation(bs, leader);
    ReflowablePermutation(bs, Arranged(bs, leader), w);
    assert |multiset(Arranged(bs, leader))| == |multiset(bs)|;
  }

  /** `reorder_and_reflow`: a missing leader leaves everything as it was; otherwise arrange, then reflow. */
  function ReorderedAndReflowed(bs: seq<ImageBlock>, leader: Option<Id>, w: real): (r: seq<ImageBlock>)
    requires Reflowable(bs, w)
    ensures |r| == |bs|
    ensures leader.Some? && BlockIndexInSlice(bs, leader.value).None? ==> r == bs
  {
    if leader.Some? && BlockIndexInSlice(bs, leader.value).None? then bs
    else
      ArrangedReflowable(bs, leader, w);
      Reflowed(Arranged(bs, leader), w)
  }
}
