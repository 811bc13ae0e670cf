/**
 * The decoded-animation LRU of src/block_manager.rs (`animation_access_order`,
 * `mark_animation_used`, `purge_animation_frames`): ids of fully decoded animations, least
 * recently used first; past MAX_CACHED_ANIMATIONS entries the oldest is evicted and its block
 * drops back to its first frame.
 */
module AnimationCache {
  import opened Wrappers
  import opened Constants
  import opened Blocks

  /** `retain(|x| x != id)`. */
  function Without(order: seq<Id>, id: Id): (r: seq<Id>)
    ensures |r| <= |order|
    ensures forall x :: x in r <==> x in order && x != id
    ensures id !in order ==> r == order
  {
    if |order| == 0 then []
    else (if order[0] == id then [] else [order[0]]) + Without(order[1..], id)
  }

  /** One `retain` per id of `ids`, in turn. */
  function WithoutAll(order: seq<Id>, ids: seq<Id>): (r: seq<Id>)
    ensures |r| <= |order|
    ensures forall x :: x in r <==> x in order && x !in ids
    decreases |ids|
  {
    if |ids| == 0 then order else WithoutAll(Without(order, ids[0]), ids[1..])
  }

  predicate NoDuplicates(s: seq<Id>) {
    forall i, j :: 0 <= i < j < |s| ==> s[i] != s[j]
  }

  lemma {:induction false} WithoutNoDuplicates(order: seq<Id>, id: Id)
    requires NoDuplicates(order)
    ensures NoDuplicates(Without(order, id))
  {
    if |order| > 0 {
      WithoutNoDuplicates(order[1..], id);
      assert order[0] !in order[1..];
    }
  }

  /** `id` moved to (or added at) the most recent end. */
  function Touched(order: seq<Id>, id: Id): seq<Id> {
    Without(order, id) + [id]
  }

  /** The entry `mark_animation_used` evicts, when the cache overflows. */
  function Evicted(order: seq<Id>, id: Id): (r: Option<Id>)
    ensures r.Some? ==> r.value != id && r.value in order
  {
    var t := Touched(order, id);
    if |t| > MAX_CACHED_ANIMATIONS then Some(t[0]) else None
  }

  /** The access order after `mark_animation_used(id)`. */
  function MarkedOrder(order: seq<Id>, id: Id): seq<Id> {
    var t := Touched(order, id);
    if |t| > MAX_CACHED_ANIMATIONS then t[1..] else t
  }

  /** A marked id is the most recent entry and appears nowhere else. */
  lemma MarkedLast(order: seq<Id>, id: Id)
    ensures var r := MarkedOrder(order, id);
            |r| > 0 && r[|r| - 1] == id && forall i :: 0 <= i < |r| - 1 ==> r[i] != id
  {
    var w := Without(order, id);
    var t := w + [id];
    assert forall i :: 0 <= i < |w| ==> w[i] in w;
  }

  /** Every other id stays unless it is the one evicted, and no id is added but the marked one. */
  lemma MarkedMembers(order: seq<Id>, id: Id, x: Id)
    requires NoDuplicates(order)
    ensures x in MarkedOrder(order, id) <==> x == id || (x in order && Evicted(order, id) != Some(x))
  {
    var w := Without(order, id);
    WithoutNoDuplicates(order, id);
    var t := w + [id];
    assert id !in w;
    assert NoDuplicates(t);
    if |t| > MAX_CACHED_ANIMATIONS {
      assert t == [t[0]] + t[1..];
      assert t[1..][|t| - 2] == id;
      assert forall i :: 1 <= i < |t| ==> t[i] != t[0];
      if x in t && x != t[0] {
        var i :| 0 <= i < |t| && t[i] == x;
        assert t[1..][i - 1] == x;
      }
    }
  }

  /** A duplicate-free order within the cache size stays so. */
  lemma MarkedBounded(order: seq<Id>, id: Id)
    requires NoDuplicates(order) && |order| <= MAX_CACHED_ANIMATIONS
    ensures NoDuplicates(MarkedOrder(order, id)) && |MarkedOrder(order, id)| <= MAX_CACHED_ANIMATIONS
  {
    var w := Without(order, id);
    WithoutNoDuplicates(order, id);
    assert id !in w;
  }

  /** A full cache that meets a new id evicts exactly its oldest entry. */
  lemma EvictsOldest(order: seq<Id>, id: Id)
    requires |order| == MAX_CACHED_ANIMATIONS && id !in order
    ensures Evicted(order, id) == Some(order[0])
    ensures MarkedOrder(order, id) == order[1..] + [id]
  {
  }

  /** `truncate(1)` on the frames and `stop_animation`: a purged block keeps only its first frame. */
  function PurgedBlock(b: ImageBlock): (r: ImageBlock)
    ensures r.frameCount == 1 && !r.isFullSequence && !r.animationEnabled && r.currentFrame == 0
    ensures r == b.(frameCount := 1, isFullSequence := false, animationEnabled := false,
                    currentFrame := 0, frameElapsed := 0.0)
  {
    StopAnimation(b.(frameCount := 1, isFullSequence := false))
  }

  /** `purge_animation_frames(id)` on the top-level blocks. */
  function Purged(bs: seq<ImageBlock>, id: Id): (r: seq<ImageBlock>)
    ensures |r| == |bs|
  {
    match BlockIndexInSlice(bs, id)
    case None => bs
    case Some(i) =>
      if bs[i].isFullSequence && bs[i].frameCount > 1 then bs[i := PurgedBlock(bs[i])] else bs
  }

  /**
   * Purging changes at most the first top-level block with that id, and only a fully decoded
   * animation with more than one frame: it drops to its first frame, stopped.
   */
  lemma PurgeOnlyTarget(bs: seq<ImageBlock>, id: Id)
    ensures forall j :: 0 <= j < |bs| && BlockIndexInSlice(bs, id) != Some(j) ==> Purged(bs, id)[j] == bs[j]
    ensures forall j :: 0 <= j < |bs| && BlockIndexInSlice(bs, id) == Some(j) ==>
              if bs[j].isFullSequence && bs[j].frameCount > 1 then Purged(bs, id)[j] == PurgedBlock(bs[j])
              else Purged(bs, id)[j] == bs[j]
  {
  }

  /** The blocks after `mark_animation_used(id)`: the evicted entry's block, if any, is purged. */
  function MarkedBlocks(bs: seq<ImageBlock>, order: seq<Id>, id: Id): (r: seq<ImageBlock>)
    ensures |r| == |bs|
    ensures Evicted(order, id).None? ==> r == bs
  {
    match Evicted(order, id)
    case None => bs
    case Some(e) => Purged(bs, e)
  }
}
