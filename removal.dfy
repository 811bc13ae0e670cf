/**
 * Removal in src/block_manager.rs: `remove`, `remove_with_children` and `remove_cascade` take
 * blocks off the top level and forget their ids in the animation access order; a cascade on a
 * chained block takes the whole chain and forgets every remembered chain it touches.
 */
module Removal {
  import opened Blocks
  import opened Chains
  import opened Reorder
  import opened Grouping
  import opened AnimationCache

  /** The top level without the block at `index`. */
  function RemovedAt(bs: seq<ImageBlock>, index: nat): (r: seq<ImageBlock>)
    requires index < |bs|
    ensures |r| == |bs| - 1
    ensures forall k :: 0 <= k < |r| ==> r[k] == if k < index then bs[k] else bs[k + 1]
  {
    bs[..index] + bs[index + 1..]
  }

  /** `remove_with_children` loses exactly the ids of the removed block's tree. */
  lemma RemoveWithChildrenOwnership(bs: seq<ImageBlock>, index: nat)
    requires index < |bs|
    ensures multiset(ForestIds(RemovedAt(bs, index))) + multiset(SubtreeIds(bs[index])) == multiset(ForestIds(bs))
  {
    var pre, post := bs[..index], bs[index + 1..];
    assert bs == pre + [bs[index]] + post;
    ForestIdsAppend(pre + [bs[index]], post);
    ForestIdsSnoc(pre, bs[index]);
    ForestIdsAppend(pre, post);
    MultisetGap(ForestIds(pre), SubtreeIds(bs[index]), ForestIds(post));
  }

  /** The ids `remove_cascade` collects: each chained block's tree, the highest index first. */
  function CascadeIds(bs: seq<ImageBlock>): seq<Id> {
    ForestIds(Reversed(ChainedBlocks(bs)))
  }

  /** Reversing a list of trees only reorders their ids. */
  lemma {:induction false} ReversedForestIds(s: seq<ImageBlock>)
    ensures multiset(ForestIds(Reversed(s))) == multiset(ForestIds(s))
  {
    if |s| > 0 {
      ReversedForestIds(s[1..]);
      assert Reversed(s) == Reversed(s[1..]) + [s[0]];
      ForestIdsSnoc(Reversed(s[1..]), s[0]);
      MultisetSwap(ForestIds(Reversed(s[1..])), SubtreeIds(s[0]), ForestIds(s[1..]));
    }
  }

  lemma MultisetSwap(a: seq<Id>, x: seq<Id>, b: seq<Id>)
    requires multiset(a) == multiset(b)
    ensures multiset(a + x) == multiset(x + b)
  {
  }

  /** The cascade loses exactly the ids of the chained blocks' trees; the unchained blocks stay. */
  lemma CascadeOwnership(bs: seq<ImageBlock>)
    ensures multiset(ForestIds(UnchainedBlocks(bs))) + multiset(CascadeIds(bs)) == multiset(ForestIds(bs))
    ensures forall i :: 0 <= i < |bs| && bs[i].chained ==> bs[i].id in CascadeIds(bs)
  {
    PartsForestIds(bs);
    ReversedForestIds(ChainedBlocks(bs));
    forall i | 0 <= i < |bs| && bs[i].chained
      ensures bs[i].id in CascadeIds(bs)
    {
      CascadeHas(bs, i);
    }
  }

  lemma CascadeHas(bs: seq<ImageBlock>, i: nat)
    requires i < |bs| && bs[i].chained
    requires multiset(ForestIds(Reversed(ChainedBlocks(bs)))) == multiset(ForestIds(ChainedBlocks(bs)))
    ensures bs[i].id in CascadeIds(bs)
  {
    MovedPartContains(bs, NIL_ID, true, i);
    var ch := ChainedBlocks(bs);
    var k :| 0 <= k < |ch| && ch[k] == bs[i];
    ForestIdsHas(ch, k);
    assert bs[i].id in multiset(ForestIds(ch));
  }

  /** The forest's ids include each top-level block's. */
  lemma {:induction false} ForestIdsHas(s: seq<ImageBlock>, k: nat)
    requires k < |s|
    ensures s[k].id in ForestIds(s)
  {
    SubtreeIdsSplit(s[0]);
    if k > 0 {
      ForestIdsHas(s[1..], k - 1);
    }
  }

  /**
   * What the cleanup after a removal promises: the access order mentions no removed id, the
   * remembered chains touch no removed id and stay pairwise disjoint.
   */
  lemma RemovalCleanup(order: seq<Id>, chains: seq<set<Id>>, removed: seq<Id>)
    requires PairwiseDisjoint(chains)
    ensures forall x :: x in removed ==> x !in WithoutAll(order, removed)
    ensures forall x :: x in WithoutAll(order, removed) <==> x in order && x !in removed
    ensures forall c :: c in DisjointFrom(chains, Elements(removed)) ==> forall x :: x in removed ==> x !in c
    ensures PairwiseDisjoint(DisjointFrom(chains, Elements(removed)))
  {
  }
}
