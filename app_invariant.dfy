/**
 * The invariant that keeps `reflow` defined on the blocks of the app: every block of every tree
 * has a non-zero aspect ratio (an image with a positive width and height, or a group, whose
 * ratio is 1). A zero ratio would make `constrain_to_width` divide by zero. Every operation the
 * app performs keeps the invariant.
 */
module AppInvariant {
  import opened Wrappers
  import opened Blocks
  import opened Chains
  import opened Grouping
  import opened Reorder
  import opened Reflow
  import opened AnimationCache

  /** Every block of the tree has a non-zero aspect ratio. */
  predicate TreeAspect(b: ImageBlock)
    decreases b
  {
    b.aspect != 0.0 && forall i :: 0 <= i < |b.children| ==> TreeAspect(b.children[i])
  }

  predicate AllAspects(bs: seq<ImageBlock>) {
    forall i :: 0 <= i < |bs| ==> TreeAspect(bs[i])
  }

  /** The invariant makes every width reflowable. */
  lemma AllAspectsReflowable(bs: seq<ImageBlock>, w: real)
    requires AllAspects(bs)
    ensures Reflowable(bs, w)
  {
    forall i | 0 <= i < |bs|
      ensures CanConstrain(ResetToPreferredSize(bs[i]), MaxImageWidth(w))
    {
      assert TreeAspect(bs[i]);
    }
  }

  /** A block changed in anything but its ratio and its children keeps the invariant. */
  lemma SameTreeAspect(a: ImageBlock, b: ImageBlock)
    requires a.aspect == b.aspect && a.children == b.children
    ensures TreeAspect(a) == TreeAspect(b)
  {
  }

  /** Replacing one top-level block by one with the same ratio and children keeps the invariant. */
  lemma UpdatedAspects(bs: seq<ImageBlock>, i: nat, b: ImageBlock)
    requires AllAspects(bs) && i < |bs| && b.aspect == bs[i].aspect && b.children == bs[i].children
    ensures AllAspects(bs[i := b])
  {
    SameTreeAspect(b, bs[i]);
  }

  /** A list whose blocks are each some block of an invariant list, up to ratio-preserving changes. */
  lemma MembersAspects(bs: seq<ImageBlock>, r: seq<ImageBlock>)
    requires AllAspects(bs)
    requires forall k :: 0 <= k < |r| ==> exists j :: 0 <= j < |bs| && r[k].aspect == bs[j].aspect && r[k].children == bs[j].children
    ensures AllAspects(r)
  {
    forall k | 0 <= k < |r|
      ensures TreeAspect(r[k])
    {
      var j :| 0 <= j < |bs| && r[k].aspect == bs[j].aspect && r[k].children == bs[j].children;
      SameTreeAspect(r[k], bs[j]);
    }
  }

  lemma ReflowedAspects(bs: seq<ImageBlock>, w: real)
    requires AllAspects(bs)
    ensures Reflowable(bs, w) && AllAspects(Reflowed(bs, w))
  {
    AllAspectsReflowable(bs, w);
    ReflowChangesOnlyGeometry(bs, w);
    var r := Reflowed(bs, w);
    forall k | 0 <= k < |r|
      ensures TreeAspect(r[k])
    {
      SameTreeAspect(r[k], bs[k]);
    }
  }

  lemma UnchainedAspects(bs: seq<ImageBlock>)
    requires AllAspects(bs)
    ensures AllAspects(Unchained(bs))
  {
    var r := Unchained(bs);
    forall k | 0 <= k < |r|
      ensures TreeAspect(r[k])
    {
      SameTreeAspect(r[k], bs[k]);
    }
  }

  lemma ToggledAspects(bs: seq<ImageBlock>, chains: seq<set<Id>>, index: nat)
    requires AllAspects(bs) && index < |bs|
    ensures AllAspects(ToggledChain(bs, chains, index))
  {
    var r := ToggledChain(bs, chains, index);
    forall k | 0 <= k < |r|
      ensures TreeAspect(r[k])
    {
      SameTreeAspect(r[k], bs[k]);
    }
  }

  lemma BoxedAspects(bs: seq<ImageBlock>, groupId: Id)
    requires AllAspects(bs)
    ensures AllAspects(Boxed(bs, groupId))
  {
    if |ChainedIndices(bs)| > 0 {
      var i := ChainedIndices(bs)[0];
      BoxedMembers(bs, groupId, i);
      var r := Boxed(bs, groupId);
      var g := r[0];
      forall c | c in g.children
        ensures TreeAspect(c)
      {
        var j :| 0 <= j < |bs| && bs[j] == c;
      }
      assert TreeAspect(g);
      forall k | 1 <= k < |r|
        ensures TreeAspect(r[k])
      {
        var j :| 0 <= j < |bs| && bs[j] == r[k];
      }
    }
  }

  lemma UnboxedAspects(bs: seq<ImageBlock>, index: nat)
    requires AllAspects(bs) && index < |bs|
    ensures AllAspects(Unboxed(bs, index))
  {
    var rest := bs[..index] + bs[index + 1..];
    assert AllAspects(rest) by {
      forall k | 0 <= k < |rest|
        ensures TreeAspect(rest[k])
      {
        if k >= index {
          assert rest[k] == bs[k + 1];
        }
      }
    }
    if bs[index].isGroup {
      var kids := Unchained(bs[index].children);
      assert TreeAspect(bs[index]);
      assert AllAspects(kids) by {
        forall k | 0 <= k < |kids|
          ensures TreeAspect(kids[k])
        {
          SameTreeAspect(kids[k], bs[index].children[k]);
        }
      }
      SplicedAspects(rest, FirstNonGroup(rest), kids);
    }
  }

  lemma SplicedAspects(remaining: seq<ImageBlock>, k: nat, moved: seq<ImageBlock>)
    requires k <= |remaining| && AllAspects(remaining) && AllAspects(moved)
    ensures AllAspects(Splice(remaining, k, moved))
  {
    var r := Splice(remaining, k, moved);
    forall i | 0 <= i < |r|
      ensures TreeAspect(r[i])
    {
      if i < k {
        assert r[i] == remaining[i];
      } else if i < k + |moved| {
        assert r[i] == r[k..k + |moved|][i - k] == moved[i - k];
      } else {
        assert r[i] == remaining[i - |moved|];
      }
    }
  }

  lemma MarkedAspects(bs: seq<ImageBlock>, order: seq<Id>, id: Id)
    requires AllAspects(bs)
    ensures AllAspects(MarkedBlocks(bs, order, id))
  {
    match Evicted(order, id)
    case None =>
    case Some(e) =>
      PurgeOnlyTarget(bs, e);
      var r := Purged(bs, e);
      forall k | 0 <= k < |r|
        ensures TreeAspect(r[k])
      {
        SameTreeAspect(r[k], bs[k]);
      }
  }
}
