/**
 * `drop_into_group` of src/block_manager.rs: a dragged block released over a group becomes its
 * last child; a chained block brings its whole chain. The chain is walked in the iteration order
 * of a hash set, which the model takes as the parameter `order` (each chained id once).
 */
module Drop {
  import opened Wrappers
  import opened Blocks
  import opened Chains
  import opened Grouping

  /**
   * The chain loop as written: every id of `order` still at the top level is moved into the block
   * holding `groupId`, the group's own id included. `None` is the panic of indexing past the end.
   */
  function DropChainAsWritten(bs: seq<ImageBlock>, groupId: Id, order: seq<Id>): (r: Option<seq<ImageBlock>>)
    decreases |order|
  {
    if |order| == 0 then Some(bs)
    else
      var b, g := BlockIndexInSlice(bs, order[0]), BlockIndexInSlice(bs, groupId);
      if b.Some? && g.Some? then
        if CanMoveSingle(bs, b.value, g.value) then DropChainAsWritten(MoveSingle(bs, b.value, g.value), groupId, order[1..])
        else None
      else DropChainAsWritten(bs, groupId, order[1..])
  }

  /** The chain loop as intended: the target group itself is skipped. */
  function DropChain(bs: seq<ImageBlock>, groupId: Id, order: seq<Id>): seq<ImageBlock>
    decreases |order|
  {
    if |order| == 0 then bs
    else
      var b, g := BlockIndexInSlice(bs, order[0]), BlockIndexInSlice(bs, groupId);
      var next := if order[0] != groupId && b.Some? && g.Some? then MoveSingle(bs, b.value, g.value) else bs;
      DropChain(next, groupId, order[1..])
  }

  /** `drop_into_group(bi, gi)`, with the drop target never the dragged block itself. */
  function DropIntoGroup(bs: seq<ImageBlock>, bi: nat, gi: nat, order: seq<Id>): seq<ImageBlock>
    requires bi < |bs| && gi < |bs| && bi != gi
  {
    if bs[bi].chained then DropChain(bs, bs[gi].id, order) else MoveSingle(bs, bi, gi)
  }

  /** When the target group is not in the chain, the loop as written and the corrected one agree. */
  lemma {:induction false} DropChainAgrees(bs: seq<ImageBlock>, groupId: Id, order: seq<Id>)
    requires groupId !in order
    ensures DropChainAsWritten(bs, groupId, order) == Some(DropChain(bs, groupId, order))
    decreases |order|
  {
    if |order| > 0 {
      var b, g := BlockIndexInSlice(bs, order[0]), BlockIndexInSlice(bs, groupId);
      assert order[0] != groupId;
      if b.Some? && g.Some? {
        DropChainAgrees(MoveSingle(bs, b.value, g.value), groupId, order[1..]);
      } else {
        DropChainAgrees(bs, groupId, order[1..]);
      }
    }
  }

  /** A chained group `G` (id 1) and a chained image `X` (id 2), the group first. */
  function ChainedPair(): seq<ImageBlock> {
    [NewGroup(1, "", []).(chained := true), NewBlock(2, "x.png", 1, Geometry.Vec2(10.0, 10.0), false, true).(chained := true)]
  }

  /**
   * Dropping `X` onto `G` while `G` is chained too: in one hash order the loop panics, in the other
   * `G` ends up as a child of the image `X` and leaves the top level. The corrected loop puts `X`
   * into `G` in both orders.
   */
  lemma DropChainCounterexample()
    ensures DropChainAsWritten(ChainedPair(), 1, [2, 1]) == None
    ensures DropChainAsWritten(ChainedPair(), 1, [1, 2]).Some?
    ensures IdsOf(DropChainAsWritten(ChainedPair(), 1, [1, 2]).value) == [2]
    ensures !DropChainAsWritten(ChainedPair(), 1, [1, 2]).value[0].isGroup
    ensures DropChainAsWritten(ChainedPair(), 1, [1, 2]).value[0].children[0].id == 1
    ensures IdsOf(DropChain(ChainedPair(), 1, [1, 2])) == [1]
    ensures IdsOf(DropChain(ChainedPair(), 1, [2, 1])) == [1]
    ensures DropChain(ChainedPair(), 1, [1, 2])[0].isGroup
  {
    var bs := ChainedPair();
    assert BlockIndexInSlice(bs, 1) == Some(0);
    assert BlockIndexInSlice(bs, 2) == Some(1);
    var afterX := MoveSingle(bs, 1, 0);
    assert |afterX| == 1 && afterX[0].id == 1;
    assert BlockIndexInSlice(afterX, 1) == Some(0);
    assert BlockIndexInSlice(afterX, 2) == None;
    assert DropChainAsWritten(bs, 1, [2, 1]) == DropChainAsWritten(afterX, 1, [1]);
    assert !CanMoveSingle(afterX, 0, 0);
    var afterG := MoveSingle(bs, 0, 0);
    assert |afterG| == 1 && afterG[0].id == 2 && !afterG[0].isGroup;
    assert BlockIndexInSlice(afterG, 1) == None;
    assert DropChainAsWritten(bs, 1, [1, 2]) == DropChainAsWritten(afterG, 1, [2]);
    assert DropChainAsWritten(afterG, 1, [2]) == DropChainAsWritten(afterG, 1, []);
    assert DropChain(bs, 1, [1, 2]) == DropChain(bs, 1, [2]);
    assert DropChain(bs, 1, [2]) == DropChain(afterX, 1, []);
    assert DropChain(bs, 1, [2, 1]) == DropChain(afterX, 1, [1]);
    assert DropChain(afterX, 1, [1]) == DropChain(afterX, 1, []);
  }

  /** The corrected loop loses and duplicates no id. */
  lemma {:induction false} DropChainOwnership(bs: seq<ImageBlock>, groupId: Id, order: seq<Id>)
    ensures multiset(ForestIds(DropChain(bs, groupId, order))) == multiset(ForestIds(bs))
    decreases |order|
  {
    if |order| > 0 {
      var b, g := BlockIndexInSlice(bs, order[0]), BlockIndexInSlice(bs, groupId);
      if order[0] != groupId && b.Some? && g.Some? {
        MoveSingleOwnership(bs, b.value, g.value);
        DropChainOwnership(MoveSingle(bs, b.value, g.value), groupId, order[1..]);
      } else {
        DropChainOwnership(bs, groupId, order[1..]);
      }
    }
  }

  /**
   * With unique top-level ids and the group present, the corrected loop takes exactly the ids of
   * `order` other than the group's off the top level, and the group stays.
   */
  lemma {:induction false} DropChainTopIds(bs: seq<ImageBlock>, groupId: Id, order: seq<Id>)
    requires UniqueIds(bs) && groupId in IdsOf(bs)
    ensures UniqueIds(DropChain(bs, groupId, order))
    ensures forall x :: x in IdsOf(DropChain(bs, groupId, order)) <==>
              x in IdsOf(bs) && (x == groupId || x !in order)
    decreases |order|
  {
    if |order| > 0 {
      var b, g := BlockIndexInSlice(bs, order[0]), BlockIndexInSlice(bs, groupId);
      assert g.Some? by {
        var i :| 0 <= i < |bs| && IdsOf(bs)[i] == groupId;
      }
      var next := if order[0] != groupId && b.Some? then MoveSingle(bs, b.value, g.value) else bs;
      if order[0] != groupId && b.Some? {
        MoveSingleTopIds(bs, b.value, g.value);
      } else if order[0] != groupId {
        assert order[0] !in IdsOf(bs);
      }
      assert forall x :: x in IdsOf(next) <==> x in IdsOf(bs) && (x == groupId || x != order[0]);
      DropChainTopIds(next, groupId, order[1..]);
      assert forall x :: x in order <==> x == order[0] || x in order[1..];
    }
  }

  // ---------------------------------------------------------------------------
  // Where the dropped trees go
  // ---------------------------------------------------------------------------

  /** The first top-level block holding `id`, as `block_index_in_slice` finds it. */
  function Lookup(bs: seq<ImageBlock>, id: Id): (r: Option<ImageBlock>)
    ensures r.Some? ==> r.value in bs && r.value.id == id
  {
    match BlockIndexInSlice(bs, id)
    case None => None
    case Some(i) => Some(bs[i])
  }

  /** The lookup finds a block exactly when some top-level block holds the id. */
  lemma LookupSome(bs: seq<ImageBlock>, id: Id)
    ensures Lookup(bs, id).Some? <==> id in IdsOf(bs)
  {
    if id in IdsOf(bs) {
      var k :| 0 <= k < |bs| && IdsOf(bs)[k] == id;
      assert bs[k].id == id;
    }
  }

  /** The lookup looks at the first block, then at the rest. */
  lemma LookupCons(bs: seq<ImageBlock>, y: Id)
    requires |bs| > 0
    ensures Lookup(bs, y) == if bs[0].id == y then Some(bs[0]) else Lookup(bs[1..], y)
  {
    if bs[0].id != y {
      match BlockIndexInSlice(bs[1..], y)
      case None =>
      case Some(k) => assert bs[k + 1] == bs[1..][k];
    }
  }

  /** The top-level blocks whose id is not in `ids`, in their order. */
  function Outside(bs: seq<ImageBlock>, ids: set<Id>): seq<ImageBlock> {
    if |bs| == 0 then [] else (if bs[0].id in ids then [] else [bs[0]]) + Outside(bs[1..], ids)
  }

  /**
   * The trees a chained drop moves, in the order the loop meets them: for each id of `order` other
   * than the target's, the top-level block then holding it. A block met once is gone from the top
   * level, so a repeated id moves nothing.
   */
  function ChainTrees(bs: seq<ImageBlock>, groupId: Id, order: seq<Id>): (r: seq<ImageBlock>)
    ensures |r| <= |order|
    decreases |order|
  {
    if |order| == 0 then []
    else
      var first := Lookup(bs, order[0]);
      (if order[0] != groupId && first.Some? then [first.value] else []) +
      ChainTrees(Outside(bs, {order[0]}), groupId, order[1..])
  }

  /** The trees as they enter a group: no longer dragged or chained. */
  function DroppedAll(ts: seq<ImageBlock>): (r: seq<ImageBlock>)
    ensures |r| == |ts| && forall i :: 0 <= i < |ts| ==> r[i] == Dropped(ts[i])
  {
    seq(|ts|, i requires 0 <= i < |ts| => Dropped(ts[i]))
  }

  /** The target once it has adopted `ts` as its last children and been renamed for them. */
  function Adopt(g: ImageBlock, ts: seq<ImageBlock>): ImageBlock {
    if |ts| == 0 then g else UpdateGroupName(g.(children := g.children + DroppedAll(ts)))
  }

  /** Adopting in two steps is adopting everything at once. */
  lemma AdoptTwice(g: ImageBlock, a: seq<ImageBlock>, c: seq<ImageBlock>)
    ensures Adopt(Adopt(g, a), c) == Adopt(g, a + c)
  {
    if |a| > 0 && |c| > 0 {
      assert DroppedAll(a + c) == DroppedAll(a) + DroppedAll(c);
      assert g.children + DroppedAll(a) + DroppedAll(c) == g.children + DroppedAll(a + c);
    } else if |a| == 0 {
      assert a + c == c;
    } else {
      assert a + c == a;
    }
  }

  /** The adopting tree owns its own ids followed by those of the adopted trees, in order. */
  lemma {:induction false} AdoptIds(g: ImageBlock, ts: seq<ImageBlock>)
    ensures SubtreeIds(Adopt(g, ts)) == SubtreeIds(g) + ForestIds(ts)
    decreases |ts|
  {
    if |ts| > 0 {
      var g1 := Adopt(g, [ts[0]]);
      assert DroppedAll([ts[0]]) == [Dropped(ts[0])];
      AdoptedIds(g, ts[0], g1);
      AdoptTwice(g, [ts[0]], ts[1..]);
      assert [ts[0]] + ts[1..] == ts;
      AdoptIds(g1, ts[1..]);
    }
  }

  /** With unique ids, the lookup of a block's id finds that very block. */
  lemma UniqueLookup(bs: seq<ImageBlock>, i: nat)
    requires UniqueIds(bs) && i < |bs|
    ensures BlockIndexInSlice(bs, bs[i].id) == Some(i)
    ensures Lookup(bs, bs[i].id) == Some(bs[i])
  {
    var r := BlockIndexInSlice(bs, bs[i].id);
    assert r.Some?;
  }

  /** Taking out the blocks of id `z` leaves the lookup of any other id alone. */
  lemma {:induction false} LookupOutside(bs: seq<ImageBlock>, z: Id, y: Id)
    ensures Lookup(Outside(bs, {z}), y) == if y == z then None else Lookup(bs, y)
    decreases |bs|
  {
    if |bs| > 0 {
      LookupOutside(bs[1..], z, y);
      LookupCons(bs, y);
      var o := Outside(bs, {z});
      if bs[0].id != z {
        assert o == [bs[0]] + Outside(bs[1..], {z});
        assert o[1..] == Outside(bs[1..], {z});
        LookupCons(o, y);
      } else {
        assert o == Outside(bs[1..], {z});
      }
    } else {
      assert Outside(bs, {z}) == [];
    }
  }

  /** Two forests on which every id but the target's looks up the same block move the same trees. */
  lemma {:induction false} ChainTreesSameLookups(s: seq<ImageBlock>, t: seq<ImageBlock>, groupId: Id, order: seq<Id>)
    requires forall y :: y != groupId ==> Lookup(s, y) == Lookup(t, y)
    ensures ChainTrees(s, groupId, order) == ChainTrees(t, groupId, order)
    decreases |order|
  {
    if |order| > 0 {
      var z := order[0];
      forall y | y != groupId ensures Lookup(Outside(s, {z}), y) == Lookup(Outside(t, {z}), y) {
        LookupOutside(s, z, y);
        LookupOutside(t, z, y);
      }
      ChainTreesSameLookups(Outside(s, {z}), Outside(t, {z}), groupId, order[1..]);
    }
  }

  /** After one block moves into the target, other ids look up the same blocks as before. */
  lemma LookupAfterMove(bs: seq<ImageBlock>, bi: nat, gi: nat, y: Id)
    requires CanMoveSingle(bs, bi, gi) && bi != gi && UniqueIds(bs)
    requires y != bs[gi].id
    ensures Lookup(MoveSingle(bs, bi, gi), y) == if y == bs[bi].id then None else Lookup(bs, y)
  {
    var next := MoveSingle(bs, bi, gi);
    MoveSingleTopIds(bs, bi, gi);
    if y != bs[bi].id && y in IdsOf(bs) {
      var j :| 0 <= j < |bs| && IdsOf(bs)[j] == y;
      var j' := if j < bi then j else j - 1;
      MoveSingleShape(bs, bi, gi);
      assert next[j'] == bs[j];
      UniqueLookup(next, j');
      UniqueLookup(bs, j);
    }
  }

  /** Taking out ids no top-level block holds changes nothing. */
  lemma {:induction false} OutsideAbsent(bs: seq<ImageBlock>, ids: set<Id>, x: Id)
    requires forall b :: b in bs ==> b.id != x
    ensures Outside(bs, ids + {x}) == Outside(bs, ids)
    decreases |bs|
  {
    if |bs| > 0 {
      OutsideAbsent(bs[1..], ids, x);
    }
  }

  lemma {:induction false} OutsideConcat(p: seq<ImageBlock>, q: seq<ImageBlock>, ids: set<Id>)
    ensures Outside(p + q, ids) == Outside(p, ids) + Outside(q, ids)
    decreases |p|
  {
    if |p| > 0 {
      assert (p + q)[1..] == p[1..] + q;
      OutsideConcat(p[1..], q, ids);
    } else {
      assert p + q == q;
    }
  }

  /** Replacing a tree inside `ids` by another inside `ids` changes nothing outside. */
  lemma OutsideReplace(s: seq<ImageBlock>, t: nat, y: ImageBlock, ids: set<Id>)
    requires t < |s| && s[t].id in ids && y.id in ids
    ensures Outside(s[t := y], ids) == Outside(s, ids)
  {
    assert s[t := y] == s[..t] + [y] + s[t + 1..];
    assert s == s[..t] + [s[t]] + s[t + 1..];
    OutsideConcat(s[..t] + [y], s[t + 1..], ids);
    OutsideConcat(s[..t], [y], ids);
    OutsideConcat(s[..t] + [s[t]], s[t + 1..], ids);
    OutsideConcat(s[..t], [s[t]], ids);
  }

  /** With unique ids, taking block `i` out is taking its id out. */
  lemma OutsideRemoveAt(bs: seq<ImageBlock>, i: nat, ids: set<Id>)
    requires i < |bs| && UniqueIds(bs)
    ensures Outside(bs[..i] + bs[i + 1..], ids) == Outside(bs, ids + {bs[i].id})
  {
    var x := bs[i].id;
    assert bs == bs[..i] + [bs[i]] + bs[i + 1..];
    OutsideConcat(bs[..i] + [bs[i]], bs[i + 1..], ids + {x});
    OutsideConcat(bs[..i], [bs[i]], ids + {x});
    OutsideConcat(bs[..i], bs[i + 1..], ids);
    forall b | b in bs[..i] ensures b.id != x {
      var k :| 0 <= k < i && bs[k] == b;
    }
    forall b | b in bs[i + 1..] ensures b.id != x {
      var k :| i < k < |bs| && bs[k] == b;
    }
    OutsideAbsent(bs[..i], ids, x);
    OutsideAbsent(bs[i + 1..], ids, x);
  }

  /** One move into the target takes the moved block out of what stays outside the target. */
  lemma OutsideAfterMove(bs: seq<ImageBlock>, bi: nat, gi: nat, ids: set<Id>)
    requires CanMoveSingle(bs, bi, gi) && bi != gi && UniqueIds(bs) && bs[gi].id in ids
    ensures Outside(MoveSingle(bs, bi, gi), ids) == Outside(bs, ids + {bs[bi].id})
  {
    var rest := bs[..bi] + bs[bi + 1..];
    var t := TargetIndex(bi, gi);
    var nw := UpdateGroupName(rest[t].(children := rest[t].children + [Dropped(bs[bi])]));
    assert rest[t] == bs[gi];
    OutsideReplace(rest, t, nw, ids);
    OutsideRemoveAt(bs, bi, ids);
  }

  lemma ElementsCons(order: seq<Id>)
    requires |order| > 0
    ensures Elements(order) == {order[0]} + Elements(order[1..])
  {
    assert forall y :: y in order <==> y == order[0] || y in order[1..];
  }

  /** One pass of the corrected loop that moves a block: what it leaves for the rest of `order`. */
  lemma PlacementMoveStep(bs: seq<ImageBlock>, groupId: Id, order: seq<Id>, bi: nat, gi: nat)
    requires UniqueIds(bs) && |order| > 0 && order[0] != groupId
    requires BlockIndexInSlice(bs, order[0]) == Some(bi) && BlockIndexInSlice(bs, groupId) == Some(gi)
    ensures bi != gi && CanMoveSingle(bs, bi, gi)
    ensures UniqueIds(MoveSingle(bs, bi, gi)) && groupId in IdsOf(MoveSingle(bs, bi, gi))
    ensures Lookup(MoveSingle(bs, bi, gi), groupId) == Some(Adopt(bs[gi], [bs[bi]]))
    ensures ChainTrees(bs, groupId, order) == [bs[bi]] + ChainTrees(MoveSingle(bs, bi, gi), groupId, order[1..])
    ensures Outside(MoveSingle(bs, bi, gi), {groupId} + Elements(order[1..])) ==
            Outside(bs, {groupId} + Elements(order))
  {
    var x, rest := order[0], order[1..];
    var next := MoveSingle(bs, bi, gi);
    var t := TargetIndex(bi, gi);
    MoveSingleTopIds(bs, bi, gi);
    MoveSingleShape(bs, bi, gi);
    assert DroppedAll([bs[bi]]) == [Dropped(bs[bi])];
    assert next[t] == Adopt(bs[gi], [bs[bi]]);
    UniqueLookup(next, t);
    assert IdsOf(next)[t] == groupId;
    forall y | y != groupId ensures Lookup(next, y) == Lookup(Outside(bs, {x}), y) {
      LookupAfterMove(bs, bi, gi, y);
      LookupOutside(bs, x, y);
    }
    ChainTreesSameLookups(next, Outside(bs, {x}), groupId, rest);
    OutsideAfterMove(bs, bi, gi, {groupId} + Elements(rest));
    ElementsCons(order);
    assert {groupId} + Elements(rest) + {x} == {groupId} + Elements(order);
  }

  /** One pass of the corrected loop that moves nothing: the target's id, or an id not at the top level. */
  lemma PlacementSkipStep(bs: seq<ImageBlock>, groupId: Id, order: seq<Id>)
    requires UniqueIds(bs) && |order| > 0
    requires order[0] == groupId || BlockIndexInSlice(bs, order[0]).None?
    ensures ChainTrees(bs, groupId, order) == ChainTrees(bs, groupId, order[1..])
    ensures Outside(bs, {groupId} + Elements(order[1..])) == Outside(bs, {groupId} + Elements(order))
  {
    var x, rest := order[0], order[1..];
    forall y | y != groupId ensures Lookup(Outside(bs, {x}), y) == Lookup(bs, y) {
      LookupOutside(bs, x, y);
    }
    ChainTreesSameLookups(Outside(bs, {x}), bs, groupId, rest);
    ElementsCons(order);
    if x != groupId {
      OutsideAbsent(bs, {groupId} + Elements(rest), x);
      assert {groupId} + Elements(rest) + {x} == {groupId} + Elements(order);
    }
  }

  /**
   * The corrected loop as a whole: the target ends up as `Adopt` of the trees the chain names, in
   * the loop's order, and the other top-level blocks are exactly the old ones outside the chain,
   * unchanged and in their order.
   */
  lemma {:induction false} DropChainPlacement(bs: seq<ImageBlock>, groupId: Id, order: seq<Id>)
    requires UniqueIds(bs) && groupId in IdsOf(bs)
    ensures Lookup(bs, groupId).Some?
    ensures Lookup(DropChain(bs, groupId, order), groupId) ==
            Some(Adopt(Lookup(bs, groupId).value, ChainTrees(bs, groupId, order)))
    ensures Outside(DropChain(bs, groupId, order), {groupId}) == Outside(bs, {groupId} + Elements(order))
    decreases |order|
  {
    LookupSome(bs, groupId);
    var gi := BlockIndexInSlice(bs, groupId).value;
    if |order| == 0 {
      assert Elements(order) == {};
      assert {groupId} + Elements(order) == {groupId};
    } else {
      var x, rest := order[0], order[1..];
      var b := BlockIndexInSlice(bs, x);
      if x != groupId && b.Some? {
        var next := MoveSingle(bs, b.value, gi);
        PlacementMoveStep(bs, groupId, order, b.value, gi);
        assert DropChain(bs, groupId, order) == DropChain(next, groupId, rest);
        DropChainPlacement(next, groupId, rest);
        AdoptTwice(bs[gi], [bs[b.value]], ChainTrees(next, groupId, rest));
      } else {
        PlacementSkipStep(bs, groupId, order);
        assert DropChain(bs, groupId, order) == DropChain(bs, groupId, rest);
        DropChainPlacement(bs, groupId, rest);
      }
    }
  }

  /** The ids the chain moves: those of `order` at the top level, the target's excepted. */
  lemma {:induction false} ChainTreesIds(bs: seq<ImageBlock>, groupId: Id, order: seq<Id>)
    ensures forall y :: y in IdsOf(ChainTrees(bs, groupId, order)) <==>
              y in order && y != groupId && y in IdsOf(bs)
    decreases |order|
  {
    if |order| > 0 {
      var x, rest := order[0], order[1..];
      var out := Outside(bs, {x});
      ChainTreesIds(out, groupId, rest);
      var head := if x != groupId && Lookup(bs, x).Some? then [Lookup(bs, x).value] else [];
      var tail := ChainTrees(out, groupId, rest);
      assert ChainTrees(bs, groupId, order) == head + tail;
      LookupSome(bs, x);
      forall y ensures y in IdsOf(head + tail) <==> y in order && y != groupId && y in IdsOf(bs) {
        IdsOfConcat(head, tail, y);
        LookupOutside(bs, x, y);
        LookupSome(out, y);
        LookupSome(bs, y);
        assert y in IdsOf(head) <==> x != groupId && x in IdsOf(bs) && y == x;
        assert y in IdsOf(out) <==> y in IdsOf(bs) && y != x;
        assert y in order <==> y == x || y in rest;
      }
    }
  }

  lemma IdsOfConcat(p: seq<ImageBlock>, q: seq<ImageBlock>, y: Id)
    ensures y in IdsOf(p + q) <==> y in IdsOf(p) || y in IdsOf(q)
  {
    if y in IdsOf(p + q) {
      var k :| 0 <= k < |p + q| && IdsOf(p + q)[k] == y;
      if k < |p| { assert IdsOf(p)[k] == y; } else { assert IdsOf(q)[k - |p|] == y; }
    }
    if y in IdsOf(p) {
      var k :| 0 <= k < |p| && IdsOf(p)[k] == y;
      assert IdsOf(p + q)[k] == y;
    }
    if y in IdsOf(q) {
      var k :| 0 <= k < |q| && IdsOf(q)[k] == y;
      assert IdsOf(p + q)[k + |p|] == y;
    }
  }

  /** Every kept block is one of the old ones. */
  lemma {:induction false} OutsideFrom(bs: seq<ImageBlock>, ids: set<Id>)
    ensures forall t :: t in Outside(bs, ids) ==> t in bs
    decreases |bs|
  {
    if |bs| > 0 {
      OutsideFrom(bs[1..], ids);
    }
  }

  /** Every moved tree is one of the old top-level blocks. */
  lemma {:induction false} ChainTreesFrom(bs: seq<ImageBlock>, groupId: Id, order: seq<Id>)
    ensures forall t :: t in ChainTrees(bs, groupId, order) ==> t in bs
    decreases |order|
  {
    if |order| > 0 {
      OutsideFrom(bs, {order[0]});
      ChainTreesFrom(Outside(bs, {order[0]}), groupId, order[1..]);
    }
  }

  /** The trees `drop_into_group(bi, gi)` moves into the target: the chain's, or the dragged block alone. */
  function DropMoved(bs: seq<ImageBlock>, bi: nat, gi: nat, order: seq<Id>): seq<ImageBlock>
    requires bi < |bs| && gi < |bs|
  {
    if bs[bi].chained then ChainTrees(bs, bs[gi].id, order) else [bs[bi]]
  }

  /** The ids `drop_into_group(bi, gi)` takes off the top level. */
  function DropTaken(bs: seq<ImageBlock>, bi: nat, order: seq<Id>): set<Id>
    requires bi < |bs|
  {
    if bs[bi].chained then ChainedIds(bs) else {bs[bi].id}
  }

  /** The chained case of the drop: the target adopts the chain's trees, the rest stays. */
  lemma DropChainedPlacement(bs: seq<ImageBlock>, bi: nat, gi: nat, order: seq<Id>)
    requires bi < |bs| && gi < |bs| && bi != gi && UniqueIds(bs) && bs[bi].chained
    requires forall x :: x in order <==> x in ChainedIds(bs)
    ensures Lookup(DropChain(bs, bs[gi].id, order), bs[gi].id) == Some(Adopt(bs[gi], ChainTrees(bs, bs[gi].id, order)))
    ensures forall t :: t in ChainTrees(bs, bs[gi].id, order) ==> t in bs
    ensures forall x :: x in IdsOf(ChainTrees(bs, bs[gi].id, order)) <==>
              x in IdsOf(bs) && x != bs[gi].id && x in ChainedIds(bs)
    ensures Outside(DropChain(bs, bs[gi].id, order), {bs[gi].id}) == Outside(bs, {bs[gi].id} + ChainedIds(bs))
  {
    var gid := bs[gi].id;
    assert gid in IdsOf(bs);
    UniqueLookup(bs, gi);
    DropChainPlacement(bs, gid, order);
    ChainTreesIds(bs, gid, order);
    ChainTreesFrom(bs, gid, order);
    assert Elements(order) == ChainedIds(bs);
  }

  /** The single-block case of the drop: the target adopts the dragged block, the rest stays. */
  lemma DropSinglePlacement(bs: seq<ImageBlock>, bi: nat, gi: nat)
    requires bi < |bs| && gi < |bs| && bi != gi && UniqueIds(bs)
    ensures Lookup(MoveSingle(bs, bi, gi), bs[gi].id) == Some(Adopt(bs[gi], [bs[bi]]))
    ensures Outside(MoveSingle(bs, bi, gi), {bs[gi].id}) == Outside(bs, {bs[gi].id} + {bs[bi].id})
  {
    var next := MoveSingle(bs, bi, gi);
    var t := TargetIndex(bi, gi);
    MoveSingleTopIds(bs, bi, gi);
    MoveSingleShape(bs, bi, gi);
    assert DroppedAll([bs[bi]]) == [Dropped(bs[bi])];
    assert next[t] == Adopt(bs[gi], [bs[bi]]);
    UniqueLookup(next, t);
    OutsideAfterMove(bs, bi, gi, {bs[gi].id});
  }

  /** The ids of the drop: every id stays owned, top-level ids stay unique, the taken ones leave. */
  lemma DropIntoGroupIds(bs: seq<ImageBlock>, bi: nat, gi: nat, order: seq<Id>)
    requires bi < |bs| && gi < |bs| && bi != gi && UniqueIds(bs)
    requires bs[bi].chained ==> forall x :: x in order <==> x in ChainedIds(bs)
    ensures multiset(ForestIds(DropIntoGroup(bs, bi, gi, order))) == multiset(ForestIds(bs))
    ensures UniqueIds(DropIntoGroup(bs, bi, gi, order))
    ensures forall x :: x in IdsOf(DropIntoGroup(bs, bi, gi, order)) <==>
              x in IdsOf(bs) && (x == bs[gi].id || x !in DropTaken(bs, bi, order))
  {
    assert bs[gi].id in IdsOf(bs);
    if bs[bi].chained {
      DropChainOwnership(bs, bs[gi].id, order);
      DropChainTopIds(bs, bs[gi].id, order);
    } else {
      MoveSingleOwnership(bs, bi, gi);
      MoveSingleTopIds(bs, bi, gi);
    }
  }

  /** Where the drop puts the trees: into the target, in order; the other blocks stay as they were. */
  lemma DropIntoGroupPlacement(bs: seq<ImageBlock>, bi: nat, gi: nat, order: seq<Id>)
    requires bi < |bs| && gi < |bs| && bi != gi && UniqueIds(bs)
    requires bs[bi].chained ==> forall x :: x in order <==> x in ChainedIds(bs)
    ensures Lookup(DropIntoGroup(bs, bi, gi, order), bs[gi].id) == Some(Adopt(bs[gi], DropMoved(bs, bi, gi, order)))
    ensures forall t :: t in DropMoved(bs, bi, gi, order) ==> t in bs
    ensures forall x :: x in IdsOf(DropMoved(bs, bi, gi, order)) <==>
              x in IdsOf(bs) && x != bs[gi].id && x in DropTaken(bs, bi, order)
    ensures Outside(DropIntoGroup(bs, bi, gi, order), {bs[gi].id}) ==
            Outside(bs, {bs[gi].id} + DropTaken(bs, bi, order))
  {
    if bs[bi].chained {
      DropChainedPlacement(bs, bi, gi, order);
    } else {
      DropSinglePlacement(bs, bi, gi);
      assert IdsOf([bs[bi]]) == [bs[bi].id];
      assert bs[bi].id in IdsOf(bs);
    }
  }

  /**
   * `drop_into_group(bi, gi)` as intended, with `order` listing the chain when the dragged block is
   * chained: every id stays owned and top-level ids stay unique; the dragged block, or every
   * chained block but the target, leaves the top level and becomes, in the loop's order, the last
   * children of the target, whose tree gains exactly their ids; every other top-level block stays
   * as it was, in its order.
   */
  lemma DropIntoGroupFacts(bs: seq<ImageBlock>, bi: nat, gi: nat, order: seq<Id>)
    requires bi < |bs| && gi < |bs| && bi != gi && UniqueIds(bs)
    requires bs[bi].chained ==> forall x :: x in order <==> x in ChainedIds(bs)
    ensures multiset(ForestIds(DropIntoGroup(bs, bi, gi, order))) == multiset(ForestIds(bs))
    ensures UniqueIds(DropIntoGroup(bs, bi, gi, order))
    ensures forall x :: x in IdsOf(DropIntoGroup(bs, bi, gi, order)) <==>
              x in IdsOf(bs) && (x == bs[gi].id || x !in DropTaken(bs, bi, order))
    ensures Lookup(DropIntoGroup(bs, bi, gi, order), bs[gi].id) == Some(Adopt(bs[gi], DropMoved(bs, bi, gi, order)))
    ensures SubtreeIds(Adopt(bs[gi], DropMoved(bs, bi, gi, order))) == SubtreeIds(bs[gi]) + ForestIds(DropMoved(bs, bi, gi, order))
    ensures forall t :: t in DropMoved(bs, bi, gi, order) ==> t in bs
    ensures forall x :: x in IdsOf(DropMoved(bs, bi, gi, order)) <==>
              x in IdsOf(bs) && x != bs[gi].id && x in DropTaken(bs, bi, order)
    ensures Outside(DropIntoGroup(bs, bi, gi, order), {bs[gi].id}) ==
            Outside(bs, {bs[gi].id} + DropTaken(bs, bi, order))
  {
    DropIntoGroupIds(bs, bi, gi, order);
    DropIntoGroupPlacement(bs, bi, gi, order);
    AdoptIds(bs[gi], DropMoved(bs, bi, gi, order));
  }
}
