/**
 * The chain registry of src/block_manager.rs: the `chained` flags of the top-level blocks and the
 * remembered chains, sets of ids that a later click on one member restores as a whole.
 */
module Chains {
  import opened Wrappers
  import opened Blocks

  /** `chained_ids`: the ids of the chained top-level blocks. */
  function ChainedIds(bs: seq<ImageBlock>): (r: set<Id>)
    ensures forall i :: 0 <= i < |bs| && bs[i].chained ==> bs[i].id in r
    ensures forall x :: x in r ==> exists i :: 0 <= i < |bs| && bs[i].chained && bs[i].id == x
  {
    set i | 0 <= i < |bs| && bs[i].chained :: bs[i].id
  }

  /** `chained_indices`: the indices of the chained top-level blocks, ascending. */
  function ChainedIndices(bs: seq<ImageBlock>): (r: seq<nat>)
    ensures forall k :: 0 <= k < |r| ==> r[k] < |bs| && bs[r[k]].chained
    ensures forall k, l :: 0 <= k < l < |r| ==> r[k] < r[l]
    ensures forall i :: 0 <= i < |bs| && bs[i].chained ==> i in r
    ensures (forall i :: 0 <= i < |bs| ==> !bs[i].chained) ==> r == []
  {
    ChainedIndicesBelow(bs, |bs|)
  }

  /** The ascending indices below `n` of chained blocks. */
  function ChainedIndicesBelow(bs: seq<ImageBlock>, n: nat): (r: seq<nat>)
    requires n <= |bs|
    ensures forall k :: 0 <= k < |r| ==> r[k] < n && bs[r[k]].chained
    ensures forall k, l :: 0 <= k < l < |r| ==> r[k] < r[l]
    ensures forall i :: 0 <= i < n && bs[i].chained ==> i in r
    ensures (forall i :: 0 <= i < n ==> !bs[i].chained) ==> r == []
  {
    if n == 0 then []
    else ChainedIndicesBelow(bs, n - 1) + (if bs[n - 1].chained then [n - 1] else [])
  }

  /** No id belongs to two remembered chains. */
  predicate PairwiseDisjoint(chains: seq<set<Id>>) {
    forall i, j :: 0 <= i < j < |chains| ==> chains[i] !! chains[j]
  }

  /** The set of a list of ids, as `collect()` into a hash set builds it. */
  function Elements(ids: seq<Id>): (r: set<Id>)
    ensures forall x :: x in r <==> x in ids
  {
    set x | x in ids
  }

  /** `retain(|chain| chain.is_disjoint(ids))`. */
  function DisjointFrom(chains: seq<set<Id>>, ids: set<Id>): (r: seq<set<Id>>)
    ensures |r| <= |chains|
    ensures forall c :: c in r <==> c in chains && c !! ids
    ensures PairwiseDisjoint(chains) ==> PairwiseDisjoint(r)
  {
    if |chains| == 0 then []
    else
      var rest := DisjointFrom(chains[1..], ids);
      if chains[0] !! ids then
        var r := [chains[0]] + rest;
        assert PairwiseDisjoint(chains) ==> PairwiseDisjoint(r) by {
          if PairwiseDisjoint(chains) {
            forall i, j | 0 <= i < j < |r|
              ensures r[i] !! r[j]
            {
              if i == 0 {
                assert r[j] in chains[1..];
              }
            }
          }
        }
        r
      else rest
  }

  /** The remembered chains after `clear_chain_group` with `ids` chained. */
  function Remembered(chains: seq<set<Id>>, ids: set<Id>): seq<set<Id>> {
    if |ids| >= 2 then DisjointFrom(chains, ids) + [ids] else chains
  }

  /** Remembering a chain keeps the remembered chains pairwise disjoint, and the new chain is the last. */
  lemma RememberedDisjoint(chains: seq<set<Id>>, ids: set<Id>)
    requires PairwiseDisjoint(chains)
    ensures PairwiseDisjoint(Remembered(chains, ids))
    ensures |ids| >= 2 ==> Remembered(chains, ids)[|Remembered(chains, ids)| - 1] == ids
    ensures |ids| < 2 ==> Remembered(chains, ids) == chains
  {
    if |ids| >= 2 {
      var d := DisjointFrom(chains, ids);
      var r := d + [ids];
      forall i, j | 0 <= i < j < |r|
        ensures r[i] !! r[j]
      {
        if j == |d| {
          assert r[i] in d;
        }
      }
    }
  }

  /** Every flag cleared (the loop of `clear_chain_group`). */
  function Unchained(bs: seq<ImageBlock>): (r: seq<ImageBlock>)
    ensures |r| == |bs|
    ensures forall i :: 0 <= i < |bs| ==> r[i] == bs[i].(chained := false)
  {
    seq(|bs|, i requires 0 <= i < |bs| => bs[i].(chained := false))
  }

  /** The first remembered chain holding `id`, as `iter().find(..)` gives it. */
  function FirstChainWith(chains: seq<set<Id>>, id: Id): (r: Option<set<Id>>)
    ensures r.Some? ==> r.value in chains && id in r.value
    ensures r.None? ==> forall c :: c in chains ==> id !in c
    ensures forall i :: 0 <= i < |chains| && id in chains[i] && (forall j :: 0 <= j < i ==> id !in chains[j]) ==>
              r == Some(chains[i])
  {
    if |chains| == 0 then None
    else if id in chains[0] then Some(chains[0])
    else FirstChainWith(chains[1..], id)
  }

  /**
   * `toggle_chain(index)`: an unchained block chains its first remembered chain (every top-level
   * block whose id is in it) or, without one, only itself; a chained block unchains only itself.
   */
  function ToggledChain(bs: seq<ImageBlock>, chains: seq<set<Id>>, index: nat): (r: seq<ImageBlock>)
    requires index < |bs|
    ensures |r| == |bs|
    ensures forall i :: 0 <= i < |bs| ==> r[i] == bs[i].(chained := r[i].chained)
  {
    if !bs[index].chained then
      match FirstChainWith(chains, bs[index].id)
      case Some(chain) =>
        seq(|bs|, i requires 0 <= i < |bs| => if bs[i].id in chain then bs[i].(chained := true) else bs[i])
      case None => bs[index := bs[index].(chained := true)]
    else bs[index := bs[index].(chained := false)]
  }

  /** Clicking a chained block unchains it and no other. */
  lemma ToggleChainedBlock(bs: seq<ImageBlock>, chains: seq<set<Id>>, index: nat)
    requires index < |bs| && bs[index].chained
    ensures var r := ToggledChain(bs, chains, index);
            forall i :: 0 <= i < |bs| ==> r[i].chained == (bs[i].chained && i != index)
  {
  }

  /** Clicking an unchained block with no remembered chain chains it alone. */
  lemma ToggleWithoutChain(bs: seq<ImageBlock>, chains: seq<set<Id>>, index: nat)
    requires index < |bs| && !bs[index].chained && FirstChainWith(chains, bs[index].id).None?
    ensures var r := ToggledChain(bs, chains, index);
            forall i :: 0 <= i < |bs| ==> r[i].chained == (bs[i].chained || i == index)
  {
  }

  /** Clicking an unchained block that a remembered chain holds chains every top-level member of it, itself included. */
  lemma ToggleWithChain(bs: seq<ImageBlock>, chains: seq<set<Id>>, index: nat)
    requires index < |bs| && !bs[index].chained && FirstChainWith(chains, bs[index].id).Some?
    ensures var r := ToggledChain(bs, chains, index);
            var chain := FirstChainWith(chains, bs[index].id).value;
            bs[index].id in chain &&
            forall i :: 0 <= i < |bs| ==> r[i].chained == (bs[i].chained || bs[i].id in chain)
  {
  }

  /** No two top-level blocks share an id. */
  predicate UniqueIds(bs: seq<ImageBlock>) {
    forall i, j :: 0 <= i < j < |bs| ==> bs[i].id != bs[j].id
  }

  /**
   * The round trip of the chain registry: with ids unique and at least two blocks chained,
   * clearing the chain and then clicking any former member restores exactly the former chain.
   */
  lemma ClearThenToggleRestores(bs: seq<ImageBlock>, chains: seq<set<Id>>, index: nat)
    requires UniqueIds(bs) && index < |bs| && bs[index].chained && |ChainedIds(bs)| >= 2
    ensures ToggledChain(Unchained(bs), Remembered(chains, ChainedIds(bs)), index) == bs
  {
    var ids := ChainedIds(bs);
    var rem := Remembered(chains, ids);
    var d := DisjointFrom(chains, ids);
    assert rem == d + [ids];
    var u := Unchained(bs);
    assert bs[index].id in ids;
    forall j | 0 <= j < |d|
      ensures bs[index].id !in rem[j]
    {
      assert rem[j] in d;
    }
    assert FirstChainWith(rem, u[index].id) == Some(ids);
    var r := ToggledChain(u, rem, index);
    forall i | 0 <= i < |bs|
      ensures r[i] == bs[i]
    {
      if bs[i].id in ids {
        var k :| 0 <= k < |bs| && bs[k].chained && bs[k].id == bs[i].id;
        assert k == i;
      }
    }
  }
}
