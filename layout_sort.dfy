/**
 * `sort_by(cmp_layout)` over blocks: the standard library's stable sort, modelled as a stable
 * insertion sort. Its contract is what the layout code relies on: the result is ordered by the
 * layout order, it is a permutation of the input, and blocks with equal layout keys keep their order.
 */
module LayoutSort {
  import opened Blocks

  /** Every pair of blocks is in layout order. */
  predicate LayoutSorted(s: seq<ImageBlock>) {
    forall i, j :: 0 <= i < j < |s| ==> CmpLayout(s[i], s[j]) != Greater
  }

  /** The first position whose block `x` sorts strictly before; the end when there is none. */
  function InsertionPoint(x: ImageBlock, s: seq<ImageBlock>): (k: nat)
    ensures k <= |s|
    ensures forall i :: 0 <= i < k ==> CmpLayout(x, s[i]) != Less
    ensures k < |s| ==> CmpLayout(x, s[k]) == Less
  {
    if |s| == 0 then 0
    else if CmpLayout(x, s[0]) == Less then 0
    else 1 + InsertionPoint(x, s[1..])
  }

  /** `x` placed after every block it does not sort strictly before. */
  function Insert(x: ImageBlock, s: seq<ImageBlock>): (r: seq<ImageBlock>)
    ensures |r| == |s| + 1
    ensures multiset(r) == multiset(s) + multiset{x}
  {
    var k := InsertionPoint(x, s);
    assert s == s[..k] + s[k..];
    s[..k] + [x] + s[k..]
  }

  /** The stable sort: each block in turn inserted behind its equals. */
  function Sort(s: seq<ImageBlock>): (r: seq<ImageBlock>)
    ensures |r| == |s|
  {
    if |s| == 0 then [] else Insert(s[|s| - 1], Sort(s[..|s| - 1]))
  }

  /** Inserting into a sorted list keeps it sorted. */
  lemma InsertSorted(x: ImageBlock, s: seq<ImageBlock>)
    requires LayoutSorted(s)
    ensures LayoutSorted(Insert(x, s))
  {
    var k := InsertionPoint(x, s);
    InsertShape(x, s, k, Insert(x, s));
    SortedAroundInsertion(x, s, k, Insert(x, s));
  }

  lemma InsertShape(x: ImageBlock, s: seq<ImageBlock>, k: nat, r: seq<ImageBlock>)
    requires k <= |s| && r == s[..k] + [x] + s[k..]
    ensures |r| == |s| + 1 && r[k] == x
    ensures forall i :: 0 <= i < k ==> r[i] == s[i]
    ensures forall i :: k < i < |r| ==> r[i] == s[i - 1]
  {
  }

  /** `x` placed at position `k` of a sorted list, after what it does not precede and before what it does. */
  lemma SortedAroundInsertion(x: ImageBlock, s: seq<ImageBlock>, k: nat, r: seq<ImageBlock>)
    requires LayoutSorted(s) && k <= |s| && |r| == |s| + 1 && r[k] == x
    requires forall i :: 0 <= i < k ==> r[i] == s[i] && CmpLayout(x, s[i]) != Less
    requires forall i :: k < i < |r| ==> r[i] == s[i - 1]
    requires k < |s| ==> CmpLayout(x, s[k]) == Less
    ensures LayoutSorted(r)
  {
    forall i, j | 0 <= i < j < |r|
      ensures CmpLayout(r[i], r[j]) != Greater
    {
      if j == k {
        CmpLayoutAntisymmetric(x, s[i]);
      } else if i == k {
        CmpLayoutTransitive(x, s[k], s[j - 1]);
      } else if j < k {
        assert r[i] == s[i] && r[j] == s[j];
      } else if i < k {
        CmpLayoutAntisymmetric(x, s[i]);
        CmpLayoutTransitive(s[i], x, s[j - 1]);
      } else {
        assert r[i] == s[i - 1] && r[j] == s[j - 1];
      }
    }
  }

  /** The sort's output is in layout order. */
  lemma {:induction false} SortSorted(s: seq<ImageBlock>)
    ensures LayoutSorted(Sort(s))
  {
    if |s| > 0 {
      SortSorted(s[..|s| - 1]);
      InsertSorted(s[|s| - 1], Sort(s[..|s| - 1]));
    }
  }

  /** The sort only permutes its input. */
  lemma {:induction false} SortPermutation(s: seq<ImageBlock>)
    ensures multiset(Sort(s)) == multiset(s)
  {
    if |s| > 0 {
      var p, x := s[..|s| - 1], s[|s| - 1];
      SortPermutation(p);
      LastSplit(s);
      MultisetSnocBlocks(Sort(p), p, x, Sort(s), s);
    }
  }

  lemma LastSplit(s: seq<ImageBlock>)
    requires |s| > 0
    ensures s == s[..|s| - 1] + [s[|s| - 1]]
  {
  }

  lemma Halves(s: seq<ImageBlock>, k: nat)
    requires k <= |s|
    ensures s == s[..k] + s[k..]
  {
  }

  lemma MultisetSnocBlocks(a: seq<ImageBlock>, b: seq<ImageBlock>, x: ImageBlock, a2: seq<ImageBlock>, b2: seq<ImageBlock>)
    requires multiset(a) == multiset(b) && multiset(a2) == multiset(a) + multiset{x} && b2 == b + [x]
    ensures multiset(a2) == multiset(b2)
  {
  }

  /** The blocks of `s` whose layout key equals that of `k`, in their order in `s`. */
  function KeyClass(s: seq<ImageBlock>, k: ImageBlock): (r: seq<ImageBlock>)
    ensures |r| <= |s|
    ensures forall i :: 0 <= i < |r| ==> KeyEqual(r[i], k)
  {
    if |s| == 0 then []
    else (if KeyEqual(s[0], k) then [s[0]] else []) + KeyClass(s[1..], k)
  }

  lemma {:induction false} KeyClassAppend(a: seq<ImageBlock>, b: seq<ImageBlock>, k: ImageBlock)
    ensures KeyClass(a + b, k) == KeyClass(a, k) + KeyClass(b, k)
  {
    if |a| == 0 {
      assert a + b == b;
    } else {
      assert (a + b)[1..] == a[1..] + b;
      KeyClassAppend(a[1..], b, k);
    }
  }

  lemma {:induction false} KeyClassNone(s: seq<ImageBlock>, k: ImageBlock)
    requires forall i :: 0 <= i < |s| ==> !KeyEqual(s[i], k)
    ensures KeyClass(s, k) == []
  {
    if |s| > 0 {
      KeyClassNone(s[1..], k);
    }
  }

  /** Inserting into a sorted list puts `x` behind every block with its key. */
  lemma InsertKeyClass(x: ImageBlock, s: seq<ImageBlock>, k: ImageBlock)
    requires LayoutSorted(s)
    ensures KeyClass(Insert(x, s), k) == KeyClass(s, k) + (if KeyEqual(x, k) then [x] else [])
  {
    var p := InsertionPoint(x, s);
    var a, b := s[..p], s[p..];
    Halves(s, p);
    KeyClassAppend(a, b, k);
    KeyClassAround(a, x, b, k);
    if KeyEqual(x, k) {
      NoKeyAfterInsertionPoint(x, s, k);
      KeyClassNone(b, k);
      assert KeyClass(b, k) == [];
    }
  }

  lemma KeyClassAround(a: seq<ImageBlock>, x: ImageBlock, b: seq<ImageBlock>, k: ImageBlock)
    ensures KeyClass(a + [x] + b, k) == KeyClass(a, k) + (if KeyEqual(x, k) then [x] else []) + KeyClass(b, k)
  {
    KeyClassAppend(a + [x], b, k);
    KeyClassAppend(a, [x], k);
    assert [x][1..] == [];
  }

  /** In a sorted list nothing from the insertion point of `x` on shares the key of `x`. */
  lemma NoKeyAfterInsertionPoint(x: ImageBlock, s: seq<ImageBlock>, k: ImageBlock)
    requires LayoutSorted(s) && KeyEqual(x, k)
    ensures forall i :: 0 <= i < |s[InsertionPoint(x, s)..]| ==> !KeyEqual(s[InsertionPoint(x, s)..][i], k)
  {
    var p := InsertionPoint(x, s);
    forall i | 0 <= i < |s[p..]|
      ensures !KeyEqual(s[p..][i], k)
    {
      CmpLayoutTransitive(x, s[p], s[p + i]);
      CmpLayoutKeys(x, s[p + i]);
      KeyEqualLess(x, s[p + i], k);
    }
  }

  lemma KeyEqualLess(x: ImageBlock, y: ImageBlock, k: ImageBlock)
    requires KeyEqual(x, k) && KeyLess(x, y)
    ensures !KeyEqual(y, k)
  {
  }

  /** Stability: blocks with equal layout keys come out in the order they went in. */
  lemma {:induction false} SortStable(s: seq<ImageBlock>, k: ImageBlock)
    ensures KeyClass(Sort(s), k) == KeyClass(s, k)
  {
    if |s| > 0 {
      var p, x := s[..|s| - 1], s[|s| - 1];
      var tail := if KeyEqual(x, k) then [x] else [];
      LastSplit(s);
      SortSorted(p);
      calc {
        KeyClass(Sort(s), k);
        KeyClass(Insert(x, Sort(p)), k);
        { InsertKeyClass(x, Sort(p), k); }
        KeyClass(Sort(p), k) + tail;
        { SortStable(p, k); }
        KeyClass(p, k) + tail;
        { KeyClassAppend(p, [x], k); assert [x][1..] == []; }
        KeyClass(s, k);
      }
    }
  }

  /** A list already in layout order is left as it is. */
  lemma {:induction false} SortOfSorted(s: seq<ImageBlock>)
    requires LayoutSorted(s)
    ensures Sort(s) == s
  {
    if |s| > 0 {
      var p, x := s[..|s| - 1], s[|s| - 1];
      SortedLast(s);
      SortOfSorted(p);
      InsertionPointAtEnd(x, p);
      SortAppendsLast(s);
    }
  }

  /** When the rest is its own sort and the last block goes at the end, the sort is the identity. */
  lemma SortAppendsLast(s: seq<ImageBlock>)
    requires |s| > 0 && Sort(s[..|s| - 1]) == s[..|s| - 1]
    requires InsertionPoint(s[|s| - 1], s[..|s| - 1]) == |s| - 1
    ensures Sort(s) == s
  {
    AppendAtEnd(s[..|s| - 1], s[|s| - 1], s);
  }

  /** Dropping the last block keeps a list sorted, and the last block sorts before none of the rest. */
  lemma SortedLast(s: seq<ImageBlock>)
    requires LayoutSorted(s) && |s| > 0
    ensures LayoutSorted(s[..|s| - 1])
    ensures forall i :: 0 <= i < |s| - 1 ==> CmpLayout(s[|s| - 1], s[i]) != Less
  {
    forall i | 0 <= i < |s| - 1
      ensures CmpLayout(s[|s| - 1], s[i]) != Less
    {
      CmpLayoutAntisymmetric(s[i], s[|s| - 1]);
    }
  }

  /** Inserting at the very end appends. */
  lemma AppendAtEnd(p: seq<ImageBlock>, x: ImageBlock, s: seq<ImageBlock>)
    requires InsertionPoint(x, p) == |p| && |s| > 0 && p == s[..|s| - 1] && x == s[|s| - 1]
    ensures Insert(x, p) == s
  {
    assert p[..|p|] == p && p[|p|..] == [];
    assert s == p + [x];
  }

  lemma {:induction false} InsertionPointAtEnd(x: ImageBlock, s: seq<ImageBlock>)
    requires forall i :: 0 <= i < |s| ==> CmpLayout(x, s[i]) != Less
    ensures InsertionPoint(x, s) == |s|
  {
    if |s| > 0 {
      InsertionPointAtEnd(x, s[1..]);
    }
  }

  /** In layout order every group comes before every non-group. */
  lemma SortedGroupsFirst(s: seq<ImageBlock>, i: nat, j: nat)
    requires LayoutSorted(s) && i < j < |s| && s[j].isGroup
    ensures s[i].isGroup
  {
    assert CmpLayout(s[i], s[j]) != Greater;
  }
}
