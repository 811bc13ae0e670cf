/**
 * The pure helpers of src/main.rs: reading remembered chains back from a session
 * (`parse_remembered_chains`) and writing them (`serialize_remembered_chains`), the size an
 * image is first shown at (`scaled_size`), the saved form of a block (`block_to_data`), and the
 * choice of resize handle by the quadrant of the pointer.
 */
module AppHelpers {
  import opened Wrappers
  import opened Constants
  import opened Geometry
  import opened Blocks
  import opened Chains
  import opened Resizing

  // ---------------------------------------------------------------------------
  // Remembered chains in a session file
  // ---------------------------------------------------------------------------

  /** The ids a saved chain's strings parse to; strings that are not ids are dropped. */
  function ParseChain(chain: seq<string>, parse: string -> Option<Id>): (r: set<Id>)
    ensures forall i :: 0 <= i < |chain| && parse(chain[i]).Some? ==> parse(chain[i]).value in r
    ensures forall x :: x in r ==> exists i :: 0 <= i < |chain| && parse(chain[i]) == Some(x)
  {
    if |chain| == 0 then {}
    else
      var rest := ParseChain(chain[1..], parse);
      assert forall x :: x in rest ==> exists i :: 0 <= i < |chain| && parse(chain[i]) == Some(x) by {
        forall x | x in rest
          ensures exists i :: 0 <= i < |chain| && parse(chain[i]) == Some(x)
        {
          var i :| 0 <= i < |chain[1..]| && parse(chain[1..][i]) == Some(x);
          assert chain[i + 1] == chain[1..][i];
        }
      }
      match parse(chain[0])
      case Some(id) => {id} + rest
      case None => rest
  }

  /**
   * `parse_remembered_chains`: each saved chain parsed to a set of ids, and the chains left with
   * fewer than two ids discarded; `parse` stands for `Uuid::parse_str`.
   */
  function ParseRememberedChains(chains: seq<seq<string>>, parse: string -> Option<Id>): (r: seq<set<Id>>)
    ensures |r| <= |chains|
    ensures forall k :: 0 <= k < |r| ==> |r[k]| >= 2
  {
    if |chains| == 0 then []
    else
      var c := ParseChain(chains[0], parse);
      (if |c| >= 2 then [c] else []) + ParseRememberedChains(chains[1..], parse)
  }

  /** A chain survives parsing exactly when at least two of its strings parse to distinct ids. */
  lemma {:induction false} ParseKeepsLargeChains(chains: seq<seq<string>>, parse: string -> Option<Id>, c: set<Id>)
    ensures c in ParseRememberedChains(chains, parse) <==>
            |c| >= 2 && exists j :: 0 <= j < |chains| && ParseChain(chains[j], parse) == c
  {
    if |chains| > 0 {
      ParseKeepsLargeChains(chains[1..], parse, c);
      if exists j :: 0 <= j < |chains[1..]| && ParseChain(chains[1..][j], parse) == c {
        var j :| 0 <= j < |chains[1..]| && ParseChain(chains[1..][j], parse) == c;
        assert chains[j + 1] == chains[1..][j];
      }
      if exists j :: 0 <= j < |chains| && ParseChain(chains[j], parse) == c {
        var j :| 0 <= j < |chains| && ParseChain(chains[j], parse) == c;
        if j > 0 {
          assert chains[1..][j - 1] == chains[j];
        }
      }
    }
  }

  /**
   * `serialize_remembered_chains`: each chain written as its ids' strings. A chain is a hash set,
   * so `listing[i]` is the order in which chain `i` happens to be iterated; `show` stands for
   * `Uuid::to_string`.
   */
  function SerializeRememberedChains(listing: seq<seq<Id>>, show: Id -> string): (r: seq<seq<string>>)
    ensures |r| == |listing|
    ensures forall i :: 0 <= i < |r| ==> |r[i]| == |listing[i]|
    ensures forall i, j :: 0 <= i < |r| && 0 <= j < |r[i]| ==> r[i][j] == show(listing[i][j])
  {
    seq(|listing|, i requires 0 <= i < |listing| =>
      seq(|listing[i]|, j requires 0 <= j < |listing[i]| => show(listing[i][j])))
  }

  /** Parsing a written chain gives back its set of ids when parsing inverts printing. */
  lemma ParseWrittenChain(ids: seq<Id>, written: seq<string>, show: Id -> string, parse: string -> Option<Id>)
    requires forall x: Id :: parse(show(x)) == Some(x)
    requires |written| == |ids| && forall j :: 0 <= j < |ids| ==> written[j] == show(ids[j])
    ensures ParseChain(written, parse) == Elements(ids)
  {
    var r := ParseChain(written, parse);
    forall x | x in r
      ensures x in ids
    {
      var j :| 0 <= j < |written| && parse(written[j]) == Some(x);
      assert parse(show(ids[j])) == Some(ids[j]);
    }
    forall x | x in ids
      ensures x in r
    {
      var j :| 0 <= j < |ids| && ids[j] == x;
      assert parse(written[j]) == Some(x);
    }
  }

  /**
   * The session round trip of the remembered chains: writing chains of at least two ids and
   * reading them back gives the same chains in the same order.
   */
  lemma {:induction false} RememberedChainsRoundTrip(chains: seq<set<Id>>, listing: seq<seq<Id>>,
                                                      show: Id -> string, parse: string -> Option<Id>)
    requires forall x: Id :: parse(show(x)) == Some(x)
    requires |listing| == |chains|
    requires forall i :: 0 <= i < |chains| ==> Elements(listing[i]) == chains[i] && |chains[i]| >= 2
    ensures ParseRememberedChains(SerializeRememberedChains(listing, show), parse) == chains
  {
    var written := SerializeRememberedChains(listing, show);
    if |chains| > 0 {
      ParseWrittenChain(listing[0], written[0], show, parse);
      assert SerializeRememberedChains(listing[1..], show) == written[1..];
      RememberedChainsRoundTrip(chains[1..], listing[1..], show, parse);
    }
  }

  // ---------------------------------------------------------------------------
  // The size a new image is shown at
  // ---------------------------------------------------------------------------

  /** `a / m * m == a` and what follows for a bound on the quotient. */
  lemma QuotientBound(a: real, m: real, s: real)
    requires m >= 1.0 && s <= a / m
    ensures s * m <= a
  {
    assert a / m * m == a;
  }

  /**
   * The factor `scaled_size` multiplies by: the largest that keeps both sides (counted as at least
   * 1) within MAX_BLOCK_DIMENSION, and never more than 1.
   */
  function ScaleFactor(original: Vec2): (s: real)
    ensures 0.0 < s <= 1.0
    ensures s * RMax(original.x, 1.0) <= MAX_BLOCK_DIMENSION
    ensures s * RMax(original.y, 1.0) <= MAX_BLOCK_DIMENSION
    ensures s == 1.0 || s * RMax(original.x, 1.0) == MAX_BLOCK_DIMENSION ||
            s * RMax(original.y, 1.0) == MAX_BLOCK_DIMENSION
  {
    var mx, my := RMax(original.x, 1.0), RMax(original.y, 1.0);
    var s := RMin(RMin(MAX_BLOCK_DIMENSION / mx, MAX_BLOCK_DIMENSION / my), 1.0);
    QuotientBound(MAX_BLOCK_DIMENSION, mx, s);
    QuotientBound(MAX_BLOCK_DIMENSION, my, s);
    assert MAX_BLOCK_DIMENSION / mx * mx == MAX_BLOCK_DIMENSION;
    assert MAX_BLOCK_DIMENSION / my * my == MAX_BLOCK_DIMENSION;
    s
  }

  /** `scaled_size`: the original size times its scale factor. */
  function ScaledSize(original: Vec2): Vec2 {
    original.Scale(ScaleFactor(original))
  }

  /** One factor for both axes: the aspect ratio is kept. */
  lemma ScaledSizeKeepsAspect(original: Vec2)
    ensures var r := ScaledSize(original);
            r.x * original.y == r.y * original.x
  {
    var s := ScaleFactor(original);
    assert original.x * s * original.y == original.y * s * original.x;
  }

  /** For a real image size: never upscaled, and within MAX_BLOCK_DIMENSION on both axes. */
  lemma ScaledSizeBounds(original: Vec2)
    requires original.x >= 0.0 && original.y >= 0.0
    ensures var r := ScaledSize(original);
            0.0 <= r.x <= original.x && 0.0 <= r.y <= original.y &&
            r.x <= MAX_BLOCK_DIMENSION && r.y <= MAX_BLOCK_DIMENSION
  {
    var s := ScaleFactor(original);
    var rx := ScaledAxis(original.x, s);
    var ry := ScaledAxis(original.y, s);
    assert ScaledSize(original) == Vec2(rx, ry);
  }

  lemma ScaledAxis(v: real, s: real) returns (r: real)
    requires v >= 0.0 && 0.0 < s <= 1.0 && s * RMax(v, 1.0) <= MAX_BLOCK_DIMENSION
    ensures r == v * s && 0.0 <= r <= v && r <= MAX_BLOCK_DIMENSION
  {
    r := v * s;
    assert v * s <= v * 1.0;
    if v < 1.0 {
      assert v * s <= 1.0 * s;
    }
  }

  /** A size that already fits is kept as it is, so scaling twice is scaling once. */
  lemma ScaledSizeFits(original: Vec2)
    requires 0.0 <= original.x <= MAX_BLOCK_DIMENSION && 0.0 <= original.y <= MAX_BLOCK_DIMENSION
    ensures ScaledSize(original) == original
  {
    var mx, my := RMax(original.x, 1.0), RMax(original.y, 1.0);
    FitsQuotient(mx);
    FitsQuotient(my);
    assert ScaleFactor(original) == 1.0;
    assert original.Scale(1.0) == original;
  }

  lemma FitsQuotient(m: real)
    requires 1.0 <= m <= MAX_BLOCK_DIMENSION
    ensures MAX_BLOCK_DIMENSION / m >= 1.0
  {
    assert MAX_BLOCK_DIMENSION / m * m == MAX_BLOCK_DIMENSION;
  }

  lemma ScaledSizeIdempotent(original: Vec2)
    requires original.x >= 0.0 && original.y >= 0.0
    ensures ScaledSize(ScaledSize(original)) == ScaledSize(original)
  {
    ScaledSizeBounds(original);
    ScaledSizeFits(ScaledSize(original));
  }

  // ---------------------------------------------------------------------------
  // The saved form of a block
  // ---------------------------------------------------------------------------

  /** `BlockData`: what a session file records of a block (its colour is not modelled). */
  datatype BlockData = BlockData(
    id: Id,
    position: Vec2,
    size: Vec2,
    path: string,
    chained: bool,
    animationEnabled: bool,
    counter: int,
    isGroup: bool,
    groupName: string,
    children: seq<BlockData>)

  /** `block_to_data`: the block's own fields, and each child converted in turn. */
  function BlockToData(b: ImageBlock): (d: BlockData)
    ensures d.id == b.id && d.position == b.pos && d.size == b.imageSize && d.path == b.path
    ensures d.chained == b.chained && d.animationEnabled == b.animationEnabled && d.counter == b.counter
    ensures d.isGroup == b.isGroup && d.groupName == b.groupName
    ensures |d.children| == |b.children|
    ensures forall i :: 0 <= i < |b.children| ==> d.children[i] == BlockToData(b.children[i])
    decreases b
  {
    var kids := seq(|b.children|, i requires 0 <= i < |b.children| => BlockToData(b.children[i]));
    BlockData(b.id, b.pos, b.imageSize, b.path, b.chained, b.animationEnabled, b.counter,
              b.isGroup, b.groupName, kids)
  }

  /** Preorder ids of a saved tree. */
  function DataIds(d: BlockData): seq<Id>
    decreases d, |d.children| + 1
  {
    [d.id] + DataChildIdsFrom(d, 0)
  }

  function DataChildIdsFrom(d: BlockData, k: nat): seq<Id>
    requires k <= |d.children|
    decreases d, |d.children| - k
  {
    if k == |d.children| then [] else DataIds(d.children[k]) + DataChildIdsFrom(d, k + 1)
  }

  /** A saved tree lists exactly the ids of the block's tree, in the same preorder. */
  lemma {:induction false} BlockToDataIds(b: ImageBlock)
    ensures DataIds(BlockToData(b)) == SubtreeIds(b)
    decreases b, |b.children| + 1
  {
    BlockToDataChildIds(b, 0);
  }

  lemma {:induction false} BlockToDataChildIds(b: ImageBlock, k: nat)
    requires k <= |b.children|
    ensures DataChildIdsFrom(BlockToData(b), k) == ChildIdsFrom(b, k)
    decreases b, |b.children| - k
  {
    if k < |b.children| {
      BlockToDataIds(b.children[k]);
      BlockToDataChildIds(b, k + 1);
    }
  }

  // ---------------------------------------------------------------------------
  // The resize handle under the pointer
  // ---------------------------------------------------------------------------

  /** The corner handle of the quadrant the pointer is in, relative to the block's centre. */
  function PickHandle(mouse: Vec2, center: Vec2): ResizeHandle {
    match (mouse.x < center.x, mouse.y < center.y)
    case (true, true) => TopLeft
    case (false, true) => TopRight
    case (true, false) => BottomLeft
    case (false, false) => BottomRight
  }

  /** The picked handle points away from the centre toward the pointer on both axes, and is the only one that does. */
  lemma PickHandleQuadrant(mouse: Vec2, center: Vec2, h: ResizeHandle)
    ensures h == PickHandle(mouse, center) <==>
            (XSign(h) < 0.0 <==> mouse.x < center.x) && (YSign(h) < 0.0 <==> mouse.y < center.y)
  {
  }
}
