/**
 * The row layout of src/block_manager.rs (`reflow`): every block goes back to its preferred size,
 * is narrowed to the canvas width, and is then placed left to right in rows, a new row starting
 * where the next block would cross the right edge or where groups give way to images.
 */
module Reflow {
  import opened Wrappers
  import opened Constants
  import opened Geometry
  import opened Blocks

  /** The canvas's inner width, widened to hold at least one minimal block. */
  function InnerWidth(w: real): (r: real)
    ensures r >= MIN_CANVAS_INNER_WIDTH && r >= w
    ensures r == w || r == MIN_CANVAS_INNER_WIDTH
  {
    RMax(w, MIN_CANVAS_INNER_WIDTH)
  }

  /** The x beyond which no block may reach, unless it starts a row. */
  function RowLimit(w: real): real {
    CANVAS_PADDING + InnerWidth(w)
  }

  /** The widest image that fits the inner width with its padding. */
  function MaxImageWidth(w: real): (r: real)
    ensures r >= MIN_BLOCK_SIZE
    ensures r + 2.0 * BLOCK_PADDING == InnerWidth(w)
  {
    RMax(InnerWidth(w) - BLOCK_PADDING * 2.0, 1.0)
  }

  /** The width constraint is defined on every block (it divides only where it clamps). */
  predicate Reflowable(bs: seq<ImageBlock>, w: real) {
    forall i :: 0 <= i < |bs| ==> CanConstrain(ResetToPreferredSize(bs[i]), MaxImageWidth(w))
  }

  /** Preferred sizes and aspect ratios are non-negative, as an image's pixel dimensions are. */
  predicate NonNegativeDimensions(bs: seq<ImageBlock>) {
    forall i :: 0 <= i < |bs| ==> bs[i].preferred.x >= 0.0 && bs[i].preferred.y >= 0.0 && bs[i].aspect >= 0.0
  }

  /** The first loop of `reflow`: back to the preferred size, then narrowed to the canvas. */
  function Sized(bs: seq<ImageBlock>, w: real): (r: seq<ImageBlock>)
    requires Reflowable(bs, w)
    ensures |r| == |bs|
    ensures forall i :: 0 <= i < |bs| ==>
              r[i] == bs[i].(imageSize := r[i].imageSize) &&
              r[i].imageSize.x <= bs[i].preferred.x &&
              r[i].imageSize.x <= MaxImageWidth(w) + F32_EPSILON
    ensures forall i :: 0 <= i < |bs| && bs[i].preferred.x <= MaxImageWidth(w) + F32_EPSILON ==>
              r[i].imageSize == bs[i].preferred
    ensures forall i :: 0 <= i < |bs| && bs[i].preferred.x > MaxImageWidth(w) + F32_EPSILON ==>
              r[i].imageSize.x == MaxImageWidth(w) && r[i].imageSize.y * bs[i].aspect == MaxImageWidth(w)
  {
    seq(|bs|, i requires 0 <= i < |bs| => ConstrainToWidth(ResetToPreferredSize(bs[i]), MaxImageWidth(w)))
  }

  /** The placement state of the second loop: the next free spot, the current row's height, the last category. */
  datatype Cursor = Cursor(x: real, y: real, rowHeight: real, prevIsGroup: Option<bool>)

  const START: Cursor := Cursor(CANVAS_PADDING, CANVAS_PADDING, 0.0, None)

  /** Back to the left padding, one row (and a gap) further down. */
  function NewRow(c: Cursor): Cursor {
    c.(x := CANVAS_PADDING, y := c.y + c.rowHeight + ALIGN_SPACING, rowHeight := 0.0)
  }

  /** Where block `b` goes from cursor `c`: a new row on a category change or at the right edge. */
  function SlotFor(c: Cursor, b: ImageBlock, rowLimit: real): Cursor {
    var c1 := if c.prevIsGroup.Some? && c.prevIsGroup.value != b.isGroup && c.x > CANVAS_PADDING
              then NewRow(c) else c;
    var c2 := c1.(prevIsGroup := Some(b.isGroup));
    if c2.x + OuterSize(b).x > rowLimit then NewRow(c2) else c2
  }

  /** The cursor after placing `b` at `slot`. */
  function Advance(slot: Cursor, b: ImageBlock): Cursor {
    slot.(x := slot.x + OuterSize(b).x + ALIGN_SPACING, rowHeight := RMax(slot.rowHeight, OuterSize(b).y))
  }

  /** The second loop of `reflow`: each block placed at its slot, the cursor moved past it. */
  function PlaceAll(c: Cursor, bs: seq<ImageBlock>, rowLimit: real): (r: seq<ImageBlock>)
    ensures |r| == |bs|
    ensures forall i :: 0 <= i < |bs| ==> r[i] == bs[i].(pos := r[i].pos)
    decreases |bs|
  {
    if |bs| == 0 then []
    else
      var s := SlotFor(c, bs[0], rowLimit);
      [bs[0].(pos := Vec2(s.x, s.y))] + PlaceAll(Advance(s, bs[0]), bs[1..], rowLimit)
  }

  /** `reflow(inner_width)` on a list of blocks. */
  function Reflowed(bs: seq<ImageBlock>, w: real): (r: seq<ImageBlock>)
    requires Reflowable(bs, w)
    ensures |r| == |bs|
  {
    PlaceAll(START, Sized(bs, w), RowLimit(w))
  }

  // ---------------------------------------------------------------------------
  // What reflow changes
  // ---------------------------------------------------------------------------

  /**
   * Reflow changes only positions and current sizes; each block's current size is its preferred
   * size, narrowed to the canvas when it is too wide.
   */
  lemma ReflowChangesOnlyGeometry(bs: seq<ImageBlock>, w: real)
    requires Reflowable(bs, w)
    ensures forall i :: 0 <= i < |bs| ==>
              Reflowed(bs, w)[i] == bs[i].(pos := Reflowed(bs, w)[i].pos, imageSize := Sized(bs, w)[i].imageSize)
  {
  }

  /** Placement does not look at where the blocks were. */
  lemma {:induction false} PlaceAllIgnoresPositions(c: Cursor, a: seq<ImageBlock>, b: seq<ImageBlock>, rowLimit: real)
    requires |a| == |b|
    requires forall i :: 0 <= i < |a| ==> a[i].(pos := b[i].pos) == b[i]
    ensures PlaceAll(c, a, rowLimit) == PlaceAll(c, b, rowLimit)
    decreases |a|
  {
    if |a| > 0 {
      assert a[0].(pos := b[0].pos) == b[0];
      assert OuterSize(a[0]) == OuterSize(b[0]) && a[0].isGroup == b[0].isGroup;
      var s := SlotFor(c, a[0], rowLimit);
      assert SlotFor(c, b[0], rowLimit) == s;
      assert Advance(s, b[0]) == Advance(s, a[0]);
      assert a[0].(pos := Vec2(s.x, s.y)) == b[0].(pos := Vec2(s.x, s.y));
      assert forall i :: 0 <= i < |a| - 1 ==> a[1..][i].(pos := b[1..][i].pos) == b[1..][i];
      PlaceAllIgnoresPositions(Advance(s, a[0]), a[1..], b[1..], rowLimit);
    }
  }

  /** Reflow looks neither at the old positions nor at the old current sizes. */
  lemma ReflowIgnoresGeometry(a: seq<ImageBlock>, b: seq<ImageBlock>, w: real)
    requires Reflowable(a, w) && |a| == |b|
    requires forall i :: 0 <= i < |a| ==> a[i].(pos := b[i].pos, imageSize := b[i].imageSize) == b[i]
    ensures Reflowable(b, w) && Reflowed(a, w) == Reflowed(b, w)
  {
    var sa, sb := Sized(a, w), Sized(b, w);
    forall i | 0 <= i < |a|
      ensures sa[i].(pos := sb[i].pos) == sb[i]
    {
      assert ResetToPreferredSize(a[i]).(pos := b[i].pos) == ResetToPreferredSize(b[i]);
    }
    PlaceAllIgnoresPositions(START, sa, sb, RowLimit(w));
  }

  /** Reflowing twice at the same width gives the same layout as reflowing once. */
  lemma ReflowIdempotent(bs: seq<ImageBlock>, w: real)
    requires Reflowable(bs, w)
    ensures Reflowable(Reflowed(bs, w), w) && Reflowed(Reflowed(bs, w), w) == Reflowed(bs, w)
  {
    var r := Reflowed(bs, w);
    ReflowChangesOnlyGeometry(bs, w);
    ReflowIgnoresGeometry(bs, r, w);
    var sr := Sized(r, w);
    assert forall i :: 0 <= i < |r| ==> sr[i] == Sized(bs, w)[i].(pos := r[i].pos);
    PlaceAllIgnoresPositions(START, sr, Sized(bs, w), RowLimit(w));
  }

  // ---------------------------------------------------------------------------
  // Where reflow puts blocks
  // ---------------------------------------------------------------------------

  /** A cursor within the padding, with a non-negative row height. */
  predicate CursorOk(c: Cursor) {
    c.x >= CANVAS_PADDING && c.y >= CANVAS_PADDING && c.rowHeight >= 0.0
  }

  /** Current sizes that cannot move the cursor backwards. */
  predicate NonNegativeSizes(bs: seq<ImageBlock>) {
    forall i :: 0 <= i < |bs| ==> bs[i].imageSize.x >= 0.0 && bs[i].imageSize.y >= 0.0
  }

  /** Block `b` lies entirely behind the cursor: earlier in its row, or in an earlier row. */
  predicate Behind(b: ImageBlock, c: Cursor) {
    (b.pos.y == c.y && b.pos.x + OuterSize(b).x + ALIGN_SPACING <= c.x && OuterSize(b).y <= c.rowHeight) ||
    b.pos.y + OuterSize(b).y + ALIGN_SPACING <= c.y
  }

  /**
   * `b` comes after `a` in reading order with at least ALIGN_SPACING between them: to its right in
   * the same row, or below it.
   */
  predicate Separated(a: ImageBlock, b: ImageBlock) {
    (a.pos.y == b.pos.y && a.pos.x + OuterSize(a).x + ALIGN_SPACING <= b.pos.x) ||
    a.pos.y + OuterSize(a).y + ALIGN_SPACING <= b.pos.y
  }

  /** Placing one block: what lay behind the old cursor lies behind the new one and before the block. */
  lemma PlaceOne(c: Cursor, b: ImageBlock, rowLimit: real, placed: seq<ImageBlock>)
    requires CursorOk(c) && b.imageSize.x >= 0.0
    requires forall k :: 0 <= k < |placed| ==> Behind(placed[k], c)
    ensures var s := SlotFor(c, b, rowLimit);
            var p := b.(pos := Vec2(s.x, s.y));
            var c' := Advance(s, b);
            CursorOk(c') && s.y >= c.y && Behind(p, c') &&
            (forall k :: 0 <= k < |placed| ==> Separated(placed[k], p)) &&
            (forall k :: 0 <= k < |placed + [p]| ==> Behind((placed + [p])[k], c'))
  {
    var s := SlotFor(c, b, rowLimit);
    var p := b.(pos := Vec2(s.x, s.y));
    var c' := Advance(s, b);
    assert forall k :: 0 <= k < |placed| ==> Behind(placed[k], s);
    assert forall k :: 0 <= k < |placed| ==> Behind(placed[k], c');
    assert forall k :: 0 <= k < |placed + [p]| ==> (placed + [p])[k] == if k < |placed| then placed[k] else p;
  }

  /** Every placed block is separated from every block placed after it, and from all placed before. */
  lemma {:induction false} PlaceAllSeparated(c: Cursor, bs: seq<ImageBlock>, rowLimit: real, placed: seq<ImageBlock>)
    requires CursorOk(c) && NonNegativeSizes(bs)
    requires forall k :: 0 <= k < |placed| ==> Behind(placed[k], c)
    ensures forall k, j :: 0 <= k < |placed| && 0 <= j < |bs| ==> Separated(placed[k], PlaceAll(c, bs, rowLimit)[j])
    ensures forall i, j :: 0 <= i < j < |bs| ==> Separated(PlaceAll(c, bs, rowLimit)[i], PlaceAll(c, bs, rowLimit)[j])
    decreases |bs|
  {
    if |bs| > 0 {
      var s := SlotFor(c, bs[0], rowLimit);
      var p := bs[0].(pos := Vec2(s.x, s.y));
      var c' := Advance(s, bs[0]);
      PlaceOne(c, bs[0], rowLimit, placed);
      var placed' := placed + [p];
      var rest := PlaceAll(c', bs[1..], rowLimit);
      PlaceAllSeparated(c', bs[1..], rowLimit, placed');
      var r := PlaceAll(c, bs, rowLimit);
      assert r == [p] + rest;
      forall j | 0 <= j < |rest|
        ensures Separated(p, rest[j])
      {
        assert placed'[|placed|] == p;
      }
      forall k, j | 0 <= k < |placed| && 0 <= j < |r|
        ensures Separated(placed[k], r[j])
      {
        if j > 0 {
          assert placed'[k] == placed[k];
          assert r[j] == rest[j - 1];
        }
      }
      forall i, j | 0 <= i < j < |r|
        ensures Separated(r[i], r[j])
      {
        assert r[j] == rest[j - 1];
        if i > 0 {
          assert r[i] == rest[i - 1];
        }
      }
    }
  }

  /** Each block starts inside the padding and ends before the row limit, unless it begins its row. */
  lemma {:induction false} PlaceAllBounds(c: Cursor, bs: seq<ImageBlock>, rowLimit: real)
    requires CursorOk(c) && NonNegativeSizes(bs)
    ensures forall j :: 0 <= j < |bs| ==>
              PlaceAll(c, bs, rowLimit)[j].pos.x >= CANVAS_PADDING && PlaceAll(c, bs, rowLimit)[j].pos.y >= c.y &&
              (PlaceAll(c, bs, rowLimit)[j].pos.x + OuterSize(bs[j]).x <= rowLimit ||
               PlaceAll(c, bs, rowLimit)[j].pos.x == CANVAS_PADDING)
    decreases |bs|
  {
    if |bs| > 0 {
      var s := SlotFor(c, bs[0], rowLimit);
      PlaceOne(c, bs[0], rowLimit, []);
      PlaceAllBounds(Advance(s, bs[0]), bs[1..], rowLimit);
    }
  }

  /** A change between groups and images always starts a new row. */
  lemma {:induction false} PlaceAllCategoryRows(c: Cursor, bs: seq<ImageBlock>, rowLimit: real)
    requires CursorOk(c) && NonNegativeSizes(bs)
    ensures |bs| > 0 && c.prevIsGroup.Some? && c.prevIsGroup.value != bs[0].isGroup && c.x > CANVAS_PADDING ==>
              PlaceAll(c, bs, rowLimit)[0].pos.x == CANVAS_PADDING
    ensures forall i :: 0 <= i < |bs| - 1 && bs[i].isGroup != bs[i + 1].isGroup ==>
              PlaceAll(c, bs, rowLimit)[i + 1].pos.x == CANVAS_PADDING
    decreases |bs|
  {
    if |bs| > 0 {
      var s := SlotFor(c, bs[0], rowLimit);
      var c' := Advance(s, bs[0]);
      PlaceOne(c, bs[0], rowLimit, []);
      PlaceAllCategoryRows(c', bs[1..], rowLimit);
      assert c'.prevIsGroup == Some(bs[0].isGroup) && c'.x > CANVAS_PADDING;
    }
  }

  /** Sized blocks keep non-negative sizes: a clamped height is a positive width over a positive aspect. */
  lemma SizedDimensions(bs: seq<ImageBlock>, w: real)
    requires Reflowable(bs, w) && NonNegativeDimensions(bs)
    ensures NonNegativeSizes(Sized(bs, w))
  {
    var r := Sized(bs, w);
    forall i | 0 <= i < |bs|
      ensures r[i].imageSize.x >= 0.0 && r[i].imageSize.y >= 0.0
    {
      if bs[i].preferred.x > MaxImageWidth(w) + F32_EPSILON {
        assert bs[i].aspect > 0.0;
        assert r[i].imageSize.y * bs[i].aspect == MaxImageWidth(w);
      }
    }
  }

  /**
   * After reflow every block starts inside the canvas padding and ends, up to f32::EPSILON, inside
   * the canvas's right edge.
   */
  lemma ReflowBounds(bs: seq<ImageBlock>, w: real)
    requires Reflowable(bs, w) && NonNegativeDimensions(bs)
    ensures forall j :: 0 <= j < |bs| ==>
              Reflowed(bs, w)[j].pos.x >= CANVAS_PADDING && Reflowed(bs, w)[j].pos.y >= CANVAS_PADDING &&
              Reflowed(bs, w)[j].pos.x + OuterSize(Reflowed(bs, w)[j]).x <= RowLimit(w) + F32_EPSILON
  {
    var sized := Sized(bs, w);
    SizedDimensions(bs, w);
    PlaceAllBounds(START, sized, RowLimit(w));
    assert forall j :: 0 <= j < |bs| ==> OuterSize(Reflowed(bs, w)[j]) == OuterSize(sized[j]);
  }

  /**
   * After reflow the blocks are in reading order with ALIGN_SPACING between them, so no two overlap
   * and y never decreases along the list.
   */
  lemma ReflowSeparated(bs: seq<ImageBlock>, w: real)
    requires Reflowable(bs, w) && NonNegativeDimensions(bs)
    ensures forall i, j :: 0 <= i < j < |bs| ==>
              Separated(Reflowed(bs, w)[i], Reflowed(bs, w)[j]) && Reflowed(bs, w)[i].pos.y <= Reflowed(bs, w)[j].pos.y
  {
    var sized := Sized(bs, w);
    SizedDimensions(bs, w);
    PlaceAllSeparated(START, sized, RowLimit(w), []);
    assert NonNegativeSizes(Reflowed(bs, w));
  }

  /**
   * Where groups give way to images (or back), the second block starts a new row at the left
   * padding, strictly below the first.
   */
  lemma ReflowCategoryRows(bs: seq<ImageBlock>, w: real)
    requires Reflowable(bs, w) && NonNegativeDimensions(bs)
    ensures forall i :: 0 <= i < |bs| - 1 && bs[i].isGroup != bs[i + 1].isGroup ==>
              Reflowed(bs, w)[i + 1].pos.x == CANVAS_PADDING && Reflowed(bs, w)[i + 1].pos.y > Reflowed(bs, w)[i].pos.y
  {
    var sized := Sized(bs, w);
    SizedDimensions(bs, w);
    PlaceAllCategoryRows(START, sized, RowLimit(w));
    PlaceAllBounds(START, sized, RowLimit(w));
    ReflowSeparated(bs, w);
    var r := Reflowed(bs, w);
    forall i | 0 <= i < |bs| - 1 && bs[i].isGroup != bs[i + 1].isGroup
      ensures r[i + 1].pos.y > r[i].pos.y
    {
      assert Separated(r[i], r[i + 1]);
      assert r[i].pos.x + OuterSize(r[i]).x + ALIGN_SPACING > CANVAS_PADDING;
    }
  }
}
