/**
 * The block entity of src/block.rs: an image tile or a group of tiles.
 * A block is an owned value that the engine moves between the top-level list and a
 * group's children, so it is a datatype; the `&mut self` setters of the source are
 * functions that return the updated block.
 */
module Blocks {
  import opened Wrappers
  import opened Constants
  import opened Geometry

  /** Block identifiers (the source's `Uuid`); 0 stands for `Uuid::nil()`. */
  type Id = nat
  const NIL_ID: Id := 0

  datatype Ordering = Less | Equal | Greater

  datatype ImageBlock = ImageBlock(
    id: Id,
    path: string,
    pos: Vec2,
    dragging: bool,
    imageSize: Vec2,
    preferred: Vec2,
    aspect: real,
    chained: bool,
    counter: int,
    isFullSequence: bool,
    frameCount: nat,
    hasAnimation: bool,
    animationEnabled: bool,
    currentFrame: nat,
    frameElapsed: real,
    isGroup: bool,
    groupName: string,
    children: seq<ImageBlock>)

  // ---------------------------------------------------------------------------
  // Construction
  // ---------------------------------------------------------------------------

  /** `ImageBlock::new`: a single image (or an animation) of the given size. */
  function NewBlock(id: Id, path: string, frameCount: nat, imageSize: Vec2,
                    hasAnimation: bool, isFullSequence: bool): (r: ImageBlock)
    ensures r.id == id && r.path == path && r.frameCount == frameCount
    ensures !r.isGroup && r.children == [] && r.groupName == ""
    ensures r.imageSize == imageSize && r.preferred == imageSize
    ensures imageSize.y > 0.0 ==> r.aspect * imageSize.y == imageSize.x
    ensures imageSize.y <= 0.0 ==> r.aspect == 1.0
    ensures !r.chained && r.counter == 0 && r.pos == Vec2(0.0, 0.0) && !r.dragging
    ensures !r.animationEnabled && r.currentFrame == 0 && r.frameElapsed == 0.0
    ensures r.hasAnimation == hasAnimation && r.isFullSequence == isFullSequence
  {
    var aspect := if imageSize.y > 0.0 then imageSize.x / imageSize.y else 1.0;
    ImageBlock(id, path, Vec2(0.0, 0.0), false, imageSize, imageSize, aspect, false, 0,
               isFullSequence, frameCount, hasAnimation, false, 0, 0.0, false, "", [])
  }

  /** `ImageBlock::new_group`: a square folder of side DEFAULT_GROUP_SIZE owning `children`. */
  function NewGroup(id: Id, name: string, children: seq<ImageBlock>): (r: ImageBlock)
    ensures r.id == id && r.isGroup && r.children == children && r.groupName == name
    ensures r.imageSize == Vec2(DEFAULT_GROUP_SIZE, DEFAULT_GROUP_SIZE) && r.preferred == r.imageSize
    ensures r.aspect == 1.0 && r.isFullSequence && r.frameCount == 0 && !r.hasAnimation
    ensures !r.chained && r.counter == 0 && r.pos == Vec2(0.0, 0.0) && r.path == ""
  {
    var size := Vec2(DEFAULT_GROUP_SIZE, DEFAULT_GROUP_SIZE);
    ImageBlock(id, "", Vec2(0.0, 0.0), false, size, size, 1.0, false, 0,
               true, 0, false, false, 0, 0.0, true, name, children)
  }

  // ---------------------------------------------------------------------------
  // Size bookkeeping
  // ---------------------------------------------------------------------------

  /** The image size plus BLOCK_PADDING on every side. */
  function OuterSize(b: ImageBlock): (r: Vec2)
    ensures r.x - b.imageSize.x == 2.0 * BLOCK_PADDING && r.y - b.imageSize.y == 2.0 * BLOCK_PADDING
  {
    Vec2(b.imageSize.x + BLOCK_PADDING * 2.0, b.imageSize.y + BLOCK_PADDING * 2.0)
  }

  /** The block's rectangle at its current position. */
  function BlockRect(b: ImageBlock): Rect {
    RectFromMinSize(b.pos, OuterSize(b))
  }

  /** `set_preferred_size`: an explicit resize sets both the preferred and the current size. */
  function SetPreferredSize(b: ImageBlock, size: Vec2): (r: ImageBlock)
    ensures r.preferred == size && r.imageSize == size
    ensures r == b.(preferred := size, imageSize := size)
  {
    b.(preferred := size, imageSize := size)
  }

  /** `reset_to_preferred_size`: the current size goes back to the user's preferred size. */
  function ResetToPreferredSize(b: ImageBlock): (r: ImageBlock)
    ensures r.imageSize == b.preferred && r.preferred == b.preferred
    ensures r == b.(imageSize := b.preferred)
  {
    b.(imageSize := b.preferred)
  }

  /** The width constraint divides by the aspect ratio only when it has to clamp. */
  predicate CanConstrain(b: ImageBlock, maxWidth: real) {
    b.imageSize.x <= maxWidth + F32_EPSILON || b.aspect != 0.0
  }

  /**
   * `constrain_to_width`: a block wider than `maxWidth` (beyond f32::EPSILON) is narrowed to
   * `max(maxWidth, 1)` and its height recomputed from its fixed aspect ratio; otherwise it is left alone.
   */
  function ConstrainToWidth(b: ImageBlock, maxWidth: real): (r: ImageBlock)
    requires CanConstrain(b, maxWidth)
    ensures r == b.(imageSize := r.imageSize)
    ensures b.imageSize.x <= maxWidth + F32_EPSILON ==> r == b
    ensures b.imageSize.x > maxWidth + F32_EPSILON ==>
              r.imageSize.x == RMax(maxWidth, 1.0) && r.imageSize.y * b.aspect == r.imageSize.x
    ensures maxWidth >= 1.0 ==> r.imageSize.x <= b.imageSize.x
    ensures maxWidth >= 1.0 ==> r.imageSize.x <= maxWidth + F32_EPSILON
  {
    if b.imageSize.x <= maxWidth + F32_EPSILON then b
    else
      var w := RMax(maxWidth, 1.0);
      b.(imageSize := Vec2(w, w / b.aspect))
  }

  // ---------------------------------------------------------------------------
  // Animation playback
  // ---------------------------------------------------------------------------

  /** `stop_animation`: playback off, back at frame 0 with no elapsed time. */
  function StopAnimation(b: ImageBlock): (r: ImageBlock)
    ensures !r.animationEnabled && r.currentFrame == 0 && r.frameElapsed == 0.0
    ensures r == b.(animationEnabled := false, currentFrame := 0, frameElapsed := 0.0)
  {
    b.(animationEnabled := false, currentFrame := 0, frameElapsed := 0.0)
  }

  /** `toggle_animation`: a block with at most one frame ignores it; stopping rewinds. */
  function ToggleAnimation(b: ImageBlock): (r: ImageBlock)
    ensures b.frameCount <= 1 ==> r == b
    ensures b.frameCount > 1 ==> r.animationEnabled == !b.animationEnabled
    ensures b.frameCount > 1 && b.animationEnabled ==> r == StopAnimation(b)
    ensures b.frameCount > 1 && !b.animationEnabled ==> r == b.(animationEnabled := true)
  {
    if b.frameCount <= 1 then b
    else
      var t := b.(animationEnabled := !b.animationEnabled);
      if !t.animationEnabled then StopAnimation(t) else t
  }

  /** Starting and then stopping playback of a rewound animation gives back the same block. */
  lemma ToggleAnimationTwice(b: ImageBlock)
    requires !b.animationEnabled && b.currentFrame == 0 && b.frameElapsed == 0.0
    ensures ToggleAnimation(ToggleAnimation(b)) == b
  {
  }

  // ---------------------------------------------------------------------------
  // The block tree
  // ---------------------------------------------------------------------------

  /** Preorder ids of a block's subtree: its own id, then each child's subtree in order. */
  function SubtreeIds(b: ImageBlock): seq<Id>
    decreases b, |b.children| + 1
  {
    [b.id] + ChildIdsFrom(b, 0)
  }

  /** Preorder ids of the subtrees of `b.children[k..]`. */
  function ChildIdsFrom(b: ImageBlock, k: nat): seq<Id>
    requires k <= |b.children|
    decreases b, |b.children| - k
  {
    if k == |b.children| then [] else SubtreeIds(b.children[k]) + ChildIdsFrom(b, k + 1)
  }

  /** Preorder ids of a list of trees. */
  function ForestIds(bs: seq<ImageBlock>): seq<Id> {
    if bs == [] then [] else SubtreeIds(bs[0]) + ForestIds(bs[1..])
  }

  lemma {:induction false} ChildIdsFromIsForest(b: ImageBlock, k: nat)
    requires k <= |b.children|
    ensures ChildIdsFrom(b, k) == ForestIds(b.children[k..])
    decreases |b.children| - k
  {
    if k < |b.children| {
      ChildIdsFromIsForest(b, k + 1);
      assert b.children[k..][1..] == b.children[k + 1..];
    }
  }

  /** A block's subtree ids are its own id followed by those of its children. */
  lemma SubtreeIdsSplit(b: ImageBlock)
    ensures SubtreeIds(b) == [b.id] + ForestIds(b.children)
  {
    ChildIdsFromIsForest(b, 0);
    assert b.children[0..] == b.children;
  }

  lemma {:induction false} ForestIdsAppend(a: seq<ImageBlock>, b: seq<ImageBlock>)
    ensures ForestIds(a + b) == ForestIds(a) + ForestIds(b)
  {
    if a == [] {
      assert a + b == b;
    } else {
      assert (a + b)[1..] == a[1..] + b;
      ForestIdsAppend(a[1..], b);
    }
  }

  /** Every counter in a block's tree is zero. */
  predicate AllCountersZero(b: ImageBlock) {
    b.counter == 0 && forall i :: 0 <= i < |b.children| ==> AllCountersZero(b.children[i])
  }

  /** Two trees that differ at most in their counters. */
  predicate SameButCounters(a: ImageBlock, b: ImageBlock) {
    a.(counter := b.counter, children := b.children) == b &&
    |a.children| == |b.children| &&
    forall i :: 0 <= i < |a.children| ==> SameButCounters(a.children[i], b.children[i])
  }

  /** `reset_counters_recursive`: zeroes the counter of the block and of every descendant. */
  function ResetCountersRecursive(b: ImageBlock): (r: ImageBlock)
    ensures AllCountersZero(r)
    ensures SameButCounters(r, b)
    decreases b
  {
    var kids := seq(|b.children|, i requires 0 <= i < |b.children| => ResetCountersRecursive(b.children[i]));
    b.(counter := 0, children := kids)
  }

  // ---------------------------------------------------------------------------
  // Layout order
  // ---------------------------------------------------------------------------

  /** The row index of a block: its y divided by ROW_QUANTIZATION_HEIGHT, cast `as i32`. */
  function Row(y: real): int {
    TruncToI32(y / ROW_QUANTIZATION_HEIGHT)
  }

  /** Groups form category 0, other blocks category 1. */
  function Category(b: ImageBlock): int {
    if b.isGroup then 0 else 1
  }

  /** The lexicographic key (category, quantized row, x) that the layout order compares. */
  predicate KeyLess(a: ImageBlock, b: ImageBlock) {
    Category(a) < Category(b) ||
    (Category(a) == Category(b) &&
      (Row(a.pos.y) < Row(b.pos.y) || (Row(a.pos.y) == Row(b.pos.y) && a.pos.x < b.pos.x)))
  }

  predicate KeyEqual(a: ImageBlock, b: ImageBlock) {
    Category(a) == Category(b) && Row(a.pos.y) == Row(b.pos.y) && a.pos.x == b.pos.x
  }

  /**
   * `cmp_layout`: groups before non-groups whatever their positions; within a category by
   * quantized row, then by x.
   */
  function CmpLayout(a: ImageBlock, b: ImageBlock): (r: Ordering)
    ensures a.isGroup && !b.isGroup ==> r == Less
    ensures !a.isGroup && b.isGroup ==> r == Greater
  {
    match (a.isGroup, b.isGroup)
    case (true, false) => Less
    case (false, true) => Greater
    case _ =>
      var ra, rb := Row(a.pos.y), Row(b.pos.y);
      if ra < rb then Less
      else if ra > rb then Greater
      else if a.pos.x < b.pos.x then Less
      else if a.pos.x > b.pos.x then Greater
      else Equal
  }

  /** The layout order compares the lexicographic key (category, quantized row, x). */
  lemma CmpLayoutKeys(a: ImageBlock, b: ImageBlock)
    ensures CmpLayout(a, b) == Less <==> KeyLess(a, b)
    ensures CmpLayout(a, b) == Equal <==> KeyEqual(a, b)
    ensures CmpLayout(a, b) == Greater <==> KeyLess(b, a)
  {
  }

  function Flip(o: Ordering): Ordering {
    match o
    case Less => Greater
    case Equal => Equal
    case Greater => Less
  }

  /** Swapping the arguments of the layout order reverses the result. */
  lemma CmpLayoutAntisymmetric(a: ImageBlock, b: ImageBlock)
    ensures CmpLayout(b, a) == Flip(CmpLayout(a, b))
  {
  }

  /** The layout order is transitive: a total preorder that a stable sort may use. */
  lemma CmpLayoutTransitive(a: ImageBlock, b: ImageBlock, c: ImageBlock)
    requires CmpLayout(a, b) != Greater && CmpLayout(b, c) != Greater
    ensures CmpLayout(a, c) != Greater
    ensures CmpLayout(a, b) == Less || CmpLayout(b, c) == Less ==> CmpLayout(a, c) == Less
  {
  }

  // ---------------------------------------------------------------------------
  // Group names
  // ---------------------------------------------------------------------------

  /** The path split at every '/'. */
  function SplitPath(s: string): (r: seq<string>)
    ensures |r| >= 1
    ensures forall i, j :: 0 <= i < |r| && 0 <= j < |r[i]| ==> r[i][j] != '/'
  {
    if |s| == 0 then [""]
    else
      var rest := SplitPath(s[1..]);
      if s[0] == '/' then [""] + rest else [[s[0]] + rest[0]] + rest[1..]
  }

  /** The segments joined back with '/'. */
  function JoinPath(segs: seq<string>): string
    requires |segs| >= 1
  {
    if |segs| == 1 then segs[0] else segs[0] + "/" + JoinPath(segs[1..])
  }

  /** Splitting loses nothing: joining the segments gives back the path. */
  lemma {:induction false} SplitJoin(s: string)
    ensures JoinPath(SplitPath(s)) == s
  {
    if |s| > 0 {
      var rest := SplitPath(s[1..]);
      SplitJoin(s[1..]);
      if s[0] == '/' {
        assert SplitPath(s) == [""] + rest;
        assert ([""] + rest)[1..] == rest;
        assert s == [s[0]] + s[1..];
      } else {
        var r := [[s[0]] + rest[0]] + rest[1..];
        assert SplitPath(s) == r;
        if |rest| == 1 {
          assert JoinPath(r) == [s[0]] + rest[0];
        } else {
          assert r[1..] == rest[1..];
          assert JoinPath(rest) == rest[0] + "/" + JoinPath(rest[1..]);
        }
        assert s == [s[0]] + s[1..];
      }
    }
  }

  /** The last segment that names something: empty and "." segments are skipped, ".." has no name. */
  function LastNormal(segs: seq<string>): (r: Option<string>)
    ensures r.Some? ==> r.value in segs && r.value != "" && r.value != "." && r.value != ".."
  {
    if |segs| == 0 then None
    else
      var last := segs[|segs| - 1];
      if last == "" || last == "." then LastNormal(segs[..|segs| - 1])
      else if last == ".." then None
      else Some(last)
  }

  /** `Path::file_name` for '/'-separated paths: the last normal component, if any. */
  function FileName(path: string): (r: Option<string>)
    ensures r.Some? ==> r.value != "" && r.value != "." && r.value != ".."
    ensures r.Some? ==> forall j :: 0 <= j < |r.value| ==> r.value[j] != '/'
  {
    LastNormal(SplitPath(path))
  }

  function DigitChar(d: nat): char
    requires d < 10
  {
    "0123456789"[d]
  }

  /** `format!("{}", n)` for a count: decimal digits without leading zeros. */
  function NatToString(n: nat): (s: string)
    ensures |s| >= 1
    ensures forall i :: 0 <= i < |s| ==> '0' <= s[i] <= '9'
    ensures s[0] == '0' <==> n == 0
  {
    if n < 10 then [DigitChar(n)] else NatToString(n / 10) + [DigitChar(n % 10)]
  }

  /** The number that a string of decimal digits denotes. */
  function DecimalValue(s: string): nat
    requires forall i :: 0 <= i < |s| ==> '0' <= s[i] <= '9'
  {
    if |s| == 0 then 0 else 10 * DecimalValue(s[..|s| - 1]) + (s[|s| - 1] as int - '0' as int)
  }

  /** The decimal rendering of a count reads back as that count. */
  lemma {:induction false} NatToStringRoundTrip(n: nat)
    ensures DecimalValue(NatToString(n)) == n
  {
    if n >= 10 {
      NatToStringRoundTrip(n / 10);
      var s := NatToString(n);
      assert s[..|s| - 1] == NatToString(n / 10);
    }
  }

  /** The name `update_group_name` gives a group with these children. */
  function GroupNameFor(children: seq<ImageBlock>): (r: string)
    ensures |children| == 0 ==> r == "Empty Group"
    ensures |children| == 1 ==> r == "Box: " + FileName(children[0].path).GetOr("unnamed")
    ensures |children| > 1 ==> r == "Group of " + NatToString(|children|)
  {
    if |children| > 1 then "Group of " + NatToString(|children|)
    else if |children| == 1 then "Box: " + FileName(children[0].path).GetOr("unnamed")
    else "Empty Group"
  }

  /** `update_group_name`: recomputes a group's name from its children; no-op on a non-group. */
  function UpdateGroupName(b: ImageBlock): (r: ImageBlock)
    ensures !b.isGroup ==> r == b
    ensures b.isGroup ==> r == b.(groupName := GroupNameFor(b.children))
  {
    if !b.isGroup then b else b.(groupName := GroupNameFor(b.children))
  }

  /** A multi-child group's name ends in its child count, which reads back exactly. */
  lemma GroupNameCountsChildren(b: ImageBlock)
    requires b.isGroup && |b.children| > 1
    ensures var name := UpdateGroupName(b).groupName;
            |name| > 9 && name[..9] == "Group of " &&
            (forall i :: 9 <= i < |name| ==> '0' <= name[i] <= '9') &&
            DecimalValue(name[9..]) == |b.children|
  {
    var name := UpdateGroupName(b).groupName;
    assert name == "Group of " + NatToString(|b.children|);
    assert name[9..] == NatToString(|b.children|);
    NatToStringRoundTrip(|b.children|);
  }

  // ---------------------------------------------------------------------------
  // Chained flags
  // ---------------------------------------------------------------------------

  /** The number of chained blocks in a list (`filter(|b| b.chained).count()`). */
  function CountChained(bs: seq<ImageBlock>): (n: nat)
    ensures n <= |bs|
    ensures n == 0 <==> forall i :: 0 <= i < |bs| ==> !bs[i].chained
  {
    if bs == [] then 0 else (if bs[0].chained then 1 else 0) + CountChained(bs[1..])
  }

  // ---------------------------------------------------------------------------
  // Lookup
  // ---------------------------------------------------------------------------

  /** `block_index_in_slice`: the first index holding `id`, if any. */
  function BlockIndexInSlice(bs: seq<ImageBlock>, id: Id): (r: Option<nat>)
    ensures r.Some? ==> r.value < |bs| && bs[r.value].id == id &&
                        forall j :: 0 <= j < r.value ==> bs[j].id != id
    ensures r.None? ==> forall j :: 0 <= j < |bs| ==> bs[j].id != id
  {
    if |bs| == 0 then None
    else if bs[0].id == id then Some(0)
    else match BlockIndexInSlice(bs[1..], id)
      case None => None
      case Some(k) => Some(k + 1)
  }
}
