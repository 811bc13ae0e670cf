/** The small part of egui's geometry the engine uses: points, vectors, rectangles. */
module Geometry {
  import opened Constants

  datatype Vec2 = Vec2(x: real, y: real) {
    function Plus(o: Vec2): Vec2 { Vec2(x + o.x, y + o.y) }
    function Minus(o: Vec2): Vec2 { Vec2(x - o.x, y - o.y) }
    function Scale(k: real): Vec2 { Vec2(x * k, y * k) }
  }

  /** An axis-aligned rectangle given by its corners, as egui's `Rect`. */
  datatype Rect = Rect(min: Vec2, max: Vec2) {
    function Width(): real { max.x - min.x }
    function Height(): real { max.y - min.y }
    function Center(): Vec2 { Vec2((min.x + max.x) / 2.0, (min.y + max.y) / 2.0) }
    /** egui's `Rect::contains`: both bounds inclusive. */
    predicate Contains(p: Vec2) {
      min.x <= p.x <= max.x && min.y <= p.y <= max.y
    }
  }

  function RectFromMinSize(min: Vec2, size: Vec2): (r: Rect)
    ensures r.min == min && r.Width() == size.x && r.Height() == size.y
  {
    Rect(min, min.Plus(size))
  }

  function RectFromCenterSize(center: Vec2, size: Vec2): (r: Rect)
    ensures r.Center() == center && r.Width() == size.x && r.Height() == size.y
  {
    Rect(Vec2(center.x - size.x / 2.0, center.y - size.y / 2.0),
         Vec2(center.x + size.x / 2.0, center.y + size.y / 2.0))
  }

  function RMax(a: real, b: real): (r: real)
    ensures r >= a && r >= b && (r == a || r == b)
  {
    if a >= b then a else b
  }

  function RMin(a: real, b: real): (r: real)
    ensures r <= a && r <= b && (r == a || r == b)
  {
    if a <= b then a else b
  }

  function RAbs(a: real): (r: real)
    ensures r >= 0.0 && (r == a || r == -a)
  {
    if a >= 0.0 then a else -a
  }

  /** Truncation of a real toward zero, the integer part of `r`. */
  function TruncToZero(r: real): (n: int)
    ensures r >= 0.0 ==> n as real <= r < n as real + 1.0
    ensures r <= 0.0 ==> n as real - 1.0 < r <= n as real
  {
    if r >= 0.0 then r.Floor else -((-r).Floor)
  }

  /** Rust's `f as i32` on a finite float: truncation toward zero, saturating at the i32 range. */
  function TruncToI32(r: real): (n: int)
    ensures I32_MIN <= n <= I32_MAX
    ensures I32_MIN as real <= r <= I32_MAX as real ==> n == TruncToZero(r)
  {
    var t := TruncToZero(r);
    if t < I32_MIN then I32_MIN else if t > I32_MAX then I32_MAX else t
  }

  /** `as i32` is monotone, which is what makes row quantization a consistent ordering key. */
  lemma TruncToI32Monotone(r: real, s: real)
    requires r <= s
    ensures TruncToI32(r) <= TruncToI32(s)
  {
    if r >= 0.0 {
      assert r.Floor <= s.Floor;
    } else if s <= 0.0 {
      assert (-s).Floor <= (-r).Floor;
    }
  }

  /** Truncation is not flooring: a block dragged a little above the canvas top is still in row 0. */
  lemma TruncIsNotFloor()
    ensures TruncToI32(-0.5) == 0 && (-0.5).Floor == -1
  {
  }
}
