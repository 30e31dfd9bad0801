/** Axis-aligned rectangles with the edge accessors and edge setters of a
    pygame `Rect`, and the strict overlap test that `Rect.colliderect` performs.

    Coordinates are screen pixels: x grows to the right, y grows downwards, so
    `Top` is the smaller y and `Bottom` the larger one. Coordinates are kept as
    `real` values (see README, "Left out", for the integer coercion pygame does).
 */
module Geometry {

  datatype Rect = Rect(x: real, y: real, w: real, h: real) {

    function Left(): real { x }
    function Right(): real { x + w }
    function Top(): real { y }
    function Bottom(): real { y + h }

    /** Assigning `rect.left`: moves the rectangle, keeping its size. */
    function WithLeft(left: real): (r: Rect)
      ensures r.Left() == left
      ensures r.y == y && r.w == w && r.h == h
    {
      this.(x := left)
    }

    /** Assigning `rect.right`: moves the rectangle so that its right edge is
        at `right`, keeping its size. */
    function WithRight(right: real): (r: Rect)
      ensures r.Right() == right
      ensures r.y == y && r.w == w && r.h == h
    {
      this.(x := right - w)
    }

    /** Assigning `rect.top`: moves the rectangle, keeping its size. */
    function WithTop(top: real): (r: Rect)
      ensures r.Top() == top
      ensures r.x == x && r.w == w && r.h == h
    {
      this.(y := top)
    }

    /** Assigning `rect.bottom`: moves the rectangle so that its bottom edge is
        at `bottom`, keeping its size. */
    function WithBottom(bottom: real): (r: Rect)
      ensures r.Bottom() == bottom
      ensures r.x == x && r.w == w && r.h == h
    {
      this.(y := bottom - h)
    }

    /** `rect.x += dx; rect.y += dy`. */
    function MovedBy(dx: real, dy: real): (r: Rect)
      ensures r.Left() == Left() + dx && r.Right() == Right() + dx
      ensures r.Top() == Top() + dy && r.Bottom() == Bottom() + dy
      ensures r.w == w && r.h == h
    {
      Rect(x + dx, y + dy, w, h)
    }
  }

  /** Strict overlap of the interiors: rectangles that only share an edge or
      a corner do not collide. */
  predicate Overlaps(a: Rect, b: Rect) {
    && a.Left() < b.Right()
    && b.Left() < a.Right()
    && a.Top() < b.Bottom()
    && b.Top() < a.Bottom()
  }

  /** The point (px, py) lies strictly inside `a`. */
  predicate Inside(a: Rect, px: real, py: real) {
    a.Left() < px < a.Right() && a.Top() < py < a.Bottom()
  }

  /** Two rectangles of positive size overlap exactly when some point lies
      strictly inside both of them. */
  lemma OverlapsIsSharedInterior(a: Rect, b: Rect)
    requires a.w > 0.0 && a.h > 0.0 && b.w > 0.0 && b.h > 0.0
    ensures Overlaps(a, b) <==> exists px, py :: Inside(a, px, py) && Inside(b, px, py)
  {
    if Overlaps(a, b) {
      var lo := if a.Left() < b.Left() then b.Left() else a.Left();
      var hi := if a.Right() < b.Right() then a.Right() else b.Right();
      var top := if a.Top() < b.Top() then b.Top() else a.Top();
      var bottom := if a.Bottom() < b.Bottom() then a.Bottom() else b.Bottom();
      assert Inside(a, (lo + hi) / 2.0, (top + bottom) / 2.0);
      assert Inside(b, (lo + hi) / 2.0, (top + bottom) / 2.0);
    }
  }

  /** Rectangles whose vertical extents only touch (one's bottom is the
      other's top) never overlap, whatever their horizontal positions. */
  lemma TouchingVerticallyIsNoOverlap(a: Rect, b: Rect)
    requires a.Bottom() == b.Top() || a.Top() == b.Bottom()
    ensures !Overlaps(a, b) && !Overlaps(b, a)
  {
  }

  /** The horizontal counterpart: a shared vertical edge is no overlap. */
  lemma TouchingHorizontallyIsNoOverlap(a: Rect, b: Rect)
    requires a.Right() == b.Left() || a.Left() == b.Right()
    ensures !Overlaps(a, b) && !Overlaps(b, a)
  {
  }
}
