/** Axis-aligned rectangles with the origin at the bottom left of a wall,
    and the three predicates the panelling engine builds on: overlap,
    containment and intersection. All coordinates and sizes are whole
    centimetres. */
module Geometry {

  /** A rectangle whose bottom-left corner is (x, y). */
  datatype Rect = Rect(x: int, y: int, width: int, height: int)

  function Min(a: int, b: int): int { if a <= b then a else b }

  function Max(a: int, b: int): int { if a >= b then a else b }

  predicate NonEmpty(r: Rect) { r.width > 0 && r.height > 0 }

  /** Reference meaning of a rectangle: the unit square whose bottom-left
      corner is (px, py) lies inside r. */
  predicate HasPoint(r: Rect, px: int, py: int) {
    r.x <= px < r.x + r.width && r.y <= py < r.y + r.height
  }

  /** Two rectangles overlap unless one lies entirely to the left of,
      to the right of, below or above the other. */
  predicate Overlaps(a: Rect, b: Rect) {
    !(a.x + a.width <= b.x ||
      b.x + b.width <= a.x ||
      a.y + a.height <= b.y ||
      b.y + b.height <= a.y)
  }

  /** outer contains inner when inner does not stick out on any side. */
  predicate Contains(outer: Rect, inner: Rect) {
    inner.x >= outer.x &&
    inner.y >= outer.y &&
    inner.x + inner.width <= outer.x + outer.width &&
    inner.y + inner.height <= outer.y + outer.height
  }

  /** The overlap of a and b; its extents are negative when the two are
      disjoint, which is why callers test Overlaps first. */
  function Intersection(a: Rect, b: Rect): (r: Rect)
    ensures Contains(a, r) && Contains(b, r)
    ensures NonEmpty(a) && NonEmpty(b) ==> (NonEmpty(r) <==> Overlaps(a, b))
  {
    var x := Max(a.x, b.x);
    var y := Max(a.y, b.y);
    Rect(x, y, Min(a.x + a.width, b.x + b.width) - x, Min(a.y + a.height, b.y + b.height) - y)
  }

  /** The intersection holds exactly the unit squares common to a and b. */
  lemma IntersectionPoints(a: Rect, b: Rect)
    ensures forall px, py :: HasPoint(Intersection(a, b), px, py) <==> HasPoint(a, px, py) && HasPoint(b, px, py)
  {
  }

  lemma OverlapsSymmetric(a: Rect, b: Rect)
    ensures Overlaps(a, b) == Overlaps(b, a)
  {
  }

  lemma ContainsReflexive(r: Rect)
    ensures Contains(r, r)
  {
  }

  /** For non-empty rectangles, the syntactic overlap test agrees with the
      existence of a common unit square. */
  lemma OverlapsIffCommonPoint(a: Rect, b: Rect)
    requires NonEmpty(a) && NonEmpty(b)
    ensures Overlaps(a, b) <==> exists px, py :: HasPoint(a, px, py) && HasPoint(b, px, py)
  {
    if Overlaps(a, b) {
      var px, py := Max(a.x, b.x), Max(a.y, b.y);
      assert HasPoint(a, px, py) && HasPoint(b, px, py);
    }
  }

  /** For a non-empty inner rectangle, containment is inclusion of the
      unit squares. */
  lemma ContainsIffAllPoints(outer: Rect, inner: Rect)
    requires NonEmpty(inner)
    ensures Contains(outer, inner) <==> forall px, py :: HasPoint(inner, px, py) ==> HasPoint(outer, px, py)
  {
    if forall px, py :: HasPoint(inner, px, py) ==> HasPoint(outer, px, py) {
      assert HasPoint(inner, inner.x, inner.y);
      assert HasPoint(inner, inner.x + inner.width - 1, inner.y + inner.height - 1);
    }
  }

  /** A unit square inside a rectangle that outer contains is inside outer. */
  lemma ContainsPoint(outer: Rect, inner: Rect, px: int, py: int)
    requires Contains(outer, inner) && HasPoint(inner, px, py)
    ensures HasPoint(outer, px, py)
  {
  }
}
