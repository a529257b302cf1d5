/** One circle of a round: an immutable hit region with a target flag
    (Circle.java). Drawing is not modelled. */
module Geometry {
  import opened JavaInt

  /** The two paint colours a circle can get. */
  datatype Color = Red | Gray

  /** A circle given by its top-left corner and its diameter `size`. Every
      field is set once, when the circle is built, and never changes. */
  datatype Circle = Circle(x: int, y: int, size: int, color: Color, target: bool)
  {
    /** The colour agrees with the flag: red for the target, gray otherwise. */
    predicate WellColored()
    {
      color == (if target then Red else Gray)
    }

    function IsTarget(): bool
    {
      target
    }

    /** The centre and radius, with Java's truncating `size / 2`. */
    function CenterX(): int
    {
      x + Div(size, 2)
    }

    function CenterY(): int
    {
      y + Div(size, 2)
    }

    function Radius(): int
    {
      Div(size, 2)
    }

    /** Squared distance from a point to the centre, and squared radius. */
    function DistSq(px: int, py: int): int
    {
      (px - CenterX()) * (px - CenterX()) + (py - CenterY()) * (py - CenterY())
    }

    function RadiusSq(): int
    {
      Radius() * Radius()
    }

    /** Integer-only point-in-circle test with an inclusive boundary: a point
        is inside exactly when its squared distance to the centre is at most
        the squared radius. So it lies in the square of half-side |radius|
        around the centre, and the centre itself is always inside. */
    function ContainsPoint(px: int, py: int): (inside: bool)
      ensures inside <==> DistSq(px, py) <= RadiusSq()
      ensures inside ==> Abs(px - CenterX()) <= Abs(Radius()) && Abs(py - CenterY()) <= Abs(Radius())
      ensures px == CenterX() && py == CenterY() ==> inside
    {
      var r := Abs(Radius());
      var dx := Abs(px - CenterX());
      var dy := Abs(py - CenterY());
      if r < dx then
        SquareStrictlyMonotone(r, dx);
        false
      else if r < dy then
        SquareStrictlyMonotone(r, dy);
        false
      else
        DistSq(px, py) <= RadiusSq()
    }
  }

  /** The constructor: stores the corner, the diameter and the flag, and paints
      the circle red exactly when it is the target. */
  function NewCircle(x: int, y: int, size: int, isTarget: bool): (c: Circle)
    ensures c.x == x && c.y == y && c.size == size
    ensures c.IsTarget() == isTarget
    ensures c.color == Red <==> isTarget
    ensures c.WellColored()
  {
    Circle(x, y, size, if isTarget then Red else Gray, isTarget)
  }

  lemma SquareMonotone(a: int, b: int)
    requires 0 <= a <= b
    ensures a * a <= b * b
  {
    assert a * a <= a * b;
  }

  lemma SquareStrictlyMonotone(a: int, b: int)
    requires 0 <= a < b
    ensures a * a < b * b
  {
    assert a * a <= a * b;
    assert a * b < b * b;
  }

  /** Reflecting the point through the centre does not change the answer. */
  lemma ReflectionSymmetric(c: Circle, px: int, py: int)
    ensures c.ContainsPoint(px, py) == c.ContainsPoint(2 * c.CenterX() - px, 2 * c.CenterY() - py)
  {
    var qx, qy := 2 * c.CenterX() - px, 2 * c.CenterY() - py;
    assert qx - c.CenterX() == -(px - c.CenterX());
    assert qy - c.CenterY() == -(py - c.CenterY());
    assert c.DistSq(qx, qy) == c.DistSq(px, py);
  }

  /** The boundary is inclusive: the points at distance exactly `radius` from
      the centre along each axis are inside, the points one step further out
      are not. */
  lemma BoundaryInclusive(c: Circle)
    requires c.size >= 0
    ensures c.ContainsPoint(c.CenterX() + c.Radius(), c.CenterY())
    ensures c.ContainsPoint(c.CenterX() - c.Radius(), c.CenterY())
    ensures c.ContainsPoint(c.CenterX(), c.CenterY() + c.Radius())
    ensures c.ContainsPoint(c.CenterX(), c.CenterY() - c.Radius())
    ensures !c.ContainsPoint(c.CenterX() + c.Radius() + 1, c.CenterY())
    ensures !c.ContainsPoint(c.CenterX() - c.Radius() - 1, c.CenterY())
    ensures !c.ContainsPoint(c.CenterX(), c.CenterY() + c.Radius() + 1)
    ensures !c.ContainsPoint(c.CenterX(), c.CenterY() - c.Radius() - 1)
  {
    var r := c.Radius();
    assert c.DistSq(c.CenterX() + r, c.CenterY()) == r * r;
    assert c.DistSq(c.CenterX() - r, c.CenterY()) == r * r;
    assert c.DistSq(c.CenterX(), c.CenterY() + r) == r * r;
    assert c.DistSq(c.CenterX(), c.CenterY() - r) == r * r;
  }

  /** A circle of diameter -1, 0 or 1 has radius 0 and its centre on its
      corner, so it contains exactly that one point. */
  lemma TinyCircleHoldsOnlyCorner(c: Circle, px: int, py: int)
    requires -1 <= c.size <= 1
    ensures c.ContainsPoint(px, py) <==> px == c.x && py == c.y
  {
    assert c.Radius() == 0 && c.CenterX() == c.x && c.CenterY() == c.y;
  }

  /** A point inside a circle of non-negative diameter lies in the circle's
      bounding box, from the corner to the corner plus the diameter. */
  lemma HitWithinFootprint(c: Circle, px: int, py: int)
    requires c.size >= 0
    requires c.ContainsPoint(px, py)
    ensures c.x <= px <= c.x + c.size
    ensures c.y <= py <= c.y + c.size
  {
    assert 0 <= 2 * c.Radius() <= c.size;
  }
}
