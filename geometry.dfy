/**
 * Integer rectangles as the game uses them: position, size, centre, overlap
 * and point hit testing. The rectangle library itself is not part of this
 * model; these definitions are the usual half-open integer ones and are the
 * assumptions the rest of the model rests on (sizes are positive throughout).
 */
module Geometry {

  /** An axis-aligned rectangle: top-left corner (x, y), width w, height h. */
  datatype Rect = Rect(x: int, y: int, w: int, h: int)

  /** Horizontal centre, as `rect.centerx` reads it: x + w / 2, rounded down. */
  function CenterX(r: Rect): int
  {
    r.x + r.w / 2
  }

  /** Vertical centre, as `rect.centery` reads it: y + h / 2, rounded down. */
  function CenterY(r: Rect): int
  {
    r.y + r.h / 2
  }

  /** The `rect.center = (cx, cy)` setter: moves the rectangle, keeps its size. */
  function WithCenter(r: Rect, cx: int, cy: int): (c: Rect)
    ensures c.w == r.w && c.h == r.h
    ensures CenterX(c) == cx && CenterY(c) == cy
  {
    Rect(cx - r.w / 2, cy - r.h / 2, r.w, r.h)
  }

  /** `colliderect`: the two half-open rectangles share at least one point. */
  predicate Overlaps(a: Rect, b: Rect)
  {
    a.x < b.x + b.w && b.x < a.x + a.w &&
    a.y < b.y + b.h && b.y < a.y + a.h
  }

  /** `collidepoint`: the point lies in the half-open rectangle. */
  predicate ContainsPoint(r: Rect, px: int, py: int)
  {
    r.x <= px < r.x + r.w && r.y <= py < r.y + r.h
  }

  /**
   * Squared Euclidean distance between the centres of two rectangles; the
   * exact integer stand-in for the Euclidean distance between centres.
   */
  function CentreDistanceSquared(a: Rect, b: Rect): (d2: int)
    ensures d2 >= 0
    ensures d2 == 0 <==> CenterX(a) == CenterX(b) && CenterY(a) == CenterY(b)
  {
    var dx := CenterX(a) - CenterX(b);
    var dy := CenterY(a) - CenterY(b);
    SumOfSquaresZero(dx, dy);
    dx * dx + dy * dy
  }

  lemma SumOfSquaresZero(dx: int, dy: int)
    ensures dx * dx + dy * dy >= 0
    ensures dx * dx + dy * dy == 0 <==> dx == 0 && dy == 0
  {
    if dx != 0 {
      assert dx * dx > 0 by { if dx < 0 { assert dx * dx == (-dx) * (-dx); } }
    }
    if dy != 0 {
      assert dy * dy > 0 by { if dy < 0 { assert dy * dy == (-dy) * (-dy); } }
    }
  }

  /** Distance between centres does not depend on the order of the rectangles. */
  lemma DistanceSymmetric(a: Rect, b: Rect)
    ensures CentreDistanceSquared(a, b) == CentreDistanceSquared(b, a)
  {
    var dx := CenterX(a) - CenterX(b);
    var dy := CenterY(a) - CenterY(b);
    assert (-dx) * (-dx) == dx * dx;
    assert (-dy) * (-dy) == dy * dy;
  }
}
