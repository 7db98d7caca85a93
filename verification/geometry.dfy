/** The pure geometry helpers of the circle editor: mapping a pointer event
    to canvas coordinates, distance, the centre of a dragged circle and the
    point-in-circle test.

    JavaScript numbers are modelled as exact reals. Math.sqrt has no exact
    counterpart, so a distance is never computed: a value `d` is "the
    distance" between two points when `IsDistance` holds of it, and every
    comparison against a distance is restated on squares. */
module Geometry {

  /** The canvas backing store is twice its displayed CSS size in each
      dimension, so pointer offsets are scaled by this factor. */
  const DeviceScale: real := 2.0

  datatype Point = Point(x: real, y: real)

  /** The part of a mouse event the editor reads: its viewport position. */
  datatype MouseEvent = MouseEvent(clientX: real, clientY: real)

  /** The part of the canvas's bounding rectangle the editor reads. */
  datatype ClientRect = ClientRect(left: real, top: real)

  /** A stored circle: centre, radius and fill colour (a `#rrggbb` string). */
  datatype Circle = Circle(x: real, y: real, radius: real, color: string)

  /** Inverse of the pointer mapping: the viewport position that a canvas
      position corresponds to. */
  function ClientPoint(p: Point, rect: ClientRect): MouseEvent
  {
    MouseEvent(p.x / DeviceScale + rect.left, p.y / DeviceScale + rect.top)
  }

  /** getMousePosition: offset from the canvas's top-left corner, scaled to
      backing-store units. Mapping back recovers the event's position. */
  function MousePosition(e: MouseEvent, rect: ClientRect): (p: Point)
    ensures ClientPoint(p, rect) == e
  {
    Point((e.clientX - rect.left) * DeviceScale, (e.clientY - rect.top) * DeviceScale)
  }

  /** The square of the Euclidean distance between two points: the value
      calculateRadius and isPointInCircle pass to Math.sqrt. */
  function SquaredDistance(x1: real, y1: real, x2: real, y2: real): (d2: real)
    ensures d2 >= 0.0
  {
    SquareNonNegative(x2 - x1);
    SquareNonNegative(y2 - y1);
    (x2 - x1) * (x2 - x1) + (y2 - y1) * (y2 - y1)
  }

  lemma SquareNonNegative(a: real)
    ensures a * a >= 0.0
    ensures a != 0.0 ==> a * a > 0.0
  {
  }

  /** `d` is what Math.sqrt returns for the distance between the points
      (calculateRadius, and the distance inside isPointInCircle). */
  predicate IsDistance(d: real, x1: real, y1: real, x2: real, y2: real): (r: bool)
    ensures r ==> -d <= x2 - x1 <= d && -d <= y2 - y1 <= d
  {
    if d >= 0.0 && d * d == SquaredDistance(x1, y1, x2, y2) then
      WithinSquare(x2 - x1, y2 - y1, d);
      true
    else false
  }

  /** A vector whose squared length is at most d * d has both components
      between -d and d. */
  lemma WithinSquare(dx: real, dy: real, d: real)
    requires d >= 0.0 && dx * dx + dy * dy <= d * d
    ensures -d <= dx <= d && -d <= dy <= d
  {
    ComponentWithin(dx, dy * dy, d);
    ComponentWithin(dy, dx * dx, d);
  }

  lemma ComponentWithin(a: real, rest: real, d: real)
    requires d >= 0.0 && rest >= 0.0 && a * a + rest <= d * d
    ensures -d <= a <= d
  {
    if a >= 0.0 {
      SquareMonotone(a, d);
    } else {
      assert (-a) * (-a) == a * a;
      SquareMonotone(-a, d);
    }
  }

  /** For non-negative reals, comparing the values and comparing their squares
      agree. */
  lemma SquareMonotone(a: real, b: real)
    requires a >= 0.0 && b >= 0.0
    ensures a <= b <==> a * a <= b * b
    ensures a < b <==> a * a < b * b
  {
    if a < b {
      StrictSquare(a, b);
    } else if b < a {
      StrictSquare(b, a);
    }
  }

  lemma StrictSquare(a: real, b: real)
    requires 0.0 <= a < b
    ensures a * a < b * b
  {
    assert b * b - a * a == (b - a) * (b + a);
    MultiplyStrict(b - a, 0.0, b + a);
  }

  lemma MultiplyStrict(k: real, a: real, b: real)
    requires k > 0.0 && a < b
    ensures k * a < k * b
  {
  }

  /** calculateRadius has exactly one possible result. */
  lemma DistanceUnique(d: real, e: real, x1: real, y1: real, x2: real, y2: real)
    requires IsDistance(d, x1, y1, x2, y2) && IsDistance(e, x1, y1, x2, y2)
    ensures d == e
  {
    SquareMonotone(d, e);
  }

  /** getCircleCenter: the midpoint of the drag. It is equally far from both
      ends, and half as far from each as they are from each other. */
  function CircleCenter(x1: real, y1: real, x2: real, y2: real): (c: Point)
    ensures SquaredDistance(c.x, c.y, x1, y1) == SquaredDistance(c.x, c.y, x2, y2)
    ensures 4.0 * SquaredDistance(c.x, c.y, x1, y1) == SquaredDistance(x1, y1, x2, y2)
  {
    var c := Point((x1 + x2) / 2.0, (y1 + y2) / 2.0);
    HalfSquare(x1, x2);
    HalfSquare(y1, y2);
    var sx, sy := (x1 - c.x) * (x1 - c.x), (y1 - c.y) * (y1 - c.y);
    assert SquaredDistance(c.x, c.y, x1, y1) == sx + sy;
    assert 4.0 * sx == (x2 - x1) * (x2 - x1);
    assert 4.0 * sy == (y2 - y1) * (y2 - y1);
    c
  }

  lemma HalfSquare(a: real, b: real)
    ensures (a - (a + b) / 2.0) * (a - (a + b) / 2.0) == (b - (a + b) / 2.0) * (b - (a + b) / 2.0)
    ensures 4.0 * ((a - (a + b) / 2.0) * (a - (a + b) / 2.0)) == (b - a) * (b - a)
  {
  }

  /** isPointInCircle, on squares: the point is no farther from the centre
      than the radius. A negative radius contains no point, as
      `sqrt(..) <= radius` is then false. A hit always lies in the circle's
      bounding square. */
  predicate IsPointInCircle(pointX: real, pointY: real, circle: Circle): (hit: bool)
    ensures hit ==> circle.radius >= 0.0
    ensures hit ==> circle.x - circle.radius <= pointX <= circle.x + circle.radius
    ensures hit ==> circle.y - circle.radius <= pointY <= circle.y + circle.radius
  {
    if circle.radius >= 0.0
       && SquaredDistance(pointX, pointY, circle.x, circle.y) <= circle.radius * circle.radius
    then
      WithinSquare(circle.x - pointX, circle.y - pointY, circle.radius);
      true
    else false
  }

  /** The squared test agrees with isPointInCircle's `distance <= circle.radius`
      for the distance Math.sqrt returns: the test is a closed disk, so a
      point on the boundary is a hit. */
  lemma PointInCircleIsClosedDisk(pointX: real, pointY: real, circle: Circle, distance: real)
    requires IsDistance(distance, pointX, pointY, circle.x, circle.y)
    ensures IsPointInCircle(pointX, pointY, circle) <==> distance <= circle.radius
  {
    if circle.radius >= 0.0 {
      SquareMonotone(distance, circle.radius);
    }
  }

  /** Translating both points by the canvas offset and scaling by the device
      factor multiplies the squared distance by the square of the factor. */
  lemma MousePositionScalesDistance(e1: MouseEvent, e2: MouseEvent, rect: ClientRect)
    ensures
      var p1 := MousePosition(e1, rect);
      var p2 := MousePosition(e2, rect);
      SquaredDistance(p1.x, p1.y, p2.x, p2.y)
        == DeviceScale * DeviceScale * SquaredDistance(e1.clientX, e1.clientY, e2.clientX, e2.clientY)
  {
  }
}
