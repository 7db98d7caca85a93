/** Event sequences driven through the editor's handlers, checked against
    their contracts alone: the threshold boundary, the boundary of the hit
    test, a hit followed by a long drag, and deletion from the middle of the
    list. Canvas offset (0, 0) throughout, so canvas units are twice the
    client coordinates. */
module Scenarios {
  import opened Geometry
  import opened HexColor
  import opened CircleEditor

  /** A drag of exactly 50 units makes nothing; one of 51 makes a circle of
      radius 51 centred at the midpoint. */
  method ThresholdBoundary()
  {
    var rect := ClientRect(0.0, 0.0);
    var ed := new Editor();
    var hit := ed.MouseDown(MouseEvent(0.0, 0.0), rect);
    assert !hit;
    ed.MouseUp(MouseEvent(0.0, 25.0), rect, 50.0, 0.5);
    assert ed.circles == [] && !ed.isDrawing;

    hit := ed.MouseDown(MouseEvent(0.0, 0.0), rect);
    ed.MouseUp(MouseEvent(0.0, 25.5), rect, 51.0, 0.5);
    assert |ed.circles| == 1;
    assert ed.circles[0].x == 0.0 && ed.circles[0].y == 25.5 && ed.circles[0].radius == 51.0;

    // A mouse-up with no drag in progress changes nothing.
    ed.MouseUp(MouseEvent(300.0, 300.0), rect, 0.0, 0.5);
    assert |ed.circles| == 1;
  }

  /** A point on the circle's edge is a hit, one just outside is not. */
  method HitBoundary()
  {
    var c := Circle(100.0, 100.0, 50.0, "#000000");
    assert IsPointInCircle(150.0, 100.0, c);
    assert !IsPointInCircle(151.0, 100.0, c);
  }

  /** A hit starts a drag too: dragging far from a hit still creates a
      circle, and the pending deletion still names the circle that was hit. */
  method HitThenDrag()
  {
    var rect := ClientRect(0.0, 0.0);
    var ed := new Editor();
    var hit := ed.MouseDown(MouseEvent(0.0, 0.0), rect);
    ed.MouseUp(MouseEvent(0.0, 30.0), rect, 60.0, 0.5);
    assert |ed.circles| == 1 && ed.circles[0].y == 30.0 && ed.circles[0].radius == 60.0;

    hit := ed.MouseDown(MouseEvent(0.0, 15.0), rect);
    assert IsPointInCircle(0.0, 30.0, ed.circles[0]);
    assert hit && ed.indexToDelete == Some(0);
    ed.MouseUp(MouseEvent(100.0, 15.0), rect, 200.0, 0.25);
    assert |ed.circles| == 2 && ed.indexToDelete == Some(0);

    ed.Delete();
    assert |ed.circles| == 1 && ed.circles[0].radius == 200.0;
    assert ed.surface == ed.circles && ed.indexToDelete == None;
  }

  /** A vertical drag of 30 client pixels starting at (x, 0), where no
      circle is hit, appends one circle of radius 60 centred at (2x, 30) and
      leaves the pending deletion as it was. */
  method DragDown(ed: Editor, x: real, random: real)
    requires ed.Valid() && !ed.isDrawing && 0.0 <= random < 1.0
    requires forall j :: 0 <= j < |ed.circles| ==> !IsPointInCircle(2.0 * x, 0.0, ed.circles[j])
    modifies ed
    ensures ed.Valid() && !ed.isDrawing && ed.indexToDelete == old(ed.indexToDelete)
    ensures ed.circles == old(ed.circles) + [Circle(2.0 * x, 30.0, 60.0, RandomHexColor(random))]
  {
    var rect := ClientRect(0.0, 0.0);
    assert FirstHit(2.0 * x, 0.0, ed.circles) == None;
    var hit := ed.MouseDown(MouseEvent(x, 0.0), rect);
    assert !hit && ed.startX == 2.0 * x && ed.startY == 0.0;
    assert SquaredDistance(2.0 * x, 0.0, 2.0 * x, 60.0) == 3600.0;
    assert MousePosition(MouseEvent(x, 30.0), rect) == Point(2.0 * x, 60.0);
    assert CircleCenter(2.0 * x, 0.0, 2.0 * x, 60.0) == Point(2.0 * x, 30.0);
    ed.MouseUp(MouseEvent(x, 30.0), rect, 60.0, random);
  }

  /** Three circles of radius 60, drawn by drags 1000 units apart; nothing
      is pending and no drag is in progress. */
  method DrawThree(random: real) returns (ed: Editor)
    requires 0.0 <= random < 1.0
    ensures fresh(ed) && ed.Valid() && !ed.isDrawing && ed.indexToDelete == None
    ensures |ed.circles| == 3
    ensures ed.circles[0].x == 0.0 && ed.circles[1].x == 1000.0 && ed.circles[2].x == 2000.0
    ensures forall k :: 0 <= k < 3 ==> ed.circles[k].y == 30.0 && ed.circles[k].radius == 60.0
  {
    ed := new Editor();
    DragDown(ed, 0.0, random);
    DragDown(ed, 500.0, random);
    DragDown(ed, 1000.0, random);
  }

  /** A click at the centre of the middle circle hits it, not the first, and
      releasing in place draws nothing. Cancelling then leaves all three
      circles; deleting instead leaves the other two, in order. */
  method DeleteMiddle(random: real)
    requires 0.0 <= random < 1.0
  {
    var rect := ClientRect(0.0, 0.0);
    var ed := DrawThree(random);
    var a, b, c := ed.circles[0], ed.circles[1], ed.circles[2];
    assert ed.circles == [a, b, c];

    var hit := ed.MouseDown(MouseEvent(500.0, 15.0), rect);
    assert !IsPointInCircle(1000.0, 30.0, a) && IsPointInCircle(1000.0, 30.0, b);
    assert FirstHit(1000.0, 30.0, [a, b, c]) == Some(1);
    assert hit && ed.indexToDelete == Some(1);
    ed.MouseUp(MouseEvent(500.0, 15.0), rect, 0.0, random);
    assert ed.circles == [a, b, c];
    ed.Cancel();
    assert ed.circles == [a, b, c] && ed.indexToDelete == None;

    hit := ed.MouseDown(MouseEvent(500.0, 15.0), rect);
    assert ed.indexToDelete == Some(1);
    ed.MouseUp(MouseEvent(500.0, 15.0), rect, 0.0, random);
    ed.Delete();
    assert ed.circles == [a, c];
    assert ed.surface == [a, c];
  }
}
