/** The circle editor's state machine: the shape list, the drag state, the
    pending deletion, and the four handlers that change them.

    The module-level variables of the page script become the fields of an
    `Editor` object; each event handler becomes a method. The canvas's pixels
    are modelled by `surface`, the disks painted since the canvas was last
    cleared, in painting order: what the canvas shows is determined by that
    list. */
module CircleEditor {
  import opened Geometry
  import opened HexColor

  datatype Option<T> = None | Some(value: T)

  /** A drag must be longer than this (in backing-store units) to make a
      circle. */
  const MinimumRadiusThreshold: real := 50.0

  /** The hit test of handleMouseDown: the least index whose circle contains
      the point, as `Array.prototype.some` stops at the first callback that
      returns true; None when no circle contains it. */
  function FirstHit(x: real, y: real, circles: seq<Circle>): (r: Option<nat>)
    ensures r.Some? ==> r.value < |circles| && IsPointInCircle(x, y, circles[r.value])
    ensures r.Some? ==> forall j :: 0 <= j < r.value ==> !IsPointInCircle(x, y, circles[j])
    ensures r.None? <==> forall j :: 0 <= j < |circles| ==> !IsPointInCircle(x, y, circles[j])
  {
    if circles == [] then None
    else if IsPointInCircle(x, y, circles[0]) then Some(0)
    else match FirstHit(x, y, circles[1..])
      case None => None
      case Some(i) => Some(i + 1)
  }

  /** A circle added later never takes a hit away from an earlier one, even
      when it is painted on top of it: the hit test favours the oldest
      circle under the pointer. */
  lemma {:induction false} FirstHitIgnoresLaterCircles(x: real, y: real, circles: seq<Circle>, i: nat, c: Circle)
    requires i < |circles| && IsPointInCircle(x, y, circles[i])
    ensures FirstHit(x, y, circles + [c]) == FirstHit(x, y, circles)
  {
    if !IsPointInCircle(x, y, circles[0]) {
      assert (circles + [c])[1..] == circles[1..] + [c];
      FirstHitIgnoresLaterCircles(x, y, circles[1..], i - 1, c);
    }
  }

  /** `Array.prototype.splice(i, 1)` on the list: removes the element at i,
      keeping the others in order; an index past the end removes nothing. */
  function Splice(s: seq<Circle>, i: nat): (r: seq<Circle>)
    ensures i < |s| ==> |r| == |s| - 1
    ensures i < |s| ==> forall j :: 0 <= j < i ==> r[j] == s[j]
    ensures i < |s| ==> forall j :: i <= j < |r| ==> r[j] == s[j + 1]
    ensures i < |s| ==> multiset(r) + multiset{s[i]} == multiset(s)
    ensures i >= |s| ==> r == s
  {
    if i < |s| then
      assert s == s[..i] + [s[i]] + s[i + 1..];
      s[..i] + s[i + 1..]
    else s
  }

  /** The drag threshold test on the radius agrees with the same test on the
      squared drag length. */
  lemma RadiusExceedsThreshold(radius: real, x1: real, y1: real, x2: real, y2: real)
    requires IsDistance(radius, x1, y1, x2, y2)
    ensures radius > MinimumRadiusThreshold
      <==> SquaredDistance(x1, y1, x2, y2) > MinimumRadiusThreshold * MinimumRadiusThreshold
  {
    SquareMonotone(radius, MinimumRadiusThreshold);
  }

  /** The threshold in backing-store units is half as long in CSS pixels:
      a drag makes a circle exactly when it is longer than 25 CSS pixels. */
  lemma ThresholdInClientPixels(start: MouseEvent, end: MouseEvent, rect: ClientRect)
    ensures
      var p1 := MousePosition(start, rect);
      var p2 := MousePosition(end, rect);
      (SquaredDistance(p1.x, p1.y, p2.x, p2.y) > MinimumRadiusThreshold * MinimumRadiusThreshold
       <==> SquaredDistance(start.clientX, start.clientY, end.clientX, end.clientY) > 625.0)
  {
    MousePositionScalesDistance(start, end, rect);
  }

  /** The circle a drag creates has the drag length as its radius and the
      drag's midpoint as its centre, so it contains both ends of the drag. */
  lemma CreatedCircleContainsDrag(x1: real, y1: real, x2: real, y2: real, radius: real, color: string)
    requires IsDistance(radius, x1, y1, x2, y2)
    ensures
      var center := CircleCenter(x1, y1, x2, y2);
      var c := Circle(center.x, center.y, radius, color);
      IsPointInCircle(x1, y1, c) && IsPointInCircle(x2, y2, c)
  {
  }

  class Editor {
    /** The shapes, in the order they were created (and painted). */
    var circles: seq<Circle>
    /** True from a mouse-down until the next mouse-up. */
    var isDrawing: bool
    /** Where the last mouse-down happened, in backing-store units. */
    var startX: real
    var startY: real
    /** The circle the confirmation prompt offers to delete. */
    var indexToDelete: Option<nat>
    /** The disks painted on the canvas since it was last cleared. */
    var surface: seq<Circle>

    /** The pending index always names a circle in the list. */
    ghost predicate Valid()
      reads this
    {
      indexToDelete.Some? ==> indexToDelete.value < |circles|
    }

    /** The page's initial state: no circles, no drag, nothing pending. */
    constructor ()
      ensures Valid()
      ensures circles == [] && surface == []
      ensures !isDrawing && indexToDelete == None
    {
      circles := [];
      isDrawing := false;
      startX, startY := 0.0, 0.0;
      indexToDelete := None;
      surface := [];
    }

    /** handleMouseDown: starts a drag at the pointer and runs the hit test.
        On a hit the first circle under the pointer becomes the pending
        deletion; on a miss the pending index is left as it was. The drag
        starts in both cases. Returns whether it was a hit. */
    method MouseDown(e: MouseEvent, rect: ClientRect) returns (hit: bool)
      requires Valid()
      modifies this
      ensures Valid()
      ensures var p := MousePosition(e, rect);
        isDrawing && startX == p.x && startY == p.y
        && hit == FirstHit(p.x, p.y, circles).Some?
        && indexToDelete == (if hit then FirstHit(p.x, p.y, circles) else old(indexToDelete))
      ensures circles == old(circles) && surface == old(surface)
    {
      isDrawing := true;
      var p := MousePosition(e, rect);
      startX := p.x;
      startY := p.y;

      hit := false;
      var i := 0;
      while i < |circles|
        invariant 0 <= i <= |circles|
        invariant forall j :: 0 <= j < i ==> !IsPointInCircle(p.x, p.y, circles[j])
        invariant circles == old(circles) && surface == old(surface)
        invariant indexToDelete == old(indexToDelete)
        invariant isDrawing && startX == p.x && startY == p.y
      {
        if IsPointInCircle(p.x, p.y, circles[i]) {
          indexToDelete := Some(i);
          hit := true;
          break;
        }
        i := i + 1;
      }
    }

    /** drawCircle: paints a disk; unless it is repainting, also appends the
        circle to the list. */
    method DrawCircle(x: real, y: real, radius: real, color: string, isReDraw: bool)
      modifies this
      ensures surface == old(surface) + [Circle(x, y, radius, color)]
      ensures circles == if isReDraw then old(circles) else old(circles) + [Circle(x, y, radius, color)]
      ensures isDrawing == old(isDrawing) && startX == old(startX) && startY == old(startY)
      ensures indexToDelete == old(indexToDelete)
    {
      surface := surface + [Circle(x, y, radius, color)];
      if !isReDraw {
        circles := circles + [Circle(x, y, radius, color)];
      }
    }

    /** handleMouseUp: ends a drag. Nothing happens unless a drag is in
        progress. A drag longer than the threshold appends exactly one circle,
        centred at the drag's midpoint with the drag length as its radius,
        and paints it; a shorter one changes nothing but the drag state.
        `radius` is Math.sqrt's result for the drag length, `random` is
        Math.random's. */
    method MouseUp(e: MouseEvent, rect: ClientRect, radius: real, random: real)
      requires Valid()
      requires isDrawing ==>
        var p := MousePosition(e, rect);
        IsDistance(radius, startX, startY, p.x, p.y)
      requires 0.0 <= random < 1.0
      modifies this
      ensures Valid()
      ensures !old(isDrawing) ==> unchanged(this)
      ensures old(isDrawing) ==>
        var p := MousePosition(e, rect);
        var center := CircleCenter(old(startX), old(startY), p.x, p.y);
        var c := Circle(center.x, center.y, radius, RandomHexColor(random));
        var long := SquaredDistance(old(startX), old(startY), p.x, p.y)
          > MinimumRadiusThreshold * MinimumRadiusThreshold;
        circles == (if long then old(circles) + [c] else old(circles))
        && surface == (if long then old(surface) + [c] else old(surface))
        && !isDrawing && indexToDelete == old(indexToDelete)
        && startX == old(startX) && startY == old(startY)
    {
      if !isDrawing {
        return;
      }
      var p := MousePosition(e, rect);
      RadiusExceedsThreshold(radius, startX, startY, p.x, p.y);
      if radius > MinimumRadiusThreshold {
        var center := CircleCenter(startX, startY, p.x, p.y);
        var color := RandomHexColor(random);
        DrawCircle(center.x, center.y, radius, color, false);
      }
      isDrawing := false;
    }

    /** resetCanvas: clears the pixels. The list of circles is kept, so the
        hit test still finds circles that are no longer visible. */
    method ResetCanvas()
      modifies this
      ensures surface == []
      ensures circles == old(circles) && isDrawing == old(isDrawing)
      ensures startX == old(startX) && startY == old(startY)
      ensures indexToDelete == old(indexToDelete)
    {
      surface := [];
    }

    /** redrawCircles: clears the canvas and repaints every circle in list
        order. The list itself is left as it was, so the canvas then shows
        exactly the list, whatever it showed before. */
    method RedrawCircles()
      modifies this
      ensures surface == circles
      ensures circles == old(circles) && isDrawing == old(isDrawing)
      ensures startX == old(startX) && startY == old(startY)
      ensures indexToDelete == old(indexToDelete)
    {
      ResetCanvas();
      var k := 0;
      while k < |circles|
        invariant 0 <= k <= |circles|
        invariant surface == circles[..k]
        invariant circles == old(circles) && isDrawing == old(isDrawing)
        invariant startX == old(startX) && startY == old(startY)
        invariant indexToDelete == old(indexToDelete)
      {
        var c := circles[k];
        DrawCircle(c.x, c.y, c.radius, c.color, true);
        assert circles[..k + 1] == circles[..k] + [c];
        k := k + 1;
      }
    }

    /** handleDelete: with a deletion pending, removes exactly that circle,
        keeping the others in order, repaints the canvas from the list and
        clears the pending index. With none pending it does nothing. */
    method Delete()
      requires Valid()
      modifies this
      ensures Valid()
      ensures old(indexToDelete).None? ==> unchanged(this)
      ensures old(indexToDelete).Some? ==>
        circles == Splice(old(circles), old(indexToDelete).value)
        && |circles| == |old(circles)| - 1
        && surface == circles && indexToDelete == None
        && isDrawing == old(isDrawing) && startX == old(startX) && startY == old(startY)
    {
      if indexToDelete.Some? {
        circles := Splice(circles, indexToDelete.value);
        RedrawCircles();
        indexToDelete := None;
      }
    }

    /** handleCancel: drops the pending deletion; nothing else changes. */
    method Cancel()
      requires Valid()
      modifies this
      ensures Valid()
      ensures indexToDelete == None
      ensures circles == old(circles) && surface == old(surface)
      ensures isDrawing == old(isDrawing) && startX == old(startX) && startY == old(startY)
    {
      indexToDelete := None;
    }
  }
}
