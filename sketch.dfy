/**
 * The stroke tracker of the SketchPad multi-touch drawing demo.
 *
 * Touch input keeps a table `lines` from touch identifier to the last point drawn for that
 * finger; every touchmove strokes one segment per listed touch, from the finger's entry to its
 * new position. Mouse input keeps one implicit previous point. The canvas is represented by the
 * log of segments stroked on it, and persisting the canvas by a count of saves.
 */
module Sketch {

  datatype Option<T> = None | Some(value: T)

  /** A point in canvas pixel space. Coordinates are integers, so p + (q - p) == q exactly. */
  datatype Point = Point(x: int, y: int)

  /** One entry of a touch event's `touches` list. */
  datatype Touch = Touch(identifier: int, clientX: int, clientY: int)

  /** One stroked path on the canvas: moveTo(from), lineTo(to), stroke(). */
  datatype Segment = Segment(from: Point, to: Point)

  function PointOf(t: Touch): Point
  {
    Point(t.clientX, t.clientY)
  }

  /** The identifiers that occur in a touch list. */
  function Ids(touches: seq<Touch>): set<int>
  {
    set i | 0 <= i < |touches| :: touches[i].identifier
  }

  predicate DistinctIds(touches: seq<Touch>)
  {
    forall i, j :: 0 <= i < j < |touches| ==> touches[i].identifier != touches[j].identifier
  }

  /** Every listed touch has an entry in the table. */
  predicate AllTracked(lines: map<int, Point>, touches: seq<Touch>)
  {
    forall i :: 0 <= i < |touches| ==> touches[i].identifier in lines
  }

  lemma IdsOfLast(touches: seq<Touch>)
    requires touches != []
    ensures Ids(touches) == Ids(touches[..|touches| - 1]) + {touches[|touches| - 1].identifier}
  {
    var n := |touches| - 1;
    var prefix := touches[..n];
    forall id | id in Ids(touches) ensures id in Ids(prefix) + {touches[n].identifier} {
      var i :| 0 <= i < |touches| && touches[i].identifier == id;
      if i < n {
        assert prefix[i] == touches[i];
      }
    }
    forall id | id in Ids(prefix) ensures id in Ids(touches) {
      var i :| 0 <= i < n && prefix[i].identifier == id;
      assert touches[i] == prefix[i];
    }
  }

  /**
   * The table after each listed touch, in list order, has had its entry set to the touch's
   * coordinates. Touches not listed keep their entries; no entry is removed.
   */
  function Track(lines: map<int, Point>, touches: seq<Touch>): (r: map<int, Point>)
    ensures r.Keys == lines.Keys + Ids(touches)
    ensures forall id :: id in lines && id !in Ids(touches) ==> r[id] == lines[id]
    decreases |touches|
  {
    if touches == [] then lines
    else
      var n := |touches| - 1;
      IdsOfLast(touches);
      Track(lines, touches[..n])[touches[n].identifier := PointOf(touches[n])]
  }

  /** When a listed identifier occurs more than once, its last occurrence decides its entry. */
  lemma {:induction false} TrackLastWins(lines: map<int, Point>, touches: seq<Touch>, i: int)
    requires 0 <= i < |touches|
    requires forall j :: i < j < |touches| ==> touches[j].identifier != touches[i].identifier
    ensures touches[i].identifier in Track(lines, touches)
    ensures Track(lines, touches)[touches[i].identifier] == PointOf(touches[i])
  {
    var n := |touches| - 1;
    if i < n {
      var prefix := touches[..n];
      assert forall j :: i < j < n ==> prefix[j] == touches[j];
      TrackLastWins(lines, prefix, i);
    }
  }

  /** With distinct identifiers, every listed touch is tracked at exactly its coordinates. */
  lemma TrackPlacesEveryTouch(lines: map<int, Point>, touches: seq<Touch>)
    requires DistinctIds(touches)
    ensures forall i :: 0 <= i < |touches| ==>
      touches[i].identifier in Track(lines, touches) &&
      Track(lines, touches)[touches[i].identifier] == PointOf(touches[i])
  {
    forall i | 0 <= i < |touches|
      ensures touches[i].identifier in Track(lines, touches)
      ensures Track(lines, touches)[touches[i].identifier] == PointOf(touches[i])
    {
      TrackLastWins(lines, touches, i);
    }
  }

  /** Tracking touches that already have entries adds no entry and removes none. */
  lemma TrackKeepsKeys(lines: map<int, Point>, touches: seq<Touch>)
    requires AllTracked(lines, touches)
    ensures Track(lines, touches).Keys == lines.Keys
  {
    forall id | id in Ids(touches) ensures id in lines {
      var i :| 0 <= i < |touches| && touches[i].identifier == id;
    }
  }

  /**
   * How many touches, from the front of the list, have an entry in the table. The touchmove
   * handler stops with a TypeError at the first listed touch that has none.
   */
  function TrackedPrefix(lines: map<int, Point>, touches: seq<Touch>): (k: nat)
    ensures k <= |touches|
    ensures forall i :: 0 <= i < k ==> touches[i].identifier in lines
    ensures k < |touches| ==> touches[k].identifier !in lines
    decreases |touches|
  {
    if touches == [] || touches[0].identifier !in lines then 0
    else 1 + TrackedPrefix(lines, touches[1..])
  }

  /** The tracked prefix ends exactly where the first untracked touch stands. */
  lemma TrackedPrefixEndsAt(lines: map<int, Point>, touches: seq<Touch>, i: int)
    requires 0 <= i <= |touches|
    requires AllTracked(lines, touches[..i])
    requires i < |touches| ==> touches[i].identifier !in lines
    ensures TrackedPrefix(lines, touches) == i
  {
  }

  /**
   * The segments that touchmove strokes for a list of tracked touches, in list order: each one
   * from that finger's entry, as the touches before it left the table, to the touch's coordinates.
   */
  function MoveSegments(lines: map<int, Point>, touches: seq<Touch>): (r: seq<Segment>)
    requires AllTracked(lines, touches)
    ensures |r| == |touches|
    ensures forall i :: 0 <= i < |touches| ==> r[i].to == PointOf(touches[i])
    decreases |touches|
  {
    if touches == [] then []
    else
      var n := |touches| - 1;
      var before := Track(lines, touches[..n]);
      MoveSegments(lines, touches[..n]) + [Segment(before[touches[n].identifier], PointOf(touches[n]))]
  }

  /**
   * With distinct identifiers, the segment of each touch starts at the point its finger was
   * tracked at before the event: a stroke continues exactly where the previous one ended.
   */
  lemma {:induction false} MoveSegmentsStartAtPreviousPoint(lines: map<int, Point>, touches: seq<Touch>)
    requires AllTracked(lines, touches)
    requires DistinctIds(touches)
    ensures forall i :: 0 <= i < |touches| ==>
      MoveSegments(lines, touches)[i] == Segment(lines[touches[i].identifier], PointOf(touches[i]))
  {
    if touches != [] {
      var n := |touches| - 1;
      var prefix := touches[..n];
      assert forall i :: 0 <= i < n ==> prefix[i] == touches[i];
      MoveSegmentsStartAtPreviousPoint(lines, prefix);
      assert touches[n].identifier !in Ids(prefix);
    }
  }

  /** What one more tracked touch adds to the table and to the strokes of a touchmove. */
  lemma MoveStep(lines: map<int, Point>, touches: seq<Touch>, i: int)
    requires 0 <= i < |touches|
    requires AllTracked(lines, touches[..i]) && touches[i].identifier in lines
    ensures AllTracked(lines, touches[..i + 1])
    ensures Track(lines, touches[..i + 1]) == Track(lines, touches[..i])[touches[i].identifier := PointOf(touches[i])]
    ensures MoveSegments(lines, touches[..i + 1]) == MoveSegments(lines, touches[..i]) +
      [Segment(Track(lines, touches[..i])[touches[i].identifier], PointOf(touches[i]))]
  {
    assert touches[..i + 1][..i] == touches[..i];
  }

  /**
   * drawLine's test for "no previous point": a falsy test on each stored coordinate, so a stored
   * coordinate of 0 reads as absent, just as null does.
   */
  predicate NoPreviousPoint(last: Option<Point>)
  {
    last.None? || last.value.x == 0 || last.value.y == 0
  }

  /** Where the segment that drawLine strokes to p starts, given the previous point. */
  function StrokeStart(last: Option<Point>, p: Point): (r: Point)
    ensures last.Some? && last.value.x != 0 && last.value.y != 0 ==> r == last.value
    ensures r != p ==> last == Some(r) && r.x != 0 && r.y != 0
  {
    if NoPreviousPoint(last) then p else last.value
  }

  /** The drawing state of the page: the touch table, the mouse's previous point and the canvas. */
  class StrokeTracker {
    /** Touch identifier to the last point drawn for that finger. */
    var lines: map<int, Point>
    /** The mouse's previous point (xPos, yPos); both are always written together. */
    var last: Option<Point>
    /** Whether the mousemove and mouseup listeners are registered on the canvas. */
    var armed: bool
    /** Every segment stroked on the canvas, oldest first. */
    var segments: seq<Segment>
    /** How many times the canvas has been saved to local storage. */
    var saves: nat

    constructor ()
      ensures lines == map[] && last == None && !armed && segments == [] && saves == 0
    {
      lines := map[];
      last := None;
      armed := false;
      segments := [];
      saves := 0;
    }

    /** Seeds or overwrites the entry of every listed touch; draws nothing. */
    method OnTouchStart(touches: seq<Touch>)
      modifies this`lines
      ensures lines == Track(old(lines), touches)
    {
      var i := 0;
      while i < |touches|
        invariant 0 <= i <= |touches|
        invariant lines == Track(old(lines), touches[..i])
      {
        var touch := touches[i];
        lines := lines[touch.identifier := Point(touch.clientX, touch.clientY)];
        i := i + 1;
        assert touches[..i][..i - 1] == touches[..i - 1];
      }
      assert touches[..i] == touches;
    }

    /**
     * Strokes one segment per listed touch, in list order, and stores the point drawMulti returns
     * as the finger's entry. At the first touch without an entry the handler fails (ok is false):
     * the touches before it have been drawn and stored, the rest have not.
     */
    method OnTouchMove(touches: seq<Touch>) returns (ok: bool)
      modifies this`lines, this`segments
      ensures var k := TrackedPrefix(old(lines), touches);
        && ok == (k == |touches|)
        && lines == Track(old(lines), touches[..k])
        && segments == old(segments) + MoveSegments(old(lines), touches[..k])
    {
      var i := 0;
      while i < |touches|
        invariant 0 <= i <= |touches|
        invariant AllTracked(old(lines), touches[..i])
        invariant lines == Track(old(lines), touches[..i])
        invariant segments == old(segments) + MoveSegments(old(lines), touches[..i])
      {
        TrackKeepsKeys(old(lines), touches[..i]);
        ok := MoveTouch(touches[i]);
        if !ok {
          TrackedPrefixEndsAt(old(lines), touches, i);
          return;
        }
        MoveStep(old(lines), touches, i);
        i := i + 1;
      }
      TrackedPrefixEndsAt(old(lines), touches, i);
      assert touches[..i] == touches;
      ok := true;
    }

    /**
     * The per-touch step of the touchmove handler: the displacement from the finger's entry to
     * the touch, one segment from drawMulti, and the returned point written back. A touch without
     * an entry fails (ok is false) and changes nothing.
     */
    method MoveTouch(touch: Touch) returns (ok: bool)
      modifies this`lines, this`segments
      ensures ok == (touch.identifier in old(lines))
      ensures ok ==> lines == old(lines)[touch.identifier := PointOf(touch)]
      ensures ok ==> segments == old(segments) + [Segment(old(lines)[touch.identifier], PointOf(touch))]
      ensures !ok ==> lines == old(lines) && segments == old(segments)
    {
      var id := touch.identifier;
      if id !in lines {
        return false;
      }
      var moveX := touch.clientX - lines[id].x;
      var moveY := touch.clientY - lines[id].y;
      var newPos := DrawMulti(id, moveX, moveY);
      lines := lines[id := Point(newPos.x, newPos.y)];
      return true;
    }

    /**
     * Strokes the segment from the finger's entry displaced by (moveX, moveY) and returns the
     * displaced point. It does not write the table.
     */
    method DrawMulti(id: int, moveX: int, moveY: int) returns (newPos: Point)
      requires id in lines
      modifies this`segments
      ensures lines == old(lines)
      ensures newPos == Point(lines[id].x + moveX, lines[id].y + moveY)
      ensures segments == old(segments) + [Segment(lines[id], newPos)]
    {
      var from := lines[id];
      newPos := Point(from.x + moveX, from.y + moveY);
      segments := segments + [Segment(from, newPos)];
    }

    /** When no touch remains, forgets every finger and saves the canvas; otherwise does nothing. */
    method OnTouchEnd(touches: seq<Touch>)
      modifies this`lines, this`saves
      ensures touches == [] ==> lines == map[] && saves == old(saves) + 1
      ensures touches != [] ==> lines == old(lines) && saves == old(saves)
    {
      if |touches| == 0 {
        lines := map[];
        SaveImageData();
      }
    }

    /** A cancelled touch is handled exactly as an ended one. */
    method OnTouchCancel(touches: seq<Touch>)
      modifies this`lines, this`saves
      ensures touches == [] ==> lines == map[] && saves == old(saves) + 1
      ensures touches != [] ==> lines == old(lines) && saves == old(saves)
    {
      if |touches| == 0 {
        lines := map[];
        SaveImageData();
      }
    }

    /** Registers the mousemove and mouseup listeners; registering twice is the same as once. */
    method OnMouseDown()
      modifies this`armed
      ensures armed
    {
      armed := true;
    }

    /** A mousemove on the canvas reaches onMouseMove only while its listener is registered. */
    method DeliverMouseMove(x: int, y: int)
      modifies this`last, this`segments
      ensures old(armed) ==> segments == old(segments) + [Segment(StrokeStart(old(last), Point(x, y)), Point(x, y))]
      ensures old(armed) ==> last == Some(Point(x, y))
      ensures !old(armed) ==> segments == old(segments) && last == old(last)
    {
      if armed {
        OnMouseMove(x, y);
      }
    }

    method OnMouseMove(x: int, y: int)
      modifies this`last, this`segments
      ensures segments == old(segments) + [Segment(StrokeStart(old(last), Point(x, y)), Point(x, y))]
      ensures last == Some(Point(x, y))
    {
      DrawLine(x, y);
    }

    /** A mouseup on the canvas reaches onMouseUp only while its listener is registered. */
    method DeliverMouseUp()
      modifies this`last, this`saves, this`armed
      ensures old(armed) ==> last == None && saves == old(saves) + 1 && !armed
      ensures !old(armed) ==> last == old(last) && saves == old(saves) && !armed
    {
      if armed {
        OnMouseUp();
      }
    }

    /** Ends the mouse stroke: forgets the previous point, saves, and unregisters the listeners. */
    method OnMouseUp()
      modifies this`last, this`saves, this`armed
      ensures last == None && saves == old(saves) + 1 && !armed
    {
      EndDraw();
      SaveImageData();
      armed := false;
    }

    /**
     * Strokes one segment ending at (x, y) and makes (x, y) the previous point. The segment starts
     * at the previous point, unless that is absent or has a coordinate of 0, in which case it
     * starts at (x, y) and has zero length.
     */
    method DrawLine(x: int, y: int)
      modifies this`last, this`segments
      ensures segments == old(segments) + [Segment(StrokeStart(old(last), Point(x, y)), Point(x, y))]
      ensures last == Some(Point(x, y))
    {
      if NoPreviousPoint(last) {
        last := Some(Point(x, y));
      }
      var from := last.value;
      segments := segments + [Segment(from, Point(x, y))];
      last := Some(Point(x, y));
    }

    method EndDraw()
      modifies this`last
      ensures last == None
    {
      last := None;
    }

    /** Persisting the canvas, counted only. */
    method SaveImageData()
      modifies this`saves
      ensures saves == old(saves) + 1
    {
      saves := saves + 1;
    }
  }

  /**
   * One finger: touchstart at `start`, one touchmove per point of `path`, then touchend with no
   * touch left. There is one segment per move, the stroke is continuous, the table ends empty
   * and the canvas is saved exactly once.
   */
  method SingleFingerStroke(id: int, start: Point, path: seq<Point>) returns (t: StrokeTracker)
    ensures |t.segments| == |path|
    ensures forall k :: 0 <= k < |path| ==>
      t.segments[k] == Segment(if k == 0 then start else path[k - 1], path[k])
    ensures t.lines == map[] && t.saves == 1
  {
    t := new StrokeTracker();
    t.OnTouchStart([Touch(id, start.x, start.y)]);
    assert [Touch(id, start.x, start.y)][..0] == [];
    var i := 0;
    while i < |path|
      invariant 0 <= i <= |path|
      invariant t.lines == map[id := if i == 0 then start else path[i - 1]]
      invariant |t.segments| == i
      invariant forall k :: 0 <= k < i ==>
        t.segments[k] == Segment(if k == 0 then start else path[k - 1], path[k])
      invariant t.saves == 0
    {
      var move := [Touch(id, path[i].x, path[i].y)];
      assert move[..1] == move && move[..0] == [];
      var ok := t.OnTouchMove(move);
      i := i + 1;
    }
    t.OnTouchEnd([]);
  }

  /**
   * Two fingers down, then one lifts while the other stays: the table keeps both entries
   * unchanged and nothing is saved yet.
   */
  method OneOfTwoFingersLifts() returns (t: StrokeTracker)
    ensures t.lines == map[1 := Point(10, 10), 2 := Point(30, 40)]
    ensures t.segments == [] && t.saves == 0
  {
    t := new StrokeTracker();
    var both := [Touch(1, 10, 10), Touch(2, 30, 40)];
    TrackPlacesEveryTouch(map[], both);
    t.OnTouchStart(both);
    t.OnTouchEnd([Touch(2, 30, 40)]);
  }

  /**
   * One mouse stroke: mousedown, one mousemove per point of `path`, mouseup. There is one
   * segment per move, each ending at its point; a segment starts at the point before it only
   * when that point has no zero coordinate, and the first segment has zero length.
   */
  method MouseStroke(path: seq<Point>) returns (t: StrokeTracker)
    ensures |t.segments| == |path|
    ensures forall k :: 0 <= k < |path| ==> t.segments[k].to == path[k]
    ensures forall k :: 0 <= k < |path| ==>
      t.segments[k].from == if k > 0 && path[k - 1].x != 0 && path[k - 1].y != 0 then path[k - 1] else path[k]
    ensures t.last == None && !t.armed && t.saves == 1
  {
    t := new StrokeTracker();
    t.OnMouseDown();
    var i := 0;
    while i < |path|
      invariant 0 <= i <= |path|
      invariant t.armed && t.saves == 0
      invariant t.last == if i == 0 then None else Some(path[i - 1])
      invariant |t.segments| == i
      invariant forall k :: 0 <= k < i ==> t.segments[k].to == path[k]
      invariant forall k :: 0 <= k < i ==>
        t.segments[k].from == if k > 0 && path[k - 1].x != 0 && path[k - 1].y != 0 then path[k - 1] else path[k]
    {
      t.DeliverMouseMove(path[i].x, path[i].y);
      i := i + 1;
    }
    t.DeliverMouseUp();
  }
}
