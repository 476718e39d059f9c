/**
  Trigger-zone geometry of the multi-monitor script: one strip along the top
  edge of every monitor, and an inclusive point-in-rectangle test.
*/
module Geometry {

  /** A monitor as the screen-geometry backend reports it. */
  datatype Monitor = Monitor(x: int, y: int, width: int, height: int)

  /** An axis-aligned rectangle `[x0, y0, x1, y1]`, closed on every edge. */
  datatype Rect = Rect(x0: int, y0: int, x1: int, y1: int)

  /** Height of the trigger strip, in pixels. */
  const VerticalMargin: int := 30

  /** The point lies in the rectangle, edges and corners included. */
  predicate InsideRect(x: int, y: int, r: Rect)
    ensures InsideRect(x, y, r) ==> r.x0 <= r.x1 && r.y0 <= r.y1
  {
    r.x0 <= x <= r.x1 && r.y0 <= y <= r.y1
  }

  /** The test is closed on all four edges: the corners of a non-empty
      rectangle are inside, and one pixel past any edge is outside. */
  lemma InsideRectIsClosed(r: Rect, x: int, y: int)
    requires r.x0 <= r.x1 && r.y0 <= r.y1
    ensures InsideRect(r.x0, r.y0, r) && InsideRect(r.x1, r.y0, r)
    ensures InsideRect(r.x0, r.y1, r) && InsideRect(r.x1, r.y1, r)
    ensures !InsideRect(r.x0 - 1, y, r) && !InsideRect(r.x1 + 1, y, r)
    ensures !InsideRect(x, r.y0 - 1, r) && !InsideRect(x, r.y1 + 1, r)
  {
  }

  /** The trigger strip of a monitor: its full width, from its top edge down
      `VerticalMargin` pixels. */
  function TriggerArea(m: Monitor): (r: Rect)
    ensures r.x1 - r.x0 == m.width && r.y1 - r.y0 == VerticalMargin
    ensures m.width >= 0 ==> r.x0 <= r.x1
    ensures m.width >= 0 ==> InsideRect(m.x, m.y, r)
  {
    Rect(m.x, m.y, m.x + m.width, m.y + VerticalMargin)
  }

  /** A point is in a monitor's strip exactly when it lies between the
      monitor's left and right edges and at most `VerticalMargin` pixels below
      its top edge, both bounds included. */
  lemma TriggerAreaContains(m: Monitor, x: int, y: int)
    ensures InsideRect(x, y, TriggerArea(m)) <==>
              m.x <= x <= m.x + m.width && m.y <= y <= m.y + VerticalMargin
  {
  }

  /** The zone list built at start-up: one strip per monitor, in monitor order. */
  function TriggerZones(monitors: seq<Monitor>): (zones: seq<Rect>)
    ensures |zones| == |monitors|
    ensures forall i :: 0 <= i < |monitors| ==> zones[i] == TriggerArea(monitors[i])
  {
    if monitors == [] then []
    else [TriggerArea(monitors[0])] + TriggerZones(monitors[1..])
  }

  /** The point lies in at least one of the zones. */
  function InAnyZone(x: int, y: int, zones: seq<Rect>): (b: bool)
    ensures b <==> exists i :: 0 <= i < |zones| && InsideRect(x, y, zones[i])
  {
    if zones == [] then false
    else InsideRect(x, y, zones[0]) || InAnyZone(x, y, zones[1..])
  }

  /** With a single zone the test is just the rectangle test. */
  lemma SingleZone(x: int, y: int, r: Rect)
    ensures InAnyZone(x, y, [r]) <==> InsideRect(x, y, r)
  {
  }

  /** A point triggers exactly when it lies in the top strip of some monitor. */
  lemma InAnyTriggerZone(monitors: seq<Monitor>, x: int, y: int)
    ensures InAnyZone(x, y, TriggerZones(monitors)) <==>
              exists i :: 0 <= i < |monitors| &&
                monitors[i].x <= x <= monitors[i].x + monitors[i].width &&
                monitors[i].y <= y <= monitors[i].y + VerticalMargin
  {
  }
}
