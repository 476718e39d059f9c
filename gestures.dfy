/**
  What the two scripts have in common: the pointer events the listener
  delivers, the spacing property of emitted shortcuts, and the hot corner,
  which both scripts handle with the same rule.
*/
module Gestures {
  import opened Keyboard
  import opened Geometry

  /** A pointer event, as the input listener delivers it, stamped with the
      time of its handling (`time.time()` read inside the handler) in
      milliseconds. */
  datatype Event =
    | Scroll(x: int, y: int, dx: int, dy: int, now: int)
    | Move(x: int, y: int, now: int)

  /** Any two of the times are at least `gap` apart, in the order listed. */
  predicate Spaced(times: seq<int>, gap: int) {
    forall i, j :: 0 <= i < j < |times| ==> times[i] + gap <= times[j]
  }

  /** The events are handled in time order, none before `start`. */
  predicate Chronological(start: int, events: seq<Event>) {
    && (forall i :: 0 <= i < |events| ==> start <= events[i].now)
    && (forall i, j :: 0 <= i < j < |events| ==> events[i].now <= events[j].now)
  }

  /** Minimum time between two overview shortcuts, in milliseconds. */
  const HotCornerDelay: int := 500

  /** The hot corner: the 2x2-pixel square at the origin, edges included. */
  predicate InHotCorner(x: int, y: int)
    ensures InHotCorner(x, y) <==> (x == 0 || x == 1) && (y == 0 || y == 1)
  {
    0 <= x <= 1 && 0 <= y <= 1
  }

  lemma HotCornerIsUnitSquare(x: int, y: int)
    ensures InHotCorner(x, y) <==> InsideRect(x, y, Rect(0, 0, 1, 1))
  {
  }

  /** A move fires the overview shortcut when it is in the corner and the last
      in-corner move was at least `HotCornerDelay` ago. */
  predicate OverviewFires(lastHotCorner: int, x: int, y: int, now: int)
    ensures OverviewFires(lastHotCorner, x, y, now) ==> now > lastHotCorner
  {
    InHotCorner(x, y) && now - lastHotCorner >= HotCornerDelay
  }

  /** The hot-corner timestamp after a move: refreshed by every move in the
      corner, whether or not it fired. */
  function CornerAfter(lastHotCorner: int, x: int, y: int, now: int): (t: int)
    ensures t == lastHotCorner || (t == now && InHotCorner(x, y))
    ensures !InHotCorner(x, y) ==> t == lastHotCorner
  {
    if InHotCorner(x, y) then now else lastHotCorner
  }

  /** The key events a move appends to the log. */
  function MoveOutput(lastHotCorner: int, x: int, y: int, now: int): (out: seq<KeyEvent>)
    ensures Balanced(out)
    ensures out != [] <==> OverviewFires(lastHotCorner, x, y, now)
  {
    if OverviewFires(lastHotCorner, x, y, now) then OverviewChord() else []
  }

  /** A move outside the corner changes nothing; a move inside it that comes
      too early emits nothing but still restarts the delay. */
  lemma MoveRule(lastHotCorner: int, x: int, y: int, now: int)
    ensures !InHotCorner(x, y) ==>
              MoveOutput(lastHotCorner, x, y, now) == [] &&
              CornerAfter(lastHotCorner, x, y, now) == lastHotCorner
    ensures InHotCorner(x, y) ==>
              CornerAfter(lastHotCorner, x, y, now) == now &&
              (MoveOutput(lastHotCorner, x, y, now) == OverviewChord() <==>
                 now - lastHotCorner >= HotCornerDelay)
  {
  }

  /** The hot-corner timestamp after handling `events`, starting from `last`;
      scroll events leave it alone. */
  function CornerRun(last: int, events: seq<Event>): (t: int)
    ensures t == last ||
            exists i :: 0 <= i < |events| && events[i].Move? && InHotCorner(events[i].x, events[i].y) && events[i].now == t
    decreases |events|
  {
    if events == [] then last
    else
      var e := events[|events| - 1];
      var before := CornerRun(last, events[..|events| - 1]);
      if e.Move? then CornerAfter(before, e.x, e.y, e.now) else before
  }

  /** The times at which `events` fired the overview shortcut. */
  function OverviewTimes(last: int, events: seq<Event>): (times: seq<int>)
    ensures |times| <= |events|
    ensures forall k :: 0 <= k < |times| ==>
              exists i :: 0 <= i < |events| && events[i].Move? && InHotCorner(events[i].x, events[i].y) && events[i].now == times[k]
    decreases |events|
  {
    if events == [] then []
    else
      var e := events[|events| - 1];
      var before := CornerRun(last, events[..|events| - 1]);
      OverviewTimes(last, events[..|events| - 1]) +
        (if e.Move? && OverviewFires(before, e.x, e.y, e.now) then [e.now] else [])
  }

  /** In a chronological stream the hot-corner timestamp stays between the
      start and the latest event time. */
  lemma {:induction false} CornerRunBounds(last: int, events: seq<Event>, latest: int)
    requires Chronological(last, events)
    requires last <= latest
    requires forall i :: 0 <= i < |events| ==> events[i].now <= latest
    ensures last <= CornerRun(last, events) <= latest
    decreases |events|
  {
    if events != [] {
      var prefix := events[..|events| - 1];
      CornerRunBounds(last, prefix, latest);
    }
  }

  /** Over a chronological stream, overview shortcuts are at least
      `HotCornerDelay` apart, and none comes within the delay of the start. */
  lemma {:induction false} OverviewSpaced(last: int, events: seq<Event>)
    requires Chronological(last, events)
    ensures Spaced(OverviewTimes(last, events), HotCornerDelay)
    ensures forall i :: 0 <= i < |OverviewTimes(last, events)| ==>
              last + HotCornerDelay <= OverviewTimes(last, events)[i] <= CornerRun(last, events)
    decreases |events|
  {
    if events != [] {
      var n := |events| - 1;
      var prefix, e := events[..n], events[n];
      OverviewSpaced(last, prefix);
      CornerRunBounds(last, prefix, e.now);
    }
  }

  /** Without a chronological stream the spacing fails: a move time-stamped
      earlier than the last one re-arms the corner, so two overviews can come
      in the wrong order. */
  lemma ClockRegressionBreaksSpacing()
    ensures OverviewTimes(0, [Move(0, 0, 1000), Move(0, 0, 0), Move(0, 0, 500)]) == [1000, 500]
    ensures !Spaced(OverviewTimes(0, [Move(0, 0, 1000), Move(0, 0, 0), Move(0, 0, 500)]), HotCornerDelay)
  {
    var es := [Move(0, 0, 1000), Move(0, 0, 0), Move(0, 0, 500)];
    assert es[..2][..1] == [Move(0, 0, 1000)];
    assert OverviewTimes(0, es[..2][..1]) == [1000];
    assert OverviewTimes(0, es[..2]) == [1000];
    var times := OverviewTimes(0, es);
    assert times == [1000, 500];
    assert !(times[0] + HotCornerDelay <= times[1]);
  }

  /** Moves that stay in the corner, each less than `HotCornerDelay` after the
      one before (the first after `last`), never fire: each refreshes the
      timestamp that suppresses the next. */
  lemma {:induction false} RapidReentryNeverFires(last: int, events: seq<Event>)
    requires forall i :: 0 <= i < |events| ==> events[i].Move? && InHotCorner(events[i].x, events[i].y)
    requires events != [] ==> events[0].now - last < HotCornerDelay
    requires forall i :: 0 <= i < |events| - 1 ==> events[i + 1].now - events[i].now < HotCornerDelay
    ensures OverviewTimes(last, events) == []
    ensures CornerRun(last, events) == if events == [] then last else events[|events| - 1].now
    decreases |events|
  {
    if events != [] {
      var n := |events| - 1;
      RapidReentryNeverFires(last, events[..n]);
    }
  }

  /** Two moves into the corner less than `HotCornerDelay` apart, the first one
      armed, emit exactly one overview. */
  lemma DoubleEntryFiresOnce(last: int, x1: int, y1: int, t1: int, x2: int, y2: int, t2: int)
    requires InHotCorner(x1, y1) && InHotCorner(x2, y2)
    requires t1 - last >= HotCornerDelay && t2 - t1 < HotCornerDelay
    ensures OverviewTimes(last, [Move(x1, y1, t1), Move(x2, y2, t2)]) == [t1]
  {
    var es := [Move(x1, y1, t1), Move(x2, y2, t2)];
    assert es[..1] == [Move(x1, y1, t1)];
    assert es[..1][..0] == [];
    assert CornerRun(last, es[..1]) == t1;
    assert OverviewTimes(last, es[..1]) == [t1];
  }
}
