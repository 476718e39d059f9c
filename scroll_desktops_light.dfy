/**
  The simplified single-monitor script.  The monitor under the cursor is
  looked up once at start-up; scrolls are tested against a strip anchored at
  the origin with that monitor's width; the hot corner is the same as in the
  multi-monitor script.  When no monitor was found, an accepted scroll with
  `x >= 0` reads the width of a missing monitor and raises.
*/
module ScrollDesktopsLight {
  import opened Wrappers
  import opened Keyboard
  import opened Geometry
  import opened Gestures
  import ScrollDesktops

  /** Minimum time between two accepted scrolls, in milliseconds. */
  const ScrollDelay: int := 400

  /** Height of the trigger strip, in pixels. */
  const YMax: int := 30

  /** The monitor covers the point: left and top edges included, right and
      bottom edges excluded. */
  predicate Covers(m: Monitor, x: int, y: int)
    ensures Covers(m, x, y) ==> m.width > 0 && m.height > 0
  {
    m.x <= x < m.x + m.width && m.y <= y < m.y + m.height
  }

  /** `found` is the first monitor in the list that covers the point, or None
      when no monitor covers it. */
  predicate IsFirstCovering(monitors: seq<Monitor>, x: int, y: int, found: Option<Monitor>) {
    match found
    case None => forall i :: 0 <= i < |monitors| ==> !Covers(monitors[i], x, y)
    case Some(m) =>
      exists i :: 0 <= i < |monitors| && monitors[i] == m && Covers(m, x, y) &&
        forall j :: 0 <= j < i ==> !Covers(monitors[j], x, y)
  }

  /** The lookup of the monitor under the cursor. */
  method MonitorWithCursor(monitors: seq<Monitor>, x: int, y: int) returns (found: Option<Monitor>)
    ensures IsFirstCovering(monitors, x, y, found)
    ensures found.Some? ==> found.value in monitors && Covers(found.value, x, y)
    ensures found.None? <==> forall i :: 0 <= i < |monitors| ==> !Covers(monitors[i], x, y)
  {
    for i := 0 to |monitors|
      invariant forall j :: 0 <= j < i ==> !Covers(monitors[j], x, y)
    {
      if Covers(monitors[i], x, y) {
        return Some(monitors[i]);
      }
    }
    return None;
  }

  /** The lookup has one answer: two results that are both "the first covering
      monitor" are equal. */
  lemma FirstCoveringIsUnique(monitors: seq<Monitor>, x: int, y: int, a: Option<Monitor>, b: Option<Monitor>)
    requires IsFirstCovering(monitors, x, y, a) && IsFirstCovering(monitors, x, y, b)
    ensures a == b
  {
  }

  /** The scroll trigger test, with the width of the start-up monitor. */
  predicate InTriggerArea(m: Monitor, x: int, y: int)
    ensures InTriggerArea(m, x, y) ==> m.width >= 0 && x >= 0
  {
    0 <= x <= m.width && 0 <= y <= YMax
  }

  /** The trigger test is the closed strip `[0, width] x [0, 30]` at the
      origin, whatever the monitor's own position; for a monitor at the origin
      it is that monitor's top strip. */
  lemma TriggerAreaAtOrigin(m: Monitor, x: int, y: int)
    ensures InTriggerArea(m, x, y) <==> InsideRect(x, y, Rect(0, 0, m.width, YMax))
    ensures m.x == 0 && m.y == 0 ==> (InTriggerArea(m, x, y) <==> InsideRect(x, y, TriggerArea(m)))
  {
  }

  /** For a monitor right of the origin, a point in its own top strip does
      not trigger, while a point on the monitor to its left does. */
  lemma TriggerIgnoresMonitorPosition()
    ensures var m := Monitor(1920, 0, 1920, 1080);
            InsideRect(2000, 10, TriggerArea(m)) && !InTriggerArea(m, 2000, 10) &&
            !Covers(m, 100, 10) && InTriggerArea(m, 100, 10)
  {
  }

  /** The error an accepted scroll raises when no monitor was found. */
  datatype Error = NoMonitor

  /** A scroll is accepted when the last accepted one was at least
      `ScrollDelay` ago. */
  predicate ScrollGate(lastScroll: int, now: int)
    ensures ScrollGate(lastScroll, now) ==> now > lastScroll
  {
    now - lastScroll >= ScrollDelay
  }

  /** The trigger test reads the monitor's width unless `x >= 0` is already
      false, so an accepted scroll raises exactly when `x >= 0` and there is
      no monitor. */
  predicate ScrollFails(monitor: Option<Monitor>, lastScroll: int, x: int, now: int)
    ensures ScrollFails(monitor, lastScroll, x, now) ==> now > lastScroll && monitor == None && x >= 0
  {
    ScrollGate(lastScroll, now) && x >= 0 && monitor.None?
  }

  /** An accepted scroll switches desktop when it passes the trigger test. */
  predicate SwitchFires(monitor: Option<Monitor>, lastScroll: int, x: int, y: int, now: int)
    ensures SwitchFires(monitor, lastScroll, x, y, now) ==> now > lastScroll && monitor.Some? && x >= 0
  {
    ScrollGate(lastScroll, now) && monitor.Some? && InTriggerArea(monitor.value, x, y)
  }

  /** The scroll timestamp after a scroll: every accepted scroll that does
      not raise refreshes it, in the strip or not. */
  function ScrollAfter(monitor: Option<Monitor>, lastScroll: int, x: int, now: int): (t: int)
    ensures t >= lastScroll
    ensures t == lastScroll || (t == now && t >= lastScroll + ScrollDelay)
    ensures ScrollFails(monitor, lastScroll, x, now) ==> t == lastScroll
  {
    if ScrollGate(lastScroll, now) && !ScrollFails(monitor, lastScroll, x, now) then now else lastScroll
  }

  /** The key events a scroll appends to the log. */
  function ScrollOutput(monitor: Option<Monitor>, lastScroll: int, x: int, y: int, dy: int, now: int): (out: seq<KeyEvent>)
    ensures Balanced(out)
    ensures out != [] <==> SwitchFires(monitor, lastScroll, x, y, now)
  {
    if SwitchFires(monitor, lastScroll, x, y, now) then SwitchChord(dy) else []
  }

  /** A scroll within `ScrollDelay` of the last accepted one changes nothing.
      An accepted one raises, changing nothing, when `x >= 0` and there is no
      monitor; otherwise it moves the timestamp to `now` and switches desktop
      exactly when it passes the trigger test. */
  lemma ScrollRule(monitor: Option<Monitor>, lastScroll: int, x: int, y: int, dy: int, now: int)
    ensures now - lastScroll < ScrollDelay ==>
              !ScrollFails(monitor, lastScroll, x, now) &&
              ScrollOutput(monitor, lastScroll, x, y, dy, now) == [] &&
              ScrollAfter(monitor, lastScroll, x, now) == lastScroll
    ensures now - lastScroll >= ScrollDelay && x >= 0 && monitor == None ==>
              ScrollFails(monitor, lastScroll, x, now) &&
              ScrollOutput(monitor, lastScroll, x, y, dy, now) == [] &&
              ScrollAfter(monitor, lastScroll, x, now) == lastScroll
    ensures now - lastScroll >= ScrollDelay && x < 0 ==>
              !ScrollFails(monitor, lastScroll, x, now) &&
              ScrollOutput(monitor, lastScroll, x, y, dy, now) == [] &&
              ScrollAfter(monitor, lastScroll, x, now) == now
    ensures now - lastScroll >= ScrollDelay && monitor.Some? ==>
              !ScrollFails(monitor, lastScroll, x, now) &&
              ScrollAfter(monitor, lastScroll, x, now) == now &&
              (ScrollOutput(monitor, lastScroll, x, y, dy, now) == SwitchChord(dy) <==>
                 0 <= x <= monitor.value.width && 0 <= y <= YMax)
  {
  }

  /** The scroll timestamp after handling `events`, starting from `last`; it
      never moves backwards. */
  function ScrollRun(monitor: Option<Monitor>, last: int, events: seq<Event>): (t: int)
    ensures t >= last
    decreases |events|
  {
    if events == [] then last
    else
      var e := events[|events| - 1];
      var before := ScrollRun(monitor, last, events[..|events| - 1]);
      if e.Scroll? then ScrollAfter(monitor, before, e.x, e.now) else before
  }

  /** The scroll timestamp after a prefix of the stream is never above the one
      after the whole stream: it does not decrease from step to step. */
  lemma {:induction false} ScrollRunMonotone(monitor: Option<Monitor>, last: int, events: seq<Event>, i: nat)
    requires i <= |events|
    ensures ScrollRun(monitor, last, events[..i]) <= ScrollRun(monitor, last, events)
    decreases |events| - i
  {
    if i < |events| {
      var n := |events| - 1;
      assert events[..n][..i] == events[..i];
      ScrollRunMonotone(monitor, last, events[..n], i);
    } else {
      assert events[..i] == events;
    }
  }

  /** The key events one event appends, given both timestamps before it. */
  function EventOutput(monitor: Option<Monitor>, lastScroll: int, lastHotCorner: int, e: Event): (out: seq<KeyEvent>)
    ensures Balanced(out)
  {
    match e
    case Scroll(x, y, _, dy, now) => ScrollOutput(monitor, lastScroll, x, y, dy, now)
    case Move(x, y, now) => MoveOutput(lastHotCorner, x, y, now)
  }

  /** The whole key-event log produced by `events`; it is balanced. */
  function Output(monitor: Option<Monitor>, lastScroll: int, lastHotCorner: int, events: seq<Event>): (out: seq<KeyEvent>)
    ensures Balanced(out)
    decreases |events|
  {
    if events == [] then []
    else
      var prefix := events[..|events| - 1];
      var before := Output(monitor, lastScroll, lastHotCorner, prefix);
      var step := EventOutput(monitor, ScrollRun(monitor, lastScroll, prefix), CornerRun(lastHotCorner, prefix), events[|events| - 1]);
      BalancedConcat(before, step);
      before + step
  }

  /** Handling one more event: each timestamp takes one step, and the log
      grows by that event's output. */
  lemma HandleOne(monitor: Option<Monitor>, start: int, events: seq<Event>, e: Event)
    ensures ScrollRun(monitor, start, events + [e]) ==
              if e.Scroll? then ScrollAfter(monitor, ScrollRun(monitor, start, events), e.x, e.now)
              else ScrollRun(monitor, start, events)
    ensures CornerRun(start, events + [e]) ==
              if e.Move? then CornerAfter(CornerRun(start, events), e.x, e.y, e.now) else CornerRun(start, events)
    ensures Output(monitor, start, start, events + [e]) ==
              Output(monitor, start, start, events) +
                EventOutput(monitor, ScrollRun(monitor, start, events), CornerRun(start, events), e)
    ensures Balanced(Output(monitor, start, start, events + [e]))
  {
  }

  /** `e` is a scroll inside the trigger area of the start-up monitor. */
  predicate InMonitorTrigger(monitor: Option<Monitor>, e: Event) {
    e.Scroll? && monitor.Some? && InTriggerArea(monitor.value, e.x, e.y)
  }

  /** The times at which `events` switched desktop. */
  function SwitchTimes(monitor: Option<Monitor>, last: int, events: seq<Event>): (times: seq<int>)
    ensures |times| <= |events|
    ensures forall k :: 0 <= k < |times| ==>
              exists i :: 0 <= i < |events| && InMonitorTrigger(monitor, events[i]) && events[i].now == times[k]
    decreases |events|
  {
    if events == [] then []
    else
      var prefix := events[..|events| - 1];
      var e := events[|events| - 1];
      var fired := e.Scroll? && SwitchFires(monitor, ScrollRun(monitor, last, prefix), e.x, e.y, e.now);
      var rest := SwitchTimes(monitor, last, prefix);
      forall k | 0 <= k < |rest|
        ensures exists i :: 0 <= i < |events| && InMonitorTrigger(monitor, events[i]) && events[i].now == rest[k]
      {
        var i :| 0 <= i < |prefix| && InMonitorTrigger(monitor, prefix[i]) && prefix[i].now == rest[k];
        assert prefix[i] == events[i];
      }
      rest + (if fired then [e.now] else [])
  }

  /** Any two desktop switches are at least `ScrollDelay` apart, and none comes
      within the delay of the start. */
  lemma {:induction false} SwitchesSpaced(monitor: Option<Monitor>, last: int, events: seq<Event>)
    ensures Spaced(SwitchTimes(monitor, last, events), ScrollDelay)
    ensures forall i :: 0 <= i < |SwitchTimes(monitor, last, events)| ==>
              last + ScrollDelay <= SwitchTimes(monitor, last, events)[i] <= ScrollRun(monitor, last, events)
    decreases |events|
  {
    if events != [] {
      SwitchesSpaced(monitor, last, events[..|events| - 1]);
    }
  }

  /** The log grows by a switch chord exactly when the last event adds a
      switch time, and by the overview chord exactly when it adds an overview
      time; otherwise it stays as it was. */
  lemma OutputFollowsFirings(monitor: Option<Monitor>, lastScroll: int, lastHotCorner: int, events: seq<Event>)
    requires events != []
    ensures var n := |events| - 1;
            var e := events[n];
            Output(monitor, lastScroll, lastHotCorner, events) ==
              Output(monitor, lastScroll, lastHotCorner, events[..n]) +
              (if e.Scroll? && |SwitchTimes(monitor, lastScroll, events)| > |SwitchTimes(monitor, lastScroll, events[..n])|
               then SwitchChord(e.dy) else []) +
              (if |OverviewTimes(lastHotCorner, events)| > |OverviewTimes(lastHotCorner, events[..n])|
               then OverviewChord() else [])
  {
  }

  /** Over a whole stream the log is six key events per desktop switch and
      four per overview, one chord for each recorded time. */
  lemma {:induction false} OutputLength(monitor: Option<Monitor>, lastScroll: int, lastHotCorner: int, events: seq<Event>)
    ensures |Output(monitor, lastScroll, lastHotCorner, events)| ==
              6 * |SwitchTimes(monitor, lastScroll, events)| + 4 * |OverviewTimes(lastHotCorner, events)|
    decreases |events|
  {
    if events != [] {
      OutputLength(monitor, lastScroll, lastHotCorner, events[..|events| - 1]);
      OutputFollowsFirings(monitor, lastScroll, lastHotCorner, events);
    }
  }

  /** Without a monitor nothing ever switches desktop. */
  lemma {:induction false} NoMonitorNeverSwitches(last: int, events: seq<Event>)
    ensures SwitchTimes(None, last, events) == []
    ensures Output(None, last, last, events) == [] <==> OverviewTimes(last, events) == []
    decreases |events|
  {
    if events != [] {
      NoMonitorNeverSwitches(last, events[..|events| - 1]);
    }
  }

  /** The gesture detector of the single-monitor script. */
  class LightDetector {
    /** The monitor under the cursor at start-up, if there was one. */
    const monitor: Option<Monitor>
    const keyboard: Controller
    /** Start-up time; both timestamps begin there. */
    ghost const start: int
    /** Every event handled so far, in order, including ones that raised. */
    ghost var history: seq<Event>
    var lastScroll: int
    var lastHotCorner: int

    /** The timestamps and the key log are what handling `history` from
        start-up produces. */
    ghost predicate Valid()
      reads this, keyboard
    {
      && lastScroll == ScrollRun(monitor, start, history)
      && lastHotCorner == CornerRun(start, history)
      && keyboard.log == Output(monitor, start, start, history)
    }

    /** Start-up: look up the monitor under the cursor; both timestamps at
        `start`. */
    constructor (monitors: seq<Monitor>, cursorX: int, cursorY: int, start: int)
      ensures Valid() && fresh(keyboard)
      ensures IsFirstCovering(monitors, cursorX, cursorY, monitor)
      ensures this.start == start && history == []
      ensures lastScroll == start && lastHotCorner == start && keyboard.log == []
    {
      var found := MonitorWithCursor(monitors, cursorX, cursorY);
      monitor := found;
      keyboard := new Controller();
      this.start := start;
      history := [];
      lastScroll := start;
      lastHotCorner := start;
    }

    /** Handles a scroll at (x, y) by (dx, dy) at time `now`; `Fail` stands for
        the exception raised when the missing monitor is read. */
    method OnScroll(x: int, y: int, dx: int, dy: int, now: int) returns (outcome: Outcome<Error>)
      requires Valid()
      modifies this, keyboard
      ensures Valid() && history == old(history) + [Scroll(x, y, dx, dy, now)]
      ensures outcome == if ScrollFails(monitor, old(lastScroll), x, now) then Fail(NoMonitor) else Pass
      ensures lastScroll == ScrollAfter(monitor, old(lastScroll), x, now) && lastHotCorner == old(lastHotCorner)
      ensures keyboard.log == old(keyboard.log) + ScrollOutput(monitor, old(lastScroll), x, y, dy, now)
      ensures Balanced(keyboard.log)
    {
      HandleOne(monitor, start, history, Scroll(x, y, dx, dy, now));
      history := history + [Scroll(x, y, dx, dy, now)];
      outcome := Pass;
      if now - lastScroll >= ScrollDelay {
        var inside: bool;
        if x < 0 {
          inside := false;
        } else if monitor.None? {
          outcome := Fail(NoMonitor);
          return;
        } else {
          inside := x <= monitor.value.width && y >= 0 && y <= YMax;
        }
        if inside {
          ScrollDesktops.SwitchDesktops(keyboard, dy);
        }
        lastScroll := now;
      }
    }

    /** Handles a move to (x, y) at time `now`. */
    method OnMove(x: int, y: int, now: int)
      requires Valid()
      modifies this, keyboard
      ensures Valid() && history == old(history) + [Move(x, y, now)]
      ensures lastHotCorner == CornerAfter(old(lastHotCorner), x, y, now) && lastScroll == old(lastScroll)
      ensures keyboard.log == old(keyboard.log) + MoveOutput(old(lastHotCorner), x, y, now)
      ensures Balanced(keyboard.log)
    {
      HandleOne(monitor, start, history, Move(x, y, now));
      history := history + [Move(x, y, now)];
      if x >= 0 && x <= 1 && y >= 0 && y <= 1 {
        if now - lastHotCorner >= HotCornerDelay {
          ScrollDesktops.DesktopOverview(keyboard);
        }
        lastHotCorner := now;
      }
    }
  }
}
