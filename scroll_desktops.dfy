/**
  The multi-monitor script: a scroll in the top strip of any monitor switches
  virtual desktop, a move into the top-left corner shows the desktop overview.
  The two module-level timestamps become fields of a `Detector`; the keyboard
  controller records the shortcuts it is asked to type.
*/
module ScrollDesktops {
  import opened Keyboard
  import opened Geometry
  import opened Gestures

  /** Minimum time between two accepted scrolls, in milliseconds. */
  const ScrollDelay: int := 300

  /** A scroll is accepted when the last accepted one was at least
      `ScrollDelay` ago. */
  predicate ScrollGate(lastScroll: int, now: int)
    ensures ScrollGate(lastScroll, now) ==> now > lastScroll
  {
    now - lastScroll >= ScrollDelay
  }

  /** An accepted scroll switches desktop when it is in some trigger zone. */
  predicate SwitchFires(zones: seq<Rect>, lastScroll: int, x: int, y: int, now: int)
    ensures SwitchFires(zones, lastScroll, x, y, now) ==>
              now > lastScroll && exists i :: 0 <= i < |zones| && InsideRect(x, y, zones[i])
  {
    ScrollGate(lastScroll, now) && InAnyZone(x, y, zones)
  }

  /** The scroll timestamp after a scroll: every accepted scroll refreshes it,
      in a zone or not. */
  function ScrollAfter(lastScroll: int, now: int): (t: int)
    ensures t >= lastScroll
    ensures t == lastScroll || (t == now && t >= lastScroll + ScrollDelay)
  {
    if ScrollGate(lastScroll, now) then now else lastScroll
  }

  /** The key events a scroll appends to the log. */
  function ScrollOutput(zones: seq<Rect>, lastScroll: int, x: int, y: int, dy: int, now: int): (out: seq<KeyEvent>)
    ensures Balanced(out)
    ensures out != [] <==> SwitchFires(zones, lastScroll, x, y, now)
  {
    if SwitchFires(zones, lastScroll, x, y, now) then SwitchChord(dy) else []
  }

  /** A scroll within `ScrollDelay` of the last accepted one changes nothing;
      an accepted one moves the timestamp to `now` and switches desktop exactly
      when it is in a zone, to the right for `dy < 0` and to the left
      otherwise. */
  lemma ScrollRule(zones: seq<Rect>, lastScroll: int, x: int, y: int, dy: int, now: int)
    ensures now - lastScroll < ScrollDelay ==>
              ScrollOutput(zones, lastScroll, x, y, dy, now) == [] &&
              ScrollAfter(lastScroll, now) == lastScroll
    ensures now - lastScroll >= ScrollDelay ==>
              ScrollAfter(lastScroll, now) == now &&
              (ScrollOutput(zones, lastScroll, x, y, dy, now) == SwitchChord(dy) <==>
                 exists i :: 0 <= i < |zones| && InsideRect(x, y, zones[i]))
    ensures ScrollOutput(zones, lastScroll, x, y, dy, now) != [] ==>
              Press(if dy < 0 then Right else Left) in ScrollOutput(zones, lastScroll, x, y, dy, now)
  {
  }

  /** The scroll timestamp after handling `events`, starting from `last`.  It
      never moves backwards, whatever the clock does: it only changes to a
      time at least `ScrollDelay` past its current value. */
  function ScrollRun(last: int, events: seq<Event>): (t: int)
    ensures t >= last
    decreases |events|
  {
    if events == [] then last
    else
      var e := events[|events| - 1];
      var before := ScrollRun(last, events[..|events| - 1]);
      if e.Scroll? then ScrollAfter(before, e.now) else before
  }

  /** The scroll timestamp after a prefix of the stream is never above the one
      after the whole stream: it does not decrease from step to step. */
  lemma {:induction false} ScrollRunMonotone(last: int, events: seq<Event>, i: nat)
    requires i <= |events|
    ensures ScrollRun(last, events[..i]) <= ScrollRun(last, events)
    decreases |events| - i
  {
    if i < |events| {
      var n := |events| - 1;
      assert events[..n][..i] == events[..i];
      ScrollRunMonotone(last, events[..n], i);
    } else {
      assert events[..i] == events;
    }
  }

  /** The key events one event appends, given both timestamps before it. */
  function EventOutput(zones: seq<Rect>, lastScroll: int, lastHotCorner: int, e: Event): (out: seq<KeyEvent>)
    ensures Balanced(out)
  {
    match e
    case Scroll(x, y, _, dy, now) => ScrollOutput(zones, lastScroll, x, y, dy, now)
    case Move(x, y, now) => MoveOutput(lastHotCorner, x, y, now)
  }

  /** The whole key-event log produced by `events`.  It is balanced: every
      shortcut's keys are released. */
  function Output(zones: seq<Rect>, lastScroll: int, lastHotCorner: int, events: seq<Event>): (out: seq<KeyEvent>)
    ensures Balanced(out)
    decreases |events|
  {
    if events == [] then []
    else
      var prefix := events[..|events| - 1];
      var before := Output(zones, lastScroll, lastHotCorner, prefix);
      var step := EventOutput(zones, ScrollRun(lastScroll, prefix), CornerRun(lastHotCorner, prefix), events[|events| - 1]);
      BalancedConcat(before, step);
      before + step
  }

  /** Handling one more event: each timestamp takes one step, and the log
      grows by that event's output. */
  lemma HandleOne(zones: seq<Rect>, start: int, events: seq<Event>, e: Event)
    ensures ScrollRun(start, events + [e]) ==
              if e.Scroll? then ScrollAfter(ScrollRun(start, events), e.now) else ScrollRun(start, events)
    ensures CornerRun(start, events + [e]) ==
              if e.Move? then CornerAfter(CornerRun(start, events), e.x, e.y, e.now) else CornerRun(start, events)
    ensures Output(zones, start, start, events + [e]) ==
              Output(zones, start, start, events) +
                EventOutput(zones, ScrollRun(start, events), CornerRun(start, events), e)
    ensures Balanced(Output(zones, start, start, events + [e]))
  {
  }

  /** The times at which `events` switched desktop. */
  function SwitchTimes(zones: seq<Rect>, last: int, events: seq<Event>): (times: seq<int>)
    ensures |times| <= |events|
    ensures forall k :: 0 <= k < |times| ==>
              exists i :: 0 <= i < |events| && events[i].Scroll? && InAnyZone(events[i].x, events[i].y, zones) && events[i].now == times[k]
    decreases |events|
  {
    if events == [] then []
    else
      var e := events[|events| - 1];
      var before := ScrollRun(last, events[..|events| - 1]);
      SwitchTimes(zones, last, events[..|events| - 1]) +
        (if e.Scroll? && SwitchFires(zones, before, e.x, e.y, e.now) then [e.now] else [])
  }

  /** Any two desktop switches are at least `ScrollDelay` apart, and none comes
      within the delay of the start, even if the event times are not in
      order. */
  lemma {:induction false} SwitchesSpaced(zones: seq<Rect>, last: int, events: seq<Event>)
    ensures Spaced(SwitchTimes(zones, last, events), ScrollDelay)
    ensures forall i :: 0 <= i < |SwitchTimes(zones, last, events)| ==>
              last + ScrollDelay <= SwitchTimes(zones, last, events)[i] <= ScrollRun(last, events)
    decreases |events|
  {
    if events != [] {
      SwitchesSpaced(zones, last, events[..|events| - 1]);
    }
  }

  /** The log grows by a switch chord exactly when the last event adds a
      switch time, and by the overview chord exactly when it adds an overview
      time; otherwise it stays as it was. */
  lemma OutputFollowsFirings(zones: seq<Rect>, lastScroll: int, lastHotCorner: int, events: seq<Event>)
    requires events != []
    ensures var n := |events| - 1;
            var e := events[n];
            Output(zones, lastScroll, lastHotCorner, events) ==
              Output(zones, lastScroll, lastHotCorner, events[..n]) +
              (if e.Scroll? && |SwitchTimes(zones, lastScroll, events)| > |SwitchTimes(zones, lastScroll, events[..n])|
               then SwitchChord(e.dy) else []) +
              (if |OverviewTimes(lastHotCorner, events)| > |OverviewTimes(lastHotCorner, events[..n])|
               then OverviewChord() else [])
  {
  }

  /** Over a whole stream the log is six key events per desktop switch and
      four per overview, one chord for each recorded time. */
  lemma {:induction false} OutputLength(zones: seq<Rect>, lastScroll: int, lastHotCorner: int, events: seq<Event>)
    ensures |Output(zones, lastScroll, lastHotCorner, events)| ==
              6 * |SwitchTimes(zones, lastScroll, events)| + 4 * |OverviewTimes(lastHotCorner, events)|
    decreases |events|
  {
    if events != [] {
      OutputLength(zones, lastScroll, lastHotCorner, events[..|events| - 1]);
      OutputFollowsFirings(zones, lastScroll, lastHotCorner, events);
    }
  }

  /** The last switch time, or `last` when there was none. */
  function LastSwitchOr(last: int, times: seq<int>): int {
    if times == [] then last else times[|times| - 1]
  }

  /** When every scroll is inside a zone (moves may come in between), the
      timestamp is always the time of the latest switch (or the start). */
  lemma {:induction false} InZoneTimestampIsLastSwitch(zones: seq<Rect>, last: int, events: seq<Event>)
    requires forall i :: 0 <= i < |events| && events[i].Scroll? ==> InAnyZone(events[i].x, events[i].y, zones)
    ensures ScrollRun(last, events) == LastSwitchOr(last, SwitchTimes(zones, last, events))
    decreases |events|
  {
    if events != [] {
      InZoneTimestampIsLastSwitch(zones, last, events[..|events| - 1]);
    }
  }

  /** Hence, in such a stream, a final scroll switches desktop exactly when
      at least `ScrollDelay` passed since the previous switch (or the start). */
  lemma InZoneSwitchIffGapSinceLastSwitch(zones: seq<Rect>, last: int, events: seq<Event>)
    requires events != [] && events[|events| - 1].Scroll?
    requires forall i :: 0 <= i < |events| && events[i].Scroll? ==> InAnyZone(events[i].x, events[i].y, zones)
    ensures var n := |events| - 1;
            var before := SwitchTimes(zones, last, events[..n]);
            (SwitchTimes(zones, last, events) == before + [events[n].now] <==>
               events[n].now - LastSwitchOr(last, before) >= ScrollDelay) &&
            (SwitchTimes(zones, last, events) == before <==>
               events[n].now - LastSwitchOr(last, before) < ScrollDelay)
  {
    var n := |events| - 1;
    InZoneTimestampIsLastSwitch(zones, last, events[..n]);
    var before := SwitchTimes(zones, last, events[..n]);
    assert before + [events[n].now] != before by {
      assert |before + [events[n].now]| != |before|;
    }
  }

  /** An accepted scroll outside every zone still restarts the delay, so it
      can suppress a later scroll inside a zone that comes more than
      `ScrollDelay` after the last switch. */
  lemma OutOfZoneScrollSuppressesSwitch()
    ensures var zones := TriggerZones([Monitor(0, 0, 1920, 1080)]);
            InAnyZone(960, 10, zones) && 400 - 0 >= ScrollDelay &&
            SwitchTimes(zones, 0, [Scroll(960, 500, 0, -1, 300), Scroll(960, 10, 0, -1, 400)]) == []
  {
  }

  /** One monitor at the origin, 1920 pixels wide: a scroll with `dy = -1` at
      (960, 10) switches right; a second scroll 50 ms later is dropped; one 350 ms after
      the first switches again; a scroll at (960, 40), below the strip, never
      switches. */
  lemma SingleMonitorScenario(last: int, dy: int, now: int)
    ensures var zones := TriggerZones([Monitor(0, 0, 1920, 1080)]);
            && ScrollOutput(zones, 0, 960, 10, -1, 300) == SwitchChord(-1)
            && ArrowFor(-1) == Right
            && SwitchTimes(zones, 0, [Scroll(960, 10, 0, -1, 300), Scroll(960, 10, 0, -1, 350),
                                      Scroll(960, 10, 0, -1, 650)]) == [300, 650]
            && ScrollOutput(zones, last, 960, 40, dy, now) == []
  {
    var zones := TriggerZones([Monitor(0, 0, 1920, 1080)]);
    assert zones == [Rect(0, 0, 1920, 30)];
    assert InAnyZone(960, 10, zones);
    assert !InAnyZone(960, 40, zones);
    var es := [Scroll(960, 10, 0, -1, 300), Scroll(960, 10, 0, -1, 350), Scroll(960, 10, 0, -1, 650)];
    assert es[..2] == [Scroll(960, 10, 0, -1, 300), Scroll(960, 10, 0, -1, 350)];
    assert es[..2][..1] == [Scroll(960, 10, 0, -1, 300)];
    assert es[..2][..1][..0] == [];
    assert ScrollRun(0, es[..2][..1]) == 300;
    assert SwitchTimes(zones, 0, es[..2][..1]) == [300];
    assert ScrollRun(0, es[..2]) == 300;
    assert SwitchTimes(zones, 0, es[..2]) == [300];
  }

  /** Types the "switch desktop" shortcut: super and ctrl, then the arrow for
      the scroll direction, are pressed and then released in the same order. */
  method SwitchDesktops(keyboard: Controller, dy: int)
    modifies keyboard
    ensures keyboard.log == old(keyboard.log) + SwitchChord(dy)
  {
    keyboard.Press(Cmd);
    keyboard.Press(Ctrl);
    if dy < 0 {
      keyboard.Press(Right);
    } else {
      keyboard.Press(Left);
    }
    keyboard.Release(Cmd);
    keyboard.Release(Ctrl);
    if dy < 0 {
      keyboard.Release(Right);
    } else {
      keyboard.Release(Left);
    }
  }

  /** Types the "desktop overview" shortcut super+tab. */
  method DesktopOverview(keyboard: Controller)
    modifies keyboard
    ensures keyboard.log == old(keyboard.log) + OverviewChord()
  {
    keyboard.Press(Cmd);
    keyboard.Press(Tab);
    keyboard.Release(Cmd);
    keyboard.Release(Tab);
  }

  /** The gesture detector: the trigger zones fixed at start-up, the keyboard,
      and the two timestamps the handlers update. */
  class Detector {
    const zones: seq<Rect>
    const keyboard: Controller
    /** Start-up time; both timestamps begin there. */
    ghost const start: int
    /** Every event handled so far, in order. */
    ghost var history: seq<Event>
    var lastScroll: int
    var lastHotCorner: int

    /** The timestamps and the key log are what handling `history` from
        start-up produces. */
    ghost predicate Valid()
      reads this, keyboard
    {
      && lastScroll == ScrollRun(start, history)
      && lastHotCorner == CornerRun(start, history)
      && keyboard.log == Output(zones, start, start, history)
    }

    /** Start-up: one trigger zone per monitor, both timestamps at `start`. */
    constructor (monitors: seq<Monitor>, start: int)
      ensures Valid() && fresh(keyboard)
      ensures zones == TriggerZones(monitors) && this.start == start && history == []
      ensures lastScroll == start && lastHotCorner == start && keyboard.log == []
    {
      zones := TriggerZones(monitors);
      keyboard := new Controller();
      this.start := start;
      history := [];
      lastScroll := start;
      lastHotCorner := start;
    }

    /** Handles a scroll at (x, y) by (dx, dy) at time `now`. */
    method OnScroll(x: int, y: int, dx: int, dy: int, now: int)
      requires Valid()
      modifies this, keyboard
      ensures Valid() && history == old(history) + [Scroll(x, y, dx, dy, now)]
      ensures lastScroll == ScrollAfter(old(lastScroll), now) && lastHotCorner == old(lastHotCorner)
      ensures keyboard.log == old(keyboard.log) + ScrollOutput(zones, old(lastScroll), x, y, dy, now)
      ensures Balanced(keyboard.log)
    {
      if now - lastScroll >= ScrollDelay {
        if InAnyZone(x, y, zones) {
          SwitchDesktops(keyboard, dy);
        }
        lastScroll := now;
      }
      HandleOne(zones, start, history, Scroll(x, y, dx, dy, now));
      history := history + [Scroll(x, y, dx, dy, now)];
    }

    /** Handles a move to (x, y) at time `now`. */
    method OnMove(x: int, y: int, now: int)
      requires Valid()
      modifies this, keyboard
      ensures Valid() && history == old(history) + [Move(x, y, now)]
      ensures lastHotCorner == CornerAfter(old(lastHotCorner), x, y, now) && lastScroll == old(lastScroll)
      ensures keyboard.log == old(keyboard.log) + MoveOutput(old(lastHotCorner), x, y, now)
      ensures Balanced(keyboard.log)
    {
      if x >= 0 && x <= 1 && y >= 0 && y <= 1 {
        if now - lastHotCorner >= HotCornerDelay {
          DesktopOverview(keyboard);
        }
        lastHotCorner := now;
      }
      HandleOne(zones, start, history, Move(x, y, now));
      history := history + [Move(x, y, now)];
    }
  }
}
