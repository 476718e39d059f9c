# Hot-zone gesture detector of scroll-windows-v-desktops

The repository's scripts listen to global mouse events and type virtual-desktop
shortcuts. A scroll of the wheel in a strip along the top edge of the screen
switches to the neighbouring desktop: super+ctrl+right when the scroll has a negative `dy`, and
super+ctrl+left otherwise. Moving the pointer into the top-left corner opens the
desktop overview with super+tab. Each gesture has its own debounce timestamp.

This project models the two scripts that carry that logic:

- `scroll-desktops.py` supports several monitors. It builds one 30-pixel strip
  per monitor, tests points against the strips with a test that is closed on
  every edge, and waits 300 ms between accepted scrolls.
- `scroll-desktops-light.py` supports one monitor. It looks up the monitor under
  the cursor once, at start-up, using half-open bounds. It tests scrolls against
  the strip `[0, width] x [0, 30]` at the origin and waits 400 ms between
  accepted scrolls.

Both scripts share a hot corner, `[0, 1] x [0, 1]`, with a 500 ms delay.

Time is measured in integer milliseconds. The keyboard controller is a class
whose `Press` and `Release` append to a log. Each script's handlers are methods
of a detector class that owns the timestamps and the keyboard. The detector
keeps a ghost history of the events it has handled. Its invariant `Valid()`
says that the timestamps and the key log are what pure step functions give
when folded over that history. The properties proved about those folds
therefore hold of every reachable detector. They are:

- the log is always balanced: every key pressed is released;
- the log is the concatenation of the chords that fired, in order: each event
  appends the switch chord exactly when it adds a switch time, the overview
  chord exactly when it adds an overview time, and nothing otherwise;
- two desktop switches are at least 300 ms apart (400 ms in the light script).
  This holds even if the clock goes backwards, because the scroll timestamp
  only ever moves forward;
- two overviews are at least 500 ms apart, as long as events arrive in time
  order. A move stamped earlier than the previous one resets the corner's
  timestamp backwards, and `Gestures.ClockRegressionBreaksSpacing` shows the
  spacing failing;
- re-entering the corner repeatedly, each time less than 500 ms after the last,
  never fires again.

The light script types its two shortcuts inline, at scroll-desktops-light.py:64-76
and 98-101. The key sequences are the same as those of `windows_switch_desktops` and
`winows_desktop_overview` in the multi-monitor script. The light handlers
therefore call `ScrollDesktops.SwitchDesktops` and `ScrollDesktops.DesktopOverview`.

Modules: `Wrappers` (Option, Outcome), `Keyboard` (keys, key events, chords,
the controller), `Geometry` (monitors, rectangles, trigger zones), `Gestures`
(events, spacing, the shared hot-corner rule), `ScrollDesktops` (the
multi-monitor script) and `ScrollDesktopsLight` (the single-monitor script).

The light script ANDs the tests of its trigger check left to right, and Python
stops at the first false one. The missing-monitor error therefore needs three
things: the scroll passes the delay, no monitor was found at start-up, and
`x >= 0`. A scroll with `x < 0` never reads the monitor's width, so it only
refreshes the timestamp. The model pinpoints the error this way
(`ScrollDesktopsLight.ScrollFails`). When the error happens, the exception
leaves the handler before the timestamp is updated, so the handler changes
nothing and returns `Fail(NoMonitor)`.

## Model

| member | source | states |
|---|---|---|
| Keyboard.ReplayConcat | scroll-desktops.py:45-57 | replaying two runs of key events one after the other equals replaying the first and then the second from the keys left held |
| Keyboard.BalancedConcat | scroll-desktops.py:127-138 | a balanced log followed by a balanced chord stays balanced, so the press/release log of the handlers never leaves a key down |
| Keyboard.ArrowFor | scroll-desktops.py:47-50 | the arrow is Right exactly when `dy < 0` and Left exactly when `dy >= 0`, so zero scrolls to the left |
| Keyboard.SwitchChord | scroll-desktops.py:45-57 | the switch chord presses exactly super, ctrl and the arrow for `dy`, holds all three down together after its first three events, is balanced, and has six events |
| Keyboard.OverviewChord | scroll-desktops.py:32-35 | the overview chord presses exactly super and tab, holds both down together after its first two events, is balanced, and has four events |
| Keyboard.Controller.Press | scroll-desktops.py:32 | `keyboard.press(k)` appends exactly `Press(k)` to the log |
| Keyboard.Controller.Release | scroll-desktops.py:34 | `keyboard.release(k)` appends exactly `Release(k)` to the log |
| Keyboard.Controller.constructor | scroll-desktops.py:102 | a new controller has typed nothing |
| Geometry.InsideRect | scroll-desktops.py:73-94 | the rectangle test `x0 <= x <= x1 && y0 <= y <= y1`; a rectangle that contains any point is non-empty (x0 <= x1 and y0 <= y1) |
| Geometry.InsideRectIsClosed | scroll-desktops.py:85-94 | the rectangle test includes all four corners and excludes a point one pixel beyond any of the four edges |
| Geometry.TriggerArea | scroll-desktops.py:63-70 | a monitor's strip is as wide as the monitor and 30 pixels high, with x0 <= x1 when the width is not negative, and contains the monitor's top-left corner |
| Geometry.TriggerAreaContains | scroll-desktops.py:63-94 | a point is in a monitor's strip exactly when `m.x <= x <= m.x + width` and `m.y <= y <= m.y + 30` |
| Geometry.TriggerZones | scroll-desktops.py:99 | the zone list has one rectangle per monitor, the i-th being the i-th monitor's strip |
| Geometry.InAnyZone | scroll-desktops.py:129-134 | the "any" test is true exactly when some zone of the list contains the point |
| Geometry.SingleZone | scroll-desktops.py:129-134 | with one zone, the "any" test is that zone's rectangle test |
| Geometry.InAnyTriggerZone | scroll-desktops.py:99-134 | a point triggers exactly when it lies between the left and right edges of some monitor and at most 30 pixels below that monitor's top edge |
| Gestures.InHotCorner | scroll-desktops.py:154 | the corner test `0 <= x <= 1 && 0 <= y <= 1`; on integer coordinates it holds exactly for the four pixels with x and y each 0 or 1 |
| Gestures.OverviewFires | scroll-desktops.py:156 | the overview fires for an in-corner move at least 500 ms after the corner timestamp, so only strictly after that timestamp |
| Gestures.CornerAfter | scroll-desktops.py:160 | the corner timestamp after a move is either unchanged or `now`, and it becomes `now` only for a move in the corner |
| Gestures.HotCornerIsUnitSquare | scroll-desktops.py:154 | the hot corner is the closed rectangle `[0, 1] x [0, 1]` |
| Gestures.MoveOutput | scroll-desktops.py:154-158 | a move emits something exactly when it fires the overview, and what it emits is balanced |
| Gestures.MoveRule | scroll-desktops.py:154-160 | a move outside the corner changes nothing; one inside sets the timestamp to `now` even when suppressed, and emits the overview chord exactly when at least 500 ms have passed since the timestamp |
| Gestures.CornerRun | scroll-desktops.py:154-160 | the corner timestamp after a stream of events is the start time or the time of some move in the corner |
| Gestures.OverviewTimes | scroll-desktops.py:154-160 | there are no more overviews than events, and each overview time is the time of some move in the corner |
| Gestures.CornerRunBounds | scroll-desktops.py:160 | over events in time order, the corner timestamp stays between the start time and the latest event time |
| Gestures.OverviewSpaced | scroll-desktops.py:154-160 | over events in time order, any two overviews are at least 500 ms apart and none comes within 500 ms of start-up |
| Gestures.ClockRegressionBreaksSpacing | scroll-desktops.py:156-160 | with moves stamped 1000, 0, 500 after a start at 0, overviews fire at 1000 and then at 500, so the spacing needs events in time order |
| Gestures.RapidReentryNeverFires | scroll-desktops.py:154-160 | in-corner moves that each come less than 500 ms after the previous one (the first less than 500 ms after the timestamp) never fire, and leave the timestamp at the last move's time |
| Gestures.DoubleEntryFiresOnce | scroll-desktops.py:154-160 | two in-corner moves less than 500 ms apart, the first at least 500 ms after the timestamp, give exactly one overview, at the first move |
| ScrollDesktops.ScrollGate | scroll-desktops.py:127 | a scroll passes the gate when at least 300 ms have passed since the timestamp, so only strictly after it |
| ScrollDesktops.SwitchFires | scroll-desktops.py:127-134 | a scroll switches desktop only when it passes the gate and some zone contains the point |
| ScrollDesktops.ScrollAfter | scroll-desktops.py:138 | the scroll timestamp after a scroll is never smaller than before: either it is unchanged, or it becomes `now`, at least 300 ms later |
| ScrollDesktops.ScrollOutput | scroll-desktops.py:127-136 | a scroll emits something exactly when it passes the 300 ms gate and lies in some zone, and what it emits is balanced |
| ScrollDesktops.ScrollRule | scroll-desktops.py:124-138 | a scroll less than 300 ms after the timestamp changes nothing; otherwise the timestamp becomes `now` whether or not the point is in a zone, the switch chord is emitted exactly when some zone contains the point, and it carries Right for `dy < 0` and Left otherwise |
| ScrollDesktops.ScrollRun | scroll-desktops.py:127-138 | over any events, even ones that are not in time order, the scroll timestamp after the whole stream is not below the start time |
| ScrollDesktops.ScrollRunMonotone | scroll-desktops.py:127-138 | the scroll timestamp after any prefix of the stream is not above the one after the whole stream, so it never decreases from step to step, whatever order the event times come in |
| ScrollDesktops.EventOutput | scroll-desktops.py:111-160 | each handled event emits a balanced sequence of key events |
| ScrollDesktops.Output | scroll-desktops.py:111-160 | the log produced by any sequence of events is balanced |
| ScrollDesktops.HandleOne | scroll-desktops.py:111-160 | handling one more event moves each timestamp one step and appends exactly that event's output to the log |
| ScrollDesktops.SwitchTimes | scroll-desktops.py:127-138 | there are no more desktop switches than events, and each switch time is the time of some scroll at a point inside a zone |
| ScrollDesktops.SwitchesSpaced | scroll-desktops.py:127-138 | any two desktop switches are at least 300 ms apart, each comes at least 300 ms after start-up, and none is later than the current timestamp, whatever order the event times come in |
| ScrollDesktops.OutputFollowsFirings | scroll-desktops.py:111-160 | the last event appends the switch chord for its `dy` exactly when it adds a switch time, the overview chord exactly when it adds an overview time, and nothing otherwise |
| ScrollDesktops.OutputLength | scroll-desktops.py:111-160 | the log holds six key events per desktop switch and four per overview, and no others |
| ScrollDesktops.InZoneTimestampIsLastSwitch | scroll-desktops.py:127-138 | when every scroll in the stream is inside a zone (moves may be interleaved), the timestamp is the time of the last switch, or the start time if there was none |
| ScrollDesktops.InZoneSwitchIffGapSinceLastSwitch | scroll-desktops.py:127-138 | in a stream whose every scroll is inside a zone (moves may be interleaved), a final scroll switches desktop exactly when at least 300 ms have passed since the previous switch, and is dropped exactly when less time has passed |
| ScrollDesktops.OutOfZoneScrollSuppressesSwitch | scroll-desktops.py:127-138 | an accepted scroll outside every zone at 300 ms refreshes the timestamp and suppresses an in-zone scroll at 400 ms, even though no switch has happened since start-up at 0 |
| ScrollDesktops.SingleMonitorScenario | scroll-desktops.py:63-138 | with one 1920-pixel monitor at the origin, scrolls with `dy = -1` at (960, 10) at 300, 350 and 650 ms switch at 300 and 650 ms; the first switches right; a scroll at (960, 40) never switches |
| ScrollDesktops.SwitchDesktops | scroll-desktops.py:38-57 | appends exactly the switch chord for `dy` to the keyboard log |
| ScrollDesktops.DesktopOverview | scroll-desktops.py:28-35 | appends exactly the overview chord to the keyboard log |
| ScrollDesktops.Detector.constructor | scroll-desktops.py:99-104 | the zones are the monitors' strips, both timestamps are the start time, and nothing has been typed |
| ScrollDesktops.Detector.OnScroll | scroll-desktops.py:111-138 | the scroll timestamp takes one gate step, the corner timestamp is unchanged, the log grows by exactly the scroll's output and stays balanced, and the invariant is kept |
| ScrollDesktops.Detector.OnMove | scroll-desktops.py:141-160 | the corner timestamp takes one hot-corner step, the scroll timestamp is unchanged, the log grows by exactly the move's output and stays balanced, and the invariant is kept |
| ScrollDesktopsLight.MonitorWithCursor | scroll-desktops-light.py:14-25 | returns the first monitor with `m.x <= x < m.x + width` and `m.y <= y < m.y + height`, so no earlier monitor covers the point; returns None exactly when no monitor covers it |
| ScrollDesktopsLight.FirstCoveringIsUnique | scroll-desktops-light.py:22-25 | there is at most one "first covering monitor" for a point |
| ScrollDesktopsLight.Covers | scroll-desktops-light.py:23 | the half-open monitor test; a monitor that covers any point has a positive width and height |
| ScrollDesktopsLight.InTriggerArea | scroll-desktops-light.py:57-62 | the trigger test `0 <= x <= width && 0 <= y <= 30`; it passes only for `x >= 0` and a monitor of non-negative width |
| ScrollDesktopsLight.ScrollFails | scroll-desktops-light.py:55-59 | an accepted scroll raises only when `x >= 0` and there is no monitor, because the test stops at `x >= 0` when it is false |
| ScrollDesktopsLight.ScrollGate | scroll-desktops-light.py:55 | a scroll passes the gate when at least 400 ms have passed since the timestamp, so only strictly after it |
| ScrollDesktopsLight.SwitchFires | scroll-desktops-light.py:55-62 | a scroll switches desktop only strictly after the timestamp, with a monitor found at start-up, and at `x >= 0` |
| ScrollDesktopsLight.ScrollAfter | scroll-desktops-light.py:55-78 | the scroll timestamp after a scroll never decreases: it is unchanged, or it becomes `now`, at least 400 ms later; a scroll that raises leaves it unchanged |
| ScrollDesktopsLight.TriggerAreaAtOrigin | scroll-desktops-light.py:57-62 | the trigger test is the closed rectangle `[0, width] x [0, 30]`, and for a monitor at the origin it equals that monitor's strip in the multi-monitor script |
| ScrollDesktopsLight.TriggerIgnoresMonitorPosition | scroll-desktops-light.py:57-62 | for a monitor at x = 1920, a point in its own top strip fails the test, while a point on another monitor near the origin passes |
| ScrollDesktopsLight.ScrollOutput | scroll-desktops-light.py:55-76 | a scroll emits something exactly when it passes the 400 ms gate and the trigger test of a found monitor, and what it emits is balanced |
| ScrollDesktopsLight.ScrollRule | scroll-desktops-light.py:50-78 | a scroll less than 400 ms after the timestamp changes nothing; an accepted one with no monitor and `x >= 0` raises and changes nothing; one with `x < 0` emits nothing and sets the timestamp to `now`; with a monitor it sets the timestamp to `now` and emits the switch chord exactly when the point passes the trigger test |
| ScrollDesktopsLight.ScrollRun | scroll-desktops-light.py:55-78 | the scroll timestamp after the whole stream is not below the start time |
| ScrollDesktopsLight.ScrollRunMonotone | scroll-desktops-light.py:55-78 | the scroll timestamp after any prefix of the stream is not above the one after the whole stream, so it never decreases from step to step |
| ScrollDesktopsLight.EventOutput | scroll-desktops-light.py:36-103 | each handled event emits a balanced sequence of key events |
| ScrollDesktopsLight.Output | scroll-desktops-light.py:36-103 | the log produced by any sequence of events is balanced |
| ScrollDesktopsLight.HandleOne | scroll-desktops-light.py:36-103 | handling one more event moves each timestamp one step and appends exactly that event's output |
| ScrollDesktopsLight.SwitchTimes | scroll-desktops-light.py:55-78 | there are no more desktop switches than events, and each switch time is the time of some scroll that passes the trigger test of the start-up monitor |
| ScrollDesktopsLight.SwitchesSpaced | scroll-desktops-light.py:55-78 | any two desktop switches are at least 400 ms apart, and each comes at least 400 ms after start-up |
| ScrollDesktopsLight.OutputFollowsFirings | scroll-desktops-light.py:36-103 | the last event appends the switch chord for its `dy` exactly when it adds a switch time, the overview chord exactly when it adds an overview time, and nothing otherwise |
| ScrollDesktopsLight.OutputLength | scroll-desktops-light.py:36-103 | the log holds six key events per desktop switch and four per overview, and no others |
| ScrollDesktopsLight.NoMonitorNeverSwitches | scroll-desktops-light.py:33-62 | without a monitor no scroll ever switches desktop, and the log is empty exactly when no overview fired |
| ScrollDesktopsLight.LightDetector.constructor | scroll-desktops-light.py:28-33 | the monitor is the first one covering the cursor (or None), both timestamps are the start time, and nothing has been typed |
| ScrollDesktopsLight.LightDetector.OnScroll | scroll-desktops-light.py:36-78 | returns Fail exactly when an accepted scroll with `x >= 0` meets a missing monitor; the scroll timestamp takes one step; the log grows by exactly the scroll's output and stays balanced |
| ScrollDesktopsLight.LightDetector.OnMove | scroll-desktops-light.py:81-103 | same hot-corner rule as the multi-monitor script: the corner timestamp takes one step, and the log grows by exactly the move's output and stays balanced |

## Left out

- The mouse listener and `listener.join()` (scroll-desktops.py:165-166, scroll-desktops-light.py:106-107) hook OS input. The handlers are methods called one at a time, in the order events arrive.
- After the missing-monitor exception, pynput stops the listener. That is not modelled: `LightDetector.OnScroll` returns `Fail(NoMonitor)` and the detector keeps accepting calls.
- Real keystroke injection is replaced by `Keyboard.Controller`, which appends to a log.
- `get_monitors()` and `mouse.Controller().position` are foreign calls. Their results are parameters of the constructors.
- `time.time()` returns seconds as a float. Timestamps are integer milliseconds instead, with delays of 300, 400 and 500, and float precision is not modelled. A handler's `now` is a parameter.
- The `print` of the monitor count (scroll-desktops.py:100) is left out.
- The unused `last_esc_press_time` and `esc_press_count` globals (scroll-desktops.py:105, scroll-desktops-light.py:31-32) are left out. The unused `dx` argument is kept as a parameter and ignored.
- Repeat suppression, configuration files, command-line flags and per-OS shortcut dispatch belong to other scripts of the repository and are not part of this model.
