/**
  Synthetic keystrokes. The scripts drive a keyboard controller with
  `press(key)` / `release(key)`; here the controller appends each call to a
  log, and a chord is the exact sequence of key events a shortcut produces.
*/
module Keyboard {
  import opened Wrappers

  /** The keys the scripts press: super ("cmd"), ctrl, tab and the two arrows. */
  datatype Key = Cmd | Ctrl | Tab | Left | Right

  datatype KeyEvent = Press(key: Key) | Release(key: Key)

  /** Replays `events` starting with the keys in `held` down.  Yields the keys
      still held at the end, or None as soon as a key is pressed while it is
      already down or released while it is up. */
  function Replay(held: set<Key>, events: seq<KeyEvent>): Option<set<Key>>
    decreases |events|
  {
    if events == [] then Some(held)
    else
      match events[0]
      case Press(k) => if k in held then None else Replay(held + {k}, events[1..])
      case Release(k) => if k !in held then None else Replay(held - {k}, events[1..])
  }

  /** Every key that is pressed is released afterwards, only pressed keys are
      released, and no key is left held down. */
  predicate Balanced(events: seq<KeyEvent>) {
    Replay({}, events) == Some({})
  }

  /** The keys pressed somewhere in `events`. */
  function Pressed(events: seq<KeyEvent>): set<Key> {
    set i | 0 <= i < |events| && events[i].Press? :: events[i].key
  }

  /** Replaying a concatenation is replaying the first part, then the second
      from wherever the first left the keyboard. */
  lemma {:induction false} ReplayConcat(held: set<Key>, a: seq<KeyEvent>, b: seq<KeyEvent>)
    ensures Replay(held, a + b) ==
              match Replay(held, a)
              case None => None
              case Some(h) => Replay(h, b)
    decreases |a|
  {
    if a == [] {
      assert a + b == b;
    } else {
      assert (a + b)[0] == a[0];
      assert (a + b)[1..] == a[1..] + b;
      match a[0]
      case Press(k) =>
        if k !in held { ReplayConcat(held + {k}, a[1..], b); }
      case Release(k) =>
        if k in held { ReplayConcat(held - {k}, a[1..], b); }
    }
  }

  /** Appending a balanced sequence of key events to a balanced log keeps it
      balanced. */
  lemma BalancedConcat(a: seq<KeyEvent>, b: seq<KeyEvent>)
    requires Balanced(a) && Balanced(b)
    ensures Balanced(a + b)
  {
    ReplayConcat({}, a, b);
  }

  /** The arrow of a desktop switch: a negative `dy` moves to the desktop on
      the right, every other `dy`, zero included, to the left. */
  function ArrowFor(dy: int): (k: Key)
    ensures k == Right <==> dy < 0
    ensures k == Left <==> dy >= 0
  {
    if dy < 0 then Right else Left
  }

  /** The "switch desktop" shortcut super+ctrl+arrow: the three keys pressed in
      that order, so that all three are held together, then released in the
      same order. */
  function SwitchChord(dy: int): (chord: seq<KeyEvent>)
    ensures Balanced(chord)
    ensures Pressed(chord) == {Cmd, Ctrl, ArrowFor(dy)}
    ensures |chord| == 6
    ensures Replay({}, chord[..3]) == Some({Cmd, Ctrl, ArrowFor(dy)})
  {
    var arrow := ArrowFor(dy);
    var chord := [Press(Cmd), Press(Ctrl), Press(arrow), Release(Cmd), Release(Ctrl), Release(arrow)];
    ChordOfThree(Cmd, Ctrl, arrow, chord);
    chord
  }

  /** The "desktop overview" shortcut super+tab: both pressed, so that they
      are held together, then both released in the same order. */
  function OverviewChord(): (chord: seq<KeyEvent>)
    ensures Balanced(chord)
    ensures Pressed(chord) == {Cmd, Tab}
    ensures |chord| == 4
    ensures Replay({}, chord[..2]) == Some({Cmd, Tab})
  {
    var chord := [Press(Cmd), Press(Tab), Release(Cmd), Release(Tab)];
    ChordOfTwo(Cmd, Tab, chord);
    chord
  }

  /** A chord pressing two distinct keys and then releasing them in order is
      balanced and presses exactly those keys. */
  lemma ChordOfTwo(a: Key, b: Key, chord: seq<KeyEvent>)
    requires a != b
    requires chord == [Press(a), Press(b), Release(a), Release(b)]
    ensures Balanced(chord) && Pressed(chord) == {a, b}
    ensures Replay({}, chord[..2]) == Some({a, b})
  {
    assert {} + {a} == {a} && {a} + {b} == {a, b};
    assert {a, b} - {a} == {b} && {b} - {b} == {};
    assert chord[4..] == [];
    assert Replay({b}, chord[3..]) == Some({});
    assert Replay({a, b}, chord[2..]) == Some({});
    assert Replay({a}, chord[1..]) == Some({});
    assert chord[0].key == a && chord[1].key == b;
    assert chord[..2][1..][1..] == [];
    assert Replay({a}, chord[..2][1..]) == Some({a, b});
  }

  /** The same for three distinct keys. */
  lemma ChordOfThree(a: Key, b: Key, c: Key, chord: seq<KeyEvent>)
    requires a != b && b != c && a != c
    requires chord == [Press(a), Press(b), Press(c), Release(a), Release(b), Release(c)]
    ensures Balanced(chord) && Pressed(chord) == {a, b, c}
    ensures Replay({}, chord[..3]) == Some({a, b, c})
  {
    assert {} + {a} == {a} && {a} + {b} == {a, b} && {a, b} + {c} == {a, b, c};
    assert {a, b, c} - {a} == {b, c} && {b, c} - {b} == {c} && {c} - {c} == {};
    assert chord[6..] == [];
    assert Replay({c}, chord[5..]) == Some({});
    assert Replay({b, c}, chord[4..]) == Some({});
    assert Replay({a, b, c}, chord[3..]) == Some({});
    assert Replay({a, b}, chord[2..]) == Some({});
    assert Replay({a}, chord[1..]) == Some({});
    assert chord[0].key == a && chord[1].key == b && chord[2].key == c;
    var top := chord[..3];
    assert top[1..][1..][1..] == [];
    assert Replay({a, b}, top[1..][1..]) == Some({a, b, c});
    assert Replay({a}, top[1..]) == Some({a, b, c});
  }

  /** The keyboard controller: every press and release is appended to `log`. */
  class Controller {
    var log: seq<KeyEvent>

    constructor ()
      ensures log == []
    {
      log := [];
    }

    method Press(k: Key)
      modifies this
      ensures log == old(log) + [KeyEvent.Press(k)]
    {
      log := log + [KeyEvent.Press(k)];
    }

    method Release(k: Key)
      modifies this
      ensures log == old(log) + [KeyEvent.Release(k)]
    {
      log := log + [KeyEvent.Release(k)];
    }
  }
}
