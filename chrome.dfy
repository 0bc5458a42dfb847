/**
 * The window chrome of the viewer as a state machine: the shared font size
 * of the word list and the detail pane, the maximize/restore toggle with
 * its saved geometry, and the parse of a Tk geometry string `WxH+X+Y` that
 * a drag starts from.
 */
module Chrome {
  import opened Wrappers
  import opened Text

  const DEFAULT_FONT_SIZE := 12
  /** The font size while maximized: the default enlarged by four points. */
  const MAXIMIZED_FONT_SIZE := DEFAULT_FONT_SIZE + 4
  /** Decreasing stops at this size. */
  const MIN_FONT_SIZE := 6
  /** The geometry the window is given at start-up. */
  const INITIAL_GEOMETRY := "450x450"

  /** The part of the window state the chrome handlers read and write. */
  datatype Window = Window(fontSize: int, maximized: bool, prevGeometry: Option<string>, geometry: string)

  /**
   * A chrome event. A maximize toggle carries the size and position the
   * window takes if it maximizes, computed from the screen size.
   */
  datatype Event =
    | IncreaseFont
    | DecreaseFont
    | ResetFont
    | ToggleMaximize(width: nat, height: nat, x: nat, y: nat)

  const INITIAL: Window := Window(DEFAULT_FONT_SIZE, false, None, INITIAL_GEOMETRY)

  /** The Tk geometry string `f"{w}x{h}+{x}+{y}"`. */
  function Geometry(w: nat, h: nat, x: int, y: int): (g: string)
  {
    Decimal(w) + "x" + Decimal(h) + "+" + Decimal(x) + "+" + Decimal(y)
  }

  /** `if _prev_geometry:` — a geometry was saved and it is not the empty string. */
  predicate Restorable(saved: Option<string>)
  {
    saved.Some? && saved.value != []
  }

  /** The state after one event. */
  function Step(win: Window, e: Event): (next: Window)
  {
    match e
    case IncreaseFont => win.(fontSize := win.fontSize + 1)
    case DecreaseFont => if win.fontSize > MIN_FONT_SIZE then win.(fontSize := win.fontSize - 1) else win
    case ResetFont => win.(fontSize := DEFAULT_FONT_SIZE)
    case ToggleMaximize(w, h, x, y) =>
      if !win.maximized then
        Window(MAXIMIZED_FONT_SIZE, true, Some(win.geometry), Geometry(w, h, x, y))
      else
        win.(fontSize := DEFAULT_FONT_SIZE, maximized := false,
             geometry := if Restorable(win.prevGeometry) then win.prevGeometry.value else win.geometry)
  }

  /** The state after a sequence of events, in order. */
  function Run(win: Window, events: seq<Event>): (last: Window)
    decreases |events|
  {
    if events == [] then win else Run(Step(win, events[0]), events[1..])
  }

  /** The invariant of the chrome: the font is never below the minimum, and a maximized window has a saved geometry. */
  predicate Invariant(win: Window)
  {
    win.fontSize >= MIN_FONT_SIZE && (win.maximized ==> win.prevGeometry.Some?)
  }

  lemma StepKeepsInvariant(win: Window, e: Event)
    requires Invariant(win)
    ensures Invariant(Step(win, e))
  {
  }

  /** Every sequence of events keeps the invariant. */
  lemma {:induction false} RunKeepsInvariant(win: Window, events: seq<Event>)
    requires Invariant(win)
    ensures Invariant(Run(win, events))
    decreases |events|
  {
    if events != [] {
      StepKeepsInvariant(win, events[0]);
      RunKeepsInvariant(Step(win, events[0]), events[1..]);
    }
  }

  /** Starting from the initial window, no sequence of events brings the font below the minimum. */
  lemma ReachableFontAtLeastMinimum(events: seq<Event>)
    ensures Run(INITIAL, events).fontSize >= MIN_FONT_SIZE
  {
    RunKeepsInvariant(INITIAL, events);
  }

  /** Increasing adds exactly one, decreasing removes exactly one above the minimum and nothing at it, reset gives the default. */
  lemma FontSteps(win: Window)
    ensures Step(win, IncreaseFont).fontSize == win.fontSize + 1
    ensures Step(win, DecreaseFont).fontSize == if win.fontSize > MIN_FONT_SIZE then win.fontSize - 1 else win.fontSize
    ensures Step(win, ResetFont).fontSize == DEFAULT_FONT_SIZE
    ensures Step(win, IncreaseFont).maximized == win.maximized && Step(win, DecreaseFont).maximized == win.maximized
    ensures Step(win, ResetFont).maximized == win.maximized
  {
  }

  /** A decrease undoes an increase from any size the invariant allows. */
  lemma DecreaseUndoesIncrease(win: Window)
    requires Invariant(win)
    ensures Step(Step(win, IncreaseFont), DecreaseFont) == win
  {
  }

  /** An increase undoes a decrease that acted. */
  lemma IncreaseUndoesDecrease(win: Window)
    requires win.fontSize > MIN_FONT_SIZE
    ensures Step(Step(win, DecreaseFont), IncreaseFont) == win
  {
  }

  /** At the minimum a decrease changes nothing. */
  lemma DecreaseStopsAtMinimum(win: Window)
    requires win.fontSize <= MIN_FONT_SIZE
    ensures Step(win, DecreaseFont) == win
  {
  }

  /**
   * Maximizing saves the current geometry, takes the computed one and the
   * enlarged font; a second toggle clears the flag, resets the font and
   * restores the saved geometry whenever it is not empty.
   */
  lemma DoubleToggle(win: Window, maximize: Event, restore: Event)
    requires !win.maximized && maximize.ToggleMaximize? && restore.ToggleMaximize?
    ensures var big := Step(win, maximize);
            big.maximized && big.fontSize == MAXIMIZED_FONT_SIZE && big.prevGeometry == Some(win.geometry)
            && big.geometry == Geometry(maximize.width, maximize.height, maximize.x, maximize.y)
    ensures var back := Step(Step(win, maximize), restore);
            !back.maximized && back.fontSize == DEFAULT_FONT_SIZE && back.prevGeometry == Some(win.geometry)
            && (win.geometry != [] ==> back.geometry == win.geometry)
  {
  }

  /** Whatever font changes happen while maximized, restoring gives the default font and clears the flag. */
  lemma {:induction false} RestoreAfterFontChanges(win: Window, changes: seq<Event>, restore: Event)
    requires win.maximized && restore.ToggleMaximize?
    requires forall k :: 0 <= k < |changes| ==> !changes[k].ToggleMaximize?
    ensures Run(win, changes).maximized
    ensures Run(win, changes).prevGeometry == win.prevGeometry
    ensures var back := Step(Run(win, changes), restore);
            !back.maximized && back.fontSize == DEFAULT_FONT_SIZE
            && (Restorable(win.prevGeometry) ==> back.geometry == win.prevGeometry.value)
    decreases |changes|
  {
    if changes != [] {
      RestoreAfterFontChanges(Step(win, changes[0]), changes[1..], restore);
    }
  }

  // ---------------------------------------------------------------------
  // _start_move: where a drag starts

  /**
   * The window position a drag starts from: the integers of the second and
   * third `+`-separated pieces of the geometry, or the position Tk reports
   * (`fallbackX`, `fallbackY`) when there are fewer pieces or either is not an integer.
   */
  function StartPosition(geometry: string, fallbackX: int, fallbackY: int): (pos: (int, int))
  {
    var parts := Split(geometry, '+');
    if |parts| >= 3 then
      var x := ParseInt(parts[1]);
      var y := ParseInt(parts[2]);
      if x.Some? && y.Some? then (x.value, y.value) else (fallbackX, fallbackY)
    else (fallbackX, fallbackY)
  }

  /** A geometry string `WxH+X+Y` parses back to its position `(X, Y)`. */
  lemma StartPositionOfGeometry(w: nat, h: nat, x: int, y: int, fallbackX: int, fallbackY: int)
    ensures StartPosition(Geometry(w, h, x, y), fallbackX, fallbackY) == (x, y)
  {
    var size := Decimal(w) + "x" + Decimal(h);
    var parts := [size, Decimal(x), Decimal(y)];
    DecimalHasNoPlus(w);
    DecimalHasNoPlus(h);
    DecimalHasNoPlus(x);
    DecimalHasNoPlus(y);
    assert '+' !in size;
    assert Join(parts, "+") == Geometry(w, h, x, y) by {
      assert parts[1..] == [Decimal(x), Decimal(y)];
      assert parts[1..][1..] == [Decimal(y)];
      assert Join(parts[1..], "+") == Decimal(x) + ['+'] + Decimal(y);
      assert Join(parts, "+") == size + ['+'] + (Decimal(x) + ['+'] + Decimal(y));
    }
    SplitJoin(parts, '+');
    ParseDecimal(x);
    ParseDecimal(y);
  }

  /** A geometry string without a position, `WxH`, falls back to the position Tk reports. */
  lemma StartPositionWithoutPosition(w: nat, h: nat, fallbackX: int, fallbackY: int)
    ensures StartPosition(Decimal(w) + "x" + Decimal(h), fallbackX, fallbackY) == (fallbackX, fallbackY)
  {
    DecimalHasNoPlus(w);
    DecimalHasNoPlus(h);
    SplitNoSep(Decimal(w) + "x" + Decimal(h), '+');
  }

  /** Once maximized, a drag starts from the position the maximize computed. */
  lemma MaximizedStartPosition(win: Window, e: Event, fallbackX: int, fallbackY: int)
    requires !win.maximized && e.ToggleMaximize?
    ensures StartPosition(Step(win, e).geometry, fallbackX, fallbackY) == (e.x, e.y)
  {
    StartPositionOfGeometry(e.width, e.height, e.x, e.y, fallbackX, fallbackY);
  }
}
