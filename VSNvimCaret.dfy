/** The caret state machine: a rectangle drawn over the host's text caret that
    reproduces the engine's cursor shape and blinking.

    The host objects the caret drives (its blink timer, the host caret's
    `IsHidden`, the rectangle's `Visibility`, the adornment layer that holds the
    rectangle) are fields of the class, so that every method states the host
    state it leaves behind. */
module VSNvimCaret {
  import opened Machine

  /** `VSNvimCaretBlinkState`; `Inactive` is the value a fresh caret holds. */
  datatype BlinkState = Inactive | Wait | On | Off

  /** The phase one blink-timer tick moves to (`OnBlinkTimerTick`). */
  function NextOnTick(s: BlinkState): (n: BlinkState)
    ensures (n == Inactive) == (s == Inactive)
    ensures n != Wait
    ensures (n == On) == (s == Off)
  {
    match s
    case On | Wait => Off
    case Off => On
    case Inactive => Inactive
  }

  /** The phase after `n` ticks, with nothing else happening in between. */
  function AfterTicks(s: BlinkState, n: nat): BlinkState
    decreases n
  {
    if n == 0 then s else AfterTicks(NextOnTick(s), n - 1)
  }

  /** Phases in which the rectangle is shown. */
  predicate Shows(s: BlinkState) {
    s == Wait || s == On
  }

  /** Whether the blink timer runs in phase `s` with blink wait `wait`. */
  predicate TimerRuns(s: BlinkState, wait: Int64) {
    s != Inactive && wait != 0
  }

  /** From `Wait`, the rectangle goes off on the first tick and then alternates. */
  lemma {:induction false} BlinkSchedule(n: nat)
    ensures AfterTicks(Wait, n) == if n == 0 then Wait else if n % 2 == 1 then Off else On
  {
    if n > 1 {
      BlinkSchedule(n - 2);
      AlternatesFromOff(n - 1);
    }
  }

  lemma {:induction false} AlternatesFromOff(n: nat)
    ensures AfterTicks(Off, n) == if n % 2 == 0 then Off else On
  {
    if n > 1 {
      AlternatesFromOff(n - 2);
      assert AfterTicks(Off, n) == AfterTicks(Off, n - 2);
    }
  }

  /** Ticks never leave `Inactive`, and never reach it from another phase. */
  lemma {:induction false} InactiveIsClosed(s: BlinkState, n: nat)
    ensures (AfterTicks(s, n) == Inactive) == (s == Inactive)
    decreases n
  {
    if n > 0 {
      InactiveIsClosed(NextOnTick(s), n - 1);
    }
  }

  /** The longest interval, in milliseconds, the host's blink timer accepts
      (`Int32.MaxValue`); a negative or longer one throws. */
  const MaxInterval: int := 0x7FFF_FFFF

  /** `VSNvimCaret`. */
  class Caret {
    var blinkState: BlinkState
    /** `horizontal_percentage_` and `vertical_percentage_`, as fractions. */
    var horizontal: real
    var vertical: real
    var blinkWait: Int64
    var blinkOn: Int64
    var blinkOff: Int64
    /** `blink_timer_.IsEnabled` and `blink_timer_.Interval` in milliseconds. */
    var timerEnabled: bool
    var timerInterval: Int64
    /** `caret_->IsHidden`: the host's own caret is hidden under the rectangle. */
    var hostCaretHidden: bool
    /** `rectangle_.Visibility == Visible`. */
    var rectangleVisible: bool
    var isAdornmentActive: bool
    /** How many times the adornment layer holds the rectangle. */
    var layerAdornments: nat

    /** The layer holds the rectangle exactly when the caret believes it does. */
    ghost predicate LayerValid()
      reads this
    {
      layerAdornments == (if isAdornmentActive then 1 else 0)
    }

    /** Besides, the timer and the host caret follow the phase, and the blink wait
        is an interval the host's timer accepts. */
    ghost predicate Valid()
      reads this
    {
      && LayerValid()
      && 0 <= blinkWait as int <= MaxInterval
      && timerInterval == blinkWait
      && timerEnabled == TimerRuns(blinkState, blinkWait)
      && hostCaretHidden == (blinkState != Inactive)
    }

    /** The caret after a blink restart: phase `Wait`, rectangle shown over the
        hidden host caret, timer running unless the wait is zero, and the
        rectangle held by the layer once. */
    ghost predicate Restarted()
      reads this
    {
      && blinkState == Wait && rectangleVisible && hostCaretHidden
      && timerEnabled == (blinkWait != 0)
      && isAdornmentActive && layerAdornments == 1
    }

    /** The caret after a stop: phase `Inactive`, rectangle hidden, the host's
        caret shown again, timer off, the rectangle still held by the layer once. */
    ghost predicate Stopped()
      reads this
    {
      && blinkState == Inactive && !rectangleVisible && !hostCaretHidden
      && !timerEnabled
      && isAdornmentActive && layerAdornments == 1
    }

    /** A fresh caret: phase `Inactive`, timer off, rectangle added to the layer. */
    constructor ()
      ensures Valid()
      ensures blinkState == Inactive && !timerEnabled && timerInterval == 0
      ensures horizontal == 0.0 && vertical == 0.0
      ensures blinkWait == 0 && blinkOn == 0 && blinkOff == 0
      ensures !hostCaretHidden && rectangleVisible
      ensures isAdornmentActive && layerAdornments == 1
    {
      blinkState := Inactive;
      horizontal, vertical := 0.0, 0.0;
      blinkWait, blinkOn, blinkOff := 0, 0, 0;
      timerEnabled, timerInterval := false, 0;
      hostCaretHidden := false;
      rectangleVisible := true;
      isAdornmentActive := false;
      layerAdornments := 0;
      new;
      CreateCaretAdornment();
    }

    /** Puts the rectangle into the layer again, removing it first when the
        layer still holds it. */
    method CreateCaretAdornment()
      requires LayerValid()
      modifies this`isAdornmentActive, this`layerAdornments
      ensures LayerValid()
      ensures isAdornmentActive && layerAdornments == 1
    {
      if isAdornmentActive {
        RemoveAdornment();
      }
      layerAdornments := layerAdornments + 1;
      isAdornmentActive := true;
    }

    /** `adornment_layer_->RemoveAdornment`: the layer lets the rectangle go and
        calls back `OnAdornmentRemoved`. */
    method RemoveAdornment()
      requires layerAdornments == 1 && isAdornmentActive
      modifies this`isAdornmentActive, this`layerAdornments
      ensures layerAdornments == 0 && !isAdornmentActive
    {
      layerAdornments := layerAdornments - 1;
      OnAdornmentRemoved();
    }

    /** The callback the layer makes whenever it drops the rectangle. */
    method OnAdornmentRemoved()
      modifies this`isAdornmentActive
      ensures !isAdornmentActive
    {
      isAdornmentActive := false;
    }

    /** The layer drops the rectangle on its own, as it does with text-relative
        adornments when their line is laid out again. */
    method LayerDropsAdornment()
      requires Valid() && isAdornmentActive
      modifies this`isAdornmentActive, this`layerAdornments
      ensures Valid() && layerAdornments == 0
    {
      RemoveAdornment();
    }

    method SetState(s: BlinkState)
      requires LayerValid() && 0 <= blinkWait as int <= MaxInterval
      modifies this`blinkState, this`timerInterval, this`timerEnabled
      modifies this`hostCaretHidden, this`rectangleVisible
      modifies this`isAdornmentActive, this`layerAdornments
      ensures Valid()
      ensures blinkState == s && timerInterval == blinkWait
      ensures timerEnabled == TimerRuns(s, blinkWait)
      ensures hostCaretHidden == (s != Inactive)
      ensures rectangleVisible == Shows(s)
      ensures isAdornmentActive && layerAdornments == 1
    {
      blinkState := s;
      timerInterval := blinkWait;
      timerEnabled := s != Inactive && blinkWait != 0;
      hostCaretHidden := s != Inactive;
      rectangleVisible := s == Wait || s == On;
      CreateCaretAdornment();
    }

    /** Takes the cursor options of the engine's current mode. */
    method SetOptions(enabled: bool, h: Int64, v: Int64, wait: Int64, on: Int64, off: Int64)
      requires Valid() && 0 <= wait as int <= MaxInterval
      modifies this
      ensures Valid()
      ensures horizontal == h as real / 100.0 && vertical == v as real / 100.0
      ensures blinkWait == wait && blinkOn == on && blinkOff == off
      ensures blinkState == (if enabled then Wait else Inactive)
      ensures timerInterval == wait && timerEnabled == (enabled && wait != 0)
      ensures hostCaretHidden == enabled && rectangleVisible == enabled
      ensures isAdornmentActive && layerAdornments == 1
    {
      horizontal := h as real / 100.0;
      vertical := v as real / 100.0;
      blinkWait, blinkOn, blinkOff := wait, on, off;
      SetState(if enabled then Wait else Inactive);
    }

    /** The host caret moved: restart the blink unless the caret is inactive. */
    method OnPositionChanged()
      requires Valid()
      modifies this`blinkState, this`timerInterval, this`timerEnabled
      modifies this`hostCaretHidden, this`rectangleVisible
      modifies this`isAdornmentActive, this`layerAdornments
      ensures Valid()
      ensures old(blinkState) == Inactive ==>
                unchanged(this) && layerAdornments == old(layerAdornments)
      ensures old(blinkState) != Inactive ==> Restarted()
    {
      if blinkState == Inactive {
        return;
      }
      CreateCaretAdornment();
      SetState(Wait);
    }

    method OnBlinkTimerTick()
      requires Valid()
      modifies this`blinkState, this`timerInterval, this`timerEnabled
      modifies this`hostCaretHidden, this`rectangleVisible
      modifies this`isAdornmentActive, this`layerAdornments
      ensures Valid()
      ensures blinkState == NextOnTick(old(blinkState))
      ensures rectangleVisible == Shows(blinkState)
      ensures timerEnabled == TimerRuns(blinkState, blinkWait)
      ensures isAdornmentActive && layerAdornments == 1
    {
      SetState(NextOnTick(blinkState));
    }

    /** The package was switched on: the caret starts blinking from `Wait`. */
    method Enable()
      requires Valid()
      modifies this`blinkState, this`timerInterval, this`timerEnabled
      modifies this`hostCaretHidden, this`rectangleVisible
      modifies this`isAdornmentActive, this`layerAdornments
      ensures Valid() && Restarted()
    {
      SetState(Wait);
    }

    /** The package was switched off: the host's own caret shows again. */
    method Disable()
      requires Valid()
      modifies this`blinkState, this`timerInterval, this`timerEnabled
      modifies this`hostCaretHidden, this`rectangleVisible
      modifies this`isAdornmentActive, this`layerAdornments
      ensures Valid() && Stopped()
    {
      SetState(Inactive);
    }
  }
}
