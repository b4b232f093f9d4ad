/** The engine-side glue: the callbacks the engine makes into the host, the
    host-command hook, and the UI callbacks that turn the engine's mode and
    cursor into caret options and view moves. */
module VSNvimBridge {
  import opened HostText
  import opened Machine
  import opened Snapshot
  import opened NvimLoop
  import opened VSNvimCaret
  import opened VSNvimTextView

  // ---- Splitting a host command ----

  predicate AllBlank(s: Text) {
    forall i :: 0 <= i < |s| ==> s[i] == ' '
  }

  /** The first position at or after `i` that holds no blank. */
  function SkipBlanks(s: Text, i: nat): (k: nat)
    requires i <= |s|
    ensures i <= k <= |s| && (k < |s| ==> s[k] != ' ')
    ensures forall m :: i <= m < k ==> s[m] == ' '
    decreases |s| - i
  {
    if i == |s| || s[i] != ' ' then i else SkipBlanks(s, i + 1)
  }

  /** The first position at or after `i` that holds a blank. */
  function WordEnd(s: Text, i: nat): (k: nat)
    requires i <= |s|
    ensures i <= k <= |s| && (k < |s| ==> s[k] == ' ')
    ensures forall m :: i <= m < k ==> s[m] != ' '
    decreases |s| - i
  {
    if i == |s| || s[i] == ' ' then i else WordEnd(s, i + 1)
  }

  /** `Split({" "}, 2, RemoveEmptyEntries)`: the first word, then, when anything
      but blanks follows it, the rest after the blanks that follow the word. */
  function SplitCommand(s: Text): (r: seq<Text>)
    ensures |r| <= 2
    ensures r == [] <==> AllBlank(s)
    ensures forall k :: 0 <= k < |r| ==> r[k] != [] && r[k][0] != ' '
    ensures |r| >= 1 ==> ' ' !in r[0]
    ensures |r| == 2 ==> |r[1]| < |s| && r[1] == s[|s| - |r[1]|..] && s[|s| - |r[1]| - 1] == ' '
  {
    var a := SkipBlanks(s, 0);
    if a == |s| then []
    else
      var b := WordEnd(s, a);
      var c := SkipBlanks(s, b);
      assert forall m :: 0 <= m < b - a ==> s[a..b][m] == s[a + m];
      if c == |s| then [s[a..b]] else [s[a..b], s[c..]]
  }

  lemma SkipBlanksIs(s: Text, i: nat, k: nat)
    requires i <= k <= |s| && (k < |s| ==> s[k] != ' ')
    requires forall m :: i <= m < k ==> s[m] == ' '
    ensures SkipBlanks(s, i) == k
  {
  }

  lemma WordEndIs(s: Text, i: nat, k: nat)
    requires i <= k <= |s| && (k < |s| ==> s[k] == ' ')
    requires forall m :: i <= m < k ==> s[m] != ' '
    ensures WordEnd(s, i) == k
  {
  }

  /** Every command is blanks, a word, blanks and a rest that starts with no
      blank; the split returns that word and that rest, or the word alone when
      the rest is empty. */
  lemma SplitCommandOf(p: Text, w: Text, q: Text, x: Text)
    requires AllBlank(p) && AllBlank(q)
    requires w != [] && ' ' !in w
    requires x != [] ==> q != [] && x[0] != ' '
    ensures SplitCommand(p + w + q + x) == if x == [] then [w] else [w, x]
  {
    var s := p + w + q + x;
    var a, b, c := |p|, |p| + |w|, |p| + |w| + |q|;
    assert forall m :: 0 <= m < a ==> s[m] == p[m];
    assert forall m :: a <= m < b ==> s[m] == w[m - a];
    assert forall m :: b <= m < c ==> s[m] == q[m - b];
    assert forall m :: c <= m < |s| ==> s[m] == x[m - c];
    SkipBlanksIs(s, 0, a);
    assert q == [] ==> x == [];
    WordEndIs(s, a, b);
    SkipBlanksIs(s, b, c);
    assert s[a..b] == w;
    assert s[c..] == x;
  }

  /** What `emsg` shows when the host refuses a command. */
  const CommandFailed: Text := "Failed to execute Visual Studio command"

  /** A host command with its arguments. */
  datatype HostCommand = HostCommand(name: Text, args: Text)

  /** The host command a split names, if any. */
  function CommandOf(split: seq<Text>): (c: Option<HostCommand>)
    requires |split| <= 2 && forall k :: 0 <= k < |split| ==> split[k] != []
    ensures c.None? <==> split == []
    ensures c.Some? ==> c.value.name == split[0] && c.value.name != []
    ensures c.Some? ==> (c.value.args == [] <==> |split| == 1)
  {
    if split == [] then None
    else if |split| == 2 then Some(HostCommand(split[0], split[1]))
    else Some(HostCommand(split[0], []))
  }

  // ---- Caret options from the mode-info dictionary ----

  /** The values the mode dictionaries hold. */
  datatype Object = StringObject(str: Text) | IntegerObject(integer: Int64)

  datatype KeyValuePair = KeyValuePair(key: Text, value: Object)

  type Dictionary = seq<KeyValuePair>

  /** The keys are read as the type their name implies, and a blink wait is an
      interval the host's blink timer accepts. */
  predicate WellTyped(d: Dictionary) {
    forall i :: 0 <= i < |d| ==>
      (d[i].key == "cursor_shape" ==> d[i].value.StringObject?) &&
      (d[i].key in {"cell_percentage", "blinkwait", "blinkon", "blinkoff"} ==> d[i].value.IntegerObject?) &&
      (d[i].key == "blinkwait" ==> 0 <= d[i].value.integer as int <= MaxInterval)
  }

  /** The last index below `n` that holds `key`, or -1. */
  function LastIndex(d: Dictionary, key: Text, n: nat): (i: int)
    requires n <= |d|
    ensures -1 <= i < n
    ensures 0 <= i ==> d[i].key == key
    ensures forall j :: i < j < n ==> d[j].key != key
  {
    if n == 0 then -1
    else if d[n - 1].key == key then n - 1
    else LastIndex(d, key, n - 1)
  }

  /** The value of the last `key` below `n`, or `default`. */
  function LastValue(d: Dictionary, key: Text, n: nat, default: Object): Object
    requires n <= |d|
  {
    var i := LastIndex(d, key, n);
    if i < 0 then default else d[i].value
  }

  /** `static_cast<int>`: the low 32 bits, as a signed number. */
  function ToInt32(x: Int64): (r: Int32)
    ensures (r as int - x as int) % 0x1_0000_0000 == 0
    ensures -0x8000_0000 <= x as int < 0x8000_0000 ==> r as int == x as int
  {
    var m := x as int % 0x1_0000_0000;
    if m < 0x8000_0000 then m as Int32 else (m - 0x1_0000_0000) as Int32
  }

  /** The arguments of `SetCaretOptions`. */
  datatype CaretOptions = CaretOptions(
    enabled: bool, horizontal: Int64, vertical: Int64,
    blinkWait: Int64, blinkOn: Int64, blinkOff: Int64)

  /** What the scan has gathered: the shape, the cell percentage and the three
      blink durations. */
  datatype Scan = Scan(shape: Text, pct: Int64, wait: Int64, on: Int64, off: Int64)

  /** The scan of the first `n` entries: the last occurrence of each key counts
      and a missing key takes its default. */
  function ScanOf(d: Dictionary, n: nat): Scan
    requires WellTyped(d) && n <= |d|
  {
    var i := LastIndex(d, "cell_percentage", n);
    Scan(LastValue(d, "cursor_shape", n, StringObject("")).str,
         if i < 0 then 100 else ToInt32(d[i].value.integer) as Int64,
         LastValue(d, "blinkwait", n, IntegerObject(0)).integer,
         LastValue(d, "blinkon", n, IntegerObject(0)).integer,
         LastValue(d, "blinkoff", n, IntegerObject(0)).integer)
  }

  /** The caret options for mode dictionary `d`: the shape picks the axis the
      cell percentage applies to, the other axis takes the full cell. */
  function OptionsFor(enabled: bool, d: Dictionary): CaretOptions
    requires WellTyped(d)
  {
    var sc := ScanOf(d, |d|);
    CaretOptions(
      enabled,
      if sc.shape == "horizontal" then sc.pct else 100,
      if sc.shape == "vertical" then sc.pct else 100,
      sc.wait, sc.on, sc.off)
  }

  /** One more entry overrides the value of its own key and no other. */
  lemma ScanStep(d: Dictionary, i: nat)
    requires WellTyped(d) && i < |d|
    ensures var sc := ScanOf(d, i);
            var kv := d[i];
            ScanOf(d, i + 1) ==
              if kv.key == "cursor_shape" then sc.(shape := kv.value.str)
              else if kv.key == "cell_percentage" then sc.(pct := ToInt32(kv.value.integer) as Int64)
              else if kv.key == "blinkwait" then sc.(wait := kv.value.integer)
              else if kv.key == "blinkon" then sc.(on := kv.value.integer)
              else if kv.key == "blinkoff" then sc.(off := kv.value.integer)
              else sc
  {
    assert |"cursor_shape"| == 12 && |"cell_percentage"| == 15 && |"blinkwait"| == 9;
    assert |"blinkon"| == 7 && |"blinkoff"| == 8;
  }

  /** The loop of `NvimModeChange` over the dictionary of the current mode. */
  method ScanModeInfo(enabled: bool, d: Dictionary) returns (o: CaretOptions)
    requires WellTyped(d)
    ensures o == OptionsFor(enabled, d)
  {
    var shape: Text := "";
    var pct: Int64 := 100;
    var wait: Int64 := 0;
    var on: Int64 := 0;
    var off: Int64 := 0;
    for i := 0 to |d|
      invariant Scan(shape, pct, wait, on, off) == ScanOf(d, i)
    {
      ScanStep(d, i);
      var item := d[i];
      if item.key == "cursor_shape" {
        shape := item.value.str;
      } else if item.key == "cell_percentage" {
        pct := ToInt32(item.value.integer) as Int64;
      } else if item.key == "blinkwait" {
        wait := item.value.integer;
      } else if item.key == "blinkon" {
        on := item.value.integer;
      } else if item.key == "blinkoff" {
        off := item.value.integer;
      }
    }
    o := CaretOptions(enabled,
                      if shape == "horizontal" then pct else 100,
                      if shape == "vertical" then pct else 100,
                      wait, on, off);
  }

  /** A dictionary without the keys gives the defaults: full cell, no blinking. */
  lemma {:induction false} DefaultOptions(enabled: bool, d: Dictionary)
    requires forall i :: 0 <= i < |d| ==>
               d[i].key !in {"cursor_shape", "cell_percentage", "blinkwait", "blinkon", "blinkoff"}
    ensures WellTyped(d)
    ensures OptionsFor(enabled, d) == CaretOptions(enabled, 100, 100, 0, 0, 0)
  {
    forall key | key in {"cursor_shape", "cell_percentage", "blinkwait", "blinkon", "blinkoff"}
      ensures LastIndex(d, key, |d|) == -1
    {
      NoKeyNoIndex(d, key, |d|);
    }
  }

  lemma {:induction false} NoKeyNoIndex(d: Dictionary, key: Text, n: nat)
    requires n <= |d| && forall i :: 0 <= i < n ==> d[i].key != key
    ensures LastIndex(d, key, n) == -1
  {
    if n > 0 {
      NoKeyNoIndex(d, key, n - 1);
    }
  }

  /** A later entry for a key overrides every earlier one; an entry for another
      key changes nothing. */
  lemma LastKeyWins(d: Dictionary, kv: KeyValuePair, key: Text, default: Object)
    ensures LastValue(d + [kv], key, |d| + 1, default) ==
            if kv.key == key then kv.value else LastValue(d, key, |d|, default)
  {
    if kv.key != key {
      LastIndexPrefix(d, [kv], key, |d|);
    }
  }

  lemma {:induction false} LastIndexPrefix(d: Dictionary, e: Dictionary, key: Text, n: nat)
    requires n <= |d|
    ensures LastIndex(d + e, key, n) == LastIndex(d, key, n)
  {
    if n > 0 {
      assert (d + e)[n - 1] == d[n - 1];
      LastIndexPrefix(d, e, key, n - 1);
    }
  }

  /** The shape picks the axis: `horizontal` gives the percentage to the height,
      `vertical` to the width, any other shape neither. */
  lemma ShapeSelectsAxis(enabled: bool, d: Dictionary, shape: Text, pct: Int64)
    requires WellTyped(d)
    requires LastValue(d, "cursor_shape", |d|, StringObject("")) == StringObject(shape)
    requires LastValue(d, "cell_percentage", |d|, IntegerObject(100)) == IntegerObject(pct)
    requires -0x8000_0000 <= pct as int < 0x8000_0000
    ensures var o := OptionsFor(enabled, d);
            && (shape == "horizontal" ==> o.horizontal == pct && o.vertical == 100)
            && (shape == "vertical" ==> o.vertical == pct && o.horizontal == 100)
            && (shape != "horizontal" && shape != "vertical" ==> o.horizontal == 100 && o.vertical == 100)
  {
    assert "horizontal" != "vertical" by {
      assert "horizontal"[0] != "vertical"[0];
    }
  }

  // ---- The UI the host attaches to the engine ----

  /** The bridge's globals: what `mode_info_set` stored and the host commands
      the engine asked for. */
  class Bridge {
    /** `cursor_enabled_` and `cursor_styles_`. */
    var cursorEnabled: bool
    var cursorStyles: seq<Dictionary>
    /** The commands handed to the host's `ExecuteCommand`, oldest first. */
    var hostCommands: seq<HostCommand>
    const engine: Engine

    /** `vsnvim_ui_start`: nothing is stored yet. */
    constructor (engine: Engine)
      ensures this.engine == engine
      ensures !cursorEnabled && cursorStyles == [] && hostCommands == []
    {
      this.engine := engine;
      cursorEnabled := false;
      cursorStyles := [];
      hostCommands := [];
    }

    /** The `mode_info_set` callback: both globals are replaced wholesale. */
    method ModeInfoSet(enabled: bool, styles: seq<Dictionary>)
      modifies this`cursorEnabled, this`cursorStyles
      ensures cursorEnabled == enabled && cursorStyles == styles
    {
      cursorEnabled := enabled;
      cursorStyles := styles;
    }

    /** The `mode_change` callback: the caret of the current buffer's view takes
        the options of mode `modeIndex`. */
    method NvimModeChange(view: TextView, modeIndex: nat)
      requires view.Valid() && modeIndex < |cursorStyles| && WellTyped(cursorStyles[modeIndex])
      modifies view.caret
      ensures view.Valid()
      ensures var o := OptionsFor(cursorEnabled, cursorStyles[modeIndex]);
              && view.caret.horizontal == o.horizontal as real / 100.0
              && view.caret.vertical == o.vertical as real / 100.0
              && view.caret.blinkWait == o.blinkWait && view.caret.blinkOn == o.blinkOn
              && view.caret.blinkOff == o.blinkOff
              && view.caret.blinkState == (if cursorEnabled then Wait else Inactive)
      ensures view.caret.rectangleVisible == cursorEnabled && view.caret.hostCaretHidden == cursorEnabled
      ensures view.caret.timerEnabled == (cursorEnabled && view.caret.blinkWait != 0)
      ensures view.caret.isAdornmentActive && view.caret.layerAdornments == 1
    {
      var o := ScanModeInfo(cursorEnabled, cursorStyles[modeIndex]);
      view.caret.SetOptions(o.enabled, o.horizontal, o.vertical, o.blinkWait, o.blinkOn, o.blinkOff);
    }

    /** The `flush` callback: the current buffer's view moves its caret to the
        current window's cursor, then shows the window's top line at its top. */
    method Flush(view: TextView)
      requires view.Valid() && engine.curwin in engine.windows
      requires var w := engine.windows[engine.curwin];
               && 1 <= w.topline as int <= LineCount(view.text)
               && (!view.isClosed && !view.inLayout ==>
                     1 <= w.cursor.lnum as int <= LineCount(view.text) && 0 <= w.cursor.col as int &&
                     LineFromNumber(view.text, w.cursor.lnum as int).start + w.cursor.col as int <= |view.text|)
      modifies view`dispatched, view`caretPosition, view`viewTop
      modifies view.caret`blinkState, view.caret`timerInterval, view.caret`timerEnabled
      modifies view.caret`hostCaretHidden, view.caret`rectangleVisible
      modifies view.caret`isAdornmentActive, view.caret`layerAdornments
      ensures view.Valid()
      ensures var w := engine.windows[engine.curwin];
              view.dispatched == old(view.dispatched) +
                [CursorGotoCall(w.cursor.lnum, w.cursor.col), ScrollCall(w.topline)]
      ensures view.viewTop == LineStart(view.text, engine.windows[engine.curwin].topline as int - 1)
      ensures view.isClosed || view.inLayout ==>
                view.caretPosition == old(view.caretPosition) && unchanged(view.caret)
      ensures var w := engine.windows[engine.curwin];
              !view.isClosed && !view.inLayout ==>
                view.caretPosition == LineFromNumber(view.text, w.cursor.lnum as int).start + w.cursor.col as int
      ensures view.caretPosition == old(view.caretPosition) || old(view.caret.blinkState) == Inactive ==>
                unchanged(view.caret)
      ensures view.caretPosition != old(view.caretPosition) && old(view.caret.blinkState) != Inactive ==>
                view.caret.Restarted()
    {
      var w := engine.windows[engine.curwin];
      view.CursorGoto(w.cursor.lnum, w.cursor.col);
      view.Scroll(w.topline);
    }

    /** `vsnvim_execute_command`: the C string `command` is split into a command
        name and its arguments and handed to the host; `hostFails` tells whether
        the host throws, in which case the engine shows one error message. */
    method ExecuteCommand(command: seq<Byte>, hostFails: bool)
      requires NUL in command
      modifies this`hostCommands, engine`messages
      ensures var c := CommandOf(SplitCommand(Decode(command[..Strlen(command)])));
              && hostCommands == old(hostCommands) + (if c.Some? then [c.value] else [])
              && engine.messages == old(engine.messages) + (if c.Some? && hostFails then [CommandFailed] else [])
    {
      var s := Decode(command[..Strlen(command)]);
      var split := SplitCommand(s);
      if |split| == 0 {
        return;
      }
      var name := split[0];
      var args := if |split| == 2 then split[1] else [];
      hostCommands := hostCommands + [HostCommand(name, args)];
      if hostFails {
        engine.Emsg(CommandFailed);
      }
    }
  }

  // ---- The callbacks the engine makes into the current view ----

  method GetLineCallback(view: TextView, lnum: Int32) returns (bytes: seq<Byte>)
    requires view.Valid() && 1 <= lnum as int <= LineCount(view.text)
    modifies view`lastLine, view`pinned
    ensures view.Valid() && bytes == LineBytes(view.text, lnum as int)
    ensures view.lastLine == Some(bytes) && view.pinned == 1
  {
    bytes := view.GetLine(lnum);
  }

  method AppendLineCallback(view: TextView, lnum: Int32, line: seq<Byte>, len: Int32) returns (r: int)
    requires view.Valid() && AppendArgs(line, len) && 0 <= lnum as int <= LineCount(view.text)
    modifies view`text, view`dispatched, view.engine`mlFlags
    ensures r == 1 && view.Valid()
    ensures var s := WithBreak(line[..AppendedLength(line, len)]);
            view.dispatched == old(view.dispatched) + [AppendLineCall(lnum, s)] &&
            view.text == AppendLineText(old(view.text), lnum as int, s)
    ensures view.engine.mlFlags == BufferFlags(old(view.engine.mlFlags), false)
  {
    view.AppendLine(lnum, line, len);
    r := 1;
  }

  method DeleteLineCallback(view: TextView, lnum: Int32) returns (r: int)
    requires view.Valid() && 1 <= lnum as int <= LineCount(view.text)
    modifies view`text, view`dispatched, view.engine`mlFlags
    ensures r == 1 && view.Valid()
    ensures view.dispatched == old(view.dispatched) + [DeleteLineCall(lnum)]
    ensures view.text == DeleteLineText(old(view.text), lnum as int)
    ensures view.engine.mlFlags == BufferFlags(old(view.engine.mlFlags), |view.text| == 0)
  {
    view.DeleteLine(lnum);
    r := 1;
  }

  method DeleteCharCallback(view: TextView, lnum: Int32, col: Int32) returns (r: int)
    requires view.Valid() && CharInBuffer(view.text, lnum as int, col as int)
    modifies view`text, view`dispatched, view.engine`mlFlags
    ensures r == 1 && view.Valid()
    ensures view.dispatched == old(view.dispatched) + [DeleteCharCall(lnum, col)]
    ensures view.text == DeleteCharText(old(view.text), lnum as int, col as int)
    ensures view.engine.mlFlags == BufferFlags(old(view.engine.mlFlags), |view.text| == 0)
  {
    view.DeleteChar(lnum, col);
    r := 1;
  }

  method ReplaceLineCallback(view: TextView, lnum: Int32, line: seq<Byte>) returns (r: int)
    requires view.Valid() && NUL in line && 1 <= lnum as int <= LineCount(view.text)
    modifies view`text, view`dispatched, view.engine`mlFlags
    ensures r == 1 && view.Valid()
    ensures var s := WithBreak(line[..Strlen(line)]);
            view.dispatched == old(view.dispatched) + [ReplaceLineCall(lnum, s)] &&
            view.text == ReplaceLineText(old(view.text), lnum as int, s)
    ensures view.engine.mlFlags == BufferFlags(old(view.engine.mlFlags), |view.text| == 0)
  {
    view.ReplaceLine(lnum, line);
    r := 1;
  }

  method ReplaceCharCallback(view: TextView, lnum: Int32, col: Int32, chr: Byte) returns (r: int)
    requires view.Valid() && CharInBuffer(view.text, lnum as int, col as int)
    modifies view`text, view`dispatched, view.engine`mlFlags
    ensures r == 1 && view.Valid()
    ensures var c := Decode([chr]);
            view.dispatched == old(view.dispatched) + [ReplaceCharCall(lnum, col, c)] &&
            view.text == ReplaceCharText(old(view.text), lnum as int, col as int, c)
    ensures view.engine.mlFlags == BufferFlags(old(view.engine.mlFlags), |view.text| == 0)
  {
    view.ReplaceChar(lnum, col, chr);
    r := 1;
  }

  /** `vs_plines_win_nofold`. */
  method PlinesWinNofold(view: TextView, lnum: Int32, intersecting: nat) returns (n: nat)
    requires 1 <= lnum as int <= LineCount(view.text)
    ensures n >= 1 && (intersecting >= 1 ==> n == intersecting)
    ensures intersecting == 0 ==> n == 1
  {
    n := view.GetPhysicalLinesCount(lnum, intersecting);
  }
}
