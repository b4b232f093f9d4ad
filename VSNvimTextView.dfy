/** The buffer adapter of one text view: engine edits, addressed by 1-based line
    numbers, become edits of the host's text buffer, addressed by positions.

    The host text buffer is `TextView.text`. Each edit the engine makes arrives
    on the engine's thread, is turned into host text, and is handed to the UI
    dispatcher as an action; the dispatcher is modelled as a synchronous call, and
    the actions handed to it are recorded in `dispatched`. */
module VSNvimTextView {
  import opened HostText
  import opened Machine
  import opened Snapshot
  import opened VSNvimCaret
  import opened NvimLoop
  import opened VSNvimPackage

  datatype Option<T> = None | Some(value: T)

  /** The memline flag "buffer is empty". */
  const ML_EMPTY: bv32 := 1

  /** The flags after `SetBufferFlags`: `ML_EMPTY` tells whether the host buffer is
      empty and every other bit stays. */
  function BufferFlags(flags: bv32, empty: bool): (r: bv32)
    ensures (r & ML_EMPTY != 0) == empty
    ensures r & !ML_EMPTY == flags & !ML_EMPTY
  {
    if empty then flags | ML_EMPTY else flags & !ML_EMPTY
  }

  /** `GetLineFromNumber`: engine line `lnum` is host line `lnum - 1`. */
  function LineFromNumber(t: Text, lnum: int): (l: SnapshotLine)
    requires 1 <= lnum <= LineCount(t)
    ensures l.start == LineStart(t, lnum - 1)
    ensures l.start <= l.end <= l.endIncludingLineBreak <= |t|
    ensures t[l.start..l.end] == Lines(t)[lnum - 1]
    ensures lnum < LineCount(t) ==> l.endIncludingLineBreak == LineStart(t, lnum)
    ensures lnum == LineCount(t) ==> l.endIncludingLineBreak == |t|
  {
    LineAt(t, lnum - 1)
  }

  // ---- The text each edit hands to the dispatcher ----

  /** What `AppendLine` demands of its arguments: a C string when `len` is 0, at
      least `len` bytes otherwise. */
  predicate AppendArgs(line: seq<Byte>, len: Int32) {
    if len == 0 then NUL in line else 0 < len as int <= |line|
  }

  /** The number of bytes `AppendLine` decodes. */
  function AppendedLength(line: seq<Byte>, len: Int32): (n: nat)
    requires AppendArgs(line, len)
    ensures n <= |line|
    ensures len == 0 ==> n == Strlen(line) && NUL !in line[..n]
    ensures len != 0 ==> n == len as int
  {
    if len == 0 then
      var n := Strlen(line);
      assert forall i :: 0 <= i < n ==> line[..n][i] == line[i];
      n
    else len as int
  }

  /** The decoded bytes followed by one line break. */
  function WithBreak(bs: seq<Byte>): (s: Text)
    ensures |s| == |bs| + 1 && s[|bs|] == LF && s[..|bs|] == Decode(bs)
    ensures IsByteText(s)
  {
    Decode(bs) + [LF]
  }

  // ---- What each action does to the host text ----

  /** Where `AppendLineAction` inserts: the buffer start for line 0, otherwise the
      end of engine line `lnum`, its break included. */
  function AppendPosition(t: Text, lnum: int): (p: nat)
    requires 0 <= lnum <= LineCount(t)
    ensures p <= |t|
    ensures lnum == 0 ==> p == 0
    ensures 0 < lnum < LineCount(t) ==> p == LineStart(t, lnum) && t[p - 1] == LF
    ensures 0 < lnum == LineCount(t) ==> p == |t|
  {
    if lnum == 0 then 0 else LineFromNumber(t, lnum).endIncludingLineBreak
  }

  function AppendLineText(t: Text, lnum: int, s: Text): (r: Text)
    requires 0 <= lnum <= LineCount(t)
    ensures var p := AppendPosition(t, lnum);
            |r| == |t| + |s| && r[..p] == t[..p] && r[p..p + |s|] == s && r[p + |s|..] == t[p..]
  {
    Insert(t, AppendPosition(t, lnum), s)
  }

  /** `ReplaceLineAction`: the span of engine line `lnum`, break included, becomes
      `s`; everything before and after that span stays. */
  function ReplaceLineText(t: Text, lnum: int, s: Text): (r: Text)
    requires 1 <= lnum <= LineCount(t)
    ensures var l := LineFromNumber(t, lnum);
            |r| == |t| - (l.endIncludingLineBreak - l.start) + |s| &&
            r[..l.start] == t[..l.start] && r[l.start..l.start + |s|] == s &&
            r[l.start + |s|..] == t[l.endIncludingLineBreak..]
  {
    var l := LineFromNumber(t, lnum);
    Replace(t, l.start, l.endIncludingLineBreak - l.start, s)
  }

  /** `DeleteLineAction`: the span of engine line `lnum`, break included, goes. */
  function DeleteLineText(t: Text, lnum: int): (r: Text)
    requires 1 <= lnum <= LineCount(t)
    ensures var l := LineFromNumber(t, lnum);
            |r| == |t| - (l.endIncludingLineBreak - l.start) &&
            r[..l.start] == t[..l.start] && r[l.start..] == t[l.endIncludingLineBreak..]
  {
    var l := LineFromNumber(t, lnum);
    Delete(t, l.start, l.endIncludingLineBreak - l.start)
  }

  /** The one position a character edit at column `col` of engine line `lnum`
      touches; the host refuses a span that leaves the buffer. */
  predicate CharInBuffer(t: Text, lnum: int, col: int) {
    1 <= lnum <= LineCount(t) && 0 <= col && LineFromNumber(t, lnum).start + col < |t|
  }

  /** `ReplaceCharAction`: the character at line start plus `col` becomes `c`. */
  function ReplaceCharText(t: Text, lnum: int, col: int, c: Text): (r: Text)
    requires CharInBuffer(t, lnum, col)
    ensures var p := LineFromNumber(t, lnum).start + col;
            |r| == |t| - 1 + |c| &&
            r[..p] == t[..p] && r[p..p + |c|] == c && r[p + |c|..] == t[p + 1..]
  {
    Replace(t, LineFromNumber(t, lnum).start + col, 1, c)
  }

  /** `DeleteCharAction`: the character at line start plus `col` goes. */
  function DeleteCharText(t: Text, lnum: int, col: int): (r: Text)
    requires CharInBuffer(t, lnum, col)
    ensures var p := LineFromNumber(t, lnum).start + col;
            |r| == |t| - 1 && r[..p] == t[..p] && r[p..] == t[p + 1..]
  {
    Delete(t, LineFromNumber(t, lnum).start + col, 1)
  }

  /** `GetLine`: the bytes of engine line `lnum`, its break excluded. */
  function LineBytes(t: Text, lnum: int): (bs: seq<Byte>)
    requires IsByteText(t) && 1 <= lnum <= LineCount(t)
    ensures Decode(bs) == Lines(t)[lnum - 1]
  {
    var l := LineFromNumber(t, lnum);
    var u := t[l.start..l.end];
    assert forall i :: 0 <= i < |u| ==> u[i] == t[l.start + i];
    DecodeEncode(u);
    Encode(u)
  }

  // ---- What the actions mean for the lines ----

  /** After `AppendLine(lnum, s)`, `s` is engine line `lnum + 1` and the lines
      around it are as they were; appended after the host's last line, which has
      no break, `s` lengthens that line and an empty line follows it. */
  lemma AppendLines(t: Text, lnum: int, s: Text)
    requires 0 <= lnum <= LineCount(t) && LF !in s
    ensures Lines(AppendLineText(t, lnum, s + [LF])) ==
            if lnum < LineCount(t) then Lines(t)[..lnum] + [s] + Lines(t)[lnum..]
            else Lines(t)[lnum - 1 := Lines(t)[lnum - 1] + s] + [[]]
  {
    if lnum < LineCount(t) {
      InsertLineAt(t, lnum, s);
    } else {
      InsertAtEnd(t, s);
    }
  }

  /** Appending a line at the top and reading engine line 1 back gives the bytes
      that were appended. */
  lemma AppendThenGetLine(t: Text, bs: seq<Byte>)
    requires IsByteText(t) && forall i :: 0 <= i < |bs| ==> bs[i] as int != LF as int
    ensures var t' := AppendLineText(t, 0, WithBreak(bs));
            IsByteText(t') && 1 <= LineCount(t') && LineBytes(t', 1) == bs
  {
    var s := Decode(bs);
    assert LF !in s;
    assert WithBreak(bs) == s + [LF];
    var t' := AppendLineText(t, 0, s + [LF]);
    assert t' == [] + (s + [LF]) + t;
    ByteTextSplice([], s + [LF], t);
    AppendLines(t, 0, s);
    assert Lines(t')[0] == s;
    var r := LineBytes(t', 1);
    EncodeDecode(bs);
    EncodeDecode(r);
  }

  /** The text each append inserts ends with a break, so an append always leaves
      the buffer non-empty and `ML_EMPTY` clear. */
  lemma AppendClearsEmpty(t: Text, lnum: int, bs: seq<Byte>, flags: bv32)
    requires 0 <= lnum <= LineCount(t)
    ensures var t' := AppendLineText(t, lnum, WithBreak(bs));
            |t'| > 0 && BufferFlags(flags, |t'| == 0) & ML_EMPTY == 0
  {
  }

  /** A buffer without a break is one engine line; deleting it empties the
      buffer, and the flags then mark the engine's buffer empty. */
  lemma DeleteOnlyLineEmpties(t: Text, flags: bv32)
    requires LF !in t
    ensures LineCount(t) == 1
    ensures var t' := DeleteLineText(t, 1);
            t' == [] && BufferFlags(flags, |t'| == 0) & ML_EMPTY != 0
  {
  }

  /** Replacing engine line `lnum` changes that line and no other; replacing the
      host's last line leaves an empty line after it, since the break of the new
      text has nothing after it. */
  lemma ReplaceLines(t: Text, lnum: int, s: Text)
    requires 1 <= lnum <= LineCount(t) && LF !in s
    ensures Lines(ReplaceLineText(t, lnum, s + [LF])) ==
            Lines(t)[..lnum - 1] + [s] + (if lnum < LineCount(t) then Lines(t)[lnum..] else [[]])
  {
    ReplaceLineAt(t, lnum - 1, s);
  }

  /** Deleting engine line `lnum` removes that line and no other; deleting the
      host's last line leaves the break before it, so an empty last line remains. */
  lemma DeleteLines(t: Text, lnum: int)
    requires 1 <= lnum <= LineCount(t)
    ensures Lines(DeleteLineText(t, lnum)) ==
            Lines(t)[..lnum - 1] + (if lnum < LineCount(t) then Lines(t)[lnum..] else [[]])
  {
    DeleteLineAt(t, lnum - 1);
  }

  /** Replacing a character within the text of engine line `lnum` changes that
      line only, at `col`, and keeps its length. */
  lemma ReplaceCharLines(t: Text, lnum: int, col: int, c: Text)
    requires 1 <= lnum <= LineCount(t) && 0 <= col < |Lines(t)[lnum - 1]|
    requires |c| == 1 && LF !in c
    ensures CharInBuffer(t, lnum, col)
    ensures var line := Lines(t)[lnum - 1];
            Lines(ReplaceCharText(t, lnum, col, c)) == Lines(t)[lnum - 1 := line[..col] + c + line[col + 1..]] &&
            |line[..col] + c + line[col + 1..]| == |line|
  {
    EditInLine(t, lnum - 1, col, 1, c);
  }

  /** Deleting a character within the text of engine line `lnum` changes that
      line only, removing the character at `col`. */
  lemma DeleteCharLines(t: Text, lnum: int, col: int)
    requires 1 <= lnum <= LineCount(t) && 0 <= col < |Lines(t)[lnum - 1]|
    ensures CharInBuffer(t, lnum, col)
    ensures var line := Lines(t)[lnum - 1];
            Lines(DeleteCharText(t, lnum, col)) == Lines(t)[lnum - 1 := line[..col] + line[col + 1..]]
  {
    var l := LineFromNumber(t, lnum);
    EditInLine(t, lnum - 1, col, 1, []);
    var line := Lines(t)[lnum - 1];
    assert Delete(t, l.start + col, 1) == Replace(t, l.start + col, 1, []);
    assert line[..col] + [] + line[col + 1..] == line[..col] + line[col + 1..];
  }

  // ---- Handing `ReplaceChar`'s argument to the dispatcher ----

  /** A value boxed for `Dispatcher::Invoke`. */
  datatype Boxed = BoxedInt32(i: Int32) | BoxedByte(b: Byte) | BoxedString(s: Text)

  /** The parameter types of a dispatched action. */
  datatype ParamType = Int32Param | StringParam

  /** The parameters of `ReplaceCharAction`: line, column and a string. */
  const ReplaceCharParams: seq<ParamType> := [Int32Param, Int32Param, StringParam]

  /** The dispatcher passes a boxed value only to a parameter of its own type;
      any other argument fails the invocation. */
  predicate Accepts(p: ParamType, a: Boxed) {
    match p
    case Int32Param => a.BoxedInt32?
    case StringParam => a.BoxedString?
  }

  predicate InvokeAccepts(ps: seq<ParamType>, args: seq<Boxed>) {
    |ps| == |args| && forall i :: 0 <= i < |ps| ==> Accepts(ps[i], args[i])
  }

  /** The arguments `ReplaceChar` hands over as written: the raw byte, not the
      string it decoded from it. */
  function ReplaceCharArgsAsWritten(lnum: Int32, col: Int32, chr: Byte): (args: seq<Boxed>)
    ensures |args| == 3 && args[2] == BoxedByte(chr)
  {
    [BoxedInt32(lnum), BoxedInt32(col), BoxedByte(chr)]
  }

  /** As written, every `ReplaceChar` fails to reach its action. */
  lemma ReplaceCharAsWrittenRejected(lnum: Int32, col: Int32, chr: Byte)
    ensures !InvokeAccepts(ReplaceCharParams, ReplaceCharArgsAsWritten(lnum, col, chr))
  {
    assert !Accepts(ReplaceCharParams[2], ReplaceCharArgsAsWritten(lnum, col, chr)[2]);
  }

  /** The arguments `ReplaceChar` evidently means to hand over: the decoded string. */
  function ReplaceCharArgs(lnum: Int32, col: Int32, chr: Byte): (args: seq<Boxed>)
    ensures |args| == 3 && args[2].BoxedString?
  {
    [BoxedInt32(lnum), BoxedInt32(col), BoxedString(Decode([chr]))]
  }

  /** Those arguments reach the action, which then gets one character that stands
      for the engine's byte. */
  lemma ReplaceCharArgsAccepted(lnum: Int32, col: Int32, chr: Byte)
    ensures var args := ReplaceCharArgs(lnum, col, chr);
            InvokeAccepts(ReplaceCharParams, args) &&
            |args[2].s| == 1 && args[2].s[0] as int == chr as int && IsByteText(args[2].s)
  {
  }

  // ---- The text view ----

  /** A call handed to the UI dispatcher, with its arguments. */
  datatype Dispatch =
    | AppendLineCall(lnum: Int32, line: Text)
    | ReplaceLineCall(lnum: Int32, line: Text)
    | ReplaceCharCall(lnum: Int32, col: Int32, chr: Text)
    | DeleteLineCall(lnum: Int32)
    | DeleteCharCall(lnum: Int32, col: Int32)
    | CursorGotoCall(lnum: Int32, col: Int32)
    | ScrollCall(lnum: Int32)

  /** `VSNvimTextView`. */
  class TextView {
    /** The host text buffer's current snapshot. */
    var text: Text
    /** `last_line_`: the bytes of the line last handed to the engine, kept pinned. */
    var lastLine: Option<seq<Byte>>
    /** How many line buffers are pinned. */
    var pinned: nat
    /** `IsClosed` and `InLayout` of the host view. */
    var isClosed: bool
    var inLayout: bool
    /** The host caret's buffer position. */
    var caretPosition: nat
    /** The buffer position whose line the view shows at its top. */
    var viewTop: nat
    /** `top_line_`: the engine line last reported as the top of the view. */
    var topLine: Int32
    /** The calls handed to the UI dispatcher, oldest first. */
    var dispatched: seq<Dispatch>
    const caret: Caret
    const engine: Engine
    /** `nvim_window_`. */
    const window: WinId

    ghost predicate Valid()
      reads this, caret
    {
      && IsByteText(text)
      && pinned == (if lastLine.Some? then 1 else 0)
      && caret.Valid()
    }

    constructor (text: Text, engine: Engine, window: WinId)
      requires IsByteText(text)
      ensures Valid() && fresh(caret)
      ensures this.text == text && this.engine == engine && this.window == window
      ensures lastLine == None && topLine == 0 && dispatched == []
      ensures !isClosed && !inLayout && caretPosition == 0 && viewTop == 0
      ensures caret.blinkState == Inactive
    {
      this.text := text;
      this.engine := engine;
      this.window := window;
      lastLine := None;
      pinned := 0;
      isClosed, inLayout := false, false;
      caretPosition, viewTop := 0, 0;
      topLine := 0;
      dispatched := [];
      caret := new Caret();
    }

    method AppendLine(lnum: Int32, line: seq<Byte>, len: Int32)
      requires Valid() && AppendArgs(line, len) && 0 <= lnum as int <= LineCount(text)
      modifies this`text, this`dispatched, engine`mlFlags
      ensures Valid()
      ensures var s := WithBreak(line[..AppendedLength(line, len)]);
              dispatched == old(dispatched) + [AppendLineCall(lnum, s)] &&
              text == AppendLineText(old(text), lnum as int, s)
      ensures engine.mlFlags == BufferFlags(old(engine.mlFlags), false)
    {
      var s := WithBreak(line[..AppendedLength(line, len)]);
      dispatched := dispatched + [AppendLineCall(lnum, s)];
      AppendLineAction(lnum, s);
    }

    method AppendLineAction(lnum: Int32, s: Text)
      requires Valid() && IsByteText(s) && |s| > 0 && 0 <= lnum as int <= LineCount(text)
      modifies this`text, engine`mlFlags
      ensures Valid()
      ensures text == AppendLineText(old(text), lnum as int, s)
      ensures engine.mlFlags == BufferFlags(old(engine.mlFlags), false)
    {
      var pos := if lnum == 0 then 0 else LineFromNumber(text, lnum as int).endIncludingLineBreak;
      ByteTextSplice(text[..pos], s, text[pos..]);
      text := Insert(text, pos, s);
      SetBufferFlags();
    }

    method ReplaceLine(lnum: Int32, line: seq<Byte>)
      requires Valid() && NUL in line && 1 <= lnum as int <= LineCount(text)
      modifies this`text, this`dispatched, engine`mlFlags
      ensures Valid()
      ensures var s := WithBreak(line[..Strlen(line)]);
              dispatched == old(dispatched) + [ReplaceLineCall(lnum, s)] &&
              text == ReplaceLineText(old(text), lnum as int, s)
      ensures engine.mlFlags == BufferFlags(old(engine.mlFlags), |text| == 0)
    {
      var s := WithBreak(line[..Strlen(line)]);
      dispatched := dispatched + [ReplaceLineCall(lnum, s)];
      ReplaceLineAction(lnum, s);
    }

    method ReplaceLineAction(lnum: Int32, s: Text)
      requires Valid() && IsByteText(s) && 1 <= lnum as int <= LineCount(text)
      modifies this`text, engine`mlFlags
      ensures Valid()
      ensures text == ReplaceLineText(old(text), lnum as int, s)
      ensures engine.mlFlags == BufferFlags(old(engine.mlFlags), |text| == 0)
    {
      var l := LineFromNumber(text, lnum as int);
      ByteTextSplice(text[..l.start], s, text[l.endIncludingLineBreak..]);
      text := Replace(text, l.start, l.endIncludingLineBreak - l.start, s);
      SetBufferFlags();
    }

    /** Hands the decoded character to the action (see `ReplaceCharArgs`). */
    method ReplaceChar(lnum: Int32, col: Int32, chr: Byte)
      requires Valid() && CharInBuffer(text, lnum as int, col as int)
      modifies this`text, this`dispatched, engine`mlFlags
      ensures Valid()
      ensures var c := Decode([chr]);
              dispatched == old(dispatched) + [ReplaceCharCall(lnum, col, c)] &&
              text == ReplaceCharText(old(text), lnum as int, col as int, c)
      ensures engine.mlFlags == BufferFlags(old(engine.mlFlags), |text| == 0)
    {
      var args := ReplaceCharArgs(lnum, col, chr);
      var c := args[2].s;
      dispatched := dispatched + [ReplaceCharCall(lnum, col, c)];
      ReplaceCharAction(lnum, col, c);
    }

    method ReplaceCharAction(lnum: Int32, col: Int32, c: Text)
      requires Valid() && IsByteText(c) && CharInBuffer(text, lnum as int, col as int)
      modifies this`text, engine`mlFlags
      ensures Valid()
      ensures text == ReplaceCharText(old(text), lnum as int, col as int, c)
      ensures engine.mlFlags == BufferFlags(old(engine.mlFlags), |text| == 0)
    {
      var p := LineFromNumber(text, lnum as int).start + col as int;
      ByteTextSplice(text[..p], c, text[p + 1..]);
      text := Replace(text, p, 1, c);
      SetBufferFlags();
    }

    method DeleteLine(lnum: Int32)
      requires Valid() && 1 <= lnum as int <= LineCount(text)
      modifies this`text, this`dispatched, engine`mlFlags
      ensures Valid()
      ensures dispatched == old(dispatched) + [DeleteLineCall(lnum)]
      ensures text == DeleteLineText(old(text), lnum as int)
      ensures engine.mlFlags == BufferFlags(old(engine.mlFlags), |text| == 0)
    {
      dispatched := dispatched + [DeleteLineCall(lnum)];
      DeleteLineAction(lnum);
    }

    method DeleteLineAction(lnum: Int32)
      requires Valid() && 1 <= lnum as int <= LineCount(text)
      modifies this`text, engine`mlFlags
      ensures Valid()
      ensures text == DeleteLineText(old(text), lnum as int)
      ensures engine.mlFlags == BufferFlags(old(engine.mlFlags), |text| == 0)
    {
      var l := LineFromNumber(text, lnum as int);
      ByteTextSplice(text[..l.start], [], text[l.endIncludingLineBreak..]);
      text := Delete(text, l.start, l.endIncludingLineBreak - l.start);
      SetBufferFlags();
    }

    method DeleteChar(lnum: Int32, col: Int32)
      requires Valid() && CharInBuffer(text, lnum as int, col as int)
      modifies this`text, this`dispatched, engine`mlFlags
      ensures Valid()
      ensures dispatched == old(dispatched) + [DeleteCharCall(lnum, col)]
      ensures text == DeleteCharText(old(text), lnum as int, col as int)
      ensures engine.mlFlags == BufferFlags(old(engine.mlFlags), |text| == 0)
    {
      dispatched := dispatched + [DeleteCharCall(lnum, col)];
      DeleteCharAction(lnum, col);
    }

    method DeleteCharAction(lnum: Int32, col: Int32)
      requires Valid() && CharInBuffer(text, lnum as int, col as int)
      modifies this`text, engine`mlFlags
      ensures Valid()
      ensures text == DeleteCharText(old(text), lnum as int, col as int)
      ensures engine.mlFlags == BufferFlags(old(engine.mlFlags), |text| == 0)
    {
      var p := LineFromNumber(text, lnum as int).start + col as int;
      ByteTextSplice(text[..p], [], text[p + 1..]);
      text := Delete(text, p, 1);
      SetBufferFlags();
    }

    /** Tells the engine whether the host buffer is empty. */
    method SetBufferFlags()
      modifies engine`mlFlags
      ensures engine.mlFlags == BufferFlags(old(engine.mlFlags), |text| == 0)
    {
      if |text| == 0 {
        engine.mlFlags := engine.mlFlags | ML_EMPTY;
      } else {
        engine.mlFlags := engine.mlFlags & !ML_EMPTY;
      }
    }

    /** Hands the engine the bytes of engine line `lnum`, releasing the line it
        held before, so that one line at most is pinned. */
    method GetLine(lnum: Int32) returns (bytes: seq<Byte>)
      requires Valid() && 1 <= lnum as int <= LineCount(text)
      modifies this`lastLine, this`pinned
      ensures Valid()
      ensures bytes == LineBytes(text, lnum as int) && lastLine == Some(bytes) && pinned == 1
    {
      if lastLine.Some? {
        pinned := pinned - 1;
      }
      bytes := LineBytes(text, lnum as int);
      lastLine := Some(bytes);
      pinned := pinned + 1;
    }

    /** The number of screen rows engine line `lnum` takes; `intersecting` is how
        many of the host's view lines intersect it, which the host's layout decides. */
    method GetPhysicalLinesCount(lnum: Int32, intersecting: nat) returns (n: nat)
      requires 1 <= lnum as int <= LineCount(text)
      ensures n >= 1
      ensures intersecting >= 1 ==> n == intersecting
      ensures intersecting == 0 ==> n == 1
    {
      n := if intersecting > 1 then intersecting else 1;
    }

    method CursorGoto(lnum: Int32, col: Int32)
      requires Valid()
      requires !isClosed && !inLayout ==>
                 1 <= lnum as int <= LineCount(text) && 0 <= col as int &&
                 LineFromNumber(text, lnum as int).start + col as int <= |text|
      modifies this`dispatched, this`caretPosition
      modifies caret`blinkState, caret`timerInterval, caret`timerEnabled
      modifies caret`hostCaretHidden, caret`rectangleVisible
      modifies caret`isAdornmentActive, caret`layerAdornments
      ensures Valid()
      ensures dispatched == old(dispatched) + [CursorGotoCall(lnum, col)]
      ensures isClosed || inLayout ==> caretPosition == old(caretPosition) && unchanged(caret)
      ensures !isClosed && !inLayout ==>
                caretPosition == LineFromNumber(text, lnum as int).start + col as int
      ensures caretPosition == old(caretPosition) || old(caret.blinkState) == Inactive ==>
                unchanged(caret)
      ensures caretPosition != old(caretPosition) && old(caret.blinkState) != Inactive ==>
                caret.Restarted()
    {
      dispatched := dispatched + [CursorGotoCall(lnum, col)];
      CursorGotoAction(lnum, col);
    }

    /** Moves the host caret to column `col` of engine line `lnum`, unless the view
        is closed or being laid out. */
    method CursorGotoAction(lnum: Int32, col: Int32)
      requires Valid()
      requires !isClosed && !inLayout ==>
                 1 <= lnum as int <= LineCount(text) && 0 <= col as int &&
                 LineFromNumber(text, lnum as int).start + col as int <= |text|
      modifies this`caretPosition
      modifies caret`blinkState, caret`timerInterval, caret`timerEnabled
      modifies caret`hostCaretHidden, caret`rectangleVisible
      modifies caret`isAdornmentActive, caret`layerAdornments
      ensures Valid()
      ensures isClosed || inLayout ==> caretPosition == old(caretPosition) && unchanged(caret)
      ensures !isClosed && !inLayout ==>
                caretPosition == LineFromNumber(text, lnum as int).start + col as int
      ensures caretPosition == old(caretPosition) || old(caret.blinkState) == Inactive ==>
                unchanged(caret)
      ensures caretPosition != old(caretPosition) && old(caret.blinkState) != Inactive ==>
                caret.Restarted()
    {
      if isClosed || inLayout {
        return;
      }
      var p := LineFromNumber(text, lnum as int).start + col as int;
      MoveCaretTo(p);
    }

    /** `ITextCaret::MoveTo`: the host raises `PositionChanged` when the caret moves,
        which restarts the blink unless the caret is inactive. */
    method MoveCaretTo(p: nat)
      requires Valid()
      modifies this`caretPosition
      modifies caret`blinkState, caret`timerInterval, caret`timerEnabled
      modifies caret`hostCaretHidden, caret`rectangleVisible
      modifies caret`isAdornmentActive, caret`layerAdornments
      ensures Valid() && caretPosition == p
      ensures p == old(caretPosition) || old(caret.blinkState) == Inactive ==> unchanged(caret)
      ensures p != old(caretPosition) && old(caret.blinkState) != Inactive ==> caret.Restarted()
    {
      if p != caretPosition {
        caretPosition := p;
        caret.OnPositionChanged();
      }
    }

    method Scroll(lnum: Int32)
      requires 1 <= lnum as int <= LineCount(text)
      modifies this`dispatched, this`viewTop
      ensures dispatched == old(dispatched) + [ScrollCall(lnum)]
      ensures viewTop == LineStart(text, lnum as int - 1)
    {
      dispatched := dispatched + [ScrollCall(lnum)];
      ScrollAction(lnum);
    }

    /** Shows engine line `lnum` at the top of the view. */
    method ScrollAction(lnum: Int32)
      requires 1 <= lnum as int <= LineCount(text)
      modifies this`viewTop
      ensures viewTop == LineStart(text, lnum as int - 1)
    {
      viewTop := LineFromNumber(text, lnum as int).start;
    }

    /** The view was laid out again: put the caret rectangle back, and tell the
        engine the visible lines when the top line differs from the one last told.
        `top` and `bottom` are the 1-based engine lines of the first fully visible
        and the first not fully visible view line, `height` the rows that fit. */
    method OnLayoutChanged(top: Int32, bottom: Int32, height: Int32)
      requires Valid()
      modifies caret`isAdornmentActive, caret`layerAdornments, this`topLine, engine`queue
      ensures Valid() && caret.isAdornmentActive && caret.layerAdornments == 1
      ensures topLine == top
      ensures engine.queue ==
                old(engine.queue) + if old(topLine) == top then [] else [ResizeAction(window, top, bottom, height)]
    {
      caret.CreateCaretAdornment();
      if topLine == top {
        return;
      }
      topLine := top;
      engine.ResizeWindow(window, top, bottom, height);
    }

    method OnEnabled()
      requires Valid()
      modifies caret`blinkState, caret`timerInterval, caret`timerEnabled
      modifies caret`hostCaretHidden, caret`rectangleVisible
      modifies caret`isAdornmentActive, caret`layerAdornments
      ensures Valid() && caret.Restarted()
    {
      caret.Enable();
    }

    method OnDisabled()
      requires Valid()
      modifies caret`blinkState, caret`timerInterval, caret`timerEnabled
      modifies caret`hostCaretHidden, caret`rectangleVisible
      modifies caret`isAdornmentActive, caret`layerAdornments
      ensures Valid() && caret.Stopped()
    {
      caret.Disable();
    }

    /** The view's subscription to the package's events. */
    method OnPackageEvent(e: PackageEvent)
      requires Valid()
      modifies caret`blinkState, caret`timerInterval, caret`timerEnabled
      modifies caret`hostCaretHidden, caret`rectangleVisible
      modifies caret`isAdornmentActive, caret`layerAdornments
      ensures Valid()
      ensures e == Enabled ==> caret.Restarted()
      ensures e == Disabled ==> caret.Stopped()
    {
      if e == Enabled {
        OnEnabled();
      } else {
        OnDisabled();
      }
    }
  }
}
