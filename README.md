# VSNvim core, modelled in Dafny

VSNvim embeds the Neovim engine in Visual Studio. The engine keeps its own
memline, a buffer of 1-based lines. The host keeps a text buffer, a sequence of
characters split into lines by line breaks. The bridge keeps the two in step.

- **Buffer adapter** (`VSNvimTextView`). Edits the engine makes to a line or a
  character come in by line number. They go to the host as span edits of its
  text buffer. After each edit the engine's `ML_EMPTY` flag is recomputed.
  Lines are read back as bytes, and the host caret and scroll position follow
  the engine's cursor and top line.
- **Caret** (`VSNvimCaret`). A rectangle over the host caret draws the engine's
  cursor shape. It blinks through the phases Inactive, Wait, On and Off, driven
  by a timer. It lives in an adornment layer that holds it at most once.
- **Bridge** (`VSNvimBridge`, `NvimLoop`).
  - Actions the host queues on the engine's main loop: a window resize and
    input.
  - The callbacks the engine makes into the current view.
  - The host-command hook, which splits a command into a name and arguments.
  - The UI callbacks: `mode_info_set` and `mode_change` turn the cursor-style
    dictionaries into caret options, and `flush` moves the view to the cursor.
- **Package** (`VSNvimPackage`). A global enable switch handled by three menu
  commands. Each handler raises one `Enabled` or `Disabled` event, and every
  view forwards that event to its caret.

## Modules

- `HostText`: bytes, host text, the byte/character conversion, C strings.
- `Machine`: the 64- and 32-bit integer types.
- `Snapshot`: the host's text snapshot.
  - The text splits into lines at `LF`, and `Lines` and `Join` invert each
    other.
  - `LineAt` gives a line's start, its end, and its end including the break.
  - `Insert`, `Replace` and `Delete` are the buffer edits.
  - Lemmas state how each edit changes the lines.
- `NvimLoop`: what the host sees of the engine.
  - The engine's state is the `EngineState` value: its windows, the UI height,
    how often the UI was refreshed, and the input it received.
  - The `Engine` class holds that state, the main-loop queue, the messages
    shown, and the memline flags. Its methods change it in place.
  - `Apply` and `ApplyAll` give the FIFO meaning of the queue.
- `VSNvimCaret`: the pure tick function of the blink phases and its lemmas, and
  the `Caret` class. The fields of `Caret` include the host objects it drives:
  the timer, the host caret's `IsHidden`, the rectangle's visibility, and how
  many times the layer holds the rectangle.
- `VSNvimTextView`: what each edit does to the host text, stated as functions,
  and the lemmas that say what it does to the lines. The `TextView` class holds
  the edits, their dispatched actions, `GetLine`, the cursor, scrolling and the
  layout deduplication.
- `VSNvimBridge`: the callback wrappers, the command split, the mode-dictionary
  scan, and the `Bridge` class holding the globals the UI callbacks keep.
- `VSNvimPackage`: the switch and its events.

## Model

| member | source | states |
|---|---|---|
| HostText.Decode | VSNvim/VSNvimTextView.cpp:66-69 | decoding bytes gives one character per byte, each standing for its byte |
| HostText.Encode | VSNvim/VSNvimTextView.cpp:179-180 | encoding host text gives one byte per character, each the character's code |
| HostText.EncodeDecode | VSNvim/VSNvimTextView.cpp:179-180 | encoding undoes decoding: bytes survive the round trip exactly |
| HostText.DecodeEncode | VSNvim/VSNvimTextView.cpp:66-69 | decoding undoes encoding on byte-range text |
| HostText.Strlen | VSNvim/VSNvimTextView.cpp:67-68 | the C-string length is the index of the first NUL: no NUL before it, a NUL at it |
| Snapshot.NextBreak | VSNvim/VSNvimTextView.cpp:25-30 | the end of the line starting at a position: the first break at or after it, or the text's end |
| Snapshot.LineCount | VSNvim/VSNvimTextView.cpp:25-30 | a snapshot always has at least one line, the empty text included |
| Snapshot.LineStart | VSNvim/VSNvimTextView.cpp:25-30 | host line k starts inside the text |
| Snapshot.Lines | VSNvim/VSNvimTextView.cpp:25-30 | the text has one line per line number |
| Snapshot.StartAfterBreak | VSNvim/VSNvimTextView.cpp:25-30 | every host line but the first starts right after a line break |
| Snapshot.LinesHaveNoBreak | VSNvim/VSNvimTextView.cpp:179-180 | the text of a line (`GetText`) never holds a line break |
| Snapshot.JoinLines | VSNvim/VSNvimTextView.cpp:25-30 | joining the lines with breaks gives back the text |
| Snapshot.LinesJoin | VSNvim/VSNvimTextView.cpp:25-30 | splitting break-free lines joined with breaks gives back those lines |
| Snapshot.LinesConcat | VSNvim/VSNvimTextView.cpp:25-30 | the lines of `a`, a break and `b` are the lines of `a` followed by those of `b` |
| Snapshot.LineAt | VSNvim/VSNvimTextView.cpp:25-30 | host line k's start, end and end-with-break: its text is line k; a line that is not the last ends at a break, and its break ends where line k+1 starts; the last line ends at the text's end |
| Snapshot.Insert | VSNvim/VSNvimTextView.cpp:82 | inserting keeps the text before and after the position and puts the new text in between |
| Snapshot.Replace | VSNvim/VSNvimTextView.cpp:101 | replacing a span keeps the text before and after it and puts the new text in its place |
| Snapshot.Delete | VSNvim/VSNvimTextView.cpp:135 | deleting a span keeps the text before and after it and nothing else |
| Snapshot.SetLineText | VSNvim/VSNvimTextView.cpp:95-103 | putting new break-free text in place of line k's text changes line k and no other |
| Snapshot.InsertLineAt | VSNvim/VSNvimTextView.cpp:75-84 | inserting `s` plus a break at the start of line k makes `s` line k and shifts the later lines down by one |
| Snapshot.InsertAtEnd | VSNvim/VSNvimTextView.cpp:75-84 | inserting `s` plus a break at the text's end lengthens the last line by `s` and adds an empty last line |
| Snapshot.ReplaceLineAt | VSNvim/VSNvimTextView.cpp:95-103 | replacing line k, break included, by `s` plus a break changes line k to `s`; replacing the last line adds an empty line after it |
| Snapshot.DeleteLineAt | VSNvim/VSNvimTextView.cpp:130-137 | deleting line k, break included, removes line k only; deleting the last line leaves an empty last line |
| Snapshot.EditInLine | VSNvim/VSNvimTextView.cpp:114-121 | replacing characters inside line k by break-free text changes line k only, and in exactly that place |
| VSNvimTextView.BufferFlags | VSNvim/VSNvimTextView.cpp:154-165 | `ML_EMPTY` is set exactly when the buffer is empty; every other flag bit stays |
| VSNvimTextView.LineFromNumber | VSNvim/VSNvimTextView.cpp:25-30 | engine line `lnum` is host line `lnum - 1`: that host line's start, text and break |
| VSNvimTextView.AppendedLength | VSNvim/VSNvimTextView.cpp:66-69 | the decoded length is `strlen(line)` when `len` is 0 and `len` otherwise |
| VSNvimTextView.WithBreak | VSNvim/VSNvimTextView.cpp:66-69 | the inserted text is the decoded bytes followed by exactly one line break |
| VSNvimTextView.AppendPosition | VSNvim/VSNvimTextView.cpp:79-81 | line 0 inserts at position 0; otherwise at the end of line `lnum` with its break, which is the start of the next line, or the text's end after the last line |
| VSNvimTextView.AppendLineText | VSNvim/VSNvimTextView.cpp:75-84 | the append keeps everything before and after the insertion point |
| VSNvimTextView.ReplaceLineText | VSNvim/VSNvimTextView.cpp:95-103 | the replace changes exactly the span of line `lnum`, break included; what comes before and after it stays |
| VSNvimTextView.DeleteLineText | VSNvim/VSNvimTextView.cpp:130-137 | the delete removes exactly the span of line `lnum`, break included |
| VSNvimTextView.ReplaceCharText | VSNvim/VSNvimTextView.cpp:114-121 | the one character at line start + `col` becomes the new text; the buffer length changes by the new text's length minus one |
| VSNvimTextView.DeleteCharText | VSNvim/VSNvimTextView.cpp:146-152 | the one character at line start + `col` goes; the buffer shortens by one |
| VSNvimTextView.LineBytes | VSNvim/VSNvimTextView.cpp:172-184 | the bytes `GetLine` hands over decode to the text of host line `lnum - 1`, break excluded |
| VSNvimTextView.AppendLines | VSNvim/VSNvimTextView.cpp:63-84 | after appending `s` below engine line `lnum`, `s` is engine line `lnum + 1` and the other lines keep their order; below the host's last line, `s` lengthens that line and an empty line follows |
| VSNvimTextView.AppendThenGetLine | VSNvim/VSNvimTextView.cpp:63-84 | appending break-free bytes at line 0 and then reading line 1 gives back those bytes |
| VSNvimTextView.AppendClearsEmpty | VSNvim/VSNvimTextView.cpp:69 | every append leaves the buffer non-empty, so `ML_EMPTY` ends up clear |
| VSNvimTextView.DeleteOnlyLineEmpties | VSNvim/VSNvimTextView.cpp:130-160 | a buffer without a break is one line; deleting it empties the buffer and `ML_EMPTY` ends up set |
| VSNvimTextView.ReplaceLines | VSNvim/VSNvimTextView.cpp:86-103 | replacing engine line `lnum` changes that line only (an empty line follows when it was the last) |
| VSNvimTextView.DeleteLines | VSNvim/VSNvimTextView.cpp:123-137 | deleting engine line `lnum` removes that line only (an empty last line remains when it was the last) |
| VSNvimTextView.ReplaceCharLines | VSNvim/VSNvimTextView.cpp:114-121 | replacing a character inside line `lnum` by one break-free character changes only that line, at `col`, and keeps its length |
| VSNvimTextView.DeleteCharLines | VSNvim/VSNvimTextView.cpp:146-152 | deleting a character inside line `lnum` changes only that line, removing the character at `col` |
| VSNvimTextView.ReplaceCharArgsAsWritten | VSNvim/VSNvimTextView.cpp:108-111 | as written, the third argument handed to the dispatcher is the raw byte |
| VSNvimTextView.ReplaceCharAsWrittenRejected | VSNvim/VSNvimTextView.cpp:109-111 | a raw byte cannot fill the action's string parameter, so every such call fails |
| VSNvimTextView.ReplaceCharArgs | VSNvim/VSNvimTextView.cpp:108 | the third argument is the decoded string |
| VSNvimTextView.ReplaceCharArgsAccepted | VSNvim/VSNvimTextView.cpp:108-111 | the decoded string fits the action's parameters and is the one character standing for the byte |
| VSNvimTextView.TextView.constructor | VSNvim/VSNvimTextView.cpp:45-61 | a new view holds no line, has dispatched nothing, and its caret is fresh and inactive |
| VSNvimTextView.TextView.AppendLine | VSNvim/VSNvimTextView.cpp:63-73 | dispatches one append carrying the decoded line plus a break, and the buffer becomes `AppendLineText` of the old one |
| VSNvimTextView.TextView.AppendLineAction | VSNvim/VSNvimTextView.cpp:75-84 | the buffer becomes `AppendLineText` of the old one, and `ML_EMPTY` ends up clear |
| VSNvimTextView.TextView.ReplaceLine | VSNvim/VSNvimTextView.cpp:86-93 | dispatches one replace carrying the decoded C string plus a break |
| VSNvimTextView.TextView.ReplaceLineAction | VSNvim/VSNvimTextView.cpp:95-103 | the buffer becomes `ReplaceLineText` of the old one, and the flags follow the new length |
| VSNvimTextView.TextView.ReplaceChar | VSNvim/VSNvimTextView.cpp:105-112 | dispatches one character replace carrying the decoded character (the corrected argument) |
| VSNvimTextView.TextView.ReplaceCharAction | VSNvim/VSNvimTextView.cpp:114-121 | the buffer becomes `ReplaceCharText` of the old one, and the flags follow the new length |
| VSNvimTextView.TextView.DeleteLine | VSNvim/VSNvimTextView.cpp:123-128 | dispatches one line delete |
| VSNvimTextView.TextView.DeleteLineAction | VSNvim/VSNvimTextView.cpp:130-137 | the buffer becomes `DeleteLineText` of the old one, and the flags follow the new length |
| VSNvimTextView.TextView.DeleteChar | VSNvim/VSNvimTextView.cpp:139-144 | dispatches one character delete |
| VSNvimTextView.TextView.DeleteCharAction | VSNvim/VSNvimTextView.cpp:146-152 | the buffer becomes `DeleteCharText` of the old one, and the flags follow the new length |
| VSNvimTextView.TextView.SetBufferFlags | VSNvim/VSNvimTextView.cpp:154-165 | the engine's flags become `BufferFlags` of the old flags and whether the buffer is empty |
| VSNvimTextView.TextView.GetLine | VSNvim/VSNvimTextView.cpp:172-184 | releases the line held before, so exactly one line is pinned afterwards; returns the line's bytes |
| VSNvimTextView.TextView.GetPhysicalLinesCount | VSNvim/VSNvimTextView.cpp:262-269 | the count of intersecting view lines, never less than 1 |
| VSNvimTextView.TextView.CursorGoto | VSNvim/VSNvimTextView.cpp:186-192 | dispatches one cursor move; the caret's position and blink end as `CursorGotoAction` states |
| VSNvimTextView.TextView.CursorGotoAction | VSNvim/VSNvimTextView.cpp:194-203 | a closed view or one being laid out changes nothing; otherwise the caret lands at line start + `col`; a real move from a phase other than Inactive restarts the blink (phase Wait, rectangle shown, host caret hidden, timer running unless the wait is zero, rectangle held once), and otherwise the caret is untouched |
| VSNvimTextView.TextView.MoveCaretTo | VSNvim/VSNvimTextView.cpp:202 | the caret moves to the position; a real move from a phase other than Inactive restarts the blink (phase Wait, rectangle shown, host caret hidden, timer running unless the wait is zero, rectangle held once), and otherwise the caret is untouched |
| VSNvimTextView.TextView.Scroll | VSNvim/VSNvimTextView.cpp:271-276 | dispatches one scroll |
| VSNvimTextView.TextView.ScrollAction | VSNvim/VSNvimTextView.cpp:278-283 | the view shows host line `lnum - 1` at its top |
| VSNvimTextView.TextView.OnLayoutChanged | VSNvim/VSNvimTextView.cpp:225-260 | the rectangle goes back into the layer; a resize is queued only when the top line differs from the one recorded, which then becomes the recorded one |
| VSNvimTextView.TextView.OnEnabled | VSNvim/VSNvimTextView.cpp:215-218 | the caret restarts: phase Wait, rectangle shown, host caret hidden, timer running unless the wait is zero, rectangle held once; only the caret's phase-derived fields change |
| VSNvimTextView.TextView.OnDisabled | VSNvim/VSNvimTextView.cpp:220-223 | the caret stops: phase Inactive, rectangle hidden, host caret shown, timer off, rectangle still held once; only the caret's phase-derived fields change |
| VSNvimTextView.TextView.OnPackageEvent | VSNvim/VSNvimTextView.cpp:57-60 | an `Enabled` event restarts the caret as `OnEnabled` states, a `Disabled` one stops it as `OnDisabled` states |
| VSNvimCaret.NextOnTick | VSNvim/VSNvimCaret.cpp:84-101 | a tick maps On and Wait to Off, Off to On, Inactive to Inactive |
| VSNvimCaret.BlinkSchedule | VSNvim/VSNvimCaret.cpp:84-101 | from Wait, ticks alternate Off, On, Off, … with the rectangle off after every odd tick |
| VSNvimCaret.AlternatesFromOff | VSNvim/VSNvimCaret.cpp:84-101 | from Off, an even number of ticks gives Off and an odd number On |
| VSNvimCaret.InactiveIsClosed | VSNvim/VSNvimCaret.cpp:84-101 | ticks never leave Inactive and never reach it from another phase |
| VSNvimCaret.Caret.constructor | VSNvim/VSNvimCaret.cpp:13-37 | a new caret is Inactive with its timer off and the rectangle added to the layer once |
| VSNvimCaret.Caret.CreateCaretAdornment | VSNvim/VSNvimCaret.cpp:103-114 | the rectangle held before is removed first, so the layer holds it exactly once and `is_adornment_active_` is set |
| VSNvimCaret.Caret.RemoveAdornment | VSNvim/VSNvimCaret.cpp:107 | the layer lets the rectangle go and calls back, clearing `is_adornment_active_` |
| VSNvimCaret.Caret.OnAdornmentRemoved | VSNvim/VSNvimCaret.cpp:146-150 | the callback clears `is_adornment_active_` |
| VSNvimCaret.Caret.LayerDropsAdornment | VSNvim/VSNvimCaret.cpp:110-114 | when the layer drops the rectangle on its own, the bookkeeping still matches the layer |
| VSNvimCaret.Caret.SetState | VSNvim/VSNvimCaret.cpp:39-52 | requires a blink wait the host's timer accepts; the timer interval is the blink wait; the timer runs iff the phase is not Inactive and the wait is non-zero; the host caret is hidden iff not Inactive; the rectangle shows iff Wait or On |
| VSNvimCaret.Caret.SetOptions | VSNvim/VSNvimCaret.cpp:54-70 | requires a blink wait the host's timer accepts (0 to `Int32.MaxValue` ms); stores the percentages and durations; the phase becomes Wait when enabled and Inactive otherwise, whatever it was; a zero wait leaves the timer off |
| VSNvimCaret.Caret.OnPositionChanged | VSNvim/VSNvimCaret.cpp:72-82 | an Inactive caret changes nothing; any other phase restarts the blink: Wait, rectangle shown over the hidden host caret, timer running unless the wait is zero, rectangle held once |
| VSNvimCaret.Caret.OnBlinkTimerTick | VSNvim/VSNvimCaret.cpp:84-101 | the phase becomes `NextOnTick` of the old one, with the derived state following |
| VSNvimCaret.Caret.Enable | VSNvim/VSNvimCaret.cpp:136-139 | the phase becomes Wait whatever it was, the rectangle shows over the hidden host caret, the timer runs unless the wait is zero, and the layer holds the rectangle once |
| VSNvimCaret.Caret.Disable | VSNvim/VSNvimCaret.cpp:141-144 | the phase becomes Inactive whatever it was, the rectangle hides, the host caret shows, the timer stops, and the layer still holds the rectangle once |
| NvimLoop.Apply | VSNvim/VSNvimBridge.cpp:31-54 | running a queued action keeps the set of windows |
| NvimLoop.ResizeEffect | VSNvim/VSNvimBridge.cpp:34-44 | a resize sets the window's top and bottom lines, leaves the UI height equal to the window height, refreshes exactly when the height changed, and leaves other windows and the input alone |
| NvimLoop.ResizeIdempotent | VSNvim/VSNvimBridge.cpp:39-43 | running the same resize twice is running it once |
| NvimLoop.DrainFeedsInputsInOrder | VSNvim/VSNvimBridge.cpp:47-54 | draining the queue feeds the engine exactly the queued inputs, in queue order |
| NvimLoop.ApplyAllConcat | VSNvim/VSNvimBridge.cpp:15-29 | actions queued later run after those queued earlier |
| NvimLoop.Engine.constructor | VSNvim/VSNvimBridge.cpp:225-229 | the attached UI starts one row high with nothing queued |
| NvimLoop.Engine.QueueNvimAction | VSNvim/VSNvimBridge.cpp:15-29 | schedules exactly one event, holding the callback |
| NvimLoop.Engine.ResizeWindow | VSNvim/VSNvimBridge.cpp:31-45 | queues exactly one resize of the window with the given lines and height |
| NvimLoop.Engine.SendInput | VSNvim/VSNvimBridge.cpp:47-54 | queues exactly one input with the exact bytes |
| NvimLoop.Engine.RunNextEvent | VSNvim/VSNvimBridge.cpp:22-25 | the oldest event runs once and leaves the queue; the engine state becomes `Apply` of the old one |
| NvimLoop.Engine.RunResize | VSNvim/VSNvimBridge.cpp:34-44 | the resize callback's effect is `Apply` of the resize |
| VSNvimBridge.SkipBlanks | VSNvim/VSNvimBridge.cpp:118-119 | the next position at or after `i` that holds no blank |
| VSNvimBridge.WordEnd | VSNvim/VSNvimBridge.cpp:118-119 | the next position at or after `i` that holds a blank |
| VSNvimBridge.SplitCommand | VSNvim/VSNvimBridge.cpp:118-123 | at most two parts, none empty; no part exactly when the command is all blanks; the first part is one word; the second is a suffix of the command, starts with no blank and follows a blank |
| VSNvimBridge.SplitCommandOf | VSNvim/VSNvimBridge.cpp:118-127 | blanks, a word, blanks and a rest split into that word and that rest, or into the word alone when there is no rest |
| VSNvimBridge.CommandOf | VSNvim/VSNvimBridge.cpp:120-127 | no split, no command; otherwise the name is part 0 and the arguments part 1, empty exactly when there is one part |
| VSNvimBridge.LastIndex | VSNvim/VSNvimBridge.cpp:180-205 | the last entry below `n` with the key, and no later one has it |
| VSNvimBridge.ToInt32 | VSNvim/VSNvimBridge.cpp:191 | `static_cast<int>` keeps the value modulo 2^32, and every value in range as it is |
| VSNvimBridge.ScanStep | VSNvim/VSNvimBridge.cpp:182-204 | one more entry overrides the value of its own key and of no other |
| VSNvimBridge.ScanModeInfo | VSNvim/VSNvimBridge.cpp:174-222 | the loop yields the options the last-key-wins scan gives: defaults 100 and 0, with the shape picking the axis the cell percentage applies to |
| VSNvimBridge.DefaultOptions | VSNvim/VSNvimBridge.cpp:175-178 | a dictionary without the keys gives percentage 100 on both axes and no blinking |
| VSNvimBridge.LastKeyWins | VSNvim/VSNvimBridge.cpp:180-205 | a later entry for a key overrides the earlier ones; an entry for another key changes nothing |
| VSNvimBridge.ShapeSelectsAxis | VSNvim/VSNvimBridge.cpp:218-219 | `horizontal` gives the percentage to the horizontal argument, `vertical` to the vertical one, any other shape neither, and the other argument is 100 |
| VSNvimBridge.Bridge.constructor | VSNvim/VSNvimBridge.cpp:146-147 | nothing is stored before `mode_info_set` runs |
| VSNvimBridge.Bridge.ModeInfoSet | VSNvim/VSNvimBridge.cpp:242-252 | `cursor_enabled_` and the style array are replaced wholesale |
| VSNvimBridge.Bridge.NvimModeChange | VSNvim/VSNvimBridge.cpp:167-223 | the caret takes the scanned options, with `enabled` the stored `cursor_enabled_`: its phase is Wait when enabled and Inactive otherwise, the rectangle and the hidden host caret follow `enabled`, the timer runs iff enabled with a non-zero wait, and the layer holds the rectangle once |
| VSNvimBridge.Bridge.Flush | VSNvim/VSNvimBridge.cpp:254-262 | the view gets a cursor move to the current window's cursor, then a scroll to its top line, in that order; the caret lands on the cursor unless the view is closed or being laid out, and a real move restarts the blink unless the caret is inactive |
| VSNvimBridge.Bridge.ExecuteCommand | VSNvim/VSNvimBridge.cpp:113-144 | an all-blank command runs nothing; otherwise one host command with its name and arguments runs, and a failure turns into exactly one generic error message |
| VSNvimBridge.GetLineCallback | VSNvim/VSNvimBridge.cpp:64-67 | forwards to `GetLine`: returns the line's bytes, which the pinned slot now holds |
| VSNvimBridge.AppendLineCallback | VSNvim/VSNvimBridge.cpp:69-74 | forwards the append, with its dispatch record and the new text, leaves `ML_EMPTY` clear, and returns true |
| VSNvimBridge.DeleteLineCallback | VSNvim/VSNvimBridge.cpp:76-80 | forwards the line delete, with its dispatch record, the new text, and `ML_EMPTY` set exactly when the buffer is now empty, and returns true |
| VSNvimBridge.DeleteCharCallback | VSNvim/VSNvimBridge.cpp:82-87 | forwards the character delete, with its dispatch record, the new text, and `ML_EMPTY` set exactly when the buffer is now empty, and returns true |
| VSNvimBridge.ReplaceLineCallback | VSNvim/VSNvimBridge.cpp:89-94 | forwards the line replace, with its dispatch record, the new text, and `ML_EMPTY` set exactly when the buffer is now empty, and returns true |
| VSNvimBridge.ReplaceCharCallback | VSNvim/VSNvimBridge.cpp:96-101 | forwards the character replace (the corrected argument), with its dispatch record, the new text, and `ML_EMPTY` set exactly when the buffer is now empty, and returns true |
| VSNvimBridge.PlinesWinNofold | VSNvim/VSNvimBridge.cpp:108-111 | the row count of a line: the number of view lines that intersect it, or exactly 1 when none does |
| VSNvimPackage.EventFor | VSNvim/VSNvimPackage.cpp:40-47 | the event is `Enabled` exactly when the switch is on |
| VSNvimPackage.Toggle | VSNvim/VSNvimPackage.cpp:37-48 | a toggle negates the switch and announces the new value |
| VSNvimPackage.TwoTogglesRestore | VSNvim/VSNvimPackage.cpp:37-48 | two toggles restore the switch and raise one `Enabled` and one `Disabled` event |
| VSNvimPackage.Package.constructor | VSNvim/VSNvimPackage.h:25 | the switch starts at the given value and no event has been raised |
| VSNvimPackage.Package.SetEnabled | VSNvim/VSNvimPackage.cpp:25-29 | the switch is on, and exactly one `Enabled` event is raised |
| VSNvimPackage.Package.SetDisabled | VSNvim/VSNvimPackage.cpp:31-35 | the switch is off, and exactly one `Disabled` event is raised |
| VSNvimPackage.Package.ToggledEnabled | VSNvim/VSNvimPackage.cpp:37-48 | the switch is negated, and exactly one event is raised: `Enabled` iff the switch is now on |

## Left out

- Threads. `Dispatcher->Invoke` is a plain synchronous call, and each call it
  receives is recorded in `dispatched`. The engine's thread and
  `loop_schedule` are not modelled; the main-loop queue is a FIFO sequence.
- UTF-8 and UTF-16. Both conversions are the identity between bytes and
  characters below 256, so multi-byte sequences are not modelled.
- `Environment::NewLine` is a single `LF`, and the host snapshot breaks lines
  only at `LF`. Carriage returns are not modelled.
- Host exceptions become preconditions. `GetLineFromLineNumber` outside the
  snapshot, a span past the buffer's end, a negative decode length,
  `MoveTo` past the end, and a blink-timer interval below 0 ms or above
  `Int32.MaxValue` ms are all excluded by `requires`.
- Pinning. The pinned handle is a single optional slot with a count of pinned
  buffers. `GetLine` hands over the bytes themselves; the pointer, and whether
  a NUL follows the bytes, are not modelled.
- Host layout. `OnLayoutChanged` takes the top line, bottom line and window
  height as parameters. The visibility-state search and the `double`-to-`int`
  height are left out. `GetPhysicalLinesCount` takes the number of view lines
  that intersect the line as a parameter.
- VSNvimCaret.Caret.CreateCaretAdornment: the adornment layer is assumed to
  accept every `AddAdornment`. The code ignores its result and sets
  `is_adornment_active_` regardless, so "the layer holds the rectangle exactly
  once" holds under that assumption only.
- Caret geometry. `CreateCaretAdornment`'s pixel geometry and WPF rendering
  are left out, and so are brushes and `GetSelectedTextColor`.
- VSNvimCaret.Caret.SetOptions: the percentages are exact rational numbers, so
  the rounding of `/ 100.` in `double` is not modelled.
- VSNvimCaret.Caret.OnBlinkTimerTick: the duration `blink_on_` and
  `blink_off_` would give each phase is not modelled: those fields are stored
  and the timer interval stays `blink_wait_`, as the code does.
- The initial blink phase is taken to be `Inactive`, the enumeration's default
  value. The constructor does not set `blink_state_`, and
  VSNvim/VSNvimCaretBlinkState.h is not part of this model.
- VSNvimTextView.TextView.MoveCaretTo: the host's `PositionChanged` event is
  taken to fire exactly when the caret position changes. The host's own
  position tracking through edits is not modelled: `caretPosition` does not
  follow later edits.
- Engine internals. `nvim_input`, `ui_refresh`, `emsg` and the host's
  `ExecuteCommand` record only what they receive. `ExecuteCommand` takes a
  `hostFails` flag for whether the host throws. The service-provider lookup is
  not modelled.
- `nvim::curbuf` and `nvim::curwin` become parameters and fields. The view of
  the current buffer is passed to `NvimModeChange` and `Flush`, and the current
  buffer's flags are `Engine.mlFlags`.
- The mode dictionaries are well typed: the shape is a string and the integer
  keys hold integers, and `blinkwait` lies between 0 and `Int32.MaxValue`, the
  range of the host's timer interval. The code reads the value's union without checking its
  type. `mode_index` must lie within the stored styles.
- VSNvim/TextViewCreationListener.cpp, `vsnvim_init_buffers`, the
  `hl_attr_define`, `stop` and `ui_ext` setup of `vsnvim_ui_start`, and the
  package's `Initialize` are lifecycle and service plumbing. They are not part
  of this model.
- The enable gates do not compose. `Enable` sets Wait even when the engine
  reported `cursor_enabled_` false; the model does what the code does.
- The header declares the switch as a static `Enabled = true`
  (VSNvim/VSNvimPackage.h:25), while the handlers use `IsEnabled`. The model
  follows the handlers and takes the initial value as the constructor's
  parameter.

## Findings

| source | as written | input that shows it | evidently intended | confidence | as-written member | corrected member |
|---|---|---|---|---|---|---|
| VSNvim/VSNvimTextView.cpp:108-111 | `ReplaceChar` decodes `chr` into `utf16_char` but hands the raw `chr` to `Dispatcher->Invoke`, whose action takes a `String^` | any call, e.g. `ReplaceChar(1, 0, 'x')`: a boxed byte does not fill a string parameter, so the invocation fails and the character is never replaced | hand `utf16_char` to the action | high (types as declared), not executed | VSNvimTextView.ReplaceCharAsWrittenRejected | VSNvimTextView.ReplaceCharArgsAccepted |
