# pocket-terminal: the terminal screen as a verified model

pocket-terminal runs a small shell on a 128x128 LCD driven by a joystick and three
keys (`terminal.py`). This project models the terminal part of the program in Dafny:

- the state object `Terminal`, with the screen selection it shares with `PocketTerminal`;
- the handlers that edit the command line through the on-screen keyboard;
- browsing the command history and scrolling the output;
- `execute_command`, with the `cd`, `clear`, `pwd` and `exit` built-ins and the start of a
  shell command;
- the reader `read_pty_output`, which turns the child's output into display lines of 21
  characters, flushes the leftover and appends `Done!` or `Exit:<code>`;
- the arithmetic that wraps the command line under the output and places the caret;
- the pure parts of the Wi-Fi screen (interface detection and the scan parser) and the
  index arithmetic of the main menu and the settings screen.

Layout:

- `text.dfy` (module `Text`): the 21-character line width of the screen, and the Python
  string built-ins the program relies on — `isspace`, `strip`, `split()`, `split(sep)`,
  `s[:n]`, `s[n:]`, `replace` and `str(int)`.
- `output.dfy` (module `OutputBuffer`): how the reader cuts and wraps output, the flush,
  the exit marker, and the visible window.
- `keyboard.dfy`, `editor.dfy` and `inputview.dfy`: the keyboard grid, the two edits it
  makes, and the wrap and caret arithmetic.
- `commands.dfy` (module `Commands`): the echo, the classification of a command, and
  `cd`.
- `state.dfy` (module `TerminalState`): the state as a value and one function per
  handler branch; the properties of the program are proved about these functions.
- `session.dfy` (module `Session`): the class `Terminal`, whose methods make the
  source's assignments in place, in the source's order. Each method is proved to end in
  the state the matching `TerminalState` function describes.
- `network.dfy` (module `Network`): `detect_wlan_interfaces`, `get_current_wlan` and
  `scan_wifi`, including the two loops of `scan_wifi` as methods.
- `menus.dfy` (module `Menus`): the menu, settings, theme and brightness indices.

Operating-system effects are parameters:

- the home lookup of user `pi` is a `Lookup` value;
- `os.chdir` followed by `os.getcwd` is a function `string -> ChdirOutcome`;
- how far starting a shell command got is a `SpawnOutcome`;
- whether `killpg` succeeded is a `bool`;
- the child's output is the sequence of reads the reader makes before the child exits;
- the return code is an `Option<int>`;
- the output of `ls` and `nmcli` is an `Option<string>`, `None` when the run raised.

Behaviour of the code worth noting:

- A shell command started while another still runs replaces the process; nothing
  refuses it (`TerminalState.ExecuteShell`).
- The echo and the history push happen for every non-blank command, built-ins included.
- A `'\r'` is a line terminator only when the buffer holds no `'\n'` at all. A `'\r'`
  before a later `'\n'` stays inside the line, so the lines depend on how the output
  was split into reads (`OutputBuffer.ChunkingChangesLines`).
- A read error other than `OSError` ends the reader without an error line.
- The flush after the child exits truncates each leftover line to 21 characters, where
  the reader loop wraps its lines into pieces of 21.
- RIGHT in the history while not browsing changes nothing.
- A bare `cd` whose home directory is missing prints the text of an `IndexError`
  (`Commands.BareCdMissingHome`).
- A single signal that `int()` rejects empties the whole Wi-Fi scan
  (`Network.ScanNetworksShape`).

## Model

| member | source | states |
|---|---|---|
| `Text.Take` | terminal.py:1160 | `s[:n]` is a prefix of `s` of length `min(n, len(s))` |
| `Text.Drop` | terminal.py:393-396 | `s[n:]` has `len(s) - n` characters, or none, and `s[:n] + s[n:]` is `s` |
| `Text.Strip` | terminal.py:1158 | `strip()` is no longer than its input, is empty exactly when the input is all whitespace, and otherwise starts and ends with a non-whitespace character |
| `Text.StripIsSlice` | terminal.py:1158 | `strip()` is the slice of the input between its leading and its trailing whitespace, and everything outside that slice is whitespace |
| `Text.StripKeepsAbsence` | terminal.py:1251 | stripping never introduces a character that was absent |
| `Text.StripIdempotent` | terminal.py:1268-1271 | stripping a stripped string changes nothing |
| `Text.StrippedIsFixed` | terminal.py:1158 | a string with no whitespace at either end is its own strip |
| `Text.Chunks` | terminal.py:1253-1257 | every piece of the wrapping loop holds between 1 and `w` characters |
| `Text.ChunksSpell` | terminal.py:1253-1257 | the pieces concatenate back to the text, and all but the last are exactly `w` wide |
| `Text.ChunksCount` | terminal.py:1253-1257 | a non-empty text gives ceil(len / w) pieces and an empty one none |
| `Text.ChunkAt` | terminal.py:393-396 | character `q*w + r` of the text is character `r` of piece `q` |
| `Text.ChunksPrefix` | terminal.py:393-396 | the first `k` pieces (short of the last) hold exactly `k*w` characters |
| `Text.Words` | terminal.py:1166 | `split()` yields non-empty whitespace-free words, and none exactly when the text is blank |
| `Text.WordsWeave` | terminal.py:1166 | the text is its `split()` words, in order, woven with the whitespace runs around them |
| `Text.GapsBlank` | terminal.py:1166 | the runs between and around the words hold only whitespace |
| `Text.InnerGapsNonEmpty` | terminal.py:1166 | two consecutive words are separated by at least one whitespace character, so each word is a maximal run |
| `Text.WordsSpellNonSpace` | terminal.py:1166 | the words joined together are exactly the text's non-whitespace characters, in order |
| `Text.FirstWord` | terminal.py:1170 | the first word of a text starting with a non-space is its leading run of non-spaces |
| `Text.Find` | terminal.py:1245-1249 | the index of the first occurrence of a character, or the length when there is none |
| `Text.FindUnique` | terminal.py:1245-1249 | an index holding the character with no earlier occurrence is the one `Find` returns |
| `Text.SplitOn` | terminal.py:1268 | `split(sep)` gives at least one part, no part holds `sep`, and joining the parts with `sep` restores the text |
| `Text.ReplaceAll` | terminal.py:1179 | `replace` removes every occurrence when the replacement lacks the character, and leaves a text without it unchanged |
| `Text.ReplaceAllPieces` | terminal.py:1179 | `replace` puts the replacement in place of every occurrence and keeps every other character, in order |
| `Text.NatToString` | terminal.py:1278 | `str(n)` of a natural number is non-empty ASCII digits with no leading zero |
| `Text.IntToString` | terminal.py:1278 | `str(n)` is non-empty and starts with `-` exactly when `n` is negative |
| `Text.NatToStringRoundTrip` | terminal.py:1278 | the digits of `str(n)` read back as `n` |
| `Text.IntToStringRoundTrip` | terminal.py:1278 | `int(str(n)) == n` for every integer |
| `OutputBuffer.NoBreakIff` | terminal.py:1245 | the inner loop stops exactly when the buffer holds neither `'\n'` nor `'\r'` |
| `OutputBuffer.CutPoint` | terminal.py:1246-1249 | the cut is at an index inside the buffer: the first `'\n'` if any, else the first `'\r'` |
| `OutputBuffer.SegmentRoundTrip` | terminal.py:1251-1257 | a segment's lines are non-empty and at most 21 wide, spell the stripped segment, and number ceil(n / 21) |
| `OutputBuffer.Cut` | terminal.py:1245-1249 | after the inner loop the buffer holds no terminator and is no longer than before |
| `OutputBuffer.Drain` | terminal.py:1245-1257 | after a read the carried buffer holds no `'\n'` or `'\r'`, and every appended line is a display line |
| `OutputBuffer.DrainStep` | terminal.py:1245-1257 | one turn of the inner loop emits the lines of the segment before the cut, then those of the text after it |
| `OutputBuffer.DrainCollect` | terminal.py:1245-1257 | the lines collected so far plus what the buffer still yields are unchanged by one turn of the loop |
| `OutputBuffer.DrainNoBreak` | terminal.py:1245 | without a terminator the buffer is kept and nothing is appended |
| `OutputBuffer.CutRebuilds` | terminal.py:1245-1249 | the segments, each followed by the terminator it was cut at, then the leftover, spell the buffer again: the inner loop loses only terminators |
| `OutputBuffer.CutTerminatorsBreak` | terminal.py:1245-1249 | every segment is cut at a `'\n'` or a `'\r'` |
| `OutputBuffer.CutSegmentsClean` | terminal.py:1245-1249 | no segment holds a `'\n'`, and a segment cut at a `'\r'` holds no `'\r'` |
| `OutputBuffer.CutRestIsSuffix` | terminal.py:1247-1249 | the carried buffer is the unterminated tail of the text read |
| `OutputBuffer.DrainRestLacks` | terminal.py:1243-1249 | a character absent from the text read is absent from the carried buffer |
| `OutputBuffer.CutAtNewline` | terminal.py:1246-1247 | the first `'\n'` cuts the buffer, whatever `'\r'` come before it |
| `OutputBuffer.CarriageReturnBeforeNewline` | terminal.py:1246-1251 | a `'\r'` before a later `'\n'` stays inside the segment |
| `OutputBuffer.CutAtCarriageReturn` | terminal.py:1248-1249 | with no `'\n'` anywhere, the first `'\r'` cuts the buffer |
| `OutputBuffer.CutAppend` | terminal.py:1243-1249 | without `'\r'`, cutting `b + c` gives the segments of `b`, then those of its leftover followed by `c` |
| `OutputBuffer.DrainAppend` | terminal.py:1240-1257 | without `'\r'`, splitting the stream into two reads changes neither the lines nor the leftover |
| `OutputBuffer.ChunkingChangesLines` | terminal.py:1240-1257 | with a `'\r'` the split into reads matters: one read and two reads of the same text give different lines |
| `OutputBuffer.OneReadKeepsCarriageReturn` | terminal.py:1246-1251 | a text whose only `'\n'` ends it is one segment, `'\r'` included |
| `OutputBuffer.TwoReadsSplitAtCarriageReturn` | terminal.py:1248-1249 | the same text read without its `'\n'` is cut at the `'\r'`, and the later `'\n'` ends the second part |
| `OutputBuffer.OneSegmentDiffers` | terminal.py:1251-1257 | the lines of `x + '\r' + y` differ from the lines of `x` followed by those of `y` |
| `OutputBuffer.Pump` | terminal.py:1240-1259 | over any reads, every appended line is a display line and, after at least one read, the carried buffer holds no terminator |
| `OutputBuffer.PumpSnoc` | terminal.py:1240-1243 | one more read drains the carried buffer with the new text appended |
| `OutputBuffer.PumpIsDrain` | terminal.py:1240-1259 | without `'\r'`, the lines collected read by read are those of the whole stream read at once |
| `OutputBuffer.FlushLine` | terminal.py:1269-1271 | a part of the leftover gives no line when blank, else one stripped line truncated to 21 |
| `OutputBuffer.KeepNonBlank` | terminal.py:1269-1271 | the flush appends display lines only, at most one per part |
| `OutputBuffer.FlushAtMostOneLine` | terminal.py:1267-1271 | a leftover without `'\n'` flushes at most one line: the stripped leftover cut to 21 characters |
| `OutputBuffer.ExitMarkerCases` | terminal.py:1273-1278 | one marker line iff the code is known; `Done!` iff it is 0; otherwise `Exit:` and a number that reads back as the code |
| `OutputBuffer.SliceBound` | terminal.py:373 | Python's slice-bound normalisation lands inside the sequence |
| `OutputBuffer.VisibleWindow` | terminal.py:368-373 | with the offset in range, the window holds `min(6, n)` lines and ends `offset` lines before the newest |
| `Keyboard.RowWidths` | terminal.py:140-155 | every character row has 10 keys and the bottom row 7 |
| `Keyboard.FirstKeyOfPage` | terminal.py:855-857 | the top-left key, where MORE and opening the keyboard put the selection, exists on both pages |
| `Keyboard.KeyAt` | terminal.py:832-836 | the selected key is a character key exactly on rows 0-3 |
| `Keyboard.Typed` | terminal.py:859-861 | caps lock upper-cases lower-case letters and leaves every other key as it is |
| `Keyboard.LettersOnlyOnFirstPage` | terminal.py:140-153 | the only letters on the keyboard are the lower-case ones of page 0 |
| `Editor.InsertAt` | terminal.py:862 | the line grows by one with the character at the cursor and the text on both sides kept |
| `Editor.DeleteBefore` | terminal.py:845 | the line shrinks by one with the character before the cursor gone and the rest kept |
| `Editor.DeleteUndoesInsert` | terminal.py:843-863 | backspace right after typing a character restores the line |
| `Editor.InsertUndoesDelete` | terminal.py:843-863 | typing the character just deleted restores the line |
| `InputView.DisplayText` | terminal.py:383 | the shown text has the input's length with every space drawn as `_` |
| `InputView.InputLinesShape` | terminal.py:385-396 | there is always a first line of at most 18 characters, further lines hold 1 to 21, the lines spell the text, and their number is ceil of the overflow / 21 plus one |
| `InputView.WrapInput` | terminal.py:385-396 | the wrapping loop produces exactly those lines |
| `InputView.VisibleInput` | terminal.py:398 | the drawn input lines are the last `min(3, n)` wrapped lines |
| `InputView.CaretBeforeCharacter` | terminal.py:411-419 | for a cursor inside the text, the caret names an existing line and the position of the character at the cursor, except at 18, where it stays at the end of the first line |
| `InputView.CaretAtEnd` | terminal.py:411-419 | at the end of the text the caret follows the last character, except when the overflow is an exact multiple of 21: it then names a line that does not exist |
| `InputView.VisibleCaretRow` | terminal.py:421-423 | the caret is drawn exactly when its line is among the drawn ones, on the row showing that line |
| `Commands.InitialDir` | terminal.py:42-46 | the start directory is the home of `pi`, or `/home/pi` when the lookup fails |
| `Commands.EchoLineShape` | terminal.py:1160 | the echo starts with `pi$ `, then as much of the command as fits 21 characters |
| `Commands.Classify` | terminal.py:1166-1206 | the arguments of `cd` are the words after the first |
| `Commands.ClassifyCases` | terminal.py:1170-1206 | `cd` is recognised by its first word; `clear`, `pwd` and `exit` only as the whole command |
| `Commands.JoinPathShape` | terminal.py:1183 | the joined path starts with the base, ends with the name, and has one `/` between them unless the base already ends in one |
| `Commands.ResolveHomeRelative` | terminal.py:1178-1179 | `~/rest` with no other `~` resolves to the home followed by `/rest` |
| `Commands.ResolvedIsAbsolute` | terminal.py:1176-1183 | with an absolute home and working directory, every target resolves to an absolute path |
| `Commands.CdOutcome` | terminal.py:1170-1195 | every `cd` prints one display line starting `-> `, `No dir: ` or `Err`; the directory changes only to what `getcwd` reports after a successful `chdir`; a failed home lookup changes nothing |
| `Commands.BareCdMissingHome` | terminal.py:1188-1193 | a bare `cd` whose home is missing prints `Err:list index out of` |
| `TerminalState.ErrorLine` | terminal.py:1230-1231 | the error line is `Err:` and the exception text cut to 17 characters |
| `TerminalState.Initial` | terminal.py:25-46 | the start state is valid, empty, not browsing, with no process, on the menu, in the start directory |
| `TerminalState.ScrollUp` | terminal.py:934-937 | UP moves one line back, stopping at the oldest screenful, and changes nothing else |
| `TerminalState.ScrollDown` | terminal.py:939-941 | DOWN moves one line forward, stopping at the newest output, and changes nothing else |
| `TerminalState.ScrollRoundTrip` | terminal.py:934-941 | UP then DOWN, or DOWN then UP, returns to the same view when no bound was hit |
| `TerminalState.GrowOutputKeepsValid` | terminal.py:935 | appending output never puts the scroll-back out of range |
| `TerminalState.OpenKeyboard` | terminal.py:927-932 | the press shows the keyboard with the selection on a character key and the newest output in view |
| `TerminalState.HistoryBack` | terminal.py:943-953 | LEFT does nothing without history; otherwise it goes one entry back, stopping at the oldest, and loads that entry with the cursor at its end |
| `TerminalState.HistoryForward` | terminal.py:955-964 | RIGHT goes one entry forward and loads it; from the newest it clears the line; not browsing, it does nothing |
| `TerminalState.HistoryBackAtOldest` | terminal.py:943-952 | LEFT at the oldest entry keeps returning that entry |
| `TerminalState.HistoryRoundTrip` | terminal.py:943-964 | LEFT then RIGHT while browsing returns to the same entry; from the live line it leaves an empty line |
| `TerminalState.TypeChar` | terminal.py:862-863 | typing inserts the character at the cursor and moves the cursor past it |
| `TerminalState.ApplyKey` | terminal.py:838-863 | every key keeps the cursor inside the line, changes only the line, cursor, caps lock and page, and only MORE moves the selection |
| `TerminalState.TypingInsertsAtCursor` | terminal.py:838-863 | SPC and a character key insert exactly one character at the cursor, keep the text on either side, and advance the cursor by one |
| `TerminalState.DeletingKeys` | terminal.py:843-849 | BSP removes the character before the cursor and does nothing at 0; CLR gives an empty line and cursor 0 |
| `TerminalState.OtherKeys` | terminal.py:841-857 | the arrow keys move the cursor by one within the line, CAPS toggles caps lock, MORE switches page and selects the first key |
| `TerminalState.PressKey` | terminal.py:831-865 | KEY3 on the keyboard keeps the state valid and types the selected character, upper-cased under caps lock |
| `TerminalState.BackspaceUndoesTyping` | terminal.py:843-863 | typing a character and then pressing BSP restores the line and the cursor |
| `TerminalState.KeyboardUp` | terminal.py:873-879 | UP moves one row up, clamping the column to the row, and stays on a key |
| `TerminalState.KeyboardDown` | terminal.py:881-887 | DOWN moves one row down, at most to the bottom row, clamping the column, and stays on a key |
| `TerminalState.KeyboardLeft` | terminal.py:889-891 | LEFT moves the selection one key left, not past the first |
| `TerminalState.KeyboardRight` | terminal.py:893-898 | RIGHT moves one key right, stopping at the last key of the row |
| `TerminalState.LeftRightRoundTrip` | terminal.py:889-898 | LEFT then RIGHT, or RIGHT then LEFT, returns to the same key away from the ends of the row |
| `TerminalState.DownUpRoundTrip` | terminal.py:873-887 | DOWN then UP returns to the same key, except that from row 3 the column is clamped to the bottom row |
| `TerminalState.CloseKeyboard` | terminal.py:900-902 | KEY2 hides the keyboard and changes nothing else |
| `TerminalState.Dispatch` | terminal.py:1165-1231 | the command, once classified, changes only the output, directory, screen and process |
| `TerminalState.DispatchOutput` | terminal.py:1165-1231 | `clear` empties the output; every other command keeps the output it found and only appends to it |
| `TerminalState.Execute` | terminal.py:1154-1235 | a blank line changes nothing; otherwise the stripped command is pushed on the history, browsing and scroll-back are reset, and the line is cleared with the keyboard hidden; validity is kept |
| `TerminalState.Echoed` | terminal.py:1158-1163 | the echo line and the history entry are appended, the history index is -1 and the scroll-back 0 |
| `TerminalState.ExecuteEchoes` | terminal.py:1160-1198 | `clear` is the only command that leaves the output empty; every other one first appends its echo |
| `TerminalState.ExecuteBuiltins` | terminal.py:1170-1205 | after the echo, `cd` prints its one line and moves to the directory it reports, `pwd` prints the working directory cut to 21, and `exit` prints nothing and shows the menu |
| `TerminalState.ExecuteShell` | terminal.py:1206-1231 | a started command prints nothing more; a failed step prints its `Err:` line; the process is attached once `Popen` succeeded, replacing any earlier one |
| `TerminalState.ExecuteLeavesAlone` | terminal.py:1165-1231 | only `cd` moves the directory, only `exit` changes the screen, only a shell command touches the process or PTY |
| `TerminalState.SubmitFromKeyboard` | terminal.py:867-871 | the joystick press always leaves the keyboard hidden; on a blank line nothing else changes; validity is kept |
| `TerminalState.Cancel` | terminal.py:907-919 | a successful kill appends `^C Stopped` and detaches; a failed kill changes nothing; with no process the menu is shown |
| `TerminalState.Finish` | terminal.py:1267-1287 | the end of the reader appends the flush lines, then the marker only if a process is attached, and leaves no process and no PTY |
| `TerminalState.ReadAll` | terminal.py:1237-1287 | after the reader no process or PTY remains, only the output changed, and validity is kept |
| `TerminalState.ReadAllOutput` | terminal.py:1237-1287 | for output without `'\r'`, a run appends the display lines of the whole output, at most one flushed line, and the marker |
| `TerminalState.CancelThenFinish` | terminal.py:1273-1278 | after a successful cancel the run ends with `^C Stopped` and the flushed leftover, with no exit marker |
| `Session.Terminal.constructor` | terminal.py:25-46 | the new terminal is in the start state |
| `Session.Terminal.ScrollUp` | terminal.py:934-937 | the update in place ends in `TerminalState.ScrollUp` of the old state |
| `Session.Terminal.ScrollDown` | terminal.py:939-941 | the update in place ends in `TerminalState.ScrollDown` of the old state |
| `Session.Terminal.OpenKeyboard` | terminal.py:927-932 | the update in place ends in `TerminalState.OpenKeyboard` of the old state |
| `Session.Terminal.HistoryBack` | terminal.py:943-953 | the update in place ends in `TerminalState.HistoryBack` of the old state |
| `Session.Terminal.HistoryForward` | terminal.py:955-964 | the update in place ends in `TerminalState.HistoryForward` of the old state |
| `Session.Terminal.Cancel` | terminal.py:907-919 | the update in place ends in `TerminalState.Cancel` of the old state |
| `Session.Terminal.ExecuteCommand` | terminal.py:1154-1235 | the update in place ends in `TerminalState.Execute` of the old state |
| `Session.Terminal.Echo` | terminal.py:1158-1163 | the echo and the history push end in `TerminalState.Echoed` |
| `Session.Terminal.RunCommand` | terminal.py:1165-1231 | the built-in or the spawn the command was classified as ends in `TerminalState.Dispatch` |
| `Session.Terminal.StartShell` | terminal.py:1206-1231 | the output gains the error line unless the spawn succeeded; the PTY is set unless `openpty` failed; the process is set when `Popen` succeeded |
| `Session.Terminal.ResetCommandLine` | terminal.py:1233-1235 | the line is empty, the cursor 0 and the keyboard hidden, nothing else changed |
| `Session.Terminal.PressKey` | terminal.py:831-865 | the update in place ends in `TerminalState.PressKey` of the old state |
| `Session.Terminal.ApplyKey` | terminal.py:838-863 | the selected key's update ends in `TerminalState.ApplyKey` of the old state |
| `Session.Terminal.TypeChar` | terminal.py:862-863 | typing ends in `TerminalState.TypeChar` of the old state |
| `Session.Terminal.SubmitFromKeyboard` | terminal.py:867-871 | the update in place ends in `TerminalState.SubmitFromKeyboard` of the old state |
| `Session.Terminal.KeyboardUp` | terminal.py:873-879 | the update in place ends in `TerminalState.KeyboardUp` of the old state |
| `Session.Terminal.KeyboardDown` | terminal.py:881-887 | the update in place ends in `TerminalState.KeyboardDown` of the old state |
| `Session.Terminal.KeyboardLeft` | terminal.py:889-891 | the update in place ends in `TerminalState.KeyboardLeft` of the old state |
| `Session.Terminal.KeyboardRight` | terminal.py:893-898 | the update in place ends in `TerminalState.KeyboardRight` of the old state |
| `Session.Terminal.CloseKeyboard` | terminal.py:900-902 | the update in place ends in `TerminalState.CloseKeyboard` of the old state |
| `Session.Terminal.EmitSegment` | terminal.py:1253-1257 | the wrapping loop appends the 21-character pieces of the segment |
| `Session.Terminal.ReceiveChunk` | terminal.py:1242-1259 | one read appends the lines `Drain` gives for the buffer plus the read, and carries its leftover |
| `Session.Terminal.FinishRead` | terminal.py:1267-1287 | the end of the reader ends in `TerminalState.Finish` |
| `Session.Terminal.FlushAndMark` | terminal.py:1267-1278 | the output gains the flushed leftover, then the exit marker only while a process is attached |
| `Session.Terminal.FlushBuffer` | terminal.py:1267-1271 | the flush appends `FlushLines` of the leftover |
| `Session.Terminal.FlushParts` | terminal.py:1269-1271 | the loop over the parts appends the non-blank ones, stripped and truncated |
| `Session.Terminal.AppendExitMarker` | terminal.py:1273-1278 | the marker appended is `ExitMarker` of the return code |
| `Session.Terminal.ReadPtyOutput` | terminal.py:1237-1287 | the whole reader thread ends in `TerminalState.ReadAll` |
| `Session.Terminal.PumpChunks` | terminal.py:1240-1265 | the read loop appends the lines of `Pump` over the reads and returns its leftover |
| `Network.StrLeTotal` | terminal.py:190 | any two names are ordered one way or the other |
| `Network.InsertName` | terminal.py:190 | inserting a name adds exactly that name |
| `Network.InsertNameSorted` | terminal.py:190 | inserting into a sorted list keeps it sorted |
| `Network.SortNames` | terminal.py:190 | `sorted` returns exactly its argument's names |
| `Network.SortNamesSorted` | terminal.py:190 | `sorted` returns the names in ascending order |
| `Network.WlanNames` | terminal.py:190 | the filter keeps every `wlan...` name as often as listed and nothing else |
| `Network.DetectWlansNamed` | terminal.py:184-193 | there is always at least one interface, each named `wlan...`, in sorted order |
| `Network.FallbackIsWlanList` | terminal.py:191-193 | the fallback `["wlan0"]` is such a list |
| `Network.DetectWlansExact` | terminal.py:186-191 | the result is exactly the listed `wlan` names, or `["wlan0"]` when none is listed |
| `Network.SortedWlansNamed` | terminal.py:190 | the sorted filter output is sorted and all `wlan...` |
| `Network.WlanNamesNonEmpty` | terminal.py:190-191 | a listed `wlan` name survives the filter and the sort |
| `Network.WlanNamesEmpty` | terminal.py:190-191 | with no `wlan` name listed the filter keeps nothing |
| `Network.NextWlanIndex` | terminal.py:985 | stepping the interface index keeps it below the number of interfaces |
| `Network.CurrentWlanDetected` | terminal.py:195-199 | an index in range selects that detected interface, which is named `wlan...` |
| `Network.PyInt` | terminal.py:261 | `int()` of a blank text raises |
| `Network.PyIntOfDecimal` | terminal.py:261 | `int(str(n)) == n`, so every numeric signal reads back |
| `Network.ParseLine` | terminal.py:250-257 | a kept line has a non-empty SSID without `:` that is not the connected one |
| `Network.ParseLineInverse` | terminal.py:250-257 | `SSID:SIGNAL` reads back as that network, unless the SSID is empty or connected |
| `Network.Candidates` | terminal.py:249-257 | every collected network has a non-empty SSID other than the connected one |
| `Network.IndexOfSsid` | terminal.py:261-262 | the dictionary lookup finds the first entry with the SSID, or none |
| `Network.IndexOfDistinct` | terminal.py:261-262 | with distinct SSIDs the lookup of an entry's SSID finds that entry |
| `Network.MergeDistinct` | terminal.py:260-262 | one step of the second loop keeps the SSIDs distinct |
| `Network.MergeMembers` | terminal.py:260-262 | one step only adds the network it reads |
| `Network.MergeCovers` | terminal.py:260-262 | one step keeps every network read represented by an entry at least as strong |
| `Network.CollapseRepresents` | terminal.py:259-264 | after the second loop the SSIDs are distinct, every entry was read, and every network read is represented by an entry at least as strong |
| `Network.InsertBySignal` | terminal.py:265 | inserting adds exactly the new entry |
| `Network.SortBySignal` | terminal.py:265 | the sort is a permutation |
| `Network.InsertBySignalMembers` | terminal.py:265 | every entry after an insertion is the new one or an old one |
| `Network.InsertBySignalOrdered` | terminal.py:265 | inserting into a list ordered by signal keeps it ordered |
| `Network.InsertBySignalDistinct` | terminal.py:265 | inserting a new SSID keeps the SSIDs distinct |
| `Network.SortBySignalKeeps` | terminal.py:265 | the sort orders strongest first and keeps distinct SSIDs distinct |
| `Network.CollectNetworks` | terminal.py:249-257 | the first loop collects exactly the parsed lines, in order |
| `Network.KeepStrongest` | terminal.py:259-262 | when the loop completes, the dictionary is the collapse of the networks read and an unreadable signal among them is still in it; when it stops, some signal read is not a number |
| `Network.ScanWifi` | terminal.py:239-267 | the scan returns `ScanNetworks` of the output |
| `Network.SortKeepsMembers` | terminal.py:264-265 | after the sort every entry is still a network read |
| `Network.SortKeepsCover` | terminal.py:264-265 | after the sort every network read is still represented under its SSID |
| `Network.CollapseThenSort` | terminal.py:259-265 | collapsing then sorting gives distinct SSIDs, strongest first, only networks read, each represented |
| `Network.ScanNetworksShape` | terminal.py:239-267 | a scan lists each SSID once, strongest first, never empty or connected, every network represented; one unreadable signal empties it |
| `Network.ScanOfCandidates` | terminal.py:259-267 | the same facts for the collapse and sort of any list of candidates |
| `Menus.MenuUp` | terminal.py:796 | UP in the menu stays among the four entries |
| `Menus.MenuDown` | terminal.py:800 | DOWN in the menu stays among the four entries |
| `Menus.MenuRoundTrip` | terminal.py:795-801 | UP and DOWN undo each other and wrap between the first and last entries |
| `Menus.MenuTargetsDistinct` | terminal.py:803-817 | each entry opens a screen other than the menu, a different one per entry |
| `Menus.SettingsStayInRange` | terminal.py:1132-1138 | the settings index stays on an entry and moves by one unless at an end |
| `Menus.ThemeIndex` | terminal.py:1143 | `index(theme)` is the position of the theme in the list |
| `Menus.ThemeSelection` | terminal.py:1099-1110 | the theme index stays on an offered theme, so KEY3 always picks one |
| `Menus.BrightnessDown` | terminal.py:1118 | LEFT never goes below 10 |
| `Menus.BrightnessUp` | terminal.py:1123 | RIGHT never goes above 100 |
| `Menus.BrightnessStaysInRange` | terminal.py:1116-1125 | from a brightness in range, both keys stay in [10, 100] and move by at most 5 |
| `Menus.BrightnessRoundTrip` | terminal.py:1116-1125 | one step up and one down cancel unless a bound was hit |

## Left out

- Drawing on the LCD is not modelled: pixels, fonts, colours, themes and the blinking caret driven by `time.time()`. Only the wrap and caret arithmetic is kept.
- GPIO polling, debouncing and key-hold timing are not modelled, since they rest on hardware and wall-clock time. Each handler branch is a separate operation instead.
- The reader thread's concurrency, its `time.sleep` polling and the `needs_redraw` flag are not modelled. The reader is a sequential pass over the reads it makes before `poll()` reports the exit.
- `os.read` retrying after an `OSError` is not modelled; a retry simply adds no read.
- A non-`OSError` exception that breaks the reader loop is not modelled; the reads end there.
- The UTF-8 decoding with `errors='ignore'` is not modelled: reads are already-decoded strings.
- The `read_thread` and `pty_slave` fields are not modelled. No handler reads them, and their effects are in the spawn outcome.
- Exception texts from `str(e)` are arbitrary strings, passed in.
- `pwd.getpwnam`, `os.chdir`/`os.getcwd`, `pty.openpty`, `subprocess.Popen`, `fcntl`, `os.killpg` and `os.close` are not modelled; their results are parameters. `PocketTerminal.__init__`'s own `os.chdir` is left out with them.
- The `subprocess.run` calls of the Wi-Fi screen are not modelled; their output is passed in.
- The Wi-Fi actions are not modelled: `check_all_wlan_status`, `toggle_wlan`, `connect_wifi`, `disconnect_wifi`, the password keyboard and the section navigation of `handle_wifi_input`. Each of these is a subprocess call or a screen cursor over such results.
- System information, shutdown, reboot and the backlight PWM are not modelled; they are OS and hardware calls.
- The side effects of opening a screen from the menu (Wi-Fi status check, scan, system info) are not modelled; `Menus.MenuTarget` only chooses the screen.
- `Network.PyInt` does not accept the underscores or non-ASCII digits that Python's `int()` also accepts; nmcli prints plain decimal signals.
- `Network.SortBySignal` is a stable sort, as Python's is, but its stability is not stated as a property; only the order by signal and the permutation are proved.
- `Menus.ThemeIndex` requires the theme to be one of the three offered. The program only ever sets a theme from that list, so `index()` cannot raise.
