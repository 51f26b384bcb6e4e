/** The terminal's state object and the handlers that update it in place (terminal.py:
    `Terminal`, lines 25-46, and the `PocketTerminal` methods `handle_keyboard_input`,
    `handle_terminal_mode_input`, `execute_command` and `read_pty_output`). Each method
    performs the source's assignments in the source's order and is proved to end in the
    state the matching function of `TerminalState` describes; the properties of those
    functions are proved there. */
module Session {
  import opened Text
  import opened Wrappers
  import opened Keyboard
  import opened Editor
  import opened OutputBuffer
  import opened Commands
  import TerminalState

  class Terminal {
    var commandInput: string
    var cursorPos: nat
    var outputLines: seq<string>
    var commandHistory: seq<string>
    var historyIndex: int
    var keyboardVisible: bool
    var kbPage: nat
    var kbRow: nat
    var kbCol: nat
    var scrollOffset: nat
    var capsLock: bool
    var workingDir: string
    /** `process is not None`. */
    var running: bool
    /** `pty_master is not None`. */
    var ptyOpen: bool
    /** `PocketTerminal.current_screen`, kept here because the terminal handlers set it. */
    var screen: TerminalState.Screen

    /** The fields as one value. */
    function Snapshot(): TerminalState.State
      reads this
    {
      TerminalState.State(commandInput, cursorPos, outputLines, commandHistory, historyIndex,
        keyboardVisible, kbPage, kbRow, kbCol, scrollOffset, capsLock, workingDir,
        running, ptyOpen, screen)
    }

    predicate Valid()
      reads this
    {
      TerminalState.Valid(Snapshot())
    }

    /** `Terminal()`, with the outcome of looking up the home directory of `pi`, as the
        terminal is when the program starts on the menu. */
    constructor(home: Lookup)
      ensures Snapshot() == TerminalState.Initial(home)
      ensures Valid()
    {
      commandInput := "";
      cursorPos := 0;
      outputLines := [];
      commandHistory := [];
      historyIndex := -1;
      keyboardVisible := false;
      kbPage := 0;
      kbRow := 0;
      kbCol := 0;
      scrollOffset := 0;
      capsLock := false;
      match home {
        case Found(p) => workingDir := p;
        case LookupError(_) => workingDir := DefaultHome;
      }
      running := false;
      ptyOpen := false;
      screen := TerminalState.Menu;
    }

    // ------------------------------------------------------------ terminal mode

    method ScrollUp()
      requires Valid()
      modifies this
      ensures Snapshot() == TerminalState.ScrollUp(old(Snapshot()))
      ensures Valid()
    {
      var maxScroll := MaxScroll(|outputLines|);
      scrollOffset := if scrollOffset + 1 < maxScroll then scrollOffset + 1 else maxScroll;
    }

    method ScrollDown()
      requires Valid()
      modifies this
      ensures Snapshot() == TerminalState.ScrollDown(old(Snapshot()))
      ensures Valid()
    {
      scrollOffset := if scrollOffset > 0 then scrollOffset - 1 else 0;
    }

    method OpenKeyboard()
      requires Valid()
      modifies this
      ensures Snapshot() == TerminalState.OpenKeyboard(old(Snapshot()))
      ensures Valid()
    {
      keyboardVisible := true;
      kbRow := 0;
      kbCol := 0;
      scrollOffset := 0;
    }

    method HistoryBack()
      requires Valid()
      modifies this
      ensures Snapshot() == TerminalState.HistoryBack(old(Snapshot()))
      ensures Valid()
    {
      if commandHistory != [] {
        if historyIndex < |commandHistory| - 1 {
          historyIndex := historyIndex + 1;
        } else if historyIndex == -1 {
          historyIndex := 0;
        }
        if historyIndex >= 0 {
          commandInput := commandHistory[|commandHistory| - 1 - historyIndex];
          cursorPos := |commandInput|;
        }
      }
    }

    method HistoryForward()
      requires Valid()
      modifies this
      ensures Snapshot() == TerminalState.HistoryForward(old(Snapshot()))
      ensures Valid()
    {
      if historyIndex > 0 {
        historyIndex := historyIndex - 1;
        commandInput := commandHistory[|commandHistory| - 1 - historyIndex];
        cursorPos := |commandInput|;
      } else if historyIndex == 0 {
        historyIndex := -1;
        commandInput := "";
        cursorPos := 0;
      }
    }

    /** KEY2 in terminal mode; `killOk` is whether killing the child's process group
        succeeded. */
    method Cancel(killOk: bool)
      requires Valid()
      modifies this
      ensures Snapshot() == TerminalState.Cancel(old(Snapshot()), killOk)
      ensures Valid()
    {
      if running {
        if killOk {
          outputLines := outputLines + ["^C Stopped"];
          running := false;
        }
      } else {
        screen := TerminalState.Menu;
      }
    }

    /** `execute_command`, with the home lookup, `chdir` and the spawn outcome passed in.
        KEY3 in terminal mode calls it directly. */
    method ExecuteCommand(home: Lookup, chdir: string -> ChdirOutcome, spawn: TerminalState.SpawnOutcome)
      requires Valid()
      modifies this
      ensures Snapshot() == TerminalState.Execute(old(Snapshot()), home, chdir, spawn)
      ensures Valid()
    {
      if IsBlank(commandInput) {
        return;
      }
      var cmd := Strip(commandInput);
      Echo(cmd);
      ghost var echoed := Snapshot();
      RunCommand(Classify(cmd), home, chdir, spawn);
      ghost var dispatched := Snapshot();
      TerminalState.ExecuteSteps(old(Snapshot()), cmd, echoed, dispatched, home, chdir, spawn);
      ResetCommandLine();
    }

    /** Echo the command, push it onto the history, stop browsing and scroll to the
        newest output. */
    method Echo(cmd: string)
      modifies this`outputLines, this`commandHistory, this`historyIndex, this`scrollOffset
      ensures Snapshot() == TerminalState.Echoed(old(Snapshot()), cmd)
    {
      outputLines := outputLines + [EchoLine(cmd)];
      commandHistory := commandHistory + [cmd];
      historyIndex := -1;
      scrollOffset := 0;
    }

    /** The built-in, or the start of a shell command. */
    method RunCommand(kind: Command, home: Lookup, chdir: string -> ChdirOutcome, spawn: TerminalState.SpawnOutcome)
      modifies this`outputLines, this`workingDir, this`screen, this`running, this`ptyOpen
      ensures Snapshot() == TerminalState.Dispatch(old(Snapshot()), kind, home, chdir, spawn)
    {
      match kind {
        case ChangeDir(args) =>
          var c := Cd(args, home, workingDir, chdir);
          outputLines := outputLines + [c.line];
          workingDir := c.dir;
        case ClearScreen =>
          outputLines := [];
        case PrintDir =>
          outputLines := outputLines + [Take(workingDir, LineWidth)];
        case ExitToMenu =>
          screen := TerminalState.Menu;
        case Shell =>
          StartShell(spawn);
      }
    }

    /** `openpty`, `Popen` and the reader set-up, with how far they got passed in. */
    method StartShell(spawn: TerminalState.SpawnOutcome)
      modifies this`outputLines, this`running, this`ptyOpen
      ensures spawn.Spawned? ==> outputLines == old(outputLines)
      ensures !spawn.Spawned? ==> outputLines == old(outputLines) + [TerminalState.ErrorLine(spawn.message)]
      ensures ptyOpen == (old(ptyOpen) || !spawn.PtyFailed?)
      ensures running == (old(running) || spawn.Spawned? || spawn.SetupFailed?)
    {
      match spawn {
        case Spawned =>
          ptyOpen := true;
          running := true;
        case PtyFailed(m) =>
          outputLines := outputLines + [TerminalState.ErrorLine(m)];
        case PopenFailed(m) =>
          ptyOpen := true;
          outputLines := outputLines + [TerminalState.ErrorLine(m)];
        case SetupFailed(m) =>
          ptyOpen := true;
          running := true;
          outputLines := outputLines + [TerminalState.ErrorLine(m)];
      }
    }

    /** The last lines of `execute_command`. */
    method ResetCommandLine()
      modifies this`commandInput, this`cursorPos, this`keyboardVisible
      ensures Snapshot() == old(Snapshot()).(commandInput := "", cursorPos := 0, keyboardVisible := false)
    {
      commandInput := "";
      cursorPos := 0;
      keyboardVisible := false;
    }

    // ------------------------------------------------------------ keyboard shown

    /** KEY3 with the keyboard shown. */
    method PressKey()
      requires Valid()
      modifies this`commandInput, this`cursorPos, this`capsLock, this`kbPage, this`kbRow, this`kbCol
      ensures Snapshot() == TerminalState.PressKey(old(Snapshot()))
      ensures Valid()
    {
      var key := KeyAt(kbPage, kbRow, kbCol);
      ApplyKey(key);
    }

    /** What the selected key `key` does to the command line, caps lock and page. */
    method ApplyKey(key: Key)
      requires cursorPos <= |commandInput| && kbPage < 2
      modifies this`commandInput, this`cursorPos, this`capsLock, this`kbPage, this`kbRow, this`kbCol
      ensures Snapshot() == TerminalState.ApplyKey(old(Snapshot()), key)
    {
      match key {
        case Space =>
          TypeChar(' ');
        case CapsLock =>
          capsLock := !capsLock;
        case Backspace =>
          if cursorPos > 0 {
            commandInput := DeleteBefore(commandInput, cursorPos);
            cursorPos := cursorPos - 1;
          }
        case Clear =>
          commandInput := "";
          cursorPos := 0;
        case CursorLeft =>
          cursorPos := if cursorPos > 0 then cursorPos - 1 else 0;
        case CursorRight =>
          cursorPos := if cursorPos + 1 < |commandInput| then cursorPos + 1 else |commandInput|;
        case More =>
          kbPage := 1 - kbPage;
          kbRow := 0;
          kbCol := 0;
        case Char(c) =>
          TypeChar(Typed(c, capsLock));
      }
    }

    /** A typing key: `c` goes in at the cursor and the cursor moves past it. */
    method TypeChar(c: char)
      requires cursorPos <= |commandInput|
      modifies this`commandInput, this`cursorPos
      ensures Snapshot() == TerminalState.TypeChar(old(Snapshot()), c)
    {
      commandInput := InsertAt(commandInput, cursorPos, c);
      cursorPos := cursorPos + 1;
    }

    /** Joystick press with the keyboard shown. */
    method SubmitFromKeyboard(home: Lookup, chdir: string -> ChdirOutcome, spawn: TerminalState.SpawnOutcome)
      requires Valid()
      modifies this
      ensures Snapshot() == TerminalState.SubmitFromKeyboard(old(Snapshot()), home, chdir, spawn)
      ensures Valid()
    {
      keyboardVisible := false;
      if !IsBlank(commandInput) {
        ExecuteCommand(home, chdir, spawn);
      }
    }

    method KeyboardUp()
      requires Valid()
      modifies this
      ensures Snapshot() == TerminalState.KeyboardUp(old(Snapshot()))
      ensures Valid()
    {
      kbRow := if kbRow > 0 then kbRow - 1 else 0;
      var width := RowWidth(kbPage, kbRow);
      RowWidths(kbPage, kbRow);
      kbCol := if kbCol < width - 1 then kbCol else width - 1;
    }

    method KeyboardDown()
      requires Valid()
      modifies this
      ensures Snapshot() == TerminalState.KeyboardDown(old(Snapshot()))
      ensures Valid()
    {
      kbRow := if kbRow + 1 < BottomRowIndex then kbRow + 1 else BottomRowIndex;
      var width := RowWidth(kbPage, kbRow);
      RowWidths(kbPage, kbRow);
      kbCol := if kbCol < width - 1 then kbCol else width - 1;
    }

    method KeyboardLeft()
      requires Valid()
      modifies this
      ensures Snapshot() == TerminalState.KeyboardLeft(old(Snapshot()))
      ensures Valid()
    {
      kbCol := if kbCol > 0 then kbCol - 1 else 0;
    }

    method KeyboardRight()
      requires Valid()
      modifies this
      ensures Snapshot() == TerminalState.KeyboardRight(old(Snapshot()))
      ensures Valid()
    {
      var width := RowWidth(kbPage, kbRow);
      RowWidths(kbPage, kbRow);
      kbCol := if width - 1 < kbCol + 1 then width - 1 else kbCol + 1;
    }

    /** KEY2 with the keyboard shown. */
    method CloseKeyboard()
      requires Valid()
      modifies this
      ensures Snapshot() == TerminalState.CloseKeyboard(old(Snapshot()))
      ensures Valid()
    {
      keyboardVisible := false;
    }

    // ------------------------------------------------------------ reader thread

    /** Append a stripped, non-empty segment in pieces of `LineWidth` characters. */
    method EmitSegment(line: string)
      modifies this`outputLines
      ensures outputLines == old(outputLines) + Chunks(line, LineWidth)
    {
      var rest := line;
      while |rest| > LineWidth
        invariant outputLines + Chunks(rest, LineWidth) == old(outputLines) + Chunks(line, LineWidth)
        decreases |rest|
      {
        outputLines := outputLines + [rest[..LineWidth]];
        rest := rest[LineWidth..];
      }
      if rest != [] {
        outputLines := outputLines + [rest];
      }
    }

    /** One read: append `chunk` to the reader's `buffer`, turn every complete segment
        into output lines, and return what is left of the buffer. */
    method ReceiveChunk(buffer: string, chunk: string) returns (rest: string)
      modifies this`outputLines
      ensures outputLines == old(outputLines) + Drain(buffer + chunk).lines
      ensures rest == Drain(buffer + chunk).rest
    {
      ghost var drained := Drain(buffer + chunk);
      var b := buffer + chunk;
      while HasBreak(b)
        invariant outputLines + Drain(b).lines == old(outputLines) + drained.lines
        invariant Drain(b).rest == drained.rest
        decreases |b|
      {
        var i := if Find(b, '\n') < |b| then Find(b, '\n') else Find(b, '\r');
        ghost var collected := outputLines;
        ghost var segment := b[..i];
        DrainCollect(collected, b, i, Drain(b[i + 1..]));
        var line := b[..i];
        b := b[i + 1..];
        line := Strip(line);
        if line != [] {
          EmitSegment(line);
        } else {
          assert collected + SegmentLines(segment) == collected;
        }
        assert outputLines == collected + SegmentLines(segment);
      }
      NoBreakIff(b);
      DrainNoBreak(b);
      assert outputLines + [] == outputLines;
      rest := b;
    }

    /** The end of the reader: flush the leftover, add the exit marker if the process is
        still attached, then close the PTY and detach the process. */
    method FinishRead(buffer: string, returnCode: Option<int>)
      modifies this`outputLines, this`running, this`ptyOpen
      ensures Snapshot() == TerminalState.Finish(old(Snapshot()), buffer, returnCode)
    {
      ghost var s := Snapshot();
      FlushAndMark(buffer, returnCode);
      ptyOpen := false;
      running := false;
      assert Snapshot() == s.(outputLines := outputLines, running := false, ptyOpen := false);
    }

    /** The output the end of the reader appends: the flushed leftover, then the exit
        marker if the process is still attached. */
    method FlushAndMark(buffer: string, returnCode: Option<int>)
      modifies this`outputLines
      ensures outputLines == old(outputLines) + FlushLines(buffer) + (if running then ExitMarker(returnCode) else [])
    {
      FlushBuffer(buffer);
      if running {
        AppendExitMarker(returnCode);
      }
    }

    /** `if buffer.strip()`: append every non-blank line of the stripped leftover,
        stripped and cut to `LineWidth` characters. */
    method FlushBuffer(buffer: string)
      modifies this`outputLines
      ensures outputLines == old(outputLines) + FlushLines(buffer)
    {
      if !IsBlank(buffer) {
        var parts := SplitOn(Strip(buffer), '\n');
        FlushParts(parts);
      } else {
        assert old(outputLines) + FlushLines(buffer) == outputLines;
      }
    }

    /** The loop over the lines of the leftover. */
    method FlushParts(parts: seq<string>)
      modifies this`outputLines
      ensures outputLines == old(outputLines) + KeepNonBlank(parts)
    {
      for k := 0 to |parts|
        invariant outputLines == old(outputLines) + KeepNonBlank(parts[..k])
      {
        var part := parts[k];
        ghost var before := outputLines;
        if !IsBlank(part) {
          outputLines := outputLines + [Take(Strip(part), LineWidth)];
        }
        assert outputLines == before + FlushLine(part);
        KeepNonBlankPrefix(parts, k);
        assert old(outputLines) + KeepNonBlank(parts[..k]) + FlushLine(part)
            == old(outputLines) + (KeepNonBlank(parts[..k]) + FlushLine(part));
      }
      SeqPrefixAll(parts);
    }

    /** `"Done!"` for return code 0, `"Exit:<code>"` for any other, nothing when the code
        is unknown. */
    method AppendExitMarker(returnCode: Option<int>)
      modifies this`outputLines
      ensures outputLines == old(outputLines) + ExitMarker(returnCode)
    {
      match returnCode {
        case Some(code) =>
          if code == 0 {
            outputLines := outputLines + ["Done!"];
          } else {
            outputLines := outputLines + ["Exit:" + IntToString(code)];
          }
        case None =>
      }
    }

    /** The reader thread over the reads `chunks` it makes before the child exits with
        `returnCode`. */
    method ReadPtyOutput(chunks: seq<string>, returnCode: Option<int>)
      modifies this`outputLines, this`running, this`ptyOpen
      ensures Snapshot() == TerminalState.ReadAll(old(Snapshot()), chunks, returnCode)
    {
      var buffer := "";
      if running {
        buffer := PumpChunks(chunks);
      }
      FinishRead(buffer, returnCode);
    }

    /** The read loop: every read is appended to the buffer and its complete lines are
        moved to the output. */
    method PumpChunks(chunks: seq<string>) returns (buffer: string)
      modifies this`outputLines
      ensures outputLines == old(outputLines) + Pump("", chunks).lines
      ensures buffer == Pump("", chunks).rest
    {
      buffer := "";
      var i := 0;
      while i < |chunks|
        invariant 0 <= i <= |chunks|
        invariant outputLines == old(outputLines) + Pump("", chunks[..i]).lines
        invariant buffer == Pump("", chunks[..i]).rest
      {
        ghost var p := Pump("", chunks[..i]);
        PumpPrefix("", chunks, i, p);
        ghost var d := Drain(p.rest + chunks[i]);
        buffer := ReceiveChunk(buffer, chunks[i]);
        AppendAssoc(old(outputLines), p.lines, d.lines);
        i := i + 1;
      }
      SeqPrefixAll(chunks);
    }
  }
}
