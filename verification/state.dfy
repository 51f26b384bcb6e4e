/** The state of the terminal screen and what each button does to it, as values: the
    fields of `Terminal` (terminal.py, lines 25-46) together with the screen selection of
    `PocketTerminal`, and one function per branch of `handle_keyboard_input`,
    `handle_terminal_mode_input`, `execute_command` and `read_pty_output`. The class in
    module `Session` performs the same updates in place and is proved to agree with these
    functions; the properties the program relies on are proved here. */
module TerminalState {
  import opened Text
  import opened Wrappers
  import opened Keyboard
  import opened Editor
  import opened OutputBuffer
  import opened Commands

  /** `PocketTerminal.current_screen`. */
  datatype Screen = Menu | TerminalScreen | WifiScreen | SettingsScreen | AboutScreen

  /** How starting a shell command went: the child runs, or one of the steps raised and
      its exception text was printed. `openpty` failing leaves nothing behind; `Popen`
      failing leaves the PTY master set; a failure after `Popen` (closing the slave,
      `fcntl`, starting the reader) leaves the process and the PTY set. */
  datatype SpawnOutcome =
    | Spawned
    | PtyFailed(message: string)
    | PopenFailed(message: string)
    | SetupFailed(message: string)

  /** The line the outer handler of `execute_command` prints for an exception. */
  function ErrorLine(message: string): (e: string)
    ensures 4 <= |e| <= LineWidth && e[..4] == "Err:" && e[4..] == Take(message, LineWidth - 4)
  {
    "Err:" + Take(message, LineWidth - 4)
  }

  /** Every field the handlers read or write. `running` stands for `process is not None`
      and `ptyOpen` for `pty_master is not None`. */
  datatype State = State(
    commandInput: string,
    cursorPos: nat,
    outputLines: seq<string>,
    commandHistory: seq<string>,
    historyIndex: int,
    keyboardVisible: bool,
    kbPage: nat,
    kbRow: nat,
    kbCol: nat,
    scrollOffset: nat,
    capsLock: bool,
    workingDir: string,
    running: bool,
    ptyOpen: bool,
    screen: Screen)

  /** What the handlers keep true: the cursor is inside the command line, the history
      index is -1 or names an entry, the scroll-back does not pass the first line, and
      the keyboard selection is on a key. */
  predicate Valid(s: State) {
    s.cursorPos <= |s.commandInput|
    && -1 <= s.historyIndex < |s.commandHistory|
    && s.scrollOffset <= MaxScroll(|s.outputLines|)
    && OnKey(s.kbPage, s.kbRow, s.kbCol)
  }

  function Min(a: int, b: int): int {
    if a <= b then a else b
  }

  function Max(a: int, b: int): int {
    if a >= b then a else b
  }

  /** `Terminal()` inside `PocketTerminal()`, which starts on the menu. */
  function Initial(home: Lookup): (s: State)
    ensures Valid(s)
    ensures s.commandInput == "" && s.outputLines == [] && s.commandHistory == [] && s.historyIndex == -1
    ensures !s.running && !s.ptyOpen && s.screen == Menu && s.workingDir == InitialDir(home)
  {
    RowWidths(0, 0);
    State("", 0, [], [], -1, false, 0, 0, 0, 0, false, InitialDir(home), false, false, Menu)
  }

  // ---------------------------------------------------------------- output view

  /** UP in terminal mode: one line further back, but not past the first line. */
  function ScrollUp(s: State): (r: State)
    ensures r == s.(scrollOffset := r.scrollOffset)
    ensures r.scrollOffset <= MaxScroll(|s.outputLines|)
    ensures s.scrollOffset < MaxScroll(|s.outputLines|) ==> r.scrollOffset == s.scrollOffset + 1
    ensures s.scrollOffset >= MaxScroll(|s.outputLines|) ==> r.scrollOffset == MaxScroll(|s.outputLines|)
    ensures Valid(s) ==> Valid(r)
  {
    s.(scrollOffset := Min(s.scrollOffset + 1, MaxScroll(|s.outputLines|)))
  }

  /** DOWN in terminal mode: one line nearer the newest output, not below it. */
  function ScrollDown(s: State): (r: State)
    ensures r == s.(scrollOffset := r.scrollOffset)
    ensures s.scrollOffset > 0 ==> r.scrollOffset == s.scrollOffset - 1
    ensures s.scrollOffset == 0 ==> r == s
    ensures Valid(s) ==> Valid(r)
  {
    s.(scrollOffset := Max(0, s.scrollOffset - 1))
  }

  /** Scrolling up and down again returns to the same view, in both orders, as long as
      the first step was not stopped by a bound. */
  lemma ScrollRoundTrip(s: State)
    ensures s.scrollOffset < MaxScroll(|s.outputLines|) ==> ScrollDown(ScrollUp(s)) == s
    ensures 0 < s.scrollOffset <= MaxScroll(|s.outputLines|) ==> ScrollUp(ScrollDown(s)) == s
  {
  }

  /** More output never invalidates the scroll-back. */
  lemma GrowOutputKeepsValid(s: State, extra: seq<string>)
    requires Valid(s)
    ensures Valid(s.(outputLines := s.outputLines + extra))
  {
  }

  /** Joystick press in terminal mode: show the keyboard with the selection on the first
      key, and jump to the newest output. */
  function OpenKeyboard(s: State): (r: State)
    ensures r == s.(keyboardVisible := true, kbRow := 0, kbCol := 0, scrollOffset := 0)
    ensures s.kbPage < 2 ==> OnKey(r.kbPage, r.kbRow, r.kbCol) && KeyAt(r.kbPage, r.kbRow, r.kbCol).Char?
    ensures Valid(s) ==> Valid(r)
  {
    s.(keyboardVisible := true, kbRow := 0, kbCol := 0, scrollOffset := 0)
  }

  // ---------------------------------------------------------------- history

  /** LEFT in terminal mode: one entry further back, stopping at the oldest, and load it
      into the command line with the cursor at its end. The source's
      `elif history_index == -1` and the `history_index >= 0` test are kept although, with
      the index at least -1 and a non-empty history, the first branch always applies when
      the index is -1 and the index is never negative afterwards. */
  function HistoryBack(s: State): (r: State)
    requires -1 <= s.historyIndex < |s.commandHistory|
    ensures s.commandHistory == [] ==> r == s
    ensures s.commandHistory != [] ==>
      var h := s.commandHistory;
      r.historyIndex == Min(s.historyIndex + 1, |h| - 1)
      && r.commandInput == h[|h| - 1 - r.historyIndex]
      && r.cursorPos == |r.commandInput|
    ensures r == s.(commandInput := r.commandInput, cursorPos := r.cursorPos, historyIndex := r.historyIndex)
    ensures Valid(s) ==> Valid(r)
  {
    var h := s.commandHistory;
    if h == [] then s
    else
      var idx :=
        if s.historyIndex < |h| - 1 then s.historyIndex + 1
        else if s.historyIndex == -1 then 0
        else s.historyIndex;
      if idx >= 0 then
        s.(historyIndex := idx, commandInput := h[|h| - 1 - idx], cursorPos := |h[|h| - 1 - idx]|)
      else s.(historyIndex := idx)
  }

  /** RIGHT in terminal mode: one entry nearer the newest; from the newest entry back to
      an empty command line; nothing at all when not browsing. */
  function HistoryForward(s: State): (r: State)
    requires -1 <= s.historyIndex < |s.commandHistory|
    ensures s.historyIndex > 0 ==>
      var h := s.commandHistory;
      r.historyIndex == s.historyIndex - 1
      && r.commandInput == h[|h| - 1 - r.historyIndex]
      && r.cursorPos == |r.commandInput|
    ensures s.historyIndex == 0 ==> r.historyIndex == -1 && r.commandInput == "" && r.cursorPos == 0
    ensures s.historyIndex == -1 ==> r == s
    ensures r == s.(commandInput := r.commandInput, cursorPos := r.cursorPos, historyIndex := r.historyIndex)
    ensures Valid(s) ==> Valid(r)
  {
    var h := s.commandHistory;
    if s.historyIndex > 0 then
      var idx := s.historyIndex - 1;
      s.(historyIndex := idx, commandInput := h[|h| - 1 - idx], cursorPos := |h[|h| - 1 - idx]|)
    else if s.historyIndex == 0 then
      s.(historyIndex := -1, commandInput := "", cursorPos := 0)
    else s
  }

  /** LEFT at the oldest entry keeps showing it, however often it is pressed. */
  lemma HistoryBackAtOldest(s: State)
    requires s.commandHistory != [] && s.historyIndex == |s.commandHistory| - 1
    ensures HistoryBack(s).historyIndex == s.historyIndex
    ensures HistoryBack(HistoryBack(s)) == HistoryBack(s)
    ensures HistoryBack(s).commandInput == s.commandHistory[0]
  {
  }

  /** LEFT then RIGHT while browsing returns to the same entry. From the live command
      line it does not: LEFT loads the newest entry and RIGHT then clears the line, so
      what was being typed is lost. */
  lemma HistoryRoundTrip(s: State)
    requires -1 <= s.historyIndex < |s.commandHistory| - 1
    ensures var h := s.commandHistory; var r := HistoryForward(HistoryBack(s));
      r.historyIndex == s.historyIndex
      && (s.historyIndex >= 0 ==> r.commandInput == h[|h| - 1 - s.historyIndex] && r.cursorPos == |r.commandInput|)
      && (s.historyIndex == -1 ==> r == s.(commandInput := "", cursorPos := 0))
  {
  }

  // ---------------------------------------------------------------- keyboard

  /** Insert `c` at the cursor and move the cursor past it. */
  function TypeChar(s: State, c: char): (r: State)
    requires s.cursorPos <= |s.commandInput|
    ensures r == s.(commandInput := r.commandInput, cursorPos := r.cursorPos)
    ensures r.commandInput == InsertAt(s.commandInput, s.cursorPos, c) && r.cursorPos == s.cursorPos + 1
  {
    s.(commandInput := InsertAt(s.commandInput, s.cursorPos, c), cursorPos := s.cursorPos + 1)
  }

  /** What key `k` does to the command line, the caps lock and the keyboard page. Only
      those fields change, the cursor stays inside the line, and only MORE moves the
      selection. */
  function ApplyKey(s: State, k: Key): (r: State)
    requires s.cursorPos <= |s.commandInput| && s.kbPage < 2
    ensures r.cursorPos <= |r.commandInput|
    ensures r == s.(commandInput := r.commandInput, cursorPos := r.cursorPos, capsLock := r.capsLock,
                    kbPage := r.kbPage, kbRow := r.kbRow, kbCol := r.kbCol)
    ensures !k.More? ==> r.kbPage == s.kbPage && r.kbRow == s.kbRow && r.kbCol == s.kbCol
  {
    match k
    case Space => TypeChar(s, ' ')
    case CapsLock => s.(capsLock := !s.capsLock)
    case Backspace =>
      if s.cursorPos > 0 then
        s.(commandInput := DeleteBefore(s.commandInput, s.cursorPos), cursorPos := s.cursorPos - 1)
      else s
    case Clear => s.(commandInput := "", cursorPos := 0)
    case CursorLeft => s.(cursorPos := Max(0, s.cursorPos - 1))
    case CursorRight => s.(cursorPos := Min(|s.commandInput|, s.cursorPos + 1))
    case More => s.(kbPage := 1 - s.kbPage, kbRow := 0, kbCol := 0)
    case Char(c) => TypeChar(s, Typed(c, s.capsLock))
  }

  /** SPC and a character key insert exactly one character at the cursor, leaving the
      text on either side alone, and move the cursor past it; caps lock upper-cases
      letters only. */
  lemma TypingInsertsAtCursor(s: State, k: Key)
    requires s.cursorPos <= |s.commandInput| && s.kbPage < 2 && (k.Char? || k.Space?)
    ensures var r := ApplyKey(s, k); var cp := s.cursorPos;
      var c := if k.Space? then ' ' else Typed(k.c, s.capsLock);
      |r.commandInput| == |s.commandInput| + 1 && r.cursorPos == cp + 1
      && r.commandInput[..cp] == s.commandInput[..cp] && r.commandInput[cp] == c
      && r.commandInput[cp + 1..] == s.commandInput[cp..]
      && r.capsLock == s.capsLock
  {
  }

  /** BSP removes the character before the cursor and is a no-op at the start of the line;
      CLR empties the line. */
  lemma DeletingKeys(s: State, k: Key)
    requires s.cursorPos <= |s.commandInput| && s.kbPage < 2 && (k.Backspace? || k.Clear?)
    ensures var r := ApplyKey(s, k); var cp := s.cursorPos;
      (k.Backspace? && cp == 0 ==> r == s)
      && (k.Backspace? && cp > 0 ==>
            r.cursorPos == cp - 1 && r.commandInput == s.commandInput[..cp - 1] + s.commandInput[cp..])
      && (k.Clear? ==> r == s.(commandInput := "", cursorPos := 0))
  {
  }

  /** The arrow keys move the cursor by one within the line and leave the text alone;
      CAPS only toggles caps lock; MORE switches page and puts the selection on the first
      key. */
  lemma OtherKeys(s: State, k: Key)
    requires s.cursorPos <= |s.commandInput| && s.kbPage < 2
    requires k.CursorLeft? || k.CursorRight? || k.CapsLock? || k.More?
    ensures var r := ApplyKey(s, k); var cp := s.cursorPos;
      (k.CursorLeft? ==> r == s.(cursorPos := Max(0, cp - 1)))
      && (k.CursorRight? ==> r == s.(cursorPos := Min(|s.commandInput|, cp + 1)))
      && (k.CapsLock? ==> r == s.(capsLock := !s.capsLock))
      && (k.More? ==> r == s.(kbPage := 1 - s.kbPage, kbRow := 0, kbCol := 0))
  {
  }

  /** KEY3 with the keyboard shown: act on the selected key. The selection stays on a key,
      and a character key types its character, upper-cased under caps lock. */
  function PressKey(s: State): (r: State)
    requires OnKey(s.kbPage, s.kbRow, s.kbCol) && s.cursorPos <= |s.commandInput|
    ensures r.cursorPos <= |r.commandInput| && OnKey(r.kbPage, r.kbRow, r.kbCol)
    ensures KeyAt(s.kbPage, s.kbRow, s.kbCol).Char? ==>
      r.commandInput == InsertAt(s.commandInput, s.cursorPos, Typed(KeyAt(s.kbPage, s.kbRow, s.kbCol).c, s.capsLock))
    ensures Valid(s) ==> Valid(r)
  {
    FirstKeyOfPage(1 - s.kbPage);
    ApplyKey(s, KeyAt(s.kbPage, s.kbRow, s.kbCol))
  }

  /** Typing a character and then pressing BSP (with the selection moved onto it) gives
      back the command line and cursor as they were. */
  lemma BackspaceUndoesTyping(s: State)
    requires Valid(s) && KeyAt(s.kbPage, s.kbRow, s.kbCol).Char?
    ensures var t := PressKey(s);
      var u := PressKey(t.(kbRow := BottomRowIndex, kbCol := 4));
      u.commandInput == s.commandInput && u.cursorPos == s.cursorPos
  {
    var t := PressKey(s);
    RowWidths(t.kbPage, BottomRowIndex);
    DeleteUndoesInsert(s.commandInput, s.cursorPos, Typed(KeyAt(s.kbPage, s.kbRow, s.kbCol).c, s.capsLock));
  }

  /** UP with the keyboard shown: one row up, keeping the column where the row allows. */
  function KeyboardUp(s: State): (r: State)
    requires s.kbPage < 2 && s.kbRow <= BottomRowIndex
    ensures r == s.(kbRow := r.kbRow, kbCol := r.kbCol)
    ensures r.kbRow == Max(0, s.kbRow - 1) && r.kbCol == Min(s.kbCol, RowWidth(s.kbPage, r.kbRow) - 1)
    ensures OnKey(r.kbPage, r.kbRow, r.kbCol)
    ensures Valid(s) ==> Valid(r)
  {
    var row := Max(0, s.kbRow - 1);
    RowWidths(s.kbPage, row);
    s.(kbRow := row, kbCol := Min(s.kbCol, RowWidth(s.kbPage, row) - 1))
  }

  /** DOWN with the keyboard shown: one row down, at most to the bottom row. */
  function KeyboardDown(s: State): (r: State)
    requires s.kbPage < 2 && s.kbRow <= BottomRowIndex
    ensures r == s.(kbRow := r.kbRow, kbCol := r.kbCol)
    ensures r.kbRow == Min(BottomRowIndex, s.kbRow + 1) && r.kbCol == Min(s.kbCol, RowWidth(s.kbPage, r.kbRow) - 1)
    ensures OnKey(r.kbPage, r.kbRow, r.kbCol)
    ensures Valid(s) ==> Valid(r)
  {
    var row := Min(BottomRowIndex, s.kbRow + 1);
    RowWidths(s.kbPage, row);
    s.(kbRow := row, kbCol := Min(s.kbCol, RowWidth(s.kbPage, row) - 1))
  }

  /** LEFT with the keyboard shown. */
  function KeyboardLeft(s: State): (r: State)
    ensures r == s.(kbCol := Max(0, s.kbCol - 1))
    ensures Valid(s) ==> Valid(r)
  {
    s.(kbCol := Max(0, s.kbCol - 1))
  }

  /** RIGHT with the keyboard shown, stopping at the last key of the row. */
  function KeyboardRight(s: State): (r: State)
    requires s.kbPage < 2 && s.kbRow <= BottomRowIndex
    ensures r == s.(kbCol := r.kbCol)
    ensures s.kbCol + 1 < RowWidth(s.kbPage, s.kbRow) ==> r.kbCol == s.kbCol + 1
    ensures s.kbCol + 1 >= RowWidth(s.kbPage, s.kbRow) ==> r.kbCol == RowWidth(s.kbPage, s.kbRow) - 1
    ensures Valid(s) ==> Valid(r)
  {
    RowWidths(s.kbPage, s.kbRow);
    s.(kbCol := Min(RowWidth(s.kbPage, s.kbRow) - 1, s.kbCol + 1))
  }

  /** LEFT then RIGHT, or RIGHT then LEFT, returns to the same key away from the ends of
      the row. */
  lemma LeftRightRoundTrip(s: State)
    requires OnKey(s.kbPage, s.kbRow, s.kbCol)
    ensures s.kbCol > 0 ==> KeyboardRight(KeyboardLeft(s)) == s
    ensures s.kbCol + 1 < RowWidth(s.kbPage, s.kbRow) ==> KeyboardLeft(KeyboardRight(s)) == s
  {
  }

  /** DOWN then UP returns to the same key above the bottom two rows; from row 3 the
      column survives only when it is one of the seven the bottom row has. */
  lemma DownUpRoundTrip(s: State)
    requires OnKey(s.kbPage, s.kbRow, s.kbCol) && s.kbRow < BottomRowIndex
    ensures s.kbRow + 1 < BottomRowIndex ==> KeyboardUp(KeyboardDown(s)) == s
    ensures s.kbRow + 1 == BottomRowIndex ==> KeyboardUp(KeyboardDown(s)) == s.(kbCol := Min(s.kbCol, |BottomRow| - 1))
  {
    RowWidths(s.kbPage, s.kbRow);
    RowWidths(s.kbPage, s.kbRow + 1);
  }

  /** KEY2 with the keyboard shown. */
  function CloseKeyboard(s: State): (r: State)
    ensures r == s.(keyboardVisible := false) && !r.keyboardVisible
    ensures Valid(s) ==> Valid(r)
  {
    s.(keyboardVisible := false)
  }

  // ---------------------------------------------------------------- commands

  /** The part of `execute_command` after the echo: the built-in or the spawn the command
      was classified as, on the state `t` that already holds the echo and the history
      entry. */
  function Dispatch(t: State, kind: Command, home: Lookup, chdir: string -> ChdirOutcome, spawn: SpawnOutcome): (r: State)
    ensures r == t.(outputLines := r.outputLines, workingDir := r.workingDir, screen := r.screen,
                    running := r.running, ptyOpen := r.ptyOpen)
  {
    match kind
    case ChangeDir(args) =>
      var c := Cd(args, home, t.workingDir, chdir);
      t.(outputLines := t.outputLines + [c.line], workingDir := c.dir)
    case ClearScreen => t.(outputLines := [])
    case PrintDir => t.(outputLines := t.outputLines + [Take(t.workingDir, LineWidth)])
    case ExitToMenu => t.(screen := Menu)
    case Shell =>
      match spawn
      case Spawned => t.(running := true, ptyOpen := true)
      case PtyFailed(m) => t.(outputLines := t.outputLines + [ErrorLine(m)])
      case PopenFailed(m) => t.(outputLines := t.outputLines + [ErrorLine(m)], ptyOpen := true)
      case SetupFailed(m) => t.(outputLines := t.outputLines + [ErrorLine(m)], running := true, ptyOpen := true)
  }

  /** `clear` empties the output; every other command only appends to it. */
  lemma DispatchOutput(t: State, kind: Command, home: Lookup, chdir: string -> ChdirOutcome, spawn: SpawnOutcome)
    ensures var r := Dispatch(t, kind, home, chdir, spawn);
      (kind == ClearScreen ==> r.outputLines == [])
      && (kind != ClearScreen ==>
            |r.outputLines| >= |t.outputLines| && r.outputLines[..|t.outputLines|] == t.outputLines)
  {
  }

  /** `execute_command`, with the home-directory lookup, `chdir` and the outcome of
      starting a shell command passed in. A blank command line changes nothing. Any other
      command is stripped, echoed and pushed onto the history; browsing and scroll-back
      are reset; and the command line is cleared and the keyboard hidden at the end. */
  function Execute(s: State, home: Lookup, chdir: string -> ChdirOutcome, spawn: SpawnOutcome): (r: State)
    ensures IsBlank(s.commandInput) ==> r == s
    ensures !IsBlank(s.commandInput) ==>
      r.commandInput == "" && r.cursorPos == 0 && !r.keyboardVisible
      && r.commandHistory == s.commandHistory + [Strip(s.commandInput)]
      && r.historyIndex == -1 && r.scrollOffset == 0
      && r.kbPage == s.kbPage && r.kbRow == s.kbRow && r.kbCol == s.kbCol && r.capsLock == s.capsLock
    ensures Valid(s) ==> Valid(r)
  {
    if IsBlank(s.commandInput) then s
    else
      var cmd := Strip(s.commandInput);
      var ran := Dispatch(Echoed(s, cmd), Classify(cmd), home, chdir, spawn);
      ran.(commandInput := "", cursorPos := 0, keyboardVisible := false)
  }

  /** `Execute` as its three steps, for the method that performs them one by one. */
  lemma ExecuteSteps(s: State, cmd: string, t: State, d: State,
                     home: Lookup, chdir: string -> ChdirOutcome, spawn: SpawnOutcome)
    requires !IsBlank(s.commandInput) && cmd == Strip(s.commandInput)
    requires t == Echoed(s, cmd) && d == Dispatch(t, Classify(cmd), home, chdir, spawn)
    ensures Execute(s, home, chdir, spawn) == d.(commandInput := "", cursorPos := 0, keyboardVisible := false)
  {
  }

  /** The first steps of `execute_command` for the stripped command `cmd`: echo it, push
      it onto the history, stop browsing and scroll to the newest output. */
  function Echoed(s: State, cmd: string): (t: State)
    ensures t == s.(outputLines := t.outputLines, commandHistory := t.commandHistory,
                    historyIndex := -1, scrollOffset := 0)
    ensures t.outputLines == s.outputLines + [EchoLine(cmd)] && t.commandHistory == s.commandHistory + [cmd]
  {
    s.(outputLines := s.outputLines + [EchoLine(cmd)], commandHistory := s.commandHistory + [cmd],
       historyIndex := -1, scrollOffset := 0)
  }

  /** `clear` leaves the output empty; every other non-blank command first appends its
      echo, so the output only grows. */
  lemma ExecuteEchoes(s: State, home: Lookup, chdir: string -> ChdirOutcome, spawn: SpawnOutcome)
    requires !IsBlank(s.commandInput)
    ensures var cmd := Strip(s.commandInput); var r := Execute(s, home, chdir, spawn);
      (Classify(cmd) == ClearScreen <==> r.outputLines == [])
      && (Classify(cmd) != ClearScreen ==>
            |r.outputLines| > |s.outputLines|
            && r.outputLines[..|s.outputLines| + 1] == s.outputLines + [EchoLine(cmd)])
  {
    var cmd := Strip(s.commandInput);
    var t := Echoed(s, cmd);
    var r := Execute(s, home, chdir, spawn);
    assert r.outputLines == Dispatch(t, Classify(cmd), home, chdir, spawn).outputLines;
    DispatchOutput(t, Classify(cmd), home, chdir, spawn);
    if Classify(cmd) != ClearScreen {
      assert r.outputLines[..|s.outputLines| + 1] == t.outputLines;
    }
  }

  /** After the echo, `cd` prints exactly its one line and moves to the directory it
      reports, `pwd` prints the working directory cut to 21 characters, and `exit`
      prints nothing and shows the menu. */
  lemma ExecuteBuiltins(s: State, home: Lookup, chdir: string -> ChdirOutcome, spawn: SpawnOutcome)
    requires !IsBlank(s.commandInput)
    ensures var cmd := Strip(s.commandInput); var r := Execute(s, home, chdir, spawn);
      var kind := Classify(cmd);
      (kind.ChangeDir? ==>
            r.outputLines == s.outputLines + [EchoLine(cmd)] + [Cd(kind.args, home, s.workingDir, chdir).line]
            && r.workingDir == Cd(kind.args, home, s.workingDir, chdir).dir)
      && (kind == PrintDir ==> r.outputLines == s.outputLines + [EchoLine(cmd)] + [Take(s.workingDir, LineWidth)])
      && (kind == ExitToMenu ==> r.outputLines == s.outputLines + [EchoLine(cmd)] && r.screen == Menu)
  {
  }

  /** A shell command prints nothing more when it starts, and the `"Err:"` line of the
      step that failed otherwise; the process is attached when `Popen` succeeded, even if
      a later step failed, and a process already attached is simply replaced. */
  lemma ExecuteShell(s: State, home: Lookup, chdir: string -> ChdirOutcome, spawn: SpawnOutcome)
    requires !IsBlank(s.commandInput) && Classify(Strip(s.commandInput)) == Shell
    ensures var cmd := Strip(s.commandInput); var r := Execute(s, home, chdir, spawn);
      (spawn.Spawned? ==> r.outputLines == s.outputLines + [EchoLine(cmd)])
      && (!spawn.Spawned? ==> r.outputLines == s.outputLines + [EchoLine(cmd)] + [ErrorLine(spawn.message)])
      && (spawn.Spawned? || spawn.SetupFailed? ==> r.running && r.ptyOpen)
      && (spawn.PtyFailed? ==> r.running == s.running && r.ptyOpen == s.ptyOpen)
      && (spawn.PopenFailed? ==> r.running == s.running && r.ptyOpen)
  {
  }

  /** Only `cd` moves the working directory, only `exit` leaves the terminal screen, and
      only a shell command attaches a process or opens a PTY. */
  lemma ExecuteLeavesAlone(s: State, home: Lookup, chdir: string -> ChdirOutcome, spawn: SpawnOutcome)
    requires !IsBlank(s.commandInput)
    ensures var r := Execute(s, home, chdir, spawn); var kind := Classify(Strip(s.commandInput));
      (!kind.ChangeDir? ==> r.workingDir == s.workingDir)
      && (kind != ExitToMenu ==> r.screen == s.screen)
      && (kind != Shell ==> r.running == s.running && r.ptyOpen == s.ptyOpen)
  {
    var cmd := Strip(s.commandInput);
    var t := Echoed(s, cmd);
    var d := Dispatch(t, Classify(cmd), home, chdir, spawn);
    assert Execute(s, home, chdir, spawn) == d.(commandInput := "", cursorPos := 0, keyboardVisible := false);
    match Classify(cmd)
    case ClearScreen =>
    case ChangeDir(args) =>
    case PrintDir =>
    case ExitToMenu =>
    case Shell =>
  }

  /** Joystick press with the keyboard shown: hide it, then run the command line. */
  function SubmitFromKeyboard(s: State, home: Lookup, chdir: string -> ChdirOutcome, spawn: SpawnOutcome): (r: State)
    ensures !r.keyboardVisible
    ensures IsBlank(s.commandInput) ==> r == s.(keyboardVisible := false)
    ensures Valid(s) ==> Valid(r)
  {
    Execute(s.(keyboardVisible := false), home, chdir, spawn)
  }

  /** KEY2 in terminal mode, with `killOk` saying whether killing the child's process
      group succeeded: a killed child leaves `"^C Stopped"` and detaches; a failed kill
      changes nothing; with no child the menu is shown. */
  function Cancel(s: State, killOk: bool): (r: State)
    ensures s.running && killOk ==>
      r == s.(outputLines := s.outputLines + ["^C Stopped"], running := false)
    ensures s.running && !killOk ==> r == s
    ensures !s.running ==> r == s.(screen := Menu)
    ensures Valid(s) ==> Valid(r)
  {
    if s.running then
      if killOk then s.(outputLines := s.outputLines + ["^C Stopped"], running := false) else s
    else s.(screen := Menu)
  }

  // ---------------------------------------------------------------- reader

  /** The end of the reader thread: flush the leftover buffer, add the exit marker if the
      process was still attached, then detach the process and close the PTY. */
  function Finish(s: State, buffer: string, returnCode: Option<int>): (r: State)
    ensures r == s.(outputLines := r.outputLines, running := false, ptyOpen := false)
    ensures r.outputLines == s.outputLines + FlushLines(buffer) + (if s.running then ExitMarker(returnCode) else [])
    ensures Valid(s) ==> Valid(r)
  {
    s.(outputLines := s.outputLines + FlushLines(buffer) + (if s.running then ExitMarker(returnCode) else []),
       running := false, ptyOpen := false)
  }

  /** The whole reader thread over the reads `chunks` it makes before the child exits
      with `returnCode`. */
  function ReadAll(s: State, chunks: seq<string>, returnCode: Option<int>): (r: State)
    ensures r == s.(outputLines := r.outputLines, running := false, ptyOpen := false)
    ensures Valid(s) ==> Valid(r)
  {
    if s.running then
      var p := Pump("", chunks);
      Finish(s.(outputLines := s.outputLines + p.lines), p.rest, returnCode)
    else Finish(s, "", returnCode)
  }

  /** What a run of a command adds to the output when its output holds no carriage
      return: the display lines of the whole output read at once (however it was split
      into reads), at most one flushed line of at most 21 characters, and `"Done!"` or
      `"Exit:<code>"` when the code is known. */
  lemma ReadAllOutput(s: State, chunks: seq<string>, returnCode: Option<int>)
    requires s.running
    requires forall k :: 0 <= k < |chunks| ==> Lacks(chunks[k], '\r')
    ensures var d := Drain(Concat(chunks)); var r := ReadAll(s, chunks, returnCode);
      r.outputLines == s.outputLines + d.lines + FlushLines(d.rest) + ExitMarker(returnCode)
      && AllDisplayLines(d.lines + FlushLines(d.rest))
      && |FlushLines(d.rest)| <= 1
  {
    var d := Drain(Concat(chunks));
    assert Lacks("", '\n') && Lacks("", '\r');
    PumpIsDrain("", chunks);
    assert "" + Concat(chunks) == Concat(chunks);
    FlushAtMostOneLine(d.rest);
    AllDisplayLinesAppend(d.lines, FlushLines(d.rest));
  }

  /** A reader that finds its process already cancelled adds no exit marker: after a
      successful cancel the run ends with `"^C Stopped"` followed only by the flushed
      leftover. */
  lemma CancelThenFinish(s: State, buffer: string, returnCode: Option<int>)
    requires s.running
    ensures Finish(Cancel(s, true), buffer, returnCode).outputLines
      == s.outputLines + ["^C Stopped"] + FlushLines(buffer)
  {
  }
}
