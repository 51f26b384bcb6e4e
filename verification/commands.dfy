/** The built-in commands of `execute_command` (terminal.py): the echo of the prompt and
    command, which built-in a command is, and what `cd` resolves, changes and prints.
    The operating system is consulted through values passed in: the home-directory lookup
    of user `pi` and the outcome of `os.chdir` followed by `os.getcwd`. */
module Commands {
  import opened Text

  /** The prompt the echo starts with (`f"{self.username}$ "` with user `pi`). */
  const Prompt: string := "pi$ "
  /** The home directory used when the lookup at start-up fails. */
  const DefaultHome: string := "/home/pi"

  /** Result of `pwd.getpwnam('pi').pw_dir`: the directory, or the text of the exception. */
  datatype Lookup = Found(path: string) | LookupError(message: string)

  /** Result of `os.chdir(path)` followed by `os.getcwd()`: the new canonical directory,
      `FileNotFoundError`, or any other exception with its text. */
  datatype ChdirOutcome = Changed(cwd: string) | NotFound | Failed(message: string)

  /** The working directory at start-up: the looked-up home, or `/home/pi`. */
  function InitialDir(home: Lookup): (d: string)
    ensures home.Found? ==> d == home.path
    ensures home.LookupError? ==> d == DefaultHome
  {
    match home
    case Found(p) => p
    case LookupError(_) => DefaultHome
  }

  /** The echo `f"pi$ {cmd}"[:21]`. */
  function EchoLine(cmd: string): (e: string)
  {
    Take(Prompt + cmd, LineWidth)
  }

  /** The echo is a display line: it starts with the prompt, then as much of the
      command as fits. */
  lemma EchoLineShape(cmd: string)
    ensures var e := EchoLine(cmd);
      4 <= |e| <= LineWidth && e[..4] == Prompt && e[4..] == Take(cmd, LineWidth - 4)
  {
    var e := EchoLine(cmd);
    assert (Prompt + cmd)[..4] == Prompt;
    if |cmd| > LineWidth - 4 {
      assert e[4..] == cmd[..LineWidth - 4];
    } else {
      assert e == Prompt + cmd;
    }
  }

  /** What a stripped, non-blank command is. `cd` is recognised by its first word,
      the other built-ins only when they are the whole command. */
  datatype Command = ChangeDir(args: seq<string>) | ClearScreen | PrintDir | ExitToMenu | Shell

  function Classify(cmd: string): (c: Command)
    requires !IsBlank(cmd)
    ensures c.ChangeDir? ==> c.args == Words(cmd)[1..]
  {
    var parts := Words(cmd);
    if parts[0] == "cd" then ChangeDir(parts[1..])
    else if cmd == "clear" then ClearScreen
    else if cmd == "pwd" then PrintDir
    else if cmd == "exit" then ExitToMenu
    else Shell
  }

  /** `cd` wins over the whole-command built-ins exactly when the first word is `cd`;
      `clear`, `pwd` and `exit` followed by anything are handed to the shell. */
  lemma ClassifyCases(cmd: string)
    requires IsStripped(cmd) && !IsBlank(cmd)
    ensures Classify(cmd).ChangeDir? <==> Words(cmd)[0] == "cd"
    ensures Classify(cmd) == ClearScreen <==> cmd == "clear"
    ensures Classify(cmd) == PrintDir <==> cmd == "pwd"
    ensures Classify(cmd) == ExitToMenu <==> cmd == "exit"
  {
    FirstWord(cmd);
    var first := Words(cmd)[0];
    assert first <= cmd;
    assert first == "cd" ==> |cmd| >= 2 && cmd[1] == 'd';
  }

  /** `os.path.join(base, name)` for a relative `name`: a separator is added unless the
      base is empty or already ends with one. */
  function JoinPath(base: string, name: string): (p: string)
  {
    if base == [] || base[|base| - 1] == '/' then base + name else base + "/" + name
  }

  /** The joined path starts with the base, ends with the name, and has exactly one
      separator between them when the base does not end with one. */
  lemma JoinPathShape(base: string, name: string)
    ensures var p := JoinPath(base, name);
      base <= p && p[|p| - |name|..] == name
      && (base != [] && base[|base| - 1] != '/' ==> |p| == |base| + 1 + |name| && p[|base|] == '/')
      && (base == [] || base[|base| - 1] == '/' ==> |p| == |base| + |name|)
  {
  }

  predicate StartsWith(s: string, prefix: string) {
    prefix <= s
  }

  /** The directory `cd <target>` asks for: an absolute target as is, `~/...` with every
      `~` replaced by the home directory, `~` alone as the home directory, anything else
      joined to the working directory. */
  function ResolveTarget(target: string, home: string, workingDir: string): string {
    if StartsWith(target, "/") then target
    else if StartsWith(target, "~/") then ReplaceAll(target, '~', home)
    else if target == "~" then home
    else JoinPath(workingDir, target)
  }

  /** `~/rest` with no further `~` is the home directory followed by `/rest`. */
  lemma ResolveHomeRelative(rest: string, home: string, workingDir: string)
    requires Lacks(rest, '~')
    ensures ResolveTarget("~/" + rest, home, workingDir) == home + "/" + rest
  {
    var t := "~/" + rest;
    assert t[..2] == "~/";
    assert t == ['~'] + ("/" + rest);
    ReplaceAllCons('~', "/" + rest, '~', home);
    assert Lacks("/" + rest, '~');
  }

  lemma ReplaceAllCons(x: char, s: string, c: char, with: string)
    ensures ReplaceAll([x] + s, c, with) == (if x == c then with else [x]) + ReplaceAll(s, c, with)
  {
    assert ([x] + s)[1..] == s;
  }

  /** With an absolute home and working directory, every word resolves to an absolute
      path, so the directory handed to `chdir` never depends on the process's own
      current directory. */
  lemma ResolvedIsAbsolute(target: string, home: string, workingDir: string)
    requires target != [] && StartsWith(home, "/") && StartsWith(workingDir, "/")
    ensures StartsWith(ResolveTarget(target, home, workingDir), "/")
  {
    if StartsWith(target, "/") {
    } else if StartsWith(target, "~/") {
      var rest := target[1..];
      assert target == ['~'] + rest;
      ReplaceAllCons('~', rest, '~', home);
    } else if target == "~" {
    } else {
      assert JoinPath(workingDir, target)[0] == workingDir[0];
    }
  }

  /** Output line and working directory after a `cd`. */
  datatype CdResult = CdResult(line: string, dir: string)

  /** The text of the `IndexError` a bare `cd` raises when `chdir(home)` reports
      `FileNotFoundError` and the handler reads `parts[1]`. */
  const IndexErrorText: string := "list index out of range"

  /** `cd` with the words after it (`args`), the home lookup, the working directory and
      the `chdir` oracle:
      - a failed home lookup prints `"Err: " + message[:15]` whatever the target;
      - with a target, success prints `"-> " + cwd[:18]`, a missing directory
        `"No dir: " + target[:12]`, any other error `"Err: " + message[:15]`;
      - without a target the home directory is entered and success prints `"-> ~"`; a
        missing home makes the handler index the absent target, and that `IndexError`
        is caught by the outer handler, which prints `"Err:" + message[:17]`. */
  function Cd(args: seq<string>, home: Lookup, workingDir: string, chdir: string -> ChdirOutcome): CdResult {
    match home
    case LookupError(msg) => CdResult("Err: " + Take(msg, 15), workingDir)
    case Found(h) =>
      if args != [] then
        match chdir(ResolveTarget(args[0], h, workingDir))
        case Changed(cwd) => CdResult("-> " + Take(cwd, 18), cwd)
        case NotFound => CdResult("No dir: " + Take(args[0], 12), workingDir)
        case Failed(msg) => CdResult("Err: " + Take(msg, 15), workingDir)
      else
        match chdir(h)
        case Changed(cwd) => CdResult("-> ~", cwd)
        case NotFound => CdResult("Err:" + Take(IndexErrorText, 17), workingDir)
        case Failed(msg) => CdResult("Err: " + Take(msg, 15), workingDir)
  }

  /** Every `cd` prints exactly one display line, which starts with `"-> "`,
      `"No dir: "` or `"Err"`; the working directory changes only to what `getcwd`
      reports after a successful `chdir`, and a failed home lookup leaves it alone. */
  lemma CdOutcome(args: seq<string>, home: Lookup, workingDir: string, chdir: string -> ChdirOutcome)
    ensures var r := Cd(args, home, workingDir, chdir);
      0 < |r.line| <= LineWidth
      && (StartsWith(r.line, "-> ") || StartsWith(r.line, "No dir: ") || StartsWith(r.line, "Err"))
      && (r.dir != workingDir ==> home.Found? && StartsWith(r.line, "-> "))
      && (home.LookupError? ==> r.dir == workingDir && StartsWith(r.line, "Err: "))
    ensures home.Found? ==>
      var target := if args != [] then ResolveTarget(args[0], home.path, workingDir) else home.path;
      var r := Cd(args, home, workingDir, chdir);
      (chdir(target).Changed? ==> r.dir == chdir(target).cwd && StartsWith(r.line, "-> "))
      && (!chdir(target).Changed? ==> r.dir == workingDir && !StartsWith(r.line, "-> "))
  {
    var r := Cd(args, home, workingDir, chdir);
    if home.Found? {
      var target := if args != [] then ResolveTarget(args[0], home.path, workingDir) else home.path;
      match chdir(target)
      case Changed(cwd) =>
      case NotFound =>
        assert r.line[1] != '>';
      case Failed(msg) =>
        assert r.line[..5] == "Err: " && r.line[0] == 'E';
    } else {
      assert r.line[..5] == "Err: ";
    }
  }

  /** A bare `cd` whose home directory is missing prints the truncated `IndexError`
      text, not `"No dir: ..."`. */
  lemma BareCdMissingHome(h: string, workingDir: string, chdir: string -> ChdirOutcome)
    requires chdir(h) == NotFound
    ensures Cd([], Found(h), workingDir, chdir).line == "Err:list index out of"
  {
    assert Take(IndexErrorText, 17) == IndexErrorText[..17] == "list index out of";
  }
}
