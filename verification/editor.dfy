/** The two edits the on-screen keyboard makes to the command line (terminal.py,
    `handle_keyboard_input`): inserting a character at the cursor and deleting the one
    before it. */
module Editor {

  /** `s[:i] + c + s[i:]`. */
  function InsertAt(s: string, i: nat, c: char): (r: string)
    requires i <= |s|
    ensures |r| == |s| + 1
    ensures r[..i] == s[..i] && r[i] == c && r[i + 1..] == s[i..]
  {
    s[..i] + [c] + s[i..]
  }

  /** `s[:i-1] + s[i:]`. */
  function DeleteBefore(s: string, i: nat): (r: string)
    requires 0 < i <= |s|
    ensures |r| == |s| - 1
    ensures r[..i - 1] == s[..i - 1] && r[i - 1..] == s[i..]
  {
    s[..i - 1] + s[i..]
  }

  /** Backspace right after typing a character takes it out again. */
  lemma DeleteUndoesInsert(s: string, i: nat, c: char)
    requires i <= |s|
    ensures DeleteBefore(InsertAt(s, i, c), i + 1) == s
  {
    var t := InsertAt(s, i, c);
    var r := DeleteBefore(t, i + 1);
    assert r == r[..i] + r[i..];
    assert s == s[..i] + s[i..];
  }

  /** Typing the character just deleted puts it back. */
  lemma InsertUndoesDelete(s: string, i: nat)
    requires 0 < i <= |s|
    ensures InsertAt(DeleteBefore(s, i), i - 1, s[i - 1]) == s
  {
    var d := DeleteBefore(s, i);
    var r := InsertAt(d, i - 1, s[i - 1]);
    assert r == r[..i - 1] + [r[i - 1]] + r[i..];
    assert s == s[..i - 1] + [s[i - 1]] + s[i..];
  }
}
