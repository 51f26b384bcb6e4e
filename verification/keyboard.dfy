/** The on-screen keyboard of the terminal (terminal.py, `keyboard_layouts`,
    `keyboard_bottom_row` and the key handling of `handle_keyboard_input`): two pages of
    four rows of ten character keys, and a bottom row of seven editing keys shared by
    both pages. */
module Keyboard {

  /** A key as the handler tells keys apart: a character key, or one of the named keys
      of the bottom row. */
  datatype Key =
    | Char(c: char)
    | CursorLeft   // "<-"
    | CursorRight  // "->"
    | Space        // "SPC"
    | CapsLock     // "CAPS"
    | Backspace    // "BSP"
    | Clear        // "CLR"
    | More         // "MORE"

  /** The character rows of both pages. */
  const Layouts: seq<seq<string>> := [
    ["abcdefghij", "klmnopqrst", "uvwxyz0123", "456789.-_/"],
    ["!@#$%^&*()", "[]{}<>|\\:;", "\"'`~+=?,!@", "#$%^&*()[]"]
  ]

  /** The bottom row, row 4 on either page. */
  const BottomRow: seq<Key> := [CursorLeft, CursorRight, Space, CapsLock, Backspace, Clear, More]

  /** Index of the bottom row. */
  const BottomRowIndex: nat := 4

  /** Number of keys on row `row` of page `page`. */
  function RowWidth(page: nat, row: nat): (w: nat)
    requires page < 2 && row <= BottomRowIndex
  {
    if row < BottomRowIndex then |Layouts[page][row]| else |BottomRow|
  }

  /** Every character row holds ten keys and the bottom row seven. */
  lemma RowWidths(page: nat, row: nat)
    requires page < 2 && row <= BottomRowIndex
    ensures RowWidth(page, row) == if row < BottomRowIndex then 10 else 7
  {
  }

  /** A grid position that names a key. */
  predicate OnKey(page: nat, row: nat, col: nat) {
    page < 2 && row <= BottomRowIndex && col < RowWidth(page, row)
  }

  /** The top-left key, where a page change or opening the keyboard puts the selection,
      exists on both pages. */
  lemma FirstKeyOfPage(page: nat)
    requires page < 2
    ensures OnKey(page, 0, 0)
  {
    RowWidths(page, 0);
  }

  /** The key under the selection: a character of the page's layout on rows 0-3, a key of
      the bottom row on row 4. */
  function KeyAt(page: nat, row: nat, col: nat): (k: Key)
    requires OnKey(page, row, col)
    ensures row < BottomRowIndex <==> k.Char?
  {
    if row < BottomRowIndex then Char(Layouts[page][row][col]) else BottomRow[col]
  }

  /** ASCII letters, the only characters on the keyboard that `str.isalpha()` accepts. */
  predicate IsLetter(c: char) {
    'a' <= c <= 'z' || 'A' <= c <= 'Z'
  }

  /** `key.upper()` for a letter under caps lock; every other key is typed as is. */
  function Typed(c: char, caps: bool): (t: char)
    ensures !caps || !IsLetter(c) ==> t == c
    ensures caps && 'a' <= c <= 'z' ==> 'A' <= t <= 'Z' && t as int == c as int - 32
    ensures caps && 'A' <= c <= 'Z' ==> t == c
  {
    if caps && 'a' <= c <= 'z' then (c as int - 32) as char else c
  }

  /** The letters of page 0 are exactly the lower-case ones, so caps lock changes only
      those keys, and page 1 has no letters at all. */
  lemma LettersOnlyOnFirstPage(page: nat, row: nat, col: nat)
    requires OnKey(page, row, col) && row < BottomRowIndex
    ensures var c := KeyAt(page, row, col).c;
      (IsLetter(c) ==> page == 0 && 'a' <= c <= 'z') && (page == 0 && row < 2 ==> IsLetter(c))
  {
    RowWidths(page, row);
    var r := Layouts[page][row];
    if page == 0 {
      assert r == Layouts[0][row];
    }
  }
}
