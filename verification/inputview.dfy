/** How the command line is laid out under the output (terminal.py,
    `draw_terminal_only`): spaces are shown as `'_'`, the text is wrapped into a first
    line of 18 characters (after the `pi$` prompt) and further lines of 21, only the last
    three lines are drawn, and the caret is placed by arithmetic on the cursor position. */
module InputView {
  import opened Text
  import opened Wrappers

  /** Characters on the first input line, after the prompt. */
  const FirstWidth: nat := 18
  /** Input lines drawn at once. */
  const VisibleInputRows: nat := 3

  /** `command_input.replace(' ', '_')`. */
  function DisplayText(input: string): (t: string)
    ensures |t| == |input|
    ensures forall k :: 0 <= k < |t| ==> t[k] == if input[k] == ' ' then '_' else input[k]
  {
    if input == [] then []
    else [if input[0] == ' ' then '_' else input[0]] + DisplayText(input[1..])
  }

  /** The wrapped lines: the whole text when it fits the first line (even when empty),
      otherwise its first 18 characters followed by pieces of 21. */
  function InputLines(text: string): seq<string> {
    if |text| <= FirstWidth then [text]
    else [text[..FirstWidth]] + Chunks(text[FirstWidth..], LineWidth)
  }

  /** There is always a first line; it holds at most 18 characters and every further
      line between 1 and 21; together they spell the text; and there are exactly as many
      further lines as 21-character pieces are needed for the rest. */
  lemma InputLinesShape(text: string)
    ensures var ls := InputLines(text);
      |ls| >= 1 && |ls[0]| <= FirstWidth
      && (forall k :: 1 <= k < |ls| ==> 0 < |ls[k]| <= LineWidth)
      && Concat(ls) == text
      && (|text| <= FirstWidth <==> |ls| == 1)
      && (|text| > FirstWidth ==> (|ls| - 2) * LineWidth < |text| - FirstWidth <= (|ls| - 1) * LineWidth)
  {
    var ls := InputLines(text);
    if |text| > FirstWidth {
      var rest := text[FirstWidth..];
      ChunksSpell(rest, LineWidth);
      ChunksCount(rest, LineWidth);
      assert ls[1..] == Chunks(rest, LineWidth);
      assert text == text[..FirstWidth] + rest;
    } else {
      assert Concat(ls) == text + Concat([]);
    }
  }

  /** The wrap as the drawing code computes it: the first line, then a loop that takes
      21 characters off the remaining text while any is left. */
  method WrapInput(text: string) returns (lines: seq<string>)
    ensures lines == InputLines(text)
  {
    if |text| <= FirstWidth {
      lines := [text];
    } else {
      lines := [text[..FirstWidth]];
      var remaining := text[FirstWidth..];
      while remaining != []
        invariant lines + Chunks(remaining, LineWidth) == InputLines(text)
        decreases |remaining|
      {
        var piece := Take(remaining, LineWidth);
        assert lines + Chunks(remaining, LineWidth) == lines + [piece] + Chunks(Drop(remaining, LineWidth), LineWidth);
        lines := lines + [piece];
        remaining := Drop(remaining, LineWidth);
      }
    }
  }

  /** `wrapped_lines[-3:]`: the lines that are drawn. */
  function VisibleInput(lines: seq<string>): (v: seq<string>)
    ensures |v| == if |lines| < VisibleInputRows then |lines| else VisibleInputRows
    ensures v == lines[|lines| - |v|..]
  {
    if |lines| <= VisibleInputRows then lines else lines[|lines| - VisibleInputRows..]
  }

  /** The caret's line and offset for cursor position `cp`, by the drawing code's
      arithmetic: line 0 up to 18 characters, then one line per 21. */
  datatype Caret = Caret(line: nat, offset: nat)

  function CaretOf(cp: nat): Caret {
    if cp <= FirstWidth then Caret(0, cp)
    else Caret(1 + (cp - FirstWidth) / LineWidth, (cp - FirstWidth) % LineWidth)
  }

  /** The caret sits in front of the character at the cursor: for `cp < |text|` it names
      an existing line and the position of `text[cp]` in it. The one exception is
      `cp == 18` with a longer text: the caret then stays at the end of the full first
      line although `text[18]` starts the second. */
  lemma CaretBeforeCharacter(text: string, cp: nat)
    requires cp < |text|
    ensures var ls := InputLines(text); var c := CaretOf(cp);
      c.line < |ls| && c.offset <= |ls[c.line]|
      && (cp != FirstWidth ==> c.offset < |ls[c.line]| && ls[c.line][c.offset] == text[cp])
      && (cp == FirstWidth ==> c == Caret(0, FirstWidth) && |ls[0]| == FirstWidth && ls[1][0] == text[cp])
  {
    var ls := InputLines(text);
    if cp >= FirstWidth {
      var rest := text[FirstWidth..];
      var j := cp - FirstWidth;
      ChunkAt(rest, LineWidth, j / LineWidth, j % LineWidth);
      assert ls[1..] == Chunks(rest, LineWidth);
    }
  }

  /** With the cursor at the end of the text, the caret follows the last character on
      the last line, except when the text overflows the first line by an exact multiple
      of 21: then it lands on a line that does not exist and is not drawn. */
  lemma CaretAtEnd(text: string)
    ensures var ls := InputLines(text); var c := CaretOf(|text|);
      var overflow := |text| > FirstWidth && (|text| - FirstWidth) % LineWidth == 0;
      (overflow ==> c.line == |ls| && c.offset == 0)
      && (!overflow ==> c.line == |ls| - 1 && c.offset == |ls[c.line]|)
  {
    var ls := InputLines(text);
    if |text| > FirstWidth {
      var rest := text[FirstWidth..];
      var pieces := Chunks(rest, LineWidth);
      assert ls == [text[..FirstWidth]] + pieces;
      var m := |pieces|;
      ChunksCount(rest, LineWidth);
      ChunksSpell(rest, LineWidth);
      ChunksPrefix(rest, LineWidth, m - 1);
      assert pieces == pieces[..m - 1] + [pieces[m - 1]];
      ConcatAppend(pieces[..m - 1], [pieces[m - 1]]);
      assert Concat([pieces[m - 1]]) == pieces[m - 1] + Concat([]);
      LastPieceDivision(|rest|, m, |pieces[m - 1]|);
    }
  }

  /** Division facts behind `CaretAtEnd`: `n = (m - 1) * 21 + l` with `0 < l <= 21`. */
  lemma LastPieceDivision(n: nat, m: nat, l: nat)
    requires m >= 1 && 0 < l <= LineWidth && n == (m - 1) * LineWidth + l
    ensures n % LineWidth == 0 ==> l == LineWidth && 1 + n / LineWidth == m + 1
    ensures n % LineWidth != 0 ==> 1 + n / LineWidth == m && n % LineWidth == l
  {
    if l == LineWidth {
      assert n == m * LineWidth;
    }
  }

  /** Where the caret is drawn among the visible lines: its row among the last three,
      or nothing when its line is not among them. */
  function VisibleCaret(text: string, cp: nat): Option<Caret> {
    var ls := InputLines(text);
    var c := CaretOf(cp);
    var idx := c.line - (|ls| - |VisibleInput(ls)|);
    if 0 <= idx < |VisibleInput(ls)| then Some(Caret(idx, c.offset)) else None
  }

  /** The caret is drawn exactly when its line is one of the drawn lines, and then on the
      row showing that line. Typing at the end of the text keeps it drawn on the last
      row, except in the exact-overflow case of `CaretAtEnd`. */
  lemma VisibleCaretRow(text: string, cp: nat)
    ensures var ls := InputLines(text); var v := VisibleInput(ls); var c := CaretOf(cp);
      var r := VisibleCaret(text, cp);
      (r.Some? <==> |ls| - |v| <= c.line < |ls|)
      && (r.Some? ==> r.value.offset == c.offset && v[r.value.line] == ls[c.line])
    ensures cp == |text| && !(|text| > FirstWidth && (|text| - FirstWidth) % LineWidth == 0) ==>
      VisibleCaret(text, cp).Some? && VisibleCaret(text, cp).value.line == |VisibleInput(InputLines(text))| - 1
  {
    InputLinesShape(text);
    if cp == |text| {
      CaretAtEnd(text);
    }
  }
}
