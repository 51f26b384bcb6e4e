/** What the PTY reader turns the child's output into (terminal.py, `read_pty_output`),
    and which part of the output list the screen shows (`draw_terminal_only`). */
module OutputBuffer {
  import opened Text
  import opened Wrappers

  /** Output lines shown at once. */
  const VisibleRows: nat := 6

  /** A line the reader may append: non-empty and no wider than the screen. */
  predicate IsDisplayLine(l: string) {
    0 < |l| <= LineWidth
  }

  predicate AllDisplayLines(ls: seq<string>) {
    forall k :: 0 <= k < |ls| ==> IsDisplayLine(ls[k])
  }

  /** The buffer still holds a line terminator, so the inner loop runs again. */
  predicate HasBreak(b: string) {
    Find(b, '\n') < |b| || Find(b, '\r') < |b|
  }

  /** No line terminator of either kind. */
  predicate NoBreak(b: string) {
    Lacks(b, '\n') && Lacks(b, '\r')
  }

  lemma NoBreakIff(b: string)
    ensures NoBreak(b) <==> !HasBreak(b)
  {
    if !HasBreak(b) {
      FindUnique(b, '\n', |b|);
    }
  }

  /** Where the buffer is cut: at the first `'\n'` if there is one anywhere, otherwise
      at the first `'\r'`. */
  function CutPoint(b: string): (i: nat)
    requires HasBreak(b)
    ensures i < |b|
  {
    if Find(b, '\n') < |b| then Find(b, '\n') else Find(b, '\r')
  }

  /** The lines one cut-off segment becomes: stripped, dropped when empty, otherwise
      cut into pieces of `LineWidth` characters, the last one possibly shorter. */
  function SegmentLines(seg: string): seq<string> {
    Chunks(Strip(seg), LineWidth)
  }

  /** The pieces of a segment are display lines, there are ceil(n / 21) of them for a
      stripped length n, and together they spell the stripped segment. */
  lemma SegmentRoundTrip(seg: string)
    ensures AllDisplayLines(SegmentLines(seg))
    ensures Concat(SegmentLines(seg)) == Strip(seg)
    ensures var n := |Strip(seg)|; var m := |SegmentLines(seg)|;
      (n == 0 <==> m == 0) && (n > 0 ==> (m - 1) * LineWidth < n <= m * LineWidth)
  {
    ChunksCount(Strip(seg), LineWidth);
    ChunksSpell(Strip(seg), LineWidth);
  }

  lemma SegmentLinesDisplay(seg: string)
    ensures AllDisplayLines(SegmentLines(seg))
  {
    var r := Chunks(Strip(seg), LineWidth);
    assert forall k :: 0 <= k < |r| ==> 0 < |r[k]| <= LineWidth;
  }

  lemma AllDisplayLinesAppend(xs: seq<string>, ys: seq<string>)
    requires AllDisplayLines(xs) && AllDisplayLines(ys)
    ensures AllDisplayLines(xs + ys)
  {
  }

  /** Segments cut off the buffer, in order, and the unterminated text left over. */
  datatype Split = Split(segments: seq<string>, rest: string)

  /** The cutting done by the inner `while '\n' in buffer or '\r' in buffer` loop: cut a
      segment off the front of the buffer until no terminator is left. */
  function Cut(b: string): (s: Split)
    ensures !HasBreak(s.rest)
    ensures |s.rest| <= |b|
    decreases |b|
  {
    if HasBreak(b) then
      var i := CutPoint(b);
      var t := Cut(b[i + 1..]);
      Split([b[..i]] + t.segments, t.rest)
    else
      Split([], b)
  }

  /** `f` applied to every element, results concatenated in order. */
  function FlatMap(f: string -> seq<string>, xs: seq<string>): seq<string> {
    if xs == [] then [] else f(xs[0]) + FlatMap(f, xs[1..])
  }

  lemma {:induction false} FlatMapAppend(f: string -> seq<string>, xs: seq<string>, ys: seq<string>)
    ensures FlatMap(f, xs + ys) == FlatMap(f, xs) + FlatMap(f, ys)
  {
    if xs != [] {
      assert (xs + ys)[1..] == xs[1..] + ys;
      FlatMapAppend(f, xs[1..], ys);
      AppendAssoc(f(xs[0]), FlatMap(f, xs[1..]), FlatMap(f, ys));
    } else {
      assert xs + ys == ys;
    }
  }

  /** Every line produced from a list of segments fits the screen. */
  lemma {:induction false} SegmentsDisplay(segs: seq<string>)
    ensures AllDisplayLines(FlatMap(SegmentLines, segs))
  {
    if segs != [] {
      SegmentLinesDisplay(segs[0]);
      SegmentsDisplay(segs[1..]);
      AllDisplayLinesAppend(SegmentLines(segs[0]), FlatMap(SegmentLines, segs[1..]));
    }
  }

  /** Lines produced and text left over. */
  datatype Drained = Drained(lines: seq<string>, rest: string)

  /** The inner loop with its output: every segment cut off the buffer becomes its
      `SegmentLines`; what is left waits for the next read. */
  function Drain(b: string): (d: Drained)
    ensures NoBreak(d.rest)
    ensures AllDisplayLines(d.lines)
  {
    var s := Cut(b);
    NoBreakIff(s.rest);
    SegmentsDisplay(s.segments);
    Drained(FlatMap(SegmentLines, s.segments), s.rest)
  }

  /** One turn of the inner loop: a buffer holding a terminator yields the lines of the
      segment before the cut point, then whatever the text after it yields. */
  lemma DrainStep(b: string)
    requires HasBreak(b)
    ensures var i := CutPoint(b);
      Drain(b) == Drained(SegmentLines(b[..i]) + Drain(b[i + 1..]).lines, Drain(b[i + 1..]).rest)
  {
  }

  /** `DrainStep` as the reader's loop uses it: the lines already collected followed by
      what the buffer still yields stay the same when one segment is cut off and its
      lines are collected. */
  lemma DrainCollect(out: seq<string>, b: string, i: nat, tail: Drained)
    requires HasBreak(b) && i == CutPoint(b) && tail == Drain(b[i + 1..])
    ensures out + Drain(b).lines == (out + SegmentLines(b[..i])) + tail.lines
    ensures Drain(b).rest == tail.rest
  {
    DrainStep(b);
    AppendAssoc(out, SegmentLines(b[..i]), tail.lines);
  }

  /** With no terminator left, the inner loop does not run. */
  lemma DrainNoBreak(b: string)
    requires NoBreak(b)
    ensures Drain(b) == Drained([], b)
  {
    NoBreakIff(b);
  }

  /** What is left over is the unterminated tail of the buffer. */
  lemma CutRestIsSuffix(b: string)
    ensures Cut(b).rest == b[|b| - |Cut(b).rest|..]
  {
    var s := Cut(b);
    CutRebuilds(b, s, CutTerminators(b));
    var front := Rejoin(s.segments, CutTerminators(b));
    assert b[|front|..] == s.rest;
  }

  /** The terminator each segment was cut at, in order. */
  function CutTerminators(b: string): (ts: seq<char>)
    ensures |ts| == |Cut(b).segments|
    decreases |b|
  {
    if HasBreak(b) then [b[CutPoint(b)]] + CutTerminators(b[CutPoint(b) + 1..]) else []
  }

  /** Each segment followed by its terminator, concatenated. */
  function Rejoin(segs: seq<string>, ts: seq<char>): string
    requires |segs| == |ts|
  {
    if segs == [] then [] else segs[0] + [ts[0]] + Rejoin(segs[1..], ts[1..])
  }

  /** One cut, as the reconstruction lemmas use it: the segment `b[..i]` and the
      terminator `b[i]` come off the front, and the rest comes from the text `t` after. */
  lemma CutFront(b: string, i: nat, t: string)
    requires HasBreak(b) && i == CutPoint(b) && t == b[i + 1..]
    ensures Cut(b).segments == [b[..i]] + Cut(t).segments && Cut(b).rest == Cut(t).rest
    ensures CutTerminators(b) == [b[i]] + CutTerminators(t)
    ensures b == b[..i] + [b[i]] + t
  {
    CutTerminatorsFront(b, i, t);
    SplitAround(b, i);
  }

  lemma CutTerminatorsFront(b: string, i: nat, t: string)
    requires HasBreak(b) && i == CutPoint(b) && t == b[i + 1..]
    ensures CutTerminators(b) == [b[i]] + CutTerminators(t)
  {
  }

  lemma SplitAround(b: string, i: nat)
    requires i < |b|
    ensures b == b[..i] + [b[i]] + b[i + 1..]
  {
  }

  /** The inner loop loses nothing but the terminators: the segments `s.segments`, each
      followed by the terminator in `ts` it was cut at, and then the leftover `s.rest`
      spell the buffer again. */
  lemma {:induction false} CutRebuilds(b: string, s: Split, ts: seq<char>)
    requires s == Cut(b) && ts == CutTerminators(b)
    ensures |ts| == |s.segments| && Rejoin(s.segments, ts) + s.rest == b
    decreases |b|
  {
    if HasBreak(b) {
      var i := CutPoint(b);
      var t := b[i + 1..];
      CutFront(b, i, t);
      var s', ts' := Cut(t), CutTerminators(t);
      CutRebuilds(t, s', ts');
      assert s.segments == [b[..i]] + s'.segments && ts == [b[i]] + ts' && s.rest == s'.rest;
      RebuildStep(b, b[..i], b[i], t, s'.segments, ts', s'.rest);
    } else {
      assert s.segments == [] && ts == [] && s.rest == b;
    }
  }

  /** Putting one segment and its terminator in front of a rebuilt tail `t` rebuilds
      `b`. */
  lemma RebuildStep(b: string, seg: string, term: char, t: string, segs: seq<string>, ts: seq<char>, rest: string)
    requires |segs| == |ts| && Rejoin(segs, ts) + rest == t && b == seg + [term] + t
    ensures Rejoin([seg] + segs, [term] + ts) + rest == b
  {
    assert ([seg] + segs)[1..] == segs && ([term] + ts)[1..] == ts;
    AppendAssoc(seg + [term], Rejoin(segs, ts), rest);
  }

  /** Every terminator in `ts` is `'\n'` or `'\r'`. */
  lemma {:induction false} CutTerminatorsBreak(b: string, ts: seq<char>)
    requires ts == CutTerminators(b)
    ensures forall k :: 0 <= k < |ts| ==> ts[k] == '\n' || ts[k] == '\r'
    decreases |b|
  {
    if HasBreak(b) {
      var i := CutPoint(b);
      var t := b[i + 1..];
      CutTerminatorsFront(b, i, t);
      CutTerminatorsBreak(t, CutTerminators(t));
    }
  }

  /** No segment holds a `'\n'`, and a segment cut at a `'\r'` (the terminator in
      `ts`) holds no `'\r'` either. */
  lemma {:induction false} CutSegmentsClean(b: string, s: Split, ts: seq<char>)
    requires s == Cut(b) && ts == CutTerminators(b)
    ensures |ts| == |s.segments|
    ensures forall k :: 0 <= k < |ts| ==>
      Lacks(s.segments[k], '\n') && (ts[k] == '\r' ==> Lacks(s.segments[k], '\r'))
    decreases |b|
  {
    if HasBreak(b) {
      var i := CutPoint(b);
      var t := b[i + 1..];
      CutFront(b, i, t);
      var s', ts' := Cut(t), CutTerminators(t);
      CutSegmentsClean(t, s', ts');
      FirstSegmentClean(b, i);
      assert s.segments == [b[..i]] + s'.segments && ts == [b[i]] + ts';
    } else {
      assert ts == [];
    }
  }

  /** The segment cut off first holds no `'\n'`, and none of `'\r'` when it is cut at
      one. */
  lemma FirstSegmentClean(b: string, i: nat)
    requires HasBreak(b) && i == CutPoint(b)
    ensures Lacks(b[..i], '\n') && (b[i] == '\r' ==> Lacks(b[..i], '\r'))
  {
    if Find(b, '\n') == |b| {
      assert Lacks(b, '\n');
    }
  }

  /** A character absent from the buffer is absent from the leftover. */
  lemma DrainRestLacks(b: string, c: char)
    requires Lacks(b, c)
    ensures Lacks(Drain(b).rest, c)
  {
    CutRestIsSuffix(b);
  }

  /** The first newline cuts the buffer, whatever carriage returns come before it. */
  lemma CutAtNewline(a: string, c: string)
    requires Lacks(a, '\n')
    ensures Cut(a + "\n" + c) == Split([a] + Cut(c).segments, Cut(c).rest)
  {
    var b := a + "\n" + c;
    assert b[|a|] == '\n';
    assert b[..|a|] == a;
    FindUnique(b, '\n', |a|);
    assert b[|a| + 1..] == c;
  }

  /** A carriage return that comes before a later newline is not a terminator: the
      whole text up to the newline, carriage returns included, is one segment. */
  lemma CarriageReturnBeforeNewline(a: string, c: string)
    requires Lacks(a, '\n')
    ensures Drain(a + "\n" + c).lines == SegmentLines(a) + Drain(c).lines
  {
    CutAtNewline(a, c);
    var segs := [a] + Cut(c).segments;
    assert segs[1..] == Cut(c).segments;
  }

  /** With no newline anywhere in the buffer, the first carriage return cuts it. */
  lemma CutAtCarriageReturn(a: string, c: string)
    requires NoBreak(a) && Lacks(c, '\n')
    ensures Cut(a + "\r" + c) == Split([a] + Cut(c).segments, Cut(c).rest)
  {
    var b := a + "\r" + c;
    assert b[|a|] == '\r';
    assert b[..|a|] == a;
    FindUnique(b, '\n', |b|);
    FindUnique(b, '\r', |a|);
    assert b[|a| + 1..] == c;
  }

  /** Appending text after a newline does not move the first cut. */
  lemma CutExtends(b: string, c: string)
    requires Find(b, '\n') < |b|
    ensures var i := Find(b, '\n'); var t := Cut(b[i + 1..] + c);
      Cut(b + c) == Split([b[..i]] + t.segments, t.rest)
  {
    var i := Find(b, '\n');
    var bc := b + c;
    assert bc[i] == '\n' && bc[..i] == b[..i];
    FindUnique(bc, '\n', i);
    assert bc[i + 1..] == b[i + 1..] + c;
  }

  /** Without carriage returns, cutting `b + c` at once gives the segments of `b`
      followed by those of its leftover joined to `c`. */
  lemma {:induction false} CutAppend(b: string, c: string)
    requires Lacks(b, '\r') && Lacks(c, '\r')
    ensures Cut(b + c).segments == Cut(b).segments + Cut(Cut(b).rest + c).segments
    ensures Cut(b + c).rest == Cut(Cut(b).rest + c).rest
    decreases |b|
  {
    var i := Find(b, '\n');
    if i < |b| {
      var tail := b[i + 1..];
      CutAppend(tail, c);
      CutExtends(b, c);
      CutAtFirstNewline(b, i, Cut(tail));
      AppendAssoc([b[..i]], Cut(tail).segments, Cut(Cut(tail).rest + c).segments);
    } else {
      CutWithoutTerminator(b);
    }
  }

  /** A buffer with a newline is cut at its first newline `i`. */
  lemma CutAtFirstNewline(b: string, i: nat, t: Split)
    requires i == Find(b, '\n') && i < |b| && t == Cut(b[i + 1..])
    ensures Cut(b) == Split([b[..i]] + t.segments, t.rest)
  {
  }

  /** A buffer without newline or carriage return is not cut at all. */
  lemma CutWithoutTerminator(b: string)
    requires Find(b, '\n') == |b| && Lacks(b, '\r')
    ensures Cut(b) == Split([], b)
  {
    FindUnique(b, '\r', |b|);
  }

  /** Without carriage returns, splitting the stream into two reads does not change the
      result: draining `b` and then the leftover followed by `c` gives the same lines and
      leftover as draining `b + c` at once. */
  lemma DrainAppend(b: string, c: string)
    requires Lacks(b, '\r') && Lacks(c, '\r')
    ensures Drain(b + c).lines == Drain(b).lines + Drain(Drain(b).rest + c).lines
    ensures Drain(b + c).rest == Drain(Drain(b).rest + c).rest
  {
    CutAppend(b, c);
    FlatMapAppend(SegmentLines, Cut(b).segments, Cut(Cut(b).rest + c).segments);
  }

  /** How reads are split matters once a carriage return is involved. For two
      stripped, terminator-free pieces of text `x` and `y`, the single read
      `x + "\r" + y + "\n"` gives the lines of the one segment `x + "\r" + y`, while the
      read `x + "\r" + y` followed by the read `"\n"` gives the lines of `x` and then
      those of `y`, and the two results differ. */
  lemma ChunkingChangesLines(x: string, y: string)
    requires x != [] && y != [] && IsStripped(x) && IsStripped(y)
    requires NoBreak(x) && NoBreak(y)
    ensures var one := Drain(x + "\r" + y + "\n").lines;
      var d := Drain(x + "\r" + y);
      var two := d.lines + Drain(d.rest + "\n").lines;
      one == SegmentLines(x + "\r" + y) && two == SegmentLines(x) + SegmentLines(y) && one != two
  {
    var xy := x + "\r" + y;
    assert Lacks(xy, '\n') by { LacksAppend(x + "\r", y, '\n'); }
    OneReadKeepsCarriageReturn(xy);
    TwoReadsSplitAtCarriageReturn(x, y);
    OneSegmentDiffers(x, y);
  }

  /** Everything up to the only newline is one segment. */
  lemma OneReadKeepsCarriageReturn(xy: string)
    requires Lacks(xy, '\n')
    ensures Drain(xy + "\n").lines == SegmentLines(xy)
  {
    assert xy + "\n" == xy + "\n" + [];
    CarriageReturnBeforeNewline(xy, []);
    DrainNoBreak([]);
  }

  /** Without the newline, the carriage return ends `x`; the newline of the next read
      then ends `y`. */
  lemma TwoReadsSplitAtCarriageReturn(x: string, y: string)
    requires NoBreak(x) && NoBreak(y)
    ensures var d := Drain(x + "\r" + y);
      d.lines + Drain(d.rest + "\n").lines == SegmentLines(x) + SegmentLines(y)
  {
    DrainNoBreak(y);
    CutAtCarriageReturn(x, y);
    assert Cut(x + "\r" + y) == Split([x], y);
    assert Drain(x + "\r" + y) == Drained(SegmentLines(x), y);
    OneReadKeepsCarriageReturn(y);
  }

  /** The lines of `x + "\r" + y` spell a carriage return; those of `x` and `y` do not. */
  lemma OneSegmentDiffers(x: string, y: string)
    requires x != [] && y != [] && IsStripped(x) && IsStripped(y)
    requires NoBreak(x) && NoBreak(y)
    ensures SegmentLines(x + "\r" + y) != SegmentLines(x) + SegmentLines(y)
  {
    var xy := x + "\r" + y;
    assert xy[0] == x[0] && xy[|xy| - 1] == y[|y| - 1];
    StrippedIsFixed(xy);
    StrippedIsFixed(x);
    StrippedIsFixed(y);
    SegmentRoundTrip(xy);
    SegmentRoundTrip(x);
    SegmentRoundTrip(y);
    ConcatAppend(SegmentLines(x), SegmentLines(y));
    LacksAppend(x, y, '\r');
    assert xy[|x|] == '\r';
  }

  /** The outer reader loop over the reads `chunks`, starting from `buffer`: each read
      is appended to the buffer and drained; the lines accumulate and the leftover is
      carried to the next read. */
  function Pump(buffer: string, chunks: seq<string>): (d: Drained)
    ensures AllDisplayLines(d.lines)
    ensures chunks != [] ==> NoBreak(d.rest)
    decreases |chunks|
  {
    if chunks == [] then Drained([], buffer)
    else
      var p := Pump(buffer, chunks[..|chunks| - 1]);
      var d := Drain(p.rest + chunks[|chunks| - 1]);
      AllDisplayLinesAppend(p.lines, d.lines);
      Drained(p.lines + d.lines, d.rest)
  }

  /** One more read: the pump over `chunks + [c]` is the pump over `chunks` followed by
      draining its leftover with `c` appended. */
  lemma PumpSnoc(buffer: string, chunks: seq<string>, c: string)
    ensures var p := Pump(buffer, chunks); var d := Drain(p.rest + c);
      Pump(buffer, chunks + [c]) == Drained(p.lines + d.lines, d.rest)
  {
    assert (chunks + [c])[..|chunks|] == chunks;
  }

  /** `PumpSnoc` for the first `i + 1` reads of a sequence. */
  lemma PumpPrefix(buffer: string, chunks: seq<string>, i: nat, p: Drained)
    requires i < |chunks| && p == Pump(buffer, chunks[..i])
    ensures var d := Drain(p.rest + chunks[i]);
      Pump(buffer, chunks[..i + 1]) == Drained(p.lines + d.lines, d.rest)
  {
    assert chunks[..i + 1] == chunks[..i] + [chunks[i]];
    PumpSnoc(buffer, chunks[..i], chunks[i]);
  }

  /** For output without carriage returns, what the reader collects read by read is
      what draining the whole stream at once gives: the split into reads does not
      matter. */
  lemma {:induction false} PumpIsDrain(buffer: string, chunks: seq<string>)
    requires NoBreak(buffer)
    requires forall k :: 0 <= k < |chunks| ==> Lacks(chunks[k], '\r')
    ensures Pump(buffer, chunks) == Drain(buffer + Concat(chunks))
    decreases |chunks|
  {
    if chunks == [] {
      assert buffer + Concat(chunks) == buffer;
      DrainNoBreak(buffer);
    } else {
      var front := chunks[..|chunks| - 1];
      var c := chunks[|chunks| - 1];
      assert chunks == front + [c];
      PumpIsDrain(buffer, front);
      NoCharInConcat(front, '\r');
      PumpStep(buffer, front, c, Pump(buffer, front));
    }
  }

  /** The step of `PumpIsDrain`: draining everything before the last read at once and
      then the last read gives what draining the whole stream at once gives. */
  lemma PumpStep(buffer: string, front: seq<string>, c: string, p: Drained)
    requires Lacks(buffer, '\r') && Lacks(Concat(front), '\r') && Lacks(c, '\r')
    requires p == Pump(buffer, front) && p == Drain(buffer + Concat(front))
    ensures Pump(buffer, front + [c]) == Drain(buffer + Concat(front + [c]))
  {
    LacksAppend(buffer, Concat(front), '\r');
    PumpSnoc(buffer, front, c);
    ConcatSnoc(buffer, front, c);
    DrainAppend(buffer + Concat(front), c);
  }

  lemma {:induction false} NoCharInConcat(xs: seq<string>, c: char)
    requires forall k :: 0 <= k < |xs| ==> Lacks(xs[k], c)
    ensures Lacks(Concat(xs), c)
  {
    if xs != [] {
      NoCharInConcat(xs[1..], c);
      LacksAppend(xs[0], Concat(xs[1..]), c);
    }
  }

  /** The end-of-run flush: `if buffer.strip()`, every non-blank part of
      `buffer.strip().split('\n')`, stripped and truncated (not wrapped) to `LineWidth`. */
  function FlushLines(buffer: string): seq<string> {
    if IsBlank(buffer) then [] else KeepNonBlank(SplitOn(Strip(buffer), '\n'))
  }

  /** What the flush appends for one part: nothing when blank, otherwise the stripped
      part cut to `LineWidth` characters. */
  function FlushLine(part: string): (r: seq<string>)
    ensures AllDisplayLines(r)
    ensures r == [] <==> IsBlank(part)
  {
    if IsBlank(part) then [] else [Take(Strip(part), LineWidth)]
  }

  /** The flush lines of `parts`, in order. */
  function KeepNonBlank(parts: seq<string>): (r: seq<string>)
    ensures AllDisplayLines(r)
    ensures |r| <= |parts|
  {
    if parts == [] then []
    else
      var front := KeepNonBlank(parts[..|parts| - 1]);
      var last := FlushLine(parts[|parts| - 1]);
      AllDisplayLinesAppend(front, last);
      front + last
  }

  /** The flush lines of the first `k + 1` parts extend those of the first `k`. */
  lemma KeepNonBlankPrefix(parts: seq<string>, k: nat)
    requires k < |parts|
    ensures KeepNonBlank(parts[..k + 1]) == KeepNonBlank(parts[..k]) + FlushLine(parts[k])
  {
    assert parts[..k + 1][..k] == parts[..k];
  }

  /** With no newline left in the buffer (which is always the case after `Drain`), the
      flush appends at most one line: the stripped leftover, truncated to 21 characters. */
  lemma FlushAtMostOneLine(buffer: string)
    requires Lacks(buffer, '\n')
    ensures FlushLines(buffer) == if IsBlank(buffer) then [] else [Take(Strip(buffer), LineWidth)]
    ensures AllDisplayLines(FlushLines(buffer))
  {
    if !IsBlank(buffer) {
      var s := Strip(buffer);
      StripKeepsAbsence(buffer, '\n');
      FindUnique(s, '\n', |s|);
      assert SplitOn(s, '\n') == [s];
      assert !IsBlank(s);
      StripIdempotent(buffer);
      assert [s][..0] == [];
    }
  }

  /** The marker appended after the flush while the process is still attached:
      `"Done!"` for return code 0, `"Exit:<code>"` for any other code, nothing when the
      code is unknown. */
  function ExitMarker(returnCode: Option<int>): seq<string> {
    match returnCode
    case Some(0) => ["Done!"]
    case Some(code) => ["Exit:" + IntToString(code)]
    case None => []
  }

  /** The marker is exactly one line iff a return code is known; it is "Done!" iff that
      code is 0; otherwise it reads "Exit:" followed by a number that parses back to the
      code. */
  lemma ExitMarkerCases(returnCode: Option<int>)
    ensures |ExitMarker(returnCode)| == (if returnCode.Some? then 1 else 0)
    ensures ExitMarker(returnCode) == ["Done!"] <==> returnCode == Some(0)
    ensures returnCode.Some? && returnCode.value != 0 ==>
      var m := ExitMarker(returnCode)[0];
      |m| > 5 && m[..5] == "Exit:" && ParseInt(m[5..]) == returnCode.value
  {
    if returnCode.Some? && returnCode.value != 0 {
      var m := ExitMarker(returnCode)[0];
      assert m[5..] == IntToString(returnCode.value);
      IntToStringRoundTrip(returnCode.value);
    }
  }

  /** Largest scroll-back: the lines beyond one screenful. */
  function MaxScroll(n: nat): nat {
    if n > VisibleRows then n - VisibleRows else 0
  }

  /** Python's normalisation of a slice bound `i` for a sequence of length `n`. */
  function SliceBound(i: int, n: nat): (r: nat)
    ensures r <= n
  {
    if i < 0 then (if i + n < 0 then 0 else i + n)
    else if i > n then n
    else i
  }

  /** Python `s[i:j]`. */
  function Slice<T>(s: seq<T>, i: int, j: int): seq<T> {
    var a := SliceBound(i, |s|);
    var b := SliceBound(j, |s|);
    if a < b then s[a..b] else []
  }

  /** `output_lines[max(0, n - 6 - offset) : n - offset]`. */
  function VisibleLines(lines: seq<string>, offset: nat): seq<string> {
    var n := |lines|;
    var start := if n - VisibleRows - offset > 0 then n - VisibleRows - offset else 0;
    Slice(lines, start, n - offset)
  }

  /** With the offset in its range the window holds `min(6, n)` lines and ends
      `offset` lines before the last one. */
  lemma VisibleWindow(lines: seq<string>, offset: nat)
    requires offset <= MaxScroll(|lines|)
    ensures var v := VisibleLines(lines, offset); var n := |lines|;
      |v| == (if n < VisibleRows then n else VisibleRows) &&
      v == lines[n - offset - |v|..n - offset]
  {
  }
}
