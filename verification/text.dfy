/** String helpers with the meaning of the Python built-ins the terminal relies on:
    `str.isspace`, `str.strip`, `str.split()`, `str.split(sep)`, slicing `s[:n]` and
    `s[n:]`, `str.replace` and `str(int)`; and the width of a screen line. */
module Text {

  /** Python's `str.isspace()` on one character: the ASCII controls TAB..CR and
      FS..US, the space, and the Unicode separators Python counts as whitespace. */
  predicate IsSpace(c: char) {
    || c == ' '
    || '\t' <= c <= '\r'
    || '\U{1c}' <= c <= '\U{1f}'
    || c == '\U{85}' || c == '\U{a0}' || c == '\U{1680}'
    || '\U{2000}' <= c <= '\U{200a}'
    || c == '\U{2028}' || c == '\U{2029}' || c == '\U{202f}' || c == '\U{205f}' || c == '\U{3000}'
  }

  /** Characters across the screen in the terminal font: the width of an output line
      and of every input line after the first. */
  const LineWidth: nat := 21

  /** True when `s.strip()` is empty in Python, i.e. `not s.strip()`. */
  predicate IsBlank(s: string) {
    forall k :: 0 <= k < |s| ==> IsSpace(s[k])
  }

  /** Python `s[:n]` for a non-negative `n`. */
  function Take(s: string, n: nat): (r: string)
    ensures |r| == if |s| <= n then |s| else n
    ensures r <= s
  {
    if |s| <= n then s else s[..n]
  }

  /** Python `s[n:]` for a non-negative `n`: what `Take(s, n)` leaves. */
  function Drop(s: string, n: nat): (r: string)
    ensures |r| == if |s| <= n then 0 else |s| - n
    ensures Take(s, n) + r == s
  {
    if |s| <= n then [] else s[n..]
  }

  /** Number of whitespace characters at the start of `s`. */
  function LeadingSpaces(s: string): (n: nat)
    ensures n <= |s|
    ensures forall k :: 0 <= k < n ==> IsSpace(s[k])
    ensures n < |s| ==> !IsSpace(s[n])
  {
    if s == [] || !IsSpace(s[0]) then 0 else 1 + LeadingSpaces(s[1..])
  }

  /** Length of `s` without its trailing whitespace. */
  function TrimmedLength(s: string): (n: nat)
    ensures n <= |s|
    ensures forall k :: n <= k < |s| ==> IsSpace(s[k])
    ensures n > 0 ==> !IsSpace(s[n - 1])
  {
    if s == [] || !IsSpace(s[|s| - 1]) then |s| else TrimmedLength(s[..|s| - 1])
  }

  /** `s.lstrip()`. */
  function TrimStart(s: string): string {
    s[LeadingSpaces(s)..]
  }

  /** `s.rstrip()`. */
  function TrimEnd(s: string): string {
    s[..TrimmedLength(s)]
  }

  /** `s.strip()`: `s` without whitespace at either end. */
  function Strip(s: string): (r: string)
    ensures |r| <= |s|
    ensures r == [] <==> IsBlank(s)
    ensures r == [] || (!IsSpace(r[0]) && !IsSpace(r[|r| - 1]))
  {
    var t := TrimStart(s);
    var r := TrimEnd(t);
    assert r == [] ==> t == [];
    assert r == [] ==> LeadingSpaces(s) == |s|;
    assert r != [] ==> r[0] == t[0];
    r
  }

  /** `strip()` keeps exactly the slice of `s` between its leading and its trailing
      whitespace: everything before the slice and everything after it is whitespace
      (and, by `Strip`'s contract, the slice starts and ends with a non-space
      character). */
  lemma StripIsSlice(s: string)
    ensures var a := LeadingSpaces(s); var b := a + TrimmedLength(s[a..]);
      a <= b <= |s| && Strip(s) == s[a..b] && IsBlank(s[..a]) && IsBlank(s[b..])
  {
    var a := LeadingSpaces(s);
    var m := TrimmedLength(s[a..]);
    StripUnfold(s, a, m);
    StripEnds(s, a, m);
  }

  lemma StripUnfold(s: string, a: nat, m: nat)
    requires a == LeadingSpaces(s) && m == TrimmedLength(s[a..])
    ensures Strip(s) == s[a..][..m]
  {
    assert TrimStart(s) == s[a..];
  }

  /** What `strip()` removes is whitespace, and what it keeps starts and ends with a
      non-space character. */
  lemma StripEnds(s: string, a: nat, m: nat)
    requires a == LeadingSpaces(s) && m == TrimmedLength(s[a..])
    ensures a + m <= |s| && s[a..][..m] == s[a..a + m]
    ensures IsBlank(s[..a]) && IsBlank(s[a + m..])
    ensures m > 0 ==> !IsSpace(s[a]) && !IsSpace(s[a + m - 1])
  {
    StripHead(s, a);
    StripTail(s, a, m);
    StripSlice(s, a, m);
  }

  lemma StripHead(s: string, a: nat)
    requires a == LeadingSpaces(s)
    ensures IsBlank(s[..a]) && (a < |s| ==> !IsSpace(s[a]))
  {
  }

  lemma StripSlice(s: string, a: nat, m: nat)
    requires a + m <= |s|
    ensures s[a..][..m] == s[a..a + m]
  {
  }

  lemma StripTail(s: string, a: nat, m: nat)
    requires a == LeadingSpaces(s) && m == TrimmedLength(s[a..])
    ensures a + m <= |s| && IsBlank(s[a + m..])
    ensures m > 0 ==> !IsSpace(s[a + m - 1])
  {
    var t := s[a..];
    assert t[m..] == s[a + m..];
    assert m > 0 ==> t[m - 1] == s[a + m - 1];
  }

  /** Stripping only removes characters: a character absent from `s` is absent from
      `s.strip()`. */
  lemma StripKeepsAbsence(s: string, c: char)
    requires Lacks(s, c)
    ensures Lacks(Strip(s), c)
  {
  }

  /** A string that `strip()` leaves unchanged. */
  predicate IsStripped(s: string) {
    s == [] || (!IsSpace(s[0]) && !IsSpace(s[|s| - 1]))
  }

  /** Stripping is idempotent. */
  lemma {:induction false} StripIdempotent(s: string)
    ensures Strip(Strip(s)) == Strip(s)
  {
    var r := Strip(s);
    StrippedIsFixed(r);
  }

  /** A string with no whitespace at either end is its own strip. */
  lemma StrippedIsFixed(s: string)
    requires IsStripped(s)
    ensures Strip(s) == s
  {
    assert TrimStart(s) == s;
    assert TrimEnd(s) == s;
  }

  /** Concatenation of a sequence of strings. */
  function Concat(xs: seq<string>): string {
    if xs == [] then [] else xs[0] + Concat(xs[1..])
  }

  lemma {:induction false} ConcatAppend(xs: seq<string>, ys: seq<string>)
    ensures Concat(xs + ys) == Concat(xs) + Concat(ys)
  {
    if xs == [] {
      assert xs + ys == ys;
    } else {
      assert (xs + ys)[1..] == xs[1..] + ys;
      ConcatAppend(xs[1..], ys);
    }
  }

  lemma ConcatCons(prefix: string, xs: seq<string>)
    requires xs != []
    ensures prefix + Concat(xs) == (prefix + xs[0]) + Concat(xs[1..])
  {
    AppendAssoc(prefix, xs[0], Concat(xs[1..]));
  }

  lemma AppendAssoc<T>(a: seq<T>, b: seq<T>, c: seq<T>)
    ensures a + (b + c) == (a + b) + c
  {
  }

  lemma ConcatSnoc(prefix: string, xs: seq<string>, x: string)
    ensures prefix + Concat(xs + [x]) == (prefix + Concat(xs)) + x
  {
    ConcatAppend(xs, [x]);
    assert Concat([x]) == x + Concat([]);
    AppendAssoc(prefix, Concat(xs), x);
  }

  /** The pieces of width `w` that the loop `while len(s) > w: emit(s[:w]); s = s[w:]`
      followed by `if s: emit(s)` produces; no pieces for the empty string. */
  function Chunks(s: string, w: nat): (r: seq<string>)
    requires w > 0
    ensures forall k :: 0 <= k < |r| ==> 0 < |r[k]| <= w
    decreases |s|
  {
    if s == [] then []
    else if |s| <= w then [s]
    else [s[..w]] + Chunks(s[w..], w)
  }

  /** The pieces spell `s` again, and every piece but the last is exactly `w` wide. */
  lemma {:induction false} ChunksSpell(s: string, w: nat)
    requires w > 0
    ensures Concat(Chunks(s, w)) == s
    ensures forall k :: 0 <= k < |Chunks(s, w)| - 1 ==> |Chunks(s, w)[k]| == w
    decreases |s|
  {
    if |s| > w {
      var rest := Chunks(s[w..], w);
      ChunksSpell(s[w..], w);
      assert ([s[..w]] + rest)[1..] == rest;
      assert s == s[..w] + s[w..];
    }
  }

  /** A non-empty string gives ceil(|s| / w) pieces: `(|r| - 1) * w < |s| <= |r| * w`. */
  lemma {:induction false} ChunksCount(s: string, w: nat)
    requires w > 0
    ensures var r := Chunks(s, w); (s == [] <==> r == []) && (s != [] ==> (|r| - 1) * w < |s| <= |r| * w)
    decreases |s|
  {
    var r := Chunks(s, w);
    if |s| > w {
      var rest := Chunks(s[w..], w);
      ChunksCount(s[w..], w);
      assert |r| == |rest| + 1;
      assert (|r| - 1) * w == |rest| * w;
      assert |r| * w == |rest| * w + w;
    }
  }

  /** Character `q * w + r` of `s` is character `r` of piece `q`. */
  lemma {:induction false} ChunkAt(s: string, w: nat, q: nat, r: nat)
    requires r < w && q * w + r < |s|
    ensures var p := Chunks(s, w); q < |p| && r < |p[q]| && p[q][r] == s[q * w + r]
    decreases q
  {
    if q > 0 {
      ShiftIndex(q, w, r);
      var t := s[w..];
      ChunkAt(t, w, q - 1, r);
      assert Chunks(s, w) == [s[..w]] + Chunks(t, w);
      assert t[(q - 1) * w + r] == s[q * w + r];
    }
  }

  lemma ShiftIndex(q: nat, w: nat, r: nat)
    requires q > 0
    ensures (q - 1) * w + r + w == q * w + r && q * w >= w
  {
  }

  /** The first `k` pieces cover exactly `k * w` characters while `k` is below the
      number of pieces. */
  lemma {:induction false} ChunksPrefix(s: string, w: nat, k: nat)
    requires w > 0 && k < |Chunks(s, w)|
    ensures |Concat(Chunks(s, w)[..k])| == k * w
    decreases |s|
  {
    var r := Chunks(s, w);
    if k > 0 {
      var rest := Chunks(s[w..], w);
      assert r == [s[..w]] + rest;
      ChunksPrefix(s[w..], w, k - 1);
      assert r[..k] == [s[..w]] + rest[..k - 1];
      ConcatAppend([s[..w]], rest[..k - 1]);
      assert (k - 1) * w + w == k * w;
    }
  }

  /** Length of the run of non-whitespace characters at the start of `s`. */
  function WordLength(s: string): (n: nat)
    ensures n <= |s|
    ensures forall k :: 0 <= k < n ==> !IsSpace(s[k])
    ensures n < |s| ==> IsSpace(s[n])
  {
    if s == [] || IsSpace(s[0]) then 0 else 1 + WordLength(s[1..])
  }

  /** A word as `str.split()` returns it: non-empty, no whitespace inside. */
  predicate IsWord(w: string) {
    w != [] && forall k :: 0 <= k < |w| ==> !IsSpace(w[k])
  }

  predicate AllWords(ws: seq<string>) {
    forall k :: 0 <= k < |ws| ==> IsWord(ws[k])
  }

  lemma AllWordsCons(w: string, ws: seq<string>)
    requires IsWord(w) && AllWords(ws)
    ensures AllWords([w] + ws)
  {
  }

  /** Python `s.split()` with no separator: the maximal runs of non-whitespace. */
  function Words(s: string): (r: seq<string>)
    ensures AllWords(r)
    ensures r == [] <==> IsBlank(s)
    decreases |s|
  {
    var t := TrimStart(s);
    TrimStartBlank(s);
    if t == [] then []
    else
      var n := WordLength(t);
      assert n > 0;
      var rest := Words(t[n..]);
      assert IsWord(t[..n]);
      AllWordsCons(t[..n], rest);
      [t[..n]] + rest
  }

  /** Only a blank string loses everything to `lstrip()`; otherwise what is left starts
      with a non-space character. */
  lemma TrimStartBlank(s: string)
    ensures TrimStart(s) == [] <==> IsBlank(s)
    ensures TrimStart(s) != [] ==> !IsSpace(TrimStart(s)[0])
  {
    if TrimStart(s) != [] {
      assert !IsSpace(s[LeadingSpaces(s)]);
    }
  }

  /** The first word of a string that starts with a non-space character is its
      leading run of non-space characters. */
  lemma FirstWord(s: string)
    requires s != [] && !IsSpace(s[0])
    ensures Words(s) != [] && Words(s)[0] == s[..WordLength(s)]
  {
    assert TrimStart(s) == s;
  }

  /** The whitespace runs around the words of `s`: before the first word, between two
      words, and after the last. */
  function Gaps(s: string): (g: seq<string>)
    ensures |g| == |Words(s)| + 1
    decreases |s|
  {
    var a := LeadingSpaces(s);
    var t := s[a..];
    TrimStartBlank(s);
    if t == [] then [s]
    else [s[..a]] + Gaps(t[WordLength(t)..])
  }

  /** `gaps[0] + words[0] + gaps[1] + ... + words[n - 1] + gaps[n]`. */
  function Weave(gaps: seq<string>, words: seq<string>): string
    requires |gaps| == |words| + 1
  {
    if words == [] then gaps[0] else gaps[0] + words[0] + Weave(gaps[1..], words[1..])
  }

  /** One word off the front: for a non-blank `s`, the first gap is its leading
      whitespace `s[..a]`, the first word the run `w` after it, and the rest come from
      the text `u` after that word. */
  lemma WordsGapsStep(s: string, a: nat, w: string, u: string)
    requires a == LeadingSpaces(s) && a < |s|
    requires w == s[a..][..WordLength(s[a..])] && u == s[a..][WordLength(s[a..])..]
    ensures Words(s) == [w] + Words(u) && Gaps(s) == [s[..a]] + Gaps(u)
  {
    WordsStep(s, a, w, u);
    GapsStep(s, a, u);
  }

  /** The text around the first word: its leading whitespace, the word, and a rest that
      is empty or starts with whitespace. */
  lemma WordSplit(s: string, a: nat, w: string, u: string)
    requires a == LeadingSpaces(s) && a < |s|
    requires w == s[a..][..WordLength(s[a..])] && u == s[a..][WordLength(s[a..])..]
    ensures s == s[..a] + w + u
    ensures u != [] ==> IsSpace(u[0])
  {
    SliceAround(s, a, WordLength(s[a..]));
  }

  lemma SliceAround(s: string, a: nat, n: nat)
    requires a + n <= |s|
    ensures s == s[..a] + s[a..][..n] + s[a..][n..]
  {
    assert s[a..][..n] == s[a..a + n] && s[a..][n..] == s[a + n..];
  }

  lemma WordsStep(s: string, a: nat, w: string, u: string)
    requires a == LeadingSpaces(s) && a < |s|
    requires w == s[a..][..WordLength(s[a..])] && u == s[a..][WordLength(s[a..])..]
    ensures Words(s) == [w] + Words(u)
  {
    TrimStartBlank(s);
  }

  lemma GapsStep(s: string, a: nat, u: string)
    requires a == LeadingSpaces(s) && a < |s|
    requires u == s[a..][WordLength(s[a..])..]
    ensures Gaps(s) == [s[..a]] + Gaps(u)
  {
  }

  /** Every gap is whitespace only. */
  lemma {:induction false} GapsBlank(s: string)
    ensures forall k :: 0 <= k < |Gaps(s)| ==> IsBlank(Gaps(s)[k])
    decreases |s|
  {
    var a := LeadingSpaces(s);
    if a < |s| {
      var t := s[a..];
      var u := t[WordLength(t)..];
      GapsStep(s, a, u);
      GapsBlank(u);
    } else {
      assert Gaps(s) == [s];
    }
  }

  /** `split()` loses only whitespace: `s` is its words, in order, woven with the blank
      gaps around them. */
  lemma {:induction false} WordsWeave(s: string)
    ensures Weave(Gaps(s), Words(s)) == s
    decreases |s|
  {
    var a := LeadingSpaces(s);
    if a < |s| {
      var t := s[a..];
      var w, u := t[..WordLength(t)], t[WordLength(t)..];
      WordsGapsStep(s, a, w, u);
      WordSplit(s, a, w, u);
      WordsWeave(u);
      WeaveCons(s[..a], w, Gaps(u), Words(u));
    } else {
      TrimStartBlank(s);
    }
  }

  lemma WeaveCons(g: string, w: string, gaps: seq<string>, words: seq<string>)
    requires |gaps| == |words| + 1
    ensures Weave([g] + gaps, [w] + words) == g + w + Weave(gaps, words)
  {
    assert ([g] + gaps)[1..] == gaps && ([w] + words)[1..] == words;
  }

  /** Every gap between two words holds at least one whitespace character, so each word
      is a maximal run of non-whitespace. */
  lemma {:induction false} InnerGapsNonEmpty(s: string)
    ensures forall k :: 0 < k < |Gaps(s)| - 1 ==> Gaps(s)[k] != []
    decreases |s|
  {
    var a := LeadingSpaces(s);
    if a < |s| {
      var t := s[a..];
      var w, u := t[..WordLength(t)], t[WordLength(t)..];
      WordsGapsStep(s, a, w, u);
      WordSplit(s, a, w, u);
      InnerGapsNonEmpty(u);
      if u != [] {
        assert LeadingSpaces(u) > 0;
      }
    } else {
      TrimStartBlank(s);
    }
  }

  /** The non-whitespace characters of `s`, in order. */
  function NonSpace(s: string): (r: string)
    ensures |r| <= |s|
  {
    if s == [] then [] else (if IsSpace(s[0]) then [] else [s[0]]) + NonSpace(s[1..])
  }

  lemma {:induction false} NonSpaceAppend(s: string, t: string)
    ensures NonSpace(s + t) == NonSpace(s) + NonSpace(t)
    decreases |s|
  {
    if s != [] {
      assert (s + t)[1..] == s[1..] + t;
      NonSpaceAppend(s[1..], t);
      AppendAssoc(if IsSpace(s[0]) then [] else [s[0]], NonSpace(s[1..]), NonSpace(t));
    } else {
      assert s + t == t;
    }
  }

  lemma {:induction false} NonSpaceBlank(s: string)
    requires IsBlank(s)
    ensures NonSpace(s) == []
    decreases |s|
  {
    if s != [] {
      NonSpaceBlank(s[1..]);
    }
  }

  lemma {:induction false} NonSpaceWord(w: string)
    requires forall k :: 0 <= k < |w| ==> !IsSpace(w[k])
    ensures NonSpace(w) == w
    decreases |w|
  {
    if w != [] {
      NonSpaceWord(w[1..]);
      assert [w[0]] + w[1..] == w;
    }
  }

  lemma {:induction false} NonSpaceWeave(gaps: seq<string>, words: seq<string>)
    requires |gaps| == |words| + 1 && AllWords(words)
    requires forall k :: 0 <= k < |gaps| ==> IsBlank(gaps[k])
    ensures NonSpace(Weave(gaps, words)) == Concat(words)
    decreases |words|
  {
    NonSpaceBlank(gaps[0]);
    if words != [] {
      NonSpaceWeave(gaps[1..], words[1..]);
      NonSpaceAppend(gaps[0] + words[0], Weave(gaps[1..], words[1..]));
      NonSpaceAppend(gaps[0], words[0]);
      NonSpaceWord(words[0]);
    }
  }

  /** The words of `s` joined together are exactly its non-whitespace characters. */
  lemma WordsSpellNonSpace(s: string)
    ensures Concat(Words(s)) == NonSpace(s)
  {
    WordsWeave(s);
    GapsBlank(s);
    NonSpaceWeave(Gaps(s), Words(s));
  }

  /** `c` does not occur in `s`. */
  predicate Lacks(s: string, c: char) {
    forall k :: 0 <= k < |s| ==> s[k] != c
  }

  lemma LacksAppend(s: string, t: string, c: char)
    requires Lacks(s, c) && Lacks(t, c)
    ensures Lacks(s + t, c)
  {
  }

  /** Index of the first occurrence of `c` in `s`, or `|s|` when there is none
      (Python's `s.find(c)` with `-1` read as `len(s)`). */
  function Find(s: string, c: char): (i: nat)
    ensures i <= |s|
    ensures forall k :: 0 <= k < i ==> s[k] != c
    ensures i < |s| ==> s[i] == c
  {
    FindFrom(s, c, 0)
  }

  /** Index of the first occurrence of `c` at or after `j`, or `|s|`. */
  function FindFrom(s: string, c: char, j: nat): (i: nat)
    requires j <= |s|
    ensures j <= i <= |s|
    ensures forall k :: j <= k < i ==> s[k] != c
    ensures i < |s| ==> s[i] == c
    decreases |s| - j
  {
    if j == |s| || s[j] == c then j else FindFrom(s, c, j + 1)
  }

  /** The first occurrence is unique: an index holding `c` (or the end) with no `c`
      before it is the one `Find` returns. */
  lemma FindUnique(s: string, c: char, i: nat)
    requires i <= |s| && (i < |s| ==> s[i] == c)
    requires forall k :: 0 <= k < i ==> s[k] != c
    ensures Find(s, c) == i
  {
  }

  /** Python `s.split(sep)`: always at least one part, no part holds `sep`, and joining
      the parts with `sep` gives `s` back. */
  function SplitOn(s: string, sep: char): (r: seq<string>)
    ensures |r| >= 1
    ensures forall k :: 0 <= k < |r| ==> Lacks(r[k], sep)
    ensures JoinWith(r, sep) == s
    decreases |s|
  {
    var i := Find(s, sep);
    if i == |s| then [s]
    else
      var rest := SplitOn(s[i + 1..], sep);
      assert s == s[..i] + [sep] + s[i + 1..];
      assert ([s[..i]] + rest)[1..] == rest;
      [s[..i]] + rest
  }

  /** `sep.join(xs)`. */
  function JoinWith(xs: seq<string>, sep: char): string {
    if xs == [] then []
    else if |xs| == 1 then xs[0]
    else xs[0] + [sep] + JoinWith(xs[1..], sep)
  }

  /** Python `s.replace(c, with)` for a one-character `c`: every occurrence is
      replaced, left to right. */
  function ReplaceAll(s: string, c: char, with: string): (r: string)
    ensures Lacks(with, c) ==> Lacks(r, c)
    ensures Lacks(s, c) ==> r == s
  {
    if s == [] then []
    else (if s[0] == c then with else [s[0]]) + ReplaceAll(s[1..], c, with)
  }

  /** What `replace` puts in place of the character `x`. */
  function Substitute(x: char, c: char, with: string): string {
    if x == c then with else [x]
  }

  /** `s` with every character mapped through `Substitute`, before joining. */
  function SubstitutedPieces(s: string, c: char, with: string): (r: seq<string>)
    ensures |r| == |s|
  {
    seq(|s|, k requires 0 <= k < |s| => Substitute(s[k], c, with))
  }

  /** `replace` puts `with` in place of every `c` and keeps every other character, in
      order. */
  lemma {:induction false} ReplaceAllPieces(s: string, c: char, with: string)
    ensures ReplaceAll(s, c, with) == Concat(SubstitutedPieces(s, c, with))
    decreases |s|
  {
    if s != [] {
      ReplaceAllPieces(s[1..], c, with);
      assert SubstitutedPieces(s, c, with)[1..] == SubstitutedPieces(s[1..], c, with);
    }
  }

  /** Decimal digits of a natural number, most significant first. */
  function NatToString(n: nat): (r: string)
    ensures r != []
    ensures forall k :: 0 <= k < |r| ==> '0' <= r[k] <= '9'
    ensures r[0] == '0' ==> n == 0
  {
    if n < 10 then ['0' + n as char]
    else NatToString(n / 10) + ['0' + (n % 10) as char]
  }

  /** Python `str(n)` for an integer. */
  function IntToString(n: int): (r: string)
    ensures r != []
    ensures (r[0] == '-') == (n < 0)
  {
    if n < 0 then "-" + NatToString(-n) else NatToString(n)
  }

  /** The value of a string of decimal digits. */
  function DigitsValue(s: string): int {
    if s == [] then 0 else 10 * DigitsValue(s[..|s| - 1]) + (s[|s| - 1] as int - '0' as int)
  }

  /** Python `int(s)` for an optionally signed string of decimal digits. */
  function ParseInt(s: string): int {
    if s != [] && s[0] == '-' then -DigitsValue(s[1..]) else DigitsValue(s)
  }

  /** Reading the digits back gives the number. */
  lemma {:induction false} NatToStringRoundTrip(n: nat)
    ensures DigitsValue(NatToString(n)) == n
  {
    if n >= 10 {
      NatToStringRoundTrip(n / 10);
      var r := NatToString(n);
      assert r[..|r| - 1] == NatToString(n / 10);
    }
  }

  /** `int(str(n)) == n`. */
  lemma {:induction false} IntToStringRoundTrip(n: int)
    ensures ParseInt(IntToString(n)) == n
  {
    if n < 0 {
      NatToStringRoundTrip(-n);
      assert IntToString(n)[1..] == NatToString(-n);
    } else {
      NatToStringRoundTrip(n);
    }
  }

  /** The prefix of the whole length is the sequence itself. */
  lemma SeqPrefixAll<T>(s: seq<T>)
    ensures s[..|s|] == s
  {
  }
}
