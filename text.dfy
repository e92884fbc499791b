/** Character classes and the string operations of the host language that the cleaner and
    the translator use: stripping, line splitting, lower-casing and substring search. */
module Text {
  import opened Seqs

  /** The Unicode character classes the source relies on, kept abstract: `isSpace` is
      `str.isspace` (which is also the set `\s` matches in a `str` pattern), `isWord` is
      `\w`, `isDigit` is `\d`, and `lower` is `str.lower` applied one character at a time. */
  datatype Unicode = Unicode(
    isSpace: char -> bool,
    isWord: char -> bool,
    isDigit: char -> bool,
    lower: char -> char)

  /** How many whitespace characters `s` starts with: where `str.lstrip()` cuts. */
  function LeadingSpace(u: Unicode, s: string): (a: nat)
    ensures a <= |s|
    ensures forall k :: 0 <= k < a ==> u.isSpace(s[k])
    ensures a < |s| ==> !u.isSpace(s[a])
    decreases |s|
  {
    if s != [] && u.isSpace(s[0]) then 1 + LeadingSpace(u, s[1..]) else 0
  }

  /** Where the trailing whitespace of `s` begins: where `str.rstrip()` cuts. */
  function TrailingSpace(u: Unicode, s: string): (e: nat)
    ensures e <= |s|
    ensures forall k :: e <= k < |s| ==> u.isSpace(s[k])
    ensures 0 < e ==> !u.isSpace(s[e - 1])
    decreases |s|
  {
    if s != [] && u.isSpace(s[|s| - 1]) then TrailingSpace(u, s[..|s| - 1]) else |s|
  }

  /** `str.strip()`: what is left is the slice of `s` after its leading whitespace, and
      everything cut from either end is whitespace. */
  function Strip(u: Unicode, s: string): (r: string)
    ensures LeadingSpace(u, s) + |r| <= |s|
    ensures r == s[LeadingSpace(u, s)..LeadingSpace(u, s) + |r|]
    ensures forall k :: 0 <= k < LeadingSpace(u, s) ==> u.isSpace(s[k])
    ensures forall k :: LeadingSpace(u, s) + |r| <= k < |s| ==> u.isSpace(s[k])
    ensures r != [] ==> !u.isSpace(r[0]) && !u.isSpace(r[|r| - 1])
    ensures r == [] <==> forall k :: 0 <= k < |s| ==> u.isSpace(s[k])
    ensures s == [] || (!u.isSpace(s[0]) && !u.isSpace(s[|s| - 1])) ==> r == s
  {
    var a := LeadingSpace(u, s);
    if a == |s| then [] else s[a..TrailingSpace(u, s)]
  }

  /** No whitespace at either end. */
  ghost predicate Trimmed(u: Unicode, t: string) {
    t != [] ==> !u.isSpace(t[0]) && !u.isSpace(t[|t| - 1])
  }

  /** Facts about Python's character classes that the patterns rely on: a space is
      whitespace, no digit is whitespace, and the punctuation the patterns spell out
      (brackets, parentheses, the colon) is neither whitespace nor a digit. */
  ghost predicate Sane(u: Unicode) {
    u.isSpace(' ')
    && (forall c :: u.isDigit(c) ==> !u.isSpace(c))
    && !u.isSpace('(') && !u.isSpace(')') && !u.isSpace(']') && !u.isSpace(':')
    && !u.isDigit('[') && !u.isDigit(']') && !u.isDigit(':')
  }

  /** The line boundaries of `str.splitlines`; `\r\n` is one boundary, handled by `SplitLines`. */
  predicate IsLineBreak(c: char) {
    c == '\n' || c == '\r' || c == '\U{0B}' || c == '\U{0C}' || c == '\U{1C}' || c == '\U{1D}'
    || c == '\U{1E}' || c == '\U{85}' || c == '\U{2028}' || c == '\U{2029}'
  }

  predicate NotLineBreak(c: char) {
    !IsLineBreak(c)
  }

  /** Stop conditions for `Scan`: the end of a run of whitespace, or of a run of digits. */
  function NotSpace(u: Unicode): char -> bool {
    c => !u.isSpace(c)
  }

  function NotDigit(u: Unicode): char -> bool {
    c => !u.isDigit(c)
  }

  /** The first position at or after `k` whose character satisfies `stop`, or `|s|`. */
  function Scan(s: string, k: nat, stop: char -> bool): (j: nat)
    requires k <= |s|
    ensures k <= j <= |s|
    ensures j < |s| ==> stop(s[j])
    ensures forall i :: k <= i < j ==> !stop(s[i])
    decreases |s| - k
  {
    if k == |s| || stop(s[k]) then k else Scan(s, k + 1, stop)
  }

  /** The scan stops at the first stopping character. */
  lemma ScanAt(s: string, k: nat, j: nat, stop: char -> bool)
    requires k <= j < |s| && stop(s[j])
    requires forall i :: k <= i < j ==> !stop(s[i])
    ensures Scan(s, k, stop) == j
  {
  }

  /** The scan goes at least past a stretch without stopping characters. */
  lemma ScanPast(s: string, k: nat, j: nat, stop: char -> bool)
    requires k <= j <= |s|
    requires forall i :: k <= i < j ==> !stop(s[i])
    ensures j <= Scan(s, k, stop)
  {
  }

  lemma NotSpaceAt(u: Unicode, c: char)
    ensures NotSpace(u)(c) == !u.isSpace(c)
  {
  }

  lemma NotDigitAt(u: Unicode, c: char)
    ensures NotDigit(u)(c) == !u.isDigit(c)
  {
  }

  /** What a scan for the end of a run of whitespace passes over is whitespace. */
  lemma SpaceRun(u: Unicode, s: string, k: nat)
    requires k <= |s|
    ensures forall i :: k <= i < Scan(s, k, NotSpace(u)) ==> u.isSpace(s[i])
  {
    forall i | k <= i < Scan(s, k, NotSpace(u)) ensures u.isSpace(s[i]) {
      NotSpaceAt(u, s[i]);
    }
  }

  /** What a scan for the end of a run of digits passes over is digits. */
  lemma DigitRun(u: Unicode, s: string, k: nat)
    requires k <= |s|
    ensures forall i :: k <= i < Scan(s, k, NotDigit(u)) ==> u.isDigit(s[i])
  {
    forall i | k <= i < Scan(s, k, NotDigit(u)) ensures u.isDigit(s[i]) {
      NotDigitAt(u, s[i]);
    }
  }

  /** Where the next line starts after a break at `j`: `\r\n` counts as one break. */
  function NextLineStart(s: string, j: nat): (next: nat)
    requires j < |s|
    ensures j < next <= |s|
  {
    if s[j] == '\r' && j + 1 < |s| && s[j + 1] == '\n' then j + 2 else j + 1
  }

  /** `str.splitlines()` without `keepends`: no trailing empty line, `\r\n` is one break. */
  function SplitLines(s: string): (lines: seq<string>)
    ensures s != [] <==> lines != []
    ensures forall k, i :: 0 <= k < |lines| && 0 <= i < |lines[k]| ==> NotLineBreak(lines[k][i])
    decreases |s|
  {
    if s == [] then []
    else
      var j := Scan(s, 0, IsLineBreak);
      if j == |s| then [s] else [s[..j]] + SplitLines(s[NextLineStart(s, j)..])
  }

  /** The number of line boundaries in `s`, reading `\r\n` as one. */
  function BreakCount(s: string): nat
    decreases |s|
  {
    if s == [] then 0
    else if |s| >= 2 && s[0] == '\r' && s[1] == '\n' then 1 + BreakCount(s[2..])
    else (if IsLineBreak(s[0]) then 1 else 0) + BreakCount(s[1..])
  }

  /** One line per boundary, and one more for text after the last boundary: a trailing
      break does not open an empty last line. */
  lemma {:induction false} SplitLinesCount(s: string)
    ensures |SplitLines(s)| == BreakCount(s) + (if s != [] && NotLineBreak(s[|s| - 1]) then 1 else 0)
    decreases |s|
  {
    if s != [] {
      var j := Scan(s, 0, IsLineBreak);
      BreakCountSkip(s, j);
      if j < |s| {
        var next := NextLineStart(s, j);
        SplitLinesCount(s[next..]);
        if next == j + 2 {
          assert s[j..][2..] == s[next..];
        } else {
          assert s[j..][1..] == s[next..];
        }
        assert BreakCount(s[j..]) == 1 + BreakCount(s[next..]);
        assert next == |s| ==> IsLineBreak(s[|s| - 1]);
        assert next < |s| ==> s[next..][|s[next..]| - 1] == s[|s| - 1];
      }
    }
  }

  /** A non-empty text without a line break is a single line. */
  lemma SplitLinesOne(a: string)
    requires a != [] && forall i :: 0 <= i < |a| ==> NotLineBreak(a[i])
    ensures SplitLines(a) == [a]
  {
    ScanPast(a, 0, |a|, IsLineBreak);
  }

  /** The text is cut at its first break: what comes before it is the first line, and the
      lines after it are those of the rest. A `\r` counts alone unless `\n` follows it. */
  lemma SplitLinesBreak(a: string, c: char, b: string)
    requires forall i :: 0 <= i < |a| ==> NotLineBreak(a[i])
    requires IsLineBreak(c) && (c == '\r' ==> b == [] || b[0] != '\n')
    ensures SplitLines(a + [c] + b) == [a] + SplitLines(b)
  {
    var s := a + [c] + b;
    assert forall i :: 0 <= i < |a| ==> s[i] == a[i];
    ScanAt(s, 0, |a|, IsLineBreak);
    assert s[..|a|] == a;
    assert s[|a| + 1..] == b;
  }

  /** `\r\n` is one cut, not two: it opens no empty line between them. */
  lemma SplitLinesCrLf(a: string, b: string)
    requires forall i :: 0 <= i < |a| ==> NotLineBreak(a[i])
    ensures SplitLines(a + "\r\n" + b) == [a] + SplitLines(b)
  {
    var s := a + "\r\n" + b;
    assert forall i :: 0 <= i < |a| ==> s[i] == a[i];
    assert s[|a|] == '\r' && s[|a| + 1] == '\n';
    ScanAt(s, 0, |a|, IsLineBreak);
    assert s[..|a|] == a;
    assert s[|a| + 2..] == b;
  }

  /** Characters before the first boundary add no boundary. */
  lemma {:induction false} BreakCountSkip(s: string, j: nat)
    requires j <= |s| && forall i :: 0 <= i < j ==> !IsLineBreak(s[i])
    ensures BreakCount(s) == BreakCount(s[j..])
    decreases j
  {
    if j > 0 {
      BreakCountSkip(s[1..], j - 1);
      assert s[1..][j - 1..] == s[j..];
    }
  }

  /** Splitting into lines loses exactly the line-break characters: joining the lines back
      without separators gives the text with its breaks removed. */
  lemma {:induction false} SplitLinesKeepsText(s: string)
    ensures Concat(SplitLines(s)) == Filter(NotLineBreak, s)
    decreases |s|
  {
    if s != [] {
      var j := Scan(s, 0, IsLineBreak);
      if j == |s| {
        SingleLine(s);
      } else {
        SplitLinesKeepsText(s[NextLineStart(s, j)..]);
        SplitStep(s, j);
      }
    }
  }

  lemma SingleLine(s: string)
    requires s != [] && Scan(s, 0, IsLineBreak) == |s|
    ensures Concat(SplitLines(s)) == Filter(NotLineBreak, s)
  {
    FilterAll(NotLineBreak, s);
    ConcatCons(s, []);
  }

  lemma SplitStep(s: string, j: nat)
    requires s != [] && j == Scan(s, 0, IsLineBreak) < |s|
    requires Concat(SplitLines(s[NextLineStart(s, j)..])) == Filter(NotLineBreak, s[NextLineStart(s, j)..])
    ensures Concat(SplitLines(s)) == Filter(NotLineBreak, s)
  {
    var next := NextLineStart(s, j);
    var tail := SplitLines(s[next..]);
    assert SplitLines(s) == [s[..j]] + tail;
    ConcatCons(s[..j], tail);
    FilterAll(NotLineBreak, s[..j]);
    BreakBetween(s, j, next);
  }

  /** Removing the breaks of a text whose first break is the one at `j`. */
  lemma BreakBetween(s: string, j: nat, next: nat)
    requires j < |s| && next == NextLineStart(s, j) && IsLineBreak(s[j])
    requires Filter(NotLineBreak, s[..j]) == s[..j]
    ensures Filter(NotLineBreak, s) == s[..j] + Filter(NotLineBreak, s[next..])
  {
    var brk := if next == j + 1 then [s[j]] else [s[j], s[j + 1]];
    assert s[j..next] == brk;
    assert Filter(NotLineBreak, brk) == [] by {
      assert brk[..|brk| - 1] == [] || brk[..|brk| - 1] == [s[j]];
    }
    ThreePieces(s, j, next);
    BreaksFilterOut(s[..j], brk, s[next..]);
  }

  lemma ThreePieces(s: string, j: nat, next: nat)
    requires j <= next <= |s|
    ensures s == s[..j] + (s[j..next] + s[next..])
  {
  }

  lemma BreaksFilterOut(a: string, b: string, c: string)
    requires Filter(NotLineBreak, b) == []
    ensures Filter(NotLineBreak, a + (b + c)) == Filter(NotLineBreak, a) + Filter(NotLineBreak, c)
  {
    calc {
      Filter(NotLineBreak, a + (b + c));
      { FilterAppend(NotLineBreak, a, b + c); }
      Filter(NotLineBreak, a) + Filter(NotLineBreak, b + c);
      { FilterAppend(NotLineBreak, b, c); }
      Filter(NotLineBreak, a) + ([] + Filter(NotLineBreak, c));
      { assert [] + Filter(NotLineBreak, c) == Filter(NotLineBreak, c); }
      Filter(NotLineBreak, a) + Filter(NotLineBreak, c);
    }
  }

  /** `str.lower()`, one character at a time. */
  function Lower(u: Unicode, s: string): string {
    seq(|s|, i requires 0 <= i < |s| => u.lower(s[i]))
  }

  /** `needle in hay` for two strings. */
  predicate Contains(hay: string, needle: string) {
    exists i :: 0 <= i <= |hay| && needle <= hay[i..]
  }
}
