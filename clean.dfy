/** The subtitle cleaner: removal of markup, sound descriptions and transcription
    hallucinations from each cue, rejection of lines left empty or without words, merging of
    consecutive repeats, and renumbering. */
module Clean {
  import opened Seqs
  import opened Text
  import opened Subtitles

  // ---------------------------------------------------------------------------------------
  // clean_text: one regular-expression substitution after another
  // ---------------------------------------------------------------------------------------

  /** The four span-deleting substitutions of `clean_text`, in the order they run. */
  datatype Pattern =
    | HtmlTag    // <[^>]+>
    | Bracketed  // \[.*?\]
    | Shouted    // \([A-Z\s]+\)
    | Starred    // \*.*?\*

  function Opener(p: Pattern): char {
    match p
    case HtmlTag => '<'
    case Bracketed => '['
    case Shouted => '('
    case Starred => '*'
  }

  function Closer(p: Pattern): char {
    match p
    case HtmlTag => '>'
    case Bracketed => ']'
    case Shouted => ')'
    case Starred => '*'
  }

  predicate IsAsciiUpper(c: char) {
    'A' <= c <= 'Z'
  }

  /** Where `[^>]+` stops. */
  predicate IsTagEnd(c: char) {
    c == '>'
  }

  /** Where `[A-Z\s]+` stops. */
  function ShoutStop(u: Unicode): char -> bool {
    c => !(IsAsciiUpper(c) || u.isSpace(c))
  }

  /** Where a lazy `.*?` followed by the closer stops: at the closer, or at a newline, which
      `.` does not match. */
  function LazyStop(p: Pattern): char -> bool {
    c => c == Closer(p) || c == '\n'
  }

  /** The length of the match of `p` at the very start of `s`, or 0 where `p` does not match
      there. The greedy and lazy quantifiers of the patterns leave one candidate each:
      `[^>]+` runs to the first `>` (which must not come right after `<`); `.*?` runs to the
      first closer and may not cross a newline; `[A-Z\s]+` runs over upper-case letters and
      whitespace and must be followed by `)`. */
  function MatchLength(u: Unicode, p: Pattern, s: string): (n: nat)
    ensures n == 0 || (2 <= n <= |s| && s[0] == Opener(p) && s[n - 1] == Closer(p))
  {
    if s == [] || s[0] != Opener(p) then 0
    else
      match p
      case HtmlTag =>
        var j := Scan(s, 1, IsTagEnd);
        if 2 <= j < |s| then j + 1 else 0
      case Shouted =>
        var j := Scan(s, 1, ShoutStop(u));
        if 2 <= j < |s| && s[j] == ')' then j + 1 else 0
      case _ =>
        var j := Scan(s, 1, LazyStop(p));
        if j < |s| && s[j] == Closer(p) then j + 1 else 0
  }

  /** `w` is, in full, a match of `p`: the opener, a middle the pattern accepts, the closer.
      The middle of a tag is one or more characters other than `>`; that of an upper-case
      aside one or more upper-case letters or whitespace; that of a bracketed or starred
      aside any characters but the closer and a newline. */
  ghost predicate IsMatch(u: Unicode, p: Pattern, w: string) {
    && |w| >= 2 && w[0] == Opener(p) && w[|w| - 1] == Closer(p)
    && match p
       case HtmlTag => |w| >= 3 && forall i :: 1 <= i < |w| - 1 ==> w[i] != '>'
       case Shouted => |w| >= 3 && forall i :: 1 <= i < |w| - 1 ==> IsAsciiUpper(w[i]) || u.isSpace(w[i])
       case _ => forall i :: 1 <= i < |w| - 1 ==> w[i] != Closer(p) && w[i] != '\n'
  }

  /** What `MatchLength` finds is a match. */
  lemma MatchLengthSound(u: Unicode, p: Pattern, s: string)
    requires MatchLength(u, p, s) > 0
    ensures IsMatch(u, p, s[..MatchLength(u, p, s)])
  {
    var n := MatchLength(u, p, s);
    var w := s[..n];
    assert forall i :: 0 <= i < n ==> w[i] == s[i];
    match p
    case HtmlTag =>
    case Shouted =>
      forall i | 1 <= i < n - 1 ensures IsAsciiUpper(w[i]) || u.isSpace(w[i]) {
        ShoutStopAt(u, s[i]);
      }
    case _ =>
      forall i | 1 <= i < n - 1 ensures w[i] != Closer(p) && w[i] != '\n' {
        LazyStopAt(p, s[i]);
      }
  }

  /** Every match at the start of `s` is the one `MatchLength` finds: where the text starts
      with a match, `MatchLength` is its length, and it is 0 only where no prefix matches. */
  lemma MatchLengthExact(u: Unicode, p: Pattern, s: string, m: nat)
    requires Sane(u)
    requires m <= |s| && IsMatch(u, p, s[..m])
    ensures MatchLength(u, p, s) == m
  {
    var w := s[..m];
    assert forall i :: 0 <= i < m ==> w[i] == s[i];
    match p
    case HtmlTag =>
      ScanAt(s, 1, m - 1, IsTagEnd);
    case Shouted =>
      forall i | 1 <= i < m - 1 ensures !ShoutStop(u)(s[i]) {
        ShoutStopAt(u, s[i]);
      }
      ShoutStopAt(u, ')');
      ScanAt(s, 1, m - 1, ShoutStop(u));
    case _ =>
      forall i | 1 <= i < m - 1 ensures !LazyStop(p)(s[i]) {
        LazyStopAt(p, s[i]);
      }
      LazyStopAt(p, Closer(p));
      ScanAt(s, 1, m - 1, LazyStop(p));
  }

  lemma LazyStopAt(p: Pattern, c: char)
    ensures LazyStop(p)(c) == (c == Closer(p) || c == '\n')
  {
  }

  /** `re.sub(p, "", s)`: scanning from the left, each match found is deleted and the scan
      resumes right after it; where nothing matches, one character is kept. */
  function RemoveAll(u: Unicode, p: Pattern, s: string): (r: string)
    ensures |r| <= |s|
    decreases |s|
  {
    if s == [] then []
    else
      var n := MatchLength(u, p, s);
      if n > 0 then RemoveAll(u, p, s[n..]) else [s[0]] + RemoveAll(u, p, s[1..])
  }

  /** The substitution only deletes characters. */
  lemma {:induction false} RemoveAllDeletes(u: Unicode, p: Pattern, s: string)
    ensures multiset(RemoveAll(u, p, s)) <= multiset(s)
    decreases |s|
  {
    if s != [] {
      var n := MatchLength(u, p, s);
      if n > 0 {
        RemoveAllDeletes(u, p, s[n..]);
        assert s == s[..n] + s[n..];
      } else {
        RemoveAllDeletes(u, p, s[1..]);
        assert s == [s[0]] + s[1..];
      }
    }
  }

  /** A text without the opening character of the pattern is left as it is. */
  lemma {:induction false} RemoveAllWithoutOpener(u: Unicode, p: Pattern, s: string)
    requires forall i :: 0 <= i < |s| ==> s[i] != Opener(p)
    ensures RemoveAll(u, p, s) == s
    decreases |s|
  {
    if s != [] {
      RemoveAllWithoutOpener(u, p, s[1..]);
    }
  }

  /** No match of `p` starts anywhere in `s`. */
  predicate MatchFree(u: Unicode, p: Pattern, s: string) {
    forall i :: 0 <= i < |s| ==> MatchLength(u, p, s[i..]) == 0
  }

  /** One pass of the tag, bracket and star patterns leaves no match behind, so running the
      same substitution again would change nothing. */
  lemma {:induction false} RemoveAllLeavesNoMatch(u: Unicode, p: Pattern, s: string)
    requires p != Shouted
    ensures MatchFree(u, p, RemoveAll(u, p, s))
    decreases |s|
  {
    if s != [] {
      var n := MatchLength(u, p, s);
      if n > 0 {
        RemoveAllLeavesNoMatch(u, p, s[n..]);
      } else {
        var rest := RemoveAll(u, p, s[1..]);
        RemoveAllLeavesNoMatch(u, p, s[1..]);
        var r := [s[0]] + rest;
        assert forall i :: 1 <= i < |r| ==> r[i..] == rest[i - 1..];
        if s[0] == Opener(p) {
          NoMatchInFront(u, p, s);
        }
      }
    }
  }

  /** Where no match starts at the front of `s`, none starts at the front of what its
      first character is followed by once the rest has been processed. */
  lemma NoMatchInFront(u: Unicode, p: Pattern, s: string)
    requires p != Shouted && s != [] && s[0] == Opener(p) && MatchLength(u, p, s) == 0
    ensures MatchLength(u, p, [s[0]] + RemoveAll(u, p, s[1..])) == 0
  {
    if p == HtmlTag {
      var j := Scan(s, 1, IsTagEnd);
      if j == |s| {
        NotIntroduced(u, p, s[1..], '>');
      } else {
        assert s[1..][0] == '>';
      }
    } else {
      var j := Scan(s, 1, LazyStop(p));
      if j == |s| {
        NotIntroduced(u, p, s[1..], Closer(p));
      } else {
        NewlineInFront(u, p, s, j);
      }
    }
  }

  lemma NewlineInFront(u: Unicode, p: Pattern, s: string, j: nat)
    requires p == Bracketed || p == Starred
    requires s != [] && s[0] == Opener(p)
    requires j == Scan(s, 1, LazyStop(p)) < |s| && s[j] == '\n'
    ensures MatchLength(u, p, [s[0]] + RemoveAll(u, p, s[1..])) == 0
  {
    var a, b := s[1..j], s[j..];
    assert s[1..] == a + b;
    KeptUpToNewline(u, p, a, b);
    NewlineStays(u, p, b);
    NoMatchBeforeNewline(u, p, a, RemoveAll(u, p, b));
  }

  /** No pattern opens with a newline, so a newline in front survives the substitution. */
  lemma NewlineStays(u: Unicode, p: Pattern, b: string)
    requires b != [] && b[0] == '\n'
    ensures RemoveAll(u, p, b) == [b[0]] + RemoveAll(u, p, b[1..])
  {
    assert MatchLength(u, p, b) == 0;
  }

  /** A bracket or star opened in front of a newline, with no closer before it, is no match. */
  lemma NoMatchBeforeNewline(u: Unicode, p: Pattern, a: string, x: string)
    requires p == Bracketed || p == Starred
    requires forall i :: 0 <= i < |a| ==> !LazyStop(p)(a[i])
    requires x != [] && x[0] == '\n'
    ensures MatchLength(u, p, [Opener(p)] + (a + x)) == 0
  {
    var r := [Opener(p)] + (a + x);
    assert forall i :: 1 <= i <= |a| ==> r[i] == a[i - 1];
    assert r[|a| + 1] == '\n';
    LazyStopAt(p, '\n');
    ScanAt(r, 1, |a| + 1, LazyStop(p));
  }

  /** A character absent from the input is absent from the output of a substitution. */
  lemma NotIntroduced(u: Unicode, p: Pattern, t: string, c: char)
    requires forall i :: 0 <= i < |t| ==> t[i] != c
    ensures forall i :: 0 <= i < |RemoveAll(u, p, t)| ==> RemoveAll(u, p, t)[i] != c
  {
    var r := RemoveAll(u, p, t);
    RemoveAllDeletes(u, p, t);
    forall i | 0 <= i < |r| ensures r[i] != c {
      assert r[i] in multiset(t);
    }
  }

  /** A bracket or star pattern cannot match across a newline: a stretch of text without a
      closer or a newline, followed by a newline, passes through the substitution unchanged. */
  lemma {:induction false} KeptUpToNewline(u: Unicode, p: Pattern, a: string, b: string)
    requires p == Bracketed || p == Starred
    requires forall i :: 0 <= i < |a| ==> !LazyStop(p)(a[i])
    requires b != [] && b[0] == '\n'
    ensures RemoveAll(u, p, a + b) == a + RemoveAll(u, p, b)
    decreases |a|
  {
    if a == [] {
      assert a + b == b;
    } else {
      var rest := RemoveAll(u, p, b);
      calc {
        RemoveAll(u, p, a + b);
        { LazyKeepsFront(u, p, a, b); }
        [a[0]] + RemoveAll(u, p, (a + b)[1..]);
        { assert (a + b)[1..] == a[1..] + b; }
        [a[0]] + RemoveAll(u, p, a[1..] + b);
        { KeptUpToNewline(u, p, a[1..], b); }
        [a[0]] + (a[1..] + rest);
        { assert [a[0]] + (a[1..] + rest) == ([a[0]] + a[1..]) + rest; }
        ([a[0]] + a[1..]) + rest;
        { assert [a[0]] + a[1..] == a; }
        a + rest;
      }
    }
  }

  lemma LazyKeepsFront(u: Unicode, p: Pattern, a: string, b: string)
    requires p == Bracketed || p == Starred
    requires a != [] && forall i :: 0 <= i < |a| ==> !LazyStop(p)(a[i])
    requires b != [] && b[0] == '\n'
    ensures RemoveAll(u, p, a + b) == [a[0]] + RemoveAll(u, p, (a + b)[1..])
  {
    var s := a + b;
    if a[0] == Opener(p) {
      assert forall i :: 0 <= i < |a| ==> s[i] == a[i];
      ScanAt(s, 1, |a|, LazyStop(p));
    }
    assert MatchLength(u, p, s) == 0;
  }

  /** Text in which no match starts is kept as it is, whatever follows it: the
      substitution removes nothing but matches. */
  lemma {:induction false} RemoveAllKeepsFront(u: Unicode, p: Pattern, a: string, b: string)
    requires forall i :: 0 <= i < |a| ==> MatchLength(u, p, (a + b)[i..]) == 0
    ensures RemoveAll(u, p, a + b) == a + RemoveAll(u, p, b)
    decreases |a|
  {
    if a == [] {
      assert a + b == b;
    } else {
      var s, t := a + b, a[1..] + b;
      assert MatchLength(u, p, s) == 0 by {
        assert s[0..] == s;
      }
      assert RemoveAll(u, p, s) == [a[0]] + RemoveAll(u, p, t) by {
        assert s[1..] == t;
      }
      forall i | 0 <= i < |a| - 1 ensures MatchLength(u, p, t[i..]) == 0 {
        assert t[i..] == s[i + 1..];
      }
      RemoveAllKeepsFront(u, p, a[1..], b);
      HeadThenRest(a, RemoveAll(u, p, b));
    }
  }

  /** A text in which no match starts is left unchanged. */
  lemma RemoveAllMatchFree(u: Unicode, p: Pattern, s: string)
    requires MatchFree(u, p, s)
    ensures RemoveAll(u, p, s) == s
  {
    assert s + [] == s;
    RemoveAllKeepsFront(u, p, s, []);
  }

  /** A match at the front is deleted as a whole, and the substitution carries on after it. */
  lemma RemoveAllSkipsMatch(u: Unicode, p: Pattern, w: string, t: string)
    requires Sane(u) && IsMatch(u, p, w)
    ensures RemoveAll(u, p, w + t) == RemoveAll(u, p, t)
  {
    var s := w + t;
    assert s[..|w|] == w;
    MatchLengthExact(u, p, s, |w|);
    assert s[|w|..] == t;
  }

  /** The dialogue around a match survives: text before the first match is kept, the match
      goes, and the rest is processed in the same way. */
  lemma RemoveAllAround(u: Unicode, p: Pattern, a: string, w: string, b: string)
    requires Sane(u) && IsMatch(u, p, w)
    requires forall i :: 0 <= i < |a| ==> MatchLength(u, p, (a + w + b)[i..]) == 0
    ensures RemoveAll(u, p, a + w + b) == a + RemoveAll(u, p, b)
  {
    assert a + w + b == a + (w + b);
    RemoveAllKeepsFront(u, p, a, w + b);
    RemoveAllSkipsMatch(u, p, w, b);
  }

  /** For the tag, bracket and star patterns a second pass changes nothing. */
  lemma RemoveAllTwice(u: Unicode, p: Pattern, s: string)
    requires p != Shouted
    ensures RemoveAll(u, p, RemoveAll(u, p, s)) == RemoveAll(u, p, s)
  {
    RemoveAllLeavesNoMatch(u, p, s);
    RemoveAllMatchFree(u, p, RemoveAll(u, p, s));
  }

  /** The words on both sides of a tag stay: `a<i>b` becomes `ab`. */
  lemma TagBetweenWords(u: Unicode)
    requires Sane(u)
    ensures RemoveAll(u, HtmlTag, "a<i>b") == "ab"
  {
    var w := "<i>";
    assert IsMatch(u, HtmlTag, w);
    assert "a" + w + "b" == "a<i>b";
    RemoveAllAround(u, HtmlTag, "a", w, "b");
    RemoveAllMatchFree(u, HtmlTag, "b");
  }

  /** The upper-case pattern is different: a single pass can leave a match behind, because
      deleting an inner match can join an opening parenthesis to the text after it. */
  lemma ShoutedCanRemain(u: Unicode)
    requires Sane(u)
    ensures RemoveAll(u, Shouted, "((B)A)") == "(A)"
    ensures MatchLength(u, Shouted, "(A)") == 3
  {
    var s := "((B)A)";
    ScanAt(s, 1, 1, ShoutStop(u));
    assert MatchLength(u, Shouted, s) == 0;
    assert s[1..] == "(B)A)";
    assert s[1..][1] == 'B';
    ShoutStopAt(u, 'B');
    ScanAt(s[1..], 1, 2, ShoutStop(u));
    assert MatchLength(u, Shouted, s[1..]) == 3;
    assert s[1..][3..] == "A)";
    assert RemoveAll(u, Shouted, "A)") == "A)" by {
      assert "A)"[1..] == ")";
      assert RemoveAll(u, Shouted, ")") == ")" by {
        assert ")"[1..] == [];
      }
    }
    ScanAt("(A)", 1, 2, ShoutStop(u));
  }

  lemma ShoutStopAt(u: Unicode, c: char)
    ensures ShoutStop(u)(c) == !(IsAsciiUpper(c) || u.isSpace(c))
  {
  }

  predicate IsMusicNote(c: char) {
    c == '\U{266A}' || c == '\U{266B}' || c == '\U{266C}'  // the three notes of `[♪♫♬]`
  }

  predicate NotMusicNote(c: char) {
    !IsMusicNote(c)
  }

  /** `re.sub(r"[♪♫♬]", "", s)`. */
  function RemoveMusicNotes(s: string): (r: string)
    ensures NoMusicNotes(r)
  {
    FilterSatisfies(NotMusicNote, s);
    Filter(NotMusicNote, s)
  }

  /** The phrases whose presence marks a line as a transcription hallucination. */
  const Hallucinations: seq<string> := [
    "Subtitle by", "Translated by", "Amara.org", "Captioning by", "www.", ".com",
    "Sync and corrections by"
  ]

  /** Some phrase, lower-cased, occurs in the lower-cased text. */
  predicate MentionsHallucination(u: Unicode, text: string) {
    exists h :: h in Hallucinations && Contains(Lower(u, text), Lower(u, h))
  }

  /** No two whitespace characters stand next to each other. */
  ghost predicate NoDoubleSpace(u: Unicode, t: string) {
    forall j, k :: 0 <= j < k < |t| && k == j + 1 ==> !(u.isSpace(t[j]) && u.isSpace(t[k]))
  }

  predicate NoMusicNotes(t: string) {
    forall k :: 0 <= k < |t| ==> !IsMusicNote(t[k])
  }

  /** `re.sub(r"\s+", " ", s)`: each maximal run of whitespace becomes a single space. */
  function CollapseSpaces(u: Unicode, s: string): (r: string)
    ensures s != [] ==> r != [] && r[0] == (if u.isSpace(s[0]) then ' ' else s[0])
    ensures NoDoubleSpace(u, r)
    decreases |s|
  {
    if s == [] then []
    else if u.isSpace(s[0]) then
      var j := Scan(s, 0, NotSpace(u));
      var rest := CollapseSpaces(u, s[j..]);
      assert rest != [] ==> !u.isSpace(rest[0]);
      [' '] + rest
    else
      var rest := CollapseSpaces(u, s[1..]);
      [s[0]] + rest
  }

  /** Collapsing brings in no character but the single space. */
  lemma {:induction false} CollapseSpacesChars(u: Unicode, s: string)
    ensures forall k :: 0 <= k < |CollapseSpaces(u, s)| ==>
      CollapseSpaces(u, s)[k] == ' ' || CollapseSpaces(u, s)[k] in s
    decreases |s|
  {
    if s != [] {
      var j := if u.isSpace(s[0]) then Scan(s, 0, NotSpace(u)) else 1;
      CollapseSpacesChars(u, s[j..]);
      var rest := CollapseSpaces(u, s[j..]);
      forall k | 0 <= k < |rest| && rest[k] in s[j..] ensures rest[k] in s {
        var m :| 0 <= m < |s[j..]| && s[j..][m] == rest[k];
        assert s[j + m] == rest[k];
      }
    }
  }

  /** Collapsing keeps every character that is not whitespace, in order. */
  lemma {:induction false} CollapseSpacesKeepsWords(u: Unicode, s: string)
    requires u.isSpace(' ')
    ensures Filter(NotSpace(u), CollapseSpaces(u, s)) == Filter(NotSpace(u), s)
    decreases |s|
  {
    if s != [] {
      var j := if u.isSpace(s[0]) then Scan(s, 0, NotSpace(u)) else 1;
      CollapseSpacesKeepsWords(u, s[j..]);
      CollapseWordsStep(u, s, j);
    }
  }

  lemma CollapseWordsStep(u: Unicode, s: string, j: nat)
    requires u.isSpace(' ') && s != []
    requires j == if u.isSpace(s[0]) then Scan(s, 0, NotSpace(u)) else 1
    requires Filter(NotSpace(u), CollapseSpaces(u, s[j..])) == Filter(NotSpace(u), s[j..])
    ensures Filter(NotSpace(u), CollapseSpaces(u, s)) == Filter(NotSpace(u), s)
  {
    var head := if u.isSpace(s[0]) then ' ' else s[0];
    assert CollapseSpaces(u, s) == [head] + CollapseSpaces(u, s[j..]);
    FilterAppend(NotSpace(u), [head], CollapseSpaces(u, s[j..]));
    assert s == s[..j] + s[j..];
    FilterAppend(NotSpace(u), s[..j], s[j..]);
    CollapsedFront(u, s, j, head);
  }

  /** The front of `s` that collapses to `head` has the same characters other than
      whitespace as `head`. */
  lemma CollapsedFront(u: Unicode, s: string, j: nat, head: char)
    requires u.isSpace(' ') && s != []
    requires j == if u.isSpace(s[0]) then Scan(s, 0, NotSpace(u)) else 1
    requires head == if u.isSpace(s[0]) then ' ' else s[0]
    ensures Filter(NotSpace(u), s[..j]) == Filter(NotSpace(u), [head])
  {
    NotSpaceAt(u, head);
    FilterOne(NotSpace(u), head);
    if u.isSpace(s[0]) {
      forall k | 0 <= k < j ensures u.isSpace(s[..j][k]) {
        NotSpaceAt(u, s[k]);
      }
      SpacesFilterOut(u, s[..j]);
    } else {
      assert s[..j] == [s[0]];
    }
  }

  /** Whitespace alone has no characters other than whitespace. */
  lemma SpacesFilterOut(u: Unicode, t: string)
    requires forall k :: 0 <= k < |t| ==> u.isSpace(t[k])
    ensures Filter(NotSpace(u), t) == []
  {
    forall k | 0 <= k < |t| ensures !NotSpace(u)(t[k]) {
      NotSpaceAt(u, t[k]);
    }
    FilterNone(NotSpace(u), t);
  }

  /** A run of whitespace, however long, becomes a single space. */
  lemma {:induction false} CollapseSpacesRun(u: Unicode, s: string)
    requires s != [] && forall k :: 0 <= k < |s| ==> u.isSpace(s[k])
    ensures CollapseSpaces(u, s) == " "
  {
    forall k | 0 <= k < |s| ensures !NotSpace(u)(s[k]) {
      NotSpaceAt(u, s[k]);
    }
    ScanPast(s, 0, |s|, NotSpace(u));
    assert s[|s|..] == [];
  }

  /** Collapsing works run by run: a text cut where whitespace meets something else is
      collapsed piece by piece. With `CollapseSpacesRun`, each maximal run of whitespace
      becomes one space and every other character stays. */
  lemma {:induction false} CollapseSpacesSplit(u: Unicode, a: string, b: string)
    requires a == [] || b == [] || !u.isSpace(a[|a| - 1]) || !u.isSpace(b[0])
    ensures CollapseSpaces(u, a + b) == CollapseSpaces(u, a) + CollapseSpaces(u, b)
    decreases |a|
  {
    if a == [] {
      assert a + b == b;
    } else if b == [] {
      assert a + b == a;
    } else if !u.isSpace(a[0]) {
      CollapseSpacesSplit(u, a[1..], b);
      CollapseWordFront(u, a, b);
    } else {
      var ja := Scan(a, 0, NotSpace(u));
      if ja < |a| {
        CollapseSpacesSplit(u, a[ja..], b);
      }
      CollapseRunFront(u, a, b);
    }
  }

  /** The step of `CollapseSpacesSplit` for a text that starts with a character kept as is. */
  lemma CollapseWordFront(u: Unicode, a: string, b: string)
    requires a != [] && !u.isSpace(a[0])
    requires CollapseSpaces(u, a[1..] + b) == CollapseSpaces(u, a[1..]) + CollapseSpaces(u, b)
    ensures CollapseSpaces(u, a + b) == CollapseSpaces(u, a) + CollapseSpaces(u, b)
  {
    var s := a + b;
    assert s[1..] == a[1..] + b;
    var x, y := CollapseSpaces(u, a[1..]), CollapseSpaces(u, b);
    AppendAssoc([a[0]], x, y);
  }

  /** The step of `CollapseSpacesSplit` for a text that starts with a whitespace run. */
  lemma CollapseRunFront(u: Unicode, a: string, b: string)
    requires a != [] && b != [] && u.isSpace(a[0])
    requires !u.isSpace(a[|a| - 1]) || !u.isSpace(b[0])
    requires var ja := Scan(a, 0, NotSpace(u));
      ja < |a| ==> CollapseSpaces(u, a[ja..] + b) == CollapseSpaces(u, a[ja..]) + CollapseSpaces(u, b)
    ensures CollapseSpaces(u, a + b) == CollapseSpaces(u, a) + CollapseSpaces(u, b)
  {
    var s := a + b;
    var ja := Scan(a, 0, NotSpace(u));
    ScanInFront(u, a, b);
    assert s[0] == a[0];
    assert CollapseSpaces(u, s) == [' '] + CollapseSpaces(u, s[ja..]);
    assert CollapseSpaces(u, a) == [' '] + CollapseSpaces(u, a[ja..]);
    DropAppend(a, b, ja);
    var x, y := CollapseSpaces(u, a[ja..]), CollapseSpaces(u, b);
    if ja == |a| {
      assert a[ja..] == [];
    }
    assert CollapseSpaces(u, s[ja..]) == x + y;
    AppendAssoc([' '], x, y);
  }

  /** The whitespace run at the front of `a + b` ends where the one at the front of `a`
      does, when `a` and `b` do not both have whitespace where they meet. */
  lemma ScanInFront(u: Unicode, a: string, b: string)
    requires a != [] && b != [] && (!u.isSpace(a[|a| - 1]) || !u.isSpace(b[0]))
    ensures Scan(a + b, 0, NotSpace(u)) == Scan(a, 0, NotSpace(u))
  {
    var s := a + b;
    var ja := Scan(a, 0, NotSpace(u));
    assert forall k :: 0 <= k < |a| ==> s[k] == a[k];
    if ja < |a| {
      ScanAt(s, 0, ja, NotSpace(u));
    } else {
      NotSpaceAt(u, a[|a| - 1]);
      NotSpaceAt(u, b[0]);
      assert s[|a|] == b[0];
      ScanAt(s, 0, |a|, NotSpace(u));
    }
  }

  /** The substitutions of `clean_text` that delete spans, in the order they run. */
  const SpanPatterns: seq<Pattern> := [HtmlTag, Bracketed, Shouted, Starred]

  /** The substitutions `ps`, one after the other. */
  function RemovePatterns(u: Unicode, ps: seq<Pattern>, text: string): (r: string)
    ensures |r| <= |text|
    decreases |ps|
  {
    if ps == [] then text else RemovePatterns(u, ps[1..], RemoveAll(u, ps[0], text))
  }

  /** The text once tags, bracketed and parenthesised sound descriptions, starred actions
      and music notes are removed: the part of `clean_text` before the hallucination check. */
  function StripAnnotations(u: Unicode, text: string): (r: string)
    ensures NoMusicNotes(r)
  {
    RemoveMusicNotes(RemovePatterns(u, SpanPatterns, text))
  }

  /** `clean_text`. */
  function CleanText(u: Unicode, text: string): (r: string)
    ensures MentionsHallucination(u, StripAnnotations(u, text)) ==> r == []
    ensures NoMusicNotes(r) && NoDoubleSpace(u, r) && Trimmed(u, r)
  {
    Screen(u, StripAnnotations(u, text), Hallucinations)
  }

  /** The loop over the hallucination phrases, which gives up on the line at the first
      phrase found, followed by the whitespace step. */
  function Screen(u: Unicode, t: string, phrases: seq<string>): (r: string)
    requires NoMusicNotes(t)
    ensures (exists h :: h in phrases && Contains(Lower(u, t), Lower(u, h))) ==> r == []
    ensures !(exists h :: h in phrases && Contains(Lower(u, t), Lower(u, h))) ==> r == TidySpaces(u, t)
    ensures NoMusicNotes(r) && NoDoubleSpace(u, r) && Trimmed(u, r)
    decreases |phrases|
  {
    if phrases == [] then TidySpaces(u, t)
    else if Contains(Lower(u, t), Lower(u, phrases[0])) then ""
    else Screen(u, t, phrases[1..])
  }

  /** `re.sub(r"\s+", " ", t).strip()`: single spaces between words and none at the ends. */
  function TidySpaces(u: Unicode, t: string): (r: string)
    requires NoMusicNotes(t)
    ensures NoMusicNotes(r) && NoDoubleSpace(u, r) && Trimmed(u, r)
  {
    var c := CollapseSpaces(u, t);
    CollapseAddsNoNotes(u, t);
    StripKeepsShape(u, c);
    Strip(u, c)
  }

  /** Tidying keeps every character that is not whitespace, in order. */
  lemma TidySpacesKeepsWords(u: Unicode, t: string)
    requires NoMusicNotes(t) && u.isSpace(' ')
    ensures Filter(NotSpace(u), TidySpaces(u, t)) == Filter(NotSpace(u), t)
  {
    CollapseSpacesKeepsWords(u, t);
    StripKeepsWords(u, CollapseSpaces(u, t));
  }

  /** A line that mentions no hallucination keeps every character that is not whitespace
      once its annotations are gone: only whitespace is changed. */
  lemma CleanTextKeepsWords(u: Unicode, text: string)
    requires u.isSpace(' ') && !MentionsHallucination(u, StripAnnotations(u, text))
    ensures Filter(NotSpace(u), CleanText(u, text)) == Filter(NotSpace(u), StripAnnotations(u, text))
  {
    TidySpacesKeepsWords(u, StripAnnotations(u, text));
  }

  /** Stripping keeps every character that is not whitespace, in order. */
  lemma StripKeepsWords(u: Unicode, s: string)
    ensures Filter(NotSpace(u), Strip(u, s)) == Filter(NotSpace(u), s)
  {
    var a := LeadingSpace(u, s);
    SpaceAroundFilterOut(u, s, a, a + |Strip(u, s)|);
  }

  /** Cutting whitespace off both ends of a text keeps its other characters. */
  lemma SpaceAroundFilterOut(u: Unicode, s: string, a: nat, e: nat)
    requires a <= e <= |s|
    requires forall k :: 0 <= k < a ==> u.isSpace(s[k])
    requires forall k :: e <= k < |s| ==> u.isSpace(s[k])
    ensures Filter(NotSpace(u), s[a..e]) == Filter(NotSpace(u), s)
  {
    var pre, post := s[..a], s[e..];
    assert forall k :: 0 <= k < |pre| ==> pre[k] == s[k];
    assert forall k :: 0 <= k < |post| ==> post[k] == s[e + k];
    ThreePieces(s, a, e);
    SpacesOnBothSides(u, pre, s[a..e], post);
  }

  lemma SpacesOnBothSides(u: Unicode, pre: string, mid: string, post: string)
    requires forall k :: 0 <= k < |pre| ==> u.isSpace(pre[k])
    requires forall k :: 0 <= k < |post| ==> u.isSpace(post[k])
    ensures Filter(NotSpace(u), pre + (mid + post)) == Filter(NotSpace(u), mid)
  {
    SpacesFilterOut(u, pre);
    SpacesFilterOut(u, post);
    FilterAppend(NotSpace(u), pre, mid + post);
    FilterAppend(NotSpace(u), mid, post);
    assert [] + (Filter(NotSpace(u), mid) + []) == Filter(NotSpace(u), mid);
  }

  lemma CollapseAddsNoNotes(u: Unicode, t: string)
    requires NoMusicNotes(t)
    ensures NoMusicNotes(CollapseSpaces(u, t))
  {
    var c := CollapseSpaces(u, t);
    CollapseSpacesChars(u, t);
    forall k | 0 <= k < |c| ensures !IsMusicNote(c[k]) {
      if c[k] != ' ' {
        var m :| 0 <= m < |t| && t[m] == c[k];
      }
    }
  }

  /** Stripping a text keeps it free of music notes and of doubled whitespace. */
  lemma StripKeepsShape(u: Unicode, c: string)
    requires NoMusicNotes(c) && NoDoubleSpace(u, c)
    ensures NoMusicNotes(Strip(u, c)) && NoDoubleSpace(u, Strip(u, c))
  {
    var r := Strip(u, c);
    var a := LeadingSpace(u, c);
    assert forall k :: 0 <= k < |r| ==> r[k] == c[a + k];
  }

  /** `re.fullmatch(r"[^\w\s]+", s)`: one or more characters, none a word character or
      whitespace. */
  predicate AllPunctuation(u: Unicode, s: string)
    decreases |s|
  {
    s != [] && !u.isWord(s[0]) && !u.isSpace(s[0]) && (|s| == 1 || AllPunctuation(u, s[1..]))
  }

  /** No character is a word character or whitespace (which holds of the empty text). */
  ghost predicate Wordless(u: Unicode, text: string) {
    forall k :: 0 <= k < |text| ==> !u.isWord(text[k]) && !u.isSpace(text[k])
  }

  /** `is_garbage`: the line is empty, or nothing but punctuation and symbols. */
  function IsGarbage(u: Unicode, text: string): (b: bool)
    ensures b <==> Wordless(u, text)
  {
    PunctuationOnly(u, text);
    text == [] || AllPunctuation(u, text)
  }

  lemma {:induction false} PunctuationOnly(u: Unicode, s: string)
    ensures s != [] ==>
      (AllPunctuation(u, s) <==> forall k :: 0 <= k < |s| ==> !u.isWord(s[k]) && !u.isSpace(s[k]))
    decreases |s|
  {
    if |s| > 1 {
      PunctuationOnly(u, s[1..]);
      assert forall k :: 1 <= k < |s| ==> s[k] == s[1..][k - 1];
    }
  }

  // ---------------------------------------------------------------------------------------
  // The cue list: filtering, merging and renumbering, first on values
  // ---------------------------------------------------------------------------------------

  /** The two text functions the cleaning loop of `clean_srt` applies to each cue: a cleaner,
      and a garbage test on the cleaned text. */
  datatype Cleaning = Cleaning(clean: string -> string, garbage: string -> bool)

  /** The functions `clean_srt` uses: `clean_text` and `is_garbage`. */
  function SourceCleaning(u: Unicode): Cleaning {
    Cleaning(t => CleanText(u, t), t => IsGarbage(u, t))
  }

  /** A cue survives the filter when its cleaned text is not garbage. */
  predicate Keeps(cl: Cleaning, c: Cue) {
    !cl.garbage(cl.clean(c.text))
  }

  /** A surviving cue carries its cleaned text. */
  function Cleaned(cl: Cleaning, c: Cue): Cue {
    c.(text := cl.clean(c.text))
  }

  function Keeper(cl: Cleaning): Cue -> bool {
    c => Keeps(cl, c)
  }

  function Cleaner(cl: Cleaning): Cue -> Cue {
    c => Cleaned(cl, c)
  }

  /** What the cleaning loop leaves in one item: the cleaned cue if it survives, else the
      cue as it was. */
  function Visited(cl: Cleaning, c: Cue): Cue {
    if Keeps(cl, c) then Cleaned(cl, c) else c
  }

  function Visitor(cl: Cleaning): Cue -> Cue {
    c => Visited(cl, c)
  }

  /** The cues the cleaning loop collects, with their new texts. */
  function FilterCues(cl: Cleaning, cues: seq<Cue>): seq<Cue> {
    FilterMap(Keeper(cl), Cleaner(cl), cues)
  }

  /** The positions of the cues that survive the filter. */
  function KeptCues(cl: Cleaning, cues: seq<Cue>): seq<nat> {
    KeptIndices(Keeper(cl), cues)
  }

  /** Each surviving cue is the cleaned version of an input cue that is kept, and an input
      cue appears in the output exactly when it is kept. */
  lemma FilterCuesAt(cl: Cleaning, cues: seq<Cue>)
    ensures var r, idx := FilterCues(cl, cues), KeptCues(cl, cues);
      && |r| == |idx|
      && (forall k :: 0 <= k < |r| ==> idx[k] < |cues| && r[k] == Cleaned(cl, cues[idx[k]]))
      && (forall j :: 0 <= j < |cues| ==> (j in idx <==> Keeps(cl, cues[j])))
  {
    FilterMapAt(Keeper(cl), Cleaner(cl), cues);
    KeptIndicesMembers(Keeper(cl), cues);
  }

  /** The normalisation the merge compares texts under: `str.strip`. */
  function StripText(u: Unicode): string -> string {
    t => Strip(u, t)
  }

  /** `current.text.strip() == last.text.strip()`, for the normalisation `norm`. */
  predicate SameText(norm: string -> string, a: Cue, b: Cue) {
    norm(a.text) == norm(b.text)
  }

  /** `merge_consecutive_duplicates` on values: each cue is compared with the last cue kept
      so far; a repeat only moves that cue's end time. */
  function MergeDuplicates(norm: string -> string, cues: seq<Cue>): (r: seq<Cue>)
    ensures |r| <= |cues|
    ensures r == [] <==> cues == []
    ensures cues != [] ==>
      SameText(norm, r[|r| - 1], cues[|cues| - 1]) && r[|r| - 1].end == cues[|cues| - 1].end
    decreases |cues|
  {
    if cues == [] then []
    else
      var n := |cues| - 1;
      var m := MergeDuplicates(norm, cues[..n]);
      if m == [] then [cues[n]]
      else
        var last := m[|m| - 1];
        if SameText(norm, cues[n], last) then m[..|m| - 1] + [last.(end := cues[n].end)]
        else m + [cues[n]]
  }

  function Last<T>(xs: seq<T>): T
    requires xs != []
  {
    xs[|xs| - 1]
  }

  /** The positions where a run of equal texts starts, each cue being compared with the cue
      just before it in the input. */
  function RunStarts(norm: string -> string, cues: seq<Cue>): (o: seq<nat>)
    ensures InRange(o, |cues|) && StrictlyIncreasing(o)
    ensures cues != [] ==> o != [] && o[0] == 0
    decreases |cues|
  {
    if cues == [] then []
    else
      var n := |cues| - 1;
      var rest := RunStarts(norm, cues[..n]);
      if n == 0 || !SameText(norm, cues[n - 1], cues[n]) then rest + [n] else rest
  }

  /** A later position starts a run exactly when its text differs from the one before it. */
  lemma {:induction false} RunStartsMembers(norm: string -> string, cues: seq<Cue>)
    ensures forall i, j :: 0 <= i && i + 1 == j < |cues| ==>
      (j in RunStarts(norm, cues) <==> !SameText(norm, cues[i], cues[j]))
    decreases |cues|
  {
    if cues != [] {
      var n := |cues| - 1;
      RunStartsMembers(norm, cues[..n]);
      assert forall j :: 0 <= j < n ==> cues[..n][j] == cues[j];
    }
  }

  /** The last position of the run that starts at `o[k]`. */
  function RunEnd(o: seq<nat>, k: nat, n: nat): int
    requires k < |o|
  {
    (if k + 1 < |o| then o[k + 1] else n) - 1
  }

  /** `r` holds, for each run `k` starting at `o[k]`, the run's first cue carrying the end
      time of the run's last cue. */
  predicate RunsMerged(r: seq<Cue>, o: seq<nat>, cues: seq<Cue>) {
    && |r| == |o|
    && forall k :: 0 <= k < |r| ==>
         && o[k] < |cues|
         && 0 <= RunEnd(o, k, |cues|) < |cues|
         && r[k] == cues[o[k]].(end := cues[RunEnd(o, k, |cues|)].end)
  }

  /** The reference reading of the merge: the merged list has one cue per run of equal
      texts, namely the run's first cue with its end time taken from the run's last cue.
      Comparing with the last merged cue, as the loop does, is the same as comparing with
      the previous input cue. */
  lemma {:induction false} MergeKeepsRunStarts(norm: string -> string, cues: seq<Cue>)
    ensures RunsMerged(MergeDuplicates(norm, cues), RunStarts(norm, cues), cues)
    decreases |cues|
  {
    if cues != [] {
      var n := |cues| - 1;
      MergeKeepsRunStarts(norm, cues[..n]);
      var m := MergeDuplicates(norm, cues[..n]);
      if m == [] {
        FirstRun(norm, cues);
      } else if SameText(norm, cues[n], m[|m| - 1]) {
        RunExtended(norm, cues);
      } else {
        RunStarted(norm, cues);
      }
    }
  }

  lemma FirstRun(norm: string -> string, cues: seq<Cue>)
    requires |cues| == 1
    ensures RunsMerged(MergeDuplicates(norm, cues), RunStarts(norm, cues), cues)
  {
    assert cues[..0] == [];
    assert MergeDuplicates(norm, cues) == [cues[0]] && RunStarts(norm, cues) == [0];
  }

  lemma RunExtended(norm: string -> string, cues: seq<Cue>)
    requires cues != []
    requires var c := cues[..|cues| - 1];
      && RunsMerged(MergeDuplicates(norm, c), RunStarts(norm, c), c)
      && MergeDuplicates(norm, c) != []
      && SameText(norm, cues[|cues| - 1], Last(MergeDuplicates(norm, c)))
    ensures RunsMerged(MergeDuplicates(norm, cues), RunStarts(norm, cues), cues)
  {
    var n := |cues| - 1;
    var c := cues[..n];
    var m, p := MergeDuplicates(norm, c), RunStarts(norm, c);
    assert SameText(norm, Last(m), c[n - 1]);
    SameRun(norm, cues, m);
    LastRunExtended(m, p, cues);
  }

  /** Moving the end of the last merged cue to that of one more input cue extends the last run. */
  lemma LastRunExtended(m: seq<Cue>, p: seq<nat>, cues: seq<Cue>)
    requires cues != [] && m != []
    requires RunsMerged(m, p, cues[..|cues| - 1])
    ensures RunsMerged(m[..|m| - 1] + [Last(m).(end := cues[|cues| - 1].end)], p, cues)
  {
    var n := |cues| - 1;
    var c := cues[..n];
    var r := m[..|m| - 1] + [Last(m).(end := cues[n].end)];
    forall k | 0 <= k < |r|
      ensures p[k] < |cues| && 0 <= RunEnd(p, k, |cues|) < |cues|
      ensures r[k] == cues[p[k]].(end := cues[RunEnd(p, k, |cues|)].end)
    {
      assert m[k] == c[p[k]].(end := c[RunEnd(p, k, n)].end);
      assert c[p[k]] == cues[p[k]];
      if k + 1 < |r| {
        assert r[k] == m[k];
        assert c[RunEnd(p, k, n)] == cues[RunEnd(p, k, |cues|)];
      }
    }
  }

  lemma RunStarted(norm: string -> string, cues: seq<Cue>)
    requires cues != []
    requires var c := cues[..|cues| - 1];
      && RunsMerged(MergeDuplicates(norm, c), RunStarts(norm, c), c)
      && MergeDuplicates(norm, c) != []
      && !SameText(norm, cues[|cues| - 1], Last(MergeDuplicates(norm, c)))
    ensures RunsMerged(MergeDuplicates(norm, cues), RunStarts(norm, cues), cues)
  {
    var n := |cues| - 1;
    var c := cues[..n];
    var m, p := MergeDuplicates(norm, c), RunStarts(norm, c);
    assert SameText(norm, Last(m), c[n - 1]);
    NewRun(norm, cues, m);
    NewRunStarted(m, p, cues);
  }

  /** One more input cue that is collected starts a run of its own. */
  lemma NewRunStarted(m: seq<Cue>, p: seq<nat>, cues: seq<Cue>)
    requires cues != []
    requires RunsMerged(m, p, cues[..|cues| - 1])
    ensures RunsMerged(m + [cues[|cues| - 1]], p + [|cues| - 1], cues)
  {
    var n := |cues| - 1;
    var c := cues[..n];
    var r, o := m + [cues[n]], p + [n];
    forall k | 0 <= k < |r|
      ensures o[k] < |cues| && 0 <= RunEnd(o, k, |cues|) < |cues|
      ensures r[k] == cues[o[k]].(end := cues[RunEnd(o, k, |cues|)].end)
    {
      if k < |m| {
        assert m[k] == c[p[k]].(end := c[RunEnd(p, k, n)].end);
        assert c[p[k]] == cues[p[k]];
        assert RunEnd(o, k, |cues|) == RunEnd(p, k, n);
        assert c[RunEnd(p, k, n)] == cues[RunEnd(p, k, n)];
      }
    }
  }

  /** No cue has the same normalised text as the cue before it. */
  ghost predicate NoRepeats(norm: string -> string, r: seq<Cue>) {
    forall j, k :: 0 <= j < k < |r| && k == j + 1 ==> !SameText(norm, r[j], r[k])
  }

  /** After merging, no cue repeats the text of the cue before it. */
  lemma {:induction false} MergeLeavesNoRepeats(norm: string -> string, cues: seq<Cue>)
    ensures NoRepeats(norm, MergeDuplicates(norm, cues))
    decreases |cues|
  {
    if cues != [] {
      var n := |cues| - 1;
      MergeLeavesNoRepeats(norm, cues[..n]);
      var m := MergeDuplicates(norm, cues[..n]);
      if m != [] {
        if SameText(norm, cues[n], Last(m)) {
          EndMovedNoRepeats(norm, m, cues[n].end);
        } else {
          AppendedNoRepeats(norm, m, cues[n]);
        }
      }
    }
  }

  lemma EndMovedNoRepeats(norm: string -> string, m: seq<Cue>, e: Time)
    requires m != [] && NoRepeats(norm, m)
    ensures NoRepeats(norm, m[..|m| - 1] + [Last(m).(end := e)])
  {
    var r := m[..|m| - 1] + [Last(m).(end := e)];
    forall j, k | 0 <= j < k < |r| && k == j + 1 ensures !SameText(norm, r[j], r[k]) {
      assert r[j].text == m[j].text && r[k].text == m[k].text;
    }
  }

  lemma AppendedNoRepeats(norm: string -> string, m: seq<Cue>, c: Cue)
    requires m != [] && NoRepeats(norm, m) && !SameText(norm, c, Last(m))
    ensures NoRepeats(norm, m + [c])
  {
    var r := m + [c];
    forall j, k | 0 <= j < k < |r| && k == j + 1 ensures !SameText(norm, r[j], r[k]) {
      if k < |m| {
        assert r[j] == m[j] && r[k] == m[k];
      }
    }
  }

  /** The re-indexing loop: the cues are numbered from 1. */
  function Renumber(cues: seq<Cue>): (r: seq<Cue>)
    ensures |r| == |cues|
    ensures forall k :: 0 <= k < |r| ==> r[k] == cues[k].(index := k + 1)
  {
    seq(|cues|, k requires 0 <= k < |cues| => cues[k].(index := k + 1))
  }

  /** What `clean_srt` writes out, as a function of the cues it reads. */
  function CleanCues(u: Unicode, cues: seq<Cue>): seq<Cue> {
    Renumber(MergeDuplicates(StripText(u), FilterCues(SourceCleaning(u), cues)))
  }

  /** A cleaned line as it can appear in the output: not garbage, no music notes, no
      whitespace at either end and no two whitespace characters in a row. */
  ghost predicate Tidy(u: Unicode, t: string) {
    && !IsGarbage(u, t)
    && NoMusicNotes(t)
    && NoDoubleSpace(u, t)
    && Trimmed(u, t)
  }

  /** Every cue that survives the filter carries a tidy text. */
  lemma FilterCuesTidy(u: Unicode, cues: seq<Cue>)
    ensures var f := FilterCues(SourceCleaning(u), cues);
      forall k :: 0 <= k < |f| ==> Tidy(u, f[k].text)
  {
    var cl := SourceCleaning(u);
    FilterCuesAt(cl, cues);
    var f, idx := FilterCues(cl, cues), KeptCues(cl, cues);
    forall k | 0 <= k < |f| ensures Tidy(u, f[k].text) {
      KeptIsTidy(u, cues[idx[k]]);
    }
  }

  lemma KeptIsTidy(u: Unicode, c: Cue)
    requires Keeps(SourceCleaning(u), c)
    ensures Tidy(u, Cleaned(SourceCleaning(u), c).text)
  {
  }

  /** Merging only keeps texts that were in its input. */
  lemma MergeKeepsTexts(norm: string -> string, cues: seq<Cue>, good: string -> bool)
    requires forall j :: 0 <= j < |cues| ==> good(cues[j].text)
    ensures forall k :: 0 <= k < |MergeDuplicates(norm, cues)| ==>
      good(MergeDuplicates(norm, cues)[k].text)
  {
    MergeKeepsRunStarts(norm, cues);
  }

  /** What `clean_srt` writes out: at most as many cues as it read, numbered from 1, every
      text tidy, and no cue whose text repeats the one before it. */
  lemma CleanCuesShape(u: Unicode, cues: seq<Cue>)
    ensures var out := CleanCues(u, cues);
      && |out| <= |cues|
      && (forall k :: 0 <= k < |out| ==> out[k].index == k + 1)
      && (forall k :: 0 <= k < |out| ==> Tidy(u, out[k].text))
      && (forall j, k :: 0 <= j && j + 1 == k < |out| ==> out[j].text != out[k].text)
  {
    var f := FilterCues(SourceCleaning(u), cues);
    var m := MergeDuplicates(StripText(u), f);
    FilterCuesTidy(u, cues);
    MergeKeepsTexts(StripText(u), f, t => Tidy(u, t));
    MergeLeavesNoRepeats(StripText(u), f);
    forall j, k | 0 <= j && j + 1 == k < |m| ensures m[j].text != m[k].text {
      assert !SameText(StripText(u), m[j], m[k]);
      assert Tidy(u, m[j].text) && Tidy(u, m[k].text);
    }
  }

  // ---------------------------------------------------------------------------------------
  // The same steps on the subtitle items, as the source performs them
  // ---------------------------------------------------------------------------------------

  /** The cleaning loop of `clean_srt`: every item whose cleaned text is not garbage gets that
      text and is collected; the other items are left as they are. */
  method FilterGarbage(cl: Cleaning, subs: seq<Subtitle>) returns (kept: seq<Subtitle>)
    requires Distinct(subs)
    modifies subs
    ensures InRange(KeptCues(cl, old(Values(subs))), |subs|)
    ensures kept == Pick(subs, KeptCues(cl, old(Values(subs))))
    ensures Values(subs) == Map(Visitor(cl), old(Values(subs)))
    ensures Values(kept) == FilterCues(cl, old(Values(subs)))
  {
    ghost var S := Values(subs);
    ghost var V := S;
    ghost var idx: seq<nat> := [];
    kept := [];
    var i := 0;
    while i < |subs|
      invariant 0 <= i <= |subs|
      invariant FilterState(cl, S, i, V, idx)
      invariant kept == Pick(subs, idx)
      invariant |V| == |subs| && forall j :: 0 <= j < |subs| ==> subs[j].Value() == V[j]
    {
      kept, V, idx := FilterNext(cl, subs, kept, i, S, V, idx);
      i := i + 1;
    }
    FilterStateDone(cl, S, V, idx);
    assert Values(subs) == V;
    ValuesPick(subs, idx);
  }

  /** The state of the cleaning loop after the first `i` items of the input `cues`: `v` holds
      the values of all the items, `idx` the positions of the collected ones. */
  ghost predicate FilterState(cl: Cleaning, cues: seq<Cue>, i: nat, v: seq<Cue>, idx: seq<nat>) {
    && i <= |cues| == |v|
    && idx == KeptIndices(Keeper(cl), cues[..i])
    && (forall j :: 0 <= j < i ==> v[j] == Visited(cl, cues[j]))
    && (forall j :: i <= j < |cues| ==> v[j] == cues[j])
  }

  /** One turn of the cleaning loop, on the item at position `i`. */
  method FilterNext(cl: Cleaning, subs: seq<Subtitle>, kept: seq<Subtitle>, i: nat,
                    ghost S: seq<Cue>, ghost V: seq<Cue>, ghost idx: seq<nat>)
    returns (kept': seq<Subtitle>, ghost V': seq<Cue>, ghost idx': seq<nat>)
    requires Distinct(subs) && i < |subs|
    requires FilterState(cl, S, i, V, idx)
    requires kept == Pick(subs, idx)
    requires |V| == |subs| && forall j :: 0 <= j < |subs| ==> subs[j].Value() == V[j]
    modifies subs[i]
    ensures FilterState(cl, S, i + 1, V', idx')
    ensures kept' == Pick(subs, idx')
    ensures |V'| == |subs| && forall j :: 0 <= j < |subs| ==> subs[j].Value() == V'[j]
  {
    FilterStateStep(cl, S, i, V, idx);
    var sub := subs[i];
    var cleaned := cl.clean(sub.text);
    V' := V[i := Visited(cl, S[i])];
    if !cl.garbage(cleaned) {
      sub.text := cleaned;
      PickAppend(subs, idx, i);
      kept', idx' := kept + [sub], idx + [i];
    } else {
      kept', idx' := kept, idx;
    }
    forall j | 0 <= j < |subs| ensures subs[j].Value() == V'[j] {
      if j != i {
        assert subs[j] != sub;
      }
    }
  }

  /** One turn of the cleaning loop keeps its state. */
  lemma FilterStateStep(cl: Cleaning, cues: seq<Cue>, i: nat, v: seq<Cue>, idx: seq<nat>)
    requires FilterState(cl, cues, i, v, idx) && i < |cues|
    ensures InRange(idx, |cues|) && v[i] == cues[i]
    ensures var w := v[i := Visited(cl, cues[i])];
      FilterState(cl, cues, i + 1, w, idx + (if Keeps(cl, cues[i]) then [i] else []))
  {
    KeptIndicesStep(Keeper(cl), cues, i);
  }

  /** When the cleaning loop ends, the items hold the visited cues and the collected ones are
      the filtered cues. */
  lemma FilterStateDone(cl: Cleaning, cues: seq<Cue>, v: seq<Cue>, idx: seq<nat>)
    requires FilterState(cl, cues, |cues|, v, idx)
    ensures idx == KeptCues(cl, cues) && InRange(idx, |cues|)
    ensures v == Map(Visitor(cl), cues)
    ensures Pick(v, idx) == FilterCues(cl, cues)
  {
    assert cues[..|cues|] == cues;
    forall j | 0 <= j < |cues| ensures v[j] == Map(Visitor(cl), cues)[j] {
      MapIndex(Visitor(cl), cues, j);
    }
    FilterCuesFromVisits(cl, cues, Pick(v, idx));
  }

  /** The cues collected by the cleaning loop, read off the items it visited. */
  lemma FilterCuesFromVisits(cl: Cleaning, cues: seq<Cue>, got: seq<Cue>)
    requires InRange(KeptCues(cl, cues), |cues|)
    requires |got| == |KeptCues(cl, cues)|
    requires forall k :: 0 <= k < |got| ==> got[k] == Map(Visitor(cl), cues)[KeptCues(cl, cues)[k]]
    ensures got == FilterCues(cl, cues)
  {
    FilterCuesAt(cl, cues);
    var idx := KeptCues(cl, cues);
    forall k | 0 <= k < |got| ensures got[k] == FilterCues(cl, cues)[k] {
      MapIndex(Visitor(cl), cues, idx[k]);
    }
  }

  /** `merge_consecutive_duplicates`, comparing texts under `norm`: walks the items, and an
      item whose normalised text equals that of the last collected item only moves that item's
      end time; the collected items are the first items of the runs, and the items not
      collected keep their values. */
  method MergeConsecutiveDuplicates(norm: string -> string, subs: seq<Subtitle>)
    returns (merged: seq<Subtitle>)
    requires Distinct(subs)
    modifies subs
    ensures InRange(RunStarts(norm, old(Values(subs))), |subs|)
    ensures merged == Pick(subs, RunStarts(norm, old(Values(subs))))
    ensures Values(merged) == MergeDuplicates(norm, old(Values(subs)))
    ensures forall j :: 0 <= j < |subs| && j !in RunStarts(norm, old(Values(subs))) ==>
      subs[j].Value() == old(subs[j].Value())
  {
    if subs == [] {
      return [];
    }
    ghost var S := Values(subs);
    ghost var V := S;
    ghost var starts: seq<nat> := [0];
    MergeStateInit(norm, S);
    merged := [subs[0]];
    var i := 1;
    while i < |subs|
      invariant 1 <= i <= |subs|
      invariant MergeState(norm, S, i, V, starts)
      invariant merged == Pick(subs, starts)
      invariant |V| == |subs| && forall j :: 0 <= j < |subs| ==> subs[j].Value() == V[j]
    {
      merged, V, starts := MergeNext(norm, subs, merged, i, S, V, starts);
      i := i + 1;
    }
    MergeStateDone(norm, S, V, starts);
    assert Values(subs) == V;
    ValuesPick(subs, starts);
  }

  lemma MergeStateInit(norm: string -> string, cues: seq<Cue>)
    requires cues != []
    ensures MergeState(norm, cues, 1, cues, [0])
  {
    assert cues[..1][..0] == [];
  }

  /** When the merge loop ends, the collected items hold the merged cues. */
  lemma MergeStateDone(norm: string -> string, cues: seq<Cue>, v: seq<Cue>, starts: seq<nat>)
    requires MergeState(norm, cues, |cues|, v, starts)
    ensures starts == RunStarts(norm, cues) && InRange(starts, |cues|)
    ensures Pick(v, starts) == MergeDuplicates(norm, cues)
    ensures forall j :: 0 <= j < |cues| && j !in starts ==> v[j] == cues[j]
  {
    assert cues[..|cues|] == cues;
  }

  /** One turn of the loop of `merge_consecutive_duplicates`, on the item at position `i`. */
  method MergeNext(norm: string -> string, subs: seq<Subtitle>, merged: seq<Subtitle>, i: nat,
                   ghost S: seq<Cue>, ghost V: seq<Cue>, ghost starts: seq<nat>)
    returns (merged': seq<Subtitle>, ghost V': seq<Cue>, ghost starts': seq<nat>)
    requires Distinct(subs) && i < |subs|
    requires MergeState(norm, S, i, V, starts)
    requires merged == Pick(subs, starts)
    requires |V| == |subs| && forall j :: 0 <= j < |subs| ==> subs[j].Value() == V[j]
    modifies subs
    ensures MergeState(norm, S, i + 1, V', starts')
    ensures merged' == Pick(subs, starts')
    ensures |V'| == |subs| && forall j :: 0 <= j < |subs| ==> subs[j].Value() == V'[j]
  {
    ghost var p := starts[|starts| - 1];
    var current := subs[i];
    var last := merged[|merged| - 1];
    assert current.Value() == V[i] && last.Value() == V[p];
    MergeStateStep(norm, S, i, V, starts);
    if norm(current.text) == norm(last.text) {
      last.end := current.end;
      V' := V[p := V[p].(end := V[i].end)];
      forall j | 0 <= j < |subs| ensures subs[j].Value() == V'[j] {
        if j != p {
          assert subs[j] != last;
        }
      }
      merged', starts' := merged, starts;
    } else {
      PickAppend(subs, starts, i);
      merged', V', starts' := merged + [current], V, starts + [i];
    }
  }

  /** The state of the merge loop after the first `i` items of the input `cues`: `v` holds the
      values of all the items, `starts` the positions of the collected ones. */
  ghost predicate MergeState(norm: string -> string, cues: seq<Cue>, i: nat, v: seq<Cue>, starts: seq<nat>) {
    && 1 <= i <= |cues| == |v|
    && starts == RunStarts(norm, cues[..i])
    && Pick(v, starts) == MergeDuplicates(norm, cues[..i])
    && forall j :: 0 <= j < |cues| && j !in starts ==> v[j] == cues[j]
  }

  /** One turn of the merge loop keeps its state. */
  lemma MergeStateStep(norm: string -> string, cues: seq<Cue>, i: nat, v: seq<Cue>, starts: seq<nat>)
    requires MergeState(norm, cues, i, v, starts) && i < |cues|
    ensures var p := starts[|starts| - 1];
      && p < i
      && (SameText(norm, v[i], v[p]) ==>
            MergeState(norm, cues, i + 1, v[p := v[p].(end := v[i].end)], starts))
      && (!SameText(norm, v[i], v[p]) ==>
            MergeState(norm, cues, i + 1, v, starts + [i]))
  {
    var p := starts[|starts| - 1];
    assert i !in starts && v[i] == cues[i];
    assert Last(MergeDuplicates(norm, cues[..i])) == v[p];
    MergeStepFacts(norm, cues, i);
    if SameText(norm, v[i], v[p]) {
      MergeExtends(norm, cues, i, v, starts);
    } else {
      PickAppend(v, starts, i);
    }
  }

  lemma MergeExtends(norm: string -> string, cues: seq<Cue>, i: nat, v: seq<Cue>, starts: seq<nat>)
    requires MergeState(norm, cues, i, v, starts) && i < |cues| && v[i] == cues[i]
    requires var m := MergeDuplicates(norm, cues[..i]);
      && m != [] && Last(m) == v[starts[|starts| - 1]]
      && MergeDuplicates(norm, cues[..i + 1]) == m[..|m| - 1] + [Last(m).(end := cues[i].end)]
      && RunStarts(norm, cues[..i + 1]) == starts
    ensures var p := starts[|starts| - 1];
      MergeState(norm, cues, i + 1, v[p := v[p].(end := v[i].end)], starts)
  {
    var p := starts[|starts| - 1];
    var m := MergeDuplicates(norm, cues[..i]);
    PickUpdateLast(v, starts, v[p].(end := v[i].end));
    assert forall j :: 0 <= j < |cues| && j !in starts ==> j != p;
  }

  /** How one more cue extends the merge and the run starts. */
  lemma MergeStepFacts(norm: string -> string, cues: seq<Cue>, i: nat)
    requires 1 <= i < |cues|
    ensures var m, m', o, o' := MergeDuplicates(norm, cues[..i]), MergeDuplicates(norm, cues[..i + 1]),
                                RunStarts(norm, cues[..i]), RunStarts(norm, cues[..i + 1]);
      && m != []
      && (SameText(norm, cues[i], Last(m)) ==>
            m' == m[..|m| - 1] + [Last(m).(end := cues[i].end)] && o' == o)
      && (!SameText(norm, cues[i], Last(m)) ==> m' == m + [cues[i]] && o' == o + [i])
  {
    var c := cues[..i + 1];
    assert c[..i] == cues[..i];
    assert c[i - 1] == cues[i - 1] && c[i] == cues[i];
    var m := MergeDuplicates(norm, cues[..i]);
    assert SameText(norm, Last(m), cues[i - 1]);
    if SameText(norm, cues[i], Last(m)) {
      SameRun(norm, c, m);
    } else {
      NewRun(norm, c, m);
    }
  }

  lemma SameRun(norm: string -> string, c: seq<Cue>, m: seq<Cue>)
    requires |c| >= 2 && m == MergeDuplicates(norm, c[..|c| - 1])
    requires SameText(norm, c[|c| - 1], Last(m)) && SameText(norm, Last(m), c[|c| - 2])
    ensures MergeDuplicates(norm, c) == m[..|m| - 1] + [Last(m).(end := c[|c| - 1].end)]
    ensures RunStarts(norm, c) == RunStarts(norm, c[..|c| - 1])
  {
    assert SameText(norm, c[|c| - 2], c[|c| - 1]);
  }

  lemma NewRun(norm: string -> string, c: seq<Cue>, m: seq<Cue>)
    requires |c| >= 2 && m == MergeDuplicates(norm, c[..|c| - 1])
    requires !SameText(norm, c[|c| - 1], Last(m)) && SameText(norm, Last(m), c[|c| - 2])
    ensures MergeDuplicates(norm, c) == m + [c[|c| - 1]]
    ensures RunStarts(norm, c) == RunStarts(norm, c[..|c| - 1]) + [|c| - 1]
  {
    assert !SameText(norm, c[|c| - 2], c[|c| - 1]);
  }

  /** `clean_srt` after loading and before saving: clean and filter with `clean_text` and
      `is_garbage`, merge repeats under `str.strip`, then number the items from 1. */
  method CleanSrt(u: Unicode, subs: seq<Subtitle>) returns (final: seq<Subtitle>)
    requires Distinct(subs)
    modifies subs
    ensures Values(final) == CleanCues(u, old(Values(subs)))
  {
    ghost var S := Values(subs);
    var cl := SourceCleaning(u);
    var kept := FilterGarbage(cl, subs);
    PickDistinct(subs, KeptCues(cl, S));
    final := MergeConsecutiveDuplicates(StripText(u), kept);
    PickDistinct(kept, RunStarts(StripText(u), FilterCues(cl, S)));
    Reindex(final);
  }

  /** The re-indexing loop of `clean_srt`: the items are numbered from 1, in order. */
  method Reindex(subs: seq<Subtitle>)
    requires Distinct(subs)
    modifies subs
    ensures Values(subs) == Renumber(old(Values(subs)))
  {
    ghost var S := Values(subs);
    var i := 0;
    while i < |subs|
      invariant 0 <= i <= |subs|
      invariant forall k :: 0 <= k < |subs| ==>
        subs[k].Value() == if k < i then S[k].(index := k + 1) else S[k]
    {
      subs[i].index := i + 1;
      i := i + 1;
    }
  }
}
