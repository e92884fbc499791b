/** The batch-translation engine of `src/translate.py` (class `GeminiTranslator`): cutting the
    subtitle texts into chunks, sending each chunk with retries and exponential backoff, reading
    the reply into exactly as many lines as were sent, collecting the chunk results into a map
    in whatever order they complete, and writing the lines back onto the subtitle items. */
module Translate {
  import opened Seqs
  import opened Text
  import opened Subtitles

  datatype Option<T> = None | Some(value: T)

  /** The exceptions that escape the engine: the `ValueError` raised by `translate_chunk` when
      no API key is configured, and the one `range` raises for a batch size of 0. */
  datatype Failure = MissingApiKey | ZeroBatchSize

  datatype Result<T> = Ok(value: T) | Err(failure: Failure)

  const MaxRetries: nat := 5
  const BaseDelay: nat := 2
  const ErrorMarker := "[ERROR] "
  const ApiErrorMarker := "[API ERROR] "
  const ParseErrorMarker := "[PARSE ERROR] "

  // ---------------------------------------------------------------------------------------
  // Batching (`prepare_chunks`)
  // ---------------------------------------------------------------------------------------

  /** A batch of subtitle texts, keyed by the position of its first text. */
  datatype Chunk = Chunk(id: int, texts: seq<string>)

  function Min(a: int, b: int): int {
    if a < b then a else b
  }

  /** `text.replace("\n", " ")`. */
  function OneLine(t: string): (r: string)
    ensures |r| == |t| && '\n' !in r
    ensures forall i :: 0 <= i < |t| && t[i] != '\n' ==> r[i] == t[i]
    ensures forall i :: 0 <= i < |t| && t[i] == '\n' ==> r[i] == ' '
  {
    seq(|t|, i requires 0 <= i < |t| => if t[i] == '\n' then ' ' else t[i])
  }

  function OneLines(ts: seq<string>): seq<string> {
    seq(|ts|, j requires 0 <= j < |ts| => OneLine(ts[j]))
  }

  /** The reference cut: consecutive chunks of `size` texts (the last one possibly shorter),
      the first keyed by `offset` and each next one by `size` more. */
  function Batches(texts: seq<string>, size: nat, offset: int): seq<Chunk>
    requires size > 0
    decreases |texts|
  {
    if texts == [] then []
    else
      var n := Min(size, |texts|);
      [Chunk(offset, OneLines(texts[..n]))] + Batches(texts[n..], size, offset + size)
  }

  /** The chunks `prepare_chunks` produces for a batch size: none for a negative size, as
      `range` with a negative step from 0 up to a non-negative bound is empty. */
  function ChunksFor(texts: seq<string>, size: int): (r: seq<Chunk>)
    ensures r == [] <==> texts == [] || size <= 0
  {
    if size > 0 then Batches(texts, size, 0) else []
  }

  function ChunkTexts(cs: seq<Chunk>): seq<seq<string>> {
    seq(|cs|, k requires 0 <= k < |cs| => cs[k].texts)
  }

  function ChunkIds(cs: seq<Chunk>): seq<int> {
    seq(|cs|, k requires 0 <= k < |cs| => cs[k].id)
  }

  /** There are `ceil(N / size)` chunks: just enough to hold every text. */
  lemma {:induction false} BatchesCount(texts: seq<string>, size: nat, offset: int)
    requires size > 0
    ensures |texts| <= |Batches(texts, size, offset)| * size < |texts| + size
    decreases |texts|
  {
    if texts != [] {
      var n := Min(size, |texts|);
      var rest := Batches(texts[n..], size, offset + size);
      BatchesCount(texts[n..], size, offset + size);
      assert |Batches(texts, size, offset)| == 1 + |rest|;
      assert (1 + |rest|) * size == size + |rest| * size;
    }
  }

  /** Chunk `k` is keyed `offset + k * size`: the position of its first text. */
  lemma {:induction false} BatchesIds(texts: seq<string>, size: nat, offset: int)
    requires size > 0
    ensures forall k :: 0 <= k < |Batches(texts, size, offset)| ==>
      Batches(texts, size, offset)[k].id == offset + k * size
    decreases |texts|
  {
    if texts != [] {
      var n := Min(size, |texts|);
      var cs := Batches(texts, size, offset);
      var rest := Batches(texts[n..], size, offset + size);
      BatchesIds(texts[n..], size, offset + size);
      forall k | 1 <= k < |cs| ensures cs[k].id == offset + k * size {
        assert cs[k] == rest[k - 1];
        assert rest[k - 1].id == offset + size + (k - 1) * size;
        MulStep(k - 1, size);
      }
    }
  }

  lemma MulStep(k: nat, size: nat)
    ensures (k + 1) * size == k * size + size
  {
  }

  /** Every chunk but the last holds `size` texts, and the last between 1 and `size`. */
  lemma {:induction false} BatchesSizes(texts: seq<string>, size: nat, offset: int)
    requires size > 0
    ensures var cs := Batches(texts, size, offset);
      && (forall k :: 0 <= k < |cs| - 1 ==> |cs[k].texts| == size)
      && (cs != [] ==> 1 <= |cs[|cs| - 1].texts| <= size)
    decreases |texts|
  {
    if texts != [] {
      var n := Min(size, |texts|);
      var cs := Batches(texts, size, offset);
      var rest := Batches(texts[n..], size, offset + size);
      BatchesSizes(texts[n..], size, offset + size);
      assert forall k :: 1 <= k < |cs| ==> cs[k] == rest[k - 1];
    }
  }

  /** The cut from position `i` on: one chunk keyed `i`, then the cut from `i + size`. */
  lemma BatchesFrom(texts: seq<string>, size: nat, i: nat)
    requires size > 0 && i < |texts|
    ensures Batches(texts[i..], size, i) ==
      [Chunk(i, OneLines(texts[i..Min(i + size, |texts|)]))] + Batches(texts[Min(i + size, |texts|)..], size, i + size)
  {
    var n := Min(size, |texts| - i);
    assert texts[i..][..n] == texts[i..i + n];
    assert texts[i..][n..] == texts[i + n..];
  }

  /** The loop of `prepare_chunks` keeps `chunks` a prefix of the cut, the rest of the cut
      being the cut from position `i` on. */
  lemma BatchesNext(texts: seq<string>, size: nat, i: nat, chunks: seq<Chunk>, batch: seq<string>)
    requires size > 0 && i < |texts|
    requires chunks + Batches(texts[Min(i, |texts|)..], size, i) == Batches(texts, size, 0)
    requires batch == OneLines(texts[i..Min(i + size, |texts|)])
    ensures (chunks + [Chunk(i, batch)])
      + Batches(texts[Min(i + size, |texts|)..], size, i + size) == Batches(texts, size, 0)
  {
    BatchesFrom(texts, size, i);
  }

  lemma BatchesDone(texts: seq<string>, size: nat, i: nat, chunks: seq<Chunk>)
    requires size > 0 && i >= |texts|
    requires chunks + Batches(texts[Min(i, |texts|)..], size, i) == Batches(texts, size, 0)
    ensures chunks == Batches(texts, size, 0)
  {
    assert texts[Min(i, |texts|)..] == [];
  }

  /** Joining the texts of the chunks in order gives back every text, in order, with its
      newlines turned into spaces. */
  lemma {:induction false} BatchesConcat(texts: seq<string>, size: nat, offset: int)
    requires size > 0
    ensures Concat(ChunkTexts(Batches(texts, size, offset))) == OneLines(texts)
    decreases |texts|
  {
    if texts != [] {
      var n := Min(size, |texts|);
      var cs := Batches(texts, size, offset);
      var rest := Batches(texts[n..], size, offset + size);
      BatchesConcat(texts[n..], size, offset + size);
      assert ChunkTexts(cs) == [OneLines(texts[..n])] + ChunkTexts(rest);
      ConcatCons(OneLines(texts[..n]), ChunkTexts(rest));
      OneLinesSplit(texts, n);
    }
  }

  lemma OneLinesSplit(texts: seq<string>, n: nat)
    requires n <= |texts|
    ensures OneLines(texts) == OneLines(texts[..n]) + OneLines(texts[n..])
  {
  }

  // ---------------------------------------------------------------------------------------
  // The transport and the retry policy (`translate_chunk`, lines 56-71)
  // ---------------------------------------------------------------------------------------

  /** One part of a candidate answer; its `"text"` field may be absent. */
  datatype Part = Part(text: Option<string>)

  /** One candidate answer; `None` when its `"content"` or `"parts"` field is absent. */
  datatype Candidate = Candidate(parts: Option<seq<Part>>)

  /** A response body: one that does not decode as the expected JSON, or a JSON object whose
      `"candidates"` field may be absent. */
  datatype Body = Unreadable | Json(candidates: Option<seq<Candidate>>)

  /** What one request gives: an exception from the transport, or a reply with a status. */
  datatype Outcome = NetworkError | Reply(status: int, body: Body)

  /** The outcome of the `attempt`-th request (from 0) sent for the chunk with a given id. */
  type Network = (int, nat) -> Outcome

  /** The statuses checked before `raise_for_status`. */
  const RetryStatuses: set<int> := {429, 500, 502, 503, 504}

  /** `raise_for_status` raises for client and server errors. */
  predicate RaisesForStatus(status: int) {
    400 <= status < 600
  }

  /** An attempt fails when the request raises or its status is an error. */
  predicate Fails(o: Outcome) {
    o.NetworkError? || RaisesForStatus(o.status)
  }

  /** The first attempt from `a` on, below `MaxRetries`, that does not fail. */
  function FirstSuccess(net: Network, id: int, a: nat): (r: Option<nat>)
    ensures r.Some? ==> a <= r.value < MaxRetries && !Fails(net(id, r.value))
    ensures r.Some? ==> forall b :: a <= b < r.value ==> Fails(net(id, b))
    ensures r.None? ==> forall b :: a <= b < MaxRetries ==> Fails(net(id, b))
    decreases MaxRetries - a
  {
    if a >= MaxRetries then None
    else if !Fails(net(id, a)) then Some(a)
    else FirstSuccess(net, id, a + 1)
  }

  function Pow2(k: nat): nat {
    if k == 0 then 1 else 2 * Pow2(k - 1)
  }

  /** The sleeps taken before the first `n` retries: `base_delay * 2 ** attempt`. */
  function Backoff(n: nat): seq<nat> {
    seq(n, k requires 0 <= k < n => BaseDelay * Pow2(k))
  }

  /** The waits are 2, 4, 8 and 16 seconds, each twice the one before; no fifth wait occurs. */
  lemma BackoffSchedule()
    ensures Backoff(MaxRetries - 1) == [2, 4, 8, 16]
    ensures forall n, k :: 0 <= k && k + 1 < n ==> Backoff(n)[k + 1] == 2 * Backoff(n)[k]
  {
    assert Pow2(1) == 2 && Pow2(2) == 4 && Pow2(3) == 8;
  }

  // ---------------------------------------------------------------------------------------
  // Reading the reply (`translate_chunk`, lines 73-102)
  // ---------------------------------------------------------------------------------------

  /** `[f"{marker}{t}" for t in texts]`: the degraded result. */
  function Marked(marker: string, texts: seq<string>): (r: seq<string>)
    ensures |r| == |texts|
    ensures forall i :: 0 <= i < |r| ==> r[i] == marker + texts[i]
  {
    seq(|texts|, i requires 0 <= i < |texts| => marker + texts[i])
  }

  /** Where a run of digits starting at `a` ends. */
  function DigitsEnd(u: Unicode, s: string, a: nat): (d: nat)
    requires a <= |s|
  {
    Scan(s, a, NotDigit(u))
  }

  /** The end of `\]?\s*:?\s*` matched from position `d`. */
  function MarkerTail(u: Unicode, s: string, d: nat): (n: nat)
    requires d <= |s|
    ensures d <= n <= |s| && (n < |s| ==> !u.isSpace(s[n]))
  {
    var b := if d < |s| && s[d] == ']' then d + 1 else d;
    var c := Scan(s, b, NotSpace(u));
    var e := if c < |s| && s[c] == ':' then c + 1 else c;
    Scan(s, e, NotSpace(u))
  }

  /** The line starts with an index marker: digits, possibly after an opening bracket. */
  predicate HasIndexMarker(u: Unicode, s: string) {
    (s != [] && u.isDigit(s[0])) || (|s| >= 2 && s[0] == '[' && u.isDigit(s[1]))
  }

  /** The length of the match of `^\[?\d+\]?\s*:?\s*` in `s`, 0 when there is none: the bracket
      is taken when digits follow it, and otherwise the match is tried without it. */
  function MarkerLength(u: Unicode, s: string): (n: nat)
    ensures n <= |s|
    ensures n == 0 <==> !HasIndexMarker(u, s)
    ensures 0 < n < |s| ==> !u.isSpace(s[n])
  {
    if |s| >= 2 && s[0] == '[' && u.isDigit(s[1]) then MarkerTail(u, s, DigitsEnd(u, s, 1))
    else if s != [] && u.isDigit(s[0]) then MarkerTail(u, s, DigitsEnd(u, s, 0))
    else 0
  }

  /** `w` is, in full, a text `\[?\d+\]?\s*:?\s*` matches: an optional opening bracket, one
      or more digits, an optional closing bracket, whitespace, an optional colon, whitespace. */
  ghost predicate IsIndexMarker(u: Unicode, w: string) {
    exists a: nat, d: nat, b: nat, c: nat, e: nat :: MarkerCut(u, w, a, d, b, c, e)
  }

  /** The cut of `w` into the six pieces of the marker, at `a <= d <= b <= c <= e`. */
  ghost predicate MarkerCut(u: Unicode, w: string, a: nat, d: nat, b: nat, c: nat, e: nat) {
    && a < d <= b <= c <= e <= |w|
    && (a == 0 || (a == 1 && w[0] == '['))
    && (forall i :: a <= i < d ==> u.isDigit(w[i]))
    && (b == d || (b == d + 1 && w[d] == ']'))
    && (forall i :: b <= i < c ==> u.isSpace(w[i]))
    && (e == c || (e == c + 1 && w[c] == ':'))
    && (forall i :: e <= i < |w| ==> u.isSpace(w[i]))
  }

  /** What `MarkerLength` removes is an index marker. */
  lemma MarkerLengthSound(u: Unicode, s: string)
    requires MarkerLength(u, s) > 0
    ensures IsIndexMarker(u, s[..MarkerLength(u, s)])
  {
    var a := if |s| >= 2 && s[0] == '[' && u.isDigit(s[1]) then 1 else 0;
    assert MarkerLength(u, s) == MarkerTail(u, s, DigitsEnd(u, s, a));
    CutOfScans(u, s, a);
  }

  /** The scans of `MarkerLength` from a first digit at `a`, read as a cut of the prefix they
      cover. */
  lemma CutOfScans(u: Unicode, s: string, a: nat)
    requires a <= 1 && a < |s| && (a == 1 ==> s[0] == '[') && u.isDigit(s[a])
    ensures IsIndexMarker(u, s[..MarkerTail(u, s, DigitsEnd(u, s, a))])
  {
    var d := DigitsEnd(u, s, a);
    var b := if d < |s| && s[d] == ']' then d + 1 else d;
    var c := Scan(s, b, NotSpace(u));
    var e := if c < |s| && s[c] == ':' then c + 1 else c;
    var m := MarkerTail(u, s, d);
    assert m == Scan(s, e, NotSpace(u));
    NotDigitAt(u, s[a]);
    DigitRun(u, s, a);
    SpaceRun(u, s, b);
    SpaceRun(u, s, e);
    CutOfText(u, s, m, a, d, b, c, e);
  }

  /** A cut read on `s` is a cut of the prefix `s[..m]`. */
  lemma CutOfText(u: Unicode, s: string, m: nat, a: nat, d: nat, b: nat, c: nat, e: nat)
    requires a < d <= b <= c <= e <= m <= |s|
    requires a == 0 || (a == 1 && s[0] == '[')
    requires forall i :: a <= i < d ==> u.isDigit(s[i])
    requires b == d || (b == d + 1 && s[d] == ']')
    requires forall i :: b <= i < c ==> u.isSpace(s[i])
    requires e == c || (e == c + 1 && s[c] == ':')
    requires forall i :: e <= i < m ==> u.isSpace(s[i])
    ensures MarkerCut(u, s[..m], a, d, b, c, e)
  {
    assert forall i :: 0 <= i < m ==> s[..m][i] == s[i];
  }

  /** No longer prefix is an index marker, and where `MarkerLength` is 0 no non-empty prefix
      is one: the greedy pieces of the pattern leave nothing a longer match could take. */
  lemma MarkerLengthLongest(u: Unicode, s: string, m: nat)
    requires Sane(u)
    requires 0 < m <= |s| && IsIndexMarker(u, s[..m])
    ensures 0 < MarkerLength(u, s) && m <= MarkerLength(u, s)
  {
    var a: nat, d: nat, b: nat, c: nat, e: nat :| MarkerCut(u, s[..m], a, d, b, c, e);
    CutOnText(u, s, m, a, d, b, c, e);
    var dd := DigitsEnd(u, s, a);
    assert MarkerLength(u, s) == MarkerTail(u, s, dd) by {
      assert u.isDigit(s[a]) && (a == 0 ==> s[0] != '[');
    }
    forall i | a <= i < d ensures !NotDigit(u)(s[i]) {
      NotDigitAt(u, s[i]);
    }
    ScanPast(s, a, d, NotDigit(u));
    if d < m {
      assert !u.isDigit(s[d]);
      NotDigitAt(u, s[d]);
      ScanAt(s, a, d, NotDigit(u));
      MarkerTailLongest(u, s, m, d, b, c, e);
    }
  }

  /** A cut of the prefix `s[..m]`, read on `s`. */
  lemma CutOnText(u: Unicode, s: string, m: nat, a: nat, d: nat, b: nat, c: nat, e: nat)
    requires Sane(u) && m <= |s| && MarkerCut(u, s[..m], a, d, b, c, e)
    ensures a < d <= b <= c <= e <= m
    ensures (a == 0 || (a == 1 && s[0] == '[')) && u.isDigit(s[a])
    ensures a == 0 ==> s[0] != '['
    ensures forall i :: a <= i < d ==> u.isDigit(s[i])
    ensures d < m ==> !u.isDigit(s[d])
    ensures b == d || (b == d + 1 && s[d] == ']')
    ensures forall i :: b <= i < c ==> u.isSpace(s[i])
    ensures e == c || (e == c + 1 && s[c] == ':')
    ensures forall i :: e <= i < m ==> u.isSpace(s[i])
  {
    var w := s[..m];
    assert forall i :: 0 <= i < m ==> w[i] == s[i];
    if d < m {
      assert u.isSpace(s[d]) || s[d] == ']' || s[d] == ':';
    }
  }

  /** The part of `MarkerLengthLongest` after the digits. */
  lemma MarkerTailLongest(u: Unicode, s: string, m: nat, d: nat, b: nat, c: nat, e: nat)
    requires Sane(u) && d < m <= |s| && d <= b <= c <= e <= m
    requires b == d || (b == d + 1 && s[d] == ']')
    requires forall i :: b <= i < c ==> u.isSpace(s[i])
    requires e == c || (e == c + 1 && s[c] == ':')
    requires forall i :: e <= i < m ==> u.isSpace(s[i])
    ensures m <= MarkerTail(u, s, d)
  {
    assert s[d] == ']' <==> b == d + 1;
    forall i | b <= i < c ensures !NotSpace(u)(s[i]) {
      NotSpaceAt(u, s[i]);
    }
    forall i | e <= i < m ensures !NotSpace(u)(s[i]) {
      NotSpaceAt(u, s[i]);
    }
    var cc := Scan(s, b, NotSpace(u));
    if c < m && e == c + 1 {
      NotSpaceAt(u, ':');
      ScanAt(s, b, c, NotSpace(u));
      ScanPast(s, e, m, NotSpace(u));
    } else if c < m {
      ScanPast(s, b, m, NotSpace(u));
    } else {
      ScanPast(s, b, c, NotSpace(u));
    }
  }

  /** `re.sub(r"^\[?\d+\]?\s*:?\s*", "", line)`. */
  function Unmarked(u: Unicode, s: string): (r: string)
    ensures |r| <= |s| && r == s[|s| - |r|..]
    ensures r == s <==> !HasIndexMarker(u, s)
  {
    s[MarkerLength(u, s)..]
  }

  /** Only a bracket, whitespace and a colon are taken after the digits: a line numbered in
      the `1.` style keeps its dot. */
  lemma NumberedWithDot(u: Unicode)
    requires u.isDigit('1') && !u.isDigit('.') && !u.isSpace('.')
    ensures HasIndexMarker(u, "1. Hi") && Unmarked(u, "1. Hi") == ". Hi"
  {
  }

  /** The lines kept from the lines of a reply, one line at a time as the appending loop
      goes: a blank line is skipped, any other is stripped and loses its index marker. */
  function Kept(u: Unicode, lines: seq<string>): (r: seq<string>)
    ensures |r| <= |lines|
    ensures (forall k :: 0 <= k < |lines| ==> Strip(u, lines[k]) == []) ==> r == []
    decreases |lines|
  {
    if lines == [] then []
    else
      var rest := Kept(u, lines[..|lines| - 1]);
      var line := Strip(u, lines[|lines| - 1]);
      if line != [] then rest + [Unmarked(u, line)] else rest
  }

  /** The lines read off a reply text: the stripped text split into lines, then `Kept`. */
  function KeptLines(u: Unicode, text: string): (r: seq<string>)
    ensures |r| <= |SplitLines(Strip(u, text))|
    ensures Strip(u, text) == [] ==> r == []
    ensures forall k :: 0 <= k < |r| ==> Trimmed(u, r[k])
  {
    KeptTrimmed(u, SplitLines(Strip(u, text)));
    Kept(u, SplitLines(Strip(u, text)))
  }

  /** The test and the rewriting of the comprehension reading below. */
  function NonBlank(u: Unicode): string -> bool {
    l => Strip(u, l) != []
  }

  function Unmark(u: Unicode): string -> string {
    l => Unmarked(u, Strip(u, l))
  }

  /** The loop builds `[unmark(strip(l)) for l in lines if strip(l)]`; with `FilterMapAt`
      this says that the kept lines are the non-blank lines, in order, each stripped and
      unmarked. */
  lemma {:induction false} KeptIsComprehension(u: Unicode, lines: seq<string>)
    ensures Kept(u, lines) == FilterMap(NonBlank(u), Unmark(u), lines)
    decreases |lines|
  {
    if lines != [] {
      var x := lines[|lines| - 1];
      KeptIsComprehension(u, lines[..|lines| - 1]);
      NonBlankAt(u, x);
      UnmarkAt(u, x);
    }
  }

  lemma NonBlankAt(u: Unicode, x: string)
    ensures NonBlank(u)(x) == (Strip(u, x) != [])
  {
  }

  lemma UnmarkAt(u: Unicode, x: string)
    ensures Unmark(u)(x) == Unmarked(u, Strip(u, x))
  {
  }

  /** Removing the index marker from a stripped line leaves it stripped. */
  lemma UnmarkedTrimmed(u: Unicode, s: string)
    requires Trimmed(u, s)
    ensures Trimmed(u, Unmarked(u, s))
  {
    var n := MarkerLength(u, s);
    var r := Unmarked(u, s);
    if r != [] {
      assert r[0] == s[n] && r[|r| - 1] == s[|s| - 1];
    }
  }

  /** No kept line has whitespace at either end. */
  lemma {:induction false} KeptTrimmed(u: Unicode, lines: seq<string>)
    ensures forall k :: 0 <= k < |Kept(u, lines)| ==> Trimmed(u, Kept(u, lines)[k])
    decreases |lines|
  {
    if lines != [] {
      KeptTrimmed(u, lines[..|lines| - 1]);
      var line := Strip(u, lines[|lines| - 1]);
      if line != [] {
        UnmarkedTrimmed(u, line);
      }
    }
  }

  function Blanks(n: nat): seq<string> {
    seq(n, i requires 0 <= i < n => "")
  }

  /** Pads with empty lines or truncates to exactly `count` lines. */
  function FitTo(lines: seq<string>, count: nat): (r: seq<string>)
    ensures |r| == count
    ensures forall k :: 0 <= k < count ==> r[k] == if k < |lines| then lines[k] else ""
  {
    if |lines| < count then lines + Blanks(count - |lines|)
    else if |lines| > count then lines[..count]
    else lines
  }

  /** `part.get("text", "")`. */
  function PartText(p: Part): string {
    match p.text
    case None => ""
    case Some(t) => t
  }

  /** The reply holds a first part of a first candidate. */
  predicate HasFirstPart(b: Body) {
    && b.Json? && b.candidates.Some? && b.candidates.value != []
    && b.candidates.value[0].parts.Some? && b.candidates.value[0].parts.value != []
  }

  /** The text of that first part. */
  function FirstPartText(b: Body): string
    requires HasFirstPart(b)
  {
    PartText(b.candidates.value[0].parts.value[0])
  }

  /** The lines `translate_chunk` returns for a reply it received: `[PARSE ERROR] ` marks when the
      body cannot be read or has no first part, `[API ERROR] ` marks when it has no candidates,
      and otherwise the kept lines fitted to the number of texts sent. */
  function ReplyLines(u: Unicode, body: Body, texts: seq<string>): (r: seq<string>)
    ensures |r| == |texts|
    ensures !HasFirstPart(body) ==> r == Marked(ParseErrorMarker, texts) || r == Marked(ApiErrorMarker, texts)
    ensures HasFirstPart(body) ==> forall k :: 0 <= k < |r| ==>
      r[k] == if k < |KeptLines(u, FirstPartText(body))| then KeptLines(u, FirstPartText(body))[k] else ""
  {
    match body
    case Unreadable => Marked(ParseErrorMarker, texts)
    case Json(cands) =>
      if cands.None? || cands.value == [] then Marked(ApiErrorMarker, texts)
      else
        var parts := cands.value[0].parts;
        if parts.None? || parts.value == [] then Marked(ParseErrorMarker, texts)
        else FitTo(KeptLines(u, PartText(parts.value[0])), |texts|)
  }

  // ---------------------------------------------------------------------------------------
  // One chunk, and all of them
  // ---------------------------------------------------------------------------------------

  datatype ChunkResult = ChunkResult(id: int, lines: seq<string>)

  /** Translating the chunk raises exactly when it has texts and no key is configured. */
  predicate Raises(key: string, c: Chunk) {
    key == [] && c.texts != []
  }

  /** The result of `translate_chunk`: nothing to send for no texts; the missing key; the
      `[ERROR] ` marks when every attempt fails; otherwise the reply of the first attempt that
      does not fail. */
  function ChunkOutcome(u: Unicode, key: string, net: Network, id: int, texts: seq<string>)
    : (r: Result<ChunkResult>)
    ensures r.Err? <==> Raises(key, Chunk(id, texts))
    ensures r.Err? ==> r.failure == MissingApiKey
    ensures r.Ok? ==> r.value.id == id && |r.value.lines| == |texts|
  {
    if texts == [] then Ok(ChunkResult(id, []))
    else if key == [] then Err(MissingApiKey)
    else
      match FirstSuccess(net, id, 0)
      case None => Ok(ChunkResult(id, Marked(ErrorMarker, texts)))
      case Some(a) => Ok(ChunkResult(id, ReplyLines(u, net(id, a).body, texts)))
  }

  /** When all five requests fail, the chunk's lines are its texts with the `[ERROR] ` mark. */
  lemma AllAttemptsFail(u: Unicode, key: string, net: Network, id: int, texts: seq<string>)
    requires texts != [] && key != []
    requires forall b :: 0 <= b < MaxRetries ==> Fails(net(id, b))
    ensures ChunkOutcome(u, key, net, id, texts) == Ok(ChunkResult(id, Marked(ErrorMarker, texts)))
  {
  }

  /** Request `a` is the first of the five that does not fail. */
  predicate FirstAnswer(net: Network, id: int, a: nat) {
    a < MaxRetries && !Fails(net(id, a)) && forall b :: 0 <= b < a ==> Fails(net(id, b))
  }

  /** When request `a` is the first that does not fail, the chunk's lines are read from its
      reply, and no later outcome matters. */
  lemma FirstReplyRead(u: Unicode, key: string, net: Network, id: int, texts: seq<string>, a: nat)
    requires texts != [] && key != [] && FirstAnswer(net, id, a)
    ensures ChunkOutcome(u, key, net, id, texts) == Ok(ChunkResult(id, ReplyLines(u, net(id, a).body, texts)))
  {
    assert FirstSuccess(net, id, 0) == Some(a);
  }

  /** When the first reply received has no candidates, every text comes back with the
      `[API ERROR] ` mark. */
  lemma NoCandidates(u: Unicode, key: string, net: Network, id: int, texts: seq<string>, a: nat)
    requires texts != [] && key != [] && FirstAnswer(net, id, a)
    requires net(id, a).body.Json?
    requires net(id, a).body.candidates.None? || net(id, a).body.candidates.value == []
    ensures ChunkOutcome(u, key, net, id, texts) == Ok(ChunkResult(id, Marked(ApiErrorMarker, texts)))
  {
    FirstReplyRead(u, key, net, id, texts, a);
  }

  /** When the first reply received cannot be read, or its first candidate has no parts, every
      text comes back with the `[PARSE ERROR] ` mark. */
  lemma NoFirstPart(u: Unicode, key: string, net: Network, id: int, texts: seq<string>, a: nat)
    requires texts != [] && key != [] && FirstAnswer(net, id, a)
    requires net(id, a).body.Unreadable? || (
      && net(id, a).body.candidates.Some? && net(id, a).body.candidates.value != []
      && var parts := net(id, a).body.candidates.value[0].parts;
      parts.None? || parts.value == [])
    ensures ChunkOutcome(u, key, net, id, texts) == Ok(ChunkResult(id, Marked(ParseErrorMarker, texts)))
  {
    FirstReplyRead(u, key, net, id, texts, a);
  }

  /** The lines a chunk that does not raise is translated into. */
  function LinesOf(u: Unicode, key: string, net: Network, c: Chunk): (lines: seq<string>)
    requires !Raises(key, c)
    ensures |lines| == |c.texts|
  {
    ChunkOutcome(u, key, net, c.id, c.texts).value.lines
  }

  /** The lines of the chunks, in chunk order. */
  function ChunkLines(u: Unicode, key: string, net: Network, cs: seq<Chunk>): seq<seq<string>>
    requires forall k :: 0 <= k < |cs| ==> !Raises(key, cs[k])
  {
    seq(|cs|, k requires 0 <= k < |cs| => LinesOf(u, key, net, cs[k]))
  }

  /** The lines of all the chunks joined in chunk order. */
  function AllLines(u: Unicode, key: string, net: Network, cs: seq<Chunk>): seq<string>
    requires forall k :: 0 <= k < |cs| ==> !Raises(key, cs[k])
  {
    Concat(ChunkLines(u, key, net, cs))
  }

  /** The translated texts, one per subtitle text, whatever path each chunk took. */
  function Translation(u: Unicode, key: string, net: Network, texts: seq<string>, size: nat)
    : (r: seq<string>)
    requires size > 0 && (key != [] || texts == [])
    ensures |r| == |texts|
  {
    var cs := Batches(texts, size, 0);
    AllLinesLength(u, key, net, cs);
    BatchesConcat(texts, size, 0);
    AllLines(u, key, net, cs)
  }

  /** The translated lines are exactly as many as the texts sent. */
  lemma AllLinesLength(u: Unicode, key: string, net: Network, cs: seq<Chunk>)
    requires forall k :: 0 <= k < |cs| ==> !Raises(key, cs[k])
    ensures |AllLines(u, key, net, cs)| == |Concat(ChunkTexts(cs))|
  {
    ConcatSameShape(ChunkLines(u, key, net, cs), ChunkTexts(cs));
  }

  /** The map keys of the chunks. */
  function Ids(cs: seq<Chunk>): set<int> {
    set k | 0 <= k < |cs| :: cs[k].id
  }

  predicate DistinctIds(cs: seq<Chunk>) {
    forall a, b :: 0 <= a < b < |cs| ==> cs[a].id != cs[b].id
  }

  /** `as_completed` yields every submitted chunk exactly once: `order` lists the chunk
      positions in completion order. */
  predicate CompletionOrder(order: seq<nat>, n: nat) {
    && |order| == n
    && Distinct(order)
    && InRange(order, n)
    && forall i :: 0 <= i < n ==> i in order
  }

  /** What the collected map holds: exactly the chunk ids, each with the lines of a chunk
      carrying that id. */
  predicate Collected(u: Unicode, key: string, net: Network, cs: seq<Chunk>, m: map<int, seq<string>>)
    requires forall k :: 0 <= k < |cs| ==> !Raises(key, cs[k])
  {
    && m.Keys == Ids(cs)
    && forall id :: id in m ==>
         exists k :: 0 <= k < |cs| && cs[k].id == id && m[id] == LinesOf(u, key, net, cs[k])
  }

  /** With distinct chunk ids the collected map is determined: it does not depend on the order
      in which the chunks complete. */
  lemma CollectedUnique(u: Unicode, key: string, net: Network, cs: seq<Chunk>,
                        m1: map<int, seq<string>>, m2: map<int, seq<string>>)
    requires forall k :: 0 <= k < |cs| ==> !Raises(key, cs[k])
    requires DistinctIds(cs)
    requires Collected(u, key, net, cs, m1) && Collected(u, key, net, cs, m2)
    ensures m1 == m2
  {
  }

  // ---------------------------------------------------------------------------------------
  // Reassembly (`reassemble_subtitles`)
  // ---------------------------------------------------------------------------------------

  predicate Increasing(xs: seq<int>) {
    forall a, b :: 0 <= a < b < |xs| ==> xs[a] < xs[b]
  }

  /** The smallest element of a set that has one. */
  lemma LeastOf(s: set<int>) returns (x: int)
    requires exists z :: z in s
    ensures x in s && forall y :: y in s ==> x <= y
    decreases |s|
  {
    var z :| z in s;
    var rest := s - {z};
    if exists y :: y in rest {
      var w := LeastOf(rest);
      x := if z < w then z else w;
      forall y | y in s ensures x <= y {
        if y != z {
          assert y in rest;
        }
      }
    } else {
      forall y | y in s ensures y == z {
        assert y !in rest;
      }
      x := z;
    }
  }

  lemma LeastExists(s: set<int>)
    requires exists z :: z in s
    ensures exists x :: x in s && forall y :: y in s ==> x <= y
  {
    var x := LeastOf(s);
  }

  /** The smallest element of a set. */
  function Least(s: set<int>): (x: int)
    requires exists z :: z in s
    ensures x in s && forall y :: y in s ==> x <= y
  {
    LeastExists(s);
    var x :| x in s && forall y :: y in s ==> x <= y;
    x
  }

  /** `sorted(keys)`: the elements of the set in increasing order. */
  function Ascending(s: set<int>): (r: seq<int>)
    ensures Increasing(r)
    ensures forall x :: x in r <==> x in s
    decreases |s|
  {
    if exists z :: z in s then
      var x := Least(s);
      var rest := Ascending(s - {x});
      assert forall k :: 0 <= k < |rest| ==> x < rest[k] by {
        forall k | 0 <= k < |rest| ensures x < rest[k] {
          assert rest[k] in rest;
        }
      }
      [x] + rest
    else []
  }

  function Elements(xs: seq<int>): set<int> {
    set x | x in xs
  }

  lemma HeadIsLeast(xs: seq<int>)
    requires Increasing(xs) && xs != []
    ensures xs[0] in Elements(xs) && Least(Elements(xs)) == xs[0]
  {
    var s := Elements(xs);
    assert xs[0] in s;
    forall y | y in s ensures xs[0] <= y {
      var k :| 0 <= k < |xs| && xs[k] == y;
    }
  }

  lemma TailElements(xs: seq<int>)
    requires Increasing(xs) && xs != []
    ensures Elements(xs) - {xs[0]} == Elements(xs[1..])
  {
    forall y | y in Elements(xs) - {xs[0]} ensures y in xs[1..] {
      var k :| 0 <= k < |xs| && xs[k] == y;
      assert k != 0;
      assert xs[1..][k - 1] == y;
    }
  }

  /** An increasing sequence is the sorted listing of its elements. */
  lemma {:induction false} AscendingOfIncreasing(xs: seq<int>)
    requires Increasing(xs)
    ensures Ascending(Elements(xs)) == xs
    decreases |xs|
  {
    if xs == [] {
      assert !exists z :: z in Elements(xs);
    } else {
      HeadIsLeast(xs);
      TailElements(xs);
      AscendingOfIncreasing(xs[1..]);
      AscendingFirst(Elements(xs));
      assert xs == [xs[0]] + xs[1..];
    }
  }

  lemma AscendingFirst(s: set<int>)
    requires exists z :: z in s
    ensures Ascending(s) == [Least(s)] + Ascending(s - {Least(s)})
  {
  }

  /** The lists of the map at the keys `ks`, in that order. */
  function Lookup(m: map<int, seq<string>>, ks: seq<int>): seq<seq<string>>
    requires forall j :: 0 <= j < |ks| ==> ks[j] in m
  {
    seq(|ks|, j requires 0 <= j < |ks| => m[ks[j]])
  }

  /** `final_translations`: the lists of the map joined in ascending key order. */
  function Joined(m: map<int, seq<string>>): seq<string> {
    Concat(Lookup(m, Ascending(m.Keys)))
  }

  /** What reassembly leaves in the item at position `i`: the `i`-th joined line as its text
      when there is one, otherwise the item as it was. */
  function Retexted(c: Cue, lines: seq<string>, i: nat): Cue {
    if i < |lines| then c.(text := lines[i]) else c
  }

  lemma MulMonotone(a: nat, b: nat, size: nat)
    requires a < b && size > 0
    ensures a * size < b * size
  {
    assert b * size == a * size + (b - a) * size;
  }

  /** The chunk keys increase along the cut. */
  lemma BatchIdsIncreasing(texts: seq<string>, size: nat)
    requires size > 0
    ensures Increasing(ChunkIds(Batches(texts, size, 0)))
  {
    var ids := ChunkIds(Batches(texts, size, 0));
    BatchesIds(texts, size, 0);
    forall a, b | 0 <= a < b < |ids| ensures ids[a] < ids[b] {
      assert ids[a] == a * size && ids[b] == b * size;
      MulMonotone(a, b, size);
    }
  }

  lemma IdsElements(cs: seq<Chunk>)
    ensures Ids(cs) == Elements(ChunkIds(cs))
  {
    forall x | x in Elements(ChunkIds(cs)) ensures x in Ids(cs) {
      var k :| 0 <= k < |cs| && ChunkIds(cs)[k] == x;
    }
    forall x | x in Ids(cs) ensures x in Elements(ChunkIds(cs)) {
      var k :| 0 <= k < |cs| && cs[k].id == x;
      assert ChunkIds(cs)[k] == x;
    }
  }

  /** With increasing keys, the collected map holds each chunk's own lines under its key. */
  lemma CollectedAt(u: Unicode, key: string, net: Network, cs: seq<Chunk>, m: map<int, seq<string>>, j: nat)
    requires forall k :: 0 <= k < |cs| ==> !Raises(key, cs[k])
    requires Increasing(ChunkIds(cs)) && Collected(u, key, net, cs, m) && j < |cs|
    ensures cs[j].id in m && m[cs[j].id] == LinesOf(u, key, net, cs[j])
  {
    var id := cs[j].id;
    assert id in Ids(cs);
    assert id in m;
    var k :| 0 <= k < |cs| && cs[k].id == id && m[id] == LinesOf(u, key, net, cs[k]);
    assert ChunkIds(cs)[k] == ChunkIds(cs)[j];
    assert k == j;
  }

  /** The keys of a map collected from a cut, in ascending order, are the chunk keys. */
  lemma CollectedKeys(u: Unicode, key: string, net: Network, texts: seq<string>, size: nat,
                      m: map<int, seq<string>>)
    requires size > 0
    requires var cs := Batches(texts, size, 0);
      (forall k :: 0 <= k < |cs| ==> !Raises(key, cs[k])) && Collected(u, key, net, cs, m)
    ensures Ascending(m.Keys) == ChunkIds(Batches(texts, size, 0))
  {
    var cs := Batches(texts, size, 0);
    BatchIdsIncreasing(texts, size);
    IdsElements(cs);
    AscendingOfIncreasing(ChunkIds(cs));
  }

  /** Looking the chunk keys up in the collected map gives each chunk's own lines. */
  lemma LookupChunks(u: Unicode, key: string, net: Network, cs: seq<Chunk>, m: map<int, seq<string>>)
    requires forall k :: 0 <= k < |cs| ==> !Raises(key, cs[k])
    requires Increasing(ChunkIds(cs)) && Collected(u, key, net, cs, m)
    ensures forall j :: 0 <= j < |cs| ==> ChunkIds(cs)[j] in m
    ensures Lookup(m, ChunkIds(cs)) == ChunkLines(u, key, net, cs)
  {
    forall j | 0 <= j < |cs| ensures ChunkIds(cs)[j] in m && m[ChunkIds(cs)[j]] == LinesOf(u, key, net, cs[j]) {
      CollectedAt(u, key, net, cs, m, j);
    }
  }

  /** For the chunks of a cut, the map lists joined in ascending key order are the chunks'
      lines in chunk order: the translation of the whole text. */
  lemma JoinedBatches(u: Unicode, key: string, net: Network, texts: seq<string>, size: nat,
                      m: map<int, seq<string>>)
    requires size > 0 && (key != [] || texts == [])
    requires var cs := Batches(texts, size, 0);
      (forall k :: 0 <= k < |cs| ==> !Raises(key, cs[k])) && Collected(u, key, net, cs, m)
    ensures Joined(m) == Translation(u, key, net, texts, size)
  {
    var cs := Batches(texts, size, 0);
    CollectedKeys(u, key, net, texts, size, m);
    BatchIdsIncreasing(texts, size);
    LookupChunks(u, key, net, cs, m);
  }

  // ---------------------------------------------------------------------------------------
  // The translator
  // ---------------------------------------------------------------------------------------

  class GeminiTranslator {
    const apiKey: string
    const apiUrl: string

    constructor (apiKey: string, apiUrl: string)
      ensures this.apiKey == apiKey && this.apiUrl == apiUrl
    {
      this.apiKey := apiKey;
      this.apiUrl := apiUrl;
    }

    /** The retry loop: at most `MaxRetries` requests; after each failed one but the last,
        a wait of `BaseDelay * 2 ** attempt` seconds. The reply is the body of the first
        attempt that does not fail, or nothing when all of them fail. */
    method PostWithRetries(chunkId: int, net: Network) returns (reply: Option<Body>, sleeps: seq<nat>)
      ensures match FirstSuccess(net, chunkId, 0)
        case Some(a) => reply == Some(net(chunkId, a).body) && sleeps == Backoff(a)
        case None => reply == None && sleeps == Backoff(MaxRetries - 1)
    {
      sleeps := [];
      var attempt := 0;
      while true
        invariant 0 <= attempt < MaxRetries
        invariant sleeps == Backoff(attempt)
        invariant FirstSuccess(net, chunkId, 0) == FirstSuccess(net, chunkId, attempt)
        decreases MaxRetries - attempt
      {
        var outcome := net(chunkId, attempt);
        var failed := outcome.NetworkError? || outcome.status in RetryStatuses
          || RaisesForStatus(outcome.status);
        if !failed {
          return Some(outcome.body), sleeps;
        }
        if attempt == MaxRetries - 1 {
          return None, sleeps;
        }
        sleeps := sleeps + [BaseDelay * Pow2(attempt)];
        attempt := attempt + 1;
      }
    }

    /** The reading of a received reply into exactly one line per text sent. */
    method ParseReply(u: Unicode, body: Body, texts: seq<string>) returns (lines: seq<string>)
      ensures lines == ReplyLines(u, body, texts)
    {
      if body.Unreadable? {
        return Marked(ParseErrorMarker, texts);
      }
      var cands := body.candidates;
      if cands.None? || cands.value == [] {
        return Marked(ApiErrorMarker, texts);
      }
      var parts := cands.value[0].parts;
      if parts.None? || parts.value == [] {
        return Marked(ParseErrorMarker, texts);
      }
      var translated := ReadLines(u, PartText(parts.value[0]));
      var count := |texts|;
      if |translated| < count {
        translated := translated + Blanks(count - |translated|);
      } else if |translated| > count {
        translated := translated[..count];
      }
      lines := translated;
    }

    /** `translate_chunk`: no request for no texts, the missing key before any request, then
        the retry loop and the reading of the reply. */
    method TranslateChunk(u: Unicode, chunkId: int, texts: seq<string>, net: Network)
      returns (r: Result<ChunkResult>, sleeps: seq<nat>)
      ensures r == ChunkOutcome(u, apiKey, net, chunkId, texts)
      ensures texts == [] || apiKey == [] ==> sleeps == []
      ensures texts != [] && apiKey != [] ==> match FirstSuccess(net, chunkId, 0)
        case Some(a) => sleeps == Backoff(a)
        case None => sleeps == Backoff(MaxRetries - 1)
      ensures |sleeps| < MaxRetries
    {
      sleeps := [];
      if texts == [] {
        return Ok(ChunkResult(chunkId, [])), sleeps;
      }
      if apiKey == [] {
        return Err(MissingApiKey), sleeps;
      }
      var reply;
      reply, sleeps := PostWithRetries(chunkId, net);
      if reply.None? {
        return Ok(ChunkResult(chunkId, Marked(ErrorMarker, texts))), sleeps;
      }
      var lines := ParseReply(u, reply.value, texts);
      r := Ok(ChunkResult(chunkId, lines));
    }

    /** `prepare_chunks`: a chunk of flattened texts for every `batchSize` subtitles, keyed
        by the position of its first one. */
    method PrepareChunks(subs: seq<Subtitle>, batchSize: int) returns (r: Result<seq<Chunk>>)
      ensures batchSize == 0 ==> r == Err(ZeroBatchSize)
      ensures batchSize != 0 ==> r == Ok(ChunksFor(Texts(subs), batchSize))
    {
      if batchSize == 0 {
        return Err(ZeroBatchSize);
      }
      if batchSize < 0 {
        // `range(0, n, step)` with a negative step is empty for n >= 0
        return Ok([]);
      }
      ghost var all := Texts(subs);
      var chunks: seq<Chunk> := [];
      var i := 0;
      while i < |subs|
        invariant 0 <= i
        invariant chunks + Batches(all[Min(i, |all|)..], batchSize, i) == Batches(all, batchSize, 0)
        decreases |subs| - i
      {
        var hi := Min(i + batchSize, |subs|);
        TextsSlice(subs, i, hi);
        var texts := OneLines(Texts(subs[i..hi]));
        BatchesNext(all, batchSize, i, chunks, texts);
        chunks := chunks + [Chunk(i, texts)];
        i := i + batchSize;
      }
      BatchesDone(all, batchSize, i, chunks);
      return Ok(chunks);
    }

    /** `execute_concurrent_translation`, with the chunks completing in `order`: the first
        chunk whose translation raises ends the collection; otherwise the map holds every
        chunk's lines under its id. */
    method ExecuteConcurrentTranslation(u: Unicode, chunks: seq<Chunk>, order: seq<nat>, net: Network)
      returns (r: Result<map<int, seq<string>>>)
      requires CompletionOrder(order, |chunks|)
      ensures r.Err? <==> exists k :: 0 <= k < |chunks| && Raises(apiKey, chunks[k])
      ensures r.Err? ==> r.failure == MissingApiKey
      ensures r.Ok? ==> Collected(u, apiKey, net, chunks, r.value)
    {
      var translated: map<int, seq<string>> := map[];
      var n := 0;
      while n < |order|
        invariant 0 <= n <= |order|
        invariant forall j :: 0 <= j < n ==> !Raises(apiKey, chunks[order[j]])
        invariant translated.Keys == set j | 0 <= j < n :: chunks[order[j]].id
        invariant forall id :: id in translated ==>
          exists j :: 0 <= j < n && chunks[order[j]].id == id &&
            translated[id] == LinesOf(u, apiKey, net, chunks[order[j]])
      {
        var chunk := chunks[order[n]];
        var result, _ := TranslateChunk(u, chunk.id, chunk.texts, net);
        if result.Err? {
          return Err(result.failure);
        }
        translated := translated[result.value.id := result.value.lines];
        n := n + 1;
      }
      forall k | 0 <= k < |chunks| ensures !Raises(apiKey, chunks[k]) {
        assert k in order;
        var j :| 0 <= j < |order| && order[j] == k;
      }
      assert translated.Keys == Ids(chunks) by {
        forall id | id in Ids(chunks) ensures id in translated.Keys {
          var k :| 0 <= k < |chunks| && chunks[k].id == id;
          assert k in order;
          var j :| 0 <= j < |order| && order[j] == k;
        }
      }
      return Ok(translated);
    }

    /** `reassemble_subtitles`: the map lists are joined in ascending key order, and the item
        at each position below the joined length gets the line at that position. */
    method ReassembleSubtitles(subs: seq<Subtitle>, translated: map<int, seq<string>>)
      requires Distinct(subs)
      modifies subs
      ensures forall i :: 0 <= i < |subs| ==>
        subs[i].Value() == Retexted(old(subs[i].Value()), Joined(translated), i)
    {
      var final := JoinInKeyOrder(translated);
      Retext(subs, final);
    }

    /** `translate_srt` between loading and saving: nothing is done for no subtitles;
        otherwise the chunks are translated, completing in `order`, and written back. Whatever
        path each chunk takes and in whatever order the chunks complete, every subtitle gets
        the translated line for its own position, and keeps its index and timings. */
    method TranslateSrt(u: Unicode, subs: seq<Subtitle>, batchSize: int, order: seq<nat>, net: Network)
      returns (r: Result<()>)
      requires Distinct(subs)
      requires CompletionOrder(order, |ChunksFor(Texts(subs), batchSize)|)
      modifies subs
      ensures subs == [] ==> r.Ok?
      ensures r.Err? <==> subs != [] && (batchSize == 0 || (batchSize > 0 && apiKey == []))
      ensures r.Err? || batchSize < 0 ==> forall i :: 0 <= i < |subs| ==> subs[i].Value() == old(subs[i].Value())
      ensures r.Ok? && batchSize > 0 ==> forall i :: 0 <= i < |subs| ==>
        subs[i].Value() == old(subs[i].Value()).(text := Translation(u, apiKey, net, old(Texts(subs)), batchSize)[i])
    {
      if |subs| == 0 {
        return Ok(());
      }
      ghost var all := Texts(subs);
      var chunks := PrepareChunks(subs, batchSize);
      if chunks.Err? {
        return Err(chunks.failure);
      }
      if batchSize > 0 {
        BatchesSizes(all, batchSize, 0);
        assert chunks.value[0].texts != [];
      }
      var translated := ExecuteConcurrentTranslation(u, chunks.value, order, net);
      if translated.Err? {
        return Err(translated.failure);
      }
      if batchSize > 0 {
        JoinedBatches(u, apiKey, net, all, batchSize, translated.value);
      } else {
        assert translated.value.Keys == {};
        assert Joined(translated.value) == [];
      }
      ReassembleSubtitles(subs, translated.value);
      return Ok(());
    }
  }

  /** The appending loop of `translate_chunk`: the non-blank lines of the reply, stripped and
      without their index markers. */
  method ReadLines(u: Unicode, text: string) returns (translated: seq<string>)
    ensures translated == KeptLines(u, text)
  {
    var all := SplitLines(Strip(u, text));
    translated := [];
    var i := 0;
    while i < |all|
      invariant 0 <= i <= |all|
      invariant translated == Kept(u, all[..i])
    {
      KeptStep(u, all, i);
      var line := Strip(u, all[i]);
      if line != [] {
        translated := translated + [Unmarked(u, line)];
      }
      i := i + 1;
    }
    assert all[..i] == all;
  }

  lemma KeptStep(u: Unicode, lines: seq<string>, i: nat)
    requires i < |lines|
    ensures Kept(u, lines[..i + 1]) == Kept(u, lines[..i]) +
      (if Strip(u, lines[i]) != [] then [Unmarked(u, Strip(u, lines[i]))] else [])
  {
    assert lines[..i + 1][..i] == lines[..i];
  }

  /** The first loop of `reassemble_subtitles`: the lists extended one after the other in
      ascending key order. */
  method JoinInKeyOrder(translated: map<int, seq<string>>) returns (final: seq<string>)
    ensures final == Joined(translated)
  {
    var keys := Ascending(translated.Keys);
    final := [];
    var j := 0;
    while j < |keys|
      invariant 0 <= j <= |keys|
      invariant final == Concat(Lookup(translated, keys[..j]))
    {
      LookupNext(translated, keys, j);
      final := final + translated[keys[j]];
      j := j + 1;
    }
    assert keys[..j] == keys;
  }

  lemma LookupNext(m: map<int, seq<string>>, ks: seq<int>, j: nat)
    requires j < |ks| && forall i :: 0 <= i < |ks| ==> ks[i] in m
    ensures Concat(Lookup(m, ks[..j + 1])) == Concat(Lookup(m, ks[..j])) + m[ks[j]]
  {
    assert Lookup(m, ks[..j + 1])[..j] == Lookup(m, ks[..j]);
  }

  /** The second loop of `reassemble_subtitles`: item `i` takes line `i` when there is one. */
  method Retext(subs: seq<Subtitle>, final: seq<string>)
    requires Distinct(subs)
    modifies subs
    ensures forall i :: 0 <= i < |subs| ==> subs[i].Value() == Retexted(old(subs[i].Value()), final, i)
  {
    ghost var before := Values(subs);
    var i := 0;
    while i < |subs|
      invariant 0 <= i <= |subs|
      invariant forall k :: 0 <= k < |subs| ==>
        subs[k].Value() == if k < i then Retexted(before[k], final, k) else before[k]
    {
      if i < |final| {
        subs[i].text := final[i];
      }
      i := i + 1;
    }
  }
}
