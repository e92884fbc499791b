# Simple-Radeon-Subs: the subtitle cleaner and the batch translator, in Dafny

This project models the two pieces of subtitle processing in Simple-Radeon-Subs that compute
something, and proves what they promise.

- **The cleaner** (`src/clean.py`):
  - `clean_text` removes HTML tags, bracketed and upper-case parenthesised sound
    descriptions, starred actions and music notes. It rejects a line that mentions a known
    transcription hallucination, then collapses whitespace.
  - `is_garbage` flags lines that are empty or nothing but punctuation.
  - `merge_consecutive_duplicates` folds runs of equal text into one cue that spans the run.
  - `clean_srt` filters, merges and renumbers the cues from 1.
- **The translator** (`src/translate.py`, class `GeminiTranslator`):
  - `prepare_chunks` cuts the subtitle texts into batches keyed by their start position.
  - `translate_chunk` sends each batch with at most five attempts and exponential backoff. It
    reads the reply into exactly as many lines as were sent, or falls back to the source texts
    with an `[ERROR] `, `[API ERROR] ` or `[PARSE ERROR] ` mark.
  - `execute_concurrent_translation` collects the chunk results into a map in whatever order
    they complete.
  - `reassemble_subtitles` writes the lines back onto the subtitle items, in ascending key
    order.

Files:

- `seqs.dfy` (module `Seqs`): generic sequence facts. These cover concatenation,
  order-preserving filtering and picking elements by position.
- `text.dfy` (module `Text`): the string operations of the host language. These are
  `str.strip`, `str.splitlines`, `str.lower` and substring search, over abstract Unicode
  character classes.
- `subtitles.dfy` (module `Subtitles`): a subtitle item as a class whose fields are updated
  in place (`Subtitle`), and its value (`Cue`).
- `clean.dfy` (module `Clean`): `src/clean.py`.
- `translate.dfy` (module `Translate`): `src/translate.py`.

Each regular-expression substitution is a recursive string function. The in-place loops of
the source are methods over `Subtitle` objects. Each method is proved against a function on
cue values, and the lemmas state the properties of those functions.

The Unicode classes `\s`, `\w` and `\d`, and `str.lower`, are fields of a `Unicode` value
passed to every operation that uses them, so the model fixes none of them. Where a lemma
needs a fact that holds of Python's classes, it requires `Text.Sane`: a space is whitespace,
no digit is whitespace, and the brackets, parentheses and colon that the patterns spell out
are neither whitespace nor digits.

Where a comment of the source and its code disagree, the model follows the code. The
comment at src/translate.py:88 says that index markers like `1.` are removed. But the
pattern on line 89 has no `.`, so `1. Hi` becomes `. Hi` (`Translate.NumberedWithDot`).

The HTTP transport is a function from (chunk id, attempt number) to an outcome: a transport
exception, or a status and a body. Each wait of the retry loop is returned as a number of
seconds. Concurrent completion is a parameter: a permutation of the chunk positions.

## Model

| member | source | states |
|---|---|---|
| `Text.Strip` | src/translate.py:85 | `str.strip` keeps the slice of the input that starts after its leading whitespace, and everything it cuts from either end is whitespace; the result has no whitespace at either end, is empty exactly when the input is all whitespace, and is the input itself when the input has none at either end |
| `Text.SplitLines` | src/translate.py:82 | `str.splitlines` yields at least one line exactly when the text is non-empty, and no line contains a line-break character |
| `Text.SplitLinesCount` | src/translate.py:82 | there is one line per line boundary (`\r\n` counting as one), plus one for text after the last boundary: a trailing break opens no empty line |
| `Text.SplitLinesOne` | src/translate.py:82 | a non-empty text without a line break is one line |
| `Text.SplitLinesBreak` | src/translate.py:82 | the text is cut at its first break: the text before it is the first line, and the remaining lines are those of the text after it (a `\r` alone when no `\n` follows) |
| `Text.SplitLinesCrLf` | src/translate.py:82 | `\r\n` is one cut: the text before it is a line, and the remaining lines are those of the text after it |
| `Text.SplitLinesKeepsText` | src/translate.py:82 | joining the lines of `splitlines` gives the text with exactly its line-break characters removed |
| `Clean.MatchLength` | src/clean.py:17-26 | the length of the match of a span pattern at the front of a text, 0 for none: a match starts with the pattern's opener and ends with its closer (`MatchLengthSound` and `MatchLengthExact` pin it down) |
| `Clean.MatchLengthSound` | src/clean.py:17-26 | what the matcher finds at the front of a text is a match of the pattern: opener, a middle the pattern accepts (`[^>]+`; `[A-Z\s]+`; `.*?` without the closer or a newline), closer |
| `Clean.MatchLengthExact` | src/clean.py:17-26 | every match at the front of a text is the one the matcher finds, so it finds none exactly when no prefix of the text matches |
| `Clean.RemoveAllDeletes` | src/clean.py:17-26 | a substitution of a span pattern by `""` only deletes characters (the output's multiset is contained in the input's) |
| `Clean.RemoveAll` | src/clean.py:17-26 | `re.sub(p, "", s)` never lengthens the text; what it keeps and deletes is stated by the `RemoveAllKeepsFront`, `RemoveAllSkipsMatch` and `RemoveAllAround` rows |
| `Clean.RemoveAllWithoutOpener` | src/clean.py:17-26 | a text without the pattern's opening character is left unchanged |
| `Clean.RemoveAllLeavesNoMatch` | src/clean.py:17-26 | after one pass of the tag, bracket or star substitution no match starts anywhere in the text |
| `Clean.RemoveAllKeepsFront` | src/clean.py:17-26 | text in which no match starts is kept unchanged, and in place, whatever follows it |
| `Clean.RemoveAllMatchFree` | src/clean.py:17-26 | a text in which no match starts is returned unchanged |
| `Clean.RemoveAllSkipsMatch` | src/clean.py:17-26 | a match at the front of the text is deleted whole, and the substitution carries on right after it |
| `Clean.RemoveAllAround` | src/clean.py:17-26 | the dialogue before the first match survives, the match goes, and the rest is substituted in the same way |
| `Clean.RemoveAllTwice` | src/clean.py:17-26 | for the tag, bracket and star patterns, a second pass changes nothing |
| `Clean.TagBetweenWords` | src/clean.py:17 | the words on both sides of a tag stay: `a<i>b` becomes `ab` |
| `Clean.ShoutedCanRemain` | src/clean.py:24 | the upper-case parenthesis substitution is not idempotent: one pass over `((B)A)` leaves `(A)`, which still matches |
| `Clean.RemoveMusicNotes` | src/clean.py:28 | the output contains none of ♪, ♫, ♬ |
| `Clean.CollapseSpaces` | src/clean.py:45 | `re.sub(r"\s+", " ", s)` leaves no two whitespace characters next to each other, and starts with a space exactly when the input starts with whitespace |
| `Clean.CollapseSpacesRun` | src/clean.py:45 | a whitespace run of any length becomes exactly one space |
| `Clean.CollapseSpacesSplit` | src/clean.py:45 | a text cut where whitespace meets other text collapses piece by piece, so each maximal whitespace run is replaced on its own and every other character stays where it was |
| `Clean.CollapseSpacesKeepsWords` | src/clean.py:45 | collapsing keeps every character that is not whitespace, in order |
| `Clean.CollapseSpacesChars` | src/clean.py:45 | collapsing brings in no character except the single space |
| `Clean.StripAnnotations` | src/clean.py:16-28 | after the tag, bracket, parenthesis, star and music-note substitutions the text has no music note |
| `Clean.Screen` | src/clean.py:40-45 | if any listed phrase, lower-cased, occurs in the lower-cased text, the result is `""`, and otherwise it is the whitespace-tidied text; every result has no music note, no doubled whitespace and no whitespace at either end |
| `Clean.TidySpaces` | src/clean.py:45 | the collapsed and stripped text has no doubled whitespace and no whitespace at either end; it has no music note, given that its input had none |
| `Clean.TidySpacesKeepsWords` | src/clean.py:45 | collapsing and stripping keep every character that is not whitespace, in order |
| `Clean.StripKeepsWords` | src/clean.py:45 | `strip` keeps every character that is not whitespace, in order |
| `Clean.CleanText` | src/clean.py:12-47 | `clean_text` returns `""` whenever the text left after removing tags, `[…]`, upper-case `(…)`, `*…*` and music notes mentions a hallucination phrase (case-insensitively); its output never has a music note, a run of two whitespace characters, or whitespace at either end |
| `Clean.CleanTextKeepsWords` | src/clean.py:12-47 | when the text left after removing tags, `[…]`, upper-case `(…)`, `*…*` and music notes mentions no hallucination phrase, `clean_text` keeps every one of its characters that is not whitespace, in order: only whitespace changes |
| `Clean.IsGarbage` | src/clean.py:50-59 | `is_garbage(t)` holds exactly when no character of `t` is a word character or whitespace (the empty text included) |
| `Clean.PunctuationOnly` | src/clean.py:55 | `re.fullmatch(r"[^\w\s]+", s)` on a non-empty `s` holds exactly when every character is neither a word character nor whitespace |
| `Clean.FilterCuesAt` | src/clean.py:94-99 | the filter keeps, in original order, exactly the cues whose cleaned text is not garbage, each carrying its cleaned text |
| `Clean.FilterCuesTidy` | src/clean.py:94-99 | every cue that survives the filter has a text that is not garbage, has no music note, no doubled whitespace and no whitespace at either end |
| `Clean.MergeDuplicates` | src/clean.py:62-81 | empty input gives empty output and only empty input does; the output is no longer than the input; the last output cue has the last input cue's text (up to `strip`) and its end time |
| `Clean.RunStarts` | src/clean.py:71-79 | the positions where runs start are increasing and in range, and the first cue always starts one |
| `Clean.RunStartsMembers` | src/clean.py:75 | a later cue starts a run exactly when its stripped text differs from that of the cue before it |
| `Clean.MergeKeepsRunStarts` | src/clean.py:62-81 | the merged list has one cue per run of equal stripped texts: the run's first cue, with the end time of the run's last cue and every other field unchanged |
| `Clean.MergeLeavesNoRepeats` | src/clean.py:62-81 | no two adjacent merged cues have equal stripped text |
| `Clean.Renumber` | src/clean.py:107-108 | after re-indexing, cue `k` carries index `k + 1` and is otherwise unchanged |
| `Clean.CleanCuesShape` | src/clean.py:84-108 | what `clean_srt` writes has at most as many cues as it read, indices exactly 1..n in order, only tidy non-garbage texts, and no cue whose text equals the one before it |
| `Clean.FilterGarbage` | src/clean.py:94-99 | the cleaning loop collects exactly the items the filter keeps, in order; it gives each of them its cleaned text and leaves every other item as it was |
| `Clean.MergeConsecutiveDuplicates` | src/clean.py:62-81 | the merge loop returns the first item of each run, whose values are the merged cues; only the end time of a run's first item moves, and items that do not start a run are untouched |
| `Clean.Reindex` | src/clean.py:107-108 | the re-index loop numbers the items 1..n in order and changes nothing else |
| `Clean.CleanSrt` | src/clean.py:84-108 | the items `clean_srt` saves are filter, then merge, then renumber, applied to the cues it loaded |
| `Translate.OneLine` | src/translate.py:118 | `replace("\n", " ")` keeps the length, turns every newline into a space and keeps every other character |
| `Translate.ChunksFor` | src/translate.py:116-120 | `prepare_chunks` cuts no chunk exactly when there are no subtitles or the batch size is negative |
| `Translate.BatchesCount` | src/translate.py:114-120 | there are `ceil(N / batch_size)` chunks: `N <= chunks * batch_size < N + batch_size` |
| `Translate.BatchesIds` | src/translate.py:116-120 | chunk `k` is keyed `k * batch_size`, the position of its first text |
| `Translate.BatchesSizes` | src/translate.py:116-120 | every chunk except the last holds `batch_size` texts, and the last between 1 and `batch_size` |
| `Translate.BatchesConcat` | src/translate.py:112-121 | joining the chunk texts in order gives every subtitle text, in order, with its newlines turned into spaces |
| `Translate.BatchIdsIncreasing` | src/translate.py:116 | the chunk keys increase along the list of chunks |
| `Translate.GeminiTranslator.PrepareChunks` | src/translate.py:112-121 | `prepare_chunks` returns exactly the reference cut for a positive batch size, none for a negative one, and raises for 0 |
| `Translate.FirstSuccess` | src/translate.py:60-67 | finds the first of the five attempts that neither raises in transport nor has a 4xx/5xx status, all earlier attempts having failed; when there is none, all five failed |
| `Translate.BackoffSchedule` | src/translate.py:71 | the waits `2 * 2**attempt` are 2, 4, 8 and 16 seconds, each twice the one before |
| `Translate.GeminiTranslator.PostWithRetries` | src/translate.py:56-71 | the retry loop returns the body of the first attempt that does not fail, after waiting 2, 4, … seconds before each retry; when all five attempts fail it has waited 2, 4, 8, 16 seconds and no fifth time |
| `Translate.MarkerLength` | src/translate.py:89 | the index marker `^\[?\d+\]?\s*:?\s*` is present exactly when the line starts with a digit or with `[` and a digit; it is never followed by whitespace |
| `Translate.MarkerLengthSound` | src/translate.py:89 | what is removed is a text the marker pattern matches in full: optional `[`, digits, optional `]`, whitespace, optional `:`, whitespace |
| `Translate.MarkerLengthLongest` | src/translate.py:89 | no longer prefix of the line matches the marker pattern, and when nothing is removed no non-empty prefix matches it |
| `Translate.Unmarked` | src/translate.py:89 | removing the marker leaves a suffix of the line, and changes the line exactly when it starts with an index marker |
| `Translate.NumberedWithDot` | src/translate.py:88-89 | a line numbered in the `1.` style keeps its dot: `1. Hi` becomes `. Hi` |
| `Translate.UnmarkedTrimmed` | src/translate.py:85-89 | removing the marker from a stripped line leaves it stripped |
| `Translate.KeptIsComprehension` | src/translate.py:82-90 | the reading loop builds `[unmark(strip(l)) for l in lines if strip(l)]`: the non-blank lines, in order, each stripped and without its index marker |
| `Translate.Kept` | src/translate.py:83-90 | the reading loop keeps at most one line per line, and none when every line is blank |
| `Translate.KeptLines` | src/translate.py:80-90 | the lines read from a reply text are at most the lines of its stripped text, none when the text is blank, and each stripped |
| `Translate.KeptTrimmed` | src/translate.py:84-90 | no kept line has whitespace at either end |
| `Translate.ReadLines` | src/translate.py:80-90 | the appending loop computes exactly the kept lines of the stripped reply text |
| `Translate.FitTo` | src/translate.py:92-96 | padding with `""` or truncating gives exactly `count` lines: line `k` is the `k`-th kept line when there is one, else `""` |
| `Translate.ReplyLines` | src/translate.py:73-102 | reading a received reply gives exactly one line per text sent; a reply without a first part of a first candidate gives every text with the `[PARSE ERROR] ` or the `[API ERROR] ` mark; otherwise line `k` is the `k`-th kept line of that part, or `""` when there are fewer |
| `Translate.GeminiTranslator.ParseReply` | src/translate.py:73-102 | the parsing block of `translate_chunk` computes exactly that reading |
| `Translate.ChunkOutcome` | src/translate.py:23-102 | `translate_chunk` raises exactly when it has texts and no API key; otherwise it returns the chunk's own id and exactly one line per text, whichever path it takes |
| `Translate.AllAttemptsFail` | src/translate.py:60-70 | when all five requests fail, the lines are `"[ERROR] " + t` for each text `t` |
| `Translate.FirstReplyRead` | src/translate.py:60-98 | when request `a` is the first that does not fail, the lines are read from its reply, and later outcomes play no part |
| `Translate.NoCandidates` | src/translate.py:74-77 | when the first reply received has no or an empty `candidates` list, every text comes back as `"[API ERROR] " + t` |
| `Translate.NoFirstPart` | src/translate.py:73-102 | when the first reply received cannot be read, or its first candidate has no parts, every text comes back as `"[PARSE ERROR] " + t` |
| `Translate.Marked` | src/translate.py:77 | the degraded result has one line per text: the mark followed by that text |
| `Translate.GeminiTranslator.TranslateChunk` | src/translate.py:23-102 | `translate_chunk` returns that outcome; it does not wait for no texts or no key, and otherwise waits 2, 4, … seconds before each retry up to the first attempt that does not fail, or 2, 4, 8, 16 seconds when all five fail |
| `Translate.Translation` | src/translate.py:176-189 | the translated texts are exactly as many as the subtitle texts, whatever path each chunk takes |
| `Translate.CollectedUnique` | src/translate.py:127-143 | with distinct chunk ids the collected map is determined: it does not depend on the order in which chunks complete |
| `Translate.GeminiTranslator.ExecuteConcurrentTranslation` | src/translate.py:123-143 | for any completion order, the collection raises exactly when some chunk raises (the missing key); otherwise the map has one entry per chunk, keyed by its id, holding that chunk's lines |
| `Translate.Least` | src/translate.py:151 | the least element of a non-empty key set |
| `Translate.Ascending` | src/translate.py:151 | `sorted(keys)` is increasing and has exactly the keys as members |
| `Translate.AscendingOfIncreasing` | src/translate.py:151 | an increasing list of keys is the sorted listing of its own elements |
| `Translate.CollectedKeys` | src/translate.py:151 | the sorted keys of a map collected from the chunks are the chunk ids in chunk order |
| `Translate.JoinInKeyOrder` | src/translate.py:150-152 | the first loop of `reassemble_subtitles` joins the map lists in ascending key order |
| `Translate.Retext` | src/translate.py:154-156 | the second loop gives item `i` line `i` for each `i` below the number of lines, leaves later items alone, and never changes an index or a timing |
| `Translate.GeminiTranslator.ReassembleSubtitles` | src/translate.py:145-156 | item `i` gets element `i` of the ascending-key join when there is one; other items, and every index and timing, are unchanged |
| `Translate.JoinedBatches` | src/translate.py:176-189 | for the chunks `prepare_chunks` cut, the ascending-key join of the collected map is the chunks' lines in chunk order, whatever the completion order |
| `Translate.GeminiTranslator.TranslateSrt` | src/translate.py:158-189 | no subtitles: nothing is done. It raises exactly for batch size 0, or a positive batch size with no API key. On success with a positive batch size, subtitle `i` gets translated line `i`, keeping its index and timings, for any completion order. On failure or a negative batch size, no subtitle changes |
| `Translate.GeminiTranslator.constructor` | src/translate.py:19-21 | the translator keeps the API key and URL it is given |

## Left out

- HTTP, JSON and the prompt are not modelled.
  - Not modelled: the request itself, its URL, headers, payload, prompt wording and
    60-second timeout (src/translate.py:36-54, 62).
  - Each request is an outcome drawn from a function of the chunk id and the attempt number.
  - `response.json()` is reduced to a `Body`:
    - a body that does not decode;
    - an object whose `candidates` list may be absent;
    - candidates whose `content`/`parts` may be absent;
    - parts whose `text` may be absent.
  - A JSON value of any other shape is not modelled (in the source it ends on the
    `[PARSE ERROR] ` path or raises a `TypeError`). Examples: `candidates` not a list, `data`
    not an object, a `text` that is `null` or not a string.
- Sleeping and logging: `time.sleep` is not performed; each wait is returned as a number of
  seconds. `logger` calls are not modelled.
- Threads: `ThreadPoolExecutor`, `as_completed` and `tqdm` are not modelled. Completion is a
  given order of the chunk positions.
- `Translate.GeminiTranslator.ExecuteConcurrentTranslation`: on the first chunk that raises in
  completion order, the model stops. In the source, the other submitted requests go on running
  in the pool until it shuts down, and their results are discarded.
- The `target_lang` and `workers` parameters are not modelled. They only reach the prompt and
  the pool size.
- File I/O is not modelled: `load_subtitles`, `pysrt.open`, `save`, the SRT format, and the
  `argparse`/`main` functions of both files. Timecodes are whole milliseconds and only copied.
- `Text.Lower`: `str.lower` is applied one character at a time, so a character whose lower
  case is several characters is not modelled.
- The API key `None` and the empty key are both the empty string. In the source both are
  falsy and handled alike.
- src/audio.py, src/transcribe.py, src/config.py, src/logger.py and run.py are not part of
  this model. They handle external processes, speech recognition, configuration, logging and
  orchestration.
