# Last.fm batch scrobbler — a Dafny model

This project models the core of the Spotify-to-Last.fm scrobbler, `lastfm_scrobbler.py`. That program takes a listening history split into chunk files `MusicCSV/part<n>.csv` and sends the songs of one chunk to Last.fm. Each song is stamped with a synthetic play time three minutes before the previous one. The songs go out in batches of 50, and a batch the service rejects is retried one song at a time. After a run, the program records which chunks are done in `scrobble_progress.json`, so the next run offers the lowest chunk still pending.

The model is split into these modules:

- `PyBuiltins` (`py_builtins.dfy`): the Python string and list operations the program relies on, written out. These are `str.strip()`, `str.strip('"')`, substring `in`, `split(sep)` and `split(sep, 1)`, `startswith` and `endswith`, comparing `lower()` with a lower-case word, `int` ↔ decimal text, `sorted` and `sorted(set(...))`.
- `PartFiles` (`part_files.dfy`): `list_part_indices`. Chunk discovery over a directory listing, given as a parameter.
- `ChunkParsing` (`chunk_parsing.dfy`):
  - the row rule of `read_csv_file`, over the rows `csv.reader` yields;
  - the line rule of `read_csv_alternative`, over the raw lines;
  - the acceptance test that both rules share;
  - the two reading loops.
- `ProgressState` (`progress_state.dfy`): the content of the progress file. It covers the merge `save_progress` performs, the `remaining` list and the default next chunk.
- `Submission` (`submission.dfy`): the `Scrobbler` class.
  - Its state is the log of calls and pauses made, the progress file and the failed-songs files.
  - Its methods are `scrobble_batch`, `scrobble_individually`, the batch loop of `process_file`, `save_progress` and `check_progress`.
  - Each method is proved against a specification function: `Stamped`, `RetryEvents`, `BatchEvents`, `RunEvents` and `FailedSongs`. The lemmas beside them state what those functions guarantee.
- `Session` (`session.dfy`): `main`'s choice of chunk and its menu.

The service and the clock are inputs:

- `Remote` says whether the service accepts the `scrobble_many` call of batch `b`, and the single call for song `i` of batch `b`.
- `Clock` gives the value of `int(time.time())` at each reading, and the ISO date `save_progress` records.
- Console answers are parameters:
  - the menu line;
  - the typed file number after `int()`, with `None` when `int()` raises;
  - the answer to "Do you want to proceed?".
- Files are parameters:
  - the chunk directory is a map from basename to the rows of the file;
  - the progress file is a `Progress` value, where `Fresh` stands for a missing file.

## Model

| member | source | states |
|---|---|---|
| PyBuiltins.SpaceClass | lastfm_scrobbler.py:72 | `isspace()` holds for the blank, the tab, the line feed and the carriage return, and never for a double quote, a comma, a digit or an ASCII letter, so `strip()` keeps those |
| PyBuiltins.Strip | lastfm_scrobbler.py:72 | what `strip()` returns has no whitespace (Python's `isspace` set) at either end |
| PyBuiltins.StripChar | lastfm_scrobbler.py:72 | `strip('"')` never lengthens the text and leaves no quote at either end; a text with no quote at either end is returned unchanged |
| PyBuiltins.StripSpec | lastfm_scrobbler.py:135 | `strip()` keeps one contiguous piece of the text and removes only whitespace before and after it |
| PyBuiltins.StripTrimmed | lastfm_scrobbler.py:72-73 | `strip()` changes nothing on a text with no whitespace at either end, so stripping twice is stripping once |
| PyBuiltins.Contains | lastfm_scrobbler.py:140 | `sep in s` holds exactly when some index starts an occurrence of `sep` |
| PyBuiltins.IndexOf | lastfm_scrobbler.py:140 | the first position at or after `from` where `sep` occurs, and no occurrence before it; none exactly when there is no later occurrence |
| PyBuiltins.Split | lastfm_scrobbler.py:142 | `split(sep)` gives at least one part and no part contains `sep`; when it cuts, the first cut is at the first occurrence |
| PyBuiltins.SplitJoin | lastfm_scrobbler.py:142 | joining the parts of `split(sep)` with `sep` gives back the text |
| PyBuiltins.SplitCount | lastfm_scrobbler.py:142-143 | `split(sep)` gives two parts or more exactly when `sep` occurs in the text |
| PyBuiltins.SplitOnce | lastfm_scrobbler.py:83-84 | `split(sep, 1)` gives two parts exactly when `sep` occurs, otherwise the one-element list holding the text; head + sep + tail is the text, the head has no `sep`, and the cut is at the first occurrence |
| PyBuiltins.AffixShapes | lastfm_scrobbler.py:159 | `s.startswith(p)` holds exactly when s is p followed by some text, and `s.endswith(p)` exactly when s is some text followed by p |
| PyBuiltins.NatToDecimal | lastfm_scrobbler.py:266 | `str(n)` is a non-empty run of digits without a leading zero |
| PyBuiltins.DecimalRoundTrip | lastfm_scrobbler.py:54 | `int(str(n)) == n` |
| PyBuiltins.DigitsValue | lastfm_scrobbler.py:54 | `int()` of a run of digits is 0 exactly when every digit is `0` |
| PyBuiltins.IntToDecimal | lastfm_scrobbler.py:266 | `str(n)` of an integer: for n >= 0 a run of digits whose value is n; for n < 0 a minus sign followed by a run of digits whose value is −n |
| PyBuiltins.LowerEquals | lastfm_scrobbler.py:77 | `s.lower() == word`, for a lower-case ASCII word, holds exactly when s has the same length and each character is the letter of word in either case, or KELVIN SIGN for `k` |
| PyBuiltins.Insert | lastfm_scrobbler.py:55 | putting a value into an ascending list keeps it ascending and adds exactly that value |
| PyBuiltins.InsertMembers | lastfm_scrobbler.py:55 | after inserting, the members are the old members and the new value |
| PyBuiltins.InsertFresh | lastfm_scrobbler.py:389 | inserting a value not yet present keeps a list strictly ascending |
| PyBuiltins.Sorted | lastfm_scrobbler.py:55 | `sorted(xs)` is ascending and a permutation of `xs` |
| PyBuiltins.SortedSet | lastfm_scrobbler.py:389 | `sorted(set(xs))` is strictly ascending and has exactly the members of `xs` |
| PartFiles.PartFileName | lastfm_scrobbler.py:266 | defines `f"part{n}.csv"`; the name starts with `part`, ends with `.csv`, and has a minus sign after `part` exactly when n is negative |
| PartFiles.PartIndexOf | lastfm_scrobbler.py:52-54 | defines the index a basename names; only names of the form `part…csv` yield one (PartIndexShape gives the exact form) |
| PartFiles.PartIndexShape | lastfm_scrobbler.py:49-54 | a basename yields index i exactly when it is `part`, a non-empty run of ASCII digits with value i, and `.csv`; no other name contributes |
| PartFiles.PartNameRoundTrip | lastfm_scrobbler.py:266 | the file name `part{n}.csv` of chunk n >= 0 is discovered as chunk n |
| PartFiles.NegativeNameNotListed | lastfm_scrobbler.py:52 | the name `part-3.csv` built (at line 266) for a negative chunk number never matches the pattern |
| PartFiles.MatchedIndices | lastfm_scrobbler.py:50-54 | defines the indices the loop appends, in listing order; never more indices than names, and none negative |
| PartFiles.MatchedMembers | lastfm_scrobbler.py:50-54 | an index is collected exactly when some listed basename names it |
| PartFiles.ListPartIndices | lastfm_scrobbler.py:47-55 | the result is `sorted` of the collected indices: ascending, the same multiset, and i is present exactly when some basename names chunk i |
| ChunkParsing.Clean | lastfm_scrobbler.py:72-73 | a cleaned field has no whitespace at either end |
| ChunkParsing.IsHeader | lastfm_scrobbler.py:77 | header fields are six and five characters long, with no whitespace at their ends and no quote, so the other tests never drop them |
| ChunkParsing.AcceptFields | lastfm_scrobbler.py:76-80 | a pair is kept exactly when both cleaned fields are non-empty and are not the header pair `artist`/`track` in any case; what is kept is the cleaned pair |
| ChunkParsing.ParseRow | lastfm_scrobbler.py:70-91 | the row rule yields only acceptable songs |
| ChunkParsing.RowRoundTrip | lastfm_scrobbler.py:70-80 | a row starting with the two fields of a writable song (an acceptable song with no double quote in either field) yields that song, whatever fields follow |
| ChunkParsing.InnerOf | lastfm_scrobbler.py:161 | `line[1:-1]`: the line is its first character, the result and its last character; shorter lines give the empty text |
| ChunkParsing.ParseLine | lastfm_scrobbler.py:135-184 | the line rule yields only acceptable songs |
| ChunkParsing.LineSkips | lastfm_scrobbler.py:135-155 | a blank line yields nothing; a line holding `", "` (or, failing that, `","`) yields nothing unless `split` at it gives exactly two parts |
| ChunkParsing.NoCommaSkipped | lastfm_scrobbler.py:156-178 | a line without a comma yields nothing |
| ChunkParsing.UnquotedText | lastfm_scrobbler.py:159-168 | once the outer quotes are removed, the re-tests for `", "` and `","` on lines 163 and 165 can never succeed, and the comma is still there |
| ChunkParsing.InnerKeepsComma | lastfm_scrobbler.py:159-161 | the comma of a quoted line lies strictly inside the quotes |
| ChunkParsing.BareCommaLine | lastfm_scrobbler.py:156-176 | a line with a comma and neither quoted separator is always cut in two at its first comma, after removing the outer quotes when both are present |
| ChunkParsing.ChunkLineFields | lastfm_scrobbler.py:140-145 | a line written as `"artist", "track"` with clean, quote-free fields is cut back into exactly those two fields |
| ChunkParsing.FieldsRoundTrip | lastfm_scrobbler.py:76-80 | the fields of a writable song (an acceptable song with no double quote in either field) pass the acceptance test unchanged |
| ChunkParsing.ChunkLineRoundTrip | lastfm_scrobbler.py:140-147 | a writable song (an acceptable song with no double quote in either field), written in the chunk-file format (`"artist", "track"` plus a newline), is read back as the same song |
| ChunkParsing.HeaderSkipped | lastfm_scrobbler.py:76-78 | the header `artist`, `track` in any letter case is dropped by both the row rule and the line rule |
| ChunkParsing.LetterWord | lastfm_scrobbler.py:77 | a field whose `lower()` is a lower-case ASCII word is clean and quote-free |
| ChunkParsing.RowSongs | lastfm_scrobbler.py:68-91 | the songs of a file, read by rows: never more than the rows, all acceptable |
| ChunkParsing.LineSongs | lastfm_scrobbler.py:133-184 | the songs of a file, read by lines: never more than the lines, all acceptable |
| ChunkParsing.ReadCsvFile | lastfm_scrobbler.py:57-114 | the loop returns the songs of the accepted rows, in order, all acceptable; nothing when the file is missing |
| ChunkParsing.ReadCsvAlternative | lastfm_scrobbler.py:122-207 | the loop returns the songs of the accepted lines, in order, all acceptable; nothing when the file cannot be opened |
| ProgressState.MarkCompleted | lastfm_scrobbler.py:363-364 | the list is unchanged when it already holds the chunk, and otherwise the chunk is appended at its end; the old list stays a prefix, the members are the old ones and the chunk, and a list without duplicates stays without duplicates |
| ProgressState.MarkIdempotent | lastfm_scrobbler.py:363-364 | saving the same chunk twice is the same as saving it once |
| ProgressState.Remaining | lastfm_scrobbler.py:390 | a chunk remains exactly when it is available and not completed; the list stays ascending when `available` is ascending |
| ProgressState.RemainingCounts | lastfm_scrobbler.py:390 | the comprehension is an exact filter: a chunk occurs as often as in `available` unless it is completed, and then not at all |
| ProgressState.RemainingBySet | lastfm_scrobbler.py:389-390 | the `sorted(set(...))` form of the completed list leaves the same chunks remaining as the raw list |
| ProgressState.NextChunk | lastfm_scrobbler.py:435 | the default pick is available and not completed; there is none only when every available chunk is completed |
| ProgressState.NextIsLowestPending | lastfm_scrobbler.py:428-435 | the default next chunk is available, not completed, and the lowest such chunk; there is none exactly when every available chunk is completed |
| ProgressState.SavedNeverReselected | lastfm_scrobbler.py:428-435 | once a chunk is saved (lines 363-364) it is never remaining and never the default pick again, and no completed chunk becomes pending |
| Submission.BatchCount | lastfm_scrobbler.py:295 | n <= 50 * total_batches < n + 50: enough batches for every song and never a batch with no song |
| Submission.BatchCountCeiling | lastfm_scrobbler.py:295 | `(n + 49) // 50` is the number of batches: b is a batch number exactly when 50·b < n |
| Submission.Batch | lastfm_scrobbler.py:312-314 | every batch holds between 1 and 50 songs |
| Submission.BatchedPrefix | lastfm_scrobbler.py:311-314 | the first k batches, concatenated, are the first min(50k, n) songs |
| Submission.BatchesCoverSongs | lastfm_scrobbler.py:311-314 | all batches, concatenated, are exactly the song list |
| Submission.RetryEvents | lastfm_scrobbler.py:245-255 | defines the calls and pauses of the fallback over the first k songs; one call per song and at most one pause after each |
| Submission.BatchEvents | lastfm_scrobbler.py:211-238 | defines the calls of scrobble_batch; the first is `scrobble_many` with the batch stamped from the batch clock reading, and nothing follows exactly when the service accepted it or the batch is empty |
| Submission.Stamped | lastfm_scrobbler.py:216-225 | one scrobble per song with its artist and title; the first is played at `now`, each next one 180 s earlier |
| Submission.StampsDescend | lastfm_scrobbler.py:217-219 | song i is played at now − 180·i, and play times strictly decrease |
| Submission.Successes | lastfm_scrobbler.py:242-253 | defines `success_count` after the first k songs of the fallback; it never exceeds k |
| Submission.SuccessesBounds | lastfm_scrobbler.py:242-261 | 0 <= success_count <= len(batch), and it is positive exactly when some single scrobble was accepted |
| Submission.BatchSucceeded | lastfm_scrobbler.py:227-261 | defines the value `scrobble_batch` returns; true whenever the service accepted the batch call, and false for a rejected batch with no song |
| Submission.RetryTriesEverySong | lastfm_scrobbler.py:245-252 | the fallback tries every song of the batch once, in order, stamped with its own clock reading |
| Submission.RetryOnlyAfterRejection | lastfm_scrobbler.py:228-238 | a batch the service accepted is never retried; a rejected one is retried song by song |
| Submission.RunEvents | lastfm_scrobbler.py:311-329 | defines the calls and pauses of the first k loop iterations; they hold at least k events, and the first is the `scrobble_many` of batch 0 |
| Submission.OneBatchCall | lastfm_scrobbler.py:209-238 | `scrobble_batch` makes exactly one `scrobble_many` call, whether or not the fallback follows |
| Submission.OneBatchCallPerBatch | lastfm_scrobbler.py:311-319 | after k >= 1 batches the loop has made exactly k `scrobble_many` calls, whatever the service answered |
| Submission.RunBatchCalls | lastfm_scrobbler.py:311-319 | a whole run makes exactly total_batches `scrobble_many` calls |
| Submission.FailedSongs | lastfm_scrobbler.py:321-324 | defines `failed_songs` after k iterations as the failed batches in order; never more than 50 songs per batch |
| Submission.FailedWithinBatched | lastfm_scrobbler.py:321-324 | every failed song is one of the songs submitted, and there are never more failed songs than songs |
| Submission.NoneFailed | lastfm_scrobbler.py:321-324 | no song is failed exactly when every batch succeeded |
| Submission.AllFailed | lastfm_scrobbler.py:321-324 | when no batch succeeds, the failed songs are all the songs submitted, in order |
| Submission.OnlyAllFailed | lastfm_scrobbler.py:321-324 | when as many songs failed as were submitted, no batch succeeded |
| Submission.FailedWithinSongs | lastfm_scrobbler.py:321-324 | the failed songs of a whole run come from the file, and are the whole file exactly when every batch failed |
| Submission.PausesBetweenBatches | lastfm_scrobbler.py:326-329 | after k batches the loop has paused 3 s exactly min(k, total − 1) times |
| Submission.RunPauses | lastfm_scrobbler.py:326-329 | a whole run pauses max(total − 1, 0) times: after every batch but the last |
| Submission.ChunkSongs | lastfm_scrobbler.py:266-282 | defines the songs `process_file` reads from chunk n; all acceptable, none when `part<n>.csv` is missing, and never more than the file's rows |
| Submission.Proceeds | lastfm_scrobbler.py:268-306 | defines when process_file gets past its three early returns; then the chunk holds a song and the answer has three characters |
| Submission.Saved | lastfm_scrobbler.py:363-370 | the completed chunks gain exactly n; `last_run` names a file that discovery maps back to n (to nothing for negative n) |
| Submission.Reported | lastfm_scrobbler.py:341-345 | the failed-songs file of chunk n is written exactly when some song failed, with those songs; when none failed nothing changes, and the files of other chunks are untouched in every case |
| Submission.Scrobbler.ScrobbleIndividually | lastfm_scrobbler.py:240-261 | one call per song, stamped now − 180·i, with a 0.5 s pause after each accepted one; the result is true exactly when at least one was accepted |
| Submission.Scrobbler.ScrobbleBatch | lastfm_scrobbler.py:209-238 | one `scrobble_many` call with the stamped batch, then the fallback only if the service rejected it; true exactly when the batch call or some single call succeeded |
| Submission.Scrobbler.SubmitBatches | lastfm_scrobbler.py:311-329 | the batches are submitted in order, with a pause after each but the last; the result is the concatenation of the failed batches |
| Submission.Scrobbler.Submit | lastfm_scrobbler.py:311-348 | after the loop, the failed songs are reported only when there are some, and then the chunk is saved |
| Submission.Scrobbler.SaveProgress | lastfm_scrobbler.py:352-376 | the chunk is added once to `completed`, and `last_run` records its file name, date and time |
| Submission.Scrobbler.CheckProgress | lastfm_scrobbler.py:378-406 | the completed chunks, strictly ascending, with exactly the members of the progress file |
| Submission.Scrobbler.ProcessFile | lastfm_scrobbler.py:263-350 | true exactly when the file exists, holds a song and the answer is `yes` in any case; otherwise nothing changes; when true, the full run, the failed-songs report and the progress save |
| Session.Choose | lastfm_scrobbler.py:437-480 | choice 1 processes the default chunk; 2 and 3 reject an unparsable number and a number not available; 2 processes and 3 inspects the chosen chunk; 4 exits; anything else is invalid; only a successful run changes state, and then it makes the run's calls, writes its failed-songs report and saves the chunk |
| Session.RunSession | lastfm_scrobbler.py:409-480 | no chunk files, or nothing pending, ends the run with nothing changed; choice 1 processes the lowest pending chunk, which was not completed before; a successful run makes its calls, writes its failed-songs report and saves the chunk, and any other outcome changes nothing |

## Left out

- Connecting to Last.fm (`__init__`, credentials from `.env`, the pylast network object) is not modelled. The outcome of each call is an input (`Remote`). It depends only on the batch and the song position, not on what the service saw before.
- `time.time()` and `datetime.now()` are inputs (`Clock`). `time.sleep` is recorded as a `Sleep` event instead of waiting.
- Console output is not modelled. This covers the banners, the five-song sample, the per-batch messages and the summary lines, including the "Songs scrobbled" figure at lastfm_scrobbler.py:337.
- The `batch_num` and `total_batches` arguments of `scrobble_batch` and `scrobble_individually`, and `successful_batches`, are used only in messages. They are not modelled, and batches are numbered from 0. In `process_file` itself, `total_batches` is the loop bound and decides the pause; the model computes it as `BatchCount`.
- `csv.reader` tokenisation (quote handling, `skipinitialspace`) is not modelled. A chunk file is given as the rows the reader yields for the row rule, and as its raw lines for the line rule.
- The routing from `read_csv_file` to `read_csv_alternative` when the reader raises (lastfm_scrobbler.py:115-120) is not modelled. Both readers are modelled, and `process_file` uses the row reader.
- Decoding with `errors='ignore'` is not modelled. File contents are already-decoded text.
- `problematic_lines` and its JSON report are not modelled. `strip`, `split` and the field accesses on the guarded paths never raise, so the list is never filled.
- `Session.RunSession` and `Session.Choose` take the typed file number after `int()`: `None` stands for `ValueError`. Parsing the text is not modelled.
- A progress file that is not valid JSON, or lacks the `completed` key, is not modelled. The model's progress value always has a `completed` list. In the program, `save_progress` then fails (a `KeyError` at lastfm_scrobbler.py:363 for a missing key), catches the error at line 375 and saves nothing, so the same chunk is offered again on every run. `check_progress` reads the key with `.get('completed', [])` at line 389, so a missing key counts as nothing completed; invalid JSON makes it raise.
- `check_progress` calls `list_part_indices` again and prints a status. Only its returned list is modelled; the status lines are print-only.
- `re.match(r"^part(\d+)\.csv$")` is modelled with `\d` as the ASCII digits only. Python also accepts other Unicode decimal digits there.
- `str.lower()` is modelled only for comparison with an ASCII lower-case word (`artist`, `track`, `yes`). That covers A–Z and KELVIN SIGN, which lower-cases to `k`. No other character lower-cases to a single ASCII letter.
- Writing the failed-songs JSON file is modelled as replacing the map entry for the chunk number. Writing the progress file is modelled as replacing the progress value.
- Submission.FailedWithinBatched: states membership and length rather than multiset containment for the failed songs. The exact content is given by `FailedSongs`, the in-order concatenation of the failed batches.
