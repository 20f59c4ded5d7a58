# stepmania-to-sqlite importer core, modelled in Dafny

The importer walks a StepMania song library, reads every `.sm` chart file, and keeps a
SQLite table of songs and charts in step with the files on disk. This project models its
core (`stepmania_to_sqlite/utils.py`) and proves what that code promises:

- `results.dfy` (`Results`): `Option`, `Result`, and the failure kinds a song
  build can end in. These are a decoding error (`UnicodeDecodeError`), a
  `SongException` with its cause, and every other Python exception, kept by kind.
- `text.dfy` (`Text`): the parts of Python's `str` the importer relies on:
  `strip()`/`strip(chars)`, `startswith`, `split` with a one-character separator,
  `split(sep)[0]` and ASCII `lower()`.
- `numbers.dfy` (`Numbers`): `int(text)`, `int(float(text))` for plain decimal
  notation (truncation toward zero) and `str(n)`.
- `metadata.dfy` (`Metadata`): `Song.parse_metadata`. `MetadataOf` is a left fold that
  specifies it, and `ParseMetadata` is the loop proved against it.
- `scanner.dfy` (`ChartScanner`): `Song.parse_file`. This is the line-scanner state
  machine, with an explicit `Phase` (`Header`, `Preamble(k)` for the five positional
  lines after `#NOTES`, `Body`) and the `current_chart` dictionary as `ChartDraft`.
  `RunFrom` is the specification, a fold over the lines. `ParseFile` is the loop, proved
  equal to it. The lemmas cover:
  - counting;
  - chart ids;
  - reset on close;
  - nested charts;
  - header-only metadata;
  - blank lines;
  - unclosed charts.
- `song.dfy` (`SongAssembly`): `Song.__init__` with `get_song_path`, `parse_bpms`, the
  single-tempo rule and the text part of `get_duration`. `Assemble` is the
  specification of `Song(path)` and states the source's order of checks. `NewSong` is the
  step-by-step method proved equal to it. The file system, the MD5 id and the `ffprobe`
  run are parameters, gathered in `Env`.
- `sync.dfy` (`LibrarySync`): `get_songs`. Building a song from a path is a `Builder`
  value. The importer's own builder is `SongBuilder(env)`, whose songs carry the MD5 id
  of their path. `GetSongs` is the loop, and it pops ids from the stored set. Next to it
  is a reference description without the popped set, proved equal to the loop (for
  paths with distinct ids). The lemmas cover:
  - the deletion rule;
  - changed-only mode;
  - idempotence of a second scan.

`DEBUG = True` (utils.py:9) is part of the model. Three kinds of failure only skip
their file: a decoding error, a `SongException` (missing audio, nested chart, missing
title or artist, no tempo), and undecodable probe output. Every other exception ends
`get_songs` before anything is deleted or saved. The other exceptions are:

- `KeyError` for a missing `bpms` entry or a chart closed without a difficulty;
- `ValueError` for a meter, tempo or duration that is not a number;
- `IndexError` for a missing or malformed `Duration` line;
- a failing probe run.

Behaviour of the code worth knowing:

- After a chart's closing `;`, the code stays in body mode (`chart_data` stays
  `None`). Note rows and `,` lines that follow count toward the fresh dictionary, which
  the next chart inherits. A second `;` raises `KeyError('difficulty')`.
- A missing `bpms` entry is a `KeyError`, not an invalid-song skip, so it ends the scan.
  The empty-tempo-list check can never fire, because splitting any text on `,` gives at
  least one segment.
- A probe that cannot run, or whose output has no well-formed `Duration` line, ends
  the scan; it does not skip the file. Undecodable probe output is a
  `UnicodeDecodeError` and skips the file.
- A nested `#NOTES` is a `SongException`, so the file is skipped with a warning.
- A meter that is not an integer is a `ValueError`, which ends the scan.
- Header lines are stored stripped, not verbatim.
- The scan is idempotent only in changed-only mode. A full rescan rebuilds every song.

## Model

| member | source | states |
|---|---|---|
| Text.SplitPieces | stepmania_to_sqlite/utils.py:150 | no piece of `s.split(c)` holds `c`, and joining the pieces with `c` gives `s` back |
| Text.SplitJoin | stepmania_to_sqlite/utils.py:150 | splitting a `c`-join of `c`-free pieces gives exactly those pieces |
| Text.TrimIsTrimmed | stepmania_to_sqlite/utils.py:97 | `strip` leaves no strippable character at either end and is idempotent |
| Text.TrimPadded | stepmania_to_sqlite/utils.py:71 | `strip` removes exactly the padding around a text whose ends are kept |
| Text.LastPieceAfter | stepmania_to_sqlite/utils.py:149 | `s.split(c)[-1]` is the text after the last `c` |
| Numbers.ParseIntOfString | stepmania_to_sqlite/utils.py:117 | `int(str(n)) == n` for every integer |
| Numbers.TruncFloatOfString | stepmania_to_sqlite/utils.py:149 | `int(float(str(n))) == n` for every integer |
| Numbers.TruncatesTowardZero | stepmania_to_sqlite/utils.py:149 | `int(float(s))` keeps the sign of `s` and drops its fraction: `abs(r) <= abs(s) < abs(r) + 1` |
| Numbers.ParseIntOfDigits | stepmania_to_sqlite/utils.py:163 | `int` of a non-empty digit run is its decimal value |
| Numbers.TruncFloatOfDecimal | stepmania_to_sqlite/utils.py:163 | `int(float("w.f"))` is the value of the whole part `w` |
| Metadata.MetaEntry | stepmania_to_sqlite/utils.py:69-77 | a line contributes only when it starts with `#`, and not when its body (stripped, without `#`/`;` ends) has no `:`; its key is non-empty, stripped, lower-case and colon-free; its value is stripped |
| Metadata.MetaEntrySplit | stepmania_to_sqlite/utils.py:71-77 | the line is cut at its first `:`: the stripped, lower-cased part before it is the key and the stripped part after it the value; a key that strips to nothing contributes nothing |
| Metadata.MetadataOf | stepmania_to_sqlite/utils.py:66-78 | every key of the dictionary is well formed and every value stripped |
| Metadata.ParseMetadata | stepmania_to_sqlite/utils.py:66-78 | the loop builds exactly the dictionary of the lines read in order |
| Metadata.LastDefinitionWins | stepmania_to_sqlite/utils.py:77 | the value of a key is the one from the last line defining it |
| Metadata.KeysComeFromLines | stepmania_to_sqlite/utils.py:66-78 | every key comes from some line, with the value of the last line defining it; malformed lines add nothing |
| Metadata.MetaLineRoundTrip | stepmania_to_sqlite/utils.py:69-77 | parsing `#key:value;` gives the lower-cased key and the value back, for keys of any case and every key and value that can be written so |
| Metadata.TitleLine | stepmania_to_sqlite/utils.py:69-77 | `#TITLE:My Song;` sets `title` to `My Song` |
| ChartScanner.StepCells | stepmania_to_sqlite/utils.py:121-129 | the count is at most four; it is at least one exactly when one of the first four cells is `1` or `2`, and at least two exactly when two of them are, which is when a row is a step and a jump |
| ChartScanner.Step | stepmania_to_sqlite/utils.py:96-143 | one line keeps the scanner in a reachable state (`jumps <= steps`, beats a positive multiple of 4, preamble keys match the lines taken, completed charts consistent) or fails with one of the scan's three exceptions |
| ChartScanner.RunFrom | stepmania_to_sqlite/utils.py:96-143 | the same invariant over any run of lines |
| ChartScanner.ChartFile | stepmania_to_sqlite/utils.py:80-145 | every returned chart carries the song id, the id `song-difficulty-meter`, `jumps <= steps` and whole measures of 4 beats; every failure is a nested chart, a non-integer meter or a chart closed without a difficulty |
| ChartScanner.TakePreambleLine | stepmania_to_sqlite/utils.py:110-119 | the preamble branch takes the type, skips a line, takes the difficulty and the meter, and enters the body after the fifth line, exactly as the one-line step |
| ChartScanner.ScanBodyLine | stepmania_to_sqlite/utils.py:120-143 | the body branch counts note rows and measures or closes the chart, exactly as the one-line step |
| ChartScanner.ParseFile | stepmania_to_sqlite/utils.py:80-145 | the loop returns exactly the metadata and charts (or the failure) of the specification |
| ChartScanner.RunAppend | stepmania_to_sqlite/utils.py:96-143 | scanning `xs + ys` is scanning `xs`, then `ys` from where it stopped; a failure stops the scan |
| ChartScanner.BlankLinesIgnored | stepmania_to_sqlite/utils.py:97-99 | dropping the blank lines does not change the scan |
| ChartScanner.PastHeader | stepmania_to_sqlite/utils.py:101-108 | after the first `#NOTES` the header lines never change again |
| ChartScanner.HeaderScan | stepmania_to_sqlite/utils.py:101-108 | the collected header lines are exactly the stripped non-blank lines before the first `#NOTES` |
| ChartScanner.MetadataFromHeader | stepmania_to_sqlite/utils.py:101-145 | the returned metadata is the metadata of the header lines alone |
| ChartScanner.HeaderOnly | stepmania_to_sqlite/utils.py:107-108 | a header without `#NOTES` only adds its stripped non-blank lines |
| ChartScanner.BodyScan | stepmania_to_sqlite/utils.py:121-131 | in a body, steps grow by the note rows with a step cell, jumps by those with two, beats by 4 per `,` line; other lines change nothing and no chart is emitted |
| ChartScanner.BodyLine | stepmania_to_sqlite/utils.py:121-131 | the same for one body line |
| ChartScanner.ChartPreamble | stepmania_to_sqlite/utils.py:101-119 | `#NOTES` and five positional lines set the type, the lower-cased colon-free difficulty and the integer meter, then enter the body; a non-integer meter is a `ValueError` |
| ChartScanner.CloseChart | stepmania_to_sqlite/utils.py:132-143 | `;` appends the chart with id `song-difficulty-meter` and its counters, and resets the dictionary to 0 steps, 0 jumps, 4 beats and no type |
| ChartScanner.ChartBlock | stepmania_to_sqlite/utils.py:101-143 | a whole chart block emits one chart counted from the counters it started with, then a fresh dictionary |
| ChartScanner.NestedChartIsFatal | stepmania_to_sqlite/utils.py:101-104 | a `#NOTES` while the open chart has a type raises the nested-chart `SongException` |
| ChartScanner.SingleChartFile | stepmania_to_sqlite/utils.py:80-145 | a header plus one complete chart gives the header's metadata and one chart with `4 + 4 * separators` beats |
| ChartScanner.UnclosedChartDropped | stepmania_to_sqlite/utils.py:145 | a chart still open at the end of the file is not returned |
| SongAssembly.ResolveAudio | stepmania_to_sqlite/utils.py:56-64 | the first `.ogg`, else the first `.mp3`; neither is the missing-audio `SongException` |
| SongAssembly.BpmList | stepmania_to_sqlite/utils.py:148-151 | one tempo per segment, in order, each the reading of its segment; any unreadable segment is a `ValueError` |
| SongAssembly.ParseBpms | stepmania_to_sqlite/utils.py:147-151 | as many tempos as `,`-segments, hence never none; any failure is a `ValueError` |
| SongAssembly.SingleBpm | stepmania_to_sqlite/utils.py:39 | `bpm` is present iff there is exactly one tempo, and is then that tempo |
| SongAssembly.BpmOfSegment | stepmania_to_sqlite/utils.py:149 | a segment `beat=bpm` reads back as `bpm` |
| SongAssembly.BpmsRoundTrip | stepmania_to_sqlite/utils.py:147-151 | writing a tempo map as `beat=bpm,...` and parsing it gives the tempos back |
| SongAssembly.DecimalSegment | stepmania_to_sqlite/utils.py:149 | a segment `a.b=c.d` reads as the whole part of `c.d` |
| SongAssembly.DurationOfLine | stepmania_to_sqlite/utils.py:162-163 | reading a duration line fails only with an `IndexError` or a `ValueError` |
| SongAssembly.ParseDuration | stepmania_to_sqlite/utils.py:157-163 | reading the probe output fails only with an `IndexError` or a `ValueError` |
| SongAssembly.NoDurationLines | stepmania_to_sqlite/utils.py:157-161 | output with no `Duration` line has no candidate line |
| SongAssembly.FirstDurationLine | stepmania_to_sqlite/utils.py:157-161 | the first stripped `Duration` line is the one used, whatever follows |
| SongAssembly.DurationIgnoresHours | stepmania_to_sqlite/utils.py:157-163 | probe output whose first `Duration` line reads `H:M:S.F, ...` gives `S + 60 * M`, whatever the hours |
| SongAssembly.ProbeLineDuration | stepmania_to_sqlite/utils.py:162-163 | the line `Duration: H:M:S.F, tail` states `S + 60 * M` |
| SongAssembly.ProbeOutput | stepmania_to_sqlite/utils.py:154-156 | text output passes through unchanged and only text output succeeds; a probe run that fails is a generic error; undecodable output is a decoding error |
| SongAssembly.Assemble | stepmania_to_sqlite/utils.py:25-40 | a song is keyed by its path's id, has a non-empty title and artist, at least one tempo and consistent charts; the checks fail in the source's order (audio, decoding, scan, title/artist, `bpms` `KeyError`, tempo `ValueError`, failed probe, undecodable probe output, duration `IndexError`/`ValueError`); the no-tempo exception never occurs; a file that passes every check is built; a built song's metadata and charts are the scan of its file, its audio is the resolved file and its seconds the duration of that file's probe output |
| SongAssembly.NewSong | stepmania_to_sqlite/utils.py:25-40 | the constructor step by step gives exactly the specified song or failure |
| LibrarySync.GetSongs | stepmania_to_sqlite/utils.py:186-211 | the loop returns exactly the specified songs and deleted ids, or the exception that ended it |
| LibrarySync.SongBuilderKeepsIds | stepmania_to_sqlite/utils.py:25-27 | every song built from a path carries that path's id |
| LibrarySync.DeletedAreUnmatched | stepmania_to_sqlite/utils.py:190-208 | from any point of the loop, the deleted ids are the remaining stored ids minus the ids of the paths still to come |
| LibrarySync.DeletedIds | stepmania_to_sqlite/utils.py:187-208 | the deleted ids are the stored ids minus the ids of all enumerated paths, whichever files failed |
| LibrarySync.SyncFromMatches | stepmania_to_sqlite/utils.py:190-207 | the loop agrees with the reference description from any point whose stored ids agree on the paths to come |
| LibrarySync.ReferenceSync | stepmania_to_sqlite/utils.py:186-211 | with no fatal failure, the songs are those the parsed paths build, in order, and the deleted ids are the unmatched stored ids; otherwise the scan ends with the fatal exception |
| LibrarySync.ChangedOnlySkipsKnown | stepmania_to_sqlite/utils.py:191-194 | in changed-only mode no returned song has a stored id |
| LibrarySync.SecondScanFindsNothing | stepmania_to_sqlite/utils.py:186-211 | after saving a scan's songs and applying its deletions, a changed-only scan of the same files saves nothing and deletes nothing |
| LibrarySync.ReconcileExample | stepmania_to_sqlite/utils.py:186-211 | stored `{a, b, c}` and files for `a` and a new `d`: only `d` is built, and `b` and `c` are deleted |
| LibrarySync.ImporterScan | stepmania_to_sqlite/utils.py:186-211 | for the importer's own builder: changed-only results hold no stored id, and a second changed-only scan finds nothing to do |

## Left out

- Opening the chart file and UTF-8-with-BOM decoding (utils.py:95-96): the model
  starts from the decoded lines, or from the fact that decoding failed.
- Globbing for audio files and for chart files (utils.py:57-59, 190): both are inputs,
  as sequences in glob order.
- Running `ffprobe` (utils.py:154-156): its outcome is an input. It could not run,
  its output was not UTF-8, or it gave some text.
- `get_song_id` (utils.py:182-183): the MD5 hex digest is an uninterpreted function
  `idOf`. The reference description and the lemmas built on it require distinct paths to
  have distinct ids.
- The database: reading the stored ids, `delete_where`, `save_songs`, `save_charts`
  (utils.py:166-179, 187, 208-210). The scan's result is the songs to save and the ids
  to delete. `Stored` states the table contents after applying it. The `save` flag and
  the unused `location` argument are not modelled.
- `Song.data` JSON serialisation and the song's `group` (utils.py:42-54), the
  `click` and console logging and the `tqdm` progress bar: these are presentation.
- Python's `str.lower` beyond ASCII: non-ASCII capitals in metadata keys and
  difficulty labels are kept as they are.
- `int()` and `float()` syntax beyond plain decimals: digit separators (`_`), non-ASCII
  digits, exponents, `inf` and `nan` are read as errors here. A huge exponent would
  make `float` overflow, so its `int` would also fail in the source.
- Float rounding and overflow: `int(float(s))` is modelled as exact truncation
  (utils.py:149, 163). The source differs for numbers beyond 2^53, for fractions that
  round up to the next integer, and for decimals too large for a float (about 309
  digits or more). For those `float` gives `inf`, and `int(inf)` raises `OverflowError`,
  which ends `get_songs`. The model returns a number instead.
- The `DEBUG = False` path, where every exception only skips its file.
- A path whose text cannot be encoded (utils.py:183, 191): `get_song_id` runs outside the
  `try`, so a `UnicodeEncodeError` there ends `get_songs`. The model takes `idOf` as total
  and does not cover this failure.
- `stepmania_to_sqlite/cli.py` and `setup.py` are not part of this model.
- LibrarySync.ReferenceSync: stated for paths with distinct ids. With two paths of the
  same id, changed-only mode would skip only the first of them.
