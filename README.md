# cnova sidecar fetcher — a Dafny model

cnova walks music directories and, for every track it accepts, asks the
LRCLIB service for lyrics. It stores the answer next to the track as a
sidecar file: `name.lrc` holds lyrics that were found, and an empty
`name.nolrc` marks a track for which the service had none. This project
models the core of that program and proves what it promises:

- **Classifier** (`src/op/file.rs`): `prepare_entries` and `from_entry`.
  It checks for a regular file, applies the acquisition behaviour
  (`All`, `OverwriteExceptNolrc`, `LrcMissingAll`, `LrcMissing`) to the
  existing sidecars, and applies the strictness rule (`Paranoid`,
  `FilterByExt`, `TrustyGuesser`) to the seven audio extensions. Then it
  reads the tags (shallow or deep) and builds the `LyricsRequest` with
  `find_map` over the tag sets.
- **Writer and fetch loop** (`src/op/mod.rs`, with the older copy in
  `src/lib.rs`): `handle_entry`'s classification of remote answers,
  `replace_nolrc`, `create_nolrc`, and `handle_all` run one task after
  another. The class `Sidecar.World` holds the disk, an event log, the
  scripted remote of the tests and the semaphore. Its methods are proved
  against the pure step functions (`ReplaceNolrcStep`, `CreateNolrcStep`,
  `EntryStep`, `RunStep`). The properties are proved about those
  functions.
- **Remote records** (`src/remote/common.rs`): request, response and
  error types, the "usable lyrics" rule of `Display`, and the serde field
  names.
- **Trace** (`src/trace.rs`): how an `Option` or a `Result` is printed in
  log messages.
- **Older classifier** (`src/file.rs`): `DirIterCfg`, `is_hidden`,
  `is_suitable_file`, `list_files` and `all_file_requests`, plus the
  first-tag-set request builder.

Paths are kept parsed: directories, then an optional file name made of a
stem and an optional last extension. `set_extension` is a function on that
form. The disk is a map from paths to contents. Every write, remove and
open can be told to fail with an `io::ErrorKind`, so the error paths are
modelled and not assumed away.

Five behaviours of the code are worth spelling out:

- `create_nolrc` opens with `create(true)` and `truncate(false)`, not
  `create_new`. An existing `.nolrc` is therefore opened successfully and
  keeps its content. The `AlreadyExists` arm of `handle_entry` is reached
  only when the open itself reports that error.
- Under `Paranoid` strictness, a file whose extension is not an audio
  extension is skipped, exactly as under `FilterByExt`. Files that match
  are read with the deep (content-sniffing) reader.
- `LyricsResponse.title` and `.artist` are plain strings, not optional.
- A task never leaves its own track with both sidecars when it had neither
  (`Sidecar.AtMostOneSidecar`), but a run can. Two accepted tracks that
  share a stem, such as `song.flac` and `song.mp3`, share `song.lrc` and
  `song.nolrc`. Lyrics for one and a 404 for the other leave both
  (`Pipeline.SharedStemBothSidecars`). A track reached twice through
  overlapping roots behaves the same way.
- Under `OverwriteExceptNolrc`, one track can end with both sidecars
  without sharing a stem with another. A track that already has a `.lrc`
  is fetched again, and a 404 then creates a `.nolrc` beside it
  (`Pipeline.BothSidecarsUnderOverwrite`). `All` skips nothing
  (`Classifier.LrcMissingSkipsMost`), so the same can happen under it.

## Model

| member | source | states |
|---|---|---|
| Paths.SetExtension | src/op/mod.rs:178 | `set_extension` keeps the directories and the stem, and does nothing when there is no file name; otherwise the extension becomes the given one, or is removed for `""` |
| Paths.SetExtensionTwice | src/op/mod.rs:178-183 | rewriting `x.lrc` to `nolrc` gives the same path as rewriting the track itself: the second extension wins |
| Paths.SetExtensionDistinct | src/op/mod.rs:173-189 | a track's `.lrc` and `.nolrc` siblings are different files |
| Paths.SetExtensionFixedPoint | src/op/file.rs:143-166 | a path is its own `e` sibling iff its extension already is `e` |
| Paths.SameSiblings | src/op/mod.rs:178-183 | two tracks with the same `.nolrc` sibling have the same `.lrc` sibling too, so the delete in `replace_nolrc` only removes a marker whose `.lrc` was just written |
| Paths.SetExtensionCanonical | src/op/mod.rs:178-183 | setting `lrc` or `nolrc` keeps a path in the one parsed form Rust gives it: last-dot split, non-empty stem |
| Remote.Display | src/remote/common.rs:39-55 | reproduces `impl Display for LyricsResponse`: title, artist, then the lyrics marker; its shape is stated by `DisplayShape` |
| Remote.UsableLyrics | src/remote/common.rs:43-47 | lyrics count as present iff synced or plain lyrics exist and `instrumental` is not `Some(true)`; synced lyrics win over plain ones |
| Remote.DisplayShape | src/remote/common.rs:39-55 | the printed response is `title: T, artist: A, ` followed by exactly one marker, `LYRICS PRESENT` iff usable lyrics exist and `NO LYRICS` otherwise |
| Remote.UnknownInstrumentalIsNotInstrumental | src/remote/common.rs:47 | `instrumental: None` is read as `Some(false)` |
| Remote.QueryPairs | src/remote/common.rs:7-17 | a request is sent as `artist_name`, `track_name` and, only when present, `album_name`, with the request's values |
| Remote.QueryKeyRoundTrip | src/remote/common.rs:9-16 | each request field is recovered from its query key, so no two fields share a key |
| Remote.JsonKeyRoundTrip | src/remote/common.rs:19-37 | each response field is recovered from its camelCase JSON key, so no two fields share a key |
| Trace.ShowResult | src/trace.rs:8-19 | reproduces `impl Display for Trace<&Result<T, E>>`: `Ok(v)` prints `v` quoted, `Err(e)` prints `Err(` then `e` quoted then `)`; read back by `ParseResult` in `ResultRoundTrip` |
| Trace.ShowOption | src/trace.rs:21-31 | reproduces `impl Display for Trace<&Option<T>>`: `Some(v)` prints `v` quoted, `None` prints `None`; read back by `ParseOption` in `OptionRoundTrip` |
| Trace.OptionRoundTrip | src/trace.rs:21-31 | a traced `Option<String>` can be read back: `None` prints `None`, `Some(v)` prints `v` in quotes |
| Trace.ResultRoundTrip | src/trace.rs:8-19 | a traced `Result<String, String>` can be read back: `Ok(v)` prints `"v"` and `Err(e)` prints `Err("e")` |
| Trace.TraceExamples | src/trace.rs:58-78 | `Ok(69)` prints `"69"`, `Err(42)` prints `Err("42")`, `Some(69)` prints `"69"` and `None` prints `None` |
| Classifier.FindMap | src/op/file.rs:180-191 | `find_map` returns a field iff some tag set has it, and then the field of the first tag set that has it |
| Classifier.PrepareLyricsRequest | src/op/file.rs:177-223 | the request succeeds iff some tag set has an artist and some tag set has a title; each field comes from the first tag set that has it, and the duration is `None`; a failure carries exactly the artist and title found |
| Classifier.EqIgnoreAsciiCaseLower | src/op/file.rs:111-117 | comparing against a lower-case word ignoring ASCII case is the same as lowering the text and comparing |
| Classifier.ExtMatches | src/op/file.rs:108-119 | reproduces the `ext_matches` test: `eq_ignore_ascii_case` against the seven audio extensions, `false` without an extension; characterised by `ExtMatchesIff` |
| Classifier.ExtMatchesIff | src/op/file.rs:108-119 | the extension matches iff it is UTF-8 and, ASCII-lowered, one of aac, alac, flac, mp3, ogg, opus, wav; no extension never matches |
| Classifier.HasLrc | src/op/file.rs:142-153 | rewrites the path in place to the `.lrc` sibling and answers whether that file exists; false without a file name |
| Classifier.HasNolrc | src/op/file.rs:155-166 | the same for the `.nolrc` sibling |
| Classifier.ReaderFor | src/op/file.rs:121-136 | reproduces the strictness match: `Paranoid` and `FilterByExt` skip a mismatched extension, `Paranoid` uses the deep reader, the other two the shallow one |
| Classifier.Classify | src/op/file.rs:84-140 | reproduces `from_entry` as one rule: not a file, the sidecar filter, the strictness match, then `prepare_lyrics_request`; `FromEntry` is proved equal to it |
| Classifier.FromEntry | src/op/file.rs:84-140 | the step-by-step `from_entry`, with its in-place path rewrites, decides exactly what the classification rule `Classify` does |
| Classifier.ClassifyReadsOnlyChosenReader | src/op/file.rs:90-136 | non-files, tracks the sidecar rule skips, and mismatched extensions under `FilterByExt`/`Paranoid` give `Ok(None)` before any tag read; `Paranoid` depends only on the deep reader, the others only on the shallow one |
| Classifier.AcceptedEntry | src/op/file.rs:84-140 | an accepted entry is a regular file the sidecar rule let through, whose chosen reader gave a complete request; the pack carries the entry |
| Classifier.LrcMissingSkipsMost | src/op/file.rs:96-101 | whatever another acquisition behaviour skips, `LrcMissing` skips too, and `All` skips nothing |
| Classifier.Messages | src/op/file.rs:68-77 | each walked item puts at most one message on the channel, and a walk error is always sent as an `Ignore` error |
| Classifier.PrepareEntries | src/op/file.rs:45-81 | fails with `NoPathsError` iff no path is given; otherwise it visits the whole walk and sends exactly `Sent`: one message per item, in walk order, nothing for `Ok(None)` |
| Classifier.Sent | src/op/file.rs:66-78 | reproduces the walk loop's sends: the messages of every item, in walk order; `PrepareEntries` is proved to send exactly this |
| Classifier.SentNext | src/op/file.rs:66-78 | handling one more walked item appends exactly its messages |
| Classifier.SentLength | src/op/file.rs:66-78 | the number of messages is the number of items minus the silent ones |
| Classifier.WalkErrorsReported | src/op/file.rs:69-71 | every walk error reaches the channel as `Err(Ignore(..))` |
| Sidecar.Decide | src/op/mod.rs:94-161 | reproduces `handle_entry`'s match on the answer: synced then plain lyrics unless instrumental, a 404 or lyric-less answer means "no lyrics", `InvalidRequest` is fatal, other errors are logged |
| Sidecar.ReplaceNolrcStep | src/op/mod.rs:173-189 | reproduces `replace_nolrc`'s effect, events and result; stated by `ReplaceNolrcOrder` and `ReplaceNolrcEffect` |
| Sidecar.CreateNolrcStep | src/op/mod.rs:191-200 | reproduces `create_nolrc`'s effect, event and result; stated by `CreateNolrcEffect` |
| Sidecar.EntryStep | src/op/mod.rs:89-162 | reproduces one `handle_entry` task given the answer: permit events, then the writer call `Decide` picks |
| Sidecar.RunStep | src/op/mod.rs:54-75 | reproduces `handle_all` run one task after another from a given disk; `World.HandleAll` is proved equal to it |
| Sidecar.DecideAgreesWithDisplay | src/op/mod.rs:94-106 | `handle_entry` writes lyrics iff `Display` would print `LYRICS PRESENT`, and writes the same text; every other response means "no lyrics" |
| Sidecar.OkCount | src/op/mod.rs:64-71 | one task per `Ok` pack, never more than the packs |
| Sidecar.Requests | src/op/mod.rs:64-71 | the requests handed to tasks, one per `Ok` pack |
| Sidecar.World.constructor | src/op/mod.rs:54-62 | a fresh loop: all permits free, nothing logged, the remote not yet called |
| Sidecar.World.AcquirePermit | src/op/mod.rs:90 | awaiting the permit takes one free permit |
| Sidecar.World.ReleasePermit | src/op/mod.rs:92 | dropping the permit gives it back |
| Sidecar.World.GetLyrics | src/op/mod.rs:91 | the remote answers with the next scripted response and counts the call |
| Sidecar.World.Write | src/op/mod.rs:179-181 | `fs::write` replaces the file's content with exactly the lyrics, or fails and changes nothing |
| Sidecar.World.Remove | src/op/mod.rs:184-186 | `remove_file` deletes an existing file; a missing one gives `NotFound` |
| Sidecar.World.OpenCreate | src/op/mod.rs:194-199 | opening with create and without truncate makes an empty file only if none exists |
| Sidecar.World.ReplaceNolrc | src/op/mod.rs:173-189 | `replace_nolrc`, with its in-place path rewrite, has exactly the effect, events and result of `ReplaceNolrcStep` |
| Sidecar.World.CreateNolrc | src/op/mod.rs:191-200 | `create_nolrc` has exactly the effect, events and result of `CreateNolrcStep`, and leaves the path at the `.nolrc` sibling |
| Sidecar.World.HandleEntry | src/op/mod.rs:89-162 | one task takes a permit, calls the remote once, returns the permit, then acts as `EntryStep` says; all permits are free again afterwards |
| Sidecar.World.HandleAll | src/op/mod.rs:54-75 | the loop calls the remote exactly once per `Ok` pack, consumes that many scripted answers, drops `Err` packs, and ends in the state `RunStep` gives |
| Sidecar.ReplaceNolrcOrder | src/op/mod.rs:173-189 | the `.lrc` write is attempted first; the `.nolrc` delete is attempted iff the write succeeded; a failed write is reported as `Write` with nothing changed |
| Sidecar.ReplaceNolrcEffect | src/op/mod.rs:173-189 | after a successful write `.lrc` holds exactly the lyrics; `.nolrc` is gone unless its delete failed; the result is `Ok` iff a `.nolrc` existed and was removed, and a missing one gives `Delete(NotFound)`; no other file changes |
| Sidecar.CreateNolrcEffect | src/op/mod.rs:191-200 | `.nolrc` is present afterwards, with an existing one's content kept and a new one empty; the call succeeds iff the open does; no other file changes |
| Sidecar.CreateNolrcIdempotent | src/op/mod.rs:191-200 | creating the marker twice leaves the disk as once, and both calls succeed |
| Sidecar.ReplaceNolrcIdempotent | src/op/mod.rs:173-189 | writing the same lyrics twice leaves the disk as once; the second call reports `Delete(NotFound)` |
| Sidecar.AtMostOneSidecar | src/op/mod.rs:94-150 | for one task: a track with neither sidecar ends its own task with at most one, whatever the answer and whichever file operations fail (a whole run can leave both, see `Pipeline.SharedStemBothSidecars`) |
| Sidecar.NoFileChangeWithoutAction | src/op/mod.rs:125-161 | a task panics iff the answer is `InvalidRequest`; panics, logged errors and denied `.nolrc` creation leave the disk unchanged |
| Sidecar.TrackUntouched | src/op/mod.rs:107-136 | the track file itself is never changed, unless its own extension is `lrc` or `nolrc` |
| Sidecar.ScanAppend | src/op/mod.rs:89-92 | the permit check of a log splits at any point |
| Sidecar.FileEventsScan | src/op/mod.rs:92-150 | file operations alone never take a permit |
| Sidecar.EntryPermitDiscipline | src/op/mod.rs:89-92 | within a task the fetch happens while the permit is held, and the permit is given back before any file is touched |
| Sidecar.FetchEventsShape | src/op/mod.rs:90-92 | a task opens with acquire, one fetch of its request, release |
| Sidecar.FetchesAppend | src/op/mod.rs:91 | the fetches of a log split at any point |
| Sidecar.EntryFetches | src/op/mod.rs:89-92 | one task fetches exactly its own request, once |
| Sidecar.RunFetchesAndPermits | src/op/mod.rs:54-92 | the rest of a run keeps the permit discipline and adds one fetch per `Ok` pack, with that pack's request, in pack order |
| Sidecar.RunStepFetchesAndPermits | src/op/mod.rs:54-92 | a whole run keeps the permit discipline and calls the remote exactly once per `Ok` pack, with that pack's request, in pack order |
| Sidecar.NoFetches | src/op/mod.rs:91 | a log with no fetch event has no fetches |
| Sidecar.RunWithoutInvalidRequestNeverPanics | src/op/mod.rs:152-158 | with no `InvalidRequest` among the answers, no task of the run panics |
| Sidecar.EntryResolvesTrack | src/op/mod.rs:94-150 | a task leaves its track with a sidecar when the `.lrc` write or the `.nolrc` open goes ahead, and a track that had neither gets one only that way |
| Sidecar.EntryKeepsResolved | src/op/mod.rs:173-200 | a track that has a sidecar still has one after any task, its own or another track's |
| Sidecar.RunKeepsResolved | src/op/mod.rs:54-75 | the same over the rest of a run |
| Sidecar.OkCountAppend | src/op/mod.rs:64-71 | the task count adds up over concatenated packs |
| Sidecar.TasksBefore | src/op/mod.rs:64-71 | the tasks started before a pack plus those from it on are all tasks; an `Ok` pack's answer exists |
| Sidecar.RunSplit | src/op/mod.rs:54-75 | a run splits at any pack, the later packs taking the answers the earlier ones left |
| Pipeline.ResolvedTrackIsSkipped | src/op/file.rs:96-104 | a track whose own task in a run wrote `.lrc` or created `.nolrc` is skipped, before any tag read, by an `LrcMissing` run started on the disk the whole run leaves |
| Pipeline.SharedStemBothSidecars | src/op/mod.rs:54-75 | `song.flac` and `song.mp3` are both accepted; lyrics for the first and a 404 for the second leave both `song.lrc` and `song.nolrc` |
| Pipeline.NothingAcceptedNoRequests | src/op/file.rs:66-78 | a walk that accepts no entry sends no request |
| Pipeline.ResolvedWalkSendsNoRequests | src/op/file.rs:96-104 | under `LrcMissing`, a walk whose files all have a sidecar sends no request, so a second run fetches nothing |
| Pipeline.UnreadableFilesSendNoRequests | src/op/file.rs:121-136 | files whose tags cannot be read send no request, whatever their extension |
| Pipeline.DirectoriesSendNothing | src/op/file.rs:90-93 | a walk that meets only directories sends nothing at all |
| Pipeline.AllSilent | src/op/file.rs:69-74 | items that send nothing are all counted as silent |
| Pipeline.NotBothPreserved | src/op/file.rs:96-104 | under `LrcMissing` and `LrcMissingAll`, a track without both sidecars still lacks one of them after its task, unless the `.nolrc` delete fails |
| Pipeline.SingleTrackScenarios | src/op/mod.rs:94-150 | `song.flac` tagged (A, T) gives the request (A, T); synced lyrics give exactly `song.lrc`; a 404 gives exactly an empty `song.nolrc`, or nothing when creation is denied |
| Pipeline.NolrcTrackNotFetched | src/op/file.rs:100 | under `LrcMissing`, a track next to a `.nolrc` is not fetched |
| Pipeline.BothSidecarsUnderOverwrite | src/op/file.rs:98 | under `OverwriteExceptNolrc`, a track with a `.lrc` is fetched again, and a 404 adds a `.nolrc` beside it |
| Pipeline.CreateNolrcTest | src/lib.rs:207-229 | `create_nolrc` on the `.flac` sibling of a temporary file succeeds, keeps the file, rewrites the path to the same `.nolrc` path, and creates it |
| Pipeline.ReplaceNolrcHalfwayTest | src/lib.rs:231-263 | with no `.nolrc`, `replace_nolrc` reports a `Delete` error, yet `.lrc` holds exactly the lyrics, the file is kept and there is no `.nolrc` |
| Pipeline.ReplaceNolrcFullyTest | src/lib.rs:265-296 | `create_nolrc` then `replace_nolrc` both succeed, leaving `.lrc` with the lyrics, no `.nolrc`, and the file unchanged |
| OldFile.DefaultDirIterCfg | src/file.rs:19-27 | the default keeps hidden entries, skips non-music extensions and reads strictly |
| OldFile.FileNameText | src/file.rs:78-83 | a file name has text only when its stem is UTF-8 |
| OldFile.IsHidden | src/file.rs:78-83 | reproduces `is_hidden`: the UTF-8 file name starts with a dot, and a name that is not UTF-8 is not hidden; stated by `HiddenIffDotStem` |
| OldFile.HiddenIffDotStem | src/file.rs:78-83 | a UTF-8 name is hidden iff its stem starts with a dot |
| OldFile.IsSuitableFile | src/file.rs:85-109 | reproduces `is_suitable_file`: a regular file, and with `skip_non_music_ext` an ASCII-lowered UTF-8 extension among the eight listed; compared with the new test by `SuitableVersusExtMatches` |
| OldFile.SuitableVersusExtMatches | src/file.rs:95-108 | for a regular file with extension filtering on, the old test accepts exactly what the new extension test accepts, plus `mp4` |
| OldFile.Walk | src/file.rs:33-38 | every entry listed passes the entry filter and is a suitable file |
| OldFile.WalkAll | src/file.rs:33-38 | the same for a list of subtrees |
| OldFile.KeepEntry | src/file.rs:35 | reproduces the `filter_entry` closure as written: keep an entry when `skip_hidden` is off or the entry is hidden; `KeepEntryIntended` is the corrected closure |
| OldFile.ListFiles | src/file.rs:29-39 | as written: only regular files are listed, and with `skip_hidden` only hidden ones |
| OldFile.ListFilesIntended | src/file.rs:35 | with the filter corrected, `skip_hidden` lists no hidden entry |
| OldFile.WalkSameFilter | src/file.rs:35 | filters that agree on every entry list the same files |
| OldFile.WalkAllSameFilter | src/file.rs:35 | the same for a list of subtrees |
| OldFile.ListFilesWithoutSkipHidden | src/file.rs:35-37 | without `skip_hidden`, both filters list every suitable file of the walk |
| OldFile.SkipHiddenDropsVisibleTrack | src/file.rs:35 | with `skip_hidden` the filter as written lists nothing from a visible `music/song.flac`, while the corrected one lists it |
| OldFile.PrepareLyricsRequestFirst | src/file.rs:60-69 | a request exists iff the first tag set has an artist and a title; it takes the first set's artist, title and album, with no duration |
| OldFile.OldRequestAgreesWithNew | src/file.rs:60-69 | where the old builder gives a request the new one does too, with the same artist and title, and the same album when the first set has one |
| OldFile.AlbumFromLaterTagSet | src/file.rs:60-69 | when only a later tag set has an album, the old builder leaves it out and the new one takes it |
| OldFile.AllFileRequests | src/file.rs:41-58 | never more requests than entries |
| OldFile.AllFileRequestsSound | src/file.rs:41-58 | each request listed is built from some entry's tags, read by the reader the configuration picks |
| OldFile.AllFileRequestsComplete | src/file.rs:41-58 | every entry whose tags are read and whose first tag set has an artist and a title has its request listed |

## Left out

- Concurrency. `handle_all` spawns tasks that run at the same time. The walker is parallel, and so is rayon in `all_file_requests`. The model runs tasks one after another and proves that a single task takes and returns its permit. It does not model interleavings. It does not model the fact that messages from a parallel walk may arrive in any order.
- A panicking task aborts `join_all`. The model only reports that some task panicked. It does not model which other tasks are cut short.
- The HTTP client (`reqwest`, `src/remote/net.rs`) is replaced by a scripted sequence of answers. So are the JSON and query encoders, apart from their field names. The duration, serialized as an `f32` number of seconds, is not modelled.
- Tag reading (`lofty`'s `read_from_path` and `Probe`) is a parameter. Each entry carries the outcome of both readers.
- Directory traversal (`ignore` and `walkdir`) is a parameter: a sequence of walk items, or a tree in the older code. Its ignore-file, hidden-file and symlink options are not modelled.
- The filesystem is a map of regular files. `path.exists()` is true for directories as well, and that case is not modelled. A partial write that fails part-way is modelled as a write that changes nothing.
- `DirEntry::file_name` of a walk root that has no file name (such as `/`, `.` or `..`) is modelled as having no text, so it is never hidden. walkdir falls back to the whole path there, so the source counts a `.` or `..` root as hidden. With `skip_hidden`, the filter as written therefore keeps a `.` root in the source, while the model prunes it.
- Paths are modelled in parsed form, and the model does not check that a key of the disk map is in the one form Rust would parse it to. `FileName("song.flac", None)` and `FileName("song", "flac")` would be two keys for one file. `Paths.Canonical` describes the parsed form, and `SetExtensionCanonical` shows that the sidecar rewrites keep it. The lemmas do not take it as a hypothesis, so a disk holding non-canonical keys is outside what they describe.
- Logging (`tracing`), the CLI definitions and `main` are not part of this model. Neither is the setup that turns an empty path list into a CLI error.
- Remote.QueryPairs: does not cover the duration pair, because the duration's `f32` encoding is not modelled.
- Pipeline.NotBothPreserved: requires the `.nolrc` delete not to fail. When that delete fails after a successful write, both sidecars remain, and `ReplaceNolrcEffect` states that case.

## Findings

| source | as written | input that shows it | evidently intended | confidence | as-written member | corrected member |
|---|---|---|---|---|---|---|
| src/file.rs:35 | `filter_entry` keeps an entry iff `!skip_hidden \|\| is_hidden()`, so with `skip_hidden` set it keeps only hidden entries and prunes every visible directory, the walk root included | `skip_hidden = true`, walking a visible `music` directory that holds `song.flac`: nothing is listed | keep an entry iff `!skip_hidden \|\| !is_hidden()` | high (not executed; the function has no caller in this revision) | OldFile.SkipHiddenDropsVisibleTrack | OldFile.ListFilesIntended |
