/**
 * The entry classifier and the walk that feeds it (src/op/file.rs): which
 * walked entries become lyrics requests, which are skipped, and which become
 * errors. The tag library and the directory walker are external: a walked
 * entry comes with what the two tag readers would return for it.
 */
module Classifier {
  import opened Wrappers
  import opened Paths
  import opened Remote

  datatype LrcAcquireBehavior = All | OverwriteExceptNolrc | LrcMissingAll | LrcMissing

  datatype FileMatchStrictness = TrustyGuesser | FilterByExt | Paranoid

  /** The command-line settings the classifier and the fetch loop read. */
  datatype Config = Config(
    paths: seq<Path>,
    acquire: LrcAcquireBehavior,
    strictness: FileMatchStrictness,
    denyNolrc: bool)

  /** One tag set of a file, as the tag library's `Accessor` exposes it. */
  datatype TagSet = TagSet(artist: Option<string>, title: Option<string>, album: Option<string>)

  datatype TaggedFile = TaggedFile(tags: seq<TagSet>)

  datatype PackError =
    | Lofty(detail: string)
    | Io(detail: string)
    | RequestPrepare(artist: Option<string>, title: Option<string>)
    | Ignore(detail: string)

  /** A walked entry; `isFile` is `Path::is_file` of its path. */
  datatype Entry = Entry(path: Path, isFile: bool)

  /** What the shallow (`read_from_path`) and the deep (`Probe`) reader return for an entry. */
  datatype TagReads = TagReads(shallow: Result<TaggedFile, PackError>, deep: Result<TaggedFile, PackError>)

  type PackResult = Result<(LyricsRequest, Entry), PackError>

  /** One step of the directory walk: an entry, or a traversal error. */
  datatype WalkItem = Visited(entry: Entry, tags: TagReads) | WalkError(detail: string)

  datatype NoPathsError = NoPathsError

  // ---------------------------------------------------------------- tags

  function ArtistOf(t: TagSet): Option<string> { t.artist }
  function TitleOf(t: TagSet): Option<string> { t.title }
  function AlbumOf(t: TagSet): Option<string> { t.album }

  /** `Iterator::find_map`: the field of the first tag set that has it. */
  function FindMap(tags: seq<TagSet>, field: TagSet -> Option<string>): (r: Option<string>)
    ensures r.Some? <==> exists i :: 0 <= i < |tags| && field(tags[i]).Some?
    ensures r.Some? ==> exists i :: 0 <= i < |tags| && field(tags[i]) == r
                          && forall j :: 0 <= j < i ==> field(tags[j]).None?
  {
    if tags == [] then None
    else if field(tags[0]).Some? then field(tags[0])
    else
      var r := FindMap(tags[1..], field);
      assert forall i :: 1 <= i < |tags| ==> tags[i] == tags[1..][i - 1];
      r
  }

  /**
   * `prepare_lyrics_request`: artist, title and album each from the first tag
   * set that has them; title and artist are required, album is optional and the
   * duration is never filled in. On failure the error carries exactly the
   * artist and title that were found.
   */
  function PrepareLyricsRequest(file: TaggedFile): (r: Result<LyricsRequest, PackError>)
    ensures r.Ok? <==> ((exists i :: 0 <= i < |file.tags| && file.tags[i].artist.Some?)
                     && (exists i :: 0 <= i < |file.tags| && file.tags[i].title.Some?))
    ensures r.Ok? ==> && Some(r.value.artist) == FindMap(file.tags, ArtistOf)
                      && Some(r.value.title) == FindMap(file.tags, TitleOf)
                      && r.value.album == FindMap(file.tags, AlbumOf)
                      && r.value.duration.None?
    ensures r.Err? ==> r.error == RequestPrepare(FindMap(file.tags, ArtistOf), FindMap(file.tags, TitleOf))
  {
    var artist := FindMap(file.tags, ArtistOf);
    var title := FindMap(file.tags, TitleOf);
    var album := FindMap(file.tags, AlbumOf);
    if title.Some? && artist.Some? then Ok(LyricsRequest(artist.value, title.value, album, None))
    else Err(RequestPrepare(artist, title))
  }

  // ---------------------------------------------------------------- extensions

  const AUDIO_EXTENSIONS: seq<string> := ["aac", "alac", "flac", "mp3", "ogg", "opus", "wav"]

  function AsciiLower(c: char): char {
    if 'A' <= c <= 'Z' then (c as int + 32) as char else c
  }

  function AsciiLowercase(s: string): (r: string)
    ensures |r| == |s| && forall i :: 0 <= i < |s| ==> r[i] == AsciiLower(s[i])
  {
    seq(|s|, i requires 0 <= i < |s| => AsciiLower(s[i]))
  }

  /** `eq_ignore_ascii_case`: equal lengths and equal characters after ASCII lowering. */
  predicate EqIgnoreAsciiCase(a: string, b: string) {
    |a| == |b| && forall i :: 0 <= i < |a| ==> AsciiLower(a[i]) == AsciiLower(b[i])
  }

  /** The extension test of `from_entry`, written as the source's chain of comparisons. */
  predicate ExtMatches(p: Path) {
    match Extension(p)
    case None => false
    case Some(NotUtf8(_)) => false
    case Some(Utf8(e)) =>
      || EqIgnoreAsciiCase(e, "aac")
      || EqIgnoreAsciiCase(e, "alac")
      || EqIgnoreAsciiCase(e, "flac")
      || EqIgnoreAsciiCase(e, "mp3")
      || EqIgnoreAsciiCase(e, "ogg")
      || EqIgnoreAsciiCase(e, "opus")
      || EqIgnoreAsciiCase(e, "wav")
  }

  predicate IsLowercase(s: string) {
    forall i :: 0 <= i < |s| ==> AsciiLower(s[i]) == s[i]
  }

  /** Comparing against a lower-case word is comparing the lowered string with it. */
  lemma EqIgnoreAsciiCaseLower(a: string, b: string)
    requires IsLowercase(b)
    ensures EqIgnoreAsciiCase(a, b) <==> AsciiLowercase(a) == b
  {
    if AsciiLowercase(a) == b {
      forall i | 0 <= i < |a| ensures AsciiLower(a[i]) == AsciiLower(b[i]) {
        assert AsciiLowercase(a)[i] == AsciiLower(a[i]);
      }
    }
    if EqIgnoreAsciiCase(a, b) {
      assert forall i :: 0 <= i < |a| ==> AsciiLowercase(a)[i] == b[i];
    }
  }

  /**
   * An entry's extension matches iff it is UTF-8 and, lowered, one of the seven
   * audio extensions; a path without an extension never matches.
   */
  lemma ExtMatchesIff(p: Path)
    ensures ExtMatches(p) <==>
      Extension(p).Some? && Extension(p).value.Utf8?
      && AsciiLowercase(Extension(p).value.text) in AUDIO_EXTENSIONS
  {
    if Extension(p).Some? && Extension(p).value.Utf8? {
      var e := Extension(p).value.text;
      forall w | w in AUDIO_EXTENSIONS ensures EqIgnoreAsciiCase(e, w) <==> AsciiLowercase(e) == w {
        EqIgnoreAsciiCaseLower(e, w);
      }
    }
  }

  // ---------------------------------------------------------------- sidecar checks

  /** Whether the sibling with extension `ext` exists; false when the path has no file name. */
  predicate SidecarExists(p: Path, ext: string, files: Files) {
    HasFileName(p) && SetExtension(p, ext) in files
  }

  /**
   * `has_lrc`: replaces the extension of `path` in place by `lrc` and reports
   * whether that file exists. `set_extension` fails, and the answer is false,
   * when the path has no file name.
   */
  method HasLrc(path: Path, files: Files) returns (res: bool, path': Path)
    ensures path' == SetExtension(path, "lrc")
    ensures res == SidecarExists(path, "lrc", files)
  {
    path' := SetExtension(path, "lrc");
    var extensionSet := HasFileName(path);
    res := extensionSet && path' in files;
  }

  /** `has_nolrc`: as `HasLrc`, for the `nolrc` sibling. */
  method HasNolrc(path: Path, files: Files) returns (res: bool, path': Path)
    ensures path' == SetExtension(path, "nolrc")
    ensures res == SidecarExists(path, "nolrc", files)
  {
    path' := SetExtension(path, "nolrc");
    var extensionSet := HasFileName(path);
    res := extensionSet && path' in files;
  }

  // ---------------------------------------------------------------- classification

  /** The acquisition-behaviour rule: which existing sidecars make a track be skipped. */
  predicate SkippedBySidecars(b: LrcAcquireBehavior, hasLrc: bool, hasNolrc: bool) {
    match b
    case All => false
    case OverwriteExceptNolrc => hasNolrc
    case LrcMissingAll => hasLrc
    case LrcMissing => hasLrc || hasNolrc
  }

  datatype Reader = Shallow | Deep

  /** The strictness rule: no read at all, the shallow reader or the deep reader. */
  function ReaderFor(s: FileMatchStrictness, extMatches: bool): Option<Reader> {
    match s
    case TrustyGuesser => Some(Shallow)
    case FilterByExt => if extMatches then Some(Shallow) else None
    case Paranoid => if extMatches then Some(Deep) else None
  }

  /**
   * What `from_entry` decides for an entry: `Ok(None)` to skip it, `Ok(Some(..))`
   * with the request to send, or the error to send.
   */
  function Classify(entry: Entry, cfg: Config, files: Files, tags: TagReads): Result<Option<(LyricsRequest, Entry)>, PackError> {
    var p := entry.path;
    if !entry.isFile then Ok(None)
    else if SkippedBySidecars(cfg.acquire, SidecarExists(p, "lrc", files), SidecarExists(p, "nolrc", files)) then Ok(None)
    else match ReaderFor(cfg.strictness, ExtMatches(p))
      case None => Ok(None)
      case Some(reader) =>
        var read := if reader == Shallow then tags.shallow else tags.deep;
        if read.Err? then Err(read.error)
        else match PrepareLyricsRequest(read.value)
          case Ok(request) => Ok(Some((request, entry)))
          case Err(e) => Err(e)
  }

  /**
   * `from_entry`, step by step as the source does it: the regular-file check,
   * the sidecar checks on a path whose extension is rewritten in place, the
   * extension test, the tag read and the request.
   */
  method FromEntry(entry: Entry, cfg: Config, files: Files, tags: TagReads)
    returns (r: Result<Option<(LyricsRequest, Entry)>, PackError>)
    ensures r == Classify(entry, cfg, files, tags)
  {
    if !entry.isFile {
      return Ok(None);
    }
    var path := entry.path;
    var filterPass: bool;
    match cfg.acquire {
      case All =>
        filterPass := true;
      case OverwriteExceptNolrc =>
        var nolrc;
        nolrc, path := HasNolrc(path, files);
        filterPass := !nolrc;
      case LrcMissingAll =>
        var lrc;
        lrc, path := HasLrc(path, files);
        filterPass := !lrc;
      case LrcMissing =>
        var lrc;
        lrc, path := HasLrc(path, files);
        if lrc {
          filterPass := false;
        } else {
          var nolrc;
          nolrc, path := HasNolrc(path, files);
          SetExtensionTwice(entry.path, "lrc", "nolrc");
          filterPass := !nolrc;
        }
    }
    if !filterPass {
      return Ok(None);
    }
    var extMatches := ExtMatches(entry.path);
    var read: Result<TaggedFile, PackError>;
    match cfg.strictness {
      case Paranoid | FilterByExt =>
        if !extMatches {
          return Ok(None);
        }
        read := if cfg.strictness == FilterByExt then tags.shallow else tags.deep;
      case TrustyGuesser =>
        read := tags.shallow;
    }
    if read.Err? {
      return Err(read.error);
    }
    var request := PrepareLyricsRequest(read.value);
    if request.Err? {
      return Err(request.error);
    }
    return Ok(Some((request.value, entry)));
  }

  // ---------------------------------------------------------------- the walk

  /** The messages one walked item puts on the channel: none, or exactly one. */
  function Messages(item: WalkItem, cfg: Config, files: Files): (m: seq<PackResult>)
    ensures |m| <= 1
    ensures item.WalkError? ==> m == [Err(Ignore(item.detail))]
  {
    match item
    case WalkError(d) => [Err(Ignore(d))]
    case Visited(entry, tags) =>
      match Classify(entry, cfg, files, tags)
      case Ok(None) => []
      case Ok(Some(pack)) => [Ok(pack)]
      case Err(e) => [Err(e)]
  }

  /** Everything sent for a walk, in walk order. */
  function Sent(walk: seq<WalkItem>, cfg: Config, files: Files): seq<PackResult> {
    if walk == [] then []
    else Sent(walk[..|walk| - 1], cfg, files) + Messages(walk[|walk| - 1], cfg, files)
  }

  /**
   * `prepare_entries`: refuses an empty path list before walking anything;
   * otherwise visits every item of the walk (never stopping early) and sends
   * what `Messages` says for each.
   */
  method PrepareEntries(cfg: Config, walk: seq<WalkItem>, files: Files)
    returns (r: Result<seq<PackResult>, NoPathsError>)
    ensures r.Err? <==> cfg.paths == []
    ensures r.Ok? ==> r.value == Sent(walk, cfg, files)
  {
    if cfg.paths == [] {
      return Err(NoPathsError);
    }
    var sent: seq<PackResult> := [];
    var i := 0;
    while i < |walk|
      invariant 0 <= i <= |walk|
      invariant sent == Sent(walk[..i], cfg, files)
    {
      SentNext(walk, cfg, files, i);
      var message: seq<PackResult>;
      match walk[i] {
        case WalkError(d) =>
          message := [Err(Ignore(d))];
        case Visited(entry, tags) =>
          var res := FromEntry(entry, cfg, files, tags);
          message := match res
            case Ok(None) => []
            case Ok(Some(pack)) => [Ok(pack)]
            case Err(e) => [Err(e)];
      }
      assert message == Messages(walk[i], cfg, files);
      sent := sent + message;
      i := i + 1;
    }
    assert walk[..|walk|] == walk;
    return Ok(sent);
  }

  /** The walk so far grows by the messages of one more item. */
  lemma SentNext(walk: seq<WalkItem>, cfg: Config, files: Files, i: nat)
    requires i < |walk|
    ensures Sent(walk[..i + 1], cfg, files) == Sent(walk[..i], cfg, files) + Messages(walk[i], cfg, files)
  {
    assert walk[..i + 1][..i] == walk[..i];
  }

  // ---------------------------------------------------------------- classifier promises

  /**
   * Cheap checks come first: a non-file, a track the sidecar rule skips, or a
   * mismatched extension under `FilterByExt`/`Paranoid` is skipped whatever the
   * tag readers would say. Otherwise only the chosen reader matters:
   * `Paranoid` uses the deep reader, the other two the shallow one.
   */
  lemma ClassifyReadsOnlyChosenReader(entry: Entry, cfg: Config, files: Files, tags: TagReads, other: TagReads)
    ensures !entry.isFile ==> Classify(entry, cfg, files, tags) == Ok(None)
    ensures SkippedBySidecars(cfg.acquire, SidecarExists(entry.path, "lrc", files), SidecarExists(entry.path, "nolrc", files))
            ==> Classify(entry, cfg, files, tags) == Ok(None)
    ensures cfg.strictness != TrustyGuesser && !ExtMatches(entry.path) ==> Classify(entry, cfg, files, tags) == Ok(None)
    ensures cfg.strictness != Paranoid ==>
      Classify(entry, cfg, files, tags) == Classify(entry, cfg, files, tags.(deep := other.deep))
    ensures cfg.strictness == Paranoid ==>
      Classify(entry, cfg, files, tags) == Classify(entry, cfg, files, tags.(shallow := other.shallow))
  {
  }

  /**
   * An accepted entry is a regular file that the sidecar rule let through and
   * whose chosen reader yielded a complete request; the pack carries the entry itself.
   */
  lemma AcceptedEntry(entry: Entry, cfg: Config, files: Files, tags: TagReads)
    requires Classify(entry, cfg, files, tags).Ok? && Classify(entry, cfg, files, tags).value.Some?
    ensures var pack := Classify(entry, cfg, files, tags).value.value;
      var reader := ReaderFor(cfg.strictness, ExtMatches(entry.path));
      && entry.isFile && pack.1 == entry
      && !SkippedBySidecars(cfg.acquire, SidecarExists(entry.path, "lrc", files), SidecarExists(entry.path, "nolrc", files))
      && reader.Some?
      && var read := if reader.value == Shallow then tags.shallow else tags.deep;
         read.Ok? && PrepareLyricsRequest(read.value) == Ok(pack.0)
  {
  }

  /** `LrcMissing` is the strictest behaviour: whatever another behaviour skips, it skips too. */
  lemma LrcMissingSkipsMost(b: LrcAcquireBehavior, hasLrc: bool, hasNolrc: bool)
    ensures SkippedBySidecars(b, hasLrc, hasNolrc) ==> SkippedBySidecars(LrcMissing, hasLrc, hasNolrc)
    ensures !SkippedBySidecars(All, hasLrc, hasNolrc)
  {
  }

  /** The number of walked entries that send nothing. */
  function Silent(walk: seq<WalkItem>, cfg: Config, files: Files): nat {
    if walk == [] then 0
    else Silent(walk[..|walk| - 1], cfg, files) + (if Messages(walk[|walk| - 1], cfg, files) == [] then 1 else 0)
  }

  /** Each walked item sends at most one message: the messages are the items minus the silent ones. */
  lemma {:induction false} SentLength(walk: seq<WalkItem>, cfg: Config, files: Files)
    ensures |Sent(walk, cfg, files)| + Silent(walk, cfg, files) == |walk|
    decreases |walk|
  {
    if walk != [] {
      SentLength(walk[..|walk| - 1], cfg, files);
    }
  }

  /** A walk error always gets through as an `Ignore` error: it is never silent. */
  lemma {:induction false} WalkErrorsReported(walk: seq<WalkItem>, cfg: Config, files: Files, k: nat)
    requires k < |walk| && walk[k].WalkError?
    ensures Err(Ignore(walk[k].detail)) in Sent(walk, cfg, files)
    decreases |walk|
  {
    var n := |walk| - 1;
    if k < n {
      assert walk[..n][k] == walk[k];
      WalkErrorsReported(walk[..n], cfg, files, k);
    }
  }
}
