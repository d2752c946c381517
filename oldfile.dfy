/**
 * The older classifier of `src/file.rs`: the walk configuration, the hidden
 * and suitable-file tests, the entry filter of `list_files`, and the
 * first-tag-set request builder.
 */
module OldFile {
  import opened Wrappers
  import opened Paths
  import opened Remote
  import Classifier

  /** `DirIterCfg`. */
  datatype DirIterCfg = DirIterCfg(skipHidden: bool, skipNonMusicExt: bool, laxedExtMode: bool)

  /** `DirIterCfg::default()`: hidden entries kept, non-music extensions skipped, strict reading. */
  function DefaultDirIterCfg(): (c: DirIterCfg)
    ensures !c.skipHidden && c.skipNonMusicExt && !c.laxedExtMode
  {
    DirIterCfg(false, true, false)
  }

  datatype FileType = RegularFile | Directory | Symlink | OtherType

  /** A `walkdir::DirEntry`: its path and the type of the entry itself (symlinks not followed). */
  datatype DirEntry = DirEntry(path: Path, fileType: FileType)

  /**
   * A directory walk as `walkdir` produces it: an entry with the walks of its
   * children, or an error that the walk reports in place of an entry.
   */
  datatype WalkTree = Node(entry: DirEntry, children: seq<WalkTree>) | Failed(detail: string)

  // ---------------------------------------------------------------- entry tests

  /**
   * The entry's file name as UTF-8 text, when the whole of it is UTF-8: the stem,
   * then a dot and the extension when there is one.
   */
  function FileNameText(e: DirEntry): (r: Option<string>)
    ensures r.Some? ==> e.path.name.Some? && e.path.name.value.stem.Utf8?
  {
    match e.path.name
    case None => None
    case Some(FileName(stem, ext)) =>
      match (stem, ext)
      case (Utf8(s), None) => Some(s)
      case (Utf8(s), Some(Utf8(x))) => Some(s + "." + x)
      case _ => None
  }

  /** `is_hidden`: the file name is UTF-8 and starts with a dot. */
  predicate IsHidden(e: DirEntry) {
    match FileNameText(e)
    case Some(s) => |s| > 0 && s[0] == '.'
    case None => false
  }

  /** A name (whose stem, as in every real file name, is not empty) whose stem starts with a dot is hidden, whatever its extension, when it is all UTF-8. */
  lemma HiddenIffDotStem(e: DirEntry)
    requires FileNameText(e).Some? && e.path.name.value.stem != Utf8("")
    ensures IsHidden(e) <==> (var stem := e.path.name.value.stem.text; |stem| > 0 && stem[0] == '.')
  {
    var n := e.path.name.value;
    if n.ext.Some? {
      var s := n.stem.text;
      assert FileNameText(e).value[0] == s[0];
    }
  }

  const OLD_MUSIC_EXTENSIONS: seq<string> := ["mp3", "mp4", "aac", "alac", "flac", "opus", "ogg", "wav"]

  /**
   * `is_suitable_file`: only regular files; every one of them when non-music
   * extensions are not skipped; otherwise those whose extension, UTF-8 and
   * ASCII-lowered, is a music extension.
   */
  predicate IsSuitableFile(e: DirEntry, cfg: DirIterCfg) {
    if e.fileType != RegularFile then false
    else if !cfg.skipNonMusicExt then true
    else match Extension(e.path)
      case Some(Utf8(x)) => Classifier.AsciiLowercase(x) in OLD_MUSIC_EXTENSIONS
      case _ => false
  }

  /**
   * The older test accepts exactly what the newer extension test accepts, plus
   * `mp4` in any ASCII case.
   */
  lemma SuitableVersusExtMatches(e: DirEntry, cfg: DirIterCfg)
    requires e.fileType == RegularFile && cfg.skipNonMusicExt
    ensures IsSuitableFile(e, cfg) <==>
      (|| Classifier.ExtMatches(e.path)
       || (Extension(e.path).Some? && Extension(e.path).value.Utf8?
           && Classifier.AsciiLowercase(Extension(e.path).value.text) == "mp4"))
  {
    Classifier.ExtMatchesIff(e.path);
    assert forall w :: w in OLD_MUSIC_EXTENSIONS <==> w in Classifier.AUDIO_EXTENSIONS || w == "mp4";
  }

  // ---------------------------------------------------------------- list_files

  /** The `filter_entry` predicate of `list_files`, as written. */
  predicate KeepEntry(e: DirEntry, cfg: DirIterCfg) {
    !cfg.skipHidden || IsHidden(e)
  }

  /** The entry filter the `skip_hidden` option describes: drop hidden entries when it is set. */
  predicate KeepEntryIntended(e: DirEntry, cfg: DirIterCfg) {
    !cfg.skipHidden || !IsHidden(e)
  }

  /**
   * A walk pruned by `keep` (an entry that fails it is dropped together with
   * everything below it, and walk errors are dropped), keeping the suitable
   * files in walk order.
   */
  function Walk(t: WalkTree, keep: DirEntry -> bool, cfg: DirIterCfg): (r: seq<DirEntry>)
    ensures forall k :: 0 <= k < |r| ==> keep(r[k]) && IsSuitableFile(r[k], cfg)
    decreases t
  {
    match t
    case Failed(_) => []
    case Node(e, cs) =>
      if !keep(e) then []
      else (if IsSuitableFile(e, cfg) then [e] else []) + WalkAll(cs, keep, cfg)
  }

  function WalkAll(ts: seq<WalkTree>, keep: DirEntry -> bool, cfg: DirIterCfg): (r: seq<DirEntry>)
    ensures forall k :: 0 <= k < |r| ==> keep(r[k]) && IsSuitableFile(r[k], cfg)
    decreases ts
  {
    if ts == [] then [] else Walk(ts[0], keep, cfg) + WalkAll(ts[1..], keep, cfg)
  }

  /** `list_files` as written. */
  function ListFiles(t: WalkTree, cfg: DirIterCfg): (r: seq<DirEntry>)
    ensures forall k :: 0 <= k < |r| ==> r[k].fileType == RegularFile
    ensures cfg.skipHidden ==> forall k :: 0 <= k < |r| ==> IsHidden(r[k])
  {
    Walk(t, e => KeepEntry(e, cfg), cfg)
  }

  /** `list_files` with the entry filter its option describes. */
  function ListFilesIntended(t: WalkTree, cfg: DirIterCfg): (r: seq<DirEntry>)
    ensures forall k :: 0 <= k < |r| ==> r[k].fileType == RegularFile
    ensures cfg.skipHidden ==> forall k :: 0 <= k < |r| ==> !IsHidden(r[k])
  {
    Walk(t, e => KeepEntryIntended(e, cfg), cfg)
  }

  /** Every suitable file of a walk, with nothing pruned. */
  function AllSuitable(t: WalkTree, cfg: DirIterCfg): seq<DirEntry> {
    Walk(t, e => true, cfg)
  }

  /** Two filters that agree on every entry give the same walk. */
  lemma {:induction false} WalkSameFilter(t: WalkTree, k1: DirEntry -> bool, k2: DirEntry -> bool, cfg: DirIterCfg)
    requires forall e :: k1(e) == k2(e)
    ensures Walk(t, k1, cfg) == Walk(t, k2, cfg)
    decreases t
  {
    match t
    case Failed(_) =>
    case Node(e, cs) => WalkAllSameFilter(cs, k1, k2, cfg);
  }

  lemma {:induction false} WalkAllSameFilter(ts: seq<WalkTree>, k1: DirEntry -> bool, k2: DirEntry -> bool, cfg: DirIterCfg)
    requires forall e :: k1(e) == k2(e)
    ensures WalkAll(ts, k1, cfg) == WalkAll(ts, k2, cfg)
    decreases ts
  {
    if ts != [] {
      WalkSameFilter(ts[0], k1, k2, cfg);
      WalkAllSameFilter(ts[1..], k1, k2, cfg);
    }
  }

  /**
   * With `skip_hidden` unset the filter keeps everything: both versions list
   * every suitable file of the walk.
   */
  lemma ListFilesWithoutSkipHidden(t: WalkTree, cfg: DirIterCfg)
    requires !cfg.skipHidden
    ensures ListFiles(t, cfg) == AllSuitable(t, cfg)
    ensures ListFilesIntended(t, cfg) == AllSuitable(t, cfg)
  {
    WalkSameFilter(t, e => KeepEntry(e, cfg), e => true, cfg);
    WalkSameFilter(t, e => KeepEntryIntended(e, cfg), e => true, cfg);
  }

  const MUSIC_DIR := DirEntry(Path([], Some(FileName(Utf8("music"), None))), Directory)
  const SONG := DirEntry(Path([Utf8("music")], Some(FileName(Utf8("song"), Some(Utf8("flac"))))), RegularFile)

  /**
   * With `skip_hidden` set, the filter as written prunes a visible `music`
   * directory (the walk's root), so its visible `song.flac` is never listed;
   * the intended filter lists it.
   */
  lemma SkipHiddenDropsVisibleTrack()
    ensures var cfg := DirIterCfg(true, true, false);
      var t := Node(MUSIC_DIR, [Node(SONG, [])]);
      && ListFiles(t, cfg) == []
      && ListFilesIntended(t, cfg) == [SONG]
  {
    var cfg := DirIterCfg(true, true, false);
    assert !IsHidden(MUSIC_DIR) && !IsHidden(SONG);
    assert IsSuitableFile(SONG, cfg) by {
      assert Classifier.AsciiLowercase("flac") == "flac";
    }
    var ts := [Node(SONG, [])];
    assert ts[1..] == [];
    var keep := e => KeepEntryIntended(e, cfg);
    assert Walk(Node(SONG, []), keep, cfg) == [SONG] + WalkAll([], keep, cfg);
    assert WalkAll(ts, keep, cfg) == Walk(Node(SONG, []), keep, cfg) + WalkAll([], keep, cfg);
    assert Walk(Node(MUSIC_DIR, ts), keep, cfg) == [] + WalkAll(ts, keep, cfg);
  }

  // ---------------------------------------------------------------- requests

  /**
   * The older `prepare_lyrics_request`: only the first tag set is read; no tag
   * set, or no artist or title in it, gives nothing.
   */
  function PrepareLyricsRequestFirst(file: Classifier.TaggedFile): (r: Option<LyricsRequest>)
    ensures r.Some? <==> (|file.tags| > 0 && file.tags[0].artist.Some? && file.tags[0].title.Some?)
    ensures r.Some? ==> r.value == LyricsRequest(file.tags[0].artist.value, file.tags[0].title.value,
                                                 file.tags[0].album, None)
  {
    if |file.tags| == 0 then None
    else
      var first := file.tags[0];
      if first.artist.None? then None
      else if first.title.None? then None
      else Some(LyricsRequest(first.artist.value, first.title.value, first.album, None))
  }

  /**
   * Where the older builder produces a request the newer one produces one too,
   * with the same artist and title, and the same album when the first tag set
   * has one; the newer one also succeeds when later tag sets supply what the
   * first lacks.
   */
  lemma OldRequestAgreesWithNew(file: Classifier.TaggedFile)
    ensures var first := PrepareLyricsRequestFirst(file);
      var any := Classifier.PrepareLyricsRequest(file);
      first.Some? ==> && any.Ok?
                      && any.value.artist == first.value.artist && any.value.title == first.value.title
                      && (first.value.album.Some? ==> any.value.album == first.value.album)
  {
    if PrepareLyricsRequestFirst(file).Some? {
      var t := file.tags[0];
      assert Classifier.FindMap(file.tags, Classifier.ArtistOf) == t.artist;
      assert Classifier.FindMap(file.tags, Classifier.TitleOf) == t.title;
      if t.album.Some? {
        assert Classifier.FindMap(file.tags, Classifier.AlbumOf) == t.album;
      }
    }
  }

  /** A first tag set without an album, followed by one with an album: the two builders disagree on it. */
  lemma AlbumFromLaterTagSet()
    ensures var file := Classifier.TaggedFile([Classifier.TagSet(Some("A"), Some("T"), None),
                                               Classifier.TagSet(None, None, Some("L"))]);
      && PrepareLyricsRequestFirst(file) == Some(LyricsRequest("A", "T", None, None))
      && Classifier.PrepareLyricsRequest(file) == Ok(LyricsRequest("A", "T", Some("L"), None))
  {
    var file := Classifier.TaggedFile([Classifier.TagSet(Some("A"), Some("T"), None),
                                       Classifier.TagSet(None, None, Some("L"))]);
    assert file.tags[1..] == [Classifier.TagSet(None, None, Some("L"))];
  }

  /** The two ways `all_file_requests` reads tags: by path (lax) or by content sniffing (strict). */
  datatype OldReads = OldReads(byPath: Option<Classifier.TaggedFile>, byContent: Option<Classifier.TaggedFile>)

  function ReadFor(r: OldReads, cfg: DirIterCfg): Option<Classifier.TaggedFile> {
    if cfg.laxedExtMode then r.byPath else r.byContent
  }

  /** The request one entry yields: its tags, read by the configured reader, built into a request. */
  function EntryRequest(entry: (DirEntry, OldReads), cfg: DirIterCfg): Option<LyricsRequest> {
    var read := ReadFor(entry.1, cfg);
    if read.Some? then PrepareLyricsRequestFirst(read.value) else None
  }

  /**
   * `all_file_requests`: for each entry, in order, the request built from the
   * tags the configured reader found; entries whose read fails or whose first
   * tag set lacks artist or title contribute nothing.
   */
  function AllFileRequests(entries: seq<(DirEntry, OldReads)>, cfg: DirIterCfg): (r: seq<LyricsRequest>)
    ensures |r| <= |entries|
  {
    if entries == [] then []
    else
      var rest := AllFileRequests(entries[1..], cfg);
      match EntryRequest(entries[0], cfg)
      case Some(request) => [request] + rest
      case None => rest
  }

  /** Every request listed is the request of some entry. */
  lemma {:induction false} AllFileRequestsSound(entries: seq<(DirEntry, OldReads)>, cfg: DirIterCfg, k: nat)
    requires k < |AllFileRequests(entries, cfg)|
    ensures exists j :: 0 <= j < |entries| && EntryRequest(entries[j], cfg) == Some(AllFileRequests(entries, cfg)[k])
    decreases |entries|
  {
    var r := AllFileRequests(entries, cfg);
    var rest := AllFileRequests(entries[1..], cfg);
    if EntryRequest(entries[0], cfg).Some? && k == 0 {
      assert EntryRequest(entries[0], cfg) == Some(r[0]);
    } else {
      var k' := if EntryRequest(entries[0], cfg).Some? then k - 1 else k;
      assert r[k] == rest[k'];
      AllFileRequestsSound(entries[1..], cfg, k');
      var j :| 0 <= j < |entries| - 1 && EntryRequest(entries[1..][j], cfg) == Some(rest[k']);
      assert entries[1..][j] == entries[j + 1];
    }
  }

  /** An entry that yields a request always has it listed. */
  lemma {:induction false} AllFileRequestsComplete(entries: seq<(DirEntry, OldReads)>, cfg: DirIterCfg, j: nat)
    requires j < |entries| && EntryRequest(entries[j], cfg).Some?
    ensures EntryRequest(entries[j], cfg).value in AllFileRequests(entries, cfg)
  {
    if j > 0 {
      assert entries[1..][j - 1] == entries[j];
      AllFileRequestsComplete(entries[1..], cfg, j - 1);
    }
  }
}
