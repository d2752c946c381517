/**
 * Properties that join the classifier and the writer: what a second run
 * fetches, when the two sidecars can coexist, the end-to-end scenarios of a
 * single track, and the writer tests of src/lib.rs.
 */
module Pipeline {
  import opened Wrappers
  import opened Paths
  import opened Remote
  import opened Classifier
  import opened Sidecar

  /**
   * A track whose own task wrote `name.lrc` or created `name.nolrc` is skipped
   * by the next run under `LrcMissing`, before any tag read or fetch. The
   * next run starts from the disk the whole run leaves, later tasks included.
   */
  lemma ResolvedTrackIsSkipped(files: Files, packs: seq<PackResult>, script: seq<RemoteResult>,
                               cfg: Config, plan: seq<Faults>, i: nat, tags: TagReads)
    requires cfg.acquire == LrcMissing
    requires |plan| == |packs| && OkCount(packs) <= |script|
    requires i < |packs| && packs[i].Ok? && HasFileName(packs[i].value.1.path)
    requires var response := script[TasksBefore(packs, i)];
      || (Decide(response).UseLyrics? && plan[i].write.None?)
      || (Decide(response) == MarkAbsent && !cfg.denyNolrc && plan[i].open.None?)
    ensures Classify(packs[i].value.1, cfg, RunStep(files, packs, script, cfg.denyNolrc, plan).files, tags) == Ok(None)
  {
    var pack := packs[i].value;
    var k := TasksBefore(packs, i);
    var start := Step(files, [], false);
    RunSplit(start, packs, script, cfg.denyNolrc, plan, i);
    var mid := Run(start, packs[..i], script, cfg.denyNolrc, plan[..i]);
    assert packs[i..][0] == packs[i] && plan[i..][0] == plan[i] && script[k..][0] == script[k];
    assert packs[i..][1..] == packs[i + 1..] && plan[i..][1..] == plan[i + 1..];
    var own := RunTask(mid, pack, script[k], cfg.denyNolrc, plan[i]);
    EntryResolvesTrack(mid.files, pack.1.path, pack.0, script[k], cfg.denyNolrc, plan[i]);
    RunKeepsResolved(own, packs[i + 1..], script[k..][1..], cfg.denyNolrc, plan[i + 1..], pack.1.path);
  }

  /**
   * The one-task promise of `AtMostOneSidecar` does not carry over to a run:
   * `song.flac` and `song.mp3` are both accepted and share their sidecars, so
   * lyrics for the first and a 404 for the second leave both `song.lrc` and
   * `song.nolrc`.
   */
  lemma SharedStemBothSidecars(content: string)
    ensures var files := map[SONG_FLAC := content, SONG_MP3 := content];
      var cfg := DefaultConfig(LrcMissing, false);
      var tags := TagReads(Ok(TAGS_A_T), Err(Lofty("unused")));
      var flac := Entry(SONG_FLAC, true);
      var mp3 := Entry(SONG_MP3, true);
      var packs: seq<PackResult> := [Ok((REQUEST_A_T, flac)), Ok((REQUEST_A_T, mp3))];
      var after := RunStep(files, packs, [LyricsAnswer(Some("la la"), Some(false)), NOT_FOUND_ANSWER],
                           false, [NO_FAULTS, NO_FAULTS]).files;
      && Sent([Visited(flac, tags), Visited(mp3, tags)], cfg, files) == packs
      && !HasLrcSidecar(files, SONG_FLAC) && !HasNolrcSidecar(files, SONG_FLAC)
      && after == map[SONG_FLAC := content, SONG_MP3 := content, SONG_LRC := "la la", SONG_NOLRC := ""]
      && HasLrcSidecar(after, SONG_FLAC) && HasNolrcSidecar(after, SONG_FLAC)
  {
    var files := map[SONG_FLAC := content, SONG_MP3 := content];
    var cfg := DefaultConfig(LrcMissing, false);
    var tags := TagReads(Ok(TAGS_A_T), Err(Lofty("unused")));
    var flac := Entry(SONG_FLAC, true);
    var mp3 := Entry(SONG_MP3, true);
    var walk := [Visited(flac, tags), Visited(mp3, tags)];
    assert SONG_FLAC != SONG_LRC && SONG_FLAC != SONG_NOLRC && SONG_LRC != SONG_NOLRC;
    assert SONG_MP3 != SONG_LRC && SONG_MP3 != SONG_NOLRC && SONG_MP3 != SONG_FLAC;
    assert ExtMatches(SONG_FLAC) by {
      assert EqIgnoreAsciiCase("flac", "flac");
    }
    assert ExtMatches(SONG_MP3) by {
      assert EqIgnoreAsciiCase("mp3", "mp3");
    }
    assert PrepareLyricsRequest(TAGS_A_T) == Ok(REQUEST_A_T);
    assert walk[..1] == [walk[0]] && walk[..1][..0] == [];
    assert Messages(walk[0], cfg, files) == [Ok((REQUEST_A_T, flac))];
    assert Messages(walk[1], cfg, files) == [Ok((REQUEST_A_T, mp3))];
    var first := EntryStep(files, SONG_FLAC, REQUEST_A_T, LyricsAnswer(Some("la la"), Some(false)), false, NO_FAULTS).files;
    assert first == files[SONG_LRC := "la la"] - {SONG_NOLRC};
    assert first == map[SONG_FLAC := content, SONG_MP3 := content, SONG_LRC := "la la"];
    var second := EntryStep(first, SONG_MP3, REQUEST_A_T, NOT_FOUND_ANSWER, false, NO_FAULTS).files;
    assert second == first[SONG_NOLRC := ""];
    assert Sent(walk[..1], cfg, files) == [Ok((REQUEST_A_T, flac))];
    assert Sent(walk, cfg, files) == Sent(walk[..1], cfg, files) + Messages(walk[1], cfg, files);
    var packs: seq<PackResult> := [Ok((REQUEST_A_T, flac)), Ok((REQUEST_A_T, mp3))];
    var script := [LyricsAnswer(Some("la la"), Some(false)), NOT_FOUND_ANSWER];
    var plan := [NO_FAULTS, NO_FAULTS];
    var t1 := RunTask(Step(files, [], false), (REQUEST_A_T, flac), script[0], false, NO_FAULTS);
    var t2 := RunTask(t1, (REQUEST_A_T, mp3), script[1], false, NO_FAULTS);
    assert packs[1..][1..] == [] && script[1..][1..] == [] && plan[1..][1..] == [];
    assert Run(t2, packs[1..][1..], script[1..][1..], false, plan[1..][1..]) == t2;
    assert Run(t1, packs[1..], script[1..], false, plan[1..]) == t2;
    assert RunStep(files, packs, script, false, plan) == t2;
  }

  /** A walk item is accepted when the classifier turns it into a request. */
  predicate Accepted(item: WalkItem, cfg: Config, files: Files) {
    item.Visited? && Classify(item.entry, cfg, files, item.tags).Ok?
    && Classify(item.entry, cfg, files, item.tags).value.Some?
  }

  /** A walk that accepts no entry sends no request, so the fetch loop calls the remote zero times. */
  lemma {:induction false} NothingAcceptedNoRequests(walk: seq<WalkItem>, cfg: Config, files: Files)
    requires forall k :: 0 <= k < |walk| ==> !Accepted(walk[k], cfg, files)
    ensures OkCount(Sent(walk, cfg, files)) == 0
    decreases |walk|
  {
    if walk != [] {
      var n := |walk| - 1;
      var init := walk[..n];
      assert forall k :: 0 <= k < n ==> init[k] == walk[k];
      NothingAcceptedNoRequests(init, cfg, files);
      var m := Messages(walk[n], cfg, files);
      if m != [] {
        assert m[..0] == [];
      }
      OkCountAppend(Sent(init, cfg, files), m);
    }
  }

  /**
   * Under `LrcMissing` a walk in which every regular file already has a
   * sidecar sends no request, so the second run fetches nothing.
   */
  lemma ResolvedWalkSendsNoRequests(walk: seq<WalkItem>, cfg: Config, files: Files)
    requires cfg.acquire == LrcMissing
    requires forall k :: 0 <= k < |walk| && walk[k].Visited? ==>
      SidecarExists(walk[k].entry.path, "lrc", files) || SidecarExists(walk[k].entry.path, "nolrc", files)
    ensures OkCount(Sent(walk, cfg, files)) == 0
  {
    forall k | 0 <= k < |walk| ensures !Accepted(walk[k], cfg, files) {
    }
    NothingAcceptedNoRequests(walk, cfg, files);
  }

  /**
   * Files whose tags cannot be read, whatever their extension, send no request
   * (the `test_bad_files` scenario of src/op/test.rs).
   */
  lemma UnreadableFilesSendNoRequests(walk: seq<WalkItem>, cfg: Config, files: Files)
    requires forall k :: 0 <= k < |walk| && walk[k].Visited? ==>
      walk[k].tags.shallow.Err? && walk[k].tags.deep.Err?
    ensures OkCount(Sent(walk, cfg, files)) == 0
  {
    forall k | 0 <= k < |walk| ensures !Accepted(walk[k], cfg, files) {
    }
    NothingAcceptedNoRequests(walk, cfg, files);
  }

  /** A walk that meets only directories sends nothing at all (the `test_empty_dirs` scenario). */
  lemma DirectoriesSendNothing(walk: seq<WalkItem>, cfg: Config, files: Files)
    requires forall k :: 0 <= k < |walk| ==> walk[k].Visited? && !walk[k].entry.isFile
    ensures Sent(walk, cfg, files) == []
  {
    SentLength(walk, cfg, files);
    assert Silent(walk, cfg, files) == |walk| by {
      AllSilent(walk, cfg, files);
    }
  }

  lemma {:induction false} AllSilent(walk: seq<WalkItem>, cfg: Config, files: Files)
    requires forall k :: 0 <= k < |walk| ==> Messages(walk[k], cfg, files) == []
    ensures Silent(walk, cfg, files) == |walk|
    decreases |walk|
  {
    if walk != [] {
      var n := |walk| - 1;
      var init := walk[..n];
      assert forall k :: 0 <= k < n ==> init[k] == walk[k];
      AllSilent(init, cfg, files);
    }
  }

  /**
   * Under `LrcMissing` and `LrcMissingAll`, a track that did not have both
   * sidecars still does not after its task, provided the `.nolrc` delete is
   * not made to fail.
   */
  lemma NotBothPreserved(entry: Entry, cfg: Config, files: Files, tags: TagReads,
                         request: LyricsRequest, response: RemoteResult, f: Faults)
    requires HasFileName(entry.path)
    requires cfg.acquire == LrcMissing || cfg.acquire == LrcMissingAll
    requires Classify(entry, cfg, files, tags) == Ok(Some((request, entry)))
    requires f.remove.None?
    requires !(HasLrcSidecar(files, entry.path) && HasNolrcSidecar(files, entry.path))
    ensures var after := EntryStep(files, entry.path, request, response, cfg.denyNolrc, f).files;
      !(HasLrcSidecar(after, entry.path) && HasNolrcSidecar(after, entry.path))
  {
    AcceptedEntry(entry, cfg, files, tags);
    assert !HasLrcSidecar(files, entry.path);
    match Decide(response)
    case UseLyrics(lyrics) => ReplaceNolrcEffect(files, entry.path, lyrics, f);
    case MarkAbsent => CreateNolrcEffect(files, entry.path, f.open);
    case Fatal =>
    case LogOnly =>
  }

  // ---------------------------------------------------------------- one track, end to end

  const MUSIC: seq<OsStr> := [Utf8("music")]

  function Track(stem: string, ext: Option<string>): Path {
    Path(MUSIC, Some(FileName(Utf8(stem), if ext.Some? then Some(Utf8(ext.value)) else None)))
  }

  const SONG_FLAC := Track("song", Some("flac"))
  const SONG_LRC := Track("song", Some("lrc"))
  const SONG_NOLRC := Track("song", Some("nolrc"))
  const SONG_MP3 := Track("song", Some("mp3"))

  const TAGS_A_T := TaggedFile([TagSet(Some("A"), Some("T"), None)])
  const REQUEST_A_T := LyricsRequest("A", "T", None, None)

  function DefaultConfig(acquire: LrcAcquireBehavior, denyNolrc: bool): Config {
    Config([Path([], Some(FileName(Utf8("music"), None)))], acquire, FilterByExt, denyNolrc)
  }

  function LyricsAnswer(synced: Option<string>, instrumental: Option<bool>): RemoteResult {
    Ok(LyricsResponse(None, "T", "A", None, None, instrumental, None, synced))
  }

  const NOT_FOUND_ANSWER: RemoteResult := Err(InvalidStatusCode(NOT_FOUND, "https://lrclib.net/api/get"))

  /**
   * `song.flac` tagged artist "A", title "T", with no sidecars: it becomes the
   * request (A, T); synced lyrics "la la" give `song.lrc` = "la la" and no
   * `song.nolrc`; a 404 gives an empty `song.nolrc` and no `song.lrc`, or no
   * sidecar at all when `.nolrc` creation is denied.
   */
  lemma SingleTrackScenarios(content: string)
    ensures var files := map[SONG_FLAC := content];
      var entry := Entry(SONG_FLAC, true);
      var tags := TagReads(Ok(TAGS_A_T), Err(Lofty("unused")));
      && Classify(entry, DefaultConfig(LrcMissing, false), files, tags) == Ok(Some((REQUEST_A_T, entry)))
      && EntryStep(files, SONG_FLAC, REQUEST_A_T, LyricsAnswer(Some("la la"), Some(false)), false, NO_FAULTS).files
         == map[SONG_FLAC := content, SONG_LRC := "la la"]
      && EntryStep(files, SONG_FLAC, REQUEST_A_T, NOT_FOUND_ANSWER, false, NO_FAULTS).files
         == map[SONG_FLAC := content, SONG_NOLRC := ""]
      && EntryStep(files, SONG_FLAC, REQUEST_A_T, NOT_FOUND_ANSWER, true, NO_FAULTS).files == files
  {
    var files := map[SONG_FLAC := content];
    assert SONG_FLAC != SONG_LRC && SONG_FLAC != SONG_NOLRC && SONG_LRC != SONG_NOLRC;
    assert ExtMatches(SONG_FLAC) by {
      assert EqIgnoreAsciiCase("flac", "flac");
    }
    assert PrepareLyricsRequest(TAGS_A_T) == Ok(REQUEST_A_T);
    var afterLyrics := EntryStep(files, SONG_FLAC, REQUEST_A_T, LyricsAnswer(Some("la la"), Some(false)), false, NO_FAULTS).files;
    assert afterLyrics == files[SONG_LRC := "la la"] - {SONG_NOLRC};
    assert afterLyrics == map[SONG_FLAC := content, SONG_LRC := "la la"];
  }

  /** `song.flac` next to a `song.nolrc`, under `LrcMissing`, is skipped before any fetch. */
  lemma NolrcTrackNotFetched(content: string, tags: TagReads)
    ensures Classify(Entry(SONG_FLAC, true), DefaultConfig(LrcMissing, false),
                     map[SONG_FLAC := content, SONG_NOLRC := ""], tags) == Ok(None)
  {
    assert SetExtension(SONG_FLAC, "nolrc") == SONG_NOLRC;
  }

  /**
   * Under `OverwriteExceptNolrc` the two sidecars can coexist: a track with a
   * `.lrc` is fetched again, and a 404 then adds a `.nolrc` beside it.
   */
  lemma BothSidecarsUnderOverwrite(content: string)
    ensures var files := map[SONG_FLAC := content, SONG_LRC := "old"];
      var entry := Entry(SONG_FLAC, true);
      var tags := TagReads(Ok(TAGS_A_T), Err(Lofty("unused")));
      var after := EntryStep(files, SONG_FLAC, REQUEST_A_T, NOT_FOUND_ANSWER, false, NO_FAULTS).files;
      && Classify(entry, DefaultConfig(OverwriteExceptNolrc, false), files, tags) == Ok(Some((REQUEST_A_T, entry)))
      && HasLrcSidecar(after, SONG_FLAC) && HasNolrcSidecar(after, SONG_FLAC)
  {
    assert SONG_FLAC != SONG_LRC && SONG_FLAC != SONG_NOLRC && SONG_LRC != SONG_NOLRC;
    assert ExtMatches(SONG_FLAC) by {
      assert EqIgnoreAsciiCase("flac", "flac");
    }
    assert PrepareLyricsRequest(TAGS_A_T) == Ok(REQUEST_A_T);
  }

  // ---------------------------------------------------------------- the writer tests of src/lib.rs

  /**
   * The tests start from a temporary file with no extension and work on its
   * `.flac` sibling, which does not exist; its sidecars are those of the
   * temporary file.
   */
  predicate TempFileSetup(files: Files, temp: Path) {
    HasFileName(temp) && Extension(temp).None? && temp in files
  }

  /** `test_create_nolrc`: succeeds, the temporary file stays, and its `.nolrc` now exists. */
  lemma CreateNolrcTest(files: Files, temp: Path)
    requires TempFileSetup(files, temp)
    ensures var clone := SetExtension(temp, "flac");
      var s := CreateNolrcStep(files, clone, None);
      && s.result.Ok?
      && SameAt(files, s.files, temp)
      && SetExtension(clone, "nolrc") == SetExtension(temp, "nolrc")
      && SetExtension(temp, "nolrc") in s.files
  {
    var clone := SetExtension(temp, "flac");
    SetExtensionTwice(temp, "flac", "nolrc");
    SetExtensionFixedPoint(temp, "nolrc");
    CreateNolrcEffect(files, clone, None);
  }

  /**
   * `test_replace_nolrc_halfway`: with no `.nolrc` the call reports a failed
   * delete, yet the `.lrc` holds exactly the lyrics, the temporary file stays
   * and there is no `.nolrc`.
   */
  lemma ReplaceNolrcHalfwayTest(files: Files, temp: Path, lyrics: string)
    requires TempFileSetup(files, temp) && SetExtension(temp, "nolrc") !in files
    ensures var clone := SetExtension(temp, "flac");
      var s := ReplaceNolrcStep(files, clone, lyrics, NO_FAULTS);
      && s.result.Err? && s.result.error.Delete?
      && SameAt(files, s.files, temp)
      && SetExtension(temp, "lrc") in s.files && s.files[SetExtension(temp, "lrc")] == lyrics
      && SetExtension(temp, "nolrc") !in s.files
  {
    var clone := SetExtension(temp, "flac");
    SetExtensionTwice(temp, "flac", "nolrc");
    SetExtensionTwice(temp, "flac", "lrc");
    SetExtensionFixedPoint(temp, "nolrc");
    SetExtensionFixedPoint(temp, "lrc");
    ReplaceNolrcEffect(files, clone, lyrics, NO_FAULTS);
  }

  /**
   * `test_replace_nolrc_fully`: `create_nolrc` then `replace_nolrc` both
   * succeed, leaving the `.lrc` with exactly the lyrics, no `.nolrc`, and the
   * temporary file as it was.
   */
  lemma ReplaceNolrcFullyTest(files: Files, temp: Path, lyrics: string)
    requires TempFileSetup(files, temp)
    ensures var clone := SetExtension(temp, "flac");
      var created := CreateNolrcStep(files, clone, None);
      var s := ReplaceNolrcStep(created.files, clone, lyrics, NO_FAULTS);
      && created.result.Ok? && s.result == Ok(())
      && SameAt(files, s.files, temp)
      && SetExtension(temp, "lrc") in s.files && s.files[SetExtension(temp, "lrc")] == lyrics
      && SetExtension(temp, "nolrc") !in s.files
  {
    var clone := SetExtension(temp, "flac");
    SetExtensionTwice(temp, "flac", "nolrc");
    SetExtensionTwice(temp, "flac", "lrc");
    SetExtensionFixedPoint(temp, "nolrc");
    SetExtensionFixedPoint(temp, "lrc");
    var created := CreateNolrcStep(files, clone, None);
    CreateNolrcEffect(files, clone, None);
    ReplaceNolrcEffect(created.files, clone, lyrics, NO_FAULTS);
    assert SameAt(files, created.files, temp);
  }
}
