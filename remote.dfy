/**
 * The remote lyrics service as the core sees it (src/remote/common.rs): the
 * request and response records, the error taxonomy, the "usable lyrics" rule
 * that `Display` prints, and the wire names of the fields. The HTTP client and
 * the JSON/query encoders are not part of this model.
 */
module Remote {
  import opened Wrappers

  /** `std::time::Duration`, kept to whole seconds. */
  type Duration = nat

  datatype LyricsRequest = LyricsRequest(
    artist: string,
    title: string,
    album: Option<string>,
    duration: Option<Duration>)

  datatype LyricsResponse = LyricsResponse(
    id: Option<nat>,
    title: string,
    artist: string,
    album: Option<string>,
    duration: Option<Duration>,
    instrumental: Option<bool>,
    plainLyrics: Option<string>,
    syncedLyrics: Option<string>)

  /** `reqwest` errors are opaque; only their descriptions are kept. */
  datatype LyricsError =
    | InvalidRequest(detail: string)
    | Misc(detail: string)
    | InvalidStatusCode(status: nat, url: string)

  type RemoteResult = Result<LyricsResponse, LyricsError>

  /** `reqwest::StatusCode::NOT_FOUND`. */
  const NOT_FOUND: nat := 404

  const LYRICS_PRESENT: string := "LYRICS PRESENT"
  const NO_LYRICS: string := "NO LYRICS"

  /** `Option::or`. */
  function OrElse<T>(a: Option<T>, b: Option<T>): Option<T> {
    if a.Some? then a else b
  }

  /**
   * The lyrics `Display` considers present: synced lyrics, else plain lyrics,
   * kept only when `instrumental.unwrap_or(false)` is false.
   */
  function UsableLyrics(r: LyricsResponse): (lyrics: Option<string>)
    ensures lyrics.Some? <==>
      (r.syncedLyrics.Some? || r.plainLyrics.Some?) && r.instrumental != Some(true)
    ensures lyrics.Some? && r.syncedLyrics.Some? ==> lyrics == r.syncedLyrics
    ensures lyrics.Some? && r.syncedLyrics.None? ==> lyrics == r.plainLyrics
  {
    var candidate := OrElse(r.syncedLyrics, r.plainLyrics);
    var instrumental := if r.instrumental.Some? then r.instrumental.value else false;
    if candidate.Some? && !instrumental then candidate else None
  }

  /** `impl Display for LyricsResponse`. */
  function Display(r: LyricsResponse): string {
    "title: " + r.title + ", artist: " + r.artist + ", "
      + (if UsableLyrics(r).Some? then LYRICS_PRESENT else NO_LYRICS)
  }

  /**
   * The printed form starts with the title and artist, and ends with exactly
   * one of the two markers, which one depending on whether usable lyrics exist.
   */
  lemma DisplayShape(r: LyricsResponse)
    ensures var prefix := "title: " + r.title + ", artist: " + r.artist + ", ";
      && |prefix| <= |Display(r)|
      && Display(r)[..|prefix|] == prefix
      && (UsableLyrics(r).Some? <==> Display(r)[|prefix|..] == LYRICS_PRESENT)
      && (UsableLyrics(r).None? <==> Display(r)[|prefix|..] == NO_LYRICS)
  {
    var prefix := "title: " + r.title + ", artist: " + r.artist + ", ";
    var marker := if UsableLyrics(r).Some? then LYRICS_PRESENT else NO_LYRICS;
    assert Display(r) == prefix + marker;
    assert Display(r)[..|prefix|] == prefix;
    assert Display(r)[|prefix|..] == marker;
    assert LYRICS_PRESENT != NO_LYRICS by { assert LYRICS_PRESENT[0] != NO_LYRICS[0]; }
  }

  /** `instrumental: None` is read as "not instrumental". */
  lemma UnknownInstrumentalIsNotInstrumental(r: LyricsResponse)
    requires r.instrumental.None?
    ensures UsableLyrics(r) == UsableLyrics(r.(instrumental := Some(false)))
  {
  }

  /** The fields of a request, with the query-string keys serde gives them. */
  datatype RequestField = ArtistField | TitleField | AlbumField | DurationField

  function QueryKey(f: RequestField): string {
    match f
    case ArtistField => "artist_name"
    case TitleField => "track_name"
    case AlbumField => "album_name"
    case DurationField => "duration"
  }

  /** The fields of a response, with the JSON keys serde reads them from. */
  datatype ResponseField =
    | IdField | TrackNameField | ArtistNameField | AlbumNameField | DurationSecsField
    | InstrumentalField | PlainLyricsField | SyncedLyricsField

  function JsonKey(f: ResponseField): string {
    match f
    case IdField => "id"
    case TrackNameField => "trackName"
    case ArtistNameField => "artistName"
    case AlbumNameField => "albumName"
    case DurationSecsField => "duration"
    case InstrumentalField => "instrumental"
    case PlainLyricsField => "plainLyrics"
    case SyncedLyricsField => "syncedLyrics"
  }

  /**
   * The query pairs of the string fields of a request, in declaration order; an
   * absent album is left out of the query (serde skips `None`). The duration,
   * serialized as an `f32`, is not part of this model.
   */
  function QueryPairs(req: LyricsRequest): (q: seq<(string, string)>)
    ensures |q| == if req.album.Some? then 3 else 2
    ensures q[0] == (QueryKey(ArtistField), req.artist)
    ensures q[1] == (QueryKey(TitleField), req.title)
    ensures req.album.Some? ==> q[2] == (QueryKey(AlbumField), req.album.value)
  {
    [("artist_name", req.artist), ("track_name", req.title)]
      + (if req.album.Some? then [("album_name", req.album.value)] else [])
  }

  /** The request field serialized under a query key, if any. */
  function RequestFieldOf(key: string): Option<RequestField> {
    if key == "artist_name" then Some(ArtistField)
    else if key == "track_name" then Some(TitleField)
    else if key == "album_name" then Some(AlbumField)
    else if key == "duration" then Some(DurationField)
    else None
  }

  /** Each request field is recovered from its query key, so no two fields share one. */
  lemma QueryKeyRoundTrip(f: RequestField)
    ensures RequestFieldOf(QueryKey(f)) == Some(f)
    ensures forall g :: QueryKey(g) == QueryKey(f) ==> g == f
  {
    forall g | QueryKey(g) == QueryKey(f) ensures g == f {
      match g
      case ArtistField =>
      case TitleField =>
      case AlbumField =>
      case DurationField =>
    }
  }

  /** The response field a JSON key deserializes into, if any (other keys are ignored). */
  function ResponseFieldOf(key: string): Option<ResponseField> {
    if key == "id" then Some(IdField)
    else if key == "trackName" then Some(TrackNameField)
    else if key == "artistName" then Some(ArtistNameField)
    else if key == "albumName" then Some(AlbumNameField)
    else if key == "duration" then Some(DurationSecsField)
    else if key == "instrumental" then Some(InstrumentalField)
    else if key == "plainLyrics" then Some(PlainLyricsField)
    else if key == "syncedLyrics" then Some(SyncedLyricsField)
    else None
  }

  /** Each response field is recovered from its JSON key, so no two fields share one. */
  lemma JsonKeyRoundTrip(f: ResponseField)
    ensures ResponseFieldOf(JsonKey(f)) == Some(f)
    ensures forall g :: JsonKey(g) == JsonKey(f) ==> g == f
  {
    forall g | JsonKey(g) == JsonKey(f) ensures g == f {
      assert ResponseFieldOf(JsonKey(g)) == Some(g);
    }
  }
}
