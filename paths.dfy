/**
 * A model of the parts of Rust's `std::path::PathBuf` that the sidecar logic
 * relies on: a path is its parent directories plus an optional file name, and
 * a file name is a stem plus an optional (last) extension, so the model keeps
 * a path in the parsed form that `file_stem()` and `extension()` report.
 */
module Paths {
  import opened Wrappers

  /** An OS string: either valid UTF-8 text or raw bytes that are not UTF-8. */
  datatype OsStr = Utf8(text: string) | NotUtf8(bytes: seq<bv8>)

  datatype FileName = FileName(stem: OsStr, ext: Option<OsStr>)

  /** `name` is `None` for paths such as `/` or `a/..` that end in no file name. */
  datatype Path = Path(dirs: seq<OsStr>, name: Option<FileName>)

  /** The regular files on disk, with their contents. */
  type Files = map<Path, string>

  predicate HasFileName(p: Path) {
    p.name.Some?
  }

  /** `Path::extension`. */
  function Extension(p: Path): Option<OsStr> {
    if p.name.Some? then p.name.value.ext else None
  }

  /** `Path::file_stem`. */
  function FileStem(p: Path): Option<OsStr> {
    if p.name.Some? then Some(p.name.value.stem) else None
  }

  /**
   * The path `PathBuf::set_extension(ext)` leaves behind. With no file name the
   * call does nothing (and Rust returns `false`); otherwise the last extension
   * is replaced, or removed when `ext` is empty.
   */
  function SetExtension(p: Path, ext: string): (r: Path)
    ensures r.dirs == p.dirs && FileStem(r) == FileStem(p)
    ensures HasFileName(r) == HasFileName(p)
    ensures !HasFileName(p) ==> r == p
    ensures HasFileName(p) && ext != "" ==> Extension(r) == Some(Utf8(ext))
    ensures HasFileName(p) && ext == "" ==> Extension(r) == None
  {
    match p.name
    case None => p
    case Some(n) => Path(p.dirs, Some(FileName(n.stem, if ext == "" then None else Some(Utf8(ext)))))
  }

  /** Setting an extension twice keeps only the second one. */
  lemma SetExtensionTwice(p: Path, a: string, b: string)
    ensures SetExtension(SetExtension(p, a), b) == SetExtension(p, b)
  {
  }

  /** Two paths that differ only in their (non-empty) extension are different files. */
  lemma SetExtensionDistinct(p: Path, a: string, b: string)
    requires HasFileName(p) && a != "" && b != "" && a != b
    ensures SetExtension(p, a) != SetExtension(p, b)
  {
    assert Extension(SetExtension(p, a)) != Extension(SetExtension(p, b));
  }

  /**
   * Setting extension `e` moves a path away from itself exactly when its extension is
   * not already `e`: a track named `x.lrc` is its own lyrics sidecar.
   */
  lemma SetExtensionFixedPoint(p: Path, e: string)
    requires HasFileName(p) && e != ""
    ensures SetExtension(p, e) == p <==> Extension(p) == Some(Utf8(e))
  {
    if Extension(p) == Some(Utf8(e)) {
      assert SetExtension(p, e).name == p.name;
    }
  }

  /** Two paths with the same `a` sibling have the same siblings for every extension. */
  lemma SameSiblings(p: Path, q: Path, a: string, b: string)
    requires HasFileName(p) && a != ""
    requires SetExtension(q, a) == SetExtension(p, a)
    ensures SetExtension(q, b) == SetExtension(p, b)
  {
    assert HasFileName(q);
  }

  /** The code units of an OS string, enough to find its dots: `.` is 46 both as a char and as a byte. */
  function Units(s: OsStr): seq<int> {
    match s
    case Utf8(t) => seq(|t|, i requires 0 <= i < |t| => t[i] as int)
    case NotUtf8(b) => seq(|b|, i requires 0 <= i < |b| => b[i] as int)
  }

  const DOT := 46

  /**
   * The split `file_stem()` and `extension()` report for a real file name: it
   * is made at the last dot, so an extension holds no dot; a name without an
   * extension has no dot after its first character (the leading dot of
   * `.hidden` starts no extension); the stem is never empty, and `.` is not a
   * file name.
   */
  predicate CanonicalName(n: FileName) {
    var stem := Units(n.stem);
    && stem != []
    && match n.ext
       case Some(e) => DOT !in Units(e)
       case None => DOT !in stem[1..] && stem != [DOT]
  }

  /** A path in the one parsed form a Rust path has. */
  predicate Canonical(p: Path) {
    p.name.Some? ==> CanonicalName(p.name.value)
  }

  /**
   * Setting a non-empty extension without a dot, as `lrc` and `nolrc` are,
   * keeps a path in its parsed form, so a sidecar has one key on the disk.
   */
  lemma SetExtensionCanonical(p: Path, ext: string)
    requires Canonical(p) && ext != "" && '.' !in ext
    ensures Canonical(SetExtension(p, ext))
  {
    if HasFileName(p) {
      var u := Units(Utf8(ext));
      forall k | 0 <= k < |u| ensures u[k] != DOT {
        assert ext[k] != '.';
      }
    }
  }
}
