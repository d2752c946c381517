/**
 * The sidecar writer and the fetch loop (src/op/mod.rs; the older copy in
 * src/lib.rs has the same logic). For each accepted track the task takes a
 * permit, asks the remote once, gives the permit back, and then writes
 * `name.lrc`, creates `name.nolrc`, or leaves the disk alone.
 *
 * The disk is a map from paths to contents; every file operation may be told
 * to fail with a given error kind. The remote is the scripted one of the
 * tests: each call returns the next response of a sequence.
 */
module Sidecar {
  import opened Wrappers
  import opened Paths
  import opened Remote
  import Classifier

  /** The `std::io::ErrorKind`s the writer distinguishes. */
  datatype ErrorKind = NotFound | AlreadyExists | PermissionDenied | OtherIo

  /** Failures injected into one task's write, remove and open calls (`None`: the call goes ahead). */
  datatype Faults = Faults(write: Option<ErrorKind>, remove: Option<ErrorKind>, open: Option<ErrorKind>)

  const NO_FAULTS := Faults(None, None, None)

  /** What a task does, in order; file events are recorded when the call is attempted. */
  datatype Event =
    | Acquired
    | Fetched(request: LyricsRequest)
    | Released
    | WriteAttempt(path: Path)
    | RemoveAttempt(path: Path)
    | OpenAttempt(path: Path)

  predicate IsFileEvent(e: Event) {
    e.WriteAttempt? || e.RemoveAttempt? || e.OpenAttempt?
  }

  datatype ReplaceNolrcError = Write(kind: ErrorKind) | Delete(kind: ErrorKind)

  datatype TaskOutcome = Completed | Panicked

  /** The four ways `handle_entry` can treat a remote outcome. */
  datatype Decision = UseLyrics(lyrics: string) | MarkAbsent | Fatal | LogOnly

  /**
   * The response match of `handle_entry`: synced lyrics, then plain lyrics, when
   * `instrumental` is `Some(false)` or `None`; any other response, and a 404,
   * mean "no lyrics"; an invalid request is fatal; other errors are only logged.
   */
  function Decide(response: RemoteResult): Decision {
    match response
    case Ok(r) =>
      var notInstrumental := r.instrumental == Some(false) || r.instrumental == None;
      if r.syncedLyrics.Some? && notInstrumental then UseLyrics(r.syncedLyrics.value)
      else if r.plainLyrics.Some? && notInstrumental then UseLyrics(r.plainLyrics.value)
      else MarkAbsent
    case Err(InvalidStatusCode(status, _)) => if status == NOT_FOUND then MarkAbsent else LogOnly
    case Err(InvalidRequest(_)) => Fatal
    case Err(Misc(_)) => LogOnly
  }

  /** The writer's lyrics branch and `Display`'s "LYRICS PRESENT" are the same rule, picking the same text. */
  lemma DecideAgreesWithDisplay(r: LyricsResponse)
    ensures Decide(Ok(r)).UseLyrics? <==> UsableLyrics(r).Some?
    ensures Decide(Ok(r)).UseLyrics? ==> Decide(Ok(r)).lyrics == UsableLyrics(r).value
    ensures !Decide(Ok(r)).UseLyrics? ==> Decide(Ok(r)) == MarkAbsent
  {
  }

  // ---------------------------------------------------------------- effects as values

  /** The files, the events and the result one operation leaves. */
  datatype Step<R> = Step(files: Files, events: seq<Event>, result: R)

  /** What `remove_file` reports: an injected failure, `NotFound` for a missing file, or success. */
  function RemoveOutcome(files: Files, p: Path, fault: Option<ErrorKind>): Option<ErrorKind> {
    if fault.Some? then fault else if p !in files then Some(NotFound) else None
  }

  /** `replace_nolrc`: write `name.lrc`; only if that worked, remove `name.nolrc`. */
  function ReplaceNolrcStep(files: Files, path: Path, lyrics: string, f: Faults): Step<Result<(), ReplaceNolrcError>> {
    var lrc := SetExtension(path, "lrc");
    if f.write.Some? then Step(files, [WriteAttempt(lrc)], Err(Write(f.write.value)))
    else
      var written := files[lrc := lyrics];
      var nolrc := SetExtension(lrc, "nolrc");
      var removed := RemoveOutcome(written, nolrc, f.remove);
      Step(if removed.None? then written - {nolrc} else written,
           [WriteAttempt(lrc), RemoveAttempt(nolrc)],
           if removed.None? then Ok(()) else Err(Delete(removed.value)))
  }

  /** `create_nolrc`: open `name.nolrc` with create and without truncate. */
  function CreateNolrcStep(files: Files, path: Path, fault: Option<ErrorKind>): Step<Result<(), ErrorKind>> {
    var nolrc := SetExtension(path, "nolrc");
    if fault.Some? then Step(files, [OpenAttempt(nolrc)], Err(fault.value))
    else Step(if nolrc in files then files else files[nolrc := ""], [OpenAttempt(nolrc)], Ok(()))
  }

  /** The permit events every task starts with, whatever the remote answers. */
  function FetchEvents(request: LyricsRequest): seq<Event> {
    [Acquired, Fetched(request), Released]
  }

  /** `handle_entry` for one track, given the remote's answer. */
  function EntryStep(files: Files, path: Path, request: LyricsRequest, response: RemoteResult,
                     denyNolrc: bool, f: Faults): Step<TaskOutcome>
  {
    match Decide(response)
    case UseLyrics(lyrics) =>
      var s := ReplaceNolrcStep(files, path, lyrics, f);
      Step(s.files, FetchEvents(request) + s.events, Completed)
    case MarkAbsent =>
      if denyNolrc then Step(files, FetchEvents(request), Completed)
      else
        var s := CreateNolrcStep(files, path, f.open);
        Step(s.files, FetchEvents(request) + s.events, Completed)
    case Fatal => Step(files, FetchEvents(request), Panicked)
    case LogOnly => Step(files, FetchEvents(request), Completed)
  }

  /** The number of packs that carry a request. */
  function OkCount(packs: seq<Classifier.PackResult>): (n: nat)
    ensures n <= |packs|
  {
    if packs == [] then 0
    else (if packs[0].Ok? then 1 else 0) + OkCount(packs[1..])
  }

  /** The requests of the packs that carry one, in order. */
  function Requests(packs: seq<Classifier.PackResult>): (rs: seq<LyricsRequest>)
    ensures |rs| == OkCount(packs)
  {
    if packs == [] then []
    else (if packs[0].Ok? then [packs[0].value.0] else []) + Requests(packs[1..])
  }

  /** One task of the run, on top of what the earlier tasks left. */
  function RunTask(prev: Step<bool>, pack: (LyricsRequest, Classifier.Entry), response: RemoteResult,
                   denyNolrc: bool, f: Faults): Step<bool>
  {
    var s := EntryStep(prev.files, pack.1.path, pack.0, response, denyNolrc, f);
    Step(s.files, prev.events + s.events, prev.result || s.result == Panicked)
  }

  /**
   * The rest of a run from state `prev`: the next `Ok` pack is handled with the
   * next scripted response and its own faults; `Err` packs are dropped.
   */
  function Run(prev: Step<bool>, packs: seq<Classifier.PackResult>, script: seq<RemoteResult>,
               denyNolrc: bool, plan: seq<Faults>): Step<bool>
    requires |plan| == |packs| && OkCount(packs) <= |script|
    decreases |packs|
  {
    if packs == [] then prev
    else match packs[0]
      case Err(_) => Run(prev, packs[1..], script, denyNolrc, plan[1..])
      case Ok(pack) => Run(RunTask(prev, pack, script[0], denyNolrc, plan[0]), packs[1..], script[1..], denyNolrc, plan[1..])
  }

  /**
   * `handle_all` run one task after another, from the given disk and an empty
   * log. The result says whether some task panicked.
   */
  function RunStep(files: Files, packs: seq<Classifier.PackResult>, script: seq<RemoteResult>,
                   denyNolrc: bool, plan: seq<Faults>): Step<bool>
    requires |plan| == |packs| && OkCount(packs) <= |script|
  {
    Run(Step(files, [], false), packs, script, denyNolrc, plan)
  }

  // ---------------------------------------------------------------- the imperative model

  /**
   * The disk, the remote and the semaphore as the fetch loop sees them.
   * `script` and `calls` are the scripted remote of the tests (its remaining
   * responses and its call count); `permits` counts the free permits of a
   * semaphore of capacity `limit`.
   */
  class World {
    var files: Files
    var log: seq<Event>
    var script: seq<RemoteResult>
    var calls: nat
    var permits: nat
    const limit: nat

    ghost predicate Valid()
      reads this
    {
      0 < limit && permits <= limit
    }

    constructor (files: Files, script: seq<RemoteResult>, limit: nat)
      requires 0 < limit
      ensures Valid() && permits == limit
      ensures this.files == files && this.script == script && this.limit == limit
      ensures log == [] && calls == 0
    {
      this.files := files;
      this.script := script;
      this.limit := limit;
      log := [];
      calls := 0;
      permits := limit;
    }

    /** Awaiting the permit future: one fewer free permit. */
    method AcquirePermit()
      requires Valid() && 0 < permits
      modifies this`permits, this`log
      ensures Valid() && permits == old(permits) - 1
      ensures log == old(log) + [Acquired]
    {
      permits := permits - 1;
      log := log + [Acquired];
    }

    /** `drop(permit)`. */
    method ReleasePermit()
      requires Valid() && permits < limit
      modifies this`permits, this`log
      ensures Valid() && permits == old(permits) + 1
      ensures log == old(log) + [Released]
    {
      permits := permits + 1;
      log := log + [Released];
    }

    /** `Remote::get_lyrics` of the scripted remote: the next response, counted. */
    method GetLyrics(request: LyricsRequest) returns (response: RemoteResult)
      requires script != []
      modifies this`script, this`calls, this`log
      ensures response == old(script)[0] && script == old(script)[1..]
      ensures calls == old(calls) + 1
      ensures log == old(log) + [Fetched(request)]
    {
      response := script[0];
      script := script[1..];
      calls := calls + 1;
      log := log + [Fetched(request)];
    }

    /** `tokio::fs::write`: create or replace the file with exactly `contents`. */
    method Write(path: Path, contents: string, fault: Option<ErrorKind>) returns (err: Option<ErrorKind>)
      modifies this`files, this`log
      ensures err == fault
      ensures files == if fault.None? then old(files)[path := contents] else old(files)
      ensures log == old(log) + [WriteAttempt(path)]
    {
      err := fault;
      if fault.None? {
        files := files[path := contents];
      }
      log := log + [WriteAttempt(path)];
    }

    /** `tokio::fs::remove_file`. */
    method Remove(path: Path, fault: Option<ErrorKind>) returns (err: Option<ErrorKind>)
      modifies this`files, this`log
      ensures err == RemoveOutcome(old(files), path, fault)
      ensures files == if err.None? then old(files) - {path} else old(files)
      ensures log == old(log) + [RemoveAttempt(path)]
    {
      if fault.Some? {
        err := fault;
      } else if path !in files {
        err := Some(NotFound);
      } else {
        err := None;
        files := files - {path};
      }
      log := log + [RemoveAttempt(path)];
    }

    /** `OpenOptions::new().create(true).write(true).truncate(false).open`. */
    method OpenCreate(path: Path, fault: Option<ErrorKind>) returns (err: Option<ErrorKind>)
      modifies this`files, this`log
      ensures err == fault
      ensures files == if fault.None? && path !in old(files) then old(files)[path := ""] else old(files)
      ensures log == old(log) + [OpenAttempt(path)]
    {
      err := fault;
      if fault.None? && path !in files {
        files := files[path := ""];
      }
      log := log + [OpenAttempt(path)];
    }

    /**
     * `replace_nolrc`: rewrites `path` in place to `name.lrc` and writes the
     * lyrics; on success rewrites it to `name.nolrc` and removes that file.
     */
    method ReplaceNolrc(path: Path, lyrics: string, f: Faults) returns (res: Result<(), ReplaceNolrcError>, path': Path)
      modifies this`files, this`log
      ensures var s := ReplaceNolrcStep(old(files), path, lyrics, f);
        files == s.files && log == old(log) + s.events && res == s.result
      ensures path' == SetExtension(path, if f.write.Some? then "lrc" else "nolrc")
    {
      path' := SetExtension(path, "lrc");
      var err := Write(path', lyrics, f.write);
      if err.Some? {
        return Err(ReplaceNolrcError.Write(err.value)), path';
      }
      SetExtensionTwice(path, "lrc", "nolrc");
      path' := SetExtension(path', "nolrc");
      err := Remove(path', f.remove);
      if err.Some? {
        return Err(Delete(err.value)), path';
      }
      return Ok(()), path';
    }

    /** `create_nolrc`: rewrites `path` in place to `name.nolrc` and opens it with create. */
    method CreateNolrc(path: Path, fault: Option<ErrorKind>) returns (res: Result<(), ErrorKind>, path': Path)
      modifies this`files, this`log
      ensures var s := CreateNolrcStep(old(files), path, fault);
        files == s.files && log == old(log) + s.events && res == s.result
      ensures path' == SetExtension(path, "nolrc")
    {
      path' := SetExtension(path, "nolrc");
      var err := OpenCreate(path', fault);
      res := if err.Some? then Err(err.value) else Ok(());
    }

    /**
     * `handle_entry`: await a permit, fetch, drop the permit, then act on the
     * answer. Run alone, so every permit is free when it starts.
     */
    method HandleEntry(request: LyricsRequest, path: Path, denyNolrc: bool, f: Faults) returns (outcome: TaskOutcome)
      requires Valid() && permits == limit && script != []
      modifies this`files, this`log, this`script, this`calls, this`permits
      ensures Valid() && permits == limit
      ensures script == old(script)[1..] && calls == old(calls) + 1
      ensures var s := EntryStep(old(files), path, request, old(script)[0], denyNolrc, f);
        files == s.files && log == old(log) + s.events && outcome == s.result
    {
      AcquirePermit();
      var response := GetLyrics(request);
      ReleasePermit();
      assert log == old(log) + FetchEvents(request);
      match Decide(response) {
        case UseLyrics(lyrics) =>
          var res, _ := ReplaceNolrc(path, lyrics, f);
          outcome := Completed;
        case MarkAbsent =>
          if !denyNolrc {
            var res, _ := CreateNolrc(path, f.open);
          }
          outcome := Completed;
        case Fatal =>
          outcome := Panicked;
        case LogOnly =>
          outcome := Completed;
      }
    }

    /**
     * `handle_all`, one task at a time: each `Ok` pack gets one task, `Err`
     * packs are dropped. `plan` gives each pack's injected faults. Returns
     * whether some task panicked (which makes `join_all` panic).
     */
    method HandleAll(packs: seq<Classifier.PackResult>, denyNolrc: bool, plan: seq<Faults>) returns (panicked: bool)
      requires Valid() && permits == limit
      requires |plan| == |packs| && OkCount(packs) <= |script|
      modifies this`files, this`log, this`script, this`calls, this`permits
      ensures Valid() && permits == limit
      ensures calls == old(calls) + OkCount(packs)
      ensures script == old(script)[OkCount(packs)..]
      ensures var s := RunStep(old(files), packs, old(script), denyNolrc, plan);
        files == s.files && log == old(log) + s.events && panicked == s.result
    {
      panicked := false;
      var i := 0;
      ghost var run := Step(old(files), [], false);
      ghost var used := 0;
      while i < |packs|
        invariant 0 <= i <= |packs|
        invariant Valid() && permits == limit
        invariant used + OkCount(packs[i..]) == OkCount(packs)
        invariant calls == old(calls) + used && script == old(script)[used..]
        invariant Run(run, packs[i..], script, denyNolrc, plan[i..]) == RunStep(old(files), packs, old(script), denyNolrc, plan)
        invariant files == run.files && log == old(log) + run.events && panicked == run.result
      {
        assert packs[i..][1..] == packs[i + 1..];
        assert plan[i..][1..] == plan[i + 1..];
        if packs[i].Ok? {
          var (request, entry) := packs[i].value;
          ghost var response := script[0];
          ghost var step := EntryStep(files, entry.path, request, response, denyNolrc, plan[i]);
          ghost var before := run.events;
          var outcome := HandleEntry(request, entry.path, denyNolrc, plan[i]);
          panicked := panicked || outcome == Panicked;
          run := RunTask(run, packs[i].value, response, denyNolrc, plan[i]);
          assert old(script)[used..][1..] == old(script)[used + 1..];
          used := used + 1;
          assert run.events == before + step.events;
          assert old(log) + (before + step.events) == (old(log) + before) + step.events;
        }
        i := i + 1;
      }
    }
  }

  // ---------------------------------------------------------------- the writer's promises

  /**
   * `replace_nolrc` attempts the `.lrc` write first; the `.nolrc` delete is
   * attempted only after a successful write, and a failed write is reported as
   * `Write` with nothing changed.
   */
  lemma ReplaceNolrcOrder(files: Files, path: Path, lyrics: string, f: Faults)
    ensures var s := ReplaceNolrcStep(files, path, lyrics, f);
      && 1 <= |s.events| <= 2
      && s.events[0] == WriteAttempt(SetExtension(path, "lrc"))
      && (|s.events| == 2 <==> f.write.None?)
      && (|s.events| == 2 ==> s.events[1] == RemoveAttempt(SetExtension(path, "nolrc")))
      && (f.write.Some? ==> s.files == files && s.result == Err(Write(f.write.value)))
  {
    SetExtensionTwice(path, "lrc", "nolrc");
  }

  /** Whether `q` has the same presence and content in both maps. */
  predicate SameAt(a: Files, b: Files, q: Path) {
    (q in a <==> q in b) && (q in a ==> a[q] == b[q])
  }

  /**
   * After a successful write `name.lrc` holds exactly the lyrics, also when the
   * delete fails. `name.nolrc` is gone unless the delete failed for a reason
   * other than the file being missing. The result is `Ok` only when a
   * `.nolrc` was there and removed; a missing one gives `Delete(NotFound)`.
   * No other file changes.
   */
  lemma ReplaceNolrcEffect(files: Files, path: Path, lyrics: string, f: Faults)
    requires HasFileName(path)
    ensures var s := ReplaceNolrcStep(files, path, lyrics, f);
      var lrc := SetExtension(path, "lrc");
      var nolrc := SetExtension(path, "nolrc");
      && (f.write.None? ==> lrc in s.files && s.files[lrc] == lyrics)
      && (f.write.None? ==> (nolrc in s.files <==> f.remove.Some? && nolrc in files))
      && (f.write.None? ==> (s.result == Ok(()) <==> f.remove.None? && nolrc in files))
      && (f.write.None? && f.remove.None? && nolrc !in files ==> s.result == Err(Delete(NotFound)))
      && (forall q :: q != lrc && q != nolrc ==> SameAt(files, s.files, q))
  {
    SetExtensionTwice(path, "lrc", "nolrc");
    SetExtensionDistinct(path, "lrc", "nolrc");
  }

  /**
   * `create_nolrc` leaves `name.nolrc` present: an existing one keeps its
   * content, a new one is empty. It succeeds unless the open itself fails, and
   * no other file changes.
   */
  lemma CreateNolrcEffect(files: Files, path: Path, fault: Option<ErrorKind>)
    ensures var s := CreateNolrcStep(files, path, fault);
      var nolrc := SetExtension(path, "nolrc");
      && (s.result.Ok? <==> fault.None?)
      && (fault.None? ==> nolrc in s.files)
      && (fault.None? && nolrc in files ==> s.files[nolrc] == files[nolrc])
      && (fault.None? && nolrc !in files ==> s.files[nolrc] == "")
      && (forall q :: q != nolrc ==> SameAt(files, s.files, q))
  {
  }

  /** Creating the absence marker twice is the same as creating it once, and both calls succeed. */
  lemma CreateNolrcIdempotent(files: Files, path: Path)
    ensures var once := CreateNolrcStep(files, path, None);
      var twice := CreateNolrcStep(once.files, path, None);
      twice.files == once.files && once.result.Ok? && twice.result.Ok?
  {
  }

  /**
   * Replacing with the same lyrics twice leaves the disk as once; the second
   * call reports the `.nolrc` as not found.
   */
  lemma ReplaceNolrcIdempotent(files: Files, path: Path, lyrics: string)
    requires HasFileName(path)
    ensures var once := ReplaceNolrcStep(files, path, lyrics, NO_FAULTS);
      var twice := ReplaceNolrcStep(once.files, path, lyrics, NO_FAULTS);
      twice.files == once.files && twice.result == Err(Delete(NotFound))
  {
    var once := ReplaceNolrcStep(files, path, lyrics, NO_FAULTS);
    var twice := ReplaceNolrcStep(once.files, path, lyrics, NO_FAULTS);
    ReplaceNolrcEffect(files, path, lyrics, NO_FAULTS);
    ReplaceNolrcEffect(once.files, path, lyrics, NO_FAULTS);
    SetExtensionTwice(path, "lrc", "nolrc");
    var lrc := SetExtension(path, "lrc");
    var nolrc := SetExtension(path, "nolrc");
    assert once.files.Keys == twice.files.Keys by {
      forall q ensures q in once.files <==> q in twice.files {
        if q != lrc && q != nolrc { assert SameAt(once.files, twice.files, q); }
      }
    }
    forall q | q in once.files ensures once.files[q] == twice.files[q] {
      if q != lrc && q != nolrc { assert SameAt(once.files, twice.files, q); }
    }
  }

  /** The track's own sidecars. */
  predicate HasLrcSidecar(files: Files, track: Path) { SetExtension(track, "lrc") in files }
  predicate HasNolrcSidecar(files: Files, track: Path) { SetExtension(track, "nolrc") in files }

  /**
   * A track that starts with neither sidecar ends with at most one of them,
   * whatever the remote answers and whichever file operations fail.
   */
  lemma AtMostOneSidecar(files: Files, path: Path, request: LyricsRequest, response: RemoteResult,
                         denyNolrc: bool, f: Faults)
    requires HasFileName(path)
    requires !HasLrcSidecar(files, path) && !HasNolrcSidecar(files, path)
    ensures var s := EntryStep(files, path, request, response, denyNolrc, f);
      !(HasLrcSidecar(s.files, path) && HasNolrcSidecar(s.files, path))
  {
    match Decide(response)
    case UseLyrics(lyrics) => ReplaceNolrcEffect(files, path, lyrics, f);
    case MarkAbsent => CreateNolrcEffect(files, path, f.open);
    case Fatal =>
    case LogOnly =>
  }

  /**
   * An invalid request panics the task and other errors only get logged;
   * neither, nor "no lyrics" with `.nolrc` creation denied, touches the disk.
   */
  lemma NoFileChangeWithoutAction(files: Files, path: Path, request: LyricsRequest, response: RemoteResult,
                                  denyNolrc: bool, f: Faults)
    ensures var s := EntryStep(files, path, request, response, denyNolrc, f);
      && (s.result == Panicked <==> response.Err? && response.error.InvalidRequest?)
      && ((Decide(response) == Fatal || Decide(response) == LogOnly
           || (Decide(response) == MarkAbsent && denyNolrc)) ==> s.files == files)
      && ((response.Err? && !response.error.InvalidRequest?
           && !(response.error.InvalidStatusCode? && response.error.status == NOT_FOUND)) ==> s.files == files)
  {
  }

  /** Only the two sidecars can change: a track not named `.lrc`/`.nolrc` itself is never touched. */
  lemma TrackUntouched(files: Files, path: Path, request: LyricsRequest, response: RemoteResult,
                       denyNolrc: bool, f: Faults)
    requires HasFileName(path)
    requires Extension(path) != Some(Utf8("lrc")) && Extension(path) != Some(Utf8("nolrc"))
    ensures SameAt(files, EntryStep(files, path, request, response, denyNolrc, f).files, path)
  {
    SetExtensionFixedPoint(path, "lrc");
    SetExtensionFixedPoint(path, "nolrc");
    match Decide(response)
    case UseLyrics(lyrics) => ReplaceNolrcEffect(files, path, lyrics, f);
    case MarkAbsent => CreateNolrcEffect(files, path, f.open);
    case Fatal =>
    case LogOnly =>
  }

  // ---------------------------------------------------------------- permits and fetches over a run

  /**
   * Reads a log with one permit in mind: `Some(held)` is whether it is held at
   * the end; `None` means a second acquire, a fetch without the permit, a
   * release without it, or a file operation while it is held.
   */
  function Scan(log: seq<Event>, held: bool): Option<bool> {
    if log == [] then Some(held)
    else match log[0]
      case Acquired => if held then None else Scan(log[1..], true)
      case Fetched(_) => if held then Scan(log[1..], true) else None
      case Released => if held then Scan(log[1..], false) else None
      case _ => if held then None else Scan(log[1..], false)
  }

  /**
   * Every fetch happens under a permit, at most one permit is out at a time,
   * each one is given back, and no file is touched while one is held.
   */
  predicate PermitDiscipline(log: seq<Event>) {
    Scan(log, false) == Some(false)
  }

  lemma {:induction false} ScanAppend(a: seq<Event>, b: seq<Event>, held: bool)
    ensures Scan(a + b, held) == if Scan(a, held).None? then None else Scan(b, Scan(a, held).value)
    decreases |a|
  {
    if a != [] {
      assert (a + b)[1..] == a[1..] + b;
      match a[0]
      case Acquired => ScanAppend(a[1..], b, true);
      case Fetched(_) => ScanAppend(a[1..], b, true);
      case Released => ScanAppend(a[1..], b, false);
      case _ => ScanAppend(a[1..], b, false);
    } else {
      assert a + b == b;
    }
  }

  lemma {:induction false} FileEventsScan(log: seq<Event>)
    requires forall k :: 0 <= k < |log| ==> IsFileEvent(log[k])
    ensures Scan(log, false) == Some(false)
    decreases |log|
  {
    if log != [] {
      FileEventsScan(log[1..]);
    }
  }

  /** One task's log: a fetch bracketed by its permit, then only file operations. */
  lemma EntryPermitDiscipline(files: Files, path: Path, request: LyricsRequest, response: RemoteResult,
                              denyNolrc: bool, f: Faults)
    ensures PermitDiscipline(EntryStep(files, path, request, response, denyNolrc, f).events)
  {
    var s := EntryStep(files, path, request, response, denyNolrc, f);
    var rest := s.events[3..];
    assert s.events == FetchEvents(request) + rest;
    forall k | 0 <= k < |rest| ensures IsFileEvent(rest[k]) {
    }
    FileEventsScan(rest);
    ScanAppend(FetchEvents(request), rest, false);
    FetchEventsShape(request);
  }

  /** The opening of every task: the permit is taken, the fetch made and the permit given back. */
  lemma FetchEventsShape(request: LyricsRequest)
    ensures Scan(FetchEvents(request), false) == Some(false)
    ensures Fetches(FetchEvents(request)) == [request]
  {
    var log := FetchEvents(request);
    assert log[1..] == [Fetched(request), Released];
    assert log[1..][1..] == [Released];
    assert log[1..][1..][1..] == [];
    assert Scan([Released], true) == Some(false);
    assert Fetches([Released]) == [];
    assert Fetches([Fetched(request), Released]) == [request];
  }

  /** The requests fetched in a log, in order. */
  function Fetches(log: seq<Event>): seq<LyricsRequest> {
    if log == [] then []
    else (if log[0].Fetched? then [log[0].request] else []) + Fetches(log[1..])
  }

  lemma {:induction false} FetchesAppend(a: seq<Event>, b: seq<Event>)
    ensures Fetches(a + b) == Fetches(a) + Fetches(b)
    decreases |a|
  {
    if a == [] {
      assert a + b == b;
    } else {
      assert (a + b)[1..] == a[1..] + b;
      FetchesAppend(a[1..], b);
    }
  }

  /**
   * The rest of a run keeps the permit discipline and calls the remote once per
   * `Ok` pack, with that pack's request, in pack order.
   */
  lemma {:induction false} RunFetchesAndPermits(prev: Step<bool>, packs: seq<Classifier.PackResult>,
                                                script: seq<RemoteResult>, denyNolrc: bool, plan: seq<Faults>)
    requires |plan| == |packs| && OkCount(packs) <= |script|
    ensures var s := Run(prev, packs, script, denyNolrc, plan);
      && (PermitDiscipline(prev.events) ==> PermitDiscipline(s.events))
      && Fetches(s.events) == Fetches(prev.events) + Requests(packs)
    decreases |packs|
  {
    if packs != [] {
      match packs[0]
      case Err(_) =>
        RunFetchesAndPermits(prev, packs[1..], script, denyNolrc, plan[1..]);
      case Ok(pack) =>
        var e := EntryStep(prev.files, pack.1.path, pack.0, script[0], denyNolrc, plan[0]);
        var next := RunTask(prev, pack, script[0], denyNolrc, plan[0]);
        EntryPermitDiscipline(prev.files, pack.1.path, pack.0, script[0], denyNolrc, plan[0]);
        EntryFetches(prev.files, pack.1.path, pack.0, script[0], denyNolrc, plan[0]);
        ScanAppend(prev.events, e.events, false);
        FetchesAppend(prev.events, e.events);
        RunFetchesAndPermits(next, packs[1..], script[1..], denyNolrc, plan[1..]);
        assert Fetches(next.events) == Fetches(prev.events) + [pack.0];
    }
  }

  /**
   * A whole run keeps the permit discipline and calls the remote exactly once
   * per `Ok` pack, with that pack's request, in pack order.
   */
  lemma RunStepFetchesAndPermits(files: Files, packs: seq<Classifier.PackResult>,
                                 script: seq<RemoteResult>, denyNolrc: bool, plan: seq<Faults>)
    requires |plan| == |packs| && OkCount(packs) <= |script|
    ensures var s := RunStep(files, packs, script, denyNolrc, plan);
      PermitDiscipline(s.events) && Fetches(s.events) == Requests(packs)
  {
    RunFetchesAndPermits(Step(files, [], false), packs, script, denyNolrc, plan);
  }

  /** One task fetches exactly its own request, once. */
  lemma EntryFetches(files: Files, path: Path, request: LyricsRequest, response: RemoteResult,
                     denyNolrc: bool, f: Faults)
    ensures Fetches(EntryStep(files, path, request, response, denyNolrc, f).events) == [request]
  {
    var e := EntryStep(files, path, request, response, denyNolrc, f);
    var rest := e.events[3..];
    assert e.events == FetchEvents(request) + rest;
    assert forall k :: 0 <= k < |rest| ==> !rest[k].Fetched?;
    NoFetches(rest);
    FetchesAppend(FetchEvents(request), rest);
    FetchEventsShape(request);
  }

  lemma {:induction false} NoFetches(log: seq<Event>)
    requires forall k :: 0 <= k < |log| ==> !log[k].Fetched?
    ensures Fetches(log) == []
    decreases |log|
  {
    if log != [] {
      NoFetches(log[1..]);
    }
  }

  /** With no invalid request among the scripted answers, no later task panics. */
  lemma {:induction false} RunWithoutInvalidRequestNeverPanics(prev: Step<bool>, packs: seq<Classifier.PackResult>,
                                                               script: seq<RemoteResult>, denyNolrc: bool, plan: seq<Faults>)
    requires |plan| == |packs| && OkCount(packs) <= |script|
    requires forall k :: 0 <= k < |script| ==> !(script[k].Err? && script[k].error.InvalidRequest?)
    ensures Run(prev, packs, script, denyNolrc, plan).result == prev.result
    decreases |packs|
  {
    if packs != [] {
      match packs[0]
      case Err(_) =>
        RunWithoutInvalidRequestNeverPanics(prev, packs[1..], script, denyNolrc, plan[1..]);
      case Ok(pack) =>
        assert forall k :: 0 <= k < |script| - 1 ==> script[1..][k] == script[k + 1];
        RunWithoutInvalidRequestNeverPanics(RunTask(prev, pack, script[0], denyNolrc, plan[0]),
                                            packs[1..], script[1..], denyNolrc, plan[1..]);
    }
  }

  // ---------------------------------------------------------------- sidecars over a run

  /**
   * A task leaves its track with a sidecar when the write or the open goes
   * ahead; for a track that had neither, that is the only way to get one.
   */
  lemma EntryResolvesTrack(files: Files, path: Path, request: LyricsRequest, response: RemoteResult,
                           denyNolrc: bool, f: Faults)
    requires HasFileName(path)
    ensures var s := EntryStep(files, path, request, response, denyNolrc, f);
      var goesAhead := || (Decide(response).UseLyrics? && f.write.None?)
                       || (Decide(response) == MarkAbsent && !denyNolrc && f.open.None?);
      && (goesAhead ==> HasLrcSidecar(s.files, path) || HasNolrcSidecar(s.files, path))
      && (!HasLrcSidecar(files, path) && !HasNolrcSidecar(files, path) ==>
            (HasLrcSidecar(s.files, path) || HasNolrcSidecar(s.files, path) <==> goesAhead))
  {
    match Decide(response)
    case UseLyrics(lyrics) => ReplaceNolrcEffect(files, path, lyrics, f);
    case MarkAbsent => CreateNolrcEffect(files, path, f.open);
    case Fatal =>
    case LogOnly =>
  }

  /**
   * A track that has a sidecar keeps one through any task, its own or another
   * track's: writes and opens only add files, and the one delete, of
   * `name.nolrc`, follows a successful write of the same stem's `name.lrc`.
   */
  lemma EntryKeepsResolved(files: Files, path: Path, request: LyricsRequest, response: RemoteResult,
                           denyNolrc: bool, f: Faults, track: Path)
    requires HasFileName(track)
    requires HasLrcSidecar(files, track) || HasNolrcSidecar(files, track)
    ensures var s := EntryStep(files, path, request, response, denyNolrc, f);
      HasLrcSidecar(s.files, track) || HasNolrcSidecar(s.files, track)
  {
    match Decide(response)
    case UseLyrics(lyrics) =>
      var lrc := SetExtension(path, "lrc");
      var removed := SetExtension(lrc, "nolrc");
      SetExtensionTwice(path, "lrc", "nolrc");
      if f.write.None? && removed == SetExtension(track, "nolrc") {
        SameSiblings(track, path, "nolrc", "lrc");
      }
      if f.write.None? {
        assert Extension(SetExtension(track, "lrc")) != Extension(removed) || !HasFileName(removed);
      }
    case MarkAbsent =>
    case Fatal =>
    case LogOnly =>
  }

  /** The rest of a run keeps a sidecar for every track that has one. */
  lemma {:induction false} RunKeepsResolved(prev: Step<bool>, packs: seq<Classifier.PackResult>,
                                            script: seq<RemoteResult>, denyNolrc: bool, plan: seq<Faults>, track: Path)
    requires |plan| == |packs| && OkCount(packs) <= |script|
    requires HasFileName(track)
    requires HasLrcSidecar(prev.files, track) || HasNolrcSidecar(prev.files, track)
    ensures var s := Run(prev, packs, script, denyNolrc, plan);
      HasLrcSidecar(s.files, track) || HasNolrcSidecar(s.files, track)
    decreases |packs|
  {
    if packs != [] {
      match packs[0]
      case Err(_) =>
        RunKeepsResolved(prev, packs[1..], script, denyNolrc, plan[1..], track);
      case Ok(pack) =>
        EntryKeepsResolved(prev.files, pack.1.path, pack.0, script[0], denyNolrc, plan[0], track);
        RunKeepsResolved(RunTask(prev, pack, script[0], denyNolrc, plan[0]), packs[1..], script[1..], denyNolrc, plan[1..], track);
    }
  }

  lemma {:induction false} OkCountAppend(a: seq<Classifier.PackResult>, b: seq<Classifier.PackResult>)
    ensures OkCount(a + b) == OkCount(a) + OkCount(b)
    decreases |a|
  {
    if a == [] {
      assert a + b == b;
    } else {
      assert (a + b)[1..] == a[1..] + b;
      OkCountAppend(a[1..], b);
    }
  }

  /**
   * The number of tasks the packs before position `i` start; pack `i`, when it
   * is `Ok`, is answered by `script[TasksBefore(packs, i)]`.
   */
  function TasksBefore(packs: seq<Classifier.PackResult>, i: nat): (k: nat)
    requires i <= |packs|
    ensures k + OkCount(packs[i..]) == OkCount(packs)
    ensures i < |packs| && packs[i].Ok? ==> k < OkCount(packs)
  {
    assert packs[..i] + packs[i..] == packs;
    OkCountAppend(packs[..i], packs[i..]);
    OkCount(packs[..i])
  }

  /** A run splits at any pack: the later packs take up the answers the earlier ones left. */
  lemma {:induction false} RunSplit(prev: Step<bool>, packs: seq<Classifier.PackResult>, script: seq<RemoteResult>,
                                    denyNolrc: bool, plan: seq<Faults>, i: nat)
    requires |plan| == |packs| && OkCount(packs) <= |script| && i <= |packs|
    ensures var k := TasksBefore(packs, i);
      && OkCount(packs[..i]) <= |script|
      && Run(prev, packs, script, denyNolrc, plan)
         == Run(Run(prev, packs[..i], script, denyNolrc, plan[..i]), packs[i..], script[k..], denyNolrc, plan[i..])
    decreases i
  {
    var k := TasksBefore(packs, i);
    if i == 0 {
      assert packs[i..] == packs && plan[i..] == plan && script[k..] == script;
    } else {
      assert packs[..i][1..] == packs[1..][..i - 1] && plan[..i][1..] == plan[1..][..i - 1];
      assert packs[1..][i - 1..] == packs[i..] && plan[1..][i - 1..] == plan[i..];
      match packs[0]
      case Err(_) =>
        RunSplit(prev, packs[1..], script, denyNolrc, plan[1..], i - 1);
        assert TasksBefore(packs[1..], i - 1) == k;
      case Ok(pack) =>
        var next := RunTask(prev, pack, script[0], denyNolrc, plan[0]);
        RunSplit(next, packs[1..], script[1..], denyNolrc, plan[1..], i - 1);
        assert TasksBefore(packs[1..], i - 1) + 1 == k;
        assert script[1..][k - 1..] == script[k..];
    }
  }
}
