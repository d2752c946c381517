/**
 * `Trace` (src/trace.rs): a wrapper that prints an `Option` or a `Result` for
 * log messages. The `Display` of the wrapped payload is a parameter.
 */
module Trace {
  import opened Wrappers

  /** `Trace<&T>`: a borrowed value, wrapped and not changed. */
  datatype Traced<T> = Traced(inner: T)

  /** `TraceExt::trace`. */
  function TraceOf<T>(x: T): Traced<T> {
    Traced(x)
  }

  function Quoted(s: string): string {
    "\"" + s + "\""
  }

  /** `impl Display for Trace<&Result<T, E>>`. */
  function ShowResult<T, E>(t: Traced<Result<T, E>>, showOk: T -> string, showErr: E -> string): string {
    match t.inner
    case Ok(v) => Quoted(showOk(v))
    case Err(e) => "Err(" + Quoted(showErr(e)) + ")"
  }

  /** `impl Display for Trace<&Option<T>>`. */
  function ShowOption<T>(t: Traced<Option<T>>, show: T -> string): string {
    match t.inner
    case Some(v) => Quoted(show(v))
    case None => "None"
  }

  /** Reads back a printed `Option<String>`; the inverse of `ShowOption` with the identity display. */
  function ParseOption(s: string): Option<string> {
    if s == "None" then None
    else if 2 <= |s| && s[0] == '"' && s[|s| - 1] == '"' then Some(s[1..|s| - 1])
    else None
  }

  /** Reads back a printed `Result<String, String>`; the inverse of `ShowResult` with identity displays. */
  function ParseResult(s: string): Option<Result<string, string>> {
    if 2 <= |s| && s[0] == '"' && s[|s| - 1] == '"' then Some(Ok(s[1..|s| - 1]))
    else if 7 <= |s| && s[..5] == "Err(\"" && s[|s| - 2..] == "\")" then Some(Err(s[5..|s| - 2]))
    else None
  }

  function Id(s: string): string { s }

  /** A traced `Option<String>` can always be read back: `None` and `Some(v)` never print alike. */
  lemma OptionRoundTrip(o: Option<string>)
    ensures ParseOption(ShowOption(TraceOf(o), Id)) == o
  {
    if o.Some? {
      var s := ShowOption(TraceOf(o), Id);
      assert s == "\"" + o.value + "\"";
      assert s[0] == '"' && s[|s| - 1] == '"';
      assert s != "None" by { assert s[0] != "None"[0]; }
      assert s[1..|s| - 1] == o.value;
    }
  }

  /** A traced `Result<String, String>` can always be read back: `Ok` and `Err` never print alike. */
  lemma ResultRoundTrip(r: Result<string, string>)
    ensures ParseResult(ShowResult(TraceOf(r), Id, Id)) == Some(r)
  {
    var s := ShowResult(TraceOf(r), Id, Id);
    match r
    case Ok(v) =>
      assert s == "\"" + v + "\"";
      assert s[0] == '"' && s[|s| - 1] == '"';
      assert s[1..|s| - 1] == v;
    case Err(e) =>
      assert s == "Err(\"" + e + "\")";
      assert s[0] == 'E';
      assert s[..5] == "Err(\"";
      assert s[|s| - 2..] == "\")";
      assert s[5..|s| - 2] == e;
  }

  /** Decimal digits of a natural number, the `Display` of an integer in the tests below. */
  function ShowNat(n: nat): string
    decreases n
  {
    var digit := ["0", "1", "2", "3", "4", "5", "6", "7", "8", "9"][n % 10];
    if n < 10 then digit else ShowNat(n / 10) + digit
  }

  /** The four expectations of the module's own tests (src/trace.rs:58-78). */
  lemma TraceExamples()
    ensures ShowResult(TraceOf<Result<nat, nat>>(Ok(69)), ShowNat, ShowNat) == "\"69\""
    ensures ShowResult(TraceOf<Result<nat, nat>>(Err(42)), ShowNat, ShowNat) == "Err(\"42\")"
    ensures ShowOption(TraceOf<Option<nat>>(Some(69)), ShowNat) == "\"69\""
    ensures ShowOption(TraceOf<Option<nat>>(None), ShowNat) == "None"
  {
    assert ShowNat(69) == "69";
    assert ShowNat(42) == "42";
  }
}
