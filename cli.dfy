/** Command-line flag parsing in the training driver (main.py, str2bool). */
module Cli {
  import opened Wrappers

  datatype FlagError = ValueError

  /** Only the exact lower-case spellings are booleans; anything else raises ValueError. */
  function Str2Bool(s: string): (r: Result<bool, FlagError>)
    ensures r == Ok(true) <==> s == "true"
    ensures r == Ok(false) <==> s == "false"
    ensures r.Err? <==> s != "true" && s != "false"
  {
    if s !in {"false", "true"} then Err(ValueError) else Ok(s == "true")
  }

  /** Writing a flag back in the accepted spelling parses to the same value. */
  lemma Str2BoolRoundTrip(b: bool)
    ensures Str2Bool(if b then "true" else "false") == Ok(b)
  {
  }
}
