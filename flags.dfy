/**
 * The command-line defaults and the flag validators of
 * internal/app/flags.go, and how the log-level and log-format validators
 * relate to the lookups in internal/logging/logging.go that later consume
 * the same strings.
 */
module Flags {
  import opened Wrappers
  import opened Text
  import opened Logging

  /** The defaults of the `log-format`, `log-output`, `log-level` and `port` flags. */
  const DefaultLogFormat: string := "plain"
  const DefaultLogOutput: string := "stdout"
  const DefaultLogLevel: string := "info"
  const DefaultListenPort: int := 1157

  /** The error `validateListenPort` returns. */
  const ErrOutOfBoundsPort: string := "given port is out of bounds (1024-65535)"

  /** The fragments `validateLogLevel` looks for, in the order it tries them. */
  const LevelFragments: seq<string> := ["deb", "inf", "warn", "err"]

  /** `validateListenPort`: ports outside 1024..65535 are refused. */
  function ValidateListenPort(p: int): (r: Option<string>)
    ensures r.None? <==> 1024 <= p <= 65535
    ensures r.Some? ==> r.value == ErrOutOfBoundsPort
  {
    if p < 1024 || p > 65535 then Some(ErrOutOfBoundsPort) else None
  }

  /** What `validateLogLevel` accepts: some fragment occurs anywhere in the lower-cased text. */
  predicate LevelAccepted(s: string)
  {
    exists i :: 0 <= i < |LevelFragments| && Contains(Lower(s), LevelFragments[i])
  }

  /**
   * `validateLogLevel`: the loop over the fragments returns at the first one
   * the lower-cased input contains, and fails with `ErrInvalidLevel` after
   * trying them all.
   */
  method ValidateLogLevel(s: string) returns (r: Option<string>)
    ensures r.None? <==> LevelAccepted(s)
    ensures r.Some? ==> r.value == ErrInvalidLevel
  {
    var lower := Lower(s);
    for k := 0 to |LevelFragments|
      invariant forall i :: 0 <= i < k ==> !Contains(lower, LevelFragments[i])
    {
      if Contains(lower, LevelFragments[k]) {
        return None;
      }
    }
    return Some(ErrInvalidLevel);
  }

  /** `validateLogFormat`: both of its branches return no error. */
  function ValidateLogFormat(s: string): (r: Option<string>)
    ensures r.None?
  {
    var lower := Lower(s);
    if lower == "json" || lower == "plain" || lower == "none" then None else None
  }

  /**
   * `validateLogOutput`: `stdout` and `stderr` pass; any other text names a
   * file, and the outcome of opening it for appending, `openResult`, is the
   * answer.
   */
  function ValidateLogOutput(s: string, openResult: Option<string>): (r: Option<string>)
    ensures s == "stdout" || s == "stderr" ==> r.None?
    ensures s != "stdout" && s != "stderr" ==> r == openResult
  {
    match s
    case "stdout" => None
    case "stderr" => None
    case _ => openResult
  }

  /** The validator looks for the very strings `setLevel` looks for at the start. */
  lemma FragmentsArePrefixes()
    ensures |LevelFragments| == |LevelPrefixes|
    ensures forall i :: 0 <= i < |LevelFragments| ==> LevelFragments[i] == LevelPrefixes[i].prefix
  {
  }

  /** Every level name `setLevel` accepts also passes `validateLogLevel`. */
  lemma SetLevelAcceptedIsValid(s: string)
    requires SetLevel(s).err.None?
    ensures LevelAccepted(s)
  {
    var i :| 0 <= i < |LevelPrefixes| && HasPrefix(Lower(s), LevelPrefixes[i].prefix);
    FragmentsArePrefixes();
    PrefixIsContained(Lower(s), LevelFragments[i]);
  }

  /**
   * The converse fails: `xinfo` contains `inf`, so the validator lets it
   * through, but no level starts it, so `setLevel` reports an error.
   */
  lemma ValidLevelNotAlwaysSet()
    ensures LevelAccepted("xinfo")
    ensures SetLevel("xinfo") == LevelChoice(Info, Some(ErrInvalidLevel))
  {
    var t := Lower("xinfo");
    assert t == "xinfo";
    assert HasPrefix(t[1..], "inf") by {
      assert t[1..][..3] == "inf";
    }
    OccurrenceContained(t, "inf", 1);
    assert Contains(Lower("xinfo"), LevelFragments[1]);
    forall i | 0 <= i < |LevelPrefixes|
      ensures !HasPrefix(t, LevelPrefixes[i].prefix)
    {
      assert t[0] != LevelPrefixes[i].prefix[0];
    }
  }

  /** `validateLogFormat` passes format names that `setFormat` then refuses. */
  lemma FormatValidatorLaxer()
    ensures ValidateLogFormat("JSON").None? && SetFormat("JSON").err.Some?
    ensures ValidateLogFormat("yaml").None? && SetFormat("yaml").err.Some?
  {
  }

  /** Each default passes its validator, and the level and format defaults select Info and Text. */
  lemma DefaultsValid(openResult: Option<string>)
    ensures ValidateListenPort(DefaultListenPort).None?
    ensures ValidateLogFormat(DefaultLogFormat).None?
    ensures SetFormat(DefaultLogFormat) == FormatChoice(TextFormatter, None)
    ensures ValidateLogOutput(DefaultLogOutput, openResult).None?
    ensures LevelAccepted(DefaultLogLevel)
    ensures SetLevel(DefaultLogLevel) == LevelChoice(Info, None)
  {
    assert Lower(DefaultLogLevel) == LevelName(Info);
    LevelNameRoundTrip(Info, DefaultLogLevel);
    SetLevelAcceptedIsValid(DefaultLogLevel);
  }
}
