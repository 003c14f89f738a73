/**
 * The level and format lookups of internal/logging/logging.go: `setLevel`
 * and `setFormat`.  Each returns its result together with an error, as the
 * Go functions return a `(value, error)` pair.
 */
module Logging {
  import opened Wrappers
  import opened Text

  /** The levels of the logging library the bot uses. */
  datatype Level = Debug | Info | Warn | Error

  /** The output formats: the library's two formatters and `DisableLogs`. */
  datatype Formatter = TextFormatter | JsonFormatter | DisableLogs

  const ErrInvalidLevel: string := "invalid log level"
  const ErrInvalidFormat: string := "invalid log format"

  /** `setLevel`'s answer: a level, and an error when the input named none. */
  datatype LevelChoice = LevelChoice(level: Level, err: Option<string>)

  /** `setFormat`'s answer: a formatter, and an error when the input named none. */
  datatype FormatChoice = FormatChoice(format: Formatter, err: Option<string>)

  /** One row of the table `setLevel` searches. */
  datatype LevelPrefix = LevelPrefix(prefix: string, level: Level)

  /** The rows of `setLevel`'s table, in the order they are tried. */
  const LevelPrefixes: seq<LevelPrefix> :=
    [LevelPrefix("deb", Debug), LevelPrefix("inf", Info), LevelPrefix("warn", Warn), LevelPrefix("err", Error)]

  /** The level of the first row whose prefix starts `t`. */
  function FirstPrefix(t: string, table: seq<LevelPrefix>): (r: Option<Level>)
    ensures r.Some? <==> exists i :: 0 <= i < |table| && HasPrefix(t, table[i].prefix)
    ensures r.Some? ==> exists i :: (0 <= i < |table| && HasPrefix(t, table[i].prefix) && r.value == table[i].level
      && forall j :: 0 <= j < i ==> !HasPrefix(t, table[j].prefix))
    decreases |table|
  {
    if table == [] then None
    else if HasPrefix(t, table[0].prefix) then Some(table[0].level)
    else
      var r := FirstPrefix(t, table[1..]);
      assert forall i :: 0 < i < |table| ==> table[i] == table[1..][i - 1];
      r
  }

  /**
   * `setLevel`: the level of the first of `deb`, `inf`, `warn`, `err` that
   * starts the lower-cased input; otherwise Info with `ErrInvalidLevel`.
   */
  function SetLevel(target: string): (r: LevelChoice)
    ensures r.err.None? <==> exists i :: 0 <= i < |LevelPrefixes| && HasPrefix(Lower(target), LevelPrefixes[i].prefix)
    ensures r.err.None? ==> exists i :: (0 <= i < |LevelPrefixes| && HasPrefix(Lower(target), LevelPrefixes[i].prefix)
      && r.level == LevelPrefixes[i].level)
    ensures r.err.Some? ==> r.level == Info && r.err.value == ErrInvalidLevel
  {
    match FirstPrefix(Lower(target), LevelPrefixes)
    case Some(l) => LevelChoice(l, None)
    case None => LevelChoice(Info, Some(ErrInvalidLevel))
  }

  /** No text starts with two of the prefixes, so the order of the table never matters. */
  lemma PrefixesExclusive(t: string, i: nat, j: nat)
    requires i < |LevelPrefixes| && j < |LevelPrefixes|
    requires HasPrefix(t, LevelPrefixes[i].prefix) && HasPrefix(t, LevelPrefixes[j].prefix)
    ensures i == j
  {
    assert t[0] == LevelPrefixes[i].prefix[0] && t[0] == LevelPrefixes[j].prefix[0];
  }

  /** The name the logging library prints for a level. */
  function LevelName(l: Level): string
  {
    match l
    case Debug => "debug"
    case Info => "info"
    case Warn => "warn"
    case Error => "error"
  }

  /** Every level's own name, in any letter case, selects that level without error. */
  lemma LevelNameRoundTrip(l: Level, s: string)
    requires Lower(s) == LevelName(l)
    ensures SetLevel(s) == LevelChoice(l, None)
  {
    var t := Lower(s);
    var k := match l case Debug => 0 case Info => 1 case Warn => 2 case Error => 3;
    assert HasPrefix(t, LevelPrefixes[k].prefix) by {
      assert t[..|LevelPrefixes[k].prefix|] == LevelPrefixes[k].prefix;
    }
    var r := SetLevel(s);
    var i :| 0 <= i < |LevelPrefixes| && HasPrefix(t, LevelPrefixes[i].prefix) && r.level == LevelPrefixes[i].level;
    PrefixesExclusive(t, i, k);
  }

  /** Only the lower-cased input matters to `setLevel`. */
  lemma SetLevelIgnoresCase(a: string, b: string)
    requires Lower(a) == Lower(b)
    ensures SetLevel(a) == SetLevel(b)
  {
  }

  /**
   * `setFormat`: `plain`/`text`, `json`/`structured` and `none`/`off`,
   * matched exactly; anything else is Text with `ErrInvalidFormat`.
   */
  function SetFormat(f: string): (r: FormatChoice)
    ensures r.err.None? <==> f in {"plain", "text", "json", "structured", "none", "off"}
    ensures r.err.Some? ==> r.format == TextFormatter && r.err.value == ErrInvalidFormat
    ensures r.format == JsonFormatter ==> f == "json" || f == "structured"
    ensures r.format == DisableLogs ==> f == "none" || f == "off"
  {
    match f
    case "plain" => FormatChoice(TextFormatter, None)
    case "text" => FormatChoice(TextFormatter, None)
    case "json" => FormatChoice(JsonFormatter, None)
    case "structured" => FormatChoice(JsonFormatter, None)
    case "none" => FormatChoice(DisableLogs, None)
    case "off" => FormatChoice(DisableLogs, None)
    case _ => FormatChoice(TextFormatter, Some(ErrInvalidFormat))
  }

  /** The name the command line documents for each format. */
  function FormatName(fm: Formatter): string
  {
    match fm
    case TextFormatter => "plain"
    case JsonFormatter => "json"
    case DisableLogs => "none"
  }

  /** Each format is selected, without error, by its documented name and by its alias. */
  lemma FormatNamesRoundTrip(fm: Formatter)
    ensures SetFormat(FormatName(fm)) == FormatChoice(fm, None)
    ensures SetFormat(match fm case TextFormatter => "text" case JsonFormatter => "structured" case DisableLogs => "off")
      == FormatChoice(fm, None)
  {
  }

  /** Format names are matched case-sensitively: an upper-case name is refused. */
  lemma FormatCaseSensitive()
    ensures SetFormat("JSON") == FormatChoice(TextFormatter, Some(ErrInvalidFormat))
  {
  }
}
