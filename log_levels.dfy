/** The eight PSR-3 log levels, as the logger and the message classes
    know them: the `LogLevel` constant strings, the level table of
    Log/Logger.php ordered from least to most severe, and the lookups the
    classes perform on it. */
module LogLevels {
  import opened Types

  datatype Level = Debug | Info | Notice | Warning | Error | Critical | Alert | Emergency

  /** The `Psr\Log\LogLevel` constant naming each level. */
  function Name(l: Level): string
  {
    match l
    case Debug => "debug"
    case Info => "info"
    case Notice => "notice"
    case Warning => "warning"
    case Error => "error"
    case Critical => "critical"
    case Alert => "alert"
    case Emergency => "emergency"
  }

  /** `Logger::$levels`: the level names from least to most severe. */
  const Levels: seq<string> := ["debug", "info", "notice", "warning", "error", "critical", "alert", "emergency"]

  /** The position of a level in the severity table. */
  function Index(l: Level): (i: nat)
    ensures i < |Levels| && Levels[i] == Name(l)
  {
    match l
    case Debug => 0
    case Info => 1
    case Notice => 2
    case Warning => 3
    case Error => 4
    case Critical => 5
    case Alert => 6
    case Emergency => 7
  }

  /** The level a string names, if any: the validity test of the message
      constructors (`array_key_exists` on the valid-level table) and of the
      logger constructor (`in_array` on the level table). */
  function Parse(s: string): (r: Option<Level>)
    ensures r.Some? ==> Name(r.value) == s
    ensures r.None? <==> s !in Levels
  {
    if s == "debug" then Some(Debug)
    else if s == "info" then Some(Info)
    else if s == "notice" then Some(Notice)
    else if s == "warning" then Some(Warning)
    else if s == "error" then Some(Error)
    else if s == "critical" then Some(Critical)
    else if s == "alert" then Some(Alert)
    else if s == "emergency" then Some(Emergency)
    else None
  }

  /** Every level's name is accepted, and stands for that level only. */
  lemma ParseName(l: Level, s: string)
    ensures Parse(s) == Some(l) <==> s == Name(l)
  {
  }

  /** `array_search($level, Logger::$levels)`: the first position holding
      the string, searching from position `i` on; `None` plays PHP's
      `false`. */
  function SearchFrom(s: string, i: nat): (r: Option<nat>)
    requires i <= |Levels|
    ensures r.Some? ==> i <= r.value < |Levels| && Levels[r.value] == s
    ensures r.Some? ==> forall j :: i <= j < r.value ==> Levels[j] != s
    ensures r.None? ==> forall j :: i <= j < |Levels| ==> Levels[j] != s
    decreases |Levels| - i
  {
    if i == |Levels| then None
    else if Levels[i] == s then Some(i)
    else SearchFrom(s, i + 1)
  }

  function Search(s: string): Option<nat>
  {
    SearchFrom(s, 0)
  }

  /** The table holds each name once, so the search finds a level at its
      own position and finds nothing else. */
  lemma SearchIndex(s: string)
    ensures Search(s) == match Parse(s) case Some(l) => Some(Index(l)) case None => None
  {
    match Parse(s)
    case Some(l) =>
      assert Levels[Index(l)] == s;
    case None =>
  }
}
