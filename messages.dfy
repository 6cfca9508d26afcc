/** A log message (Log/Message.php): a level, a text and the instant it was
    made, with its array, JSON and one-line text forms. */
module Messages {
  import opened Types
  import opened Php
  import opened LogLevels

  datatype Message = Message(level: string, message: string, timestamp: Timestamp)

  /** A `catch` of class `handler` receives an exception of class `thrown`:
      the same class, or a subclass of it. */
  predicate Catches(handler: ExceptionKind, thrown: ExceptionKind)
  {
    handler == thrown || (handler == SplInvalidArgument && thrown == PsrInvalidArgument)
  }

  /** A message the constructor would accept: its level is a PSR-3 level. */
  predicate HasValidLevel(m: Message)
  {
    Parse(m.level).Some?
  }

  function InvalidLevelText(level: string): string
  {
    "Invalid log level provided to Stoic\\Log\\LogMessage: " + level
  }

  /** The constructor as written: an unknown level raises PHP's own
      `\InvalidArgumentException`. */
  function NewAsWritten(level: string, message: string, now: Timestamp): (r: Result<Message, Exception>)
    ensures r.Success? <==> level in Levels
    ensures r.Success? ==> r.value == Message(level, message, now) && HasValidLevel(r.value)
    ensures r.Failure? ==> r.error.text == InvalidLevelText(level)
  {
    if Parse(level).None? then Failure(Exception(SplInvalidArgument, InvalidLevelText(level)))
    else Success(Message(level, message, now))
  }

  /** The message of the level test has an unknown level, and what the
      constructor as written throws for it escapes the test's
      `catch (\Psr\Log\InvalidArgumentException $ex)`. */
  lemma UnknownLevelEscapesPsrHandler(now: Timestamp)
    ensures var r := NewAsWritten("nonexistent-level", "testing", now);
      r.Failure? && !Catches(PsrInvalidArgument, r.error.kind) && Catches(SplInvalidArgument, r.error.kind)
  {
  }

  /** The constructor as PSR-3 requires (section 1.1 of PSR-3: an unknown
      level raises `Psr\Log\InvalidArgumentException`), which LogMessage.php
      already does: a message exists exactly for the eight levels, and the
      error is caught by a handler for either exception class. */
  function New(level: string, message: string, now: Timestamp): (r: Result<Message, Exception>)
    ensures r.Success? <==> level in Levels
    ensures r.Success? ==> r.value == Message(level, message, now) && HasValidLevel(r.value)
    ensures r.Failure? ==> r.error.text == InvalidLevelText(level)
    ensures r.Failure? ==> Catches(PsrInvalidArgument, r.error.kind) && Catches(SplInvalidArgument, r.error.kind)
  {
    if Parse(level).None? then Failure(Exception(PsrInvalidArgument, InvalidLevelText(level)))
    else Success(Message(level, message, now))
  }

  /** The first value stored under `key` in an associative array. */
  function Lookup(pairs: seq<(string, string)>, key: string): Option<string>
  {
    if pairs == [] then None
    else if pairs[0].0 == key then Some(pairs[0].1)
    else Lookup(pairs[1..], key)
  }

  /** `__toArray`: the level, the text and the timestamp, as stored. */
  function ToArray(m: Message): seq<(string, string)>
  {
    [("level", m.level), ("message", m.message), ("timestamp", m.timestamp)]
  }

  /** `jsonSerialize`: the same three fields, the level upper-cased. */
  function JsonSerialize(m: Message): seq<(string, string)>
  {
    [("level", ToUpper(m.level)), ("message", m.message), ("timestamp", m.timestamp)]
  }

  /** Both arrays hold exactly three entries, and the message's fields can
      be read back from them by key; only the serialized level differs. */
  lemma ArrayFields(m: Message)
    ensures |ToArray(m)| == 3 && |JsonSerialize(m)| == 3
    ensures Lookup(ToArray(m), "level") == Some(m.level)
    ensures Lookup(ToArray(m), "message") == Some(m.message)
    ensures Lookup(ToArray(m), "timestamp") == Some(m.timestamp)
    ensures Lookup(JsonSerialize(m), "level") == Some(ToUpper(m.level))
    ensures Lookup(JsonSerialize(m), "message") == Some(m.message)
    ensures Lookup(JsonSerialize(m), "timestamp") == Some(m.timestamp)
  {
    var a, j := ToArray(m), JsonSerialize(m);
    assert a[1..][1..] == [("timestamp", m.timestamp)];
    assert j[1..][1..] == [("timestamp", m.timestamp)];
    assert Lookup(a, "timestamp") == Lookup(a[1..], "timestamp") == Lookup(a[1..][1..], "timestamp");
    assert Lookup(j, "timestamp") == Lookup(j[1..], "timestamp") == Lookup(j[1..][1..], "timestamp");
  }

  function Quote(s: string): string
  {
    "\"" + s + "\""
  }

  /** The members of a JSON object of strings, `"key"<colon>"value"`, joined
      by `sep`. */
  function Members(pairs: seq<(string, string)>, colon: string, sep: string): string
  {
    if pairs == [] then ""
    else
      var first := Quote(pairs[0].0) + colon + Quote(pairs[0].1);
      if |pairs| == 1 then first else first + sep + Members(pairs[1..], colon, sep)
  }

  /** A JSON object of strings, either in `json_encode`'s compact layout or
      with a space after `{`, `:` and `,` and before `}`. */
  function JsonObject(pairs: seq<(string, string)>, spaced: bool): (r: string)
    ensures |r| >= 2 && r[0] == '{' && r[|r| - 1] == '}'
    ensures spaced ==> r[1] == ' '
  {
    if spaced then "{ " + Members(pairs, ": ", ", ") + " }"
    else "{" + Members(pairs, ":", ",") + "}"
  }

  /** A compact object with a member starts its first key at once. */
  lemma CompactOpensWithKey(pairs: seq<(string, string)>)
    requires pairs != []
    ensures JsonObject(pairs, false)[1] == '"'
  {
    var first := Quote(pairs[0].0) + ":" + Quote(pairs[0].1);
    assert first[0] == '"';
    var ms := Members(pairs, ":", ",");
    assert ms[0] == '"' by {
      if |pairs| > 1 {
        assert ms == first + ("," + Members(pairs[1..], ":", ","));
      }
    }
    assert JsonObject(pairs, false) == "{" + ms + "}";
  }

  /** `__toJson`: `json_encode` of the serialized array. */
  function ToJson(m: Message): string
  {
    JsonObject(JsonSerialize(m), false)
  }

  /** The width of the level column of the one-line form. */
  const LevelColumn: nat := 9

  /** `__toString`: the timestamp, the upper-cased level left-justified in
      a nine-character column, and the text, separated by single spaces. */
  function ToString(m: Message): string
  {
    m.timestamp + " " + PadRight(ToUpper(m.level), LevelColumn) + " " + m.message
  }

  /** Reads a line of the one-line form back, given the length of its
      timestamp (which may itself contain spaces). */
  function ParseLine(line: string, stampLength: nat): Option<Message>
  {
    if |line| < stampLength + LevelColumn + 2 || line[stampLength] != ' '
       || line[stampLength + LevelColumn + 1] != ' ' then None
    else
      match Parse(ToLower(TrimRight(line[stampLength + 1..stampLength + LevelColumn + 1])))
      case None => None
      case Some(l) => Some(Message(Name(l), line[stampLength + LevelColumn + 2..], line[..stampLength]))
  }

  /** Every level name is a word of at most nine lower-case letters, so its
      upper-cased form fills the column without spilling over. */
  lemma NameFits(l: Level)
    ensures 0 < |Name(l)| <= LevelColumn && IsLowerWord(Name(l))
  {
    var s := Name(l);
    assert forall i :: 0 <= i < |s| ==> s[i] in "abcdefghijklmnopqrstuvwxyz";
  }

  /** Reading back a line laid out as the one-line form lays it out. */
  lemma ParseLineLayout(stamp: string, column: string, text: string)
    requires |column| == LevelColumn
    ensures ParseLine(stamp + " " + column + " " + text, |stamp|)
         == match Parse(ToLower(TrimRight(column)))
            case None => None
            case Some(l) => Some(Message(Name(l), text, stamp))
  {
    var line := stamp + " " + column + " " + text;
    var n := |stamp|;
    assert line[n] == ' ' && line[n + LevelColumn + 1] == ' ';
    assert line[n + 1..n + LevelColumn + 1] == column;
    assert line[n + LevelColumn + 2..] == text;
    assert line[..n] == stamp;
  }

  /** The one-line form loses nothing: for a message with a valid level,
      the level, text and timestamp are read back from it. */
  lemma ToStringRoundTrip(m: Message)
    requires HasValidLevel(m)
    ensures ParseLine(ToString(m), |m.timestamp|) == Some(m)
  {
    var l := Parse(m.level).value;
    NameFits(l);
    var u := ToUpper(m.level);
    assert u[|u| - 1] == UpperChar(m.level[|u| - 1]) != ' ';
    TrimPadRight(u, LevelColumn);
    LowerUpper(m.level);
    ParseLineLayout(m.timestamp, PadRight(u, LevelColumn), m.message);
  }
}
