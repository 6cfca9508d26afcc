/** The older log message class (Log/LogMessage.php): the same fields and
    level check as `Message`, with a JSON form assembled by hand rather
    than by `json_encode`. */
module LogMessages {
  import opened Types
  import opened Php
  import opened LogLevels
  import Messages

  datatype LogMessage = LogMessage(level: string, message: string, timestamp: Timestamp)

  /** The constructor: an unknown level raises
      `Psr\Log\InvalidArgumentException`. */
  function New(level: string, message: string, now: Timestamp): (r: Result<LogMessage, Exception>)
    ensures r.Success? <==> level in Levels
    ensures r.Success? ==> r.value == LogMessage(level, message, now)
    ensures r.Failure? ==> r.error == Exception(PsrInvalidArgument, Messages.InvalidLevelText(level))
  {
    if Parse(level).None? then Failure(Exception(PsrInvalidArgument, Messages.InvalidLevelText(level)))
    else Success(LogMessage(level, message, now))
  }

  function AsMessage(m: LogMessage): Messages.Message
  {
    Messages.Message(m.level, m.message, m.timestamp)
  }

  /** `__toArray`: the level, the text and the timestamp, as stored. */
  function ToArray(m: LogMessage): seq<(string, string)>
  {
    [("level", m.level), ("message", m.message), ("timestamp", m.timestamp)]
  }

  /** `__toJson`: the upper-cased level, the text and the timestamp placed
      into a fixed template, without any escaping. */
  function ToJson(m: LogMessage): string
  {
    "{ \"level\": \"" + ToUpper(m.level) + "\", \"message\": \"" + m.message
      + "\", \"timestamp\": \"" + m.timestamp + "\" }"
  }

  /** `__toString`: the timestamp, the upper-cased level in a nine-character
      column and the text. */
  function ToString(m: LogMessage): string
  {
    m.timestamp + " " + PadRight(ToUpper(m.level), 9) + " " + m.message
  }

  /** Both classes accept the same levels, build the same message and throw
      the corrected class's exception. */
  lemma NewAgrees(level: string, message: string, now: Timestamp)
    ensures var r, q := New(level, message, now), Messages.New(level, message, now);
      (r.Success? <==> q.Success?)
      && (r.Success? ==> AsMessage(r.value) == q.value)
      && (r.Failure? ==> r.error == q.error)
  {
  }

  /** The array and one-line forms of the two classes agree. */
  lemma SameForms(m: LogMessage)
    ensures ToArray(m) == Messages.ToArray(AsMessage(m))
    ensures ToString(m) == Messages.ToString(AsMessage(m))
  {
  }

  /** The spaced layout of three members, written out. */
  lemma SpacedMembers(a: (string, string), b: (string, string), c: (string, string))
    ensures Messages.Members([a, b, c], ": ", ", ")
         == Member(a.0, a.1) + ", " + (Member(b.0, b.1) + ", " + Member(c.0, c.1))
  {
    assert [a, b, c][1..] == [b, c];
    assert [b, c][1..] == [c];
    assert Messages.Members([c], ": ", ", ") == Member(c.0, c.1);
    assert Messages.Members([b, c], ": ", ", ") == Member(b.0, b.1) + ", " + Member(c.0, c.1);
  }

  function Member(key: string, value: string): string
  {
    Messages.Quote(key) + ": " + Messages.Quote(value)
  }

  /** Regrouping the pieces of the template. */
  lemma TemplateShape(open: string, kl: string, km: string, kt: string, q: string, sep: string, close: string,
                      u: string, t: string, s: string)
    ensures (open + kl) + u + (q + sep + km) + t + (q + sep + kt) + s + (q + close)
         == open + ((kl + u + q) + sep + ((km + t + q) + sep + (kt + s + q))) + close
  {
  }

  /** One member of the spaced layout, as the template spells it. */
  lemma MemberPieces(key: string, value: string)
    ensures Member(key, value) == "\"" + key + "\": \"" + value + "\""
  {
  }

  /** The template's fixed pieces, cut at the member boundaries. */
  lemma TemplatePieces()
    ensures "{ \"level\": \"" == "{ " + ("\"" + "level" + "\": \"")
    ensures "\", \"message\": \"" == "\"" + ", " + ("\"" + "message" + "\": \"")
    ensures "\", \"timestamp\": \"" == "\"" + ", " + ("\"" + "timestamp" + "\": \"")
    ensures "\" }" == "\"" + " }"
  {
  }

  /** The hand-built JSON is the spaced layout of the same fields
      `Message::jsonSerialize` produces. */
  lemma ToJsonIsSpacedObject(m: LogMessage)
    ensures ToJson(m) == Messages.JsonObject(Messages.JsonSerialize(AsMessage(m)), true)
  {
    var u, t, s := ToUpper(m.level), m.message, m.timestamp;
    SpacedMembers(("level", u), ("message", t), ("timestamp", s));
    MemberPieces("level", u);
    MemberPieces("message", t);
    MemberPieces("timestamp", s);
    TemplatePieces();
    TemplateShape("{ ", "\"" + "level" + "\": \"", "\"" + "message" + "\": \"", "\"" + "timestamp" + "\": \"",
                  "\"", ", ", " }", u, t, s);
  }

  /** The two classes' JSON forms never coincide: `json_encode` starts with
      the first key, the template with a space. The level test expects the
      spaced template from `Message` as well. */
  lemma JsonLayoutsDiffer(m: LogMessage, n: Messages.Message)
    ensures ToJson(m) != Messages.ToJson(n)
  {
    ToJsonIsSpacedObject(m);
    Messages.CompactOpensWithKey(Messages.JsonSerialize(n));
  }
}
