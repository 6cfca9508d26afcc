/** The scenarios of the logger tests (Tests/Log/LoggerTest.php), built from
    the modelled classes, with the outcome each test asserts as the
    postcondition. The test's memory appender stands here as an appender
    that does nothing; what it would record is the batch the logger sends. */
module LoggerExamples {
  import opened Types
  import opened LogLevels
  import opened Messages
  import opened Dispatches
  import opened Nodes
  import opened Chains
  import opened MessageDispatches
  import opened Logging

  /** A logger at the lowest minimum with one appender. */
  method DebugLogger() returns (lg: Logger)
    ensures fresh(lg) && fresh(lg.appenders) && lg.Valid()
    ensures lg.minLevel == Debug && lg.messages == [] && lg.sent == []
    ensures |lg.appenders.nodes| == 1 && lg.appenders.calls == []
  {
    var app := new Node.NullAppender();
    var r := Logger.Create(Some("debug"), [app]);
    assert [app][..0] == [];
    lg := r.value;
  }

  /** Logs one message on an empty logger at the lowest minimum and
      outputs it: the appender receives that message alone, once. */
  method LogThenOutput(lg: Logger, level: string, message: string, context: Context, text: string,
                       now: Timestamp, later: Timestamp)
    requires lg.Valid() && lg.minLevel == Debug && lg.messages == [] && lg.sent == []
    requires |lg.appenders.nodes| == 1 && lg.appenders.calls == []
    requires level in Levels && Interpolated(message, context) == text
    modifies lg`messages, lg`sent, lg.appenders`calls, lg.appenders`trace
    ensures lg.sent == [[Message(level, text, now)]] && lg.messages == []
    ensures lg.appenders.calls == [Call(0, lg)]
  {
    var e := lg.Log(level, message, context, now);
    var m := Message(level, text, now);
    assert lg.messages == [m];
    QualifyingAtDebug([m]);
    assert Qualifying(lg.messages, lg.minLevel) == [m];
    lg.Output(later);
    assert Broadcast(1, lg) == [Call(0, lg)];
  }

  /** test_LogLevels, for one level: a message logged at `level` and output
      reaches the appender alone and unchanged, once. */
  method OneLevel(level: Level, now: Timestamp, later: Timestamp) returns (lg: Logger)
    ensures lg.sent == [[Message(Name(level), "Testing", now)]]
    ensures lg.appenders.calls == [Call(0, lg)] && lg.messages == []
  {
    lg := DebugLogger();
    InterpolateNoPlaceholder("Testing", []);
    LogThenOutput(lg, Name(level), "Testing", [], "Testing", now, later);
  }

  /** test_LogInterpolate, first case: the placeholder is replaced before
      the message is buffered. */
  method InterpolatedMessage(now: Timestamp, later: Timestamp) returns (lg: Logger)
    ensures lg.sent == [[Message("info", "Testing the way we REPLACE strings.", now)]]
  {
    lg := DebugLogger();
    InterpolateTest();
    LogThenOutput(lg, "info", "Testing the way we {replace} strings.", [("replace", Str("REPLACE"))],
                  "Testing the way we REPLACE strings.", now, later);
  }

  /** test_LogInterpolate, null case. */
  method NullInterpolated(now: Timestamp, later: Timestamp) returns (lg: Logger)
    ensures lg.sent == [[Message("info", "null", now)]]
  {
    lg := DebugLogger();
    InterpolateTest();
    LogThenOutput(lg, "info", "{obj}", [("obj", Null)], "null", now, later);
  }

  /** test_BadMinimumLevel: a minimum that is no level is refused. */
  method BadMinimumLevelTest() returns (r: Result<Logger, Exception>)
    ensures r.Failure? && r.error.kind == SplInvalidArgument
  {
    r := Logger.Create(Some("boom"), []);
  }

  /** Messages below the minimum stay buffered until a message at the
      minimum arrives; then both are cleared and only the latter is sent. */
  method LowMessagesWait(now: Timestamp) returns (lg: Logger, kept: nat)
    ensures kept == 1
    ensures lg.sent == [[Message("error", "b", now)]] && lg.messages == []
  {
    var app := new Node.NullAppender();
    var r := Logger.Create(Some("error"), [app]);
    assert [app][..0] == [];
    lg := r.value;
    kept := LowThenHigh(lg, "debug", "a", "error", "b", now);
  }

  /** A single message below the minimum does not qualify. */
  lemma QualifyingBelow(m: Message, minLevel: Level)
    requires !MeetsMinimumLevel(m.level, minLevel)
    ensures Qualifying([m], minLevel) == []
  {
    assert [m][..0] == [];
  }

  /** Of a message below the minimum followed by one at it, only the
      second qualifies. */
  lemma QualifyingBelowThenAt(low: Message, high: Message, minLevel: Level)
    requires !MeetsMinimumLevel(low.level, minLevel) && MeetsMinimumLevel(high.level, minLevel)
    ensures Qualifying([low, high], minLevel) == [high]
  {
    assert [low, high][..1] == [low];
    QualifyingBelow(low, minLevel);
  }

  /** Logs a message below the minimum and outputs, then logs one at the
      minimum and outputs again; `kept` is what the first output left
      buffered. */
  method LowThenHigh(lg: Logger, low: string, a: string, high: string, b: string, now: Timestamp) returns (kept: nat)
    requires lg.Valid() && lg.messages == [] && lg.sent == [] && |lg.appenders.nodes| > 0
    requires low in Levels && high in Levels && '{' !in a && '{' !in b
    requires !MeetsMinimumLevel(low, lg.minLevel) && MeetsMinimumLevel(high, lg.minLevel)
    modifies lg`messages, lg`sent, lg.appenders`calls, lg.appenders`trace
    ensures kept == 1
    ensures lg.sent == [[Message(high, b, now)]] && lg.messages == []
  {
    InterpolateNoPlaceholder(a, []);
    var ma := Message(low, a, now);
    var _ := lg.Log(low, a, [], now);
    assert lg.messages == [ma];
    QualifyingBelow(ma, lg.minLevel);
    lg.Output(now);
    kept := |lg.messages|;
    HighAfterLow(lg, ma, high, b, now);
  }

  /** With one message below the minimum buffered, a message at the
      minimum is logged and output: only it is sent, and both are cleared. */
  method HighAfterLow(lg: Logger, low: Message, high: string, b: string, now: Timestamp)
    requires lg.Valid() && lg.messages == [low] && lg.sent == [] && |lg.appenders.nodes| > 0
    requires high in Levels && '{' !in b
    requires !MeetsMinimumLevel(low.level, lg.minLevel) && MeetsMinimumLevel(high, lg.minLevel)
    modifies lg`messages, lg`sent, lg.appenders`calls, lg.appenders`trace
    ensures lg.sent == [[Message(high, b, now)]] && lg.messages == []
  {
    InterpolateNoPlaceholder(b, []);
    var mb := Message(high, b, now);
    var _ := lg.Log(high, b, [], now);
    assert lg.messages == [low, mb];
    QualifyingBelowThenAt(low, mb, lg.minLevel);
    lg.Output(now);
  }

  /** test_MessageDispatch: a string and an empty array leave the dispatch
      invalid; an array holding a message and a message alone make it
      valid. */
  method MessageDispatchTest(now: Timestamp) returns (valid: seq<bool>)
    ensures valid == [false, false, true, true]
  {
    var msg := Message("alert", "Testing", now);
    var a := new MessageDispatch();
    a.Initialize(OtherInput, now);
    var b := new MessageDispatch();
    b.Initialize(ArrayInput([]), now);
    var c := new MessageDispatch();
    c.Initialize(ArrayInput([MessageValue(msg)]), now);
    var d := new MessageDispatch();
    d.Initialize(MessageInput(msg), now);
    valid := [a.base.isValid, b.base.isValid, c.base.isValid, d.base.isValid];
  }
}
