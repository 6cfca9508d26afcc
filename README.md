# stoic-php-core in Dafny

A model of the core of stoic-php-core, a PHP library, with its properties
proved. The model covers three parts:

- **Chain of responsibility.** A `ChainHelper` holds nodes. It is either an
  ordered chain or an event chain with a single slot. `traverse` hands one
  dispatch to the nodes in insertion order. It stops as soon as a
  consumable dispatch is consumed. It refuses an empty chain, an invalid
  dispatch and a dispatch already consumed. A dispatch carries four flags,
  the instant it was made valid, and the results the nodes left in it.
  Debug messages are modelled as abstract trace events.
- **PSR-3 logging.** The `Logger` checks the level and interpolates
  `{key}` placeholders from a context. It buffers `Message`s and filters
  them by a minimum level. `output` sends the qualifying messages, in one
  `MessageDispatch`, through a chain of appenders. The model also covers
  the message classes (`Message`, and the older `LogMessage`) and their
  array, JSON and one-line text forms.
- **Utilities.** `ReturnHelper` holds a good/bad status and two lists that
  only grow. `EnumBase` is an enum built from a class's integer constants:
  a forward table from names to values and a reverse map from values to
  names.

Each source file is one module:

| file | module | source |
|---|---|---|
| `types.dfy` | `Types` | option, result, timestamp, exception |
| `php.dfy` | `Php` | the PHP built-ins the core relies on |
| `dispatch_base.dfy` | `Dispatches` | `Chain/DispatchBase.php` |
| `node_base.dfy` | `Nodes` | `Chain/NodeBase.php`, `Log/NullAppender.php` |
| `chain_helper.dfy` | `Chains` | `Chain/ChainHelper.php` |
| `log_levels.dfy` | `LogLevels` | the PSR-3 level table |
| `messages.dfy` | `Messages` | `Log/Message.php` |
| `log_message.dfy` | `LogMessages` | `Log/LogMessage.php` |
| `message_dispatch.dfy` | `MessageDispatches` | `Log/MessageDispatch.php` |
| `logger.dfy` | `Logging` | `Log/Logger.php` |
| `return_helper.dfy` | `ReturnHelpers` | `Utilities/ReturnHelper.php` |
| `enum_base.dfy` | `Enums` | `Utilities/EnumBase.php` |

The `*_examples.dfy` files restate the scenarios of the repository's
tests. Each test's assertions are a postcondition there.

Classes whose fields the PHP code updates in place are Dafny classes:

- `Dispatch`, `Node`, `ChainHelper`, `MessageDispatch`, `Logger`,
  `ReturnHelper` and `Enum`.
- Each method is proved against a specification function. Chain
  traversal is specified by `Chains.TraverseSpec`, dispatch updates by
  `Dispatches.Apply`, interpolation by `Logging.Interpolated`, level
  filtering by `Logging.Qualifying`, the enum table by `Enums.Consts`.
- The properties are proved about those functions.
- The messages are values, so they are datatypes and functions.

Two behaviours of the source are modelled on the side of the tests rather
than the code; see "## Findings".

The hand-built JSON of `LogMessage::__toJson` is the template the level
test expects (Tests/Log/LoggerTest.php:62). `Message::__toJson` uses
`json_encode` instead, which writes no spaces. `LogMessages.JsonLayoutsDiffer`
proves that the two forms never agree. The model keeps `json_encode`'s
layout for `Message`, as the code does.

## Model

| member | source | states |
|---|---|---|
| `Php.ToUpper` | Log/Message.php:110-116 | `strtoupper`: same length, each ASCII lower-case letter upper-cased, every other character kept |
| `Php.PadRight` | Log/Message.php:123-129 | `%' -9s`: the string, then spaces up to the width; never truncated |
| `Php.TrimPadRight` | Log/Message.php:123-129 | stripping trailing spaces undoes the padding of a string that does not end in a space |
| `Php.LowerUpper` | Log/Message.php:110-116 | lower-casing an upper-cased lower-case word gives the word back |
| `Php.NatToStringRoundTrip` | Utilities/EnumBase.php:180 | the decimal text of a natural number reads back as that number |
| `Php.IntToStringRoundTrip` | Utilities/EnumBase.php:180 | the decimal text of any integer reads back as that integer |
| `Php.ReplaceAllAbsent` | Log/Logger.php:134 | `str_replace` leaves a string without the search text's first character unchanged |
| `Php.ReplaceAllKeepsPrefix` | Log/Logger.php:134 | `str_replace` leaves a prefix without the search text's first character in place and works on the rest |
| `Php.ReplaceAllFront` | Log/Logger.php:134 | an occurrence at the front is replaced and the search resumes right after it |
| `Php.ReplaceAllSkip` | Log/Logger.php:134 | a prefix that departs from the search text and holds no later first character of it is kept, and the search resumes after it |
| `Php.ReplaceAllJoin` | Log/Logger.php:134 | every occurrence is replaced: parts without the search text's first character, joined by it, come out joined by the replacement |
| `Php.ReplaceAllOnce` | Log/Logger.php:134 | one occurrence of the search text is replaced by the replacement and nothing else changes |
| `LogLevels.Index` | Log/Logger.php:41-50 | each level's position in the level table, whose entry is that level's name |
| `LogLevels.Parse` | Log/Message.php:61 | a string names a level exactly when it is in the table of the eight PSR-3 levels, and then it is that level's name |
| `LogLevels.ParseName` | Log/Message.php:41-50 | a string parses to a level if and only if it is that level's name |
| `LogLevels.SearchFrom` | Log/Logger.php:161 | `array_search` from a position: the first matching position, or none when no later entry matches |
| `LogLevels.SearchIndex` | Log/Logger.php:161 | `array_search` in the level table finds a level name at its level's position and finds nothing else |
| `Messages.NewAsWritten` | Log/Message.php:60-72 | the constructor as written: a message exactly for the eight levels, else `\InvalidArgumentException` with the level in its text |
| `Messages.UnknownLevelEscapesPsrHandler` | Tests/Log/LoggerTest.php:44-49 | the exception thrown for `nonexistent-level` escapes a `Psr\Log\InvalidArgumentException` handler |
| `Messages.New` | Log/Message.php:60-72 | the corrected constructor: the same accepted levels and text, and the error is caught by handlers of both exception classes |
| `Messages.ArrayFields` | Log/Message.php:88-116 | `__toArray` and `jsonSerialize` have three entries, from which level (upper-cased in JSON), text and timestamp are read back by key |
| `Messages.JsonObject` | Log/Message.php:101-103 | a JSON object is wrapped in braces; the spaced layout opens with `{ ` |
| `Messages.CompactOpensWithKey` | Log/Message.php:101-103 | `json_encode` of a non-empty array starts its first key right after `{` |
| `Messages.NameFits` | Log/Message.php:123-129 | every level name is a non-empty lower-case word of at most nine letters, so it fits the level column |
| `Messages.ToStringRoundTrip` | Log/Message.php:123-129 | the one-line form of a message with a valid level reads back to the same level, text and timestamp |
| `LogMessages.New` | Log/LogMessage.php:24-36 | the constructor: a message exactly for the eight levels, else `Psr\Log\InvalidArgumentException` with the level in its text |
| `LogMessages.NewAgrees` | Log/LogMessage.php:24-36 | both message classes accept the same levels, build the same message and report the same error |
| `LogMessages.SameForms` | Log/LogMessage.php:42-64 | the array and one-line forms of the two classes are equal |
| `LogMessages.ToJsonIsSpacedObject` | Log/LogMessage.php:50-56 | the hand-built template is the spaced JSON object of the fields `jsonSerialize` gives |
| `LogMessages.JsonLayoutsDiffer` | Tests/Log/LoggerTest.php:62 | the template of `LogMessage` and the `json_encode` form of `Message` never coincide |
| `MessageDispatches.MessagesOf` | Log/MessageDispatch.php:38-42 | the messages of an array are never more than its elements |
| `MessageDispatches.Collected` | Log/MessageDispatch.php:28-45 | `initialize` ignores exactly non-arrays that are not messages and empty arrays, and takes a lone message as a list of one |
| `MessageDispatches.MessagesOfMessages` | Log/MessageDispatch.php:38-42 | an array of messages yields exactly those messages, in order |
| `MessageDispatches.MessagesOfAppend` | Log/MessageDispatch.php:38-42 | collecting from two arrays in turn collects from their concatenation |
| `MessageDispatches.MessageDispatch.constructor` | Chain/DispatchBase.php:19-49 | a new message dispatch has every flag false and no messages |
| `MessageDispatches.MessageDispatch.Initialize` | Log/MessageDispatch.php:28-50 | an ignored input changes nothing; otherwise the messages are appended in order and the dispatch is made valid at `now` |
| `Logging.Placeholder` | Log/Logger.php:114 | the placeholder of a key is the key in braces |
| `Logging.Replacements` | Log/Logger.php:113-132 | every key of the replacement table is a non-empty placeholder starting with `{` |
| `Logging.Interpolate` | Log/Logger.php:106-135 | the loop builds the replacement table and returns `Interpolated` of message and context |
| `Logging.InterpolateOne` | Log/Logger.php:113-134 | a placeholder of the only context key is replaced by the rendering of its value (`null` as `null`) |
| `Logging.InterpolateNoPlaceholder` | Log/Logger.php:107-109 | a message without an opening brace, or without a closing one, is returned unchanged whatever the context |
| `Logging.InterpolateEvery` | Log/Logger.php:113-134 | every occurrence of the only key's placeholder is replaced by its rendered value, however often the message repeats it |
| `Logging.ReplacementsTable` | Log/Logger.php:113-132 | with distinct keys the loop builds one pair per context entry, in context order: the key's placeholder and the rendered value |
| `Logging.FillStep` | Log/Logger.php:134 | one `str_replace` pass with the placeholder of a key not yet replaced replaces exactly that key's placeholders in a message and keeps all other text |
| `Logging.StrReplaceFill` | Log/Logger.php:134 | the pairs of the table, applied in turn, replace the placeholders of every key they name |
| `Logging.InterpolateTemplate` | Log/Logger.php:106-135 | for distinct keys without braces whose values render without `{`, every placeholder of every context key is replaced, each time it occurs; placeholders of other keys and all other text are kept |
| `Logging.InterpolateTest` | Tests/Log/LoggerTest.php:167-212 | `{replace}` becomes `REPLACE`, and `{obj}` with a null value becomes `null` |
| `Logging.MeetsMinimumLevel` | Log/Logger.php:160-162 | a known level meets the minimum exactly when it is at least as severe; an unknown one only when the minimum is `debug` |
| `Logging.MeetsMinimumLevelMonotone` | Log/Logger.php:160-162 | lowering the minimum never excludes a message |
| `Logging.Qualifying` | Log/Logger.php:172-176 | the filter keeps at most the buffered messages |
| `Logging.QualifyingAtDebug` | Log/Logger.php:172-176 | with the minimum at `debug` every message is output |
| `Logging.QualifyingExactly` | Log/Logger.php:172-176 | a message is output exactly when it was buffered and meets the minimum |
| `Logging.NewBatch` | Log/Logger.php:182-183 | the dispatch `output` builds holds the batch and is valid |
| `Logging.LinkAppenders` | Log/Logger.php:66-82 | a fresh chain that neither traces nor is an event chain holds exactly the appender objects among the items, in order |
| `Logging.Logger.constructor` | Log/Logger.php:76-82 | the appender objects among the given nodes are linked in order; nothing is buffered |
| `Logging.Logger.Create` | Log/Logger.php:65-85 | fails with the constructor's exception exactly for a minimum that is no level; otherwise the minimum is that level, or `debug` when none is given |
| `Logging.Logger.AddAppender` | Log/Logger.php:93-97 | the appender is linked when valid |
| `Logging.Logger.Log` | Log/Logger.php:147-151 | a known level appends one message with the interpolated text; an unknown one appends nothing and raises an exception with the level in its text. The message is built by the corrected `Messages.New`, so that exception is the PSR-3 one (see Findings) |
| `Logging.LogAsWrittenEscapesPsrHandler` | Log/Logger.php:147-151 | as written, `log` with an unknown level raises `\InvalidArgumentException`, which a handler for the PSR-3 exception does not catch |
| `Logging.Logger.Filter` | Log/Logger.php:170-176 | the filtering loop returns the qualifying messages in order |
| `Logging.Deliver` | Log/Logger.php:186 | a valid, not consumable dispatch traversed through a chain that does not trace reaches every node once, with the given sender, and leaves no trace |
| `Logging.Logger.Output` | Log/Logger.php:169-189 | with no qualifying message nothing changes; otherwise the qualifying messages are sent once, in order, to every appender with the logger as sender, and the buffer is cleared; the batch is recorded as delivered only when some appender is linked |
| `LoggerExamples.OneLevel` | Tests/Log/LoggerTest.php:51-165 | a message logged at any level is delivered alone and unchanged to the appender |
| `LoggerExamples.InterpolatedMessage` | Tests/Log/LoggerTest.php:167-212 | the appender receives the interpolated text |
| `LoggerExamples.NullInterpolated` | Tests/Log/LoggerTest.php:167-212 | a null context value is delivered as `null` |
| `LoggerExamples.BadMinimumLevelTest` | Tests/Log/LoggerTest.php:214-220 | a minimum that is no level raises `\InvalidArgumentException` |
| `LoggerExamples.LowMessagesWait` | Log/Logger.php:169-189 | a message below the minimum stays buffered until a qualifying one is output; then both are cleared and only the latter is sent |
| `LoggerExamples.MessageDispatchTest` | Tests/Log/LoggerTest.php:222-242 | a string and an empty array leave the dispatch invalid; an array with a message and a message make it valid |
| `Dispatches.ConsumeState` | Chain/DispatchBase.php:67-75 | `consume` succeeds exactly on a consumable dispatch not yet consumed, and then marks it consumed |
| `Dispatches.SetResultState` | Chain/DispatchBase.php:204-212 | a non-stateful dispatch keeps only the new result; a stateful one appends it |
| `Dispatches.Apply` | Chain/DispatchBase.php:157-185 | each operation raises only its own flag, and `makeValid` stamps the dispatch; nothing else changes |
| `Dispatches.FlagsOnlyRise` | Chain/DispatchBase.php:67-212 | no sequence of operations lowers a flag; a dispatch becomes consumed only if consumable; consistency is kept |
| `Dispatches.SetResultsAccumulate` | Chain/DispatchBase.php:204-212 | after several results a non-stateful dispatch holds the last one, a stateful one all of them in order |
| `Dispatches.Dispatch.constructor` | Chain/DispatchBase.php:19-49 | a new dispatch has every flag false, no timestamp and no results |
| `Dispatches.Dispatch.Consume` | Chain/DispatchBase.php:67-75 | returns whether it consumed the dispatch; the new state is `ConsumeState` of the old |
| `Dispatches.Dispatch.GetResults` | Chain/DispatchBase.php:93-99 | null when no result was recorded, else every result |
| `Dispatches.Dispatch.MakeConsumable` | Chain/DispatchBase.php:157-161 | raises the consumable flag and changes nothing else |
| `Dispatches.Dispatch.MakeStateful` | Chain/DispatchBase.php:168-172 | raises the stateful flag and changes nothing else |
| `Dispatches.Dispatch.MakeValid` | Chain/DispatchBase.php:180-185 | raises the valid flag and records `now` |
| `Dispatches.Dispatch.SetResult` | Chain/DispatchBase.php:204-212 | the new state is `SetResultState` of the old |
| `Nodes.Effect` | Tests/Chain/ChainTest.php:23-52 | processing keeps every flag but `consumed`; only a consuming node consumes, and only a counting node on a counting dispatch changes results |
| `Nodes.Node.constructor` | Tests/Chain/ChainTest.php:24-27 | a node with the given behaviour, appender flag, key and version |
| `Nodes.Node.NullAppender` | Log/NullAppender.php:19-24 | the null appender is a valid appender that does nothing |
| `Nodes.Node.IsValid` | Chain/NodeBase.php:58-60 | a node is valid exactly when neither key nor version is empty in PHP's sense |
| `Nodes.Node.SetKey` | Chain/NodeBase.php:77-81 | sets the key, keeps the version, returns the node |
| `Nodes.Node.SetVersion` | Chain/NodeBase.php:89-93 | sets the version, keeps the key, returns the node |
| `Nodes.Node.Process` | Chain/NodeBase.php:69 | the dispatch after `process` is the effect of the node's behaviour |
| `Nodes.UnsetNodeInvalid` | Tests/Chain/ValidityTest.php:85-92 | a node whose key or version was never set is invalid |
| `Chains.RunFrom` | Chain/ChainHelper.php:191-207 | the chain loop sends to at most the remaining nodes, and to at least one when any remains |
| `Chains.TraverseSpec` | Chain/ChainHelper.php:153-211 | accepted exactly when the chain is non-empty, the dispatch valid and not a consumed consumable one; a refusal changes nothing and emits its one message; an event chain sends to its only node |
| `Chains.RunFromInOrder` | Chain/ChainHelper.php:193-198 | the loop sends to the nodes in insertion order, all with the same sender |
| `Chains.RunFromState` | Chain/ChainHelper.php:193-207 | the dispatch left is the one produced by the nodes sent to, in order |
| `Chains.RunFromStopsAtConsumption` | Chain/ChainHelper.php:200-206 | the loop stops early only on consumption, and at the first node after which a consumable dispatch is consumed |
| `Chains.RunFromEvents` | Chain/ChainHelper.php:194-203 | with tracing, one message per node sent to, in order, and one more when consumed |
| `Chains.RunFromSilent` | Chain/ChainHelper.php:194-203 | without tracing the loop emits nothing |
| `Chains.TraverseSilent` | Chain/ChainHelper.php:153-211 | without tracing a traversal emits nothing |
| `Chains.Broadcast` | Chain/ChainHelper.php:193-198 | one call per node, in order, each with the given sender |
| `Chains.BroadcastReachesAll` | Chain/ChainHelper.php:182-207 | a valid non-consumable dispatch reaches every node of a chain exactly once, in order |
| `Chains.RunFromKeepsFlags` | Chain/ChainHelper.php:193-207 | a run keeps every flag and never clears `consumed` |
| `Chains.ConsumedStaysRefused` | Chain/ChainHelper.php:170-176 | a consumable dispatch a traversal consumed is refused by every later traversal and left as it is |
| `Chains.RunFromVisitsAll` | Chain/ChainHelper.php:193-207 | without a consuming node the loop visits every remaining node |
| `Chains.CountingResults` | Tests/Chain/ChainTest.php:29-40 | k counting nodes append the k numbers after the last result to a stateful dispatch, and leave only the last of them in a non-stateful one |
| `Chains.CountingChain` | Tests/Chain/ChainTest.php:55-101 | k counting nodes are all sent the dispatch and leave `[k]`, or `[1, ..., k]` when stateful |
| `Chains.ConsumeMidChain` | Tests/Chain/ChainTest.php:71-84 | counting, consuming, counting stops after the consuming node with the count at 1 |
| `Chains.TraverseAsWritten` | Chain/ChainHelper.php:162-168 | as written, only a debugging chain given an invalid dispatch can raise an error; with a valid dispatch or debugging off the outcome is `TraverseSpec` |
| `Chains.NeverValidatedRaises` | Chain/DispatchBase.php:52-57 | the invalid-dispatch test's traversal raises an error as written |
| `Chains.NeverValidatedRefused` | Chain/ChainHelper.php:162-168 | a dispatch never made valid is refused, left as it is, with one message when tracing |
| `Chains.Linked` | Chain/ChainHelper.php:116-140 | an invalid node is dropped, an event chain keeps only the new node, otherwise the node is appended |
| `Chains.ChainHelper.constructor` | Chain/ChainHelper.php:47-52 | an empty chain of the given kind and debug setting, with no callback |
| `Chains.ChainHelper.ToggleDebug` | Chain/ChainHelper.php:60-64 | sets the debug switch and returns the chain |
| `Chains.ChainHelper.GetNodeList` | Chain/ChainHelper.php:71-82 | the key and version of every node, in order |
| `Chains.ChainHelper.HookLogger` | Chain/ChainHelper.php:92-96 | a callback is hooked afterwards |
| `Chains.ChainHelper.Log` | Chain/ChainHelper.php:220-226 | the message reaches the trace only when a callback is hooked |
| `Chains.ChainHelper.Debug` | Chain/ChainHelper.php:155-157 | a trace point emits its message only when debugging with a callback hooked |
| `Chains.ChainHelper.LinkNode` | Chain/ChainHelper.php:116-140 | the nodes become `Linked` of the old nodes, with one message when tracing; an event chain holds at most one node |
| `Chains.ChainHelper.SendTo` | Chain/ChainHelper.php:194-198 | one send: a trace point, then one `process` call on the node |
| `Chains.ChainHelper.RunChain` | Chain/ChainHelper.php:191-207 | the loop leaves the dispatch, calls and trace that `RunFrom` describes |
| `Chains.ChainHelper.Traverse` | Chain/ChainHelper.php:153-211 | the result, the dispatch, the calls and the trace are those of `TraverseSpec`, with the chain as sender when none is given |
| `ChainExamples.LoggingTest` | Tests/Chain/LoggingTest.php:62-107 | the four callbacks receive 4, 3, 0 and 4 messages |
| `ChainExamples.ChainExecution` | Tests/Chain/ChainTest.php:55-69 | three counting nodes leave `[3]` and the chain lists three nodes |
| `ChainExamples.DispatchCanBeConsumed` | Tests/Chain/ChainTest.php:71-84 | the consuming node stops the chain with the count at 1 |
| `ChainExamples.DispatchHoldsStates` | Tests/Chain/ChainTest.php:86-101 | a stateful dispatch collects `[1, 2, 3]` |
| `ChainExamples.InvalidNodeGetsRemoved` | Tests/Chain/ValidityTest.php:85-92 | only the valid node is linked |
| `ChainExamples.InvalidDispatchFails` | Tests/Chain/ValidityTest.php:94-104 | a dispatch never made valid is refused |
| `ChainExamples.ValidDispatchPasses` | Tests/Chain/ValidityTest.php:106-118 | a valid dispatch through a valid node is accepted |
| `ReturnHelpers.ReturnHelper.constructor` | Utilities/ReturnHelper.php:41-47 | a new helper is bad and holds no messages or results |
| `ReturnHelpers.ReturnHelper.AddMessage` | Utilities/ReturnHelper.php:54-58 | appends one message |
| `ReturnHelpers.ReturnHelper.AddMessages` | Utilities/ReturnHelper.php:67-77 | an empty batch raises `\InvalidArgumentException` with its text and changes nothing; otherwise every message is appended in order |
| `ReturnHelpers.ReturnHelper.AddResult` | Utilities/ReturnHelper.php:84-88 | appends one result |
| `ReturnHelpers.ReturnHelper.AddResults` | Utilities/ReturnHelper.php:97-107 | the same for results, with its own text |
| `ReturnHelpers.ReturnHelper.MakeBad` | Utilities/ReturnHelper.php:170-174 | the helper is bad and not good; only the status changes |
| `ReturnHelpers.ReturnHelper.MakeGood` | Utilities/ReturnHelper.php:179-183 | the helper is good and not bad; only the status changes |
| `ReturnHelpers.GoodOrBad` | Utilities/ReturnHelper.php:115-127 | a helper is exactly one of good and bad |
| `ReturnHelperExamples.MessageHandling` | Tests/Utilities/ReturnHelperTest.php:9-34 | 0, 1, then 3 messages in order; the empty batch is refused with its text |
| `ReturnHelperExamples.ResultHandling` | Tests/Utilities/ReturnHelperTest.php:36-61 | the same for results |
| `ReturnHelperExamples.GoodVsBad` | Tests/Utilities/ReturnHelperTest.php:63-74 | bad at first, good after `makeGood`, bad after `makeBad` |
| `Enums.LastIndex` | Utilities/EnumBase.php:81-83 | the entry that decides a key of the built array is the last one storing it |
| `Enums.AssocLast` | Utilities/EnumBase.php:81-83 | a key stored by no later entry holds that entry's value |
| `Enums.AssocSize` | Utilities/EnumBase.php:76-79 | storing distinct keys gives as many entries |
| `Enums.ByName` | Utilities/EnumBase.php:131-135 | a name is in the table exactly when a constant is declared with it, and maps to its value |
| `Enums.ByValue` | Utilities/EnumBase.php:81-83 | a value is in the reverse map exactly when some constant carries it, and maps to the last name declared with it |
| `Enums.ReverseMap` | Utilities/EnumBase.php:81-83 | the name the reverse map gives a value is a declared constant with that value |
| `Enums.Enum.GetConstList` | Utilities/EnumBase.php:71-89 | the loop builds the reverse map of the declarations |
| `Enums.Enum.ValidName` | Utilities/EnumBase.php:131-135 | holds exactly when a constant has that name |
| `Enums.Enum.ValidValue` | Utilities/EnumBase.php:144-148 | holds exactly when some constant has that value |
| `Enums.Enum.constructor` | Utilities/EnumBase.php:157-168 | a valid value is stored with its reverse-map name; any other value leaves the instance blank |
| `Enums.Enum.FromString` | Utilities/EnumBase.php:50-63 | a null, empty or unknown name gives a blank instance; a valid name is stored with its value |
| `Enums.Enum.Is` | Utilities/EnumBase.php:210-216 | holds exactly when the instance holds that value |
| `Enums.Enum.IsIn` | Utilities/EnumBase.php:225-237 | holds exactly when the instance holds a value that is among the given ones |
| `Enums.Enum.ToString` | Utilities/EnumBase.php:175-181 | empty for a blank instance; a name that reads back to the value; or a decimal that reads back to the value |
| `Enums.TryGetEnum` | Utilities/EnumBase.php:104-122 | throws for a class outside the enum hierarchy; returns an instance of the class unchanged; stores a valid integer in a new valid instance, named by the constant that has that value; otherwise a blank valid instance |
| `EnumExamples.Instantiation` | Tests/Utilities/EnumBaseTest.php:20-37 | value 1 gives `FIRST_VALUE`; 5 is not held; `FIRST_VALUE` gives 1; the empty name gives no name |
| `EnumExamples.ConstList` | Tests/Utilities/EnumBaseTest.php:39-44 | the two enums have 4 and 1 names |
| `EnumExamples.Serialization` | Tests/Utilities/EnumBaseTest.php:46-54 | serialized as `FIRST_VALUE`, or as `1` |
| `EnumExamples.NameRoundTrip` | Utilities/EnumBase.php:57-62 | `fromString` of the name of an instance built from a valid value gives that value back |
| `EnumExamples.ValueRoundTrip` | Utilities/EnumBase.php:175-181 | the decimal form of an instance, read back and given to the constructor, gives the same value and name |

## Left out

- Clocks: `new \DateTime('now')`, `gettimeofday` and `microtime` are replaced by a timestamp the caller supplies, in text form.
- Debug message text: each debug message is an abstract `TraceEvent` with the node's position. The text, including `__toString` of nodes and dispatches, is not modelled. The one place where building that text fails is a finding below.
- `call_user_func`: calling the hooked callback is modelled as appending to the `trace` field. Only whether a callback is hooked is recorded.
- `ChainHelper.hookLogger` returns nothing; the logging test's check of its return value is not a property here.
- Concrete `process` bodies are the extension point. The `Behaviour` datatype stands in for them: doing nothing, the counting node of the tests, and the consuming node. The dispatch class a node checks with `instanceof` is the `DispatchKind` of the dispatch.
- `isDispatchOfType` is called by a validity test but is not defined in `Chain/NodeBase.php`. It is not part of this model.
- `getCalledDateTime` and the flag getters of the dispatch are plain field reads of the `Dispatch` class.
- `MessageDispatch` extends the dispatch base class. Here it holds a `Dispatch` as `base`.
- `AppenderBase` is the `isAppender` flag of a node. `MemoryAppender`, the test appender that records messages, is the ghost field `Logger.sent`: every batch delivered to at least one appender.
- The PSR-3 shortcut methods (`alert`, `debug`, …) of the logger's base class are not modelled. Each one calls `log` with its level.
- `Logging.Interpolate`: context values are strings, integers, booleans and null. Floats, arrays, objects, exceptions and dates, with their renderings, are not modelled. Context keys are strings. `Logging.InterpolateTemplate` covers distinct keys without braces whose values render without `{`; a replacement that creates or breaks another key's placeholder is not covered by a lemma.
- `Logging.Logger.Create`: a minimum level is a string. `in_array`'s loose comparison of non-string values is not modelled. A null appender list is the empty list.
- `Messages.JsonObject` does not model `json_encode`'s escaping of quotes, backslashes, slashes and non-ASCII text.
- `Enums.Enum.GetConstList`: the constants come from the class's declarations, not from reflection. The static per-class cache is not modelled. Constant values are integers.
- `Enums.TryGetEnum`: the class check (`is_a`) compares the class itself; subclasses of an enum class are not modelled. An enum of another class is treated as an invalid value and gives a blank instance; a PHP 8 runtime instead raises a `TypeError` from `array_key_exists`.
- `Enums.Enum.FromString` and the constructor take a boolean for `$serializeAsName`; other values are not modelled.

## Findings

| source | as written | input that shows it | evidently intended | confidence | as-written member | corrected member |
|---|---|---|---|---|---|---|
| Chain/ChainHelper.php:162-168 | With debugging on, the refusal message for an invalid dispatch concatenates the dispatch. Its `__toString` (Chain/DispatchBase.php:52-57) formats a timestamp that a dispatch never made valid does not have, so PHP raises an error. | A chain built with debugging on, one valid node, and a dispatch whose `initialize` never calls `makeValid` (test_invalidDispatchFails) | `traverse` returns false | not executed | `Chains.TraverseAsWritten`, `Chains.NeverValidatedRaises` | `Chains.NeverValidatedRefused`, `Chains.ChainHelper.Traverse` |
| Log/Message.php:61-63 | An unknown level raises PHP's own `\InvalidArgumentException`. Section 1.1 of PSR-3 requires `Psr\Log\InvalidArgumentException`, which the test catches and `Log/LogMessage.php` throws. `Logger::log` (Log/Logger.php:148) builds its message with this constructor, so logging at an unknown level raises the same exception. | `new Message('nonexistent-level', 'testing')` | raise `Psr\Log\InvalidArgumentException` | not executed | `Messages.NewAsWritten`, `Messages.UnknownLevelEscapesPsrHandler`, `Logging.LogAsWrittenEscapesPsrHandler` | `Messages.New`, `Logging.Logger.Log` |
