/** The PSR-3 logger (Log/Logger.php): it buffers messages, interpolates
    context values into their placeholders, and on `output` hands the
    messages at or above its minimum level to its chain of appenders in one
    message dispatch. */
module Logging {
  import opened Types
  import opened Php
  import opened LogLevels
  import opened Messages
  import opened Dispatches
  import opened Nodes
  import opened Chains
  import opened MessageDispatches

  /** A context value: a string, an integer, a boolean or null. */
  datatype ContextValue = Str(s: string) | Int(i: int) | Bool(b: bool) | Null

  /** The context array of a log call: keys with their values, in order. */
  type Context = seq<(string, ContextValue)>

  /** The text a context value stands for in the message: null becomes
      the word `null`; a scalar is converted to a string by `str_replace`,
      `true` to "1" and `false` to "". */
  function Rendered(v: ContextValue): string
  {
    match v
    case Null => "null"
    case Str(s) => s
    case Int(i) => IntToString(i)
    case Bool(b) => if b then "1" else ""
  }

  /** The placeholder of a context key: the key in braces. */
  function Placeholder(key: string): (p: string)
    ensures |p| == |key| + 2 && p[0] == '{' && p[|p| - 1] == '}'
  {
    "{" + key + "}"
  }

  /** `$array[$key] = $value` on an associative array of strings: an
      existing key keeps its position and takes the new value; a new key is
      appended. */
  function Put(pairs: seq<(string, string)>, key: string, value: string): (r: seq<(string, string)>)
    ensures forall k :: 0 <= k < |r| ==> r[k].0 == key || r[k] in pairs
  {
    if pairs == [] then [(key, value)]
    else if pairs[0].0 == key then [(key, value)] + pairs[1..]
    else [pairs[0]] + Put(pairs[1..], key, value)
  }

  /** The replacement table `interpolate` builds: each key's placeholder
      mapped to the rendered value, in context order. */
  function Replacements(context: Context): (r: seq<(string, string)>)
    ensures forall k :: 0 <= k < |r| ==> |r[k].0| > 0 && r[k].0[0] == '{'
    decreases |context|
  {
    if context == [] then []
    else
      var (key, v) := context[|context| - 1];
      var r := Put(Replacements(context[..|context| - 1]), Placeholder(key), Rendered(v));
      r
  }

  /** What `interpolate` returns: a message without an opening or without
      a closing brace is returned as it is; otherwise every placeholder of
      a context key is replaced, key by key. */
  function Interpolated(message: string, context: Context): string
  {
    if '{' !in message || '}' !in message then message
    else StrReplace(Replacements(context), message)
  }

  /** `interpolate`, with the loop that builds the replacement table. */
  method Interpolate(message: string, context: Context) returns (r: string)
    ensures r == Interpolated(message, context)
  {
    if '{' !in message || '}' !in message {
      return message;
    }
    var replacements: seq<(string, string)> := [];
    for k := 0 to |context|
      invariant replacements == Replacements(context[..k])
    {
      assert context[..k + 1][..k] == context[..k];
      var (key, v) := context[k];
      replacements := Put(replacements, "{" + key + "}", Rendered(v));
    }
    assert context[..|context|] == context;
    r := StrReplace(replacements, message);
  }

  /** A message that mentions one placeholder of the only context key, with
      no other brace before or after it, gets the rendered value in its
      place and is otherwise unchanged. */
  lemma InterpolateOne(before: string, key: string, after: string, v: ContextValue)
    requires '{' !in before && '{' !in after
    ensures Interpolated(before + Placeholder(key) + after, [(key, v)]) == before + Rendered(v) + after
  {
    var message := before + Placeholder(key) + after;
    assert message[|before|] == '{' && message[|before| + |key| + 1] == '}';
    assert [(key, v)][..0] == [];
    assert Replacements([(key, v)][..0]) == [];
    assert Put([], Placeholder(key), Rendered(v)) == [(Placeholder(key), Rendered(v))];
    var table := Replacements([(key, v)]);
    assert table == [(Placeholder(key), Rendered(v))];
    assert StrReplace(table, message) == StrReplace(table[1..], ReplaceAll(message, Placeholder(key), Rendered(v)));
    ReplaceAllOnce(before, after, Placeholder(key), Rendered(v));
  }

  /** A message without an opening brace, or without a closing one, is
      never changed, whatever the context. */
  lemma InterpolateNoPlaceholder(message: string, context: Context)
    requires '{' !in message || '}' !in message
    ensures Interpolated(message, context) == message
  {
  }

  /** Every occurrence of the placeholder of the only context key is
      replaced, however often the message repeats it: text without braces
      joined by the placeholder comes out joined by the rendered value. */
  lemma InterpolateEvery(parts: seq<string>, key: string, v: ContextValue)
    requires |parts| > 0 && forall i :: 0 <= i < |parts| ==> '{' !in parts[i]
    ensures Interpolated(Join(parts, Placeholder(key)), [(key, v)]) == Join(parts, Rendered(v))
  {
    var p, w := Placeholder(key), Rendered(v);
    if |parts| == 1 {
      assert Join(parts, p) == parts[0] && Join(parts, w) == parts[0];
    } else {
      var m := Join(parts, p);
      JoinBraces(parts, key);
      assert '{' in m && '}' in m;
      assert Interpolated(m, [(key, v)]) == StrReplace(Replacements([(key, v)]), m);
      ReplacementsTable([(key, v)]);
      assert Table([(key, v)]) == [(p, w)];
      assert StrReplace([(p, w)], m) == StrReplace([], ReplaceAll(m, p, w));
      assert StrReplace([], ReplaceAll(m, p, w)) == ReplaceAll(m, p, w);
      ReplaceAllJoin(parts, p, w);
      assert ReplaceAll(m, p, w) == Join(parts, w);
    }
  }

  /** A message that joins two or more parts by a placeholder has both
      braces. */
  lemma JoinBraces(parts: seq<string>, key: string)
    requires |parts| > 1
    ensures '{' in Join(parts, Placeholder(key)) && '}' in Join(parts, Placeholder(key))
  {
    var p := Placeholder(key);
    assert p[0] == '{' && p[|p| - 1] == '}';
    assert Join(parts, p) == parts[0] + p + Join(parts[1..], p);
  }

  /** A message template: literal text and placeholders of keys. */
  datatype Piece = Text(text: string) | Hole(key: string)

  /** A key that holds no brace. */
  predicate Bare(key: string)
  {
    '{' !in key && '}' !in key
  }

  /** Text without an opening brace, and placeholders of keys without
      braces. */
  predicate Template(pieces: seq<Piece>)
  {
    forall i :: 0 <= i < |pieces| ==>
      match pieces[i]
      case Text(t) => '{' !in t
      case Hole(key) => Bare(key)
  }

  /** A context whose keys are distinct and hold no brace, and whose values
      render without an opening brace. */
  predicate Plain(context: Context)
  {
    && (forall i, j :: 0 <= i < j < |context| ==> context[i].0 != context[j].0)
    && (forall i :: 0 <= i < |context| ==> Bare(context[i].0) && '{' !in Rendered(context[i].1))
  }

  /** The value of a key in a context: that of its first entry. */
  function Lookup(context: Context, key: string): (r: Option<ContextValue>)
    ensures r.Some? ==> exists i :: 0 <= i < |context| && context[i] == (key, r.value)
    ensures r.None? <==> forall i :: 0 <= i < |context| ==> context[i].0 != key
  {
    if context == [] then None
    else if context[0].0 == key then Some(context[0].1)
    else
      var r := Lookup(context[1..], key);
      assert forall i :: 0 < i < |context| ==> context[i] == context[1..][i - 1];
      r
  }

  /** The text one piece shows once the keys of `filled` are replaced. */
  function Shown(p: Piece, filled: Context): string
  {
    match p
    case Text(t) => t
    case Hole(key) =>
      match Lookup(filled, key)
      case Some(v) => Rendered(v)
      case None => Placeholder(key)
  }

  /** The template with the placeholders of the keys of `filled` replaced
      by their rendered values and every other placeholder left as it is;
      `Fill(pieces, [])` is the message as logged. */
  function Fill(pieces: seq<Piece>, filled: Context): string
  {
    if pieces == [] then "" else Shown(pieces[0], filled) + Fill(pieces[1..], filled)
  }

  /** The replacement table of a context with distinct keys, built
      directly: one pair per entry, in context order. */
  function Table(context: Context): seq<(string, string)>
  {
    seq(|context|, i requires 0 <= i < |context| => (Placeholder(context[i].0), Rendered(context[i].1)))
  }

  /** The table of a context starts with the pair of its first entry. */
  lemma TableTail(context: Context)
    requires context != []
    ensures Table(context)[0] == (Placeholder(context[0].0), Rendered(context[0].1))
    ensures Table(context)[1..] == Table(context[1..])
  {
  }

  /** The table of a context ends with the pair of its last entry. */
  lemma TableSnoc(context: Context)
    requires context != []
    ensures var n := |context| - 1;
      Table(context) == Table(context[..n]) + [(Placeholder(context[n].0), Rendered(context[n].1))]
  {
  }

  /** Distinct keys have distinct placeholders. */
  lemma PlaceholderDistinct(a: string, b: string)
    requires a != b
    ensures Placeholder(a) != Placeholder(b)
  {
    assert Placeholder(a)[1..|a| + 1] == a;
    assert Placeholder(b)[1..|b| + 1] == b;
  }

  /** Storing a key the table does not hold appends it. */
  lemma {:induction false} PutNew(pairs: seq<(string, string)>, key: string, value: string)
    requires forall k :: 0 <= k < |pairs| ==> pairs[k].0 != key
    ensures Put(pairs, key, value) == pairs + [(key, value)]
    decreases |pairs|
  {
    if pairs != [] {
      PutNew(pairs[1..], key, value);
      assert pairs == [pairs[0]] + pairs[1..];
    }
  }

  /** With distinct keys the loop of `interpolate` builds one pair per
      context entry, in order. */
  lemma {:induction false} ReplacementsTable(context: Context)
    requires forall i, j :: 0 <= i < j < |context| ==> context[i].0 != context[j].0
    ensures Replacements(context) == Table(context)
    decreases |context|
  {
    if context != [] {
      var n := |context| - 1;
      var init := context[..n];
      ReplacementsTable(init);
      var (key, v) := context[n];
      forall k | 0 <= k < n
        ensures Table(init)[k].0 != Placeholder(key)
      {
        PlaceholderDistinct(init[k].0, key);
      }
      PutNew(Table(init), Placeholder(key), Rendered(v));
      TableSnoc(context);
    }
  }

  /** Looking up in a context extended by one entry. */
  lemma {:induction false} LookupAppend(filled: Context, key: string, v: ContextValue, k: string)
    ensures Lookup(filled + [(key, v)], k)
         == if Lookup(filled, k).Some? then Lookup(filled, k) else if k == key then Some(v) else None
    decreases |filled|
  {
    if filled != [] {
      assert (filled + [(key, v)])[1..] == filled[1..] + [(key, v)];
      LookupAppend(filled[1..], key, v, k);
    }
  }

  /** One step of `str_replace`: replacing the placeholder of a key not yet
      filled fills exactly that key's placeholders. */
  lemma {:induction false} FillStep(pieces: seq<Piece>, filled: Context, key: string, v: ContextValue)
    requires Template(pieces) && Bare(key) && Lookup(filled, key).None?
    requires forall i :: 0 <= i < |filled| ==> '{' !in Rendered(filled[i].1)
    ensures ReplaceAll(Fill(pieces, filled), Placeholder(key), Rendered(v)) == Fill(pieces, filled + [(key, v)])
    decreases |pieces|
  {
    if pieces != [] {
      var search := Placeholder(key);
      var rest := Fill(pieces[1..], filled);
      assert Template(pieces[1..]) by {
        forall i | 0 <= i < |pieces| - 1
          ensures pieces[1..][i] == pieces[i + 1]
        {
        }
      }
      FillStep(pieces[1..], filled, key, v);
      match pieces[0]
      case Text(t) =>
        ReplaceAllKeepsPrefix(t, rest, search, Rendered(v));
      case Hole(k) =>
        HoleStep(k, filled, key, v, rest);
    }
  }

  /** The step of `FillStep` on a placeholder followed by `rest`. */
  lemma HoleStep(k: string, filled: Context, key: string, v: ContextValue, rest: string)
    requires Bare(k) && Bare(key) && Lookup(filled, key).None?
    requires forall i :: 0 <= i < |filled| ==> '{' !in Rendered(filled[i].1)
    ensures ReplaceAll(Shown(Hole(k), filled) + rest, Placeholder(key), Rendered(v))
         == Shown(Hole(k), filled + [(key, v)]) + ReplaceAll(rest, Placeholder(key), Rendered(v))
  {
    var search := Placeholder(key);
    LookupAppend(filled, key, v, k);
    match Lookup(filled, k)
    case Some(w) =>
      ReplaceAllKeepsPrefix(Rendered(w), rest, search, Rendered(v));
    case None =>
      if k == key {
        ReplaceAllFront(search, rest, Rendered(v));
      } else {
        OtherPlaceholder(k, key, rest, Rendered(v));
      }
  }

  /** The placeholder of another key without braces starts no occurrence
      of a placeholder. */
  lemma OtherPlaceholder(k: string, key: string, rest: string, w: string)
    requires Bare(k) && Bare(key) && k != key
    ensures ReplaceAll(Placeholder(k) + rest, Placeholder(key), w) == Placeholder(k) + ReplaceAll(rest, Placeholder(key), w)
  {
    var seg, search := Placeholder(k), Placeholder(key);
    assert seg[1..] == k + "}";
    if |k| < |key| {
      assert seg[|k| + 1] == '}' && search[|k| + 1] == key[|k|];
      ReplaceAllSkip(seg, rest, search, w, |k| + 1);
    } else if |key| < |k| {
      assert seg[|key| + 1] == k[|key|] && search[|key| + 1] == '}';
      ReplaceAllSkip(seg, rest, search, w, |key| + 1);
    } else {
      var i :| 0 <= i < |k| && k[i] != key[i];
      assert seg[i + 1] == k[i] && search[i + 1] == key[i];
      ReplaceAllSkip(seg, rest, search, w, i + 1);
    }
  }

  /** The next key to fill is new, and the values already filled render
      without an opening brace. */
  lemma PlainNext(filled: Context, todo: Context)
    requires Plain(filled + todo) && todo != []
    ensures Bare(todo[0].0) && Lookup(filled, todo[0].0).None?
    ensures forall i :: 0 <= i < |filled| ==> '{' !in Rendered(filled[i].1)
  {
    var all := filled + todo;
    assert all[|filled|] == todo[0];
    forall i | 0 <= i < |filled|
      ensures filled[i].0 != todo[0].0 && '{' !in Rendered(filled[i].1)
    {
      assert all[i] == filled[i];
    }
  }

  /** The pairs of the table applied in turn fill the keys they name. */
  lemma {:induction false} StrReplaceFill(pieces: seq<Piece>, filled: Context, todo: Context)
    requires Template(pieces) && Plain(filled + todo)
    ensures StrReplace(Table(todo), Fill(pieces, filled)) == Fill(pieces, filled + todo)
    decreases |todo|
  {
    if todo == [] {
      assert filled + todo == filled;
    } else {
      var (key, v) := todo[0];
      PlainNext(filled, todo);
      FillStep(pieces, filled, key, v);
      TableTail(todo);
      assert (filled + [(key, v)]) + todo[1..] == filled + todo;
      StrReplaceFill(pieces, filled + [(key, v)], todo[1..]);
    }
  }

  /** A template with a placeholder has both braces. */
  lemma {:induction false} HoleBraces(pieces: seq<Piece>, i: nat)
    requires i < |pieces| && pieces[i].Hole?
    ensures '{' in Fill(pieces, []) && '}' in Fill(pieces, [])
    decreases i
  {
    var rest := Fill(pieces[1..], []);
    if i == 0 {
      var p := Placeholder(pieces[0].key);
      assert p[0] == '{' && p[|p| - 1] == '}';
      assert Fill(pieces, []) == p + rest;
    } else {
      HoleBraces(pieces[1..], i - 1);
    }
  }

  /** A template without placeholders is its text, whatever is filled. */
  lemma {:induction false} FillNoHoles(pieces: seq<Piece>, context: Context)
    requires Template(pieces) && forall i :: 0 <= i < |pieces| ==> pieces[i].Text?
    ensures Fill(pieces, context) == Fill(pieces, []) && '{' !in Fill(pieces, [])
    decreases |pieces|
  {
    if pieces != [] {
      assert forall i :: 0 <= i < |pieces| - 1 ==> pieces[1..][i] == pieces[i + 1];
      FillNoHoles(pieces[1..], context);
    }
  }

  /** `interpolate` replaces every placeholder of every context key, each
      as often as it occurs, by the rendered value, and leaves the
      placeholders of other keys and all other text as they are. */
  lemma InterpolateTemplate(pieces: seq<Piece>, context: Context)
    requires Template(pieces) && Plain(context)
    ensures Interpolated(Fill(pieces, []), context) == Fill(pieces, context)
  {
    if i :| 0 <= i < |pieces| && pieces[i].Hole? {
      HoleBraces(pieces, i);
      ReplacementsTable(context);
      assert [] + context == context;
      StrReplaceFill(pieces, [], context);
    } else {
      FillNoHoles(pieces, context);
    }
  }

  /** The interpolation test: `{replace}` is replaced by its string value,
      and a null value becomes the word `null`. */
  lemma InterpolateTest()
    ensures Interpolated("Testing the way we {replace} strings.", [("replace", Str("REPLACE"))])
         == "Testing the way we REPLACE strings."
    ensures Interpolated("{obj}", [("obj", Null)]) == "null"
  {
    InterpolateOne("Testing the way we ", "replace", " strings.", Str("REPLACE"));
    InterpolateOne("", "obj", "", Null);
    TestMessages();
  }

  lemma TestMessages()
    ensures "Testing the way we " + Placeholder("replace") + " strings." == "Testing the way we {replace} strings."
    ensures "Testing the way we " + Rendered(Str("REPLACE")) + " strings." == "Testing the way we REPLACE strings."
    ensures "" + Placeholder("obj") + "" == "{obj}"
    ensures "" + Rendered(Null) + "" == "null"
  {
  }

  /** PHP's `>=` between the results of two `array_search` calls, either of
      which may be `false`: a number is compared with `false` as a
      boolean, so `false` is at least a number only when that number is 0. */
  function LooseAtLeast(a: Option<nat>, b: Option<nat>): bool
  {
    match (a, b)
    case (Some(x), Some(y)) => x >= y
    case (None, Some(y)) => y == 0
    case (Some(_), None) => true
    case (None, None) => true
  }

  /** `meetsMinimumLevel`: a level at least as severe as the minimum meets
      it; a string that is no level meets only the lowest minimum. */
  function MeetsMinimumLevel(level: string, minLevel: Level): (r: bool)
    ensures r <==> match Parse(level)
                   case Some(l) => Index(l) >= Index(minLevel)
                   case None => minLevel == Debug
  {
    SearchIndex(level);
    SearchIndex(Name(minLevel));
    ParseName(minLevel, Name(minLevel));
    LooseAtLeast(Search(level), Search(Name(minLevel)))
  }

  /** Lowering the minimum never excludes a message that met it. */
  lemma MeetsMinimumLevelMonotone(level: string, lower: Level, higher: Level)
    requires Index(lower) <= Index(higher) && MeetsMinimumLevel(level, higher)
    ensures MeetsMinimumLevel(level, lower)
  {
  }

  /** The messages of `ms` that meet the minimum, in order. */
  function Qualifying(ms: seq<Message>, minLevel: Level): (r: seq<Message>)
    ensures |r| <= |ms|
    decreases |ms|
  {
    if ms == [] then []
    else
      var last := ms[|ms| - 1];
      Qualifying(ms[..|ms| - 1], minLevel) + (if MeetsMinimumLevel(last.level, minLevel) then [last] else [])
  }

  /** With the lowest minimum every message is output. */
  lemma {:induction false} QualifyingAtDebug(ms: seq<Message>)
    ensures Qualifying(ms, Debug) == ms
    decreases |ms|
  {
    if ms != [] {
      QualifyingAtDebug(ms[..|ms| - 1]);
      assert ms[..|ms| - 1] + [ms[|ms| - 1]] == ms;
    }
  }

  /** A message is output exactly when it was buffered and meets the
      minimum. */
  lemma {:induction false} QualifyingExactly(ms: seq<Message>, minLevel: Level)
    ensures forall m :: m in Qualifying(ms, minLevel) <==> m in ms && MeetsMinimumLevel(m.level, minLevel)
    decreases |ms|
  {
    if ms != [] {
      QualifyingExactly(ms[..|ms| - 1], minLevel);
      assert ms == ms[..|ms| - 1] + [ms[|ms| - 1]];
    }
  }

  /** `log` as written builds its message with the constructor as written:
      for an unknown level the exception it raises is PHP's own
      `\InvalidArgumentException`, which a `Psr\Log\InvalidArgumentException`
      handler does not catch. */
  lemma LogAsWrittenEscapesPsrHandler(level: string, message: string, context: Context, now: Timestamp)
    requires level !in Levels
    ensures var r := NewAsWritten(level, Interpolated(message, context), now);
      r.Failure? && r.error.text == InvalidLevelText(level)
      && !Catches(PsrInvalidArgument, r.error.kind) && Catches(SplInvalidArgument, r.error.kind)
  {
  }

  /** The appenders among `items`, in order: nodes of the appender class
      that `linkNode` accepts. */
  function Appenders(items: seq<Node>): seq<Node>
    reads items
    decreases |items|
  {
    if items == [] then []
    else
      var n := items[|items| - 1];
      Appenders(items[..|items| - 1]) + (if n.isAppender && n.IsValid() then [n] else [])
  }

  /** The exception the constructor throws for an unknown minimum level. */
  const BadMinimumLevel := Exception(SplInvalidArgument, "Invalid log level supplied to Logger constructor")

  /** The dispatch `output` builds: a new message dispatch initialized with
      the batch, holding exactly its messages and valid since `now`. */
  method NewBatch(batch: seq<Message>, now: Timestamp) returns (disp: MessageDispatch)
    requires batch != []
    ensures fresh(disp) && fresh(disp.base) && disp.Valid() && disp.messages == batch
    ensures disp.base.State() == Apply(MakeValidCall(now), Unset)
  {
    disp := new MessageDispatch();
    var items := seq(|batch|, k requires 0 <= k < |batch| => MessageValue(batch[k]));
    disp.Initialize(ArrayInput(items), now);
    MessagesOfMessages(batch);
  }

  /** The linking loop of the constructor: a fresh plain chain holding the
      appender objects among `items`, in order. */
  method LinkAppenders(items: seq<Node>) returns (chain: ChainHelper)
    ensures fresh(chain) && chain.Valid() && !chain.isEvent && !chain.doDebug
    ensures chain.trace == [] && chain.calls == []
    ensures chain.nodes == Appenders(items)
    ensures forall n :: n in chain.nodes ==> n.isAppender
  {
    chain := new ChainHelper(false, false);
    for k := 0 to |items|
      invariant fresh(chain) && chain.Valid() && !chain.isEvent && !chain.doDebug && !chain.hooked
      invariant chain.trace == [] && chain.calls == []
      invariant chain.nodes == Appenders(items[..k])
      invariant forall n :: n in chain.nodes ==> n.isAppender
    {
      assert items[..k + 1][..k] == items[..k];
      if items[k].isAppender {
        var _ := chain.LinkNode(items[k]);
      }
    }
    assert items[..|items|] == items;
  }

  /** The traversal of `output`: a valid, not consumable dispatch sent
      through a plain chain that does not trace reaches every node once,
      each call made with `sender`, and records no trace. */
  method Deliver(chain: ChainHelper, d: Dispatch, sender: object)
    requires chain.Valid() && !chain.isEvent && !chain.doDebug
    requires d.Valid() && d.State().valid && !d.State().consumable
    modifies chain`trace, chain`calls, d
    ensures chain.calls == old(chain.calls) + Broadcast(|chain.nodes|, sender)
    ensures chain.trace == old(chain.trace)
  {
    ghost var bs, kind, d0 := Behaviours(chain.nodes), d.kind, d.State();
    var _ := chain.Traverse(d, sender);
    BroadcastReachesAll(bs, kind, d0, sender, false);
    TraverseSilent(bs, false, kind, d0, sender);
  }

  class Logger {
    const appenders: ChainHelper
    var messages: seq<Message>
    var minLevel: Level
    /** Every batch of messages handed to the appenders, in order; a batch
        output while no appender is linked reaches nobody and is not in it. */
    ghost var sent: seq<seq<Message>>

    /** The appender chain is a plain chain that never traces and holds only
        appenders; every buffered message has a valid level. */
    ghost predicate Valid()
      reads this, appenders
    {
      && appenders.Valid() && !appenders.isEvent && !appenders.doDebug && appenders.trace == []
      && (forall n :: n in appenders.nodes ==> n.isAppender)
      && (forall k :: 0 <= k < |messages| ==> HasValidLevel(messages[k]))
    }

    /** The constructor once the minimum level is known: the appender
        objects among `items` are linked in order. */
    constructor (minLevel: Level, items: seq<Node>)
      ensures Valid() && fresh(appenders)
      ensures this.minLevel == minLevel && messages == [] && sent == []
      ensures appenders.nodes == Appenders(items) && appenders.calls == []
    {
      var chain := LinkAppenders(items);
      appenders := chain;
      messages := [];
      this.minLevel := minLevel;
      sent := [];
    }

    /** The constructor: no minimum means the lowest level; a minimum that
        is not a level raises an exception. */
    static method Create(minimumLevel: Option<string>, items: seq<Node>) returns (r: Result<Logger, Exception>)
      ensures r.Failure? <==> minimumLevel.Some? && minimumLevel.value !in Levels
      ensures r.Failure? ==> r.error == BadMinimumLevel
      ensures r.Success? ==>
        && fresh(r.value) && fresh(r.value.appenders) && r.value.Valid()
        && r.value.messages == [] && r.value.sent == []
        && r.value.minLevel == (if minimumLevel.None? then Debug else Parse(minimumLevel.value).value)
        && r.value.appenders.nodes == Appenders(items) && r.value.appenders.calls == []
    {
      var minLevel := Debug;
      if minimumLevel.Some? {
        var parsed := Parse(minimumLevel.value);
        if parsed.None? {
          return Failure(BadMinimumLevel);
        }
        minLevel := parsed.value;
      }
      var logger := new Logger(minLevel, items);
      return Success(logger);
    }

    /** `addAppender`: links the appender (dropped if its key or version is
        unset). */
    method AddAppender(appender: Node)
      requires Valid() && appender.isAppender
      modifies appenders`nodes, appenders`trace
      ensures Valid()
      ensures appenders.nodes == Linked(old(appenders.nodes), false, appender.IsValid(), appender)
    {
      var _ := appenders.LinkNode(appender);
    }

    /** `log`: interpolates the context and buffers one message; an unknown
        level raises an exception and buffers nothing. The message is built
        by the corrected constructor `Messages.New`, so the exception is the
        one PSR-3 prescribes; as written, `log` passes on the constructor's
        own `\InvalidArgumentException` (see `LogAsWrittenEscapesPsrHandler`). */
    method Log(level: string, message: string, context: Context, now: Timestamp) returns (error: Option<Exception>)
      requires Valid()
      modifies this`messages
      ensures Valid()
      ensures error.None? <==> level in Levels
      ensures error.None? ==> messages == old(messages) + [Message(level, Interpolated(message, context), now)]
      ensures error.Some? ==> messages == old(messages) && error.value.text == InvalidLevelText(level)
      ensures error.Some? ==> Catches(PsrInvalidArgument, error.value.kind)
    {
      var text := Interpolate(message, context);
      var m := New(level, text, now);
      if m.Failure? {
        return Some(m.error);
      }
      messages := messages + [m.value];
      return None;
    }

    /** The filtering loop of `output`: the buffered messages that meet
        the minimum, in order. */
    method Filter() returns (kept: seq<Message>)
      ensures kept == Qualifying(messages, minLevel)
    {
      var all := messages;
      kept := [];
      for k := 0 to |all|
        invariant kept == Qualifying(all[..k], minLevel)
      {
        assert all[..k + 1][..k] == all[..k];
        if MeetsMinimumLevel(all[k].level, minLevel) {
          kept := kept + [all[k]];
        }
      }
      assert all[..|all|] == all;
    }

    /** `output`: when some buffered message meets the minimum, exactly
        those messages, in order, are sent in one dispatch through every
        appender, with the logger as sender, and the whole buffer is
        cleared; otherwise nothing happens and the buffer is kept. With no
        appender linked, `traverse` refuses the dispatch: the buffer is still
        cleared, but no batch is delivered. */
    method Output(now: Timestamp)
      requires Valid()
      modifies this`messages, this`sent, appenders`calls, appenders`trace
      ensures Valid()
      ensures var q := Qualifying(old(messages), minLevel);
        if q == [] then
          messages == old(messages) && sent == old(sent) && appenders.calls == old(appenders.calls)
        else
          messages == [] && sent == old(sent) + (if |appenders.nodes| > 0 then [q] else [])
          && appenders.calls == old(appenders.calls) + Broadcast(|appenders.nodes|, this)
    {
      var kept := Filter();
      if |kept| < 1 {
        return;
      }
      var disp := NewBatch(kept, now);
      messages := [];
      if |appenders.nodes| > 0 {
        sent := sent + [disp.messages];
      }
      Deliver(appenders, disp.base, this);
    }
  }
}
