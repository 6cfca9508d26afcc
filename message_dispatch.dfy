/** The dispatch that carries log messages to the appenders
    (Log/MessageDispatch.php). The class extends the dispatch base class;
    here it holds its dispatch state as `base`. */
module MessageDispatches {
  import opened Types
  import opened Dispatches
  import opened Messages

  /** An element of an array handed to `initialize`: a message, or a value
      of any other type. */
  datatype Value = MessageValue(m: Message) | OtherValue

  /** What `initialize` is handed: an array, a single message, or a value of
      any other type. */
  datatype Input = ArrayInput(items: seq<Value>) | MessageInput(m: Message) | OtherInput

  /** The messages among `items`, in array order. */
  function MessagesOf(items: seq<Value>): (r: seq<Message>)
    ensures |r| <= |items|
    decreases |items|
  {
    if items == [] then []
    else
      var last := items[|items| - 1];
      MessagesOf(items[..|items| - 1]) + (if last.MessageValue? then [last.m] else [])
  }

  /** The messages `initialize` takes from its input; `None` when it
      ignores the input: a value that is neither an array nor a message, or
      an empty array. */
  function Collected(input: Input): (r: Option<seq<Message>>)
    ensures r.None? <==> input.OtherInput? || (input.ArrayInput? && input.items == [])
    ensures input.MessageInput? ==> r == Some([input.m])
  {
    match input
    case OtherInput => None
    case MessageInput(m) => Some([m])
    case ArrayInput(items) => if |items| < 1 then None else Some(MessagesOf(items))
  }

  /** Collecting from two arrays one after the other collects from their
      concatenation. */
  lemma {:induction false} MessagesOfAppend(xs: seq<Value>, ys: seq<Value>)
    ensures MessagesOf(xs + ys) == MessagesOf(xs) + MessagesOf(ys)
    decreases |ys|
  {
    if ys == [] {
      assert xs + ys == xs;
    } else {
      var zs := ys[..|ys| - 1];
      assert (xs + ys)[..|xs + ys| - 1] == xs + zs;
      MessagesOfAppend(xs, zs);
    }
  }

  /** An array holding only messages yields exactly those messages, in
      order. */
  lemma {:induction false} MessagesOfMessages(ms: seq<Message>)
    ensures MessagesOf(seq(|ms|, k requires 0 <= k < |ms| => MessageValue(ms[k]))) == ms
    decreases |ms|
  {
    if ms != [] {
      var init := ms[..|ms| - 1];
      var items := seq(|ms|, k requires 0 <= k < |ms| => MessageValue(ms[k]));
      assert items[..|items| - 1] == seq(|init|, k requires 0 <= k < |init| => MessageValue(init[k]));
      MessagesOfMessages(init);
      assert init + [ms[|ms| - 1]] == ms;
    }
  }

  class MessageDispatch {
    const base: Dispatch
    var messages: seq<Message>

    ghost predicate Valid()
      reads this, base
    {
      base.Valid() && base.kind == DispatchKind.Messages
    }

    constructor ()
      ensures Valid() && fresh(base) && base.State() == Unset && messages == []
    {
      base := new Dispatch(DispatchKind.Messages);
      messages := [];
    }

    /** `initialize`: appends the messages of the input and makes the
        dispatch valid; an input it ignores leaves the dispatch as it was. */
    method Initialize(input: Input, now: Timestamp)
      requires Valid()
      modifies this`messages, base
      ensures Valid()
      ensures Collected(input).None? ==> messages == old(messages) && base.State() == old(base.State())
      ensures Collected(input).Some? ==>
        messages == old(messages) + Collected(input).value
        && base.State() == Apply(MakeValidCall(now), old(base.State()))
    {
      if input.OtherInput? {
        return;
      }
      if input.ArrayInput? {
        var items := input.items;
        if |items| < 1 {
          return;
        }
        for k := 0 to |items|
          invariant messages == old(messages) + MessagesOf(items[..k])
          invariant unchanged(base)
        {
          assert items[..k + 1][..k] == items[..k];
          if items[k].MessageValue? {
            messages := messages + [items[k].m];
          }
        }
        assert items[..|items|] == items;
      } else {
        messages := messages + [input.m];
      }
      base.MakeValid(now);
    }
  }
}
