/** A node of a chain (Chain/NodeBase.php): a key/version identity, the
    validity check done when it is linked, and its `process` behaviour. */
module Nodes {
  import opened Types
  import opened Php
  import opened Dispatches

  /** The concrete `process` bodies: doing nothing, the counting node of the
      chain tests (reads the last result, adds one, stores it, only on a
      counting dispatch) and the consuming node. */
  datatype Behaviour = NoOp | Increment | Consume

  /** The number the counting node starts from: the last result, or 0. */
  function LastNumber(results: seq<int>): int
  {
    if results == [] then 0 else results[|results| - 1]
  }

  /** The effect of one `process` call on the dispatch it is handed. */
  function Effect(b: Behaviour, kind: DispatchKind, d: DispatchState): (r: DispatchState)
    ensures r.valid == d.valid && r.consumable == d.consumable && r.stateful == d.stateful
    ensures r.calledAt == d.calledAt
    ensures d.consumed ==> r.consumed
    ensures r.consumed != d.consumed ==> b == Consume && d.consumable
    ensures r.results != d.results ==> b == Increment && kind == Counter
    ensures Consistent(d) ==> Consistent(r)
  {
    match b
    case NoOp => d
    case Increment => if kind == Counter then SetResultState(d, LastNumber(d.results) + 1) else d
    case Consume => ConsumeState(d).1
  }

  /** The node's identity as the chain reports it. */
  datatype NodeId = NodeId(key: Option<string>, version: Option<string>)

  class Node {
    var key: Option<string>
    var version: Option<string>
    const behaviour: Behaviour
    /** Whether the node is a log appender (extends AppenderBase). */
    const isAppender: bool

    /** A node whose concrete class sets `key` and `version` (or leaves them
        null, as the base class does). */
    constructor (behaviour: Behaviour, isAppender: bool, key: Option<string>, version: Option<string>)
      ensures this.behaviour == behaviour && this.isAppender == isAppender
      ensures this.key == key && this.version == version
    {
      this.behaviour := behaviour;
      this.isAppender := isAppender;
      this.key := key;
      this.version := version;
    }

    /** Log/NullAppender.php: the appender that ignores every dispatch. */
    constructor NullAppender()
      ensures behaviour == NoOp && isAppender
      ensures key == Some("NullAppender") && version == Some("1.0.0")
      ensures IsValid()
    {
      behaviour := NoOp;
      isAppender := true;
      key := Some("NullAppender");
      version := Some("1.0.0");
    }

    /** A node may be linked only when both key and version are non-empty
        in PHP's sense. */
    predicate IsValid()
      reads this
      ensures IsValid() ==> key.Some? && version.Some? && |key.value| > 0 && |version.value| > 0
      ensures IsValid() <==> key !in {None, Some(""), Some("0")} && version !in {None, Some(""), Some("0")}
    {
      !IsEmpty(key) && !IsEmpty(version)
    }

    function GetKey(): Option<string>
      reads this
    {
      key
    }

    function GetVersion(): Option<string>
      reads this
    {
      version
    }

    function Id(): NodeId
      reads this
    {
      NodeId(key, version)
    }

    method SetKey(k: Option<string>) returns (self: Node)
      modifies this`key
      ensures self == this && GetKey() == k && GetVersion() == old(GetVersion())
    {
      key := k;
      return this;
    }

    method SetVersion(v: Option<string>) returns (self: Node)
      modifies this`version
      ensures self == this && GetVersion() == v && GetKey() == old(GetKey())
    {
      version := v;
      return this;
    }

    /** `process`: applies the node's behaviour to the dispatch; the sender
        is handed over but no modelled behaviour looks at it. */
    method Process(sender: object, d: Dispatch)
      requires d.Valid()
      modifies d
      ensures d.Valid()
      ensures d.State() == Effect(behaviour, d.kind, old(d.State()))
    {
      match behaviour
      case NoOp =>
      case Increment =>
        if d.kind == Counter {
          var results := d.GetResults();
          var number := if results.Some? then results.value[|results.value| - 1] else 0;
          d.SetResult(number + 1);
        }
      case Consume =>
        var _ := d.Consume();
    }
  }

  /** A node that never had its key and version set cannot be linked. */
  lemma UnsetNodeInvalid(n: Node)
    requires n.key == None || n.version == None
    ensures !n.IsValid()
  {
  }
}
