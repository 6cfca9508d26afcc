/** The scenarios of the chain tests (Tests/Chain/ChainTest.php,
    Tests/Chain/ValidityTest.php, Tests/Chain/LoggingTest.php), built from
    the modelled classes, with the outcome each test asserts as the
    postcondition. */
module ChainExamples {
  import opened Types
  import opened Dispatches
  import opened Nodes
  import opened Chains

  /** The non-consuming node of the logging test. */
  method NonConsumeTestNode() returns (n: Node)
    ensures fresh(n) && n.behaviour == NoOp && n.IsValid()
  {
    n := new Node(NoOp, false, None, None);
    var _ := n.SetKey(Some("NonConsumeTestNode"));
    var _ := n.SetVersion(Some("1.0.0"));
  }

  /** The consuming node of the logging test. */
  method ConsumeTestNode() returns (n: Node)
    ensures fresh(n) && n.behaviour == Consume && n.IsValid()
  {
    n := new Node(Consume, false, None, None);
    var _ := n.SetKey(Some("ConsumeTestNode"));
    var _ := n.SetVersion(Some("1.0.0"));
  }

  /** A dispatch of the logging tests, made valid and, if asked,
      consumable. */
  method TestDispatch(consumable: bool, now: Timestamp) returns (d: Dispatch)
    ensures fresh(d) && d.Valid() && d.kind == Plain
    ensures d.State() == Unset.(valid := true, calledAt := Some(now), consumable := consumable)
  {
    d := new Dispatch(Plain);
    if consumable {
      d.MakeConsumable();
    }
    d.MakeValid(now);
  }

  /** A chain of the logging test: debugging as given, a callback hooked and
      the nodes `first` and `second` linked in that order. */
  method LoggedChain(isEvent: bool, doDebug: bool, first: Node, second: Node) returns (chain: ChainHelper)
    requires first.IsValid() && second.IsValid()
    ensures fresh(chain) && chain.Valid() && chain.isEvent == isEvent && chain.Tracing() == doDebug
    ensures chain.nodes == if isEvent then [second] else [first, second]
    ensures |chain.trace| == if doDebug then 2 else 0
  {
    chain := new ChainHelper(isEvent, doDebug);
    chain.HookLogger();
    var _ := chain.LinkNode(first);
    var _ := chain.LinkNode(second);
  }

  /** The non-event chain of the logging test, debugging on, traversed with
      a dispatch that is not consumable: two link messages and one message
      per node. */
  method NonEventChainCount(now: Timestamp) returns (count: nat)
    ensures count == 4
  {
    var a := NonConsumeTestNode();
    var b := ConsumeTestNode();
    var chain := LoggedChain(false, true, a, b);
    var d := TestDispatch(false, now);
    ghost var bs, d0 := [NoOp, Consume], d.State();
    assert Behaviours(chain.nodes) == bs;
    var _ := chain.Traverse(d, null);
    ghost var r := RunFrom(bs, d.kind, 0, d0, false, chain, true);
    RunFromEvents(bs, d.kind, 0, d0, false, chain);
    RunFromStopsAtConsumption(bs, d.kind, 0, d0, false, chain, true);
    assert |r.events| == 2;
    count := |chain.trace|;
  }

  /** The event chain of the logging test: linking twice replaces the node,
      and the one send is reported once. */
  method EventChainCount(now: Timestamp) returns (count: nat)
    ensures count == 3
  {
    var a := NonConsumeTestNode();
    var b := ConsumeTestNode();
    var chain := LoggedChain(true, true, a, b);
    var d := TestDispatch(false, now);
    var _ := chain.Traverse(d, null);
    count := |chain.trace|;
  }

  /** The chain of the logging test with debugging off: nothing reaches the
      callback. */
  method SilentChainCount(now: Timestamp) returns (count: nat)
    ensures count == 0
  {
    var a := NonConsumeTestNode();
    var b := ConsumeTestNode();
    var chain := LoggedChain(false, false, a, b);
    var d := TestDispatch(false, now);
    ghost var d0 := d.State();
    assert Behaviours(chain.nodes) == [NoOp, Consume];
    var _ := chain.Traverse(d, null);
    RunFromSilent([NoOp, Consume], d.kind, 0, d0, false, chain);
    count := |chain.trace|;
  }

  /** The consume-first chain of the logging test, with a consumable
      dispatch: two link messages, the send to the first node and its
      consumption; the second node is never reached. */
  method ConsumingChainCount(now: Timestamp) returns (count: nat)
    ensures count == 4
  {
    var a := ConsumeTestNode();
    var b := NonConsumeTestNode();
    var chain := LoggedChain(false, true, a, b);
    var d := TestDispatch(true, now);
    ghost var bs, d0 := [Consume, NoOp], d.State();
    assert Behaviours(chain.nodes) == bs;
    var _ := chain.Traverse(d, null);
    RunFromStep(bs, d.kind, 0, d0, true, chain, true);
    count := |chain.trace|;
  }

  /** Tests/Chain/LoggingTest.php: the four callbacks receive 4, 3, 0 and 4
      messages. The test shares one non-consumable dispatch between the
      first three chains; none of their nodes changes it, so each chain here
      gets its own. */
  method LoggingTest(now: Timestamp) returns (counts: seq<nat>)
    ensures counts == [4, 3, 0, 4]
  {
    var nonEvent := NonEventChainCount(now);
    var event := EventChainCount(now);
    var silent := SilentChainCount(now);
    var consuming := ConsumingChainCount(now);
    counts := [nonEvent, event, silent, consuming];
  }

  /** The counting node of the chain tests. */
  method IncrementNode() returns (n: Node)
    ensures fresh(n) && n.behaviour == Increment && n.IsValid()
  {
    n := new Node(Increment, false, Some("IncrementNode"), Some("1.0.0"));
  }

  /** The consuming node of the chain tests. */
  method ConsumeNode() returns (n: Node)
    ensures fresh(n) && n.behaviour == Consume && n.IsValid()
  {
    n := new Node(Consume, false, Some("ConsumeNode"), Some("1.0.0"));
  }

  /** A non-event chain without debugging holding the three nodes given. */
  method ThreeNodeChain(first: Node, second: Node, third: Node) returns (chain: ChainHelper)
    requires first.IsValid() && second.IsValid() && third.IsValid()
    ensures fresh(chain) && chain.Valid() && !chain.isEvent && !chain.Tracing()
    ensures chain.nodes == [first, second, third]
  {
    chain := new ChainHelper(false, false);
    var _ := chain.LinkNode(first);
    var _ := chain.LinkNode(second);
    var _ := chain.LinkNode(third);
  }

  /** The counting dispatch of the chain tests after `initialize`: valid and
      consumable, and stateful if asked first. */
  method IncrementDispatch(stateful: bool, now: Timestamp) returns (d: Dispatch)
    ensures fresh(d) && d.Valid() && d.kind == Counter
    ensures d.State() == DispatchState(true, true, stateful, false, Some(now), [])
  {
    d := new Dispatch(Counter);
    if stateful {
      d.MakeStateful();
    }
    d.MakeValid(now);
    d.MakeConsumable();
  }

  /** test_chainExecution: three counting nodes on a non-stateful dispatch
      leave the single result 3; the node list has three entries. */
  method ChainExecution(now: Timestamp) returns (ok: bool, results: Option<seq<int>>, list: seq<NodeId>)
    ensures ok && results == Some([3]) && |list| == 3
  {
    var a := IncrementNode();
    var b := IncrementNode();
    var c := IncrementNode();
    var chain := ThreeNodeChain(a, b, c);
    var d := IncrementDispatch(false, now);
    ghost var d0 := d.State();
    assert Behaviours(chain.nodes) == Increments(3);
    ok := chain.Traverse(d, null);
    CountingChain(3, d0, chain, false);
    results := d.GetResults();
    list := chain.GetNodeList();
  }

  /** test_dispatchCanBeConsumed: the consuming node in the middle stops the
      chain; the dispatch is consumed and holds the count 1. */
  method DispatchCanBeConsumed(now: Timestamp) returns (consumable: bool, consumed: bool, results: Option<seq<int>>)
    ensures consumable && consumed && results == Some([1])
  {
    var a := IncrementNode();
    var b := ConsumeNode();
    var c := IncrementNode();
    var chain := ThreeNodeChain(a, b, c);
    var d := IncrementDispatch(false, now);
    ghost var d0 := d.State();
    assert Behaviours(chain.nodes) == [Increment, Consume, Increment];
    var _ := chain.Traverse(d, null);
    ConsumeMidChain(d0, chain, false);
    consumable, consumed := d.isConsumable, d.isConsumed;
    results := d.GetResults();
  }

  /** test_dispatchHoldsStates: on a stateful dispatch the three counting
      nodes leave 1, 2 and 3. */
  method DispatchHoldsStates(now: Timestamp) returns (results: Option<seq<int>>)
    ensures results == Some([1, 2, 3])
  {
    var a := IncrementNode();
    var b := IncrementNode();
    var c := IncrementNode();
    var chain := ThreeNodeChain(a, b, c);
    var d := IncrementDispatch(true, now);
    ghost var d0 := d.State();
    assert Behaviours(chain.nodes) == Increments(3);
    var _ := chain.Traverse(d, null);
    CountingChain(3, d0, chain, false);
    assert Upto(0, 3) == [1, 2, 3];
    results := d.GetResults();
  }

  /** test_invalidNodeGetsRemoved: a node whose key and version were never
      set is not linked. */
  method InvalidNodeGetsRemoved() returns (list: seq<NodeId>)
    ensures |list| == 1
  {
    var chain := new ChainHelper(false, false);
    var invalid := new Node(NoOp, false, None, None);
    var valid := new Node(NoOp, false, Some("ValidNode"), Some("1.0.0"));
    var _ := chain.LinkNode(invalid);
    var _ := chain.LinkNode(valid);
    list := chain.GetNodeList();
  }

  /** test_invalidDispatchFails, as intended: a dispatch that was never made
      valid is refused. */
  method InvalidDispatchFails() returns (ok: bool)
    ensures !ok
  {
    var chain := new ChainHelper(false, true);
    var valid := new Node(NoOp, false, Some("ValidNode"), Some("1.0.0"));
    var _ := chain.LinkNode(valid);
    var d := new Dispatch(Plain);
    ok := chain.Traverse(d, null);
  }

  /** test_validDispatchAndValidNodePasses. */
  method ValidDispatchPasses(now: Timestamp) returns (ok: bool)
    ensures ok
  {
    var chain := new ChainHelper(false, false);
    var valid := new Node(NoOp, false, Some("ValidNode"), Some("1.0.0"));
    var _ := chain.LinkNode(valid);
    var d := new Dispatch(Plain);
    d.MakeValid(now);
    ok := chain.Traverse(d, null);
  }
}
