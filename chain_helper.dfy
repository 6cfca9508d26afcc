/** The chain (Chain/ChainHelper.php): a registry of nodes, either an
    ordered list or a single event slot, and the traversal that hands one
    dispatch to the nodes in turn, stopping once a consumable dispatch is
    consumed. Debug messages are modelled as abstract trace events. */
module Chains {
  import opened Types
  import opened Dispatches
  import opened Nodes

  /** One debug message the chain sends to its hooked callback. */
  datatype TraceEvent =
    | InvalidNodeRejected
    | EventNodeSet
    | NodeLinked(index: nat)
    | NoNodes
    | InvalidDispatch
    | ConsumedDispatch
    | SentToEventNode
    | SentToNode(index: nat)
    | ConsumedByNode(index: nat)

  /** One `process` call: the position of the node and the sender it got. */
  datatype Call = Call(index: nat, sender: object)

  /** What a traversal does: the dispatch it leaves, the calls it makes and
      the trace events it emits. */
  datatype Run = Run(state: DispatchState, calls: seq<Call>, events: seq<TraceEvent>)

  datatype Traversal = Traversal(accepted: bool, run: Run)

  /** A trace event reaches the callback only when debugging is on and a
      callback is hooked. */
  function Emit(tracing: bool, e: TraceEvent): seq<TraceEvent>
  {
    if tracing then [e] else []
  }

  function Behaviours(nodes: seq<Node>): (bs: seq<Behaviour>)
    ensures |bs| == |nodes|
    ensures forall i :: 0 <= i < |nodes| ==> bs[i] == nodes[i].behaviour
  {
    seq(|nodes|, i requires 0 <= i < |nodes| => nodes[i].behaviour)
  }

  /** The dispatch after every behaviour of `bs` has processed it, in order. */
  function ProcessAll(bs: seq<Behaviour>, kind: DispatchKind, d: DispatchState): DispatchState
    decreases bs
  {
    if bs == [] then d else ProcessAll(bs[1..], kind, Effect(bs[0], kind, d))
  }

  /** The chain-mode loop from node `i` on: each node is sent the dispatch;
      when the dispatch was consumable at the start and is now consumed the
      loop stops. */
  function RunFrom(bs: seq<Behaviour>, kind: DispatchKind, i: nat, d: DispatchState,
                   consumable: bool, sender: object, tracing: bool): (r: Run)
    requires i <= |bs|
    ensures |r.calls| <= |bs| - i && (i < |bs| ==> |r.calls| > 0)
    decreases |bs| - i
  {
    if i == |bs| then Run(d, [], [])
    else
      var d' := Effect(bs[i], kind, d);
      var sent := Emit(tracing, SentToNode(i));
      if consumable && d'.consumed then
        Run(d', [Call(i, sender)], sent + Emit(tracing, ConsumedByNode(i)))
      else
        var rest := RunFrom(bs, kind, i + 1, d', consumable, sender, tracing);
        Run(rest.state, [Call(i, sender)] + rest.calls, sent + rest.events)
  }

  lemma RunFromStep(bs: seq<Behaviour>, kind: DispatchKind, i: nat, d: DispatchState,
                    consumable: bool, sender: object, tracing: bool)
    requires i < |bs|
    ensures var r := RunFrom(bs, kind, i, d, consumable, sender, tracing);
      var d' := Effect(bs[i], kind, d);
      if consumable && d'.consumed then
        r == Run(d', [Call(i, sender)], Emit(tracing, SentToNode(i)) + Emit(tracing, ConsumedByNode(i)))
      else
        var rest := RunFrom(bs, kind, i + 1, d', consumable, sender, tracing);
        r == Run(rest.state, [Call(i, sender)] + rest.calls, Emit(tracing, SentToNode(i)) + rest.events)
  {
  }

  /** The loop of `traverse` has sent the dispatch to nodes 0 to i - 1 and
      the calls and trace so far are `done` and `said`; running the rest of
      the loop from state `d` ends in `whole`. */
  predicate Resumes(bs: seq<Behaviour>, kind: DispatchKind, i: nat, d: DispatchState, consumable: bool,
                    sender: object, tracing: bool, done: seq<Call>, said: seq<TraceEvent>, whole: Run)
  {
    i <= |bs| &&
    var rest := RunFrom(bs, kind, i, d, consumable, sender, tracing);
    rest.state == whole.state && done + rest.calls == whole.calls && said + rest.events == whole.events
  }

  lemma LoopStop(bs: seq<Behaviour>, kind: DispatchKind, i: nat, d: DispatchState, consumable: bool,
                 sender: object, tracing: bool, done: seq<Call>, said: seq<TraceEvent>, whole: Run)
    requires i < |bs| && consumable && Effect(bs[i], kind, d).consumed
    requires Resumes(bs, kind, i, d, consumable, sender, tracing, done, said, whole)
    ensures Effect(bs[i], kind, d) == whole.state
    ensures done + [Call(i, sender)] == whole.calls
    ensures said + Emit(tracing, SentToNode(i)) + Emit(tracing, ConsumedByNode(i)) == whole.events
  {
    assert said + (Emit(tracing, SentToNode(i)) + Emit(tracing, ConsumedByNode(i)))
        == said + Emit(tracing, SentToNode(i)) + Emit(tracing, ConsumedByNode(i));
  }

  lemma LoopGo(bs: seq<Behaviour>, kind: DispatchKind, i: nat, d: DispatchState, consumable: bool,
               sender: object, tracing: bool, done: seq<Call>, said: seq<TraceEvent>, whole: Run)
    requires i < |bs| && !(consumable && Effect(bs[i], kind, d).consumed)
    requires Resumes(bs, kind, i, d, consumable, sender, tracing, done, said, whole)
    ensures Resumes(bs, kind, i + 1, Effect(bs[i], kind, d), consumable, sender, tracing,
                    done + [Call(i, sender)], said + Emit(tracing, SentToNode(i)), whole)
  {
    var rest := RunFrom(bs, kind, i + 1, Effect(bs[i], kind, d), consumable, sender, tracing);
    assert done + ([Call(i, sender)] + rest.calls) == done + [Call(i, sender)] + rest.calls;
    assert said + (Emit(tracing, SentToNode(i)) + rest.events) == said + Emit(tracing, SentToNode(i)) + rest.events;
  }

  lemma LoopEnd(bs: seq<Behaviour>, kind: DispatchKind, i: nat, d: DispatchState, consumable: bool,
                sender: object, tracing: bool, done: seq<Call>, said: seq<TraceEvent>, whole: Run)
    requires i == |bs| || (consumable && d.consumed && d == whole.state && done == whole.calls && said == whole.events)
    requires i == |bs| ==> Resumes(bs, kind, i, d, consumable, sender, tracing, done, said, whole)
    ensures d == whole.state && done == whole.calls && said == whole.events
  {
  }

  /** `traverse` on a chain of behaviours `bs`: refuses an empty chain, an
      invalid dispatch and a consumed consumable dispatch, in that order;
      otherwise hands the dispatch to the event node or runs the chain. */
  function TraverseSpec(bs: seq<Behaviour>, isEvent: bool, kind: DispatchKind, d: DispatchState,
                        sender: object, tracing: bool): (t: Traversal)
    ensures t.accepted <==> |bs| > 0 && d.valid && !(d.consumable && d.consumed)
    ensures !t.accepted ==> t.run.state == d && t.run.calls == []
    ensures !t.accepted && tracing ==>
      t.run.events == [if |bs| == 0 then NoNodes else if !d.valid then InvalidDispatch else ConsumedDispatch]
    ensures t.accepted && isEvent ==>
      t.run.calls == [Call(0, sender)] && t.run.state == Effect(bs[0], kind, d)
  {
    if |bs| < 1 then Traversal(false, Run(d, [], Emit(tracing, NoNodes)))
    else if !d.valid then Traversal(false, Run(d, [], Emit(tracing, InvalidDispatch)))
    else if d.consumable && d.consumed then Traversal(false, Run(d, [], Emit(tracing, ConsumedDispatch)))
    else if isEvent then
      Traversal(true, Run(Effect(bs[0], kind, d), [Call(0, sender)], Emit(tracing, SentToEventNode)))
    else Traversal(true, RunFrom(bs, kind, 0, d, d.consumable, sender, tracing))
  }

  /** The dispatch after the `j` nodes from position `i` on processed it. */
  function Processed(bs: seq<Behaviour>, kind: DispatchKind, i: nat, j: nat, d: DispatchState): DispatchState
    requires i + j <= |bs|
  {
    ProcessAll(bs[i..i + j], kind, d)
  }

  /** Processing a slice one node at a time. */
  lemma ProcessedStep(bs: seq<Behaviour>, kind: DispatchKind, i: nat, j: nat, d: DispatchState)
    requires i + j < |bs|
    ensures Processed(bs, kind, i, j + 1, d) == Processed(bs, kind, i + 1, j, Effect(bs[i], kind, d))
  {
    assert bs[i..i + j + 1][1..] == bs[i + 1..i + 1 + j];
  }

  /** Processing keeps every flag but `consumed`, which it never clears. */
  lemma {:induction false} ProcessAllKeepsFlags(bs: seq<Behaviour>, kind: DispatchKind, d: DispatchState)
    ensures var r := ProcessAll(bs, kind, d);
      r.valid == d.valid && r.consumable == d.consumable && r.stateful == d.stateful
      && r.calledAt == d.calledAt && (d.consumed ==> r.consumed)
    decreases bs
  {
    if bs != [] {
      ProcessAllKeepsFlags(bs[1..], kind, Effect(bs[0], kind, d));
    }
  }

  /** The chain loop sends to nodes i, i + 1, ... in insertion order, each
      time with the same sender. */
  lemma {:induction false} RunFromInOrder(bs: seq<Behaviour>, kind: DispatchKind, i: nat, d: DispatchState,
                                          consumable: bool, sender: object, tracing: bool)
    requires i <= |bs|
    ensures var calls := RunFrom(bs, kind, i, d, consumable, sender, tracing).calls;
      forall k :: 0 <= k < |calls| ==> calls[k] == Call(i + k, sender)
    decreases |bs| - i
  {
    if i < |bs| {
      var d' := Effect(bs[i], kind, d);
      if !(consumable && d'.consumed) {
        var rest := RunFrom(bs, kind, i + 1, d', consumable, sender, tracing).calls;
        RunFromInOrder(bs, kind, i + 1, d', consumable, sender, tracing);
        assert var calls := RunFrom(bs, kind, i + 1, d', consumable, sender, tracing).calls;
          forall k :: 0 <= k < |calls| ==> calls[k] == Call(i + 1 + k, sender);
        assert RunFrom(bs, kind, i, d, consumable, sender, tracing).calls == [Call(i, sender)] + rest;
      }
    }
  }

  /** The dispatch a chain run leaves is the one the nodes it sent the
      dispatch to produce, in insertion order. */
  lemma {:induction false} RunFromState(bs: seq<Behaviour>, kind: DispatchKind, i: nat, d: DispatchState,
                                        consumable: bool, sender: object, tracing: bool)
    requires i <= |bs|
    ensures var r := RunFrom(bs, kind, i, d, consumable, sender, tracing);
      r.state == Processed(bs, kind, i, |r.calls|, d)
    decreases |bs| - i
  {
    if i == |bs| {
      assert bs[i..i] == [];
    } else {
      var d' := Effect(bs[i], kind, d);
      if consumable && d'.consumed {
        ProcessedStep(bs, kind, i, 0, d);
        assert bs[i + 1..i + 1] == [];
      } else {
        var rest := RunFrom(bs, kind, i + 1, d', consumable, sender, tracing);
        RunFromState(bs, kind, i + 1, d', consumable, sender, tracing);
        ProcessedStep(bs, kind, i, |rest.calls|, d);
      }
    }
  }

  /** The chain loop stops early only on consumption, and at the first node
      after which a dispatch that was consumable is consumed: no node past
      that one is sent the dispatch. */
  lemma {:induction false} RunFromStopsAtConsumption(bs: seq<Behaviour>, kind: DispatchKind, i: nat, d: DispatchState,
                                                     consumable: bool, sender: object, tracing: bool)
    requires i <= |bs|
    ensures var r := RunFrom(bs, kind, i, d, consumable, sender, tracing);
      && (|r.calls| < |bs| - i ==> consumable && r.state.consumed)
      && (forall j :: 1 <= j < |r.calls| ==> !(consumable && Processed(bs, kind, i, j, d).consumed))
    decreases |bs| - i
  {
    if i < |bs| {
      var d' := Effect(bs[i], kind, d);
      if !(consumable && d'.consumed) {
        var rest := RunFrom(bs, kind, i + 1, d', consumable, sender, tracing);
        RunFromStopsAtConsumption(bs, kind, i + 1, d', consumable, sender, tracing);
        forall j | 1 <= j < |rest.calls| + 1
          ensures !(consumable && Processed(bs, kind, i, j, d).consumed)
        {
          ProcessedStep(bs, kind, i, j - 1, d);
          assert bs[i + 1..i + 1] == [];
        }
      }
    }
  }

  /** With tracing, a chain run emits one message per node it sends the
      dispatch to, in order, and one more when it stopped on consumption. */
  lemma {:induction false} RunFromEvents(bs: seq<Behaviour>, kind: DispatchKind, i: nat, d: DispatchState,
                                         consumable: bool, sender: object)
    requires i < |bs|
    ensures var r := RunFrom(bs, kind, i, d, consumable, sender, true);
      && |r.events| == |r.calls| + (if consumable && r.state.consumed then 1 else 0)
      && (forall k :: 0 <= k < |r.calls| ==> r.events[k] == SentToNode(i + k))
      && (consumable && r.state.consumed ==> r.events[|r.calls|] == ConsumedByNode(i + |r.calls| - 1))
    decreases |bs| - i
  {
    var d' := Effect(bs[i], kind, d);
    if !(consumable && d'.consumed) && i + 1 < |bs| {
      RunFromEvents(bs, kind, i + 1, d', consumable, sender);
    }
  }

  /** Without tracing a run emits nothing. */
  lemma {:induction false} RunFromSilent(bs: seq<Behaviour>, kind: DispatchKind, i: nat, d: DispatchState,
                                         consumable: bool, sender: object)
    requires i <= |bs|
    ensures RunFrom(bs, kind, i, d, consumable, sender, false).events == []
    decreases |bs| - i
  {
    if i < |bs| {
      var d' := Effect(bs[i], kind, d);
      if !(consumable && d'.consumed) {
        RunFromSilent(bs, kind, i + 1, d', consumable, sender);
      }
    }
  }

  /** Without tracing a traversal emits nothing, whatever its outcome. */
  lemma TraverseSilent(bs: seq<Behaviour>, isEvent: bool, kind: DispatchKind, d: DispatchState, sender: object)
    ensures TraverseSpec(bs, isEvent, kind, d, sender, false).run.events == []
  {
    if |bs| > 0 && d.valid && !(d.consumable && d.consumed) && !isEvent {
      RunFromSilent(bs, kind, 0, d, d.consumable, sender);
    }
  }

  /** One `process` call per node, in insertion order, all with the same
      sender. */
  function Broadcast(n: nat, sender: object): (r: seq<Call>)
    ensures |r| == n && forall k :: 0 <= k < n ==> r[k] == Call(k, sender)
  {
    seq(n, k requires 0 <= k < n => Call(k, sender))
  }

  /** A valid dispatch that is not consumable reaches every node of a chain,
      each once, in insertion order. */
  lemma BroadcastReachesAll(bs: seq<Behaviour>, kind: DispatchKind, d: DispatchState, sender: object, tracing: bool)
    requires d.valid && !d.consumable
    ensures TraverseSpec(bs, false, kind, d, sender, tracing).run.calls == Broadcast(|bs|, sender)
  {
    if |bs| > 0 {
      RunFromInOrder(bs, kind, 0, d, false, sender, tracing);
      RunFromStopsAtConsumption(bs, kind, 0, d, false, sender, tracing);
    }
  }

  /** A run keeps the flags; `consumed` is never cleared. */
  lemma {:induction false} RunFromKeepsFlags(bs: seq<Behaviour>, kind: DispatchKind, i: nat, d: DispatchState,
                                             consumable: bool, sender: object, tracing: bool)
    requires i <= |bs|
    ensures var r := RunFrom(bs, kind, i, d, consumable, sender, tracing).state;
      r.valid == d.valid && r.consumable == d.consumable && r.stateful == d.stateful
      && r.calledAt == d.calledAt && (d.consumed ==> r.consumed)
  {
    RunFromState(bs, kind, i, d, consumable, sender, tracing);
    var r := RunFrom(bs, kind, i, d, consumable, sender, tracing);
    ProcessAllKeepsFlags(bs[i..i + |r.calls|], kind, d);
  }

  /** A dispatch that a traversal left consumed, and that was consumable,
      is refused by every later traversal, which leaves it as it is. */
  lemma ConsumedStaysRefused(bs: seq<Behaviour>, isEvent: bool, kind: DispatchKind, d: DispatchState,
                             sender: object, tracing: bool, bs2: seq<Behaviour>, isEvent2: bool, tracing2: bool)
    requires d.consumable
    requires TraverseSpec(bs, isEvent, kind, d, sender, tracing).run.state.consumed
    ensures var d1 := TraverseSpec(bs, isEvent, kind, d, sender, tracing).run.state;
      var t := TraverseSpec(bs2, isEvent2, kind, d1, sender, tracing2);
      !t.accepted && t.run.state == d1 && t.run.calls == []
  {
    var t1 := TraverseSpec(bs, isEvent, kind, d, sender, tracing);
    if t1.accepted && !isEvent {
      RunFromKeepsFlags(bs, kind, 0, d, d.consumable, sender, tracing);
    }
  }

  /** `bs` holds no consuming node from position i on. */
  predicate NoConsumer(bs: seq<Behaviour>, i: nat)
  {
    forall k :: i <= k < |bs| ==> bs[k] != Consume
  }

  /** With no consuming node left and the dispatch not consumed, the loop
      visits every remaining node. */
  lemma {:induction false} RunFromVisitsAll(bs: seq<Behaviour>, kind: DispatchKind, i: nat, d: DispatchState,
                                            consumable: bool, sender: object, tracing: bool)
    requires i <= |bs| && NoConsumer(bs, i) && !d.consumed
    ensures var r := RunFrom(bs, kind, i, d, consumable, sender, tracing);
      |r.calls| == |bs| - i && !r.state.consumed
    decreases |bs| - i
  {
    if i < |bs| {
      RunFromVisitsAll(bs, kind, i + 1, Effect(bs[i], kind, d), consumable, sender, tracing);
    }
  }

  /** `k` counting nodes. */
  function Increments(k: nat): (bs: seq<Behaviour>)
    ensures |bs| == k && forall j :: 0 <= j < k ==> bs[j] == Increment
  {
    seq(k, _ => Increment)
  }

  /** The numbers n + 1 to n + k, in order. */
  function Upto(n: int, k: nat): (xs: seq<int>)
    ensures |xs| == k && forall j :: 0 <= j < k ==> xs[j] == n + j + 1
  {
    seq(k, j requires 0 <= j < k => n + j + 1)
  }

  /** Each counting node adds one to the last result: a stateful counting
      dispatch collects every intermediate count, a non-stateful one only
      the final count. */
  lemma {:induction false} CountingResults(k: nat, d: DispatchState)
    ensures var r := ProcessAll(Increments(k), Counter, d);
      && (d.stateful ==> r.results == d.results + Upto(LastNumber(d.results), k))
      && (!d.stateful && k > 0 ==> r.results == [LastNumber(d.results) + k])
    decreases k
  {
    if k > 0 {
      var n := LastNumber(d.results);
      var d' := Effect(Increment, Counter, d);
      assert Increments(k)[1..] == Increments(k - 1);
      CountingResults(k - 1, d');
      if d.stateful {
        assert d'.results == d.results + [n + 1];
        assert Upto(n, k) == [n + 1] + Upto(n + 1, k - 1);
        assert d.results + [n + 1] + Upto(n + 1, k - 1) == d.results + ([n + 1] + Upto(n + 1, k - 1));
      }
    }
  }

  /** The counting chains of the chain tests: `k` counting nodes on a valid
      counting dispatch with no results are all sent the dispatch and leave
      `[k]` on a non-stateful dispatch and `[1, ..., k]` on a stateful one. */
  lemma CountingChain(k: nat, d: DispatchState, sender: object, tracing: bool)
    requires k > 0 && d.valid && !d.consumed && d.results == []
    ensures var t := TraverseSpec(Increments(k), false, Counter, d, sender, tracing);
      && t.accepted && |t.run.calls| == k
      && t.run.state.results == if d.stateful then Upto(0, k) else [k]
  {
    RunFromVisitsAll(Increments(k), Counter, 0, d, d.consumable, sender, tracing);
    RunFromState(Increments(k), Counter, 0, d, d.consumable, sender, tracing);
    assert Increments(k)[0..k] == Increments(k);
    CountingResults(k, d);
  }

  /** The consuming chain of the chain tests: counting, consuming, counting
      on a consumable counting dispatch stops after the consuming node, with
      the count at 1. */
  lemma ConsumeMidChain(d: DispatchState, sender: object, tracing: bool)
    requires d.valid && d.consumable && !d.consumed && !d.stateful && d.results == []
    ensures var t := TraverseSpec([Increment, Consume, Increment], false, Counter, d, sender, tracing);
      && t.accepted && t.run.calls == [Call(0, sender), Call(1, sender)]
      && t.run.state.consumed && t.run.state.results == [1]
  {
    var bs := [Increment, Consume, Increment];
    var d1 := Effect(Increment, Counter, d);
    RunFromStep(bs, Counter, 0, d, true, sender, tracing);
    RunFromStep(bs, Counter, 1, d1, true, sender, tracing);
  }

  /** `traverse` as written: with debugging on, the refusal message for an
      invalid dispatch embeds the dispatch's text form, which formats the
      instant the dispatch was made valid. A dispatch that was never made
      valid has no such instant, and PHP raises an error (`None`) instead of
      returning false. Every other path matches `TraverseSpec`. */
  function TraverseAsWritten(bs: seq<Behaviour>, isEvent: bool, kind: DispatchKind, d: DispatchState,
                             sender: object, doDebug: bool, hooked: bool): (r: Option<Traversal>)
    ensures r.None? ==> !d.valid && !TraverseSpec(bs, isEvent, kind, d, sender, doDebug && hooked).accepted
    ensures d.valid || !doDebug ==> r == Some(TraverseSpec(bs, isEvent, kind, d, sender, doDebug && hooked))
  {
    if doDebug && |bs| > 0 && !d.valid && d.calledAt.None? then None
    else Some(TraverseSpec(bs, isEvent, kind, d, sender, doDebug && hooked))
  }

  /** The invalid-dispatch test: a debugging chain with one node and a
      dispatch that was never made valid raises an error as written. */
  lemma NeverValidatedRaises(sender: object, hooked: bool)
    ensures TraverseAsWritten([NoOp], false, Plain, Unset, sender, true, hooked) == None
  {
  }

  /** As intended, and as modelled: a dispatch that was never made valid is
      refused, with one refusal message when tracing, and left as it is. */
  lemma NeverValidatedRefused(bs: seq<Behaviour>, isEvent: bool, kind: DispatchKind, sender: object, tracing: bool)
    requires |bs| > 0
    ensures TraverseSpec(bs, isEvent, kind, Unset, sender, tracing)
         == Traversal(false, Run(Unset, [], Emit(tracing, InvalidDispatch)))
  {
  }

  /** `linkNode`: an invalid node is dropped; an event chain keeps only the
      new node; otherwise the node is appended. */
  function Linked(nodes: seq<Node>, isEvent: bool, valid: bool, node: Node): (r: seq<Node>)
    ensures !valid ==> r == nodes
    ensures valid && isEvent ==> r == [node]
    ensures valid && !isEvent ==> |r| == |nodes| + 1 && r[..|nodes|] == nodes && r[|nodes|] == node
  {
    if !valid then nodes else if isEvent then [node] else nodes + [node]
  }

  function LinkEvent(nodes: seq<Node>, isEvent: bool, valid: bool): TraceEvent
  {
    if !valid then InvalidNodeRejected else if isEvent then EventNodeSet else NodeLinked(|nodes|)
  }

  class ChainHelper {
    var nodes: seq<Node>
    const isEvent: bool
    var doDebug: bool
    /** Whether a debug callback is hooked. */
    var hooked: bool
    /** Every message the hooked callbacks received, in order. */
    var trace: seq<TraceEvent>
    /** Every `process` call made by this chain, in order. */
    ghost var calls: seq<Call>

    ghost predicate Valid()
      reads this`nodes
    {
      isEvent ==> |nodes| <= 1
    }

    function Tracing(): bool
      reads this`doDebug, this`hooked
    {
      doDebug && hooked
    }

    constructor (isEvent: bool, doDebug: bool)
      ensures Valid()
      ensures this.isEvent == isEvent && this.doDebug == doDebug
      ensures nodes == [] && !hooked && trace == [] && calls == []
    {
      this.isEvent := isEvent;
      this.doDebug := doDebug;
      nodes := [];
      hooked := false;
      trace := [];
      calls := [];
    }

    method ToggleDebug(doDebug: bool) returns (self: ChainHelper)
      modifies this`doDebug
      ensures self == this && this.doDebug == doDebug
    {
      this.doDebug := doDebug;
      return this;
    }

    /** The identity of every linked node, in traversal order. */
    method GetNodeList() returns (list: seq<NodeId>)
      ensures |list| == |nodes|
      ensures forall i :: 0 <= i < |nodes| ==> list[i] == nodes[i].Id()
    {
      list := [];
      var all := nodes;
      for i := 0 to |all|
        invariant |list| == i
        invariant forall j :: 0 <= j < i ==> list[j] == all[j].Id()
      {
        list := list + [NodeId(all[i].GetKey(), all[i].GetVersion())];
      }
    }

    /** Hooks the callback that receives debug messages; the last one hooked
        receives every later message. */
    method HookLogger()
      modifies this`hooked
      ensures hooked
    {
      hooked := true;
    }

    function IsEvent(): bool
    {
      isEvent
    }

    /** `log`: the message reaches the callback only if one is hooked. */
    method Log(e: TraceEvent)
      modifies this`trace
      ensures trace == old(trace) + (if hooked then [e] else [])
    {
      if hooked {
        trace := trace + [e];
      }
    }

    /** Every trace point of the chain: a message is built only when
        debugging is on, and is then handed to `log`. */
    method Debug(e: TraceEvent)
      modifies this`trace
      ensures trace == old(trace) + Emit(Tracing(), e)
    {
      if doDebug {
        Log(e);
      }
    }

    method LinkNode(node: Node) returns (self: ChainHelper)
      requires Valid()
      modifies this`nodes, this`trace
      ensures Valid() && self == this
      ensures nodes == Linked(old(nodes), isEvent, node.IsValid(), node)
      ensures trace == old(trace) + Emit(Tracing(), LinkEvent(old(nodes), isEvent, node.IsValid()))
    {
      if !node.IsValid() {
        if doDebug {
          Log(InvalidNodeRejected);
        }
        return this;
      }
      if isEvent {
        if doDebug {
          Log(EventNodeSet);
        }
        nodes := [node];
      } else {
        if doDebug {
          Log(NodeLinked(|nodes|));
        }
        nodes := nodes + [node];
      }
      return this;
    }

    /** One send: emit the trace event `e`, then hand the dispatch to node
        `i`. */
    method SendTo(i: nat, d: Dispatch, s: object, e: TraceEvent)
      requires i < |nodes| && d.Valid()
      modifies this`trace, this`calls, d
      ensures d.Valid()
      ensures d.State() == Effect(nodes[i].behaviour, d.kind, old(d.State()))
      ensures calls == old(calls) + [Call(i, s)]
      ensures trace == old(trace) + Emit(Tracing(), e)
    {
      Debug(e);
      nodes[i].Process(s, d);
      calls := calls + [Call(i, s)];
    }

    /** The chain-mode loop of `traverse`: nodes in insertion order, stopping
        after the node that consumed a dispatch that was consumable. `bs`
        and `tracing` are the node behaviours and the trace switch, which the
        loop does not change. */
    method RunChain(d: Dispatch, s: object, consumable: bool, ghost bs: seq<Behaviour>, ghost tracing: bool)
      requires d.Valid() && bs == Behaviours(nodes) && tracing == Tracing()
      modifies this`trace, this`calls, d
      ensures d.Valid()
      ensures var r := RunFrom(bs, d.kind, 0, old(d.State()), consumable, s, tracing);
        && d.State() == r.state
        && calls == old(calls) + r.calls
        && trace == old(trace) + r.events
    {
      ghost var r := RunFrom(bs, d.kind, 0, d.State(), consumable, s, tracing);
      ghost var whole := Run(r.state, calls + r.calls, trace + r.events);
      var len := |nodes|;
      var i := 0;
      while i < len
        invariant 0 <= i <= len
        invariant d.Valid()
        invariant bs == Behaviours(nodes)
        invariant Resumes(bs, d.kind, i, d.State(), consumable, s, tracing, calls, trace, whole)
      {
        ghost var before, done, said := d.State(), calls, trace;
        SendTo(i, d, s, SentToNode(i));
        if consumable && d.isConsumed {
          LoopStop(bs, d.kind, i, before, consumable, s, tracing, done, said, whole);
          Debug(ConsumedByNode(i));
          break;
        }
        LoopGo(bs, d.kind, i, before, consumable, s, tracing, done, said, whole);
        i := i + 1;
      }
      LoopEnd(bs, d.kind, i, d.State(), consumable, s, tracing, calls, trace, whole);
    }

    method Traverse(d: Dispatch, sender: object?) returns (ok: bool)
      requires Valid() && d.Valid()
      modifies this`trace, this`calls, d
      ensures d.Valid()
      ensures var t := TraverseSpec(Behaviours(nodes), isEvent, d.kind, old(d.State()),
                                    if sender == null then this else sender, Tracing());
        && ok == t.accepted
        && d.State() == t.run.state
        && calls == old(calls) + t.run.calls
        && trace == old(trace) + t.run.events
    {
      ghost var bs, d0, tracing := Behaviours(nodes), d.State(), Tracing();
      ghost var t := TraverseSpec(bs, isEvent, d.kind, d0, if sender == null then this else sender, tracing);
      if |nodes| < 1 || !d.isValid || (d.isConsumable && d.isConsumed) {
        var e := if |nodes| < 1 then NoNodes else if !d.isValid then InvalidDispatch else ConsumedDispatch;
        assert t == Traversal(false, Run(d0, [], Emit(tracing, e)));
        Debug(e);
        return false;
      }
      var s: object := if sender == null then this else sender;
      var consumable := d.isConsumable;
      if isEvent {
        assert t.run == Run(Effect(bs[0], d.kind, d0), [Call(0, s)], Emit(tracing, SentToEventNode));
        SendTo(0, d, s, SentToEventNode);
      } else {
        assert t.run == RunFrom(bs, d.kind, 0, d0, consumable, s, tracing);
        RunChain(d, s, consumable, bs, tracing);
      }
      return true;
    }
  }
}
