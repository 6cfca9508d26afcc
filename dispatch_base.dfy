/** The dispatch handed through a chain (Chain/DispatchBase.php): four
    flags, the instant it was made valid, and the results the nodes left
    in it. */
module Dispatches {
  import opened Types

  /** Which concrete dispatch class an object is. Nodes act only on the
      dispatch classes they recognise: `Counter` is the counting dispatch of
      the chain tests, `Messages` the log-message dispatch. */
  datatype DispatchKind = Counter | Messages | Plain

  /** The value of every field of a dispatch. */
  datatype DispatchState = DispatchState(
    valid: bool,
    consumable: bool,
    stateful: bool,
    consumed: bool,
    calledAt: Option<Timestamp>,
    results: seq<int>)

  /** A dispatch as constructed: every flag false, no timestamp, no results. */
  const Unset := DispatchState(false, false, false, false, None, [])

  /** What holds of every dispatch at all times: a non-stateful dispatch holds
      at most one result, and a valid one has been stamped. */
  predicate Consistent(d: DispatchState)
  {
    && (!d.stateful ==> |d.results| <= 1)
    && (d.valid ==> d.calledAt.Some?)
  }

  /** `consume`: succeeds only on a consumable dispatch not yet consumed. */
  function ConsumeState(d: DispatchState): (r: (bool, DispatchState))
    ensures r.0 <==> d.consumable && !d.consumed
    ensures r.1 == if r.0 then d.(consumed := true) else d
    ensures r.1.consumed == (d.consumed || r.0)
  {
    if d.consumable && !d.consumed then (true, d.(consumed := true)) else (false, d)
  }

  /** `setResult`: a non-stateful dispatch keeps only the newest result, a
      stateful one appends it. */
  function SetResultState(d: DispatchState, x: int): (r: DispatchState)
    ensures |r.results| >= 1 && r.results[|r.results| - 1] == x
    ensures !d.stateful ==> r.results == [x]
    ensures d.stateful ==> r.results[..|r.results| - 1] == d.results
    ensures r == d.(results := r.results)
    ensures Consistent(d) ==> Consistent(r)
  {
    d.(results := if d.stateful then d.results + [x] else [x])
  }

  /** A call of one of the base-class methods that change a dispatch. */
  datatype Operation =
    | ConsumeCall
    | SetResultCall(x: int)
    | MakeValidCall(now: Timestamp)
    | MakeConsumableCall
    | MakeStatefulCall

  /** The dispatch after one operation: `makeValid`, `makeConsumable` and
      `makeStateful` each raise their own flag, `makeValid` also stamping the
      dispatch with `now`. */
  function Apply(op: Operation, d: DispatchState): (r: DispatchState)
    ensures op.MakeValidCall? ==> r.valid && r.calledAt == Some(op.now)
    ensures op.MakeConsumableCall? ==> r.consumable
    ensures op.MakeStatefulCall? ==> r.stateful
    ensures !op.SetResultCall? ==> r.results == d.results
    ensures !op.ConsumeCall? ==> r.consumed == d.consumed
    ensures !op.MakeValidCall? ==> r.valid == d.valid && r.calledAt == d.calledAt
    ensures !op.MakeConsumableCall? ==> r.consumable == d.consumable
    ensures !op.MakeStatefulCall? ==> r.stateful == d.stateful
  {
    match op
    case ConsumeCall => ConsumeState(d).1
    case SetResultCall(x) => SetResultState(d, x)
    case MakeValidCall(now) => d.(valid := true, calledAt := Some(now))
    case MakeConsumableCall => d.(consumable := true)
    case MakeStatefulCall => d.(stateful := true)
  }

  /** The dispatch after the operations `ops`, in order. */
  function ApplyAll(ops: seq<Operation>, d: DispatchState): DispatchState
    decreases ops
  {
    if ops == [] then d else ApplyAll(ops[1..], Apply(ops[0], d))
  }

  /** No base-class operation ever lowers a flag, in particular `consumed`;
      a dispatch becomes consumed only if it is consumable; and every
      operation keeps a dispatch consistent. */
  lemma {:induction false} FlagsOnlyRise(ops: seq<Operation>, d: DispatchState)
    ensures var r := ApplyAll(ops, d);
      && (d.valid ==> r.valid) && (d.consumable ==> r.consumable)
      && (d.stateful ==> r.stateful) && (d.consumed ==> r.consumed)
      && (r.consumed && !d.consumed ==> r.consumable)
      && (Consistent(d) ==> Consistent(r))
    decreases ops
  {
    if ops != [] {
      FlagsOnlyRise(ops[1..], Apply(ops[0], d));
    }
  }

  class Dispatch {
    const kind: DispatchKind
    var isValid: bool
    var isConsumable: bool
    var isStateful: bool
    var isConsumed: bool
    var calledAt: Option<Timestamp>
    var results: seq<int>

    function State(): DispatchState
      reads this
    {
      DispatchState(isValid, isConsumable, isStateful, isConsumed, calledAt, results)
    }

    ghost predicate Valid()
      reads this
    {
      Consistent(State())
    }

    constructor (kind: DispatchKind)
      ensures this.kind == kind && State() == Unset && Valid()
    {
      this.kind := kind;
      isValid, isConsumable, isStateful, isConsumed := false, false, false, false;
      calledAt := None;
      results := [];
    }

    method Consume() returns (ok: bool)
      requires Valid()
      modifies this
      ensures Valid()
      ensures ok <==> old(isConsumable && !isConsumed)
      ensures State() == Apply(ConsumeCall, old(State()))
    {
      if isConsumable && !isConsumed {
        isConsumed := true;
        return true;
      }
      return false;
    }

    /** `getResults`: null while nothing was recorded, else every result. */
    function GetResults(): (r: Option<seq<int>>)
      reads this
      ensures r.None? <==> NumResults() == 0
      ensures r.Some? ==> r.value == results && |r.value| == NumResults()
    {
      if |results| < 1 then None else Some(results)
    }

    function NumResults(): nat
      reads this
    {
      |results|
    }

    method MakeConsumable()
      requires Valid()
      modifies this
      ensures Valid()
      ensures State() == Apply(MakeConsumableCall, old(State()))
    {
      isConsumable := true;
    }

    method MakeStateful()
      requires Valid()
      modifies this
      ensures Valid()
      ensures State() == Apply(MakeStatefulCall, old(State()))
    {
      isStateful := true;
    }

    /** Marks the dispatch valid and records `now`, the current UTC time. */
    method MakeValid(now: Timestamp)
      requires Valid()
      modifies this
      ensures Valid()
      ensures State() == Apply(MakeValidCall(now), old(State()))
    {
      calledAt := Some(now);
      isValid := true;
    }

    method SetResult(x: int)
      requires Valid()
      modifies this
      ensures Valid()
      ensures State() == Apply(SetResultCall(x), old(State()))
    {
      if !isStateful {
        results := [x];
      } else {
        results := results + [x];
      }
    }
  }

  /** The dispatch after `setResult` was called with each of `xs` in turn. */
  function SetResults(d: DispatchState, xs: seq<int>): DispatchState
    decreases xs
  {
    if xs == [] then d else SetResults(SetResultState(d, xs[0]), xs[1..])
  }

  /** However often `setResult` is called, a non-stateful dispatch holds only
      the latest result and a stateful one holds every result in call order. */
  lemma {:induction false} SetResultsAccumulate(d: DispatchState, xs: seq<int>)
    requires xs != []
    ensures !d.stateful ==> SetResults(d, xs).results == [xs[|xs| - 1]]
    ensures d.stateful ==> SetResults(d, xs).results == d.results + xs
    decreases xs
  {
    var d' := SetResultState(d, xs[0]);
    if |xs| > 1 {
      SetResultsAccumulate(d', xs[1..]);
      assert d.results + [xs[0]] + xs[1..] == d.results + xs;
    }
  }
}
