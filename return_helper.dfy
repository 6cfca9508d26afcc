/** The return helper (Utilities/ReturnHelper.php): a status that is good
    or bad, plus a list of messages and a list of results that only grow. */
module ReturnHelpers {
  import opened Types

  const StatusBad: int := 0
  const StatusGood: int := 1

  const EmptyMessagesText: string := "Messages array to ReturnHelper::addMessages() must be array with elements"
  const EmptyResultsText: string := "Results array to ReturnHelper::addResults() must be array with elements"

  /** A helper whose results are values of type `R`. */
  class ReturnHelper<R> {
    var messages: seq<string>
    var results: seq<R>
    var status: int

    /** The status is always one of the two constants. */
    ghost predicate Valid()
      reads this
    {
      status == StatusBad || status == StatusGood
    }

    /** A new helper is bad and holds nothing. */
    constructor ()
      ensures Valid() && status == StatusBad && messages == [] && results == []
    {
      messages := [];
      results := [];
      status := StatusBad;
    }

    method AddMessage(message: string)
      modifies this`messages
      ensures messages == old(messages) + [message]
    {
      messages := messages + [message];
    }

    /** Appends every message of the batch in order; an empty batch is
        refused with an `\InvalidArgumentException` and changes nothing. */
    method AddMessages(batch: seq<string>) returns (error: Option<Exception>)
      modifies this`messages
      ensures error.Some? <==> batch == []
      ensures error.Some? ==> error.value == Exception(SplInvalidArgument, EmptyMessagesText)
      ensures messages == old(messages) + batch
    {
      if |batch| < 1 {
        return Some(Exception(SplInvalidArgument, EmptyMessagesText));
      }
      for k := 0 to |batch|
        invariant messages == old(messages) + batch[..k]
      {
        assert batch[..k + 1] == batch[..k] + [batch[k]];
        AddMessage(batch[k]);
      }
      assert batch[..|batch|] == batch;
      error := None;
    }

    method AddResult(result: R)
      modifies this`results
      ensures results == old(results) + [result]
    {
      results := results + [result];
    }

    /** Appends every result of the batch in order; an empty batch is
        refused with an `\InvalidArgumentException` and changes nothing. */
    method AddResults(batch: seq<R>) returns (error: Option<Exception>)
      modifies this`results
      ensures error.Some? <==> batch == []
      ensures error.Some? ==> error.value == Exception(SplInvalidArgument, EmptyResultsText)
      ensures results == old(results) + batch
    {
      if |batch| < 1 {
        return Some(Exception(SplInvalidArgument, EmptyResultsText));
      }
      for k := 0 to |batch|
        invariant results == old(results) + batch[..k]
      {
        assert batch[..k + 1] == batch[..k] + [batch[k]];
        AddResult(batch[k]);
      }
      assert batch[..|batch|] == batch;
      error := None;
    }

    predicate IsBad()
      reads this
    {
      status == StatusBad
    }

    predicate IsGood()
      reads this
    {
      status == StatusGood
    }

    function GetMessages(): seq<string>
      reads this
    {
      messages
    }

    function GetResults(): seq<R>
      reads this
    {
      results
    }

    /** Whether at least one message was added. */
    predicate HasMessages()
      reads this
    {
      |messages| > 0
    }

    /** Whether at least one result was added. */
    predicate HasResults()
      reads this
    {
      |results| > 0
    }

    method MakeBad()
      modifies this`status
      ensures Valid() && IsBad() && !IsGood()
    {
      status := StatusBad;
    }

    method MakeGood()
      modifies this`status
      ensures Valid() && IsGood() && !IsBad()
    {
      status := StatusGood;
    }
  }

  /** A helper in its valid state is exactly one of good and bad. */
  lemma GoodOrBad<R>(h: ReturnHelper<R>)
    requires h.Valid()
    ensures h.IsGood() <==> !h.IsBad()
  {
  }
}
