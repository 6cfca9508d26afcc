/** The scenarios of the return helper tests
    (Tests/Utilities/ReturnHelperTest.php), with what each test asserts as
    the postcondition. */
module ReturnHelperExamples {
  import opened Types
  import opened ReturnHelpers

  /** test_MessageHandling: no messages at first; one, then a batch of two,
      give three in order; an empty batch is refused with its text. */
  method MessageHandling() returns (counts: seq<nat>, had: seq<bool>, messages: seq<string>, error: Option<Exception>)
    ensures counts == [0, 1, 3] && had == [false, true]
    ensures messages == ["Testing", "Testing2", "Testing3"]
    ensures error == Some(Exception(SplInvalidArgument, "Messages array to ReturnHelper::addMessages() must be array with elements"))
  {
    var ret := new ReturnHelper<string>();
    counts, had := [|ret.GetMessages()|], [ret.HasMessages()];
    ret.AddMessage("Testing");
    counts := counts + [|ret.GetMessages()|];
    var _ := ret.AddMessages(["Testing2", "Testing3"]);
    counts, had := counts + [|ret.GetMessages()|], had + [ret.HasMessages()];
    messages := ret.GetMessages();
    error := ret.AddMessages([]);
  }

  /** test_ResultHandling: the same for results. */
  method ResultHandling() returns (counts: seq<nat>, had: seq<bool>, results: seq<string>, error: Option<Exception>)
    ensures counts == [0, 1, 3] && had == [false, true]
    ensures results == ["Testing", "Testing2", "Testing3"]
    ensures error == Some(Exception(SplInvalidArgument, "Results array to ReturnHelper::addResults() must be array with elements"))
  {
    var ret := new ReturnHelper<string>();
    counts, had := [|ret.GetResults()|], [ret.HasResults()];
    ret.AddResult("Testing");
    counts := counts + [|ret.GetResults()|];
    var _ := ret.AddResults(["Testing2", "Testing3"]);
    counts, had := counts + [|ret.GetResults()|], had + [ret.HasResults()];
    results := ret.GetResults();
    error := ret.AddResults([]);
  }

  /** test_GoodVsBad: bad at first, good after `makeGood`, bad again after
      `makeBad`. */
  method GoodVsBad() returns (bad: seq<bool>, good: bool)
    ensures bad == [true, true] && good
  {
    var ret := new ReturnHelper<string>();
    bad := [ret.IsBad()];
    ret.MakeGood();
    good := ret.IsGood();
    ret.MakeBad();
    bad := bad + [ret.IsBad()];
  }
}
