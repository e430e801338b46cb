// The request validators of the backend that do not touch the store:
// the split shape rule of transactions and the dashboard's arithmetic.

module Validation {
  import opened Common

  /** One split line of a transaction request (`SplitInput`). */
  datatype SplitInput = SplitInput(category: Id, memo: Option<string>, inflow: int, outflow: int)

  /** The shape every stored split must have: both amounts non-negative and
      exactly one of them strictly positive. */
  predicate WellShaped(s: SplitInput)
  {
    s.inflow >= 0 && s.outflow >= 0 && ((s.inflow > 0) != (s.outflow > 0))
  }

  /** `validate_splits`: the empty list is refused; otherwise each split is
      checked in turn and the first one that breaks a rule fails the request. */
  function ValidateSplits(splits: seq<SplitInput>): (r: Result<()>)
    ensures r.Ok? <==> splits != [] && forall i :: 0 <= i < |splits| ==> WellShaped(splits[i])
    ensures r.Err? ==> r.status == BadRequest
  {
    if splits == [] then Err(BadRequest) else CheckEachSplit(splits)
  }

  /** The loop of `validate_splits`, one early return per rule. */
  function CheckEachSplit(splits: seq<SplitInput>): (r: Result<()>)
    ensures r.Ok? <==> forall i :: 0 <= i < |splits| ==> WellShaped(splits[i])
    ensures r.Err? ==> r.status == BadRequest
  {
    if splits == [] then Ok(())
    else
      var s := splits[0];
      if s.inflow < 0 || s.outflow < 0 then Err(BadRequest)
      else if s.inflow > 0 && s.outflow > 0 then Err(BadRequest)
      else if s.inflow == 0 && s.outflow == 0 then Err(BadRequest)
      else
        var rest := CheckEachSplit(splits[1..]);
        assert forall i :: 1 <= i < |splits| ==> splits[i] == splits[1..][i - 1];
        rest
  }

  /** The cases of the unit test of `validate_splits`. */
  lemma ValidateSplitsExamples()
    ensures ValidateSplits([]).Err?
    ensures ValidateSplits([SplitInput(0, None, -1, 0)]).Err?
    ensures ValidateSplits([SplitInput(0, None, 1, 1)]).Err?
    ensures ValidateSplits([SplitInput(0, None, 0, 0)]).Err?
    ensures ValidateSplits([SplitInput(0, None, 0, 250)]) == Ok(())
    ensures ValidateSplits([SplitInput(0, None, 250, 0)]) == Ok(())
  {
    assert !WellShaped(SplitInput(0, None, -1, 0));
    assert !WellShaped(SplitInput(0, None, 1, 1));
  }

  /** `project_available`: what is left of the inflow after the outflow. */
  function ProjectAvailable(inflow: int, outflow: int): (available: int)
    ensures available + outflow == inflow
    ensures available >= 0 <==> outflow <= inflow
  {
    inflow - outflow
  }

  /** The dashboard unit test: 4500 in and 1200 out leave 3300. */
  lemma ProjectAvailableExample()
    ensures ProjectAvailable(4500, 1200) == 3300
  {
  }
}
