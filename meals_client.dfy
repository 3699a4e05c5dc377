/** The meals list page (frontend/src/app/meals/MealsClient.tsx): a form (search text, calorie
    bounds, limit, offset) whose inputs are checked before Apply, and a page state updated by
    fetches. Text fields are held as the values `Number(text)` gives them; the request the page
    sends and the rendering are left out. */
module MealsList {
  import opened Common
  import opened JsNumbers
  import opened ListPaging
  import opened Records

  /** A calorie bound: an empty field is skipped, otherwise the field's `Number()` value. */
  datatype Bound = Blank | Given(n: JsNumber)

  const MinMessage: string := "Min calories must be >=0"
  const MaxMessage: string := "Max calories must be >=0"
  const OrderMessage: string := "Min cannot exceed max"

  /** A given bound is rejected unless it is finite and not below zero. */
  predicate BoundRejected(b: Bound)
  {
    b.Given? && (!IsFinite(b.n) || Less(b.n, FromInt(0)))
  }

  /** `min > max`, checked only when both bounds are given. */
  predicate BoundsCrossed(min: Bound, max: Bound)
  {
    min.Given? && max.Given? && Greater(min.n, max.n)
  }

  /** The `validation` memo: messages in the order the checks push them. */
  function Validation(limit: JsNumber, offset: JsNumber, min: Bound, max: Bound): seq<string>
  {
    (if LimitRejected(limit) then [LimitMessage] else [])
    + (if OffsetRejected(offset) then [OffsetMessage] else [])
    + (if BoundRejected(min) then [MinMessage] else [])
    + (if BoundRejected(max) then [MaxMessage] else [])
    + (if BoundsCrossed(min, max) then [OrderMessage] else [])
  }

  /** Each message is shown exactly when its check fails, and the form is accepted exactly when
      the limit is an integer from 1 to 100, the offset a non-negative integer, each given bound
      finite and non-negative, and min is not above max. */
  lemma ValidationMessages(limit: JsNumber, offset: JsNumber, min: Bound, max: Bound)
    ensures var v := Validation(limit, offset, min, max);
      && (LimitMessage in v <==> !exists n: int :: 1 <= n <= 100 && limit == FromInt(n))
      && (OffsetMessage in v <==> !exists n: nat :: offset == FromInt(n))
      && (MinMessage in v <==> min.Given? && !(min.n.Finite? && min.n.value >= 0.0))
      && (MaxMessage in v <==> max.Given? && !(max.n.Finite? && max.n.value >= 0.0))
      && (OrderMessage in v <==> min.Given? && max.Given? && Greater(min.n, max.n))
      && |v| <= 5
  {
    LimitRejectedIff(limit);
    OffsetRejectedIff(offset);
    assert LimitMessage[0] == 'L' && OffsetMessage[0] == 'O' && MinMessage[1] == 'i'
        && MaxMessage[1] == 'a' && OrderMessage[4] == 'c' && MinMessage[4] == 'c';
  }

  /** Validation passes exactly when every check passes. */
  lemma ValidationEmptyIff(limit: JsNumber, offset: JsNumber, min: Bound, max: Bound)
    ensures Validation(limit, offset, min, max) == [] <==>
      && (exists n: int :: 1 <= n <= 100 && limit == FromInt(n))
      && (exists n: nat :: offset == FromInt(n))
      && (min.Given? ==> min.n.Finite? && min.n.value >= 0.0)
      && (max.Given? ==> max.n.Finite? && max.n.value >= 0.0)
      && !(min.Given? && max.Given? && min.n.Finite? && max.n.Finite? && min.n.value > max.n.value)
  {
    LimitRejectedIff(limit);
    OffsetRejectedIff(offset);
  }

  /** The form of the end-to-end test, step by step: limit 1000 is refused; offset -1 is then
      refused as well; min 500 above max 100 then adds the order message, with the limit and offset
      messages still shown. The default form (limit 20, offset 0, no bounds) passes. */
  lemma ValidationExamples()
    ensures Validation(FromInt(1000), FromInt(0), Blank, Blank) == [LimitMessage]
    ensures Validation(FromInt(1000), FromInt(-1), Blank, Blank) == [LimitMessage, OffsetMessage]
    ensures Validation(FromInt(1000), FromInt(-1), Given(FromInt(500)), Given(FromInt(100)))
            == [LimitMessage, OffsetMessage, OrderMessage]
    ensures Validation(FromInt(20), FromInt(0), Blank, Blank) == []
  {
  }

  class MealsClient {
    var q: string
    var minCal: Bound
    var maxCal: Bound
    var limit: JsNumber
    var offset: JsNumber
    var data: ListData<Meal>
    var loading: bool
    var error: Option<int>
    var issues: seq<string>

    function State(): PageState<Meal>
      reads this
    {
      PageState(data, offset, loading, error, issues)
    }

    function CurrentValidation(): seq<string>
      reads this
    {
      Validation(limit, offset, minCal, maxCal)
    }

    /** The initial state: `limit || 20`, `offset || 0`, and the server-rendered data. */
    constructor (initLimit: JsNumber, initOffset: JsNumber, initQ: string, initMin: Bound, initMax: Bound,
                 initData: ListData<Meal>)
      ensures limit == (if Truthy(initLimit) then initLimit else FromInt(20))
      ensures offset == (if Truthy(initOffset) then initOffset else FromInt(0))
      ensures q == initQ && minCal == initMin && maxCal == initMax
      ensures State() == PageState(initData, offset, false, None, [])
    {
      q := initQ;
      minCal := initMin;
      maxCal := initMax;
      limit := if Truthy(initLimit) then initLimit else FromInt(20);
      offset := if Truthy(initOffset) then initOffset else FromInt(0);
      data := initData;
      loading := false;
      error := None;
      issues := [];
    }

    /** The form's change handlers: the typed values replace the inputs, nothing else moves. */
    method EditForm(newQ: string, newMin: Bound, newMax: Bound, newLimit: JsNumber, newOffset: JsNumber)
      modifies this
      ensures q == newQ && minCal == newMin && maxCal == newMax && limit == newLimit && offset == newOffset
      ensures data == old(data) && loading == old(loading) && error == old(error) && issues == old(issues)
    {
      q, minCal, maxCal, limit, offset := newQ, newMin, newMax, newLimit, newOffset;
    }

    /** `fetchPage(newOffset, join)`: clear the messages, wait for the outcome, then record the
        failure or take the rows (appending on join) and the new offset. */
    method FetchPage(newOffset: JsNumber, join: bool, outcome: FetchOutcome<Meal>)
      modifies this
      ensures State() == AfterFetch(old(State()), newOffset, join, outcome)
      ensures q == old(q) && minCal == old(minCal) && maxCal == old(maxCal) && limit == old(limit)
    {
      loading := true;
      error := None;
      issues := [];
      match outcome {
        case HttpError(status) =>
          loading := false;
          error := Some(status);
          return;
        case SchemaError(found) =>
          loading := false;
          issues := found;
          return;
        case Fetched(rows, total) =>
          loading := false;
          if join && data.Loaded? {
            data := Loaded(data.rows + rows, total);
          } else {
            data := Loaded(rows, total);
          }
          offset := newOffset;
      }
    }

    /** Apply: blocked while any validation message shows; otherwise the first page, replacing. */
    method Apply(outcome: FetchOutcome<Meal>)
      modifies this
      ensures old(CurrentValidation()) != [] ==> State() == old(State())
      ensures old(CurrentValidation()) == [] ==> State() == AfterFetch(old(State()), FromInt(0), false, outcome)
      ensures q == old(q) && minCal == old(minCal) && maxCal == old(maxCal) && limit == old(limit)
    {
      if |CurrentValidation()| > 0 { return; }
      FetchPage(FromInt(0), false, outcome);
    }

    method Prev(outcome: FetchOutcome<Meal>)
      modifies this
      ensures State() == AfterFetch(old(State()), PrevOffset(old(offset), old(limit)), false, outcome)
      ensures q == old(q) && minCal == old(minCal) && maxCal == old(maxCal) && limit == old(limit)
    {
      var o := PrevOffset(offset, limit);
      FetchPage(o, false, outcome);
    }

    method Next(outcome: FetchOutcome<Meal>)
      modifies this
      ensures State() == AfterFetch(old(State()), NextOffset(old(offset), old(limit)), false, outcome)
      ensures q == old(q) && minCal == old(minCal) && maxCal == old(maxCal) && limit == old(limit)
    {
      var o := NextOffset(offset, limit);
      FetchPage(o, false, outcome);
    }

    method LoadMore(outcome: FetchOutcome<Meal>)
      modifies this
      ensures State() == AfterFetch(old(State()), NextOffset(old(offset), old(limit)), true, outcome)
      ensures q == old(q) && minCal == old(minCal) && maxCal == old(maxCal) && limit == old(limit)
    {
      var o := NextOffset(offset, limit);
      FetchPage(o, true, outcome);
    }
  }
}
