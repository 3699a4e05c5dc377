/** The workouts list page (frontend/src/app/workouts/WorkoutsClient.tsx): a type filter that is
    never checked, limit and offset checks, and the same fetch and navigation rules as the meals
    page. Text fields are held as the values `Number(text)` gives them. */
module WorkoutsList {
  import opened Common
  import opened JsNumbers
  import opened ListPaging
  import opened Records

  /** The `validation` memo: the limit and the offset are the only checks. */
  function Validation(limit: JsNumber, offset: JsNumber): seq<string>
  {
    (if LimitRejected(limit) then [LimitMessage] else [])
    + (if OffsetRejected(offset) then [OffsetMessage] else [])
  }

  /** Each message shows exactly when its check fails; the form is accepted exactly when the limit
      is an integer from 1 to 100 and the offset a non-negative integer. */
  lemma ValidationMessages(limit: JsNumber, offset: JsNumber)
    ensures var v := Validation(limit, offset);
      && (LimitMessage in v <==> !exists n: int :: 1 <= n <= 100 && limit == FromInt(n))
      && (OffsetMessage in v <==> !exists n: nat :: offset == FromInt(n))
      && (v == [] <==> (exists n: int :: 1 <= n <= 100 && limit == FromInt(n))
                       && (exists n: nat :: offset == FromInt(n)))
  {
    LimitRejectedIff(limit);
    OffsetRejectedIff(offset);
    assert LimitMessage[0] == 'L' && OffsetMessage[0] == 'O';
  }

  class WorkoutsClient {
    var kind: string
    var limit: JsNumber
    var offset: JsNumber
    var data: ListData<Workout>
    var loading: bool
    var error: Option<int>
    var issues: seq<string>

    function State(): PageState<Workout>
      reads this
    {
      PageState(data, offset, loading, error, issues)
    }

    function CurrentValidation(): seq<string>
      reads this
    {
      Validation(limit, offset)
    }

    /** The initial state: `type || ''`, `limit || 20`, `offset || 0`, and the server-rendered data. */
    constructor (initLimit: JsNumber, initOffset: JsNumber, initKind: string, initData: ListData<Workout>)
      ensures limit == (if Truthy(initLimit) then initLimit else FromInt(20))
      ensures offset == (if Truthy(initOffset) then initOffset else FromInt(0))
      ensures kind == initKind
      ensures State() == PageState(initData, offset, false, None, [])
    {
      kind := initKind;
      limit := if Truthy(initLimit) then initLimit else FromInt(20);
      offset := if Truthy(initOffset) then initOffset else FromInt(0);
      data := initData;
      loading := false;
      error := None;
      issues := [];
    }

    /** The form's change handlers. */
    method EditForm(newKind: string, newLimit: JsNumber, newOffset: JsNumber)
      modifies this
      ensures kind == newKind && limit == newLimit && offset == newOffset
      ensures data == old(data) && loading == old(loading) && error == old(error) && issues == old(issues)
    {
      kind, limit, offset := newKind, newLimit, newOffset;
    }

    /** `fetchPage(newOffset, join)`. */
    method FetchPage(newOffset: JsNumber, join: bool, outcome: FetchOutcome<Workout>)
      modifies this
      ensures State() == AfterFetch(old(State()), newOffset, join, outcome)
      ensures kind == old(kind) && limit == old(limit)
    {
      loading := true;
      error := None;
      issues := [];
      match outcome {
        case HttpError(status) =>
          loading := false;
          error := Some(status);
          return;
        case SchemaError(found) =>
          loading := false;
          issues := found;
          return;
        case Fetched(rows, total) =>
          loading := false;
          if join && data.Loaded? {
            data := Loaded(data.rows + rows, total);
          } else {
            data := Loaded(rows, total);
          }
          offset := newOffset;
      }
    }

    method Apply(outcome: FetchOutcome<Workout>)
      modifies this
      ensures old(CurrentValidation()) != [] ==> State() == old(State())
      ensures old(CurrentValidation()) == [] ==> State() == AfterFetch(old(State()), FromInt(0), false, outcome)
      ensures kind == old(kind) && limit == old(limit)
    {
      if |CurrentValidation()| > 0 { return; }
      FetchPage(FromInt(0), false, outcome);
    }

    method Prev(outcome: FetchOutcome<Workout>)
      modifies this
      ensures State() == AfterFetch(old(State()), PrevOffset(old(offset), old(limit)), false, outcome)
      ensures kind == old(kind) && limit == old(limit)
    {
      var o := PrevOffset(offset, limit);
      FetchPage(o, false, outcome);
    }

    method Next(outcome: FetchOutcome<Workout>)
      modifies this
      ensures State() == AfterFetch(old(State()), NextOffset(old(offset), old(limit)), false, outcome)
      ensures kind == old(kind) && limit == old(limit)
    {
      var o := NextOffset(offset, limit);
      FetchPage(o, false, outcome);
    }

    method LoadMore(outcome: FetchOutcome<Workout>)
      modifies this
      ensures State() == AfterFetch(old(State()), NextOffset(old(offset), old(limit)), true, outcome)
      ensures kind == old(kind) && limit == old(limit)
    {
      var o := NextOffset(offset, limit);
      FetchPage(o, true, outcome);
    }
  }
}
