/** What the meals and workouts list pages have in common (frontend/src/app/meals/MealsClient.tsx,
    frontend/src/app/workouts/WorkoutsClient.tsx): the limit and offset checks, the offsets that
    Prev, Next and Load more ask for, and the rule that updates the page state when a fetch ends.
    A fetch's outcome is a parameter: rows and total that passed the schema, an HTTP error status,
    or a schema failure with its issues. */
module ListPaging {
  import opened Common
  import opened JsNumbers
  import Tables

  datatype FetchOutcome<R> =
    | Fetched(rows: seq<R>, total: Option<real>)
    | HttpError(status: int)
    | SchemaError(issues: seq<string>)

  /** The `data` state: either no list yet (null, or an object without a rows array), or a list of
      rows with the total the server reported. */
  datatype ListData<R> = NoList | Loaded(rows: seq<R>, total: Option<real>)

  /** The state a fetch touches. `error` holds the HTTP status shown as "Status <code>". */
  datatype PageState<R> = PageState(
    data: ListData<R>, offset: JsNumber, loading: bool, error: Option<int>, issues: seq<string>)

  const LimitMessage: string := "Limit must be 1-100"
  const OffsetMessage: string := "Offset must be >=0"

  /** The limit check as written: `!Number.isInteger(l) || l < 1 || l > 100`. */
  predicate LimitRejected(l: JsNumber)
  {
    !IsInteger(l) || Less(l, FromInt(1)) || Greater(l, FromInt(100))
  }

  /** The offset check as written: `!Number.isInteger(o) || o < 0`. */
  predicate OffsetRejected(o: JsNumber)
  {
    !IsInteger(o) || Less(o, FromInt(0))
  }

  /** The limit is accepted exactly when it is an integer from 1 to 100. */
  lemma LimitRejectedIff(l: JsNumber)
    ensures !LimitRejected(l) <==> exists n: int :: 1 <= n <= 100 && l == FromInt(n)
  {
    if !LimitRejected(l) {
      var n := l.value.Floor;
      assert 1 <= n <= 100 && l == FromInt(n);
    }
  }

  /** The offset is accepted exactly when it is a non-negative integer. */
  lemma OffsetRejectedIff(o: JsNumber)
    ensures !OffsetRejected(o) <==> exists n: nat :: o == FromInt(n)
  {
    if !OffsetRejected(o) {
      var n: nat := o.value.Floor;
      assert o == FromInt(n);
    }
  }

  /** Rows after a successful fetch: appended to the current rows on "load more" when there are
      rows, otherwise replaced. The total is always the fetched one. */
  function MergeRows<R>(data: ListData<R>, rows: seq<R>, total: Option<real>, join: bool): (r: ListData<R>)
    ensures r.Loaded? && r.total == total
    ensures join && data.Loaded? ==>
      |r.rows| == |data.rows| + |rows| && r.rows[..|data.rows|] == data.rows && r.rows[|data.rows|..] == rows
    ensures !(join && data.Loaded?) ==> r.rows == rows
  {
    if join && data.Loaded? then Loaded(data.rows + rows, total) else Loaded(rows, total)
  }

  /** `fetchPage(newOffset, join)` once its request has completed with `outcome`. */
  function AfterFetch<R>(s: PageState<R>, newOffset: JsNumber, join: bool, outcome: FetchOutcome<R>): PageState<R>
  {
    match outcome
    case HttpError(status) => s.(loading := false, error := Some(status), issues := [])
    case SchemaError(found) => s.(loading := false, error := None, issues := found)
    case Fetched(rows, total) =>
      s.(loading := false, error := None, issues := [],
         data := MergeRows(s.data, rows, total, join), offset := newOffset)
  }

  /** A failed fetch (HTTP or schema) leaves the rows and the offset as they were and reports the
      failure; the offset moves only after a successful fetch. */
  lemma FailedFetchKeepsPage<R>(s: PageState<R>, newOffset: JsNumber, join: bool, outcome: FetchOutcome<R>)
    ensures var t := AfterFetch(s, newOffset, join, outcome);
      && !t.loading
      && (!outcome.Fetched? ==> t.data == s.data && t.offset == s.offset)
      && (outcome.HttpError? ==> t.error == Some(outcome.status) && t.issues == [])
      && (outcome.SchemaError? ==> t.error.None? && t.issues == outcome.issues)
      && (t.offset != s.offset ==> outcome.Fetched?)
  {
  }

  /** A successful "load more" never shrinks the list: the old rows stay in front, the new ones
      follow. Any other successful fetch shows exactly the fetched rows. */
  lemma LoadMoreGrows<R>(s: PageState<R>, newOffset: JsNumber, rows: seq<R>, total: Option<real>)
    requires s.data.Loaded?
    ensures var t := AfterFetch(s, newOffset, true, Fetched(rows, total));
      && t.data.rows == s.data.rows + rows
      && |t.data.rows| == |s.data.rows| + |rows|
      && t.offset == newOffset
  {
    var r := MergeRows(s.data, rows, total, true);
    assert r.rows == r.rows[..|s.data.rows|] + r.rows[|s.data.rows|..];
  }

  /** Offset asked for by Prev: `Math.max(0, offset - limit)`. */
  function PrevOffset(offset: JsNumber, limit: JsNumber): JsNumber { MaxZero(Sub(offset, limit)) }

  /** Offset asked for by Next and by Load more: `offset + limit`. */
  function NextOffset(offset: JsNumber, limit: JsNumber): JsNumber { Add(offset, limit) }

  /** The Prev button is enabled unless a fetch is running or `Number(offset) <= 0`. */
  predicate PrevEnabled(loading: bool, offset: JsNumber)
  {
    !loading && !LessOrEqual(offset, FromInt(0))
  }

  /** With any integer offset and limit, Prev asks for max(0, offset - limit) and Next asks for
      offset + limit; with a positive limit and the Prev button enabled, Prev's offset lies strictly
      below the current one. */
  lemma NavigationOffsets(offset: int, limit: int)
    ensures PrevOffset(FromInt(offset), FromInt(limit)) == FromInt(Max(0, offset - limit))
    ensures NextOffset(FromInt(offset), FromInt(limit)) == FromInt(offset + limit)
    ensures 1 <= limit && PrevEnabled(false, FromInt(offset)) ==> Max(0, offset - limit) < offset
  {
    IntegerArithmetic(offset, limit);
  }

  /** Whatever the form holds, Prev never asks for a negative offset. */
  lemma PrevNeverNegative(offset: JsNumber, limit: JsNumber)
    ensures !Less(PrevOffset(offset, limit), FromInt(0))
  {
    MaxZeroNeverNegative(Sub(offset, limit));
  }

  /** Load more against the backend's paging: when the list shows the page at `offset` and the
      fetch returns the page at `offset + limit` of the same filtered rows, the list afterwards is
      the page at `offset` of twice the size, and the offset is `offset + limit`. */
  lemma LoadMoreShowsLongerPage<R>(filtered: seq<R>, s: PageState<R>, offset: int, limit: int, total: Option<real>)
    requires 0 <= offset && 0 <= limit
    requires s.data == Loaded(Tables.Page(filtered, offset, limit), total)
    requires s.offset == FromInt(offset) && s.loading == false
    ensures var t := AfterFetch(s, NextOffset(s.offset, FromInt(limit)), true,
                                Fetched(Tables.Page(filtered, offset + limit, limit), total));
      && t.data.rows == Tables.Page(filtered, offset, limit + limit)
      && t.offset == FromInt(offset + limit)
  {
    Tables.PagesConcatenate(filtered, offset, limit, limit);
    LoadMoreGrows(s, NextOffset(s.offset, FromInt(limit)), Tables.Page(filtered, offset + limit, limit), total);
    IntegerArithmetic(offset, limit);
  }
}
