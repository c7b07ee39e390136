/** frontend/src/components/useNodeTable.js: the hook that keeps one table's
    state (rows, row count, pagination, sort model, filter model) and fetches
    a page from `${endpointBase}-data` whenever that state changes.

    React's effect scheduling is written out: a state change that alters
    fetchData's dependencies issues one fetch; a filter change issues two, the
    second after the page is reset to 0. Responses are applied in whatever
    order they arrive, with nothing tying a response to its request. */
module UseNodeTable {
  import opened Text
  import opened Values
  import opened Api

  /** One entry of the DataGrid sort model. */
  datatype SortItem = SortItem(field: string, sort: string)

  /** The query string fetchData sends. The filter model is kept as the text
      `encodeURIComponent(JSON.stringify(filterModel))` puts in the URL. */
  datatype Query = Query(skip: nat, limit: nat, sortField: string, sortOrder: string, filterModel: string)

  const InitialPageSize: nat := 15
  const InitialSort: seq<SortItem> := [SortItem("pk", "desc")]
  /** `{ items: [] }`, stringified and URI-encoded. */
  const InitialFilter: string := "%7B%22items%22%3A%5B%5D%7D"

  /** The query for the given state; None when `sortModel[0]` is undefined and
      reading its field throws before any request is made. */
  function QueryFor(page: nat, pageSize: nat, sortModel: seq<SortItem>, filterModel: string): (q: Option<Query>)
    ensures q.None? <==> sortModel == []
  {
    if sortModel == [] then None
    else Some(Query(page * pageSize, pageSize, sortModel[0].field, sortModel[0].sort, filterModel))
  }

  /** Equal multiples of a positive size have equal factors. */
  lemma MulCancel(a: nat, b: nat, size: nat)
    requires size > 0 && a * size == b * size
    ensures a == b
  {
  }

  /** Only the first entry of the sort model reaches the server. */
  lemma OnlyFirstSortItemMatters(page: nat, pageSize: nat, m1: seq<SortItem>, m2: seq<SortItem>, filterModel: string)
    requires m1 != [] && m2 != [] && m1[0] == m2[0]
    ensures QueryFor(page, pageSize, m1, filterModel) == QueryFor(page, pageSize, m2, filterModel)
  {
  }

  /** The request URL. */
  function QueryUrl(endpointBase: string, q: Query): string
  {
    endpointBase + "-data?skip=" + NatToString(q.skip) + "&limit=" + NatToString(q.limit)
      + "&sortField=" + q.sortField + "&sortOrder=" + q.sortOrder + "&filterModel=" + q.filterModel
  }

  /** What follows the limit digits in the URL. */
  function AfterLimit(q: Query): string
  {
    "&sortField=" + q.sortField + "&sortOrder=" + q.sortOrder + "&filterModel=" + q.filterModel
  }

  /** The URL with its first two parameters spelled out. */
  lemma QueryUrlParts(endpointBase: string, q: Query)
    ensures QueryUrl(endpointBase, q)
            == (endpointBase + "-data?skip=") + (NatToString(q.skip) + ['&'] + ("limit=" + NatToString(q.limit) + AfterLimit(q)))
  {
  }

  /** Past "limit=", the limit digits and then the '&' of the next parameter. */
  lemma LimitTailShape(q: Query)
    ensures ("limit=" + NatToString(q.limit) + AfterLimit(q))[6..]
            == NatToString(q.limit) + ['&'] + AfterLimit(q)[1..]
  {
    assert AfterLimit(q) == ['&'] + AfterLimit(q)[1..];
  }

  /** The part of a URL from "limit=" on names the limit. */
  lemma LimitFromTail(q1: Query, q2: Query)
    requires "limit=" + NatToString(q1.limit) + AfterLimit(q1) == "limit=" + NatToString(q2.limit) + AfterLimit(q2)
    ensures q1.limit == q2.limit
  {
    LimitTailShape(q1);
    LimitTailShape(q2);
    DigitsBeforeSeparator(NatToString(q1.limit), NatToString(q2.limit), '&', AfterLimit(q1)[1..], AfterLimit(q2)[1..]);
    NatToStringInjective(q1.limit, q2.limit);
  }

  /** Two URLs of the same table that are equal ask for the same rows: the
      digits of skip and of limit end at the '&' that follows them. */
  lemma UrlDeterminesWindow(endpointBase: string, q1: Query, q2: Query)
    requires QueryUrl(endpointBase, q1) == QueryUrl(endpointBase, q2)
    ensures q1.skip == q2.skip && q1.limit == q2.limit
  {
    var p := endpointBase + "-data?skip=";
    var x1 := "limit=" + NatToString(q1.limit) + AfterLimit(q1);
    var x2 := "limit=" + NatToString(q2.limit) + AfterLimit(q2);
    QueryUrlParts(endpointBase, q1);
    QueryUrlParts(endpointBase, q2);
    var a1 := NatToString(q1.skip) + ['&'] + x1;
    var a2 := NatToString(q2.skip) + ['&'] + x2;
    assert a1 == (p + a1)[|p|..] == (p + a2)[|p|..] == a2;
    DigitsBeforeSeparator(NatToString(q1.skip), NatToString(q2.skip), '&', x1, x2);
    NatToStringInjective(q1.skip, q2.skip);
    LimitFromTail(q1, q2);
  }

  /** With a positive page size, the URL names the page and its size. */
  lemma UrlDeterminesPage(endpointBase: string, page1: nat, size1: nat, page2: nat, size2: nat,
                          m1: seq<SortItem>, m2: seq<SortItem>, f1: string, f2: string)
    requires m1 != [] && m2 != [] && size1 > 0
    requires QueryUrl(endpointBase, QueryFor(page1, size1, m1, f1).value)
             == QueryUrl(endpointBase, QueryFor(page2, size2, m2, f2).value)
    ensures page1 == page2 && size1 == size2
  {
    UrlDeterminesWindow(endpointBase, QueryFor(page1, size1, m1, f1).value, QueryFor(page2, size2, m2, f2).value);
    MulCancel(page1, page2, size1);
  }

  /** The GET requests one call of fetchData issues: none when it throws. */
  function Fetch(endpointBase: string, page: nat, pageSize: nat, sortModel: seq<SortItem>, filterModel: string): (rs: seq<Request>)
    ensures |rs| == if sortModel == [] then 0 else 1
    ensures forall i :: 0 <= i < |rs| ==> rs[i].verb == GET && rs[i].body == []
  {
    match QueryFor(page, pageSize, sortModel, filterModel)
    case None => []
    case Some(q) => [Request(GET, QueryUrl(endpointBase, q), [])]
  }

  /** After a filter change the hook first fetches the old page under the new
      filter and then page 0: the last request asks for the first page, and
      the first one asks for other rows whenever the table was past page 0. */
  lemma FilterChangeEndsOnFirstPage(endpointBase: string, page: nat, pageSize: nat, sortModel: seq<SortItem>, filterModel: string)
    requires sortModel != []
    ensures var rs := Fetch(endpointBase, page, pageSize, sortModel, filterModel)
                      + Fetch(endpointBase, 0, pageSize, sortModel, filterModel);
            |rs| == 2
            && rs[1].url == QueryUrl(endpointBase, Query(0, pageSize, sortModel[0].field, sortModel[0].sort, filterModel))
            && (page > 0 && pageSize > 0 ==> rs[0].url != rs[1].url)
  {
    if page > 0 && pageSize > 0 && QueryUrl(endpointBase, QueryFor(page, pageSize, sortModel, filterModel).value)
                                    == QueryUrl(endpointBase, QueryFor(0, pageSize, sortModel, filterModel).value) {
      UrlDeterminesPage(endpointBase, page, pageSize, 0, pageSize, sortModel, sortModel, filterModel, filterModel);
    }
  }

  /** `({ data, total }) => { setRows(data); setRowCount(total); }` applied to
      a response body: a null body throws on destructuring and changes
      nothing; any other value sets both, to undefined where the property is
      missing. None is a rejected fetch or an unparsable body. */
  function Applied(rows: Option<Json>, rowCount: Option<Json>, body: Option<Json>): (Option<Json>, Option<Json>)
  {
    match body
    case None => (rows, rowCount)
    case Some(b) => if b.Null? then (rows, rowCount) else (Get(b, "data"), Get(b, "total"))
  }

  /** A page from the read endpoint fills the table: its rows and its total. */
  lemma PageResponseFillsTable(rows: Option<Json>, rowCount: Option<Json>, b: PageBody)
    ensures Applied(rows, rowCount, Some(PageJson(b))) == (Some(Arr(b.data)), Some(Num(b.total)))
  {
  }

  /** An error body `{"detail": …}` leaves the table without rows and without
      a count (both undefined). */
  lemma ErrorResponseClearsTable(rows: Option<Json>, rowCount: Option<Json>, e: HttpError)
    ensures Applied(rows, rowCount, Some(ErrorJson(e))) == (None, None)
  {
  }

  /** The table shows the last response to arrive, whichever request it answers. */
  lemma LastResponseWins(rows: Option<Json>, rowCount: Option<Json>, b1: Json, b2: Json)
    requires !b2.Null?
    ensures var (r1, c1) := Applied(rows, rowCount, Some(b1));
            Applied(r1, c1, Some(b2)) == Applied(rows, rowCount, Some(b2))
  {
  }

  /** The hook's state and the GET requests it has issued, in order. */
  class NodeTableHook {
    const endpointBase: string
    var rows: Option<Json>
    var rowCount: Option<Json>
    var page: nat
    var pageSize: nat
    var sortModel: seq<SortItem>
    var filterModel: string
    var requests: seq<Request>

    /** Mount: the first render's effect fetches, the page reset effect makes
        a new pagination object, and the re-render fetches the same page again. */
    constructor (endpointBase: string)
      ensures this.endpointBase == endpointBase
      ensures rows == Some(Arr([])) && rowCount == Some(Num(0))
      ensures page == 0 && pageSize == InitialPageSize && sortModel == InitialSort && filterModel == InitialFilter
      ensures var first := Request(GET, QueryUrl(endpointBase, Query(0, InitialPageSize, "pk", "desc", InitialFilter)), []);
              requests == [first, first]
    {
      this.endpointBase := endpointBase;
      rows := Some(Arr([]));
      rowCount := Some(Num(0));
      page := 0;
      pageSize := InitialPageSize;
      sortModel := InitialSort;
      filterModel := InitialFilter;
      requests := [];
      requests := requests + Fetch(endpointBase, 0, InitialPageSize, InitialSort, InitialFilter);
      requests := requests + Fetch(endpointBase, 0, InitialPageSize, InitialSort, InitialFilter);
    }

    /** fetchData (also returned as refetch). */
    method FetchData()
      modifies this
      ensures requests == old(requests) + Fetch(endpointBase, page, pageSize, sortModel, filterModel)
      ensures rows == old(rows) && rowCount == old(rowCount)
      ensures page == old(page) && pageSize == old(pageSize)
      ensures sortModel == old(sortModel) && filterModel == old(filterModel)
    {
      if sortModel != [] {
        var skip := page * pageSize;
        var q := Query(skip, pageSize, sortModel[0].field, sortModel[0].sort, filterModel);
        requests := requests + [Request(GET, QueryUrl(endpointBase, q), [])];
      }
    }

    /** setPagination: a new pagination object, so one fetch. */
    method SetPagination(newPage: nat, newPageSize: nat)
      modifies this
      ensures page == newPage && pageSize == newPageSize
      ensures requests == old(requests) + Fetch(endpointBase, newPage, newPageSize, sortModel, filterModel)
      ensures rows == old(rows) && rowCount == old(rowCount)
      ensures sortModel == old(sortModel) && filterModel == old(filterModel)
    {
      page, pageSize := newPage, newPageSize;
      FetchData();
    }

    /** setSortModel: one fetch with the new sort. */
    method SetSortModel(newSort: seq<SortItem>)
      modifies this
      ensures sortModel == newSort
      ensures requests == old(requests) + Fetch(endpointBase, page, pageSize, newSort, filterModel)
      ensures rows == old(rows) && rowCount == old(rowCount)
      ensures page == old(page) && pageSize == old(pageSize) && filterModel == old(filterModel)
    {
      sortModel := newSort;
      FetchData();
    }

    /** setFilter: the fetch effect runs with the old page, then the reset
        effect sets page 0 and the fetch effect runs again. */
    method SetFilter(newFilter: string)
      modifies this
      ensures filterModel == newFilter && page == 0
      ensures requests == old(requests) + Fetch(endpointBase, old(page), pageSize, sortModel, newFilter)
                                        + Fetch(endpointBase, 0, pageSize, sortModel, newFilter)
      ensures rows == old(rows) && rowCount == old(rowCount)
      ensures pageSize == old(pageSize) && sortModel == old(sortModel)
    {
      filterModel := newFilter;
      FetchData();
      page := 0;
      FetchData();
    }

    /** A response arriving for any of the issued requests. */
    method Receive(body: Option<Json>)
      modifies this
      ensures (rows, rowCount) == Applied(old(rows), old(rowCount), body)
      ensures requests == old(requests)
      ensures page == old(page) && pageSize == old(pageSize)
      ensures sortModel == old(sortModel) && filterModel == old(filterModel)
    {
      if body.Some? && !body.value.Null? {
        rows := Get(body.value, "data");
        rowCount := Get(body.value, "total");
      }
    }
  }
}
