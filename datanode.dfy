/** The data-node routes of backend/app/datanode.py: the searchable, sortable,
    paginated read of Data nodes and the (dry-run) delete. As for the node
    router, the database query is the sequence of matches in ORDER BY order and
    delete_nodes is given as its outcome. */
module DataNode {
  import opened Text
  import opened Values
  import opened Paging
  import opened Api

  /** The query parameters; None is an absent search parameter. */
  datatype DataQuery = DataQuery(
    typeSearch: Option<string>, labelSearch: Option<string>,
    skip: int, limit: int, sortField: string, sortOrder: string)

  const DefaultDataQuery := DataQuery(None, None, 0, 15, "pk", "desc")

  const DataSortFields: seq<string> := ["pk", "ctime", "node_type", "label"]

  const ColumnMap: map<string, string> := map[
    "pk" := "id",
    "ctime" := "ctime",
    "node_type" := "node_type",
    "label" := "label"]

  predicate ValidDataQuery(q: DataQuery)
  {
    q.skip >= 0 && 0 < q.limit <= 500 && q.sortField in DataSortFields && q.sortOrder in ["asc", "desc"]
  }

  /** Here the pattern and the column map name the same fields. */
  lemma SortFieldsMatchColumns()
    ensures forall f :: f in DataSortFields <==> f in ColumnMap
    ensures ValidDataQuery(DefaultDataQuery)
  {
  }

  /** A `{"like": pattern}` condition of the query builder. */
  datatype Like = Like(pattern: string)

  /** A search parameter is used when it is given and not empty. */
  predicate Given(search: Option<string>) { search.Some? && search.value != "" }

  /** The filters dict the route builds from the two search parameters. */
  function FiltersFor(typeSearch: Option<string>, labelSearch: Option<string>): (f: seq<(string, Like)>)
    ensures UniqueKeys(f) && |f| <= 2
    ensures forall i :: 0 <= i < |f| ==> f[i].0 == "node_type" || f[i].0 == "label"
    ensures HasKey(f, "node_type") <==> Given(typeSearch)
    ensures HasKey(f, "label") <==> Given(labelSearch)
    ensures Given(typeSearch) ==> Lookup(f, "node_type") == Some(Like("%" + typeSearch.value + "%"))
    ensures Given(labelSearch) ==> Lookup(f, "label") == Some(Like("%" + labelSearch.value + "%"))
  {
    var byType := if Given(typeSearch) then [("node_type", Like("%" + typeSearch.value + "%"))] else [];
    var byLabel := if Given(labelSearch) then [("label", Like("%" + labelSearch.value + "%"))] else [];
    var f := byType + byLabel;
    assert Given(typeSearch) ==> f[0].0 == "node_type";
    assert !Given(typeSearch) ==> forall i :: 0 <= i < |f| ==> f[i].0 == "label";
    assert Given(labelSearch) ==> f[|f| - 1] == ("label", Like("%" + labelSearch.value + "%"));
    if Given(labelSearch) then LookupAt(f, |f| - 1); f else f
  }

  /** The route's own steps: an empty dict, then one condition per given search. */
  method BuildFilters(typeSearch: Option<string>, labelSearch: Option<string>) returns (filters: seq<(string, Like)>)
    ensures filters == FiltersFor(typeSearch, labelSearch)
  {
    filters := [];
    if typeSearch.Some? && typeSearch.value != "" {
      filters := filters + [("node_type", Like("%" + typeSearch.value + "%"))];
    }
    if labelSearch.Some? && labelSearch.value != "" {
      filters := filters + [("label", Like("%" + labelSearch.value + "%"))];
    }
  }

  /** What the route hands the query builder. */
  datatype DataPlan = DataPlan(filters: seq<(string, Like)>, orderColumn: string, ascending: bool, offset: nat, limit: nat)

  function DataReadPlan(q: DataQuery): (r: Result<DataPlan>)
    ensures r.Ok? <==> ValidDataQuery(q)
    ensures r.Err? ==> r.error.status == 422
    ensures r.Ok? ==> (r.value.orderColumn == ColumnMap[q.sortField]
                       && r.value.offset == q.skip && r.value.limit == q.limit
                       && (r.value.ascending <==> q.sortOrder == "asc")
                       && r.value.filters == FiltersFor(q.typeSearch, q.labelSearch))
  {
    if !ValidDataQuery(q) then Err(HttpError(422, "request validation failed"))
    else Ok(DataPlan(FiltersFor(q.typeSearch, q.labelSearch), ColumnMap[q.sortField], q.sortOrder == "asc", q.skip, q.limit))
  }

  datatype DataRecord = DataRecord(pk: int, uuid: string, ctime: Json, nodeType: string, nodeLabel: string)

  const DataRowKeys: seq<string> := ["pk", "uuid", "ctime", "node_type", "label"]

  function DataRowOf(rec: DataRecord, timeAgo: Json -> Json): (row: Json)
    ensures row.Obj? && Keys(row.entries) == DataRowKeys && UniqueKeys(row.entries)
    ensures row.entries[0].1 == Num(rec.pk) && row.entries[3].1 == Str(rec.nodeType)
  {
    Obj([("pk", Num(rec.pk)), ("uuid", Str(rec.uuid)), ("ctime", timeAgo(rec.ctime)),
         ("node_type", Str(rec.nodeType)), ("label", Str(rec.nodeLabel))])
  }

  /** The read: `ordered` is every Data node matching the filters, in ORDER BY
      order; total_rows is counted before offset and limit. */
  function ReadDatanodeData(q: DataQuery, ordered: seq<DataRecord>, timeAgo: Json -> Json): (r: Result<PageBody>)
    ensures r.Ok? <==> ValidDataQuery(q)
    ensures r.Ok? ==> r.value.total == |ordered| && |r.value.data| <= q.limit
    ensures r.Ok? ==> (|r.value.data| == |PageOf(ordered, q.skip, q.limit)|
                       && forall i :: 0 <= i < |r.value.data| ==> r.value.data[i] == DataRowOf(ordered[q.skip + i], timeAgo))
  {
    match DataReadPlan(q)
    case Err(e) => Err(e)
    case Ok(plan) =>
      var page := PageOf(ordered, plan.offset, plan.limit);
      Ok(PageBody(|ordered|, seq(|page|, i requires 0 <= i < |page| => DataRowOf(page[i], timeAgo))))
  }

  /** delete_data_node: a completed deletion says so without any dry-run mark;
      otherwise the message says it did not delete, marked when it was a dry run. */
  function DeleteDataNode(id: int, dryRun: bool, outcome: DeleteOutcome): (r: Result<DeleteBody>)
    ensures r.Err? <==> outcome.Raised?
    ensures r.Err? ==> r.error == HttpError(500, outcome.message)
    ensures r.Ok? ==> r.value.deleted == outcome.ok && r.value.deletedNodes == outcome.nodes
    ensures r.Ok? && outcome.ok ==> r.value.message == "Deleted data node " + IntToString(id)
    ensures r.Ok? && !outcome.ok ==> (StartsWith(r.value.message, "Did not delete data node " + IntToString(id))
                                     && (EndsWith(r.value.message, " [dry-run]") <==> dryRun))
  {
    match outcome
    case Raised(e) => Err(HttpError(500, e))
    case Completed(nodes, ok) =>
      if ok then Ok(DeleteBody(true, "Deleted data node " + IntToString(id), nodes))
      else
        var head := "Did not delete data node " + IntToString(id);
        var msg := if dryRun then head + " [dry-run]" else head;
        assert msg[..|head|] == head;
        assert !dryRun ==> msg[|msg| - 1] != ']';
        assert dryRun ==> msg[|msg| - |" [dry-run]"|..] == " [dry-run]";
        Ok(DeleteBody(false, msg, nodes))
  }
}
