/** How the frontend's requests meet the backend's routes: the rows the read
    endpoint returns as the node table sees them, the requests its buttons
    and edits send as the router dispatches them, and the queries the hook
    sends as the read endpoint validates them. The process pages reach the
    backend at `http://localhost:8000/api/{prefix}`; below, a URL is that
    origin followed by the path the router sees. */
module Integration {
  import opened Text
  import opened Values
  import opened Api
  import opened UseNodeTable
  import opened NodeTable
  import opened ProcessTable
  import NodeRouter

  /** The endpoint base the process pages give the table for a router prefix. */
  function Base(prefix: string): string
  {
    Backend + "/api/" + prefix
  }

  // ------------------------------------------------ rows from the backend

  /** The text "undefined" names no terminal state. */
  lemma UndefinedNotTerminal()
    ensures !Terminal(None)
  {
    var s := JsString(None);
    assert forall i :: 0 <= i < |s| ==> s[i] != 'F' && s[i] != 'E';
    forall i: nat | i <= |s|
      ensures !OccursAt(s, "Finished", i) && !OccursAt(s, "Failed", i) && !OccursAt(s, "Excepted", i)
    {
      if i + 6 <= |s| {
        assert s[i..i + 6][0] == s[i];
      }
      if i + 8 <= |s| {
        assert s[i..i + 8][0] == s[i];
      }
    }
  }

  /** A row the read endpoint returns carries no process_state and no paused
      property (the backend sends `state` and nothing about pausing). */
  lemma BackendRowLacksTableFields(rec: NodeRouter.NodeRecord, timeAgo: Json -> Json)
    ensures Get(NodeRouter.RowOf(rec, timeAgo), "process_state") == None
    ensures Get(NodeRouter.RowOf(rec, timeAgo), "paused") == None
  {
    var row := NodeRouter.RowOf(rec, timeAgo);
    assert forall i :: 0 <= i < |row.entries| ==> row.entries[i].0 == NodeRouter.RowKeys[i];
  }

  /** So every backend row, finished or not, is offered pause and delete,
      and never resume. */
  lemma BackendRowActions(rec: NodeRouter.NodeRecord, timeAgo: Json -> Json)
    ensures RenderActions(NodeRouter.RowOf(rec, timeAgo)) == [Pause, Delete]
  {
    BackendRowLacksTableFields(rec, timeAgo);
    UndefinedNotTerminal();
  }

  /** The pk of a backend row, as the table's URLs spell it. */
  lemma BackendRowPk(rec: NodeRouter.NodeRecord, timeAgo: Json -> Json)
    requires rec.pk >= 0
    ensures PkText(NodeRouter.RowOf(rec, timeAgo)) == NatToString(rec.pk)
  {
    LookupAt(NodeRouter.RowOf(rec, timeAgo).entries, 0);
  }

  /** A page the read endpoint answers fills the table with its rows and the
      number of all matches; a rejected query (422) leaves it with neither. */
  lemma PageShownInTable(q: NodeRouter.ReadQuery, ordered: seq<NodeRouter.NodeRecord>, timeAgo: Json -> Json,
                         rows: Option<Json>, rowCount: Option<Json>)
    ensures var r := NodeRouter.ReadNodeData(q, ordered, timeAgo);
            r.Ok? ==> Applied(rows, rowCount, Some(PageJson(r.value))) == (Some(Arr(r.value.data)), Some(Num(|ordered|)))
    ensures var r := NodeRouter.ReadNodeData(q, ordered, timeAgo);
            r.Err? ==> Applied(rows, rowCount, Some(ErrorJson(r.error))) == (None, None)
  {
    var r := NodeRouter.ReadNodeData(q, ordered, timeAgo);
    if r.Ok? {
      PageResponseFillsTable(rows, rowCount, r.value);
    } else {
      ErrorResponseClearsTable(rows, rowCount, r.error);
    }
  }

  // ------------------------------------------------ queries from the hook

  /** Every column the grid lets the user sort by is one the read endpoint
      accepts. */
  lemma SortableColumnsAccepted(i: nat)
    requires i < |Columns| && Columns[i].sortable
    ensures Columns[i].field in NodeRouter.SortFields
  {
  }

  /** The query the hook sends for a page size the grid offers and a sort
      the grid can produce passes the read endpoint's validation. */
  lemma HookQueryValid(page: nat, pageSize: nat, sortModel: seq<SortItem>, filterModel: string, i: nat)
    requires sortModel != [] && pageSize in PageSizeOptions
    requires i < |Columns| && Columns[i].sortable && sortModel[0].field == Columns[i].field
    requires sortModel[0].sort in SortingOrder
    ensures var q := QueryFor(page, pageSize, sortModel, filterModel).value;
            NodeRouter.ValidReadQuery(NodeRouter.ReadQuery(q.skip, q.limit, q.sortField, q.sortOrder, Some(q.filterModel)))
  {
    SortableColumnsAccepted(i);
  }

  // ------------------------------------------------ routing of the requests

  /** The path of a request to a pk under one of the router's segments. */
  function IdPath(prefix: string, segment: string, pk: nat): string
  {
    "/api/" + prefix + segment + NatToString(pk)
  }

  lemma IdPathSuffix(prefix: string, segment: string, pk: nat)
    ensures StartsWith(IdPath(prefix, segment, pk), "/api/" + prefix + segment)
    ensures IdPath(prefix, segment, pk)[|"/api/" + prefix + segment|..] == NatToString(pk)
    ensures NodeRouter.NoSlash(NatToString(pk))
  {
    var p := "/api/" + prefix + segment;
    assert IdPath(prefix, segment, pk) == p + NatToString(pk);
    assert (p + NatToString(pk))[..|p|] == p;
  }

  /** The pause button's POST reaches the pause endpoint with the row's pk. */
  lemma PauseReachesRoute(prefix: string, pk: nat)
    ensures NodeRouter.Dispatch(NodeRouter.Routes(prefix), POST, IdPath(prefix, "/pause/", pk))
            == NodeRouter.Matched(NodeRouter.PauseNode, NatToString(pk))
  {
    IdPathSuffix(prefix, "/pause/", pk);
    var path := IdPath(prefix, "/pause/", pk);
    var rs := NodeRouter.Routes(prefix);
    var n := |"/api/" + prefix|;
    assert path[n] == '/' && path[n + 1] == 'p' && path[n + 2] == 'a';
    assert !NodeRouter.PathMatches(rs[0], path) by { assert rs[0].path[n] == '-'; }
    assert !NodeRouter.PathMatches(rs[1], path) by { assert rs[1].path[n] == '-'; }
    assert NodeRouter.PathMatches(rs[2], path);
    assert rs[1..][1..] == rs[2..];
    assert NodeRouter.Dispatch(rs[1..], POST, path) == NodeRouter.Dispatch(rs[2..], POST, path);
  }

  /** The resume button's POST reaches the play endpoint with the row's pk. */
  lemma PlayReachesRoute(prefix: string, pk: nat)
    ensures NodeRouter.Dispatch(NodeRouter.Routes(prefix), POST, IdPath(prefix, "/play/", pk))
            == NodeRouter.Matched(NodeRouter.PlayNode, NatToString(pk))
  {
    IdPathSuffix(prefix, "/play/", pk);
    var path := IdPath(prefix, "/play/", pk);
    var rs := NodeRouter.Routes(prefix);
    var n := |"/api/" + prefix|;
    assert path[n] == '/' && path[n + 1] == 'p' && path[n + 2] == 'l';
    assert !NodeRouter.PathMatches(rs[0], path) by { assert rs[0].path[n] == '-'; }
    assert !NodeRouter.PathMatches(rs[1], path) by { assert rs[1].path[n] == '-'; }
    assert !NodeRouter.PathMatches(rs[2], path) by { assert rs[2].path[n + 2] == 'a'; }
    assert NodeRouter.PathMatches(rs[3], path);
    assert rs[1..][1..] == rs[2..] && rs[2..][1..] == rs[3..];
    assert NodeRouter.Dispatch(rs[2..], POST, path) == NodeRouter.Dispatch(rs[3..], POST, path);
    assert NodeRouter.Dispatch(rs[1..], POST, path) == NodeRouter.Dispatch(rs[2..], POST, path);
  }

  /** A cell edit's PUT reaches the update endpoint with the row's pk. */
  lemma EditReachesRoute(prefix: string, pk: nat)
    ensures NodeRouter.Dispatch(NodeRouter.Routes(prefix), PUT, IdPath(prefix, "-data/", pk))
            == NodeRouter.Matched(NodeRouter.UpdateData, NatToString(pk))
  {
    IdPathSuffix(prefix, "-data/", pk);
    var path := IdPath(prefix, "-data/", pk);
    var rs := NodeRouter.Routes(prefix);
    assert !NodeRouter.PathMatches(rs[0], path) by { assert |path| > |rs[0].path|; }
    assert NodeRouter.PathMatches(rs[1], path);
  }

  /** The pause request of a row with pk `pk`, as the table sends it,
      reaches the pause endpoint with that pk. */
  lemma RowPauseRouted(prefix: string, row: Json, pk: nat)
    requires PkText(row) == NatToString(pk)
    ensures var pause := ActionRequest(Base(prefix), row, Pause).value;
            pause.verb == POST && pause.url == Backend + IdPath(prefix, "/pause/", pk)
            && NodeRouter.Dispatch(NodeRouter.Routes(prefix), POST, IdPath(prefix, "/pause/", pk))
               == NodeRouter.Matched(NodeRouter.PauseNode, NatToString(pk))
  {
    var pause := ActionRequest(Base(prefix), row, Pause).value;
    assert pause.url == Backend + IdPath(prefix, "/pause/", pk) by {
      assert pause.url == Base(prefix) + "/pause/" + PkText(row);
    }
    PauseReachesRoute(prefix, pk);
  }

  /** The confirmed delete of a row with pk `pk`, as the table sends it,
      reaches the delete endpoint with that pk. */
  lemma RowDeleteRouted(prefix: string, row: Json, pk: nat)
    requires PkText(row) == NatToString(pk)
    ensures var del := DeleteRequest(Base(prefix), row);
            del.verb == DELETE && del.url == Backend + NodeRouter.DeletePath(prefix, pk)
            && NodeRouter.Dispatch(NodeRouter.Routes(prefix), DELETE, NodeRouter.DeletePath(prefix, pk))
               == NodeRouter.Matched(NodeRouter.DeleteNode, NatToString(pk))
  {
    var del := DeleteRequest(Base(prefix), row);
    assert del.url == Backend + NodeRouter.DeletePath(prefix, pk) by {
      assert del.url == Base(prefix) + "/delete/" + PkText(row);
    }
    NodeRouter.DeleteRouteAccepts(prefix, pk);
  }

  /** For a backend row: pause reaches the pause endpoint, and the confirmed
      delete reaches the delete endpoint, each with the row's pk. */
  lemma BackendRowRequestsRouted(prefix: string, rec: NodeRouter.NodeRecord, timeAgo: Json -> Json)
    requires rec.pk >= 0
    ensures var row := NodeRouter.RowOf(rec, timeAgo);
            ActionRequest(Base(prefix), row, Pause).value.url == Backend + IdPath(prefix, "/pause/", rec.pk)
            && DeleteRequest(Base(prefix), row).url == Backend + NodeRouter.DeletePath(prefix, rec.pk)
  {
    BackendRowPk(rec, timeAgo);
    RowPauseRouted(prefix, NodeRouter.RowOf(rec, timeAgo), rec.pk);
    RowDeleteRouted(prefix, NodeRouter.RowOf(rec, timeAgo), rec.pk);
  }

  /** The process page's own action builder deletes with a POST, which the
      router answers 405 Method Not Allowed. */
  lemma ProcessActionsDeleteRejected(prefix: string, rec: NodeRouter.NodeRecord, timeAgo: Json -> Json)
    requires rec.pk >= 0
    ensures var posts := ProcessActions(Base(prefix), NodeRouter.RowOf(rec, timeAgo));
            |posts| == 2 && posts[1].verb == POST
            && posts[1].url == Backend + NodeRouter.DeletePath(prefix, rec.pk)
            && NodeRouter.Dispatch(NodeRouter.Routes(prefix), POST, NodeRouter.DeletePath(prefix, rec.pk))
               == NodeRouter.MethodNotAllowed
  {
    BackendRowActions(rec, timeAgo);
    BackendRowPk(rec, timeAgo);
    RowProcessDeleteRejected(prefix, NodeRouter.RowOf(rec, timeAgo), rec.pk);
  }

  /** The same for any row offered pause and delete, with pk `pk`. */
  lemma RowProcessDeleteRejected(prefix: string, row: Json, pk: nat)
    requires RenderActions(row) == [Pause, Delete] && PkText(row) == NatToString(pk)
    ensures var posts := ProcessActions(Base(prefix), row);
            |posts| == 2 && posts[1].verb == POST
            && posts[1].url == Backend + NodeRouter.DeletePath(prefix, pk)
            && NodeRouter.Dispatch(NodeRouter.Routes(prefix), POST, NodeRouter.DeletePath(prefix, pk))
               == NodeRouter.MethodNotAllowed
  {
    ActionsAgreeWithTable(Base(prefix), row, 1);
    RowDeleteRouted(prefix, row, pk);
    NodeRouter.PostToDeletePathNotAllowed(prefix, pk);
  }

  // ------------------------------------------------ an edit round trip

  /** The PUT body as the update endpoint reads it, for string values. */
  function AsPayload(body: seq<(string, Json)>): (p: seq<(string, string)>)
    requires forall i :: 0 <= i < |body| ==> body[i].1.Str?
    ensures |p| == |body|
    ensures forall i :: 0 <= i < |p| ==> p[i] == (body[i].0, body[i].1.s)
  {
    seq(|body|, i requires 0 <= i < |body| => (body[i].0, body[i].1.s))
  }

  /** The diff for two rows whose label and description are strings. */
  lemma EditDiffOfStrings(newRow: Json, oldRow: Json, newLabel: string, newDescription: string,
                          oldLabel: string, oldDescription: string)
    requires Get(oldRow, "label") == Some(Str(oldLabel)) && Get(oldRow, "description") == Some(Str(oldDescription))
    requires Get(newRow, "label") == Some(Str(newLabel)) && Get(newRow, "description") == Some(Str(newDescription))
    ensures EditDiff(newRow, oldRow)
            == (if newLabel == oldLabel then [] else [("label", Some(Str(newLabel)))])
               + (if newDescription == oldDescription then [] else [("description", Some(Str(newDescription)))])
  {
  }

  /** The update endpoint applies a payload that sets the given keys. */
  lemma ApplyLabelDescription(attrs: NodeRouter.NodeAttrs, newLabel: string, newDescription: string)
    ensures NodeRouter.ApplyPayload(attrs, [("label", newLabel)]) == attrs.(nodeLabel := newLabel)
    ensures NodeRouter.ApplyPayload(attrs, [("description", newDescription)]) == attrs.(description := newDescription)
    ensures NodeRouter.ApplyPayload(attrs, [("label", newLabel), ("description", newDescription)])
            == NodeRouter.NodeAttrs(newLabel, newDescription)
  {
    var both := [("label", newLabel), ("description", newDescription)];
    assert both[..1] == [("label", newLabel)];
    assert [("label", newLabel)][..0] == [];
    assert [("description", newDescription)][..0] == [];
  }

  /** The payload the update endpoint receives for an edit of string cells. */
  function ExpectedPayload(newLabel: string, newDescription: string, oldLabel: string, oldDescription: string)
    : seq<(string, string)>
  {
    (if newLabel == oldLabel then [] else [("label", newLabel)])
    + (if newDescription == oldDescription then [] else [("description", newDescription)])
  }

  lemma EditPayload(newRow: Json, oldRow: Json, newLabel: string, newDescription: string,
                    oldLabel: string, oldDescription: string)
    requires Get(oldRow, "label") == Some(Str(oldLabel)) && Get(oldRow, "description") == Some(Str(oldDescription))
    requires Get(newRow, "label") == Some(Str(newLabel)) && Get(newRow, "description") == Some(Str(newDescription))
    ensures var body := Stringify(EditDiff(newRow, oldRow));
            (forall i :: 0 <= i < |body| ==> body[i].1.Str?)
            && AsPayload(body) == ExpectedPayload(newLabel, newDescription, oldLabel, oldDescription)
  {
    EditDiffOfStrings(newRow, oldRow, newLabel, newDescription, oldLabel, oldDescription);
    BodyOfDiff(EditDiff(newRow, oldRow), newLabel, newDescription, oldLabel, oldDescription);
  }

  /** The stringified diff of two string cells, as the endpoint reads it. */
  lemma BodyOfDiff(diff: seq<(string, Option<Json>)>, newLabel: string, newDescription: string,
                   oldLabel: string, oldDescription: string)
    requires diff == (if newLabel == oldLabel then [] else [("label", Some(Str(newLabel)))])
                     + (if newDescription == oldDescription then [] else [("description", Some(Str(newDescription)))])
    ensures var body := Stringify(diff);
            (forall i :: 0 <= i < |body| ==> body[i].1.Str?)
            && AsPayload(body) == ExpectedPayload(newLabel, newDescription, oldLabel, oldDescription)
  {
    var l := ("label", Some(Str(newLabel)));
    var d := ("description", Some(Str(newDescription)));
    if newLabel != oldLabel && newDescription != oldDescription {
      assert diff == [l, d] && diff[1..] == [d];
      assert Stringify(diff) == [("label", Str(newLabel)), ("description", Str(newDescription))];
    } else if newLabel != oldLabel {
      assert diff == [l];
      assert Stringify(diff) == [("label", Str(newLabel))];
    } else if newDescription != oldDescription {
      assert diff == [d];
      assert Stringify(diff) == [("description", Str(newDescription))];
    } else {
      assert diff == [];
    }
  }

  lemma ApplyExpected(attrs: NodeRouter.NodeAttrs, newLabel: string, newDescription: string)
    ensures var p := ExpectedPayload(newLabel, newDescription, attrs.nodeLabel, attrs.description);
            NodeRouter.ApplyPayload(attrs, p) == NodeRouter.NodeAttrs(newLabel, newDescription)
            && (NodeRouter.Touches(p) <==> p != [])
  {
    ApplyLabelDescription(attrs, newLabel, newDescription);
    var p := ExpectedPayload(newLabel, newDescription, attrs.nodeLabel, attrs.description);
    if p != [] {
      assert p[0].0 in NodeRouter.Allowed;
    }
  }

  /** A label or description edited in the grid, sent as the table sends it
      and applied as the update endpoint applies it, leaves the stored node
      with exactly the values the grid shows. */
  lemma EditRoundTrip(attrs: NodeRouter.NodeAttrs, newRow: Json, oldRow: Json, newLabel: string, newDescription: string)
    requires Get(oldRow, "label") == Some(Str(attrs.nodeLabel))
    requires Get(oldRow, "description") == Some(Str(attrs.description))
    requires Get(newRow, "label") == Some(Str(newLabel))
    requires Get(newRow, "description") == Some(Str(newDescription))
    ensures var body := Stringify(EditDiff(newRow, oldRow));
            (forall i :: 0 <= i < |body| ==> body[i].1.Str?)
            && NodeRouter.ApplyPayload(attrs, AsPayload(body)) == NodeRouter.NodeAttrs(newLabel, newDescription)
            && (NodeRouter.Touches(AsPayload(body)) <==> EditDiff(newRow, oldRow) != [])
  {
    EditPayload(newRow, oldRow, newLabel, newDescription, attrs.nodeLabel, attrs.description);
    ApplyExpected(attrs, newLabel, newDescription);
    EditDiffOfStrings(newRow, oldRow, newLabel, newDescription, attrs.nodeLabel, attrs.description);
  }
}
