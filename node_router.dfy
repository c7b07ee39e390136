/** The router `make_node_router(node_cls=…, prefix=…)` builds for one node
    class (backend/app/node_table.py): the paginated read, the label/description
    update, pause and play, and the (dry-run) delete. The database query is
    abstracted as the sequence of matches in ORDER BY order; AiiDA's
    load_node, pause_processes, play_processes and delete_nodes are given as
    their outcomes. */
module NodeRouter {
  import opened Text
  import opened Values
  import opened Paging
  import opened Api

  // ---------------------------------------------------------------- routes

  datatype Endpoint = ReadData | UpdateData | PauseNode | PlayNode | DeleteNode

  /** A route of the router: a fixed path, or a path prefix followed by an `{id}` segment. */
  datatype Route = Route(verb: Method, path: string, takesId: bool, endpoint: Endpoint)

  function Routes(prefix: string): seq<Route>
  {
    [ Route(GET, "/api/" + prefix + "-data", false, ReadData),
      Route(PUT, "/api/" + prefix + "-data/", true, UpdateData),
      Route(POST, "/api/" + prefix + "/pause/", true, PauseNode),
      Route(POST, "/api/" + prefix + "/play/", true, PlayNode),
      Route(DELETE, "/api/" + prefix + "/delete/", true, DeleteNode) ]
  }

  predicate NoSlash(s: string) { forall i :: 0 <= i < |s| ==> s[i] != '/' }

  predicate PathMatches(r: Route, path: string)
  {
    if r.takesId then StartsWith(path, r.path) && |path| > |r.path| && NoSlash(path[|r.path|..])
    else path == r.path
  }

  datatype Routing = Matched(endpoint: Endpoint, id: string) | MethodNotAllowed | NotFound

  /** The first route whose path and verb both match handles the request; a path
      that only matches routes of other verbs is answered 405, any other 404. */
  function Dispatch(routes: seq<Route>, verb: Method, path: string): (r: Routing)
    ensures r.Matched? ==> exists i :: 0 <= i < |routes| && routes[i].verb == verb && PathMatches(routes[i], path)
                                       && routes[i].endpoint == r.endpoint
    ensures r.Matched? || r.MethodNotAllowed? <==> exists i :: 0 <= i < |routes| && PathMatches(routes[i], path)
    ensures r.MethodNotAllowed? ==> forall i :: 0 <= i < |routes| && PathMatches(routes[i], path) ==> routes[i].verb != verb
  {
    if routes == [] then NotFound
    else
      var head := routes[0];
      var rest := Dispatch(routes[1..], verb, path);
      assert forall i :: 0 < i < |routes| ==> routes[i] == routes[1..][i - 1];
      if PathMatches(head, path) && head.verb == verb then
        Matched(head.endpoint, if head.takesId then path[|head.path|..] else "")
      else if PathMatches(head, path) && !rest.Matched? then MethodNotAllowed
      else rest
  }

  /** The path of the delete route for a given pk. */
  function DeletePath(prefix: string, pk: nat): string
  {
    "/api/" + prefix + "/delete/" + NatToString(pk)
  }

  lemma DeletePathShape(prefix: string, pk: nat)
    ensures var path := DeletePath(prefix, pk); var n := |"/api/" + prefix|;
            StartsWith(path, "/api/" + prefix + "/delete/") && path[n] == '/' && path[n + 1] == 'd'
            && NoSlash(path[|"/api/" + prefix + "/delete/"|..])
  {
    var path := DeletePath(prefix, pk);
    var base := "/api/" + prefix + "/delete/";
    assert path[|base|..] == NatToString(pk);
  }

  /** A DELETE to the delete path reaches the delete endpoint, with the pk as its id. */
  lemma DeleteRouteAccepts(prefix: string, pk: nat)
    ensures Dispatch(Routes(prefix), DELETE, DeletePath(prefix, pk)) == Matched(DeleteNode, NatToString(pk))
  {
    DeletePathShape(prefix, pk);
    var path := DeletePath(prefix, pk);
    var rs := Routes(prefix);
    var n := |"/api/" + prefix|;
    assert !PathMatches(rs[0], path) by { assert rs[0].path[n] == '-'; }
    assert !PathMatches(rs[1], path) by { assert rs[1].path[n] == '-'; }
    assert !PathMatches(rs[2], path) by { assert rs[2].path[n + 1] == 'p'; }
    assert !PathMatches(rs[3], path) by { assert rs[3].path[n + 1] == 'p'; }
    assert PathMatches(rs[4], path);
    assert path[|rs[4].path|..] == NatToString(pk);
    assert Dispatch(rs[4..], DELETE, path) == Matched(DeleteNode, NatToString(pk));
    assert rs[3..][1..] == rs[4..] && rs[2..][1..] == rs[3..] && rs[1..][1..] == rs[2..];
    assert Dispatch(rs[3..], DELETE, path) == Dispatch(rs[4..], DELETE, path);
    assert Dispatch(rs[2..], DELETE, path) == Dispatch(rs[3..], DELETE, path);
    assert Dispatch(rs[1..], DELETE, path) == Dispatch(rs[2..], DELETE, path);
  }

  /** The same path with POST, the verb the process table's delete button uses,
      finds no route for that verb: FastAPI answers 405 Method Not Allowed. */
  lemma PostToDeletePathNotAllowed(prefix: string, pk: nat)
    ensures Dispatch(Routes(prefix), POST, DeletePath(prefix, pk)) == MethodNotAllowed
  {
    DeletePathShape(prefix, pk);
    var path := DeletePath(prefix, pk);
    var rs := Routes(prefix);
    var n := |"/api/" + prefix|;
    assert !PathMatches(rs[0], path) by { assert rs[0].path[n] == '-'; }
    assert !PathMatches(rs[1], path) by { assert rs[1].path[n] == '-'; }
    assert !PathMatches(rs[2], path) by { assert rs[2].path[n + 1] == 'p'; }
    assert !PathMatches(rs[3], path) by { assert rs[3].path[n + 1] == 'p'; }
    assert PathMatches(rs[4], path);
  }

  // ------------------------------------------------- GET /api/{prefix}-data

  /** The query parameters of the read; filterModel None is an absent parameter. */
  datatype ReadQuery = ReadQuery(skip: int, limit: int, sortField: string, sortOrder: string, filterModel: Option<string>)

  /** The values FastAPI fills in for parameters the request leaves out. */
  const DefaultReadQuery := ReadQuery(0, 15, "pk", "desc", None)

  /** The alternatives of the sortField pattern. */
  const SortFields: seq<string> := ["pk", "ctime", "process_label", "state", "label", "description"]

  const SortOrders: seq<string> := ["asc", "desc"]

  /** API column name to query-builder projection. */
  const ColMap: map<string, string> := map[
    "pk" := "id",
    "ctime" := "ctime",
    "process_label" := "attributes.process_label",
    "state" := "attributes.process_state",
    "status" := "attributes.process_status",
    "exit_status" := "attributes.exit_status",
    "exit_message" := "attributes.exit_message",
    "label" := "label",
    "description" := "description"]

  /** The declared bounds and patterns: skip >= 0, 0 < limit <= 500. */
  predicate ValidReadQuery(q: ReadQuery)
  {
    q.skip >= 0 && 0 < q.limit <= 500 && q.sortField in SortFields && q.sortOrder in SortOrders
  }

  /** The defaults pass the declared bounds. */
  lemma DefaultReadQueryValid()
    ensures ValidReadQuery(DefaultReadQuery)
  {
  }

  /** Every sort field the pattern admits has a column, so `col_map[sortField]`
      never raises; the map also names three columns the pattern refuses. */
  lemma SortFieldsHaveColumns()
    ensures forall f :: f in SortFields ==> f in ColMap
    ensures ColMap.Keys - (set f | f in SortFields) == {"status", "exit_status", "exit_message"}
  {
  }

  /** What the route hands the query builder: the filter to translate (only a
      non-empty filterModel is translated), the ORDER BY column and direction,
      and the offset and limit. */
  datatype QueryPlan = QueryPlan(filter: Option<string>, orderColumn: string, ascending: bool, offset: nat, limit: nat)

  function ReadPlan(q: ReadQuery): (r: Result<QueryPlan>)
    ensures r.Ok? <==> ValidReadQuery(q)
    ensures r.Err? ==> r.error.status == 422
    ensures r.Ok? ==> (r.value.orderColumn == ColMap[q.sortField]
                       && r.value.offset == q.skip && r.value.limit == q.limit
                       && (r.value.ascending <==> q.sortOrder == "asc")
                       && (r.value.filter.Some? <==> q.filterModel.Some? && q.filterModel.value != ""))
  {
    if !ValidReadQuery(q) then Err(HttpError(422, "request validation failed"))
    else
      var filter := if q.filterModel.Some? && q.filterModel.value != "" then q.filterModel else None;
      Ok(QueryPlan(filter, ColMap[q.sortField], q.sortOrder == "asc", q.skip, q.limit))
  }

  /** The projected columns of one matching node. */
  datatype NodeRecord = NodeRecord(
    pk: int, uuid: string, ctime: Json, processLabel: Json, processState: Option<string>,
    processStatus: Json, exitStatus: Json, exitMessage: Json, nodeLabel: string, description: string)

  /** `state.title() if state else None`. */
  function StateField(state: Option<string>): (j: Json)
    ensures j == Null <==> state.None? || state.value == ""
    ensures j != Null ==> j == Str(Title(state.value)) && |j.s| == |state.value|
  {
    if state.Some? && state.value != "" then Str(Title(state.value)) else Null
  }

  /** Reporting the state is stable: a title-cased state reports as itself. */
  lemma StateFieldStable(state: string)
    requires state != ""
    ensures StateField(Some(Title(state))) == StateField(Some(state))
  {
    TitleIdempotent(state);
  }

  const RowKeys: seq<string> := ["pk", "uuid", "ctime", "process_label", "state", "status",
                                 "exit_status", "exit_message", "label", "description"]

  /** One row of `data`; timeAgo is the helper that renders the creation time. */
  function RowOf(rec: NodeRecord, timeAgo: Json -> Json): (row: Json)
    ensures row.Obj? && Keys(row.entries) == RowKeys && UniqueKeys(row.entries)
    ensures row.entries[0].1 == Num(rec.pk) && row.entries[4].1 == StateField(rec.processState)
    ensures row.entries[8].1 == Str(rec.nodeLabel) && row.entries[9].1 == Str(rec.description)
  {
    var entries := [("pk", Num(rec.pk)), ("uuid", Str(rec.uuid)), ("ctime", timeAgo(rec.ctime)),
                    ("process_label", rec.processLabel), ("state", StateField(rec.processState)),
                    ("status", rec.processStatus), ("exit_status", rec.exitStatus),
                    ("exit_message", rec.exitMessage), ("label", Str(rec.nodeLabel)),
                    ("description", Str(rec.description))];
    assert Keys(entries) == RowKeys;
    Obj(entries)
  }

  /** The read: `ordered` is every node of the class matching the translated
      filter, in ORDER BY order. The total is counted before offset and limit. */
  function ReadNodeData(q: ReadQuery, ordered: seq<NodeRecord>, timeAgo: Json -> Json): (r: Result<PageBody>)
    ensures r.Ok? <==> ValidReadQuery(q)
    ensures r.Ok? ==> r.value.total == |ordered| && |r.value.data| <= q.limit
    ensures r.Ok? ==> (|r.value.data| == |PageOf(ordered, q.skip, q.limit)|
                       && forall i :: 0 <= i < |r.value.data| ==> r.value.data[i] == RowOf(ordered[q.skip + i], timeAgo))
  {
    match ReadPlan(q)
    case Err(e) => Err(e)
    case Ok(plan) =>
      var page := PageOf(ordered, plan.offset, plan.limit);
      var data := seq(|page|, i requires 0 <= i < |page| => RowOf(page[i], timeAgo));
      assert forall i :: 0 <= i < |data| ==> data[i] == RowOf(ordered[q.skip + i], timeAgo);
      Ok(PageBody(|ordered|, data))
  }

  /** The total does not depend on which page is asked for. */
  lemma TotalIndependentOfPage(q1: ReadQuery, q2: ReadQuery, ordered: seq<NodeRecord>, timeAgo: Json -> Json)
    requires ValidReadQuery(q1) && ValidReadQuery(q2)
    ensures ReadNodeData(q1, ordered, timeAgo).value.total == ReadNodeData(q2, ordered, timeAgo).value.total
  {
  }

  // --------------------------------------------- PUT /api/{prefix}-data/{id}

  /** The editable attributes of a stored node. */
  datatype NodeAttrs = NodeAttrs(nodeLabel: string, description: string)

  const Allowed: set<string> := {"label", "description"}

  /** `setattr(node, k, v)` for one whitelisted payload entry; others are skipped. */
  function SetAttr(a: NodeAttrs, kv: (string, string)): NodeAttrs
  {
    if kv.0 == "label" then a.(nodeLabel := kv.1)
    else if kv.0 == "description" then a.(description := kv.1)
    else a
  }

  /** The payload entries applied in order. */
  function ApplyPayload(a: NodeAttrs, payload: seq<(string, string)>): NodeAttrs
  {
    if payload == [] then a else SetAttr(ApplyPayload(a, payload[..|payload| - 1]), payload[|payload| - 1])
  }

  predicate Touches(payload: seq<(string, string)>)
  {
    exists i :: 0 <= i < |payload| && payload[i].0 in Allowed
  }

  /** The whitelisted part of a payload. */
  function Whitelisted(payload: seq<(string, string)>): (w: seq<(string, string)>)
    ensures forall kv :: kv in w ==> kv.0 in Allowed && kv in payload
    ensures forall kv :: kv in payload && kv.0 in Allowed ==> kv in w
  {
    if payload == [] then []
    else
      var init := Whitelisted(payload[..|payload| - 1]);
      var last := payload[|payload| - 1];
      assert forall kv :: kv in payload ==> kv in payload[..|payload| - 1] || kv == last;
      if last.0 in Allowed then init + [last] else init
  }

  /** The filter keeps the payload's order: filtering two halves and joining
      them is filtering the whole. */
  lemma {:induction false} WhitelistedConcat(p: seq<(string, string)>, q: seq<(string, string)>)
    ensures Whitelisted(p + q) == Whitelisted(p) + Whitelisted(q)
    decreases |q|
  {
    if q != [] {
      var qi := q[..|q| - 1];
      assert (p + q)[..|p + q| - 1] == p + qi;
      assert (p + q)[|p + q| - 1] == q[|q| - 1];
      WhitelistedConcat(p, qi);
    } else {
      assert p + q == p;
    }
  }

  /** Keys outside the whitelist have no effect on the node. */
  lemma {:induction false} ApplyIgnoresOtherKeys(a: NodeAttrs, payload: seq<(string, string)>)
    ensures ApplyPayload(a, payload) == ApplyPayload(a, Whitelisted(payload))
  {
    if payload != [] {
      var init := payload[..|payload| - 1];
      var last := payload[|payload| - 1];
      ApplyIgnoresOtherKeys(a, init);
      if last.0 in Allowed {
        var w := Whitelisted(init) + [last];
        assert w[..|w| - 1] == Whitelisted(init);
      }
    }
  }

  /** A payload without whitelisted keys leaves the node as it was. */
  lemma {:induction false} UntouchedUnchanged(a: NodeAttrs, payload: seq<(string, string)>)
    requires !Touches(payload)
    ensures ApplyPayload(a, payload) == a
  {
    if payload != [] {
      var init := payload[..|payload| - 1];
      assert !Touches(init) by {
        forall i | 0 <= i < |init| ensures init[i].0 !in Allowed { assert init[i] == payload[i]; }
      }
      UntouchedUnchanged(a, init);
    }
  }

  /** For a payload that is a dict, each attribute ends as the payload says,
      or as it was when the payload does not name it. */
  lemma {:induction false} ApplyPayloadResult(a: NodeAttrs, payload: seq<(string, string)>)
    requires UniqueKeys(payload)
    ensures ApplyPayload(a, payload).nodeLabel == (match Lookup(payload, "label") case Some(v) => v case None => a.nodeLabel)
    ensures ApplyPayload(a, payload).description == (match Lookup(payload, "description") case Some(v) => v case None => a.description)
  {
    if payload != [] {
      var init := payload[..|payload| - 1];
      var last := payload[|payload| - 1];
      assert UniqueKeys(init);
      ApplyPayloadResult(a, init);
      LookupSplit(payload, "label");
      LookupSplit(payload, "description");
    }
  }

  /** In a dict, a key is found in the entries before the last one exactly when
      it is not the last one's key. */
  lemma LookupSplit(payload: seq<(string, string)>, k: string)
    requires UniqueKeys(payload) && payload != []
    ensures var init := payload[..|payload| - 1]; var last := payload[|payload| - 1];
            Lookup(payload, k) == if last.0 == k then Some(last.1) else Lookup(init, k)
  {
    var init := payload[..|payload| - 1];
    var last := payload[|payload| - 1];
    if last.0 == k {
      LookupAt(payload, |payload| - 1);
    } else {
      match Lookup(payload, k)
      case None =>
        assert !HasKey(init, k) by {
          forall i | 0 <= i < |init| ensures init[i].0 != k { assert init[i] == payload[i]; }
        }
      case Some(v) =>
        LookupFound(payload, k);
        var i :| 0 <= i < |payload| && payload[i] == (k, v);
        assert i < |init| && init[i] == payload[i];
        assert UniqueKeys(init);
        LookupAt(init, i);
        LookupAt(payload, i);
    }
  }

  /** `{"updated": True, "pk": id, "label": …, "description": …}`. */
  datatype UpdateBody = UpdateBody(updated: bool, pk: int, nodeLabel: string, description: string)

  /** The nodes load_node can find, by pk, with their editable attributes.
      load_node finds a node of any class, not only of node_cls. */
  class NodeStore {
    var nodes: map<int, NodeAttrs>

    constructor (nodes: map<int, NodeAttrs>)
      ensures this.nodes == nodes
    {
      this.nodes := nodes;
    }

    /** update_node: sets each whitelisted payload entry on the node, in payload
        order, and answers 404 for an unknown id, 400 when nothing was set. */
    method UpdateNode(className: string, id: int, payload: seq<(string, string)>) returns (r: Result<UpdateBody>)
      modifies this
      ensures id !in old(nodes) ==>
                r == Err(HttpError(404, className + " " + IntToString(id) + " not found")) && nodes == old(nodes)
      ensures id in old(nodes) && !Touches(payload) ==>
                r == Err(HttpError(400, "No updatable fields provided")) && nodes == old(nodes)
      ensures id in old(nodes) && Touches(payload) ==>
                nodes == old(nodes)[id := ApplyPayload(old(nodes)[id], payload)]
                && r == Ok(UpdateBody(true, id, nodes[id].nodeLabel, nodes[id].description))
    {
      if id !in nodes {
        return Err(HttpError(404, className + " " + IntToString(id) + " not found"));
      }
      var touched := false;
      var i := 0;
      while i < |payload|
        invariant 0 <= i <= |payload|
        invariant nodes == old(nodes)[id := ApplyPayload(old(nodes)[id], payload[..i])]
        invariant touched <==> Touches(payload[..i])
      {
        var (k, v) := payload[i];
        assert payload[..i + 1][..i] == payload[..i];
        if k in Allowed {
          nodes := nodes[id := SetAttr(nodes[id], (k, v))];
          touched := true;
        }
        assert Touches(payload[..i + 1]) <==> Touches(payload[..i]) || k in Allowed by {
          assert forall j :: 0 <= j < i ==> payload[..i + 1][j] == payload[..i][j];
        }
        i := i + 1;
      }
      assert payload[..i] == payload;
      if !touched {
        UntouchedUnchanged(old(nodes)[id], payload);
        assert nodes == old(nodes);
        return Err(HttpError(400, "No updatable fields provided"));
      }
      return Ok(UpdateBody(true, id, nodes[id].nodeLabel, nodes[id].description));
    }
  }

  // ------------------------------------------ POST pause / play, DELETE

  datatype Lifecycle = Pause | Play

  /** head, middle and tail written one after another. */
  function Joined(head: string, middle: string, tail: string): (s: string)
    ensures StartsWith(s, head) && EndsWith(s, tail)
  {
    PrefixStarts(head, middle + tail);
    SuffixEnds(head + middle, tail);
    assert head + (middle + tail) == head + middle + tail;
    head + middle + tail
  }

  /** pause / play: `failure` is what pause_processes or play_processes (or
      load_node) raised, if anything. */
  function LifecycleResponse(action: Lifecycle, className: string, id: int, failure: Option<string>): (r: Result<string>)
    ensures r.Err? <==> failure.Some?
    ensures r.Err? ==> r.error == HttpError(500, failure.value)
    ensures r.Ok? ==> (StartsWith(r.value, if action == Pause then "Paused " else "Resumed ")
                       && EndsWith(r.value, " " + IntToString(id)))
  {
    if failure.Some? then Err(HttpError(500, failure.value))
    else
      Ok(Joined(if action == Pause then "Paused " else "Resumed ", className, " " + IntToString(id)))
  }

  /** The suffix node_table.py writes, with U+2011 NON-BREAKING HYPHEN. */
  const DryRunSuffix: string := " [dry\U{2011}run]"

  /** The first word tells a deletion from a refusal. */
  lemma VerbMarks(ok: bool, rest: string)
    ensures var m := (if ok then "Deleted " else "Did not delete ") + rest;
            (StartsWith(m, "Deleted ") <==> ok) && (StartsWith(m, "Did not delete ") <==> !ok)
  {
    var verb := if ok then "Deleted " else "Did not delete ";
    var m := verb + rest;
    PrefixStarts(verb, rest);
    assert m[1] == verb[1];
  }

  /** After text ending in a digit, the suffix is there exactly on a dry run. */
  lemma DryRunMarks(verb: string, body: string, dryRun: bool)
    requires body != [] && IsDigit(body[|body| - 1])
    ensures EndsWith(verb + (body + if dryRun then DryRunSuffix else ""), DryRunSuffix) <==> dryRun
  {
    if dryRun {
      assert verb + (body + DryRunSuffix) == (verb + body) + DryRunSuffix;
      SuffixEnds(verb + body, DryRunSuffix);
    } else {
      assert verb + (body + "") == verb + body;
      assert (verb + body)[|verb + body| - 1] == body[|body| - 1];
    }
  }

  /** "Deleted …" or "Did not delete …", the class and the pk, then the
      dry-run mark. */
  function DeleteMessage(ok: bool, className: string, id: int, dryRun: bool): (m: string)
    ensures (StartsWith(m, "Deleted ") <==> ok) && (StartsWith(m, "Did not delete ") <==> !ok)
    ensures EndsWith(m, DryRunSuffix) <==> dryRun
  {
    var verb := if ok then "Deleted " else "Did not delete ";
    var body := className + " " + IntToString(id);
    var mark := if dryRun then DryRunSuffix else "";
    var m := verb + (body + mark);
    VerbMarks(ok, body + mark);
    DryRunMarks(verb, body, dryRun);
    m
  }

  /** delete: the message says whether delete_nodes deleted, and marks a dry run. */
  function DeleteResponse(className: string, id: int, dryRun: bool, outcome: DeleteOutcome): (r: Result<DeleteBody>)
    ensures r.Err? <==> outcome.Raised?
    ensures r.Err? ==> r.error == HttpError(500, outcome.message)
    ensures r.Ok? ==> r.value.deleted == outcome.ok && r.value.deletedNodes == outcome.nodes
    ensures r.Ok? ==> ((StartsWith(r.value.message, "Deleted ") <==> outcome.ok)
                       && (StartsWith(r.value.message, "Did not delete ") <==> !outcome.ok))
    ensures r.Ok? ==> (EndsWith(r.value.message, DryRunSuffix) <==> dryRun)
  {
    match outcome
    case Raised(e) => Err(HttpError(500, e))
    case Completed(nodes, ok) =>
      Ok(DeleteBody(ok, DeleteMessage(ok, className, id, dryRun), nodes))
  }
}
