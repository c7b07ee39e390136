/** frontend/src/components/NodeTable.jsx: the generic server-paginated node
    table. Beyond the hook's state it renders, per row, the pause / resume /
    delete buttons, saves edited label and description cells with a PUT, and
    runs the two-step delete: a dry-run DELETE whose answer fills the
    confirmation dialog, then the real DELETE followed by a refetch. */
module NodeTable {
  import opened Text
  import opened Values
  import opened UseNodeTable

  // ------------------------------------------------------ grid settings

  /** A DataGrid column as far as the server and the edits see it; DataGrid
      columns are sortable unless they say otherwise and not editable unless
      they say so. */
  datatype Column = Column(field: string, sortable: bool, editable: bool)

  const Columns: seq<Column> := [
    Column("pk", true, false),
    Column("ctime", true, false),
    Column("process_label", false, false),
    Column("process_state", false, false),
    Column("process_status", false, false),
    Column("label", true, true),
    Column("description", true, true),
    Column("exit_status", false, false),
    Column("exit_message", false, false),
    Column("paused", false, false),
    Column("actions", false, false)]

  /** The sort orders a header click cycles through; there is no unsorted step. */
  const SortingOrder: seq<string> := ["desc", "asc"]

  const PageSizeOptions: seq<nat> := [15, 30, 50]

  /** The fields the user may edit in the grid. */
  predicate EditableField(field: string)
  {
    exists i :: 0 <= i < |Columns| && Columns[i].field == field && Columns[i].editable
  }

  /** The grid lets exactly label and description be edited. */
  lemma EditableFields(field: string)
    ensures EditableField(field) <==> field == "label" || field == "description"
  {
    if field == "label" {
      assert Columns[5].field == field && Columns[5].editable;
    } else if field == "description" {
      assert Columns[6].field == field && Columns[6].editable;
    }
  }

  // ------------------------------------------------------ row actions

  datatype Action = Pause | Resume | Delete

  /** `/(Finished|Failed|Excepted)/.test(state)`: the regular expression is
      tested against String(state), so undefined is the text "undefined". */
  predicate Terminal(state: Option<Json>)
  {
    var s := JsString(state);
    Contains(s, "Finished") || Contains(s, "Failed") || Contains(s, "Excepted")
  }

  /** The test is unanchored: any state text holding one of the three words
      anywhere is terminal. */
  lemma TerminalUnanchored(before: string, word: string, after: string)
    requires word == "Finished" || word == "Failed" || word == "Excepted"
    ensures Terminal(Some(Str(before + word + after)))
  {
    var s := before + word + after;
    assert JsString(Some(Str(s))) == s;
    assert s[|before|..|before| + |word|] == word;
    assert OccursAt(s, word, |before|);
  }

  /** The buttons of a row, left to right: delete only for a terminal process,
      resume and delete for a paused one, pause and delete otherwise. */
  function RenderActions(row: Json): (acts: seq<Action>)
    ensures |acts| >= 1 && acts[|acts| - 1] == Delete
    ensures acts == [Delete] <==> Terminal(Get(row, "process_state"))
    ensures Resume in acts <==> !Terminal(Get(row, "process_state")) && Truthy(Get(row, "paused"))
    ensures Pause in acts <==> !Terminal(Get(row, "process_state")) && !Truthy(Get(row, "paused"))
    ensures forall i, j :: 0 <= i < j < |acts| ==> acts[i] != acts[j]
  {
    if Terminal(Get(row, "process_state")) then [Delete]
    else if Truthy(Get(row, "paused")) then [Resume, Delete]
    else [Pause, Delete]
  }

  /** The pk as a template literal spells it. */
  function PkText(row: Json): string
  {
    JsString(Get(row, "pk"))
  }

  /** The POST a pause or resume button sends; the delete button sends nothing
      itself (it selects the row for the dry run). */
  function ActionRequest(endpointBase: string, row: Json, a: Action): (r: Option<Request>)
    ensures r.None? <==> a == Delete
    ensures r.Some? ==> r.value.verb == POST && r.value.body == [] && StartsWith(r.value.url, endpointBase + "/")
    ensures a == Pause ==> r.value.url == endpointBase + "/pause/" + PkText(row)
    ensures a == Resume ==> r.value.url == endpointBase + "/play/" + PkText(row)
  {
    match a
    case Pause => Some(Request(POST, endpointBase + "/pause/" + PkText(row), []))
    case Resume => Some(Request(POST, endpointBase + "/play/" + PkText(row), []))
    case Delete => None
  }

  /** A button whose request reaches the server never targets another row:
      different pks give different URLs. */
  lemma ActionUrlNamesRow(endpointBase: string, row1: Json, row2: Json, a: Action)
    requires a != Delete && PkText(row1) != PkText(row2)
    ensures ActionRequest(endpointBase, row1, a).value.url != ActionRequest(endpointBase, row2, a).value.url
  {
    var p := endpointBase + (if a == Pause then "/pause/" else "/play/");
    assert ActionRequest(endpointBase, row1, a).value.url == p + PkText(row1);
    assert ActionRequest(endpointBase, row2, a).value.url == p + PkText(row2);
    assert (p + PkText(row1))[|p|..] == PkText(row1);
    assert (p + PkText(row2))[|p|..] == PkText(row2);
  }

  /** The dry-run request of the delete flow and the real one. */
  function DryRunRequest(endpointBase: string, row: Json): (r: Request)
    ensures r.verb == DELETE && r.body == []
    ensures var path := endpointBase + "/delete/";
            StartsWith(r.url, path) && r.url[|path|..] == PkText(row) + "?dry_run=True"
  {
    var path := endpointBase + "/delete/";
    assert path + PkText(row) + "?dry_run=True" == path + (PkText(row) + "?dry_run=True");
    PrefixStarts(path, PkText(row) + "?dry_run=True");
    Request(DELETE, path + PkText(row) + "?dry_run=True", [])
  }

  function DeleteRequest(endpointBase: string, row: Json): (r: Request)
    ensures r.verb == DELETE && r.body == []
    ensures var path := endpointBase + "/delete/";
            StartsWith(r.url, path) && r.url[|path|..] == PkText(row)
  {
    PrefixStarts(endpointBase + "/delete/", PkText(row));
    Request(DELETE, endpointBase + "/delete/" + PkText(row), [])
  }

  /** The dry run and the real delete address the same path; only the query
      string tells them apart. */
  lemma DryRunExtendsDelete(endpointBase: string, row: Json)
    ensures StartsWith(DryRunRequest(endpointBase, row).url, DeleteRequest(endpointBase, row).url)
    ensures DryRunRequest(endpointBase, row).url != DeleteRequest(endpointBase, row).url
    ensures DryRunRequest(endpointBase, row).verb == DeleteRequest(endpointBase, row).verb == DELETE
  {
    var d := DeleteRequest(endpointBase, row).url;
    assert DryRunRequest(endpointBase, row).url == d + "?dry_run=True";
    assert (d + "?dry_run=True")[..|d|] == d;
  }

  // ------------------------------------------------------ cell edits

  /** The diff object built from the two rows: a property for label and one for
      description when the new value is not strictly equal to the old one; the
      value may be undefined (None). The cells are strings, for which `!==`
      compares values, as the structural equality here does. */
  function EditDiff(newRow: Json, oldRow: Json): (diff: seq<(string, Option<Json>)>)
    ensures UniqueKeys(diff) && |diff| <= 2
    ensures forall i :: 0 <= i < |diff| ==>
              (diff[i].0 == "label" || diff[i].0 == "description") && diff[i].1 == Get(newRow, diff[i].0)
    ensures HasKey(diff, "label") <==> Get(newRow, "label") != Get(oldRow, "label")
    ensures HasKey(diff, "description") <==> Get(newRow, "description") != Get(oldRow, "description")
  {
    var byLabel := if Get(newRow, "label") != Get(oldRow, "label") then [("label", Get(newRow, "label"))] else [];
    var byDescription :=
      if Get(newRow, "description") != Get(oldRow, "description") then [("description", Get(newRow, "description"))] else [];
    var diff := byLabel + byDescription;
    assert Get(newRow, "label") != Get(oldRow, "label") ==> diff[0].0 == "label";
    assert Get(newRow, "label") == Get(oldRow, "label") ==> forall i :: 0 <= i < |diff| ==> diff[i].0 == "description";
    assert Get(newRow, "description") != Get(oldRow, "description") ==> diff[|diff| - 1].0 == "description";
    diff
  }

  /** The diff only ever names columns the grid lets the user edit. */
  lemma DiffOnlyEditable(newRow: Json, oldRow: Json, i: nat)
    requires i < |EditDiff(newRow, oldRow)|
    ensures EditableField(EditDiff(newRow, oldRow)[i].0)
  {
    EditableFields(EditDiff(newRow, oldRow)[i].0);
  }

  /** JSON.stringify of the diff: properties whose value is undefined are
      dropped, the others kept in order. */
  function Stringify(diff: seq<(string, Option<Json>)>): (body: seq<(string, Json)>)
    ensures |body| <= |diff|
    ensures forall kv :: kv in body ==> (kv.0, Some(kv.1)) in diff
    ensures (forall i :: 0 <= i < |diff| ==> diff[i].1.Some?) ==>
              |body| == |diff| && forall i :: 0 <= i < |diff| ==> body[i] == (diff[i].0, diff[i].1.value)
  {
    if diff == [] then []
    else
      var rest := Stringify(diff[1..]);
      assert forall kv :: kv in rest ==> (kv.0, Some(kv.1)) in diff by {
        assert forall x :: x in diff[1..] ==> x in diff;
      }
      assert forall i :: 1 <= i < |diff| ==> diff[1..][i - 1] == diff[i];
      match diff[0].1
      case None => rest
      case Some(v) =>
        var body := [(diff[0].0, v)] + rest;
        assert forall i :: 1 <= i < |body| ==> body[i] == rest[i - 1];
        body
  }

  /** What the PUT settles as: rejected (no response), or a response that is ok or not. */
  datatype PutOutcome = Rejected | Responded(ok: bool)

  /** The diff is empty exactly when neither edited cell changed. */
  lemma EditDiffEmpty(newRow: Json, oldRow: Json)
    ensures EditDiff(newRow, oldRow) == [] <==> (Get(newRow, "label") == Get(oldRow, "label")
                                                && Get(newRow, "description") == Get(oldRow, "description"))
  {
    var diff := EditDiff(newRow, oldRow);
    if diff != [] {
      assert HasKey(diff, diff[0].0);
    }
  }

  /** processRowUpdate: nothing is sent when neither edited cell changed;
      otherwise the diff is PUT to `${endpointBase}-data/${pk}`, and the grid
      keeps the new row only when the response is ok, rolling back otherwise. */
  method ProcessRowUpdate(endpointBase: string, newRow: Json, oldRow: Json, outcome: PutOutcome)
    returns (result: Json, sent: Option<Request>)
    ensures sent.None? <==> (Get(newRow, "label") == Get(oldRow, "label")
                             && Get(newRow, "description") == Get(oldRow, "description"))
    ensures sent.Some? ==> sent.value == Request(PUT, endpointBase + "-data/" + PkText(newRow),
                                                 Stringify(EditDiff(newRow, oldRow)))
    ensures sent.Some? && outcome == Responded(true) ==> result == newRow
    ensures !(sent.Some? && outcome == Responded(true)) ==> result == oldRow
  {
    var diff: seq<(string, Option<Json>)> := [];
    if Get(newRow, "label") != Get(oldRow, "label") {
      diff := diff + [("label", Get(newRow, "label"))];
    }
    if Get(newRow, "description") != Get(oldRow, "description") {
      diff := diff + [("description", Get(newRow, "description"))];
    }
    if |diff| == 0 {
      return oldRow, None;
    }
    assert newRow != oldRow;
    sent := Some(Request(PUT, endpointBase + "-data/" + PkText(newRow), Stringify(diff)));
    if outcome == Responded(true) {
      result := newRow;
    } else {
      result := oldRow;
    }
  }

  // ------------------------------------------------------ delete preview

  /** `xs.indexOf(x)` with strict equality; undefined equals no JSON value.
      Equality here is structural: the pks in `deleted_nodes` are integers,
      for which `===` compares values. */
  function IndexOf(xs: seq<Json>, x: Option<Json>): (i: int)
    ensures -1 <= i < |xs|
    ensures i >= 0 ==> Some(xs[i]) == x && forall j :: 0 <= j < i ==> Some(xs[j]) != x
    ensures i == -1 <==> forall j :: 0 <= j < |xs| ==> Some(xs[j]) != x
  {
    if xs == [] then -1
    else if Some(xs[0]) == x then 0
    else
      var k := IndexOf(xs[1..], x);
      assert forall j :: 1 <= j < |xs| ==> xs[j] == xs[1..][j - 1];
      if k == -1 then -1 else k + 1
  }

  /** `xs.splice(start, 1)` on the array: a negative start counts from the end
      (clamped at 0), and a start at or past the end removes nothing. */
  function SpliceOne(xs: seq<Json>, start: int): (r: seq<Json>)
    ensures |r| == |xs| || |r| == |xs| - 1
    ensures 0 <= start < |xs| ==> r == xs[..start] + xs[start + 1..]
    ensures start >= |xs| ==> r == xs
    ensures start < 0 && 0 <= |xs| + start ==> r == xs[..|xs| + start] + xs[|xs| + start + 1..]
    ensures start < 0 && |xs| + start < 0 && xs != [] ==> r == xs[1..]
  {
    var s := if start >= 0 then start else if |xs| + start < 0 then 0 else |xs| + start;
    if s >= |xs| then xs else xs[..s] + xs[s + 1..]
  }

  /** The dependents listed in the confirmation dialog: the dry run's
      deleted_nodes with the row's own pk spliced out. */
  function Preview(deletedNodes: seq<Json>, pk: Option<Json>): (p: seq<Json>)
    ensures |p| == if deletedNodes == [] then 0 else |deletedNodes| - 1
  {
    SpliceOne(deletedNodes, IndexOf(deletedNodes, pk))
  }

  /** When the root is among the deleted nodes, its first occurrence is
      removed and everything else is listed in order. */
  lemma PreviewRemovesRoot(deletedNodes: seq<Json>, pk: Option<Json>)
    requires exists j :: 0 <= j < |deletedNodes| && Some(deletedNodes[j]) == pk
    ensures var p := Preview(deletedNodes, pk);
            |p| == |deletedNodes| - 1
            && multiset(p) + multiset{pk.value} == multiset(deletedNodes)
    ensures var i := IndexOf(deletedNodes, pk);
            0 <= i && Some(deletedNodes[i]) == pk
            && (forall j :: 0 <= j < i ==> Some(deletedNodes[j]) != pk)
            && Preview(deletedNodes, pk) == deletedNodes[..i] + deletedNodes[i + 1..]
  {
    var i := IndexOf(deletedNodes, pk);
    assert deletedNodes == deletedNodes[..i] + [deletedNodes[i]] + deletedNodes[i + 1..];
  }

  /** When the root is missing, `indexOf` gives -1 and the splice drops the
      last node instead; an empty list stays empty (a dialog with 0 dependents). */
  lemma PreviewWithoutRoot(deletedNodes: seq<Json>, pk: Option<Json>)
    requires forall j :: 0 <= j < |deletedNodes| ==> Some(deletedNodes[j]) != pk
    ensures deletedNodes == [] ==> Preview(deletedNodes, pk) == []
    ensures deletedNodes != [] ==> Preview(deletedNodes, pk) == deletedNodes[..|deletedNodes| - 1]
  {
  }

  /** The dialog text's parts: the pk and the dependents it lists and counts. */
  datatype Modal = Modal(pk: Option<Json>, dependents: seq<Json>)

  // ------------------------------------------------------ the component

  /** The component's own state next to the hook's, and the non-GET requests
      it has issued, in order. */
  class NodeTableView {
    const hook: NodeTableHook
    var toDelete: Option<Json>
    var showModal: bool
    var modal: Option<Modal>
    var sent: seq<Request>

    constructor (endpointBase: string)
      ensures fresh(hook)
      ensures hook.endpointBase == endpointBase
      ensures toDelete.None? && !showModal && modal.None? && sent == []
      ensures hook.rows == Some(Arr([])) && hook.rowCount == Some(Num(0))
      ensures var first := Request(GET, QueryUrl(endpointBase, Query(0, InitialPageSize, "pk", "desc", InitialFilter)), []);
              hook.requests == [first, first]
    {
      hook := new NodeTableHook(endpointBase);
      toDelete := None;
      showModal := false;
      modal := None;
      sent := [];
    }

    /** A click on one of the buttons rendered for row. Delete selects a copy
        of the row and the effect sends the dry run; pause and resume POST and
        refetch once the POST settles as a response (resolved). */
    method Press(row: Json, a: Action, resolved: bool)
      requires a in RenderActions(row)
      modifies this, hook
      ensures a == Delete ==> (toDelete == Some(row) && sent == old(sent) + [DryRunRequest(hook.endpointBase, row)]
                               && hook.requests == old(hook.requests))
      ensures a != Delete ==> (toDelete == old(toDelete)
                               && sent == old(sent) + [ActionRequest(hook.endpointBase, row, a).value]
                               && hook.requests == old(hook.requests)
                                  + (if resolved then Fetch(hook.endpointBase, hook.page, hook.pageSize, hook.sortModel, hook.filterModel) else []))
      ensures showModal == old(showModal) && modal == old(modal)
      ensures hook.rows == old(hook.rows) && hook.rowCount == old(hook.rowCount)
      ensures hook.page == old(hook.page) && hook.pageSize == old(hook.pageSize)
      ensures hook.sortModel == old(hook.sortModel) && hook.filterModel == old(hook.filterModel)
    {
      if a == Delete {
        toDelete := Some(row);
        sent := sent + [DryRunRequest(hook.endpointBase, row)];
      } else {
        sent := sent + [ActionRequest(hook.endpointBase, row, a).value];
        if resolved {
          hook.FetchData();
        }
      }
    }

    /** The dry run's answer for target (the row the effect captured). None is
        a rejected fetch or an unparsable body; a body without an array
        deleted_nodes throws in the handler. Either way only a toast follows. */
    method ReceiveDryRun(target: Json, body: Option<Json>)
      modifies this
      ensures (body.Some? && Get(body.value, "deleted_nodes").Some? && Get(body.value, "deleted_nodes").value.Arr?)
              ==> (showModal
                   && modal == Some(Modal(Get(target, "pk"),
                                          Preview(Get(body.value, "deleted_nodes").value.items, Get(target, "pk")))))
      ensures !(body.Some? && Get(body.value, "deleted_nodes").Some? && Get(body.value, "deleted_nodes").value.Arr?)
              ==> showModal == old(showModal) && modal == old(modal)
      ensures toDelete == old(toDelete) && sent == old(sent)
    {
      if body.Some? {
        var deletedNodes := Get(body.value, "deleted_nodes");
        if deletedNodes.Some? && deletedNodes.value.Arr? {
          var pk := Get(target, "pk");
          modal := Some(Modal(pk, Preview(deletedNodes.value.items, pk)));
          showModal := true;
        }
      }
    }

    /** `setShow(false)`, the setter the dialog is given to close itself: the
        dialog is hidden and its body kept, so it is shown again only after
        the next dry run fills it. */
    method Dismiss()
      modifies this
      ensures !showModal
      ensures modal == old(modal) && toDelete == old(toDelete) && sent == old(sent)
    {
      showModal := false;
    }

    /** The dialog's confirm button: doDelete(toDelete). With nothing selected
        `item.pk` throws before any request; otherwise the DELETE is sent and
        the table refetched however it ends. */
    method Confirm()
      modifies this, hook
      ensures toDelete.None? ==> sent == old(sent) && hook.requests == old(hook.requests)
      ensures toDelete.Some? ==>
                (sent == old(sent) + [DeleteRequest(hook.endpointBase, toDelete.value)]
                 && hook.requests == old(hook.requests)
                    + Fetch(hook.endpointBase, hook.page, hook.pageSize, hook.sortModel, hook.filterModel))
      ensures toDelete == old(toDelete) && showModal == old(showModal) && modal == old(modal)
      ensures hook.rows == old(hook.rows) && hook.rowCount == old(hook.rowCount)
      ensures hook.page == old(hook.page) && hook.pageSize == old(hook.pageSize)
      ensures hook.sortModel == old(hook.sortModel) && hook.filterModel == old(hook.filterModel)
    {
      if toDelete.Some? {
        sent := sent + [DeleteRequest(hook.endpointBase, toDelete.value)];
        hook.FetchData();
      }
    }

    /** A cell edit committed by the grid: the PUT, when there is one, joins
        the sent requests; the grid shows the row returned. */
    method Edit(newRow: Json, oldRow: Json, outcome: PutOutcome) returns (shown: Json)
      modifies this
      ensures shown == if EditDiff(newRow, oldRow) != [] && outcome == Responded(true) then newRow else oldRow
      ensures sent == old(sent) + if EditDiff(newRow, oldRow) == [] then []
                                  else [Request(PUT, hook.endpointBase + "-data/" + PkText(newRow),
                                                Stringify(EditDiff(newRow, oldRow)))]
      ensures toDelete == old(toDelete) && showModal == old(showModal) && modal == old(modal)
    {
      var put;
      shown, put := ProcessRowUpdate(hook.endpointBase, newRow, oldRow, outcome);
      if put.Some? {
        sent := sent + [put.value];
      }
      EditDiffEmpty(newRow, oldRow);
    }
  }
}
