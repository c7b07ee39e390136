/** aiida_workgraph_web_ui/frontend/src/components/ProcessTable.jsx: the
    process and workgraph pages. Each mounts the node table on its own
    endpoint and link prefix and hands it a config (columns, an action
    builder, editable fields) that NodeTable does not read. */
module ProcessTable {
  import opened Text
  import opened Values
  import opened NodeTable

  const ProcessColumns: seq<Column> := [
    Column("pk", true, false),
    Column("ctime", true, false),
    Column("process_label", false, false),
    Column("process_state", false, false),
    Column("process_status", false, false),
    Column("label", true, true),
    Column("description", true, true),
    Column("exit_status", false, false),
    Column("exit_message", false, false),
    Column("paused", true, false)]

  /** The props one page passes to NodeTable. */
  datatype TableConfig = TableConfig(title: string, endpointBase: string, linkPrefix: string, editableFields: seq<string>)

  const Backend: string := "http://localhost:8000"

  const ProcessTableConfig := TableConfig("Process nodes", Backend + "/api/process", "/process", ["label", "description"])

  const WorkGraphTableConfig := TableConfig("WorkGraph nodes", Backend + "/api/workgraph", "/workgraph", ["label", "description"])

  /** The path segment of each button's POST. */
  function Segment(a: Action): string
  {
    match a
    case Pause => "pause"
    case Resume => "play"
    case Delete => "delete"
  }

  /** processActions: the buttons' requests, left to right, every one a POST
      followed by a refetch. */
  function ProcessActions(endpointBase: string, row: Json): (posts: seq<Request>)
    ensures |posts| == |RenderActions(row)|
    ensures forall i :: 0 <= i < |posts| ==>
              posts[i] == Request(POST, endpointBase + "/" + Segment(RenderActions(row)[i]) + "/" + PkText(row), [])
  {
    var post := (segment: string) => Request(POST, endpointBase + "/" + segment + "/" + PkText(row), []);
    if Terminal(Get(row, "process_state")) then [post("delete")]
    else if Truthy(Get(row, "paused")) then [post("play"), post("delete")]
    else [post("pause"), post("delete")]
  }

  /** The config's buttons are the table's own buttons, except that delete
      is a POST to the delete path instead of the dry-run flow. */
  lemma ActionsAgreeWithTable(endpointBase: string, row: Json, i: nat)
    requires i < |RenderActions(row)|
    ensures RenderActions(row)[i] != Delete ==>
              ProcessActions(endpointBase, row)[i] == ActionRequest(endpointBase, row, RenderActions(row)[i]).value
    ensures RenderActions(row)[i] == Delete ==>
              ProcessActions(endpointBase, row)[i] == Request(POST, DeleteRequest(endpointBase, row).url, [])
  {
    var a := RenderActions(row)[i];
    SlashJoin(endpointBase, Segment(a), PkText(row));
    match a
    case Pause => assert "/" + Segment(a) + "/" == "/pause/";
    case Resume => assert "/" + Segment(a) + "/" == "/play/";
    case Delete => assert "/" + Segment(a) + "/" == "/delete/";
  }

  lemma SlashJoin(base: string, segment: string, pk: string)
    ensures base + "/" + segment + "/" + pk == base + ("/" + segment + "/") + pk
  {
  }

  /** In the config's columns exactly label and description are editable, as
      in the table's own columns; both pages list the same editable fields. */
  lemma EditableFieldsAgree(field: string)
    ensures (exists i :: 0 <= i < |ProcessColumns| && ProcessColumns[i].field == field && ProcessColumns[i].editable)
            <==> field == "label" || field == "description"
    ensures (field in ProcessTableConfig.editableFields) <==> EditableField(field)
    ensures (field in WorkGraphTableConfig.editableFields) <==> EditableField(field)
  {
    EditableFields(field);
    if field == "label" {
      assert ProcessColumns[5].field == field && ProcessColumns[5].editable;
    } else if field == "description" {
      assert ProcessColumns[6].field == field && ProcessColumns[6].editable;
    }
  }

  /** The two configs differ only in title, endpoint and link prefix. */
  lemma ConfigsDifferOnlyInPlace()
    ensures ProcessTableConfig.editableFields == WorkGraphTableConfig.editableFields
    ensures ProcessTableConfig.endpointBase != WorkGraphTableConfig.endpointBase
    ensures ProcessTableConfig.linkPrefix != WorkGraphTableConfig.linkPrefix
  {
    var p := ProcessTableConfig.endpointBase;
    var w := WorkGraphTableConfig.endpointBase;
    assert p[|Backend| + 5] != w[|Backend| + 5];
  }

  /** The config's columns and the table's own differ: the table adds an
      actions column, and the config leaves paused sortable. */
  lemma ColumnsDiffer()
    ensures |Columns| == |ProcessColumns| + 1 && Columns[|Columns| - 1].field == "actions"
    ensures forall i :: 0 <= i < |ProcessColumns| ==> ProcessColumns[i].field == Columns[i].field
    ensures ProcessColumns[9] == Column("paused", true, false) && Columns[9] == Column("paused", false, false)
  {
  }
}
