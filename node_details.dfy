/** aiida_workgraph_web_ui/frontend/src/components/NodeDetails.js: the side
    panel of a selected workgraph node. Its "Go to WorkGraph" button is shown
    for graph-building, sub-workgraph and map nodes, disabled for a graph
    builder without a process pk, and navigates to a path computed from the
    node; its input and output lists link every data node. The selected node
    is a JSON value: null when nothing is selected, in which case every read
    of `selectedNode.node_type` throws. `navigate` is the Nav the click
    yields. */
module NodeDetails {
  import opened Text
  import opened Values

  datatype Nav = Navigate(path: string) | Stay

  /** `selectedNode.node_type?.toUpperCase()`: a TypeError for a null node
      (the `?.` guards only the type); undefined for a missing or null type,
      the upper-cased string for a string, a TypeError for anything else. */
  function UpperType(node: Json): (r: Outcome<Option<string>>)
    ensures r.Threw? <==> node.Null? || (Get(node, "node_type").Some? && !Get(node, "node_type").value.Null?
                                         && !Get(node, "node_type").value.Str?)
    ensures r.Returned? && r.value.Some? ==> (Get(node, "node_type").Some? && Get(node, "node_type").value.Str?
                                              && r.value.value == ToUpper(Get(node, "node_type").value.s))
  {
    if node.Null? then Threw
    else match Get(node, "node_type")
    case None => Returned(None)
    case Some(t) =>
      match t
      case Null => Returned(None)
      case Str(s) => Returned(Some(ToUpper(s)))
      case _ => Threw
  }

  /** The upper-cased type compared with a name; undefined equals no string. */
  predicate TypeIs(t: Option<string>, name: string)
  {
    t == Some(name)
  }

  /** `selectedNode.process?.pk`: undefined when process is missing or null. */
  function ProcessPk(node: Json): Option<Json>
  {
    match Get(node, "process")
    case None => None
    case Some(p) => if p.Null? then None else Get(p, "pk")
  }

  /** handleWorkGraphClick. The `|| ''` turns a missing type into "", which
      matches no branch. */
  function WorkGraphClick(node: Json, parentPk: Option<Json>, parentPath: Option<Json>): (r: Outcome<Nav>)
    ensures r.Threw? <==> UpperType(node).Threw?
  {
    match UpperType(node)
    case Threw => Threw
    case Returned(upper) =>
      var t := if upper.Some? then upper.value else "";
      if t == "GRAPH_BUILDER" then
        if Truthy(ProcessPk(node)) then Returned(Navigate("/workgraph/" + JsString(ProcessPk(node))))
        else Returned(Stay)
      else if t == "WORKGRAPH" || t == "MAP" then
        var nodeLabel := JsString(Get(node, "label"));
        if Truthy(parentPath) then
          Returned(Navigate("/workgraph/" + JsString(parentPk) + "/" + JsString(parentPath) + "/" + nodeLabel))
        else Returned(Navigate("/workgraph/" + JsString(parentPk) + "/" + nodeLabel))
      else Returned(Stay)
  }

  /** isButtonDisabled. */
  function ButtonDisabled(node: Json): (r: Outcome<bool>)
    ensures r.Threw? <==> UpperType(node).Threw?
    ensures r.Returned? && r.value ==> UpperType(node) == Returned(Some("GRAPH_BUILDER"))
  {
    match UpperType(node)
    case Threw => Threw
    case Returned(upper) =>
      var process := Get(node, "process");
      Returned(TypeIs(upper, "GRAPH_BUILDER")
               && (!Truthy(process) || !Truthy(Get(process.value, "pk"))))
  }

  /** Whether the panel renders the button at all. */
  function ButtonShown(node: Json): (r: Outcome<bool>)
    ensures r.Threw? <==> UpperType(node).Threw?
    ensures r.Returned? ==> (r.value <==> UpperType(node).value.Some?
                                          && UpperType(node).value.value in {"GRAPH_BUILDER", "WORKGRAPH", "MAP"})
  {
    match UpperType(node)
    case Threw => Threw
    case Returned(upper) =>
      Returned(TypeIs(upper, "GRAPH_BUILDER") || TypeIs(upper, "WORKGRAPH") || TypeIs(upper, "MAP"))
  }

  /** A button that is shown and enabled always navigates, and a click can
      only navigate from such a button: the enabling rule and the click
      handler agree. */
  lemma NavigatesIffEnabled(node: Json, parentPk: Option<Json>, parentPath: Option<Json>)
    requires UpperType(node).Returned?
    ensures WorkGraphClick(node, parentPk, parentPath).value.Navigate?
            <==> ButtonShown(node).value && !ButtonDisabled(node).value
  {
    var process := Get(node, "process");
    if Truthy(ProcessPk(node)) {
      assert process.Some? && !process.value.Null?;
      assert Truthy(process) by { assert Get(process.value, "pk").Some?; }
    }
    if Truthy(process) && Truthy(Get(process.value, "pk")) {
      assert ProcessPk(node) == Get(process.value, "pk");
    }
  }

  /** A graph builder navigates to its process's workgraph page exactly when
      it has a truthy process pk. */
  lemma GraphBuilderTarget(node: Json, parentPk: Option<Json>, parentPath: Option<Json>)
    requires UpperType(node) == Returned(Some("GRAPH_BUILDER"))
    ensures Truthy(ProcessPk(node)) ==>
              WorkGraphClick(node, parentPk, parentPath) == Returned(Navigate("/workgraph/" + JsString(ProcessPk(node))))
    ensures !Truthy(ProcessPk(node)) ==> WorkGraphClick(node, parentPk, parentPath) == Returned(Stay)
  {
  }

  /** Sub-workgraph and map nodes go below the parent's page, through the
      parent path when there is one; their button is never disabled. */
  lemma NestedGraphTarget(node: Json, parentPk: Option<Json>, parentPath: Option<Json>)
    requires UpperType(node) == Returned(Some("WORKGRAPH")) || UpperType(node) == Returned(Some("MAP"))
    ensures var base := "/workgraph/" + JsString(parentPk) + "/";
            var nodeLabel := JsString(Get(node, "label"));
            WorkGraphClick(node, parentPk, parentPath)
            == Returned(Navigate(if Truthy(parentPath) then base + JsString(parentPath) + "/" + nodeLabel else base + nodeLabel))
    ensures ButtonDisabled(node) == Returned(false)
  {
  }

  /** The type is compared without regard to case: two types that upper-case
      alike behave alike. */
  lemma CaseInsensitive(node1: Json, node2: Json, parentPk: Option<Json>, parentPath: Option<Json>)
    requires Get(node1, "node_type").Some? && Get(node1, "node_type").value.Str?
    requires Get(node2, "node_type").Some? && Get(node2, "node_type").value.Str?
    requires ToUpper(Get(node1, "node_type").value.s) == ToUpper(Get(node2, "node_type").value.s)
    requires Get(node1, "process") == Get(node2, "process") && Get(node1, "label") == Get(node2, "label")
    ensures WorkGraphClick(node1, parentPk, parentPath) == WorkGraphClick(node2, parentPk, parentPath)
    ensures ButtonDisabled(node1) == ButtonDisabled(node2) && ButtonShown(node1) == ButtonShown(node2)
  {
    var upper := UpperType(node1);
    assert upper == UpperType(node2);
    assert ProcessPk(node1) == ProcessPk(node2);
    assert upper.Returned? && upper.value.Some?;
  }

  /** A node without a type neither shows the button nor navigates; with no
      node selected at all, the panel and the click throw. */
  lemma MissingTypeStays(node: Json, parentPk: Option<Json>, parentPath: Option<Json>)
    requires Get(node, "node_type").None? || Get(node, "node_type") == Some(Null)
    ensures node.Null? ==> WorkGraphClick(node, parentPk, parentPath) == Threw
                           && ButtonShown(node) == Threw && ButtonDisabled(node) == Threw
    ensures !node.Null? ==> WorkGraphClick(node, parentPk, parentPath) == Returned(Stay)
                            && ButtonShown(node) == Returned(false)
  {
  }

  // ------------------------------------------------------ inputs and outputs

  /** One `[key, value]` of renderInputs' map: an array links its first
      element, an object (not null) recurses, anything else renders null. */
  function RenderValue(key: string, value: Json): Option<Item>
    decreases value, 1, 0
  {
    match value
    case Arr(items) =>
      var nodeId := if |items| > 0 then Some(items[0]) else None;
      Some(Link(key, "/datanode/" + JsString(nodeId), JsString(nodeId)))
    case Obj(_) => Some(Group(key, RenderFrom(value, 0)))
    case _ => None
  }

  function RenderFrom(v: Json, from: nat): seq<Option<Item>>
    requires from <= EntryCount(v)
    decreases v, 0, EntryCount(v) - from
  {
    if from == EntryCount(v) then []
    else
      var child := if v.Obj? then v.entries[from].1 else v.items[from];
      [RenderValue(EntryKey(v, from), child)] + RenderFrom(v, from + 1)
  }

  /** `renderInputs(inputs)`: Object.entries throws only on a missing or
      null argument; nested values never throw, since null is tested for. */
  function RenderInputs(inputs: Option<Json>): (r: Outcome<seq<Option<Item>>>)
    ensures r.Threw? <==> inputs.None? || inputs.value.Null?
  {
    match inputs
    case None => Threw
    case Some(v) =>
      match v
      case Null => Threw
      case Str(s) => Returned(seq(|s|, i requires 0 <= i < |s| => None))
      case Bool(_) => Returned([])
      case Num(_) => Returned([])
      case _ => Returned(RenderFrom(v, 0))
  }

  /** Every link of an entry goes to a data node page. */
  lemma {:induction false} RenderValueLinks(key: string, value: Json)
    ensures var item := RenderValue(key, value);
            (item.Some? ==> item.value.key == key && LinksUnder(item.value, {"/datanode/"}))
            && (item.Some? <==> value.Arr? || value.Obj?)
    decreases value, 1, 0
  {
    if value.Arr? {
      var nodeId := if |value.items| > 0 then Some(value.items[0]) else None;
      assert StartsWith("/datanode/" + JsString(nodeId), "/datanode/");
    } else if value.Obj? {
      RenderFromLinks(value, 0);
    }
  }

  lemma {:induction false} RenderFromLinks(v: Json, from: nat)
    requires from <= EntryCount(v)
    ensures var items := RenderFrom(v, from);
            |items| == EntryCount(v) - from
            && forall i :: 0 <= i < |items| ==>
                 items[i].Some? ==> items[i].value.key == EntryKey(v, from + i) && LinksUnder(items[i].value, {"/datanode/"})
    decreases v, 0, EntryCount(v) - from
  {
    if from < EntryCount(v) {
      var child := if v.Obj? then v.entries[from].1 else v.items[from];
      RenderValueLinks(EntryKey(v, from), child);
      RenderFromLinks(v, from + 1);
      assert RenderFrom(v, from) == [RenderValue(EntryKey(v, from), child)] + RenderFrom(v, from + 1);
      PrependKeyed(v, from, RenderValue(EntryKey(v, from), child), RenderFrom(v, from + 1));
    }
  }

  /** Items keyed from `from + 1` on, with one item keyed `from` in front,
      are keyed from `from` on. */
  lemma PrependKeyed(v: Json, from: nat, head: Option<Item>, rest: seq<Option<Item>>)
    requires from + 1 + |rest| <= EntryCount(v)
    requires head.Some? ==> head.value.key == EntryKey(v, from) && LinksUnder(head.value, {"/datanode/"})
    requires forall i :: 0 <= i < |rest| ==>
               rest[i].Some? ==> rest[i].value.key == EntryKey(v, from + 1 + i) && LinksUnder(rest[i].value, {"/datanode/"})
    ensures var items := [head] + rest;
            forall i :: 0 <= i < |items| ==>
              items[i].Some? ==> items[i].value.key == EntryKey(v, from + i) && LinksUnder(items[i].value, {"/datanode/"})
  {
    var items := [head] + rest;
    forall i | 0 <= i < |items| && items[i].Some?
      ensures items[i].value.key == EntryKey(v, from + i) && LinksUnder(items[i].value, {"/datanode/"})
    {
      if i > 0 {
        assert items[i] == rest[i - 1];
        assert from + 1 + (i - 1) == from + i;
      }
    }
  }

  /** For an object of inputs: one entry per key, in order, each link to a
      data node page. */
  lemma RenderInputsShape(v: Json)
    requires v.Obj?
    ensures RenderInputs(Some(v)).Returned?
    ensures var items := RenderInputs(Some(v)).value;
            |items| == |v.entries|
            && forall i :: 0 <= i < |items| ==>
                 items[i].Some? ==> items[i].value.key == Keys(v.entries)[i] && LinksUnder(items[i].value, {"/datanode/"})
  {
    RenderFromLinks(v, 0);
  }
}
