/** frontend/src/components/ProcessSummary.js: the recursive list of a
    process's inputs or outputs. An array value `[nodeId, …, nodeType]` is a
    link whose route prefix is chosen from nodeType, an object value is a
    nested list, anything else renders nothing. Exceptions that escape the
    recursive `map` are modelled as Threw. */
module ProcessSummary {
  import opened Text
  import opened Values

  const Prefixes: set<string> := {"/datanode", "/workgraph", "/workchain", "/process"}

  /** `value[2]` for an array (undefined when too short), null for anything else. */
  function NodeTypeOf(value: Json): Option<Json>
  {
    if value.Arr? then (if |value.items| > 2 then Some(value.items[2]) else None) else Some(Null)
  }

  /** `value[0]` for an array, the value itself otherwise. */
  function NodeIdOf(value: Json): Option<Json>
  {
    if value.Arr? then (if |value.items| > 0 then Some(value.items[0]) else None) else Some(value)
  }

  /** The `let prefix` chain: a falsy type keeps the default; a string type
      is tested for "data" first, then for the two node class suffixes; a
      truthy type that is not a string has no startsWith and throws. */
  function PrefixFor(nodeType: Option<Json>): (r: Outcome<string>)
    ensures r.Threw? <==> Truthy(nodeType) && !nodeType.value.Str?
    ensures r.Returned? ==> r.value in Prefixes
    ensures !Truthy(nodeType) ==> r == Returned("/datanode")
    ensures nodeType.Some? && nodeType.value.Str? && StartsWith(nodeType.value.s, "data") ==> r == Returned("/datanode")
    ensures (nodeType.Some? && nodeType.value.Str? && nodeType.value.s != "" && !StartsWith(nodeType.value.s, "data")
             && EndsWith(nodeType.value.s, "WorkGraphNode."))
            ==> r == Returned("/workgraph")
    ensures (nodeType.Some? && nodeType.value.Str? && nodeType.value.s != "" && !StartsWith(nodeType.value.s, "data")
             && !EndsWith(nodeType.value.s, "WorkGraphNode.") && EndsWith(nodeType.value.s, "WorkChainNode."))
            ==> r == Returned("/workchain")
    ensures (nodeType.Some? && nodeType.value.Str? && nodeType.value.s != "" && !StartsWith(nodeType.value.s, "data")
             && !EndsWith(nodeType.value.s, "WorkGraphNode.") && !EndsWith(nodeType.value.s, "WorkChainNode."))
            ==> r == Returned("/process")
  {
    if !Truthy(nodeType) then Returned("/datanode")
    else
      match nodeType.value
      case Str(t) =>
        if StartsWith(t, "data") then Returned("/datanode")
        else if EndsWith(t, "WorkGraphNode.") then Returned("/workgraph")
        else if EndsWith(t, "WorkChainNode.") then Returned("/workchain")
        else Returned("/process")
      case _ => Threw
  }

  /** No type ends in both node class suffixes: they differ in their fifth
      character. */
  lemma SuffixesExclusive(t: string)
    ensures !(EndsWith(t, "WorkGraphNode.") && EndsWith(t, "WorkChainNode."))
  {
    if EndsWith(t, "WorkChainNode.") {
      assert t[|t| - 10] == "WorkChainNode."[4] == 'C';
      assert "WorkGraphNode."[4] == 'G';
    }
  }

  /** The data check comes first: a data type whose name also ends in a
      workflow suffix still links to the data node page. */
  lemma DataCheckComesFirst(t: string)
    requires StartsWith(t, "data")
    ensures PrefixFor(Some(Str(t))) == Returned("/datanode")
    ensures EndsWith(t, "WorkGraphNode.") || EndsWith(t, "WorkChainNode.") ==> PrefixFor(Some(Str(t))) != Returned("/workgraph")
  {
  }

  /** Every non-data type ending in WorkGraphNode. links to the workgraph page. */
  lemma WorkGraphPrefix(t: string)
    requires !StartsWith(t, "data") && EndsWith(t, "WorkGraphNode.")
    ensures PrefixFor(Some(Str(t))) == Returned("/workgraph")
  {
    assert t != "" by { assert |t| >= 14; }
  }

  /** Every non-data type ending in WorkChainNode. links to the workchain page:
      the workgraph test before it cannot catch such a type. */
  lemma WorkChainPrefix(t: string)
    requires !StartsWith(t, "data") && EndsWith(t, "WorkChainNode.")
    ensures PrefixFor(Some(Str(t))) == Returned("/workchain")
  {
    assert t != "" by { assert |t| >= 14; }
    SuffixesExclusive(t);
  }

  /** Every other non-empty type, a calculation job say, links to the process
      page. */
  lemma OtherProcessPrefix(t: string)
    requires t != "" && !StartsWith(t, "data") && !EndsWith(t, "WorkGraphNode.") && !EndsWith(t, "WorkChainNode.")
    ensures PrefixFor(Some(Str(t))) == Returned("/process")
  {
  }

  /** One `[key, value]` of the map. The prefix is computed before the value
      is looked at; null is `typeof 'object'`, so it recurses into
      `Object.entries(null)`, which throws. */
  function RenderValue(key: string, value: Json): (r: Outcome<Option<Item>>)
    decreases value, 1, 0
  {
    match PrefixFor(NodeTypeOf(value))
    case Threw => Threw
    case Returned(prefix) =>
      if value.Arr? then
        Returned(Some(Link(key, prefix + "/" + JsString(NodeIdOf(value)), JsString(NodeIdOf(value)))))
      else if value.Obj? then
        match RenderFrom(value, 0)
        case Threw => Threw
        case Returned(children) => Returned(Some(Group(key, children)))
      else if value.Null? then Threw
      else Returned(None)
  }

  /** The entries of an object or array from position `from` on, in order; the
      first entry that throws ends the map. */
  function RenderFrom(v: Json, from: nat): (r: Outcome<seq<Option<Item>>>)
    requires from <= EntryCount(v)
    decreases v, 0, EntryCount(v) - from
  {
    if from == EntryCount(v) then Returned([])
    else
      var child := if v.Obj? then v.entries[from].1 else v.items[from];
      match RenderValue(EntryKey(v, from), child)
      case Threw => Threw
      case Returned(item) =>
        match RenderFrom(v, from + 1)
        case Threw => Threw
        case Returned(rest) => Returned([item] + rest)
  }

  /** `renderInputs(inputs)` on the top-level value. */
  function RenderInputs(inputs: Option<Json>): Outcome<seq<Option<Item>>>
  {
    match inputs
    case None => Threw
    case Some(v) =>
      match v
      case Null => Threw
      case Str(s) => Returned(seq(|s|, i requires 0 <= i < |s| => None))
      case Bool(_) => Returned([])
      case Num(_) => Returned([])
      case _ => RenderFrom(v, 0)
  }

  /** An entry renders without throwing and every link it holds is under one
      of the four prefixes. */
  lemma {:induction false} RenderValueLinks(key: string, value: Json)
    requires RenderValue(key, value).Returned?
    ensures var item := RenderValue(key, value).value;
            (item.Some? ==> item.value.key == key && LinksUnder(item.value, Prefixes))
            && (value.Arr? ==> item == Some(Link(key, PrefixFor(NodeTypeOf(value)).value + "/" + JsString(NodeIdOf(value)),
                                                JsString(NodeIdOf(value)))))
            && (value.Obj? ==> item.Some? && item.value.Group? && |item.value.children| == |value.entries|)
            && (!value.Arr? && !value.Obj? ==> item.None?)
    decreases value, 1, 0
  {
    var prefix := PrefixFor(NodeTypeOf(value)).value;
    if value.Arr? {
      var href := prefix + "/" + JsString(NodeIdOf(value));
      assert StartsWith(href, prefix);
    } else if value.Obj? {
      RenderFromLinks(value, 0);
    }
  }

  /** One item per remaining entry, under that entry's key, with every link
      under the four prefixes. */
  lemma {:induction false} RenderFromLinks(v: Json, from: nat)
    requires from <= EntryCount(v) && RenderFrom(v, from).Returned?
    ensures var items := RenderFrom(v, from).value;
            |items| == EntryCount(v) - from
            && forall i :: 0 <= i < |items| ==>
                 items[i].Some? ==> items[i].value.key == EntryKey(v, from + i) && LinksUnder(items[i].value, Prefixes)
    decreases v, 0, EntryCount(v) - from
  {
    if from < EntryCount(v) {
      var child := if v.Obj? then v.entries[from].1 else v.items[from];
      RenderValueLinks(EntryKey(v, from), child);
      RenderFromLinks(v, from + 1);
      var items := RenderFrom(v, from).value;
      var rest := RenderFrom(v, from + 1).value;
      assert items == [RenderValue(EntryKey(v, from), child).value] + rest;
      forall i | 0 <= i < |items| && items[i].Some?
        ensures items[i].value.key == EntryKey(v, from + i) && LinksUnder(items[i].value, Prefixes)
      {
        if i > 0 {
          assert items[i] == rest[i - 1];
        }
      }
    }
  }

  /** There is one output entry per key of an object, in Object.entries order,
      and every link is under one of the four prefixes. */
  lemma RenderInputsShape(v: Json)
    requires v.Obj? && RenderInputs(Some(v)).Returned?
    ensures var items := RenderInputs(Some(v)).value;
            |items| == |v.entries|
            && forall i :: 0 <= i < |items| ==>
                 items[i].Some? ==> items[i].value.key == Keys(v.entries)[i] && LinksUnder(items[i].value, Prefixes)
  {
    RenderFromLinks(v, 0);
  }

  /** A null anywhere from position `from` on makes the whole map throw. */
  lemma {:induction false} NullEntryThrows(v: Json, from: nat, k: nat)
    requires from <= k < EntryCount(v)
    requires (if v.Obj? then v.entries[k].1 else v.items[k]) == Null
    ensures RenderFrom(v, from).Threw?
    decreases EntryCount(v) - from
  {
    if from < k {
      NullEntryThrows(v, from + 1, k);
    }
  }

  /** An object with a null value among its entries crashes the summary
      (typeof null is 'object'), whatever the other entries are. */
  lemma NullValueCrashes(v: Json, k: nat)
    requires v.Obj? && k < |v.entries| && v.entries[k].1 == Null
    ensures RenderInputs(Some(v)) == Threw
  {
    NullEntryThrows(v, 0, k);
  }

  /** An array whose third element is a truthy non-string (a number, say)
      crashes in startsWith. */
  lemma NonStringTypeCrashes(key: string, items: seq<Json>)
    requires |items| > 2 && Truthy(Some(items[2])) && !items[2].Str?
    ensures RenderValue(key, Arr(items)) == Threw
  {
  }
}
