# aiida-workgraph web UI: the server-paginated node table

This project models the node table of the AiiDA WorkGraph web UI in Dafny. The table is made of two halves.

The browser half:

- `useNodeTable` holds one table's state. That state is its rows, its row count, the page and page size, the sort model and the filter model. The hook issues a GET to `${endpointBase}-data` whenever that state changes.
- `NodeTable` renders a pause, resume or delete button for each row. It saves edited label and description cells with a PUT, and rolls a failed save back. It deletes in two steps: a dry-run DELETE first fills a confirmation dialog, then the real DELETE is sent and the table is refetched.
- `ProcessTable` holds the page configurations and its own action builder.
- `NodeDetails` holds the "Go to WorkGraph" navigation and the input and output link lists.
- `ProcessSummary` picks the route prefix of each input and output link.

The server half:

- The router `make_node_router` builds for a node class. It offers a validated, sorted and paginated read, an update of label and description, pause and play, and a delete with a dry-run option.
- The data-node read and delete routes.
- The conversion of projected group rows into dicts.

The database is modelled as the sequence of matching records in ORDER BY order. AiiDA's `load_node`, `delete_nodes`, `pause_processes` and `play_processes`, and the helper `time_ago`, are given as their outcomes or as function parameters.

The browser's effects are recorded as the sequence of requests issued. JavaScript's own semantics are written out where the components rely on them:

- truthiness;
- `String(v)` in template literals;
- strict equality;
- `Object.entries`, for objects whose keys are not array indices;
- `indexOf`;
- `splice` with a negative start;
- `JSON.stringify` dropping `undefined`;
- optional chaining;
- `typeof null === 'object'`.

An exception is modelled as an `Outcome` of `Threw`.

Modules:

- `Text` covers decimal spelling, prefixes and suffixes, ASCII upper-casing and Python's `str.title`.
- `Values` covers JSON values and JavaScript's operations on them.
- `Api` covers the response shapes.
- `Paging` covers offset and limit.
- `UseNodeTable`, `NodeTable`, `ProcessTable`, `NodeDetails` and `ProcessSummary` model the browser side.
- `NodeRouter`, `DataNode` and `GroupNode` model the server side.
- `Integration` states how the browser's requests and the server's answers fit together.

The source is modelled as written, including its inconsistencies:

- The table reads `process_state` and `paused`, but the read endpoint sends `state` and nothing about pausing. Every row from the backend is therefore offered pause and delete, finished or not (`Integration.BackendRowActions`).
- `ProcessTable`'s action builder deletes with a POST. The delete route only accepts DELETE, so the router answers 405 (`Integration.ProcessActionsDeleteRejected`). `NodeTable` never reads the `config` prop, so this builder and `processColumns` are never used.
- When the root pk is missing from a dry run's `deleted_nodes`, `indexOf` gives -1. `splice(-1, 1)` then drops the last dependent (`NodeTable.PreviewWithoutRoot`).
- An empty dry-run list is not an error: the dialog opens with no dependents.
- A pause or resume click refetches only when its POST settles with a response (`.then`). The confirmed delete refetches in every case (`.finally`).
- `node_table.py` writes its dry-run mark with U+2011 NON-BREAKING HYPHEN. `datanode.py` uses an ASCII hyphen.

## Model

| member | source | states |
|---|---|---|
| Text.ParseNatToString | aiida_workgraph_web_ui/frontend/src/components/useNodeTable.js:12-14 | the decimal spelling of skip, limit and pk reads back as the same number |
| Text.NatToStringInjective | aiida_workgraph_web_ui/frontend/src/components/useNodeTable.js:12-14 | two different naturals never spell the same digits |
| Text.IntToStringInjective | aiida_workgraph_web_ui/backend/app/node_table.py:100 | two different ids never give the same `str(id)` |
| Text.ToUpper | aiida_workgraph_web_ui/frontend/src/components/NodeDetails.js:111 | `toUpperCase` keeps the length, turns each lower-case letter into its upper-case letter and leaves every other character as it is |
| Text.ToUpperIdempotent | aiida_workgraph_web_ui/frontend/src/components/NodeDetails.js:111 | upper-casing an upper-cased type changes nothing |
| Text.TitleIdempotent | aiida_workgraph_web_ui/backend/app/node_table.py:79 | `str.title()` of a title-cased state changes nothing |
| Text.TitleFirstNotLower | aiida_workgraph_web_ui/backend/app/node_table.py:79 | a non-empty title-cased state never starts with a lower-case letter |
| Values.Entries | frontend/src/components/ProcessSummary.js:68 | `Object.entries` throws exactly on null and undefined, and gives an object's own entries in the order the JSON text lists them (JavaScript's order when no key is an array index) |
| Values.EntriesAgree | frontend/src/components/ProcessSummary.js:68 | the entries the recursive renderers walk are `Object.entries`' own, key and value, in order |
| Values.NumStringHasNoLetter | aiida_workgraph_web_ui/frontend/src/components/NodeTable.jsx:89 | a numeric value spelled by `String` holds no letter, so it matches no state word |
| Api.PageJson | aiida_workgraph_web_ui/backend/app/node_table.py:88 | the read's body holds `total` and `data` as computed |
| Api.ErrorJson | aiida_workgraph_web_ui/backend/app/node_table.py:99-101 | an HTTPException body holds its `detail` and neither `data` nor `total` |
| Paging.PageOf | aiida_workgraph_web_ui/backend/app/node_table.py:70-71 | `offset(skip).limit(limit)` keeps at most `limit` matches, exactly those at positions skip, skip+1, … |
| Paging.FirstPagesArePrefix | aiida_workgraph_web_ui/backend/app/node_table.py:70-71 | pages 0..n-1 laid end to end are the ordered matches up to n·pageSize: nothing skipped, nothing repeated |
| Paging.AllPagesCoverMatches | aiida_workgraph_web_ui/backend/app/node_table.py:70-71 | enough pages cover every match exactly once |
| UseNodeTable.QueryFor | aiida_workgraph_web_ui/frontend/src/components/useNodeTable.js:11-15 | a query exists exactly when the sort model has a first entry (otherwise `sortModel[0].field` throws) |
| UseNodeTable.OnlyFirstSortItemMatters | aiida_workgraph_web_ui/frontend/src/components/useNodeTable.js:15 | sort models with the same first entry send the same query |
| UseNodeTable.UrlDeterminesWindow | aiida_workgraph_web_ui/frontend/src/components/useNodeTable.js:13-14 | equal request URLs (`QueryUrl`) ask for the same skip and limit |
| UseNodeTable.UrlDeterminesPage | aiida_workgraph_web_ui/frontend/src/components/useNodeTable.js:11-14 | with a positive page size, equal URLs come from the same page and page size (skip = page·pageSize) |
| UseNodeTable.Fetch | aiida_workgraph_web_ui/frontend/src/components/useNodeTable.js:10-20 | one fetchData call issues one body-less GET, or none when the sort model is empty |
| UseNodeTable.FilterChangeEndsOnFirstPage | aiida_workgraph_web_ui/frontend/src/components/useNodeTable.js:20-25 | a filter change issues two GETs; the last asks for page 0, and the first asks for other rows when the table was past page 0 |
| UseNodeTable.PageResponseFillsTable | aiida_workgraph_web_ui/frontend/src/components/useNodeTable.js:18-19 | a page body sets rows and row count from the same response (`Applied`, the response handler) |
| UseNodeTable.ErrorResponseClearsTable | aiida_workgraph_web_ui/frontend/src/components/useNodeTable.js:18-19 | an error body leaves rows and row count undefined |
| UseNodeTable.LastResponseWins | aiida_workgraph_web_ui/frontend/src/components/useNodeTable.js:18-19 | the table shows the last response to arrive, whichever request it answers |
| UseNodeTable.NodeTableHook.constructor | aiida_workgraph_web_ui/frontend/src/components/useNodeTable.js:4-8 | the initial state: empty rows, count 0, page 0 of size 15, sort pk desc, empty filter; mount issues the first page's GET twice |
| UseNodeTable.NodeTableHook.FetchData | aiida_workgraph_web_ui/frontend/src/components/useNodeTable.js:10-20 | appends the GET for the current state and changes nothing else |
| UseNodeTable.NodeTableHook.SetPagination | aiida_workgraph_web_ui/frontend/src/components/useNodeTable.js:20-23 | sets page and size and issues the GET for them |
| UseNodeTable.NodeTableHook.SetSortModel | aiida_workgraph_web_ui/frontend/src/components/useNodeTable.js:20-23 | sets the sort model and issues the GET for it |
| UseNodeTable.NodeTableHook.SetFilter | aiida_workgraph_web_ui/frontend/src/components/useNodeTable.js:20-25 | sets the filter, resets to page 0 keeping the page size, and issues the old page's GET, then page 0's |
| UseNodeTable.NodeTableHook.Receive | aiida_workgraph_web_ui/frontend/src/components/useNodeTable.js:18-19 | a response writes rows and row count together, as Applied gives them, and nothing else |
| NodeTable.EditableFields | aiida_workgraph_web_ui/frontend/src/components/NodeTable.jsx:73-74 | a column is editable exactly when it is label or description |
| NodeTable.RenderActions | aiida_workgraph_web_ui/frontend/src/components/NodeTable.jsx:87-108 | delete is always offered, last; delete alone exactly for a terminal state; resume exactly for a paused non-terminal row; pause exactly for an unpaused non-terminal row; no button twice |
| NodeTable.TerminalUnanchored | aiida_workgraph_web_ui/frontend/src/components/NodeTable.jsx:89 | the state test is unanchored: any state text holding Finished, Failed or Excepted anywhere is terminal |
| NodeTable.ActionRequest | aiida_workgraph_web_ui/frontend/src/components/NodeTable.jsx:88-104 | pause and resume POST to `/pause/pk` and `/play/pk` under the endpoint; delete sends nothing directly |
| NodeTable.ActionUrlNamesRow | aiida_workgraph_web_ui/frontend/src/components/NodeTable.jsx:96-104 | rows whose pks spell differently (`String(pk)`) get different action URLs; `1` and `"1"` spell alike |
| NodeTable.DryRunRequest | aiida_workgraph_web_ui/frontend/src/components/NodeTable.jsx:48 | the dry run is a body-less DELETE to `endpoint/delete/` followed by the row's pk text and `?dry_run=True` |
| NodeTable.DeleteRequest | aiida_workgraph_web_ui/frontend/src/components/NodeTable.jsx:60 | the confirmed delete is a body-less DELETE to `endpoint/delete/` followed by the row's pk text and nothing else |
| NodeTable.DryRunExtendsDelete | aiida_workgraph_web_ui/frontend/src/components/NodeTable.jsx:46-63 | the dry run and the real delete are DELETEs to the same path; only the dry-run query differs |
| NodeTable.EditDiff | aiida_workgraph_web_ui/frontend/src/components/NodeTable.jsx:111-113 | the diff names label exactly when the labels differ, description exactly when the descriptions differ, holds the new values and nothing else |
| NodeTable.EditDiffEmpty | aiida_workgraph_web_ui/frontend/src/components/NodeTable.jsx:111-114 | the diff is empty, so no request is sent, exactly when both label and description are unchanged |
| NodeTable.DiffOnlyEditable | aiida_workgraph_web_ui/frontend/src/components/NodeTable.jsx:111-113 | the diff only names editable columns |
| NodeTable.Stringify | aiida_workgraph_web_ui/frontend/src/components/NodeTable.jsx:117 | JSON.stringify keeps only the defined diff entries; with every value defined it keeps all of them, in order |
| NodeTable.ProcessRowUpdate | aiida_workgraph_web_ui/frontend/src/components/NodeTable.jsx:110-125 | no PUT when neither cell changed; otherwise PUT `-data/pk` with the diff; an ok response returns newRow, and no change, a non-ok response or a rejection returns oldRow |
| NodeTable.IndexOf | aiida_workgraph_web_ui/frontend/src/components/NodeTable.jsx:51 | `indexOf` gives the first strictly equal position, or -1 exactly when there is none |
| NodeTable.SpliceOne | aiida_workgraph_web_ui/frontend/src/components/NodeTable.jsx:51 | `splice(start, 1)` removes the element at start, counted from the end when start is negative and clamped to 0 below it, and removes nothing past the end |
| NodeTable.Preview | aiida_workgraph_web_ui/frontend/src/components/NodeTable.jsx:51 | the dialog lists one node fewer than the dry run returned, or none for an empty list, whether or not the root is among them |
| NodeTable.PreviewRemovesRoot | aiida_workgraph_web_ui/frontend/src/components/NodeTable.jsx:51-52 | with the root present, its first occurrence is removed and the dialog lists every other dry-run node, in order |
| NodeTable.PreviewWithoutRoot | aiida_workgraph_web_ui/frontend/src/components/NodeTable.jsx:51 | with the root absent, an empty list stays empty and otherwise loses its last element |
| NodeTable.NodeTableView.constructor | aiida_workgraph_web_ui/frontend/src/components/NodeTable.jsx:38-43 | nothing selected, no dialog, no request of its own; the hook starts as on mount |
| NodeTable.NodeTableView.Press | aiida_workgraph_web_ui/frontend/src/components/NodeTable.jsx:87-108 | delete selects the row and sends its dry run; pause or resume POSTs and refetches when the POST resolves; the dialog is untouched |
| NodeTable.NodeTableView.ReceiveDryRun | aiida_workgraph_web_ui/frontend/src/components/NodeTable.jsx:46-57 | a body with an array `deleted_nodes` opens the dialog with the target pk and its preview; anything else leaves the dialog as it was |
| NodeTable.NodeTableView.Confirm | aiida_workgraph_web_ui/frontend/src/components/NodeTable.jsx:59-63 | with a selected row it sends the DELETE and refetches; with none it throws before any request |
| NodeTable.NodeTableView.Edit | aiida_workgraph_web_ui/frontend/src/components/NodeTable.jsx:110-125 | the grid shows newRow only after an ok PUT of a non-empty diff; the PUT joins the sent requests exactly when the diff is non-empty |
| ProcessTable.ProcessActions | aiida_workgraph_web_ui/frontend/src/components/ProcessTable.jsx:21-47 | one POST per button of the table's decision table, to `endpoint/{pause\|play\|delete}/pk`, in the same order |
| ProcessTable.ActionsAgreeWithTable | aiida_workgraph_web_ui/frontend/src/components/ProcessTable.jsx:21-47 | pause and resume send what the table's own buttons send; delete is a POST to the table's DELETE URL |
| ProcessTable.EditableFieldsAgree | aiida_workgraph_web_ui/frontend/src/components/ProcessTable.jsx:6-19 | exactly label and description are editable in processColumns, and both configs list exactly those |
| ProcessTable.ConfigsDifferOnlyInPlace | aiida_workgraph_web_ui/frontend/src/components/ProcessTable.jsx:49-78 | the two pages share editable fields and differ in endpoint and link prefix |
| ProcessTable.ColumnsDiffer | aiida_workgraph_web_ui/frontend/src/components/ProcessTable.jsx:6-19 | processColumns are the table's columns without actions, except that paused is left sortable |
| NodeDetails.UpperType | aiida_workgraph_web_ui/frontend/src/components/NodeDetails.js:111 | `selectedNode.node_type?.toUpperCase()` throws exactly for a null node or a non-null non-string type, and otherwise is the upper-cased string or undefined |
| NodeDetails.ButtonDisabled | aiida_workgraph_web_ui/frontend/src/components/NodeDetails.js:134-136 | computing `isButtonDisabled` throws exactly when reading the type throws, a null node included, and a disabled button is always a graph builder |
| NodeDetails.ButtonShown | aiida_workgraph_web_ui/frontend/src/components/NodeDetails.js:171-173 | the button is rendered exactly for the upper-cased types GRAPH_BUILDER, WORKGRAPH and MAP, and rendering throws exactly when reading the type throws, a null node included |
| NodeDetails.WorkGraphClick | aiida_workgraph_web_ui/frontend/src/components/NodeDetails.js:110-129 | a click throws exactly when reading the type throws, a null node included |
| NodeDetails.NavigatesIffEnabled | aiida_workgraph_web_ui/frontend/src/components/NodeDetails.js:134-136 | a click navigates exactly when the button is shown and enabled |
| NodeDetails.GraphBuilderTarget | aiida_workgraph_web_ui/frontend/src/components/NodeDetails.js:113-119 | a graph builder goes to `/workgraph/{process.pk}` when that pk is truthy, and stays otherwise |
| NodeDetails.NestedGraphTarget | aiida_workgraph_web_ui/frontend/src/components/NodeDetails.js:120-127 | WORKGRAPH and MAP go to `/workgraph/{parentPk}[/{parentPath}]/{label}` and are never disabled |
| NodeDetails.CaseInsensitive | aiida_workgraph_web_ui/frontend/src/components/NodeDetails.js:111 | types that upper-case alike behave alike |
| NodeDetails.MissingTypeStays | aiida_workgraph_web_ui/frontend/src/components/NodeDetails.js:111 | a node without a type shows no button and does not navigate; with no node selected (null) the button test and the click throw |
| NodeDetails.RenderInputs | aiida_workgraph_web_ui/frontend/src/components/NodeDetails.js:138-159 | rendering throws exactly when the inputs are missing or null |
| NodeDetails.RenderValueLinks | aiida_workgraph_web_ui/frontend/src/components/NodeDetails.js:140-157 | an entry (`RenderValue`) renders exactly when it is an array or object, under its key, with every link under `/datanode/` |
| NodeDetails.RenderFromLinks | aiida_workgraph_web_ui/frontend/src/components/NodeDetails.js:138-159 | one item per remaining entry (`RenderFrom`), under its key, each link under `/datanode/` |
| NodeDetails.RenderInputsShape | aiida_workgraph_web_ui/frontend/src/components/NodeDetails.js:138-159 | an object renders one item per key, in order, with every link under `/datanode/` |
| ProcessSummary.PrefixFor | frontend/src/components/ProcessSummary.js:72-84 | the prefix is one of the four routes; a falsy type and a `data…` type give `/datanode`; otherwise a `…WorkGraphNode.` type gives `/workgraph`, a `…WorkChainNode.` type `/workchain`, any other string `/process`; a truthy non-string type throws |
| ProcessSummary.SuffixesExclusive | frontend/src/components/ProcessSummary.js:77-80 | no type ends in both `WorkGraphNode.` and `WorkChainNode.`, so the two suffix tests never compete |
| ProcessSummary.DataCheckComesFirst | frontend/src/components/ProcessSummary.js:74-76 | every type starting with `data` links to `/datanode`, whatever it ends in |
| ProcessSummary.WorkGraphPrefix | frontend/src/components/ProcessSummary.js:77-78 | every non-data type ending in `WorkGraphNode.` links to `/workgraph` |
| ProcessSummary.WorkChainPrefix | frontend/src/components/ProcessSummary.js:79-80 | every non-data type ending in `WorkChainNode.` links to `/workchain` |
| ProcessSummary.OtherProcessPrefix | frontend/src/components/ProcessSummary.js:81-83 | every other non-empty string type links to `/process` |
| ProcessSummary.RenderValueLinks | frontend/src/components/ProcessSummary.js:69-105 | an array links `${prefix}/${value[0]}` (`NodeIdOf`, with the type `value[2]` from `NodeTypeOf`), an object gives one child per entry, anything else renders null; every link is under the four prefixes |
| ProcessSummary.RenderFromLinks | frontend/src/components/ProcessSummary.js:67-107 | one item per remaining entry (`RenderFrom`), under its key, each link under the four prefixes |
| ProcessSummary.RenderInputsShape | frontend/src/components/ProcessSummary.js:67-107 | an object renders one item per key, in `Object.entries` order |
| ProcessSummary.NullEntryThrows | frontend/src/components/ProcessSummary.js:94-100 | a null entry anywhere makes the map throw |
| ProcessSummary.NullValueCrashes | frontend/src/components/ProcessSummary.js:94-100 | an object with a null value crashes the summary, since `typeof null` is `'object'` |
| ProcessSummary.NonStringTypeCrashes | frontend/src/components/ProcessSummary.js:74-75 | a truthy non-string node type crashes in `startsWith` |
| NodeRouter.Dispatch | aiida_workgraph_web_ui/backend/app/node_table.py:28-129 | a request reaches a route of `Routes` whose path and verb match; a path that only other verbs match gets 405, any other path 404 |
| NodeRouter.DeleteRouteAccepts | aiida_workgraph_web_ui/backend/app/node_table.py:129 | a DELETE to `/api/{prefix}/delete/{pk}` reaches the delete endpoint with that pk |
| NodeRouter.PostToDeletePathNotAllowed | aiida_workgraph_web_ui/backend/app/node_table.py:129 | a POST to the delete path is answered 405 |
| NodeRouter.DefaultReadQueryValid | aiida_workgraph_web_ui/backend/app/node_table.py:30-36 | the defaults skip 0, limit 15 and pk desc pass the declared bounds |
| NodeRouter.SortFieldsHaveColumns | aiida_workgraph_web_ui/backend/app/node_table.py:32-69 | every sort field the pattern admits is in `col_map`, which also maps status, exit_status and exit_message |
| NodeRouter.ReadPlan | aiida_workgraph_web_ui/backend/app/node_table.py:29-71 | 422 exactly outside skip ≥ 0, 0 < limit ≤ 500 and the patterns; otherwise it orders by the mapped column in the asked direction and translates a non-empty filter only |
| NodeRouter.StateField | aiida_workgraph_web_ui/backend/app/node_table.py:79 | state is None exactly when absent or empty, and otherwise the title-cased state, of the same length |
| NodeRouter.StateFieldStable | aiida_workgraph_web_ui/backend/app/node_table.py:79 | a title-cased state reports as itself |
| NodeRouter.RowOf | aiida_workgraph_web_ui/backend/app/node_table.py:73-86 | a row has exactly the ten keys in order, pk, state, label and description as stored |
| NodeRouter.ReadNodeData | aiida_workgraph_web_ui/backend/app/node_table.py:28-88 | a valid query answers the count of all matches and the rows of the slice [skip, skip+limit), at most limit of them |
| NodeRouter.TotalIndependentOfPage | aiida_workgraph_web_ui/backend/app/node_table.py:70-71 | the total does not depend on skip or limit |
| NodeRouter.Whitelisted | aiida_workgraph_web_ui/backend/app/node_table.py:102-107 | the whitelisted payload holds exactly the payload's label and description entries: each kept entry comes from the payload, and each allowed payload entry is kept |
| NodeRouter.WhitelistedConcat | aiida_workgraph_web_ui/backend/app/node_table.py:104-107 | filtering a payload by the allowed keys distributes over concatenation, so the entries are kept in payload order |
| NodeRouter.ApplyIgnoresOtherKeys | aiida_workgraph_web_ui/backend/app/node_table.py:102-107 | keys outside label and description have no effect |
| NodeRouter.UntouchedUnchanged | aiida_workgraph_web_ui/backend/app/node_table.py:103-109 | a payload without an allowed key leaves the node unchanged |
| NodeRouter.ApplyPayloadResult | aiida_workgraph_web_ui/backend/app/node_table.py:104-107 | each attribute ends as the last payload entry naming it sets it (`ApplyPayload` folds `SetAttr`), or as it was |
| NodeRouter.NodeStore.constructor | aiida_workgraph_web_ui/backend/app/node_table.py:96-97 | the nodes load_node can find |
| NodeRouter.NodeStore.UpdateNode | aiida_workgraph_web_ui/backend/app/node_table.py:91-110 | 404 and no change for an unknown id; 400 and no change without an allowed key; otherwise the node gets the payload applied in order and the answer is updated, pk = id and both fields |
| NodeRouter.LifecycleResponse | aiida_workgraph_web_ui/backend/app/node_table.py:113-127 | a failure gives 500 with its message; otherwise "Paused …" or "Resumed …" ending in the id |
| NodeRouter.DeleteMessage | aiida_workgraph_web_ui/backend/app/node_table.py:137-140 | the message starts "Deleted " exactly when delete_nodes reports ok, "Did not delete " exactly otherwise, and ends in the dry-run mark exactly for a dry run |
| NodeRouter.DeleteResponse | aiida_workgraph_web_ui/backend/app/node_table.py:129-144 | deleted equals ok, the nodes are passed through, the message starts "Deleted " or "Did not delete " accordingly and carries the dry-run mark exactly for a dry run; an exception gives 500 |
| DataNode.SortFieldsMatchColumns | aiida_workgraph_web_ui/backend/app/datanode.py:14-46 | the sort pattern and the column map name the same four fields; the defaults are valid |
| DataNode.FiltersFor | aiida_workgraph_web_ui/backend/app/datanode.py:24-29 | `node_type` is filtered exactly when typeSearch is given and non-empty (`Given`), `label` exactly when labelSearch is, each with `like %…%`, and no other key |
| DataNode.BuildFilters | aiida_workgraph_web_ui/backend/app/datanode.py:24-29 | the incremental dict equals FiltersFor |
| DataNode.DataReadPlan | aiida_workgraph_web_ui/backend/app/datanode.py:8-49 | 422 exactly outside the bounds and patterns; otherwise the filters, the mapped order column and direction, offset and limit |
| DataNode.DataRowOf | aiida_workgraph_web_ui/backend/app/datanode.py:51-60 | a row has exactly the keys pk, uuid, ctime, node_type, label |
| DataNode.ReadDatanodeData | aiida_workgraph_web_ui/backend/app/datanode.py:8-61 | a valid query answers the count of all matches and the rows of the slice [skip, skip+limit) |
| DataNode.DeleteDataNode | aiida_workgraph_web_ui/backend/app/datanode.py:77-103 | a deletion says "Deleted data node id" without a mark; otherwise "Did not delete data node id" with " [dry-run]" exactly for a dry run; nodes are passed through; an exception gives 500 |
| GroupNode.Zip | aiida_workgraph_web_ui/backend/app/group_node.py:19 | zip pairs up to the shorter of keys and row |
| GroupNode.DictFromPairs | aiida_workgraph_web_ui/backend/app/group_node.py:19 | `dict(…)` has no repeated key |
| GroupNode.DictFromDistinctPairs | aiida_workgraph_web_ui/backend/app/group_node.py:19 | pairs with distinct keys become the dict unchanged |
| GroupNode.DictFromPairsLookup | aiida_workgraph_web_ui/backend/app/group_node.py:19 | each key of the dict holds the value paired with it last |
| GroupNode.SetItem | aiida_workgraph_web_ui/backend/app/group_node.py:21-22 | `d[k] = v` keeps the key order, appending k only when it is new, and keeps keys distinct |
| GroupNode.SetItemLookup | aiida_workgraph_web_ui/backend/app/group_node.py:21-22 | `d[k] = v` sets k and leaves every other key |
| GroupNode.PopItem | aiida_workgraph_web_ui/backend/app/group_node.py:21 | `pop` raises KeyError exactly for a missing key |
| GroupNode.PopItemRemoves | aiida_workgraph_web_ui/backend/app/group_node.py:21 | after `pop` the key is gone |
| GroupNode.PopItemValue | aiida_workgraph_web_ui/backend/app/group_node.py:21 | `pop` returns the stored value |
| GroupNode.PopItemLeavesOthers | aiida_workgraph_web_ui/backend/app/group_node.py:21 | `pop` leaves every other key |
| GroupNode.RowToDictContents | aiida_workgraph_web_ui/backend/app/group_node.py:19-22 | a row converts (`RowToDict`, which zips and then runs `MoveId`) exactly when id is projected; then pk holds the id, ctime is time_ago of time, id is gone and every other column is kept |
| GroupNode.NoProjectionRaises | aiida_workgraph_web_ui/backend/app/group_node.py:19-21 | with `project=None` every row raises KeyError |
| GroupNode.IdFirstMoveId | aiida_workgraph_web_ui/backend/app/group_node.py:21-22 | a dict with id first becomes its other entries, then pk, then ctime |
| GroupNode.GroupRowDict | aiida_workgraph_web_ui/backend/app/group_node.py:7-22 | with the group projection a row becomes uuid, time, label, description, pk, ctime |
| GroupNode.ProjectedDataToDict | aiida_workgraph_web_ui/backend/app/group_node.py:10-24 | one dict per row in row order, or a KeyError exactly when some row raises |
| Integration.UndefinedNotTerminal | aiida_workgraph_web_ui/frontend/src/components/NodeTable.jsx:89 | the text "undefined" matches no terminal state |
| Integration.BackendRowLacksTableFields | aiida_workgraph_web_ui/backend/app/node_table.py:73-86 | a backend row has no `process_state` and no `paused` |
| Integration.BackendRowActions | aiida_workgraph_web_ui/frontend/src/components/NodeTable.jsx:87-108 | every backend row is offered exactly pause and delete |
| Integration.BackendRowPk | aiida_workgraph_web_ui/backend/app/node_table.py:75 | the table spells a backend row's pk as its decimal digits |
| Integration.PageShownInTable | aiida_workgraph_web_ui/frontend/src/components/useNodeTable.js:18-19 | a page the endpoint answers fills the table with its rows and the count of all matches; a 422 leaves neither |
| Integration.SortableColumnsAccepted | aiida_workgraph_web_ui/frontend/src/components/NodeTable.jsx:66-84 | every sortable grid column is a sort field the endpoint accepts |
| Integration.HookQueryValid | aiida_workgraph_web_ui/frontend/src/components/useNodeTable.js:11-16 | a query from a grid page size and a grid sort passes the endpoint's validation |
| Integration.PauseReachesRoute | aiida_workgraph_web_ui/backend/app/node_table.py:113 | POST `/pause/{pk}` reaches pause with pk |
| Integration.PlayReachesRoute | aiida_workgraph_web_ui/backend/app/node_table.py:121 | POST `/play/{pk}` reaches play with pk |
| Integration.EditReachesRoute | aiida_workgraph_web_ui/backend/app/node_table.py:91 | PUT `-data/{pk}` reaches update_node with pk |
| Integration.RowPauseRouted | aiida_workgraph_web_ui/frontend/src/components/NodeTable.jsx:104 | a row's pause request is routed to pause with its pk |
| Integration.RowDeleteRouted | aiida_workgraph_web_ui/frontend/src/components/NodeTable.jsx:59-60 | a row's confirmed delete is routed to delete with its pk |
| Integration.BackendRowRequestsRouted | aiida_workgraph_web_ui/frontend/src/components/NodeTable.jsx:87-108 | a backend row's pause and delete URLs are the routes for its pk |
| Integration.ProcessActionsDeleteRejected | aiida_workgraph_web_ui/frontend/src/components/ProcessTable.jsx:43-44 | the process page's delete button POSTs to the delete path, which answers 405 |
| Integration.RowProcessDeleteRejected | aiida_workgraph_web_ui/frontend/src/components/ProcessTable.jsx:43-44 | the same for any row offered pause and delete |
| Integration.AsPayload | aiida_workgraph_web_ui/backend/app/node_table.py:94 | the PUT body read as `Dict[str, str]`, entry by entry |
| Integration.EditDiffOfStrings | aiida_workgraph_web_ui/frontend/src/components/NodeTable.jsx:111-113 | for string cells the diff is the changed label, then the changed description |
| Integration.ApplyLabelDescription | aiida_workgraph_web_ui/backend/app/node_table.py:104-107 | the update applies label, description or both as given |
| Integration.EditPayload | aiida_workgraph_web_ui/frontend/src/components/NodeTable.jsx:117 | the stringified diff of string cells is the payload of the changed fields |
| Integration.BodyOfDiff | aiida_workgraph_web_ui/frontend/src/components/NodeTable.jsx:117 | stringifying such a diff keeps every entry, as strings |
| Integration.ApplyExpected | aiida_workgraph_web_ui/backend/app/node_table.py:104-109 | applying the changed fields yields the new values, and touches exactly when something changed |
| Integration.EditRoundTrip | aiida_workgraph_web_ui/frontend/src/components/NodeTable.jsx:110-121 | an edit sent by the table and applied by update_node leaves the node with exactly the values the grid shows; the endpoint answers 400 exactly when the diff is empty |

## Left out

- Rendering is not modelled: JSX, styling, MUI props, the `MuiPagination` wrapper, toasts, `SyntaxHighlighter`, and the text of the dialog. The model keeps the branch taken, the items rendered and the requests issued.
- `ConfirmModal` lives in WorkGraphModals.js, which is not part of this model. Only the two callbacks the table hands it are modelled: a confirm is `Confirm`, and a close is `Dismiss` (`setShow(false)`), which hides the dialog and keeps its contents.
- The `columnVisibilityModel` the table reads from the hook does not exist in the hook (it is undefined). It only affects rendering.
- Asynchrony is modelled by outcomes. Each response is an atomic outcome applied when it arrives. The hook's responses can arrive in any order (`LastResponseWins`), and the code has no request sequencing. The quick filter's debounce delay is timing and is left out.
- `encodeURIComponent(JSON.stringify(filterModel))` is an opaque string. The backend's `translate_datagrid_filter_json` and the query builder's filtering and ordering are given as the ordered sequence of matches.
- AiiDA's `load_node`, `pause_processes`, `play_processes` and `delete_nodes` are given as outcomes: a store of nodes, a failure message, or a deletion outcome. `load_node` finds a node of any class, not only `node_cls`. `time_ago` is a function parameter.
- NodeRouter.NodeStore.UpdateNode: payload values are strings, as the `Dict[str, str]` body declares. FastAPI's coercion of a non-string JSON value is not modelled.
- NodeRouter.ReadPlan: FastAPI's 422 body is reduced to its status code.
- Numbers are integers. JSON numbers are only pks and counts here, and floating point is not modelled.
- Paging.FirstPagesArePrefix: assumes every page is cut from one snapshot of the matches in one strict total order. The read orders by a single column with no tie-breaker (node_table.py:69, datanode.py:46), and the database may change between requests, so across separate requests rows with equal sort keys can move between pages.
- Paging.AllPagesCoverMatches: assumes the same single snapshot and strict total order as FirstPagesArePrefix; the source guarantees neither.
- Values.Entries: an object's entries are listed in the order the JSON text gives them. JavaScript lists keys that are canonical array indices ("0", "1", …) first, in ascending numeric order. The objects walked are AiiDA input and output namespaces, whose keys are port names, Python identifiers that are never array indices, so the orders agree there. The key order stated by RenderInputsShape and RenderFromLinks in NodeDetails and ProcessSummary rests on this.
- NodeTable.IndexOf and NodeTable.EditDiff compare JSON values structurally. JavaScript's `===` compares arrays and objects by identity; `deleted_nodes` holds integers (node_table.py:132) and the edited cells are strings, so the two agree on every value these functions see.
- Text.Title: like `Text.ToUpper`, it treats only ASCII letters as cased, where Python's `str.title()` is Unicode-aware. AiiDA process states are ASCII words.
- UseNodeTable.NodeTableHook: `endpointBase` is fixed when the hook is created. App.js renders the same table component under several routes, and a route change that keeps the component mounted would refetch from the new base with the old state; that re-render is not modelled.
- `Text.ToUpper` upper-cases ASCII letters only. JavaScript's full Unicode case mapping is left out: node types are ASCII.
- group_node.py passes `project=` and `get_data_func=` to `make_node_router`, whose shown signature takes neither. The router is modelled with the shown signature, and `projected_data_to_dict` on its own. The group node item route and the routes of process.py and workchain.py are library calls and are left out.
- `NodeDetails` metadata rows and executor code are rendering of given data and are left out.
- NodeTable.NodeTableView.Press: `action(url)` is called without a `catch`. A rejected POST ends in an unhandled rejection with no refetch, which is the `resolved = false` case.
- DataNodeTable.js, WorkGraphTable.jsx, App.js, ProcessItem.tsx and the test fixtures are routing glue, I/O or test plumbing, and are not modelled.

## Verifying

```
dafny verify --resource-limit 2000000 --verification-time-limit 0 --warn-contradictory-assumptions *.dfy
```
