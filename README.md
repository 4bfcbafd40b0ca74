# Pipeline editor core, modelled in Dafny

The system is a browser editor for dataflow pipelines. The user drops typed nodes on a canvas and
wires them with edges. The user can also author custom node types: a name, two colours, input and
output ports, and typed fields. A submit button sends the graph to a small backend, which counts
the nodes and edges and reports whether the graph is a DAG.

This project models that core in Dafny and proves properties of the model:

- `wrappers.dfy` (`Wrappers`): the `Option` and `Result` datatypes.
- `text.dfy` (`Text`) has three parts:
  - decimal rendering of naturals, as JavaScript template strings write them into ids and alerts,
    proved injective, and a reader that parses the digits back;
  - the JavaScript `trim()` whitespace set;
  - prefix and suffix facts about concatenation.
- `store.dfy` (`GraphStore`): the zustand graph store, as the class `Store`. Its fields are
  `nodes`, `edges`, `customNodeTypes` and the per-type counters `nodeIDs`. Each method replaces
  one field copy-on-write. The module also holds `getInitNodeData`, a pure function of its
  arguments and the registry. The ghost predicate `Store.Tracked` says that every node id was
  issued by `getNodeID` and that no two nodes share an id. The constructor establishes it, and
  `Store.UpdateNodeField` and `Ui.OnDrop` preserve it. `Store.AddNode` on its own does not
  preserve it, because it appends any node without checking the id. `GetNodeID` never reissues
  an id.
- `cycles.dfy` (`Cycles`): the backend's `has_cycle`.
  - The class `CycleSearch` holds the `path` and `visited` sets that the recursive `Dfs` mutates.
  - `Dfs` is proved sound: when it reports a cycle, a closed walk exists.
  - It is proved complete through a ghost finishing rank. Every finished node is ranked above
    all its successors, so no cycle is reachable from `visited`.
  - `HasCycle` returns true exactly when some node reaches itself by one or more edges.
- `pipeline.dfy` (`Pipeline`): the body of `parse_pipeline`.
  - The two loops that fill the adjacency dict are proved against the prefix-recursive
    definitions `DeclareNodes` and `AppendEdges`.
  - Lemmas state what those definitions mean: which payloads are accepted, the keys, and the
    adjacency lists in order.
  - `Serve` models the route's reply: status 200 with the summary, or status 500.
- `node_config.dfy` (`NodeConfig`): the custom-type authoring modal.
  - The class `NodeConfigModal` holds the `config` and `newField` state, with one method per edit.
  - `Save` is the validation and id filling of `handleSave`.
- `submit.dfy` (`Submit`) covers the submit button:
  - the `{nodes:[{id}], edges:[{source,target}]}` payload;
  - the text of the result alert and the error alert;
  - a reader that parses an analysis alert back into the summary it reports, with a proved round trip;
  - an end-to-end lemma: when every edge leaves a node of the store, the alert reports the store's
    own node and edge counts and whether the store's graph has no cycle; otherwise it is the
    `HTTP error! status: 500` alert.
- `ui.dfy` (`Ui`): the canvas's `onDrop` decision logic, over a `Store`.

### What the code does not do

- The code has no template-variable ports.
- It does not propagate content from upstream nodes into sink nodes.
- It has no cascading delete or rename of custom types.
- Port ids need not be unique within a custom type. The modal numbers a new port by the current
  list length, so after a removal a new port can repeat a surviving id: see
  `NodeConfig.InputIdRepeatsAfterRemoval`.

## Model

| member | source | states |
|---|---|---|
| GraphStore.IdOfInjective | src/store.js:23 | an id `${type}-${n}` determines both the type and the counter value, because the digits after the last `-` cannot reach into the type name |
| GraphStore.Store.constructor | src/store.js:11-14 | the store starts with no nodes, no edges, an empty registry and no counters; the id invariant holds |
| GraphStore.Store.GetNodeID | src/store.js:16-24 | only `nodeIDs[t]` changes, by exactly one from its previous value (0 when absent); the result is `t-<new counter>`, which is `t-1` for a fresh type; the returned id was never issued before; every id issued before stays issued |
| GraphStore.Store.AddNode | src/store.js:25-29 | `nodes == old(nodes) + [n]`, with no uniqueness check; edges, registry and counters are unchanged |
| GraphStore.SetFieldValue | src/store.js:58-67 | the updated node keeps its id, type and every data key except `fieldValues`; `fieldValues[fieldName] == value`; every other key is as in the old `fieldValues`, which counts as empty when missing |
| GraphStore.WithFieldValue | src/store.js:56-69 | same length and order; a node whose id differs is unchanged; a matching node is updated as by `SetFieldValue`; every id is kept |
| GraphStore.WithFieldValueUnknownId | src/store.js:56-69 | an update addressed to an id no node has leaves the node list value-equal |
| GraphStore.Store.UpdateNodeField | src/store.js:54-71 | `nodes` becomes `WithFieldValue` of the old list; edges, registry and counters are unchanged; the id invariant is preserved |
| GraphStore.Store.AddNodeType | src/store.js:72-79 | `customNodeTypes[c.nodeType] := c`, overwriting any entry; other keys and the other fields are unchanged |
| GraphStore.InitNodeData | src/store.js:80-115 | the data id is the node id. A carried config for type `custom` wins; otherwise a registered name gives a `custom` instance of its schema, named by the type; otherwise the result is `{id, type, nodeType: type}`. Both custom branches start with empty field values and `[]` for missing lists |
| GraphStore.RegisterThenInstantiate | src/store.js:96-108 | after registering `c`, instantiating `c.nodeType` by name without a carried config yields exactly `c`'s schema with empty field values |
| Cycles.Succ | backend/main.py:36 | a node that is not a key has no successors; a key's successors are its list |
| Cycles.RankedWalkDescends | backend/main.py:41-42 | along a walk from a finished node, every node is finished and the finishing rank drops by at least one per step |
| Cycles.VisitedReachesNoCycle | backend/main.py:31-32 | a walk from a finished node never repeats a node, so no cycle is reachable from `visited` |
| Cycles.AllKeysVisitedAcyclic | backend/main.py:45-49 | once every key is finished without a hit, the graph has no cycle |
| Cycles.ClosingEdgeCycle | backend/main.py:29-30 | an edge from the top of the recursion stack to a node on the stack closes a cycle |
| Cycles.FinishKeepsRanked | backend/main.py:41-42 | finishing a node whose successors are all finished keeps `visited` closed under successors, with ranks decreasing along edges |
| Cycles.CycleSearch.constructor | backend/main.py:25-26 | both sets start empty |
| Cycles.CycleSearch.Dfs | backend/main.py:28-43 | `path` is exactly the set of nodes on the recursion stack and stays disjoint from `visited`; a `True` result means the graph has a cycle; on `False`, `path` is restored, `visited` only grows and contains the node, and the finished set stays rank-certified |
| Cycles.HasCycle | backend/main.py:21-49 | the result is true exactly when some node reaches itself by one or more edges, whatever the order in which keys are visited |
| Cycles.EmptyGraphAcyclic | backend/main.py:45-49 | the empty graph has no cycle |
| Cycles.SelfLoopCyclic | backend/main.py:34-38 | a node listed among its own neighbours is a cycle |
| Cycles.NonKeyOnNoCycle | backend/main.py:36 | every node on a cycle is a key, because a non-key has no out-edges |
| Pipeline.DeclareNodesMeaning | backend/main.py:59-61 | the node loop succeeds exactly when every node object has an `id`; the keys are then exactly the declared ids, each with an empty list |
| Pipeline.AppendEdgesSucceeds | backend/main.py:63-66 | the edge loop succeeds exactly when every edge has `source` and `target` and a declared source; the target is never checked; no key is added |
| Pipeline.AppendEdgesMeaning | backend/main.py:63-66 | on success, each key's list gains the targets of the edges leaving it, in order and with duplicates |
| Pipeline.DeclareNodesStops | backend/main.py:59-61 | the first node without an id decides the outcome |
| Pipeline.AppendEdgesStops | backend/main.py:63-66 | the first rejected edge decides the outcome |
| Pipeline.ParsePipeline | backend/main.py:52-79 | the result is `PipelineResult(data)`: an undecodable payload, a missing key or an undeclared source is an error; otherwise the counts are the list lengths, duplicates included, and `isDag` is the negation of `Cyclic` of the built graph |
| Pipeline.Serve | backend/main.py:79-83 | a summary is answered with status 200 and the summary as body; any error with status 500 |
| NodeConfig.InitialDraft | src/commons/NodeConfigModal.js:12-20 | each string key is copied when present and non-empty, else `''`, `#be87fe` or `#150536`; each list is copied when present, else `[]`; the colours are never empty; `fieldValues` is `{}` |
| NodeConfig.NodeConfigModal.constructor | src/commons/NodeConfigModal.js:12-26 | the draft is the initial config and the new-field draft is `{type: 'text', label: '', options: []}` |
| NodeConfig.WithoutIdMembers | src/commons/NodeConfigModal.js:37 | removal keeps exactly the entries whose id differs |
| NodeConfig.WithoutIdConcat | src/commons/NodeConfigModal.js:50 | removal keeps the survivors in order: removing from a concatenation concatenates the removals |
| NodeConfig.WithoutId | src/commons/NodeConfigModal.js:81 | removal never lengthens a list, and is the identity when no entry has the id |
| NodeConfig.FieldFrom | src/commons/NodeConfigModal.js:57-65 | the new field is `field-n` with the draft's type and label; it has options, the draft's, exactly when its type is `select` |
| NodeConfig.SetOptionKey | src/commons/NodeConfigModal.js:95 | only the chosen key of the option changes |
| NodeConfig.FillPortIds | src/commons/NodeConfigModal.js:112-119 | same length and labels; a non-empty id is kept; an empty id becomes `prefix-i`, its position; afterwards no id is empty |
| NodeConfig.FillFieldIds | src/commons/NodeConfigModal.js:108-111 | same length; every field is unchanged except an empty id, which becomes `field-i`; afterwards no id is empty |
| NodeConfig.FillIdsIdempotent | src/commons/NodeConfigModal.js:106-120 | filling ids a second time changes nothing |
| NodeConfig.Save | src/commons/NodeConfigModal.js:100-122 | nothing is saved exactly when the type name is empty or only whitespace after `trim()`; otherwise the untrimmed name, the colours and the three id-filled lists are saved |
| NodeConfig.InputIdRepeatsAfterRemoval | src/commons/NodeConfigModal.js:28-39 | adding two inputs, removing the first and adding another leaves two inputs both called `input-1` |
| NodeConfig.NodeConfigModal.AddInput | src/commons/NodeConfigModal.js:28-33 | exactly one input `{id: input-n, label: Input n+1}` is appended, n the old length; everything else is unchanged |
| NodeConfig.NodeConfigModal.RemoveInput | src/commons/NodeConfigModal.js:34-39 | the inputs become `WithoutId` of the old inputs; everything else is unchanged |
| NodeConfig.NodeConfigModal.AddOutput | src/commons/NodeConfigModal.js:41-46 | exactly one output `{id: output-n, label: Output n+1}` is appended; everything else is unchanged |
| NodeConfig.NodeConfigModal.RemoveOutput | src/commons/NodeConfigModal.js:47-52 | the outputs become `WithoutId` of the old outputs; everything else is unchanged |
| NodeConfig.NodeConfigModal.AddField | src/commons/NodeConfigModal.js:54-77 | with an empty label nothing changes; otherwise `FieldFrom(newField, n)` is appended and the new-field draft is reset |
| NodeConfig.NodeConfigModal.RemoveField | src/commons/NodeConfigModal.js:78-83 | the fields become `WithoutId` of the old fields; everything else is unchanged |
| NodeConfig.NodeConfigModal.AddSelectOption | src/commons/NodeConfigModal.js:85-90 | one empty option is appended to the new-field draft |
| NodeConfig.NodeConfigModal.UpdateSelectOption | src/commons/NodeConfigModal.js:92-98 | only key k of option i changes; the other options, the type and the label are unchanged |
| NodeConfig.NodeConfigModal.HandleSave | src/commons/NodeConfigModal.js:100-123 | hands `onSave` exactly `Save(config)`, or nothing |
| Submit.NodeObject | src/submit.js:16 | a node is sent as an object with the single key `id` |
| Submit.EdgeObject | src/submit.js:17-20 | an edge is sent as an object with exactly the keys `source` and `target` |
| Submit.PipelinePayload | src/submit.js:15-21 | both lists keep the store's length and order; each entry carries only the projected keys |
| Submit.ResultMessage | src/submit.js:41-45 | the alert starts with the analysis header; it ends with the cycle warning exactly when the pipeline is not a DAG, and with "Pipeline structure is valid!" exactly when it is |
| Submit.ClosingEnds | src/submit.js:45 | the two closing lines exclude each other, and the one shown is chosen by `is_dag` |
| Submit.ReportedResultMessage | src/submit.js:41-44 | reading the alert back gives the summary it was made from: the node count follows "Number of Nodes: ", the edge count follows "Number of Edges: ", and the answer is "Yes" exactly for a DAG |
| Submit.ResultMessageInjective | src/submit.js:41-44 | the alert determines the node count, the edge count and the Yes/No answer it reports |
| Submit.SubmitAlertKinds | src/submit.js:35-51 | the alert starts with "Error submitting pipeline: " exactly when `fetch` rejected, the status was not 2xx, or the body did not decode; otherwise it is the analysis of the body |
| Submit.PayloadDeclares | src/submit.js:16 | every projected node has an id, so the backend's node loop succeeds and declares exactly the store's node ids |
| Submit.PayloadAccepted | src/submit.js:17-20 | a projected edge is accepted by the backend exactly when its source is declared |
| Submit.PayloadGraph | src/submit.js:15-21 | the backend accepts the payload exactly when every edge leaves a node of the store; the graph it then builds is the store's own graph |
| Submit.SubmitAgainstBackend | src/submit.js:11-47 | against the backend, the alert reports the store's node and edge counts and whether the store's graph has no cycle; if some edge leaves a non-node, it reports HTTP status 500 |
| Submit.SubmitButton.constructor | src/submit.js:9 | the button starts not loading |
| Submit.SubmitButton.HandleSubmit | src/submit.js:11-55 | the alert is `SubmitAlert` of the reply to the projected payload; the loading flag is cleared in every outcome |
| Ui.NewNode | src/ui.js:72-79 | the node and its data carry the issued id; the node's type is `custom` exactly when a config was carried, else the dropped type; the data is `getInitNodeData` for the dropped type |
| Ui.TypeTagsAgree | src/ui.js:76 | the rendered type and the data's type agree exactly when no registered name is dropped bare and no config comes with a plain type |
| Ui.CustomDropInstance | src/ui.js:72-78 | a custom palette item takes its id from the shared `custom` counter whatever its name, while its data names the type and copies its schema |
| Ui.OnDrop | src/ui.js:48-84 | with no flow instance, or a payload that does not parse, nothing changes and no id is used; otherwise exactly the dropped type's counter advances once and exactly one node is appended; edges and registry are unchanged; the id invariant is preserved |

## Left out

- `onNodesChange`, `onEdgesChange` and `onConnect` (src/store.js:30-53): they hand the lists to
  reactflow's `applyNodeChanges`, `applyEdgeChanges` and `addEdge`, which are not part of this
  model. Edges are an opaque list that no modelled operation changes.
- Node positions, the drop's bounding-rectangle arithmetic and `project()`: floating-point view
  geometry.
- `JSON.parse`, `JSON.stringify`, the URL query string and FastAPI's decoding. A payload that does
  not parse is `None`. The transport in `HandleSubmit` is a function parameter. The end-to-end
  lemma assumes the JSON round trip of strings is lossless.
- `fetch`, `alert`, `console.log`, Python's `print`, CORS and the FastAPI route: I/O. The submit
  button's alerts are returned as strings. The modal's `alert('Node type name is required')` is
  represented only by `None` from `NodeConfig.Save` and `NodeConfig.NodeConfigModal.HandleSave`;
  the message text is not modelled.
- React rendering, including the JSX half of the modal and the setters its form widgets call on
  each keystroke. The palette, the toolbar and the node components are not part of this model.
- Field values are modelled as strings, the only kind the modelled code writes.
- Registry lookups ignore keys inherited from `Object.prototype` (such as `toString`), which would
  make `state.customNodeTypes[type]` truthy for a type of that name.
- A drag payload that parses but lacks `nodeType` (so JavaScript's `undefined` would be used) is
  not modelled; parsed payloads always carry a type.
- Cycles.HasCycle: Python's recursion limit (1000 frames by default) is not modelled. In Python, a
  walk deeper than the limit raises `RecursionError` inside the `try`, and the route answers
  HTTP 500. The model has no limit and returns a verdict for every graph, so `Cycles.CycleSearch.Dfs`,
  `Pipeline.ParsePipeline` and `Submit.SubmitAgainstBackend` promise a verdict for such graphs too.
- GraphStore.Store.GetNodeID: counters are unbounded naturals. JavaScript numbers stop increasing
  at 2^53, after which `+= 1` would reissue an id. The "never reissued" guarantee holds only below
  that bound.
- Cycles.HasCycle: Python visits the dict's keys in insertion order, while the model picks them in
  any order. The verdict is proved not to depend on the order.
- Pipeline.Serve: the 500 reply's `detail` text (`str(e)`) is a fixed placeholder, because the
  submit button never reads the body of a failed reply.
- NodeConfig.Save: the saved descriptor omits the draft's `fieldValues: {}` key, which no consumer
  of a registered type reads.
- NodeConfig.NodeConfigModal.UpdateSelectOption: requires an index inside the option list, since
  its only caller edits an existing option. A JavaScript write past the end would pad the array
  with holes, which the model does not represent.
- Submit.SubmitButton.HandleSubmit: the button is disabled while loading, which prevents a second
  submission from overlapping the first. Interleaved submissions are not modelled.
- Template-variable ports, content propagation, and custom-type delete or rename cascades: none of
  these exists in the modelled code.
