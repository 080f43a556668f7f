# Workflow builder: the editor's graph logic and the chat handler

This project models the stateable logic of a browser workflow editor. In the
editor you drop "User Query", "KnowledgeBase", "LLM Engine" and "Output" nodes
on a canvas and wire them together. A chat panel then sends the graph and a
question to a backend. Everything is modelled as immutable records and pure
functions:

- `Workflow` holds the data model. Nodes have an id, a type, a
  position (copied from the graph library, never inspected) and a `data` map from field names to string or boolean values.
  Edges are modelled as (source id, target id) pairs. The module also holds
  the two first-match `find` searches the validator uses.
- `Validation` models `validateWorkflow`. It has three ordered outcomes: a
  missing "LLM Engine" or "Output" label, an unconnected first engine, or
  valid. The check is related to `Wired`, an index-based reference
  definition, in both directions.
- `Decimal` and `Editor` hold the rest of the editor. `Decimal` gives the
  decimal spelling of the id counter and its inverse. `Editor` models the
  module-level id counter, the drop handler and `updateNodeData`. It also
  states the invariant these operations keep: node ids are unique, and the
  counter is ahead of all of them.
- `JsString` models JavaScript's `trim`, which is the chat handler's
  blank-query guard.
- `Chat` models `handleSendMessage` as a transition on
  `(history, query, isLoading)`. The HTTP result is passed in as a
  parameter: `Answered(answer)` or `Failed(detail?)`. The handler is split
  into its synchronous half (`BeginSend`) and its completion
  (`FinishSend`).

## Model

| member | source | states |
|---|---|---|
| Decimal.FromNat | src/App.jsx:36 | the id text is a non-empty digit string, and it has a leading zero only for 0 |
| Decimal.ToNatFromNat | src/App.jsx:35-36 | reading an id text back as a number gives the counter value it was made from |
| Decimal.FromNatInjective | src/App.jsx:35-36 | two counter values give the same id text exactly when they are equal |
| Workflow.FindLabelled | src/App.jsx:53 | label search returns nothing exactly when no node has the label; otherwise it returns the first such index, and no earlier node has the label |
| Workflow.FindById | src/App.jsx:54 | id search returns nothing exactly when no node has the id; otherwise it returns the first index with that id |
| Workflow.FindLabelledAppend | src/App.jsx:53 | after a successful label search, appending nodes leaves its result unchanged |
| Workflow.FindByIdAppend | src/App.jsx:54 | after a successful id search, appending nodes leaves its result unchanged |
| Validation.Validate | src/App.jsx:45-61 | a missing engine or Output label gives invalid with the "must contain" message. With both labels present and no wiring, the result is invalid with the "must be connected" message. The result is valid, with "Workflow is valid.", exactly when the first engine is the source of an edge whose first id-matching target is labelled Output |
| Validation.ValidAfterAddingEdges | src/App.jsx:54 | adding edges to a valid workflow keeps it valid |
| Validation.ValidAfterAddingNodes | src/App.jsx:53-54 | appending nodes to a valid workflow keeps it valid |
| Validation.IrrelevantEdgeUnchanged | src/App.jsx:53-58 | an added edge that does not link the first engine to an Output node leaves the status unchanged |
| Validation.DanglingEdgeIgnored | src/App.jsx:54 | an added edge whose target id matches no node leaves the status unchanged |
| Validation.OnlyFirstEngineCounts | src/App.jsx:53-54 | an added edge from any node other than the first engine, including a second engine, leaves the status unchanged |
| Validation.ValidateReadsIdsAndLabels | src/App.jsx:46-54 | two node lists that agree at each index on ids and labels get the same status |
| Validation.WiredExampleIsValid | src/App.jsx:45-61 | User Query, KnowledgeBase, and an engine wired to Output is valid |
| Validation.NoEngineExampleIsInvalid | src/App.jsx:46-51 | a graph without an engine is invalid with the "must contain" message |
| Validation.SecondEngineExampleIsInvalid | src/App.jsx:53-58 | with two engines where only the second is wired to Output, the graph is reported unconnected |
| Editor.GetId | src/App.jsx:35-36 | the id is the shortest decimal spelling of the current counter: a non-empty digit string whose value is the counter, with no leading zero unless the counter is 0; the counter goes up by one |
| Editor.GetIdFresh | src/App.jsx:31-36 | ids drawn at different counter values (both at least 2) differ, and none equals the seeded id "1" |
| Editor.InitialValid | src/App.jsx:31-36 | the seeded canvas satisfies the id invariant |
| Editor.OnDrop | src/App.jsx:81-92 | an empty type changes nothing. Any other type appends exactly one node at the end, with that type and position, data `{label}` and the counter's id; the edges stay the same and the counter goes up by one |
| Editor.OnDropValid | src/App.jsx:84-89 | a drop keeps ids unique and issued, and the new id differs from every existing id |
| Editor.OnDropKeepsWorkflowValid | src/App.jsx:72-89 | a drop never makes a valid workflow invalid |
| Editor.DropExample | src/App.jsx:84-89 | a KnowledgeBase dropped on the seeded canvas at (100, 100) becomes node "2" at that position |
| Editor.MergeData | src/App.jsx:108 | id, type and position are kept. Data keys are the union of both key sets; newData values win, and other old values are kept |
| Editor.UpdateNodeData | src/App.jsx:104-112 | length and order are kept, nodes with other ids are untouched, and each node with the id is merged |
| Editor.MergeTwice | src/App.jsx:108 | merging a then b is the same as merging the union of a and b, with b winning |
| Editor.UpdateTwice | src/App.jsx:104-112 | two updates of a node equal one update with the later fields winning, so a repeated update is idempotent |
| Editor.UpdateNodeDataValid | src/App.jsx:104-112 | an update keeps the id invariant |
| Editor.UpdateKeepsStatus | src/App.jsx:104-112 | an update whose newData has no `label` field leaves the validation status unchanged |
| JsString.Trim | src/ChatModal.jsx:14 | the trimmed text is a contiguous slice of the input with only whitespace around it, and neither of its ends is whitespace |
| JsString.TrimEmptyIffBlank | src/ChatModal.jsx:14 | the trimmed query is empty exactly when every character is ECMAScript whitespace or a line terminator |
| Chat.ErrorDetail | src/ChatModal.jsx:39 | a present non-empty detail is used as is; a missing or empty one gives "An unexpected error occurred."; the result is never empty |
| Chat.Reply | src/ChatModal.jsx:37-40 | the reply is a bot message: the answer on success, "Error: " plus the detail on failure |
| Chat.ToPayload | src/ChatModal.jsx:23-31 | the payload has one node per node, in order, each with only id, type and data; edges and query are unchanged |
| Chat.PayloadIgnoresPositions | src/ChatModal.jsx:23-28 | node lists that differ only in position produce the same payload |
| Chat.BeginSend | src/ChatModal.jsx:12-31 | a blank query starts nothing. Otherwise the user message is appended, the query is cleared, loading is set, and the payload carries the original query |
| Chat.FinishSend | src/ChatModal.jsx:36-43 | exactly one bot entry is added after the history captured at the start: the answer on success, or "Error: " plus the detail on failure; the query is kept and loading is cleared |
| Chat.HandleSendMessage | src/ChatModal.jsx:12-44 | a blank query leaves the state unchanged. Otherwise exactly two entries are added after an unchanged prefix: the user's query and the bot reply (the answer, or "Error: " plus the detail). The query is cleared and loading ends false |
| Chat.InitialWellFormed | src/ChatModal.jsx:7 | the empty transcript is well formed |
| Chat.ExchangeWellFormed | src/ChatModal.jsx:16-40 | a non-blank question followed by a bot reply extends a well-formed transcript to a well-formed one |
| Chat.HandleSendMessageWellFormed | src/ChatModal.jsx:12-44 | every send keeps the transcript well formed: user and bot entries alternate starting with the user, and user entries are non-blank |
| Chat.FailureExample | src/ChatModal.jsx:39-40 | a failure with detail "x" ends the transcript with "Error: x" |

## Left out

- Rendering is not modelled: JSX, icons, CSS, the sidebar palette and the chat modal's visibility (src/App.jsx:16-27, 118-178; src/ChatModal.jsx:46-78).
- The graph library is foreign code. This covers `addEdge`, `screenToFlowPosition`, `useNodesState`/`useEdgesState` and the change handlers that move or delete nodes. The drop handler takes the converted position as a parameter. The case where the library instance is still null is not modelled.
- Edge creation (`onConnect`) is not a member of its own. The library's `addEdge` either leaves the list unchanged or appends one edge. `Validation.ValidAfterAddingEdges` covers both cases.
- Edges carry only their two end point ids. The library's other edge fields are never read by this code, and the chat payload sends edges unchanged.
- The HTTP call is not modelled; its outcome is a parameter. No request cancellation, retry or timeout exists to model.
- src/NodeConfig.jsx is not part of this model. It renders forms and uploads a file. Its only link to the core is calling `updateNodeData` with `{prompt}` or `{webSearch}`, which is modelled.
- The mirror update of the selected node (src/App.jsx:113-115) is not modelled. Neither is the timing of React state updates and memoisation (src/App.jsx:72).
- The "one request in flight" behaviour is not modelled, because only the disabled input provides it. `handleSendMessage` itself does not test `isLoading`, and neither does the model.
- Editor.GetId: models the counter as an unbounded natural. The source's JavaScript number loses integer precision above 2^53, which a session never reaches.
- Chat.Reply: assumes the success response's `answer` is a string. The source would put `undefined` into the transcript if the field were missing.
- Chat.ErrorDetail: treats `detail` as an optional string. A non-string `detail`, such as a list of validation errors, would be rendered by JavaScript's own string conversion, which is not modelled.
