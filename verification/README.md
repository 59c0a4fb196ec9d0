# Agent workflow builder: a Dafny model of its core

The system lets a user put model "agents" on a canvas, connect them with
edges and run them as a chain. An agent is a provider, a model, a query
template and some settings. Its core is sequential graph and string logic
around one external boundary, the model call. This project models that core
as pure Dafny functions and a few methods, and proves properties of each part.

- **Builder screen** (`App`, `Linearizer`, `GraphPaths`):
  - The agent form either appends an agent and a node under a counter id, or
    edits the selected agent.
  - "Submit" sorts the node ids with Kahn's algorithm: adjacency lists and
    in-degree counts, a queue seeded with the zero-in-degree keys in
    JavaScript key order, and a dequeue/release loop. It then maps the sorted
    ids onto the agent list.
- **Canvas** (`Canvas`):
  - The node and edge deletes.
  - The client-side chain walker. It starts at the first node that no edge
    points at. It fills the first `{{input}}` with the previous result and
    calls `/ask`. On a request for input it asks the user and retries once.
    It follows the first outgoing edge and has no visited set.
- **Server** (`Backend`):
  - `call_model`: provider dispatch, classification of the raw text by the
    `[USER_INPUT_REQUEST]` marker, and the callers' exception handler.
  - `/ask`.
  - The run and resume loops over a stored agent list.
- **Client state machines** (`ListView`, `Runner`, `RunnerChat`):
  - The saved-workflow list, including its single-agent test chat and its
    test-query construction. The list page's "Run Workflow" button is
    commented out (frontend/src/components/workflowList.tsx:140-142), so
    `ListView.RunWorkflow`, `ListView.ResumeWorkflow` and
    `ListView.PauseThenResume` model handlers that the page as written
    cannot reach; they are kept because the handlers are still defined.
  - The step-list runner.
  - The chat runner.
  - Server replies and typed text are the inputs of these transitions.
- **Helpers** (`UpdateWorkflow`, `ModelHandler`):
  - The maintenance script's defaulting of agent names and descriptions.
  - The simulated model handler.
- **Shared** (`Base`, `Text`, `Workflow`):
  - String semantics of both languages. JavaScript `replace` with a string
    pattern changes the first occurrence and expands `$` patterns. Python
    `replace` changes every occurrence. Also Python `split(...)[-1]` and
    `strip()`, and decimal rendering.
  - The records the parts exchange.

External inputs are parameters:

- **Provider calls** are a function from call number, provider kind and
  configuration to returned text or a raised message (`Backend.Providers`).
- **The page's view of `/ask`** is a function from call number and
  configuration to a reply record or a failure (`Canvas.Asker`).
- **The input dialog** is a function from call number and prompt to the
  typed text or a cancel (`Canvas.User`).
- **HTTP replies** seen by the client components are `Http<T>` values:
  either a body or a rejection.

Node ids are the builder counter's numbers (the page renders them as
decimal strings). JavaScript lists integer-like object keys in ascending
numeric order. So the sort's queue is seeded in ascending id order
(`Linearizer.KeyOrder`).

## Model

| member | source | states |
|---|---|---|
| `Linearizer.Linearize` | frontend/src/App.tsx:63-84 | The sorted ids are distinct node ids. Every edge into a sorted id comes from an earlier sorted id. A node is sorted exactly when no cycle reaches it, so nodes on or behind a cycle are silently dropped. Without cycles every node id is sorted once. Requires every edge source to be a node. |
| `Linearizer.Tabulate` | frontend/src/App.tsx:65-72 | Builds one adjacency list and one count per node id. The adjacency list is the targets of that node's edges in edge order. The count is the number of edges into the node, with multiplicity. |
| `Linearizer.AddEdges` | frontend/src/App.tsx:69-72 | After the edge pass, every source's list holds its edge targets in order. Every node's count is its number of incoming edges, duplicates included. Targets that are not nodes get no count. |
| `Linearizer.ZeroInDegree` | frontend/src/App.tsx:73 | The initial queue holds exactly the keys whose count is zero, without repeats. |
| `Linearizer.KeyOrder` | frontend/src/App.tsx:73 | The key order has the same members as the ids, in ascending order. |
| `Linearizer.KeyOrderOfIncreasing` | frontend/src/App.tsx:73 | For ascending ids, the key order is the id list itself. |
| `Linearizer.Release` | frontend/src/App.tsx:78-83 | After a node's neighbours are processed, each count drops by the number of that node's edges into it. Exactly the nodes whose count reached zero are appended to the queue, once each. |
| `Linearizer.ReleaseOne` | frontend/src/App.tsx:79-82 | One neighbour's count drops by one, and the neighbour is queued when the count reaches zero. |
| `Linearizer.InCountStep` | frontend/src/App.tsx:78-79 | Dequeuing a node removes all of its outgoing edges, with multiplicity, from every remaining count. |
| `Linearizer.InCountZero` | frontend/src/App.tsx:80 | A count is zero exactly when every edge into the node comes from an already dequeued node. |
| `Linearizer.KahnRound` | frontend/src/App.tsx:75-84 | One dequeue keeps the loop state: counts match the undequeued edges, the queue is exactly the ready undone nodes, and the order is distinct and respects the edges. One more node is done. |
| `Linearizer.LeftOverAreFedByCycle` | frontend/src/App.tsx:75-84 | Nodes still undone when the queue runs dry lie on a cycle or behind one. |
| `Linearizer.KahnFinish` | frontend/src/App.tsx:75-84 | When the loop ends, a node is in the order exactly when no cycle reaches it. |
| `Linearizer.AcyclicCoversAll` | frontend/src/App.tsx:73-84 | With no cycle, the order holds every node id and is as long as the key list. |
| `GraphPaths.EdgesPrecedeExcludesCycles` | frontend/src/App.tsx:75-84 | An order that puts every edge's source first contains no node that a cycle reaches. |
| `App.EditAgents` | frontend/src/App.tsx:36-38 | Editing gives every agent with the selected id the new data. Its id, the list length and all other agents stay as they were. |
| `App.EditNodes` | frontend/src/App.tsx:39-45 | Editing gives every node with the selected id the new label and fields. Ids, length and all other nodes stay as they were. |
| `App.NodeDataOf` | frontend/src/App.tsx:49-51 | A node copies model, query, mode, provider, name and description from the form. Its label is the model, then ": ", then the query. |
| `App.AddAgent` | frontend/src/App.tsx:34-60 | With a selection, agents and nodes keep their ids and length, the counter is unchanged and the selection is cleared. Without one, an agent and a node with id = counter are appended and the counter goes up by one. Edges never change. |
| `App.AddAgentKeepsValid` | frontend/src/App.tsx:34-60 | Adding or editing keeps the builder invariant: node and agent ids ascend and lie below the counter, and every node has an agent. |
| `App.InitialValid` | frontend/src/App.tsx:24-28 | The empty builder with counter 2 satisfies the invariant. |
| `App.DeletesKeepValid` | frontend/src/components/WorkflowCanvas.tsx:39-46 | Deleting a node or an edge keeps the builder invariant. |
| `App.SeedOrderIsNodeOrder` | frontend/src/App.tsx:63-73 | Under the invariant, the sort's key order is the node list order. |
| `App.AgentById` | frontend/src/App.tsx:86-89 | The lookup finds an agent with the requested id. It finds none exactly when no agent has that id. |
| `App.AgentByIdIsLast` | frontend/src/App.tsx:86-89 | When several agents share an id, the lookup returns the last of them. |
| `App.OrderAgents` | frontend/src/App.tsx:91 | The ordered list is no longer than the sorted ids. Every entry is an agent of the list whose id was sorted. |
| `App.OrderAgentsConcat` | frontend/src/App.tsx:91 | Mapping ids to agents works piece by piece, so the agents follow the order of their ids. |
| `App.OrderAgentsKeeps` | frontend/src/App.tsx:91 | Every sorted id that has an agent contributes that agent. Sorted ids without an agent contribute nothing. |
| `App.OrderAgentsComplete` | frontend/src/App.tsx:86-91 | When every sorted id has an agent, entry i is the agent of sorted id i. |
| `App.Submit` | frontend/src/App.tsx:62-91 | The agents sent are agents of sorted, non-cycle-fed nodes, one per sorted id in sort order, and sources come before targets. Without cycles, every node's agent is sent. |
| `Canvas.DeleteEdge` | frontend/src/components/WorkflowCanvas.tsx:39-41 | An edge survives exactly when its id differs from the deleted one. |
| `Canvas.DeleteNode` | frontend/src/components/WorkflowCanvas.tsx:43-46 | A node survives exactly when its id differs. An edge survives exactly when neither of its ends is the deleted node. |
| `Canvas.DeleteEdgeKeepsOrder` | frontend/src/components/WorkflowCanvas.tsx:40 | Deleting acts on each part of the list separately, so the survivors keep their order. A list without the id is untouched. |
| `Canvas.DeleteNodeKeepsOrder` | frontend/src/components/WorkflowCanvas.tsx:44-45 | The same holds for node deletion, for both the node list and the edge list. |
| `Canvas.DeletesKeepEdgesJoined` | frontend/src/components/WorkflowCanvas.tsx:39-46 | If every edge joins two nodes before a delete, it still does after. |
| `Canvas.StartFrom` | frontend/src/components/WorkflowCanvas.tsx:68-72 | The start index is the first node in list order with no incoming edge. If there is none, every node has an incoming edge. |
| `Canvas.Start` | frontend/src/components/WorkflowCanvas.tsx:68-72 | There is a start node exactly when some node has no incoming edge. The start node is in the list and has no incoming edge. |
| `Canvas.NodeById` | frontend/src/components/WorkflowCanvas.tsx:67 | The node map returns a node with the requested id. It returns none exactly when no node has it. |
| `Canvas.FirstOutgoing` | frontend/src/components/WorkflowCanvas.tsx:109 | The index found is the first edge whose source is the current node. Without one, no edge leaves the node. |
| `Canvas.NextSpec` | frontend/src/components/WorkflowCanvas.tsx:109-110 | The successor is a node whose id is the target of the first edge out of the current node. There is none exactly when no edge leaves the node or that edge's target is no node. |
| `Canvas.Next` | frontend/src/components/WorkflowCanvas.tsx:109-110 | A successor is always a node of the list. A node that no edge leaves has none. |
| `Canvas.NodeConfig` | frontend/src/components/WorkflowCanvas.tsx:78-84 | The sent configuration copies provider, model and mode, and sends empty extra settings. |
| `Canvas.NodeQueryFillsFirstSlot` | frontend/src/components/WorkflowCanvas.tsx:76 | Only the first `{{input}}` receives the previous result, and everything else is kept. A query without the slot is sent unchanged. |
| `Canvas.RunNode` | frontend/src/components/WorkflowCanvas.tsx:86-107 | A node aborts the run exactly when its first reply asks for input and the dialog is cancelled or answered with "", after one call. A reply that does not ask for input, or a failed call, gives its response or "Error" after one call. After a non-empty answer there is exactly one more call, with the retry configuration, and its response or "Error" is the result. |
| `Canvas.PromptText` | frontend/src/components/WorkflowCanvas.tsx:91 | The dialog text is never empty. It is the server's prompt whenever that prompt is non-empty. |
| `Canvas.RetryConfig` | frontend/src/components/WorkflowCanvas.tsx:97-99 | The retry keeps provider, model, mode and extra settings of the first call. A query without `{{user_input}}` is sent again unchanged. |
| `Canvas.RetryFillsFirstUserSlot` | frontend/src/components/WorkflowCanvas.tsx:97 | With a `$`-free answer, the retry query is the first query with the answer in place of its first `{{user_input}}` and everything else kept. |
| `Canvas.Display` | frontend/src/components/WorkflowCanvas.tsx:25-113 | A finished walk shows its last result, or "No output" when that is empty or missing. An aborted or endless walk sets nothing, so the previous text stays shown. |
| `Canvas.NoStartShowsNoOutput` | frontend/src/components/WorkflowCanvas.tsx:72-75 | If every node has an incoming edge, nothing is asked and "No output" is shown. |
| `Canvas.CancelKeepsPreviousResult` | frontend/src/components/WorkflowCanvas.tsx:90-95 | If the first node asks for input and the dialog is cancelled or left empty, the run ends after one call and the previous result stays shown. |
| `Canvas.Walk` | frontend/src/components/WorkflowCanvas.tsx:75-111 | A walk that finishes has followed a chain of successors that ends within its fuel. |
| `Canvas.RunWorkflow` | frontend/src/components/WorkflowCanvas.tsx:65-114 | Without a start node no call is made and the result is "". With one, a finished run followed a chain that ends within the fuel. |
| `Canvas.WalkStartsAtFirstUnfedNode` | frontend/src/components/WorkflowCanvas.tsx:68-75 | The walk begins at the first node without an incoming edge, with "" as its input. |
| `Canvas.WalkFinishes` | frontend/src/components/WorkflowCanvas.tsx:75-111 | A walk that finishes visited m >= 1 nodes along the chain of successors, the last without a successor. It made between m and 2m calls, and its result is the last node's result. |
| `Canvas.RunWorkflowShowsLastNode` | frontend/src/components/WorkflowCanvas.tsx:75-113 | A finished run with a start node took between m and 2m calls for m nodes, and shows the result of the chain's last node when that is non-empty. |
| `Canvas.WalkFuelMonotone` | frontend/src/components/WorkflowCanvas.tsx:75-111 | Once the walk ends within some fuel, more fuel gives the same result. |
| `Canvas.WalkEndsOnFiniteChain` | frontend/src/components/WorkflowCanvas.tsx:109-111 | Fuel equal to the chain's length is enough for the walk to end. |
| `Canvas.WalkDivergesWithoutAbort` | frontend/src/components/WorkflowCanvas.tsx:75-111 | On a set of nodes closed under the successor, a walk that never aborts runs out of any fuel. |
| `Canvas.WalkDivergesOnCycle` | frontend/src/components/WorkflowCanvas.tsx:75-111 | With a server that never asks for input, a cycle of first edges makes the page loop for ever. |
| `Canvas.SelfLoopDiverges` | frontend/src/components/WorkflowCanvas.tsx:109-110 | A node whose first edge points back at itself is such a cycle. |
| `Backend.Classify` | backend/app/main.py:105-117 | A text is a request for input exactly when it contains the marker. A request for input has no response and a non-empty prompt. Any other text is a success with the text as response. Classification never gives an error. |
| `Backend.ClassifyPrompt` | backend/app/main.py:106-112 | The prompt comes from the text after the last marker. If that text is all whitespace, the prompt is "Please provide input:". Otherwise it is that text stripped. |
| `Backend.KindOf` | backend/app/main.py:94-100 | A provider is recognised when its lower-cased name is "openai", "huggingface" or "local", and unsupported otherwise. |
| `Backend.KindOfIgnoresCase` | backend/app/main.py:94-100 | Lower-casing a provider name never changes its kind, so matching ignores case. An unknown name is unsupported. |
| `Backend.CallModel` | backend/app/main.py:93-117 | The status is "error" exactly when a supported provider raised, and then the response is "Error: " plus the message. A request for input has a prompt and no response. A success has a response and no prompt. |
| `Backend.CallModelClassifies` | backend/app/main.py:100-106 | A provider's returned text is classified. An unsupported provider makes no call, and its "Unsupported provider: ..." text is classified. That is a plain success unless the provider's name holds the marker. |
| `Backend.UnsupportedMessageHasNoMarker` | backend/app/main.py:101-106 | The unsupported-provider text contains the marker only if the provider name does. |
| `Backend.Ask` | backend/app/main.py:120-144 | `/ask` gives one record per agent, echoing provider, model, query and extra settings, with that agent's own call outcome. There is no chaining between agents. |
| `Backend.AgentAt` | backend/app/main.py:221-222 | Indexing follows Python: index i >= 0 gives agent i, index -n..-1 gives agent |agents|-n, and an index below minus the length or past the end gives nothing. |
| `Backend.StepQuery` | backend/app/main.py:175 | A query without `{{input}}` is sent unchanged. Otherwise the text before the first slot is kept, the input takes the slot, and the rest of the query is filled the same way. |
| `Backend.Loop` | backend/app/main.py:174-209 | The shared loop fails only for an index below minus the length. A pause lies between its start index and the end of the list. A completion is "success" with a final output and a trace. |
| `Backend.Run` | backend/app/main.py:166-209 | A run is always answered. A pause lies within the list. A completion is "success" with a trace. |
| `Backend.Resume` | backend/app/main.py:211-255 | A resume fails only for an index below minus the length. A pause lies at or after the index. At or past the end it answers "success" with the user's text as output and an empty trace. |
| `Backend.LoopRejected` | backend/app/main.py:221-222 | The shared loop fails exactly when its index is below minus the list length. |
| `Backend.LoopCompleted` | backend/app/main.py:174-209 | A loop that does not pause ends with one chained record per remaining agent and no pause. The final output is the last step's output, or the initial input. |
| `Backend.LoopPaused` | backend/app/main.py:194-201 | A loop that pauses stops at the first pause. Its trace ends with that record, and its prompt is that record's prompt. |
| `Backend.LoopOutcome` | backend/app/main.py:172-209 | From the start index, the loop either fails on the index, completes or pauses. |
| `Backend.RunOutcome` | backend/app/main.py:166-209 | A run is always answered, and either completes or pauses. |
| `Backend.ResumeOutcome` | backend/app/main.py:210-255 | A resume fails exactly for an index below minus the list length. Otherwise it completes or pauses like a run from that index, fed the user's text. |
| `Backend.DispatcherResponds` | backend/app/main.py:114-117 | Every non-pausing `call_model` outcome carries a response. |
| `Backend.CompletedShape` | backend/app/main.py:184-209 | A completed request's records are numbered index + offset, carry the stored provider and model, and end with the final output. |
| `Backend.RunCompleted` | backend/app/main.py:174-209 | A completed run has exactly one record per agent, numbered 1..n in list order, with no pause. The final output is the last response, or "" for an empty list. |
| `Backend.RunQueriesChain` | backend/app/main.py:172-203 | Step 0 fills every `{{input}}` with "". Step i+1 fills every `{{input}}` with step i's response. An error's "Error: ..." text is passed on like any response. |
| `Backend.RunPause` | backend/app/main.py:194-201 | A paused run returns the 0-based step of the first pause and a trace of step+1 records. The last record is that pause, with no response. The prompt is non-empty. |
| `Backend.LoopPauseAfter` | backend/app/main.py:194-201 | The paused step lies between the loop's index and the end of the list. |
| `Backend.LoopIgnoresLaterCalls` | backend/app/main.py:194-201 | Calls after the pause cannot change a paused loop's reply. |
| `Backend.RunIgnoresCallsAfterPause` | backend/app/main.py:194-201 | Providers that agree up to the paused step give the same run reply, so later agents are never invoked. |
| `Backend.ResumePastEnd` | backend/app/main.py:221-255 | A resume at or past the end of the list invokes nothing. It returns an empty trace with the user's text as final output. |
| `Backend.ResumeRerunsPausedStep` | backend/app/main.py:217-239 | A resume at index i re-runs agent i with the user's text in every `{{input}}`. Its records are numbered by 0-based index from i. |
| `Backend.LoopShift` | backend/app/main.py:184-192 | Step numbering only shifts the records' numbers and changes nothing else. |
| `Backend.RunIsResumeFromZero` | backend/app/main.py:166-255 | A run is a resume from index 0 with input "", with records numbered one higher. |
| `ListView.RunWorkflow` | frontend/src/components/workflowList.tsx:41-53 | A paused reply sets the input flag, the prompt, the resume step and the trace as results. Any other reply becomes the results. A failure records only the workflow id. |
| `ListView.ResumeRequest` | frontend/src/components/workflowList.tsx:55-62 | A resume is sent exactly when there is a non-empty active workflow id and a resume step. It sends that step and the typed text. |
| `ListView.ResumeWorkflow` | frontend/src/components/workflowList.tsx:55-72 | Without a request, or on failure, nothing changes. Any answer, even a new pause, clears the flag, the text and the step, and shows the reply. |
| `ListView.SecondPauseIsLost` | frontend/src/components/workflowList.tsx:55-72 | A resume that pauses again clears the resume step. A later resume sends nothing and changes nothing, so the workflow cannot be continued from the list. |
| `ListView.PauseThenResume` | frontend/src/components/workflowList.tsx:41-67 | After a run pauses at step p, the resume sends p. The server then re-runs agent p with the typed text in its query. |
| `ListView.TestQuery` | frontend/src/components/workflowList.tsx:81-89 | Without `{{input}}` or marker, a non-empty input is appended after a newline. An empty input leaves the template unchanged. |
| `ListView.TestQueryReplacesFirstSlot` | frontend/src/components/workflowList.tsx:83-86 | The input replaces the first `{{input}}` if there is one. Otherwise it replaces the first marker. The rest is unchanged. |
| `ListView.TestQueryCarriesInput` | frontend/src/components/workflowList.tsx:81-89 | Whatever the template, the test query contains the test input. |
| `ListView.TestRequestFor` | frontend/src/components/workflowList.tsx:91-100 | The request copies model and built query. An empty mode becomes "local" and missing extra settings become empty. |
| `ListView.ReplyText` | frontend/src/components/workflowList.tsx:103-105 | The shown text is the first result's response when there are results, else the top-level response. |
| `ListView.TestAgent` | frontend/src/components/workflowList.tsx:74-113 | With no selected agent nothing happens. Otherwise exactly the user's line and then the agent's reply, or "Error testing agent", are appended. |
| `Runner.Run` | frontend/src/components/WorkflowRunner.tsx:10-19 | A pause sets the paused step, the prompt and the shown steps. Any other reply replaces the steps with its trace or with nothing, and leaves the paused step alone. A failure changes nothing. |
| `Runner.ResumeRequest` | frontend/src/components/WorkflowRunner.tsx:22-25 | The resume sends the paused step, possibly null, and the typed text. |
| `Runner.Resume` | frontend/src/components/WorkflowRunner.tsx:21-31 | The reply's trace is appended and the old steps stay as a prefix. Paused step, prompt and input are always cleared, even if the reply pauses again. |
| `Runner.CompletedRunKeepsStalePause` | frontend/src/components/WorkflowRunner.tsx:10-25 | A run that completes after a pause leaves the old paused step in place, so the next resume still sends it. |
| `Runner.ResumeForgetsNewPause` | frontend/src/components/WorkflowRunner.tsx:21-31 | A resume reply that pauses again is not recorded: the next resume sends no step. |
| `Runner.RunThenResume` | frontend/src/components/WorkflowRunner.tsx:10-31 | After a pause at step p and a resume, the run's records come first. The paused agent is shown twice, numbered p+1 and then p, the second time with the typed text in its query. |
| `RunnerChat.FromServer` | backend/app/main.py:240-255 | Replies of the resume endpoint have no `context`. A pause carries its step and prompt. |
| `RunnerChat.StepLabel` | frontend/src/components/WorkflowRunnerChat.tsx:30 | A step's label is "Agent " followed by the decimal step+1. |
| `RunnerChat.ContextText` | frontend/src/components/WorkflowRunnerChat.tsx:32 | The completion text is the context's output when it is non-empty, else "Workflow completed.". |
| `RunnerChat.FinalMessages` | frontend/src/components/WorkflowRunnerChat.tsx:33-39 | A summary line is added exactly when `final_output` is truthy. |
| `RunnerChat.Completion` | frontend/src/components/WorkflowRunnerChat.tsx:32-39 | A reply without `context` throws. Otherwise the completion text comes first, followed by at most one summary line. |
| `RunnerChat.Run` | frontend/src/components/WorkflowRunnerChat.tsx:16-46 | Messages, pause and prompt are cleared first. A pause records step and prompt and shows the prompt under "Agent step+1". A failure or a missing context shows the run error. Any other completed reply shows exactly its completion messages: the context's output or "Workflow completed.", then at most one "Final Output" line. The typed text stays. |
| `RunnerChat.Resume` | frontend/src/components/WorkflowRunnerChat.tsx:48-82 | Empty input does nothing, and messages only grow. An answer first adds the user's line and clears the box. A pause records the new step. Any other answer clears the pause and prompt, and after the user's line shows exactly the completion messages, or "Error resuming workflow." when the reply has no context. |
| `RunnerChat.SubmitRequest` | frontend/src/components/WorkflowRunnerChat.tsx:84-91 | A resume is sent exactly when a step is paused and text is typed. A run is sent exactly when nothing is paused. |
| `RunnerChat.Submit` | frontend/src/components/WorkflowRunnerChat.tsx:84-91 | A submit that sends nothing changes nothing. A paused submit only appends messages. A run leaves at most two messages. |
| `RunnerChat.Restart` | frontend/src/components/WorkflowRunnerChat.tsx:93-98 | Restart clears messages, input, pause and prompt. |
| `RunnerChat.MessagesOnlyGrow` | frontend/src/components/WorkflowRunnerChat.tsx:12-14 | Over any sequence of typing and submits with no run or restart in between, the old messages stay a prefix. |
| `RunnerChat.ResetStartsOver` | frontend/src/components/WorkflowRunnerChat.tsx:93-98 | A restart gives the initial state, and a run leaves at most its own two messages. |
| `RunnerChat.ServerResumeReplies` | frontend/src/components/WorkflowRunnerChat.tsx:56-79 | Against the resume endpoint, a pause is shown under its step's label. Every completed resume shows the user's line and then "Error resuming workflow.", with the pause cleared. |
| `UpdateWorkflow.Get` | scripts/update_workflow.py:22 | A present key keeps its value, null included. An absent key gives the default. |
| `UpdateWorkflow.WithDefaults` | scripts/update_workflow.py:22-23 | The agent gains exactly the missing name and description keys. A missing name becomes "Agent idx+1" and a missing description "Description for Agent idx+1". All existing keys keep their values. |
| `UpdateWorkflow.FillDefaults` | scripts/update_workflow.py:20-24 | The list keeps its length and order, and each agent gets the defaults for its own position. |
| `UpdateWorkflow.WithDefaultsKeepsComplete` | scripts/update_workflow.py:22-23 | An agent that has both fields is left exactly as it was. |
| `UpdateWorkflow.FillDefaultsIdempotent` | scripts/update_workflow.py:20-24 | Applying the loop twice gives the same list as applying it once. |
| `UpdateWorkflow.DefaultName` | scripts/update_workflow.py:22 | A default name is "Agent " followed by decimal digits that read back as the 1-based position, so different positions get different names. |
| `UpdateWorkflow.DefaultDescription` | scripts/update_workflow.py:23 | A default description is "Description for " followed by the default name of the same position. |
| `UpdateWorkflow.NullNameIsKept` | scripts/update_workflow.py:22 | A present but null name stays null. |
| `ModelHandler.HandleModelRequest` | backend/app/services/model_handler.py:1-10 | There is one result per agent in order, copying model and query. Its response is "Simulated response for " + query + " using " + model, and there is no status. |
| `ModelHandler.SimulatedResponse` | backend/app/services/model_handler.py:8 | The canned text is the prefix, then the query, then " using ", then the model, with nothing else. |
| `ModelHandler.HandleConcat` | backend/app/services/model_handler.py:3-10 | Agents are answered independently: splitting a request splits the results. |
| `ModelHandler.ResponseDeterminesQuery` | backend/app/services/model_handler.py:8 | For a fixed model, equal responses mean equal queries. |
| `ModelHandler.ResponseIsAmbiguousAcrossModels` | backend/app/services/model_handler.py:8 | An example, not a general fact: across models the response can be ambiguous: ("z", "x using y") and ("y using z", "x") give the same text. |
| `Text.FindIsFirst` | frontend/src/components/WorkflowCanvas.tsx:76 | The occurrence found is the first one. |
| `Text.FindNoneIsAbsent` | frontend/src/components/workflowList.tsx:83 | When no occurrence is found, the pattern occurs nowhere. |
| `Text.ContainsIff` | backend/app/main.py:106 | Containment holds exactly when the pattern occurs at some index. |
| `Text.Substitution` | frontend/src/components/WorkflowCanvas.tsx:76 | A replacement text without `$` is inserted literally. |
| `Text.JsReplaceFirst` | frontend/src/components/WorkflowCanvas.tsx:76 | A string without the pattern is returned unchanged. |
| `Text.JsReplaceFirstLiteral` | frontend/src/components/WorkflowCanvas.tsx:76 | With a `$`-free replacement, exactly the first occurrence is replaced and nothing else changes. |
| `Text.PyReplaceAllIdentity` | backend/app/main.py:175 | Python's replace returns the string unchanged when the pattern does not occur in it, or when the replacement equals the pattern. |
| `Text.PyReplaceAll` | backend/app/main.py:175 | A string without the pattern, or with the pattern replaced by itself, comes back unchanged. |
| `Text.PyReplaceAllSplit` | backend/app/main.py:175 | If the first occurrence starts right after a prefix, the prefix is kept, that occurrence becomes the replacement, and the rest is replaced in the same way. |
| `Text.ReplaceFirstAgreesWithReplaceAllOnSingleOccurrence` | backend/app/main.py:175 | When the pattern occurs at most once, without overlap, the two languages' replace agree. |
| `Text.ReplaceFirstDiffersOnTwoOccurrences` | frontend/src/components/WorkflowCanvas.tsx:76 | An example, not a general fact: on one query with two `{{input}}` slots, JavaScript fills only the first and Python fills both. |
| `Text.AfterLastSpec` | backend/app/main.py:107 | `split(m)[-1]` holds no marker. It is the whole text when the text has no marker. Otherwise it is what follows the last marker. |
| `Text.AfterLast` | backend/app/main.py:107 | The last piece of a split is a suffix of the text. |
| `Text.LastEndIsLast` | backend/app/main.py:107 | No marker starts after the end of the last one found. |
| `Text.PyStrip` | backend/app/main.py:107 | The stripped text is no longer than the input and neither starts nor ends with whitespace. |
| `Text.PyStripSlice` | backend/app/main.py:107 | The stripped text is a slice of the input, and only whitespace is cut on either side. |
| `Text.PyStripIdempotent` | backend/app/main.py:107 | Stripping twice is stripping once. |
| `Text.PyStripEmptyIff` | backend/app/main.py:110 | The stripped prompt is empty, so the default is used, exactly when the text after the marker is all whitespace. |
| `Text.NatToStringRoundTrip` | scripts/update_workflow.py:22 | Decimal rendering reads back to the same number. |
| `Text.NatToStringInjective` | scripts/update_workflow.py:22 | Different numbers render differently. |
| `Text.AsciiLower` | backend/app/main.py:94 | Lower-casing keeps the length, leaves no upper-case ASCII letter, keeps every other character, and moves each upper-case letter to its lower-case one. |
| `Text.AsciiLowerIdempotent` | backend/app/main.py:94 | Lower-casing twice is lower-casing once. |
| `Base.Filter` | frontend/src/components/WorkflowCanvas.tsx:40 | Array filtering keeps exactly the elements that pass, and nothing else. |
| `Base.FilterConcat` | frontend/src/components/WorkflowCanvas.tsx:44-45 | Filtering a concatenation is filtering each part, which keeps the order. |

## Left out

- **Provider calls** (OpenAI, Hugging Face, local model): network I/O. They are the `Backend.Providers` parameter. `print` logging is dropped.
- **MongoDB**: reads, inserts, updates and the health checks are left out. A stored workflow is its agent list. A missing workflow (HTTP 404) is not modelled. The script's database connection and update are left out too.
- **HTTP and the browser**: axios requests, `alert`, `window.prompt` and page reloads are not modelled. Server replies and typed text are parameters.
  - A request that fails is `Rejected`.
  - Any JavaScript exception a handler does not catch leaves its state untouched.
- **React, MUI and ReactFlow**: rendering, `addEdge`/`applyNodeChanges`, random node positions and the loading flag are left out. Edges are created by the library, so the builder model takes the edge list as given.
- **Async**: every handler awaits each step in turn, so the model is sequential.
- **Saving a workflow** (the canvas save button) and the chat panels of single nodes are not part of this model.
- **The `run_contextual` endpoint** that the chat runner calls has no server implementation. Its reply is a parameter (`RunnerChat.ChatReply`).
- **The `/agent/test` endpoint** that the list view's test calls has no server implementation. Its reply is a parameter (`ListView.TestReply`).
- **The data connectors**, the broken route module and the schema declarations are not modelled, except that the schema guided the record types.
- **Python `str.lower()` and `strip()`** are modelled on the characters that matter: ASCII upper-case letters, and Python's whitespace set (`Text.IsPySpace`).
- **Server-side substitution of non-string values**: `str(input_data)` of a `None` response would read "None". Every response the loops pass on is a string (`Backend.DispatcherResponds`), so this never arises.
- `Text.JsReplaceFirst`: its contract states only the no-occurrence case. The full behaviour, including `$` patterns in the replacement, is its body. The `$`-free case is stated by `Text.JsReplaceFirstLiteral`.
- `Canvas.RunNode`: a failed call is any network error or empty reply. The model does not say which, and the text of the error is only logged by the page, so it is not modelled.
- `Canvas.WalkDivergesOnCycle`: the walk is bounded by fuel. A walk without an end is shown as running out of any fuel, not as a real infinite loop.
- `Linearizer.KeyOrder`: JavaScript lists keys in ascending numeric order only for array-index keys, those below 2^32 - 1. Larger ids keep insertion order. The model always sorts, which matches every id the builder's counter, starting at 2, can reach in practice.
