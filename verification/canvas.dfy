/** The workflow canvas: deleting nodes and edges, and the "Run Workflow"
    button, which walks the chain of first outgoing edges from the first
    node nothing points at, asking the server about one node at a time. */
module Canvas {
  import opened Base
  import opened Text
  import opened Workflow
  import Backend

  // ---------------------------------------------------------------------
  // Deleting.

  /** The edge list after the delete button of edge `id`. */
  function DeleteEdge(edges: seq<Edge>, id: string): (r: seq<Edge>)
    ensures forall e :: e in r <==> e in edges && e.id != id
  {
    Filter(edges, (e: Edge) => e.id != id)
  }

  /** The node and edge lists after the delete button of node `id`: the
      node goes, and so does every edge into or out of it. */
  function DeleteNode(nodes: seq<Node>, edges: seq<Edge>, id: NodeId): (r: (seq<Node>, seq<Edge>))
    ensures forall n :: n in r.0 <==> n in nodes && n.id != id
    ensures forall e :: e in r.1 <==> e in edges && e.source != id && e.target != id
  {
    (Filter(nodes, (n: Node) => n.id != id), Filter(edges, (e: Edge) => e.source != id && e.target != id))
  }

  /** Deleting keeps the order of what is left: it acts on each part of a
      list separately, and leaves a list without the id alone. */
  lemma DeleteEdgeKeepsOrder(a: seq<Edge>, b: seq<Edge>, id: string)
    ensures DeleteEdge(a + b, id) == DeleteEdge(a, id) + DeleteEdge(b, id)
    ensures (forall e :: e in a ==> e.id != id) ==> DeleteEdge(a, id) == a
  {
    FilterConcat(a, b, (e: Edge) => e.id != id);
    if forall e :: e in a ==> e.id != id {
      FilterKeepsAll(a, (e: Edge) => e.id != id);
    }
  }

  lemma DeleteNodeKeepsOrder(a: seq<Node>, b: seq<Node>, edges: seq<Edge>, id: NodeId)
    ensures DeleteNode(a + b, edges, id).0 == DeleteNode(a, edges, id).0 + DeleteNode(b, edges, id).0
    ensures (forall n :: n in a ==> n.id != id) ==> DeleteNode(a, edges, id).0 == a
    ensures (forall e :: e in edges ==> e.source != id && e.target != id) ==> DeleteNode(a, edges, id).1 == edges
  {
    FilterConcat(a, b, (n: Node) => n.id != id);
    if forall n :: n in a ==> n.id != id {
      FilterKeepsAll(a, (n: Node) => n.id != id);
    }
    if forall e :: e in edges ==> e.source != id && e.target != id {
      FilterKeepsAll(edges, (e: Edge) => e.source != id && e.target != id);
    }
  }

  /** Every edge joins two nodes of the list. */
  predicate EdgesJoinNodes(nodes: seq<Node>, edges: seq<Edge>) {
    forall e :: e in edges ==> e.source in NodeIds(nodes) && e.target in NodeIds(nodes)
  }

  /** Deleting a node or an edge leaves no edge dangling. */
  lemma DeletesKeepEdgesJoined(nodes: seq<Node>, edges: seq<Edge>, nodeId: NodeId, edgeId: string)
    requires EdgesJoinNodes(nodes, edges)
    ensures EdgesJoinNodes(nodes, DeleteEdge(edges, edgeId))
    ensures EdgesJoinNodes(DeleteNode(nodes, edges, nodeId).0, DeleteNode(nodes, edges, nodeId).1)
  {
    var (nodes', edges') := DeleteNode(nodes, edges, nodeId);
    forall e | e in edges' ensures e.source in NodeIds(nodes') && e.target in NodeIds(nodes') {
      var i :| 0 <= i < |nodes| && nodes[i].id == e.source;
      var j :| 0 <= j < |nodes| && nodes[j].id == e.target;
      assert nodes[i] in nodes';
      assert nodes[j] in nodes';
      var i' :| 0 <= i' < |nodes'| && nodes'[i'] == nodes[i];
      var j' :| 0 <= j' < |nodes'| && nodes'[j'] == nodes[j];
      assert NodeIds(nodes')[i'] == e.source;
      assert NodeIds(nodes')[j'] == e.target;
    }
  }

  // ---------------------------------------------------------------------
  // Where the walk starts and how it moves.

  /** Some edge points at node id `id`. */
  predicate HasIncoming(edges: seq<Edge>, id: NodeId) {
    exists e :: e in edges && e.target == id
  }

  /** Index of the first node at or after `from` that no edge points at. */
  function StartFrom(nodes: seq<Node>, edges: seq<Edge>, from: nat): (r: Option<nat>)
    requires from <= |nodes|
    ensures r.Some? ==> from <= r.value < |nodes| && !HasIncoming(edges, nodes[r.value].id)
    ensures r.Some? ==> forall i :: from <= i < r.value ==> HasIncoming(edges, nodes[i].id)
    ensures r.None? ==> forall i :: from <= i < |nodes| ==> HasIncoming(edges, nodes[i].id)
    decreases |nodes| - from
  {
    if from == |nodes| then None
    else if !HasIncoming(edges, nodes[from].id) then Some(from)
    else StartFrom(nodes, edges, from + 1)
  }

  /** The start node: the first node in list order with no incoming edge;
      there is one exactly when some node has no incoming edge. */
  function Start(nodes: seq<Node>, edges: seq<Edge>): (r: Option<Node>)
    ensures r.Some? <==> exists i :: 0 <= i < |nodes| && !HasIncoming(edges, nodes[i].id)
    ensures r.Some? ==> r.value in nodes && !HasIncoming(edges, r.value.id)
  {
    match StartFrom(nodes, edges, 0)
    case None => None
    case Some(i) => Some(nodes[i])
  }

  /** Index of the first edge whose source is `source`. */
  function FirstOutgoing(edges: seq<Edge>, source: NodeId, from: nat): (r: Option<nat>)
    requires from <= |edges|
    ensures r.Some? ==> from <= r.value < |edges| && edges[r.value].source == source
    ensures r.Some? ==> forall i :: from <= i < r.value ==> edges[i].source != source
    ensures r.None? ==> forall i :: from <= i < |edges| ==> edges[i].source != source
    decreases |edges| - from
  {
    if from == |edges| then None
    else if edges[from].source == source then Some(from)
    else FirstOutgoing(edges, source, from + 1)
  }

  /** The node a lookup table built from the node list gives for `id`: the
      LAST node with that id, since later entries overwrite earlier ones. */
  function NodeById(nodes: seq<Node>, id: NodeId): (r: Option<Node>)
    ensures r.Some? ==> r.value in nodes && r.value.id == id
    ensures r.None? <==> id !in NodeIds(nodes)
    decreases |nodes|
  {
    if |nodes| == 0 then None
    else if nodes[|nodes| - 1].id == id then Some(nodes[|nodes| - 1])
    else
      NodeById(nodes[..|nodes| - 1], id)
  }

  /** The successor of a node: the node the first edge out of it points at;
      None when it has no outgoing edge or that edge points at no node. */
  function Next(nodes: seq<Node>, edges: seq<Edge>, current: Node): (r: Option<Node>)
    ensures r.Some? ==> r.value in nodes
    ensures (forall i :: 0 <= i < |edges| ==> edges[i].source != current.id) ==> r.None?
  {
    match FirstOutgoing(edges, current.id, 0)
    case None => None
    case Some(i) => NodeById(nodes, edges[i].target)
  }

  lemma NextSpec(nodes: seq<Node>, edges: seq<Edge>, current: Node)
    ensures Next(nodes, edges, current).Some? ==>
      exists i :: 0 <= i < |edges|
        && edges[i].source == current.id
        && (forall j :: 0 <= j < i ==> edges[j].source != current.id)
        && Next(nodes, edges, current).value.id == edges[i].target
        && Next(nodes, edges, current).value in nodes
    ensures Next(nodes, edges, current).None? <==>
      || (forall i :: 0 <= i < |edges| ==> edges[i].source != current.id)
      || edges[FirstOutgoing(edges, current.id, 0).value].target !in NodeIds(nodes)
  {
  }

  // ---------------------------------------------------------------------
  // One node.

  /** What a call to `/ask` with one configuration gives the page: the first
      record of the reply, or a failure (network error, empty reply). */
  datatype AskOutcome = AskReplied(record: Backend.AskRecord) | AskFailed

  /** The server as the page sees it: the outcome of the k-th `/ask` call of
      the run. */
  type Asker = (nat, StoredAgent) -> AskOutcome

  /** The user as the page sees it: what the k-th call's input dialog
      returns for the given prompt; None when cancelled. */
  type User = (nat, string) -> Option<string>

  const InputSlot: string := "{{input}}"
  const UserInputSlot: string := "{{user_input}}"
  const NoOutput: string := "No output"
  const ErrorResult: string := "Error"

  /** How JavaScript renders the previous result when substituting it: a
      null result becomes the text "null". */
  function Render(last: Option<string>): string {
    if last.Some? then last.value else "null"
  }

  /** The configuration sent for a node: its fields, with the previous
      result put in place of the first `{{input}}`. */
  function NodeConfig(node: Node, last: Option<string>): (c: StoredAgent)
    ensures c.provider == node.data.provider && c.model == node.data.model && c.mode == node.data.mode
    ensures c.additionalInfo == Some(map[])
  {
    StoredAgent(node.data.provider, node.data.model, JsReplaceFirst(node.data.query, InputSlot, Render(last)),
      node.data.mode, Some(map[]))
  }

  /** Only the first `{{input}}` of a node's query receives the previous
      result (taken literally when it holds no `$`); the rest is kept. */
  lemma NodeQueryFillsFirstSlot(node: Node, last: string)
    requires '$' !in last
    ensures var q := node.data.query;
      var sent := NodeConfig(node, Some(last)).query;
      && (!Contains(q, InputSlot) ==> sent == q)
      && (Contains(q, InputSlot) ==>
            var i := Find(q, InputSlot, 0).value;
            && (forall j :: 0 <= j < i ==> !MatchesAt(q, InputSlot, j))
            && sent == q[..i] + last + q[i + |InputSlot|..])
  {
    if Contains(node.data.query, InputSlot) {
      JsReplaceFirstLiteral(node.data.query, InputSlot, last);
    }
  }

  /** The text the input dialog shows: the server's prompt, or a stock
      question when the prompt is missing or empty; never empty. */
  function PromptText(prompt: Option<string>): (text: string)
    ensures text != ""
    ensures prompt.Some? && prompt.value != "" ==> text == prompt.value
  {
    if prompt.Some? && prompt.value != "" then prompt.value else "Please enter input:"
  }

  /** The reply asks the user for input. */
  predicate AsksForInput(o: AskOutcome) {
    o.AskReplied? && o.record.status == NeedUserInput
  }

  /** The result the page takes from an outcome: "Error" when the call
      failed, otherwise the reply's response. */
  function ResultOf(o: AskOutcome): Option<string> {
    if o.AskFailed? then Some(ErrorResult) else o.record.response
  }

  /** The configuration of the second call: the one already sent, with the
      user's text in place of its first `{{user_input}}`. */
  function RetryConfig(config: StoredAgent, text: string): (c: StoredAgent)
    ensures c.provider == config.provider && c.model == config.model && c.mode == config.mode
    ensures c.additionalInfo == config.additionalInfo
    ensures !Contains(config.query, UserInputSlot) ==> c == config
  {
    config.(query := JsReplaceFirst(config.query, UserInputSlot, text))
  }

  /** Only the first `{{user_input}}` of the query already sent receives the
      user's text (taken literally when it holds no `$`); the rest is kept. */
  lemma RetryFillsFirstUserSlot(config: StoredAgent, text: string)
    requires '$' !in text
    requires Contains(config.query, UserInputSlot)
    ensures var q := config.query;
      var i := Find(q, UserInputSlot, 0).value;
      && (forall j :: 0 <= j < i ==> !MatchesAt(q, UserInputSlot, j))
      && RetryConfig(config, text).query == q[..i] + text + q[i + |UserInputSlot|..]
  {
    JsReplaceFirstLiteral(config.query, UserInputSlot, text);
  }

  datatype NodeOutcome = Continue(result: Option<string>, calls: nat) | Abort(calls: nat)

  /** One pass of the loop body for a node, starting at call number k. A
      reply that asks for input opens the dialog; a cancelled or empty
      answer aborts the run, and any other answer leads to exactly one more
      call, whose outcome is the node's result. */
  function RunNode(node: Node, last: Option<string>, k: nat, ask: Asker, user: User): (r: NodeOutcome)
    ensures var config := NodeConfig(node, last);
      var first := ask(k, config);
      var answer := if AsksForInput(first) then user(k, PromptText(first.record.prompt)) else None;
      && (r.Abort? <==> AsksForInput(first) && (answer.None? || answer.value == ""))
      && (r.Abort? ==> r.calls == k + 1)
      && (r.Continue? && !AsksForInput(first) ==> r.calls == k + 1 && r.result == ResultOf(first))
      && (r.Continue? && AsksForInput(first) ==>
            && answer.Some? && answer.value != ""
            && r.calls == k + 2
            && r.result == ResultOf(ask(k + 1, RetryConfig(config, answer.value))))
  {
    var config := NodeConfig(node, last);
    match ask(k, config)
    case AskFailed => Continue(Some(ErrorResult), k + 1)
    case AskReplied(record) =>
      if record.status == NeedUserInput then
        match user(k, PromptText(record.prompt))
        case None => Abort(k + 1)
        case Some(text) =>
          if text == "" then Abort(k + 1)
          else Continue(ResultOf(ask(k + 1, RetryConfig(config, text))), k + 2)
      else
        Continue(record.response, k + 1)
  }

  // ---------------------------------------------------------------------
  // The walk.

  datatype WalkResult =
    | Finished(last: Option<string>, calls: nat)
    | Aborted(calls: nat)
    | OutOfFuel

  /** The loop body for one node: the node, the previous result and the
      number of calls made so far. */
  type Stepper = (Node, Option<string>, nat) -> NodeOutcome

  /** The loop body the page runs. */
  function PageStep(ask: Asker, user: User): Stepper {
    (node: Node, last: Option<string>, k: nat) => RunNode(node, last, k, ask, user)
  }

  /** The chain of successors from `current` ends within `n` nodes. */
  predicate ChainEndsWithin(nodes: seq<Node>, edges: seq<Edge>, current: Node, n: nat)
    decreases n
  {
    n > 0 && (Next(nodes, edges, current).None? || ChainEndsWithin(nodes, edges, Next(nodes, edges, current).value, n - 1))
  }

  /** The loop from `current`, with at most `fuel` passes: the page itself
      keeps no record of visited nodes, so on a cycle of first edges it
      never stops, which the model shows as running out of fuel. A walk
      that finishes has followed a chain that ends within the fuel. */
  function Walk(nodes: seq<Node>, edges: seq<Edge>, step: Stepper, current: Node, last: Option<string>, k: nat,
                fuel: nat): (r: WalkResult)
    ensures r.Finished? ==> ChainEndsWithin(nodes, edges, current, fuel)
    decreases fuel
  {
    if fuel == 0 then OutOfFuel
    else
      match step(current, last, k)
      case Abort(calls) => Aborted(calls)
      case Continue(result, calls) =>
        match Next(nodes, edges, current)
        case None => Finished(result, calls)
        case Some(next) => Walk(nodes, edges, step, next, result, calls, fuel - 1)
  }

  /** The "Run Workflow" button: with no node that nothing points at,
      nothing is asked and the result is ""; otherwise the walk from the
      start node, which finishes only if its chain ends within the fuel. */
  function RunWorkflow(nodes: seq<Node>, edges: seq<Edge>, ask: Asker, user: User, fuel: nat): (r: WalkResult)
    ensures Start(nodes, edges).None? ==> r == Finished(Some(""), 0)
    ensures Start(nodes, edges).Some? && r.Finished? ==> ChainEndsWithin(nodes, edges, Start(nodes, edges).value, fuel)
  {
    match Start(nodes, edges)
    case None => Finished(Some(""), 0)
    case Some(start) => Walk(nodes, edges, PageStep(ask, user), start, Some(""), 0, fuel)
  }

  /** The text shown as the execution result after a run, given the text
      shown before it (None before the first run). A finished walk shows
      its result, or "No output" when that is null or empty; an aborted
      walk returns before setting anything, and an endless one never gets
      there, so the previous text stays. */
  function Display(previous: Option<string>, r: WalkResult): (shown: Option<string>)
    ensures r.Finished? ==> shown.Some? && shown.value != ""
    ensures r.Finished? && r.last.Some? && r.last.value != "" ==> shown == r.last
    ensures !r.Finished? ==> shown == previous
  {
    match r
    case Finished(last, _) => Some(if last.None? || last.value == "" then NoOutput else last.value)
    case _ => previous
  }

  /** Without a node that nothing points at, nothing is asked and the page
      shows "No output". */
  lemma NoStartShowsNoOutput(nodes: seq<Node>, edges: seq<Edge>, ask: Asker, user: User, fuel: nat,
                             previous: Option<string>)
    requires forall i :: 0 <= i < |nodes| ==> HasIncoming(edges, nodes[i].id)
    ensures RunWorkflow(nodes, edges, ask, user, fuel) == Finished(Some(""), 0)
    ensures Display(previous, RunWorkflow(nodes, edges, ask, user, fuel)) == Some(NoOutput)
  {
  }

  /** Cancelling the dialog of the first node ends the run after one call,
      and the page keeps showing the previous run's result. */
  lemma CancelKeepsPreviousResult(nodes: seq<Node>, edges: seq<Edge>, ask: Asker, user: User, fuel: nat,
                                  previous: Option<string>)
    requires Start(nodes, edges).Some? && fuel > 0
    requires var first := ask(0, NodeConfig(Start(nodes, edges).value, Some("")));
      AsksForInput(first) && user(0, PromptText(first.record.prompt)) in {None, Some("")}
    ensures RunWorkflow(nodes, edges, ask, user, fuel) == Aborted(1)
    ensures Display(previous, RunWorkflow(nodes, edges, ask, user, fuel)) == previous
  {
    var start := Start(nodes, edges).value;
    assert PageStep(ask, user)(start, Some(""), 0) == RunNode(start, Some(""), 0, ask, user);
  }

  /** The first node asked is the first node in list order with no incoming
      edge, and it receives "" for its `{{input}}`. */
  lemma WalkStartsAtFirstUnfedNode(nodes: seq<Node>, edges: seq<Edge>, ask: Asker, user: User, fuel: nat)
    requires exists i :: 0 <= i < |nodes| && !HasIncoming(edges, nodes[i].id)
    ensures var i := StartFrom(nodes, edges, 0).value;
      && (forall j :: 0 <= j < i ==> HasIncoming(edges, nodes[j].id))
      && !HasIncoming(edges, nodes[i].id)
      && RunWorkflow(nodes, edges, ask, user, fuel) == Walk(nodes, edges, PageStep(ask, user), nodes[i], Some(""), 0, fuel)
  {
    var w :| 0 <= w < |nodes| && !HasIncoming(edges, nodes[w].id);
  }

  /** The node `j` successor steps after `current`; None once the chain has
      stopped. */
  function Successor(nodes: seq<Node>, edges: seq<Edge>, current: Node, j: nat): Option<Node>
    decreases j
  {
    if j == 0 then Some(current)
    else
      match Next(nodes, edges, current)
      case None => None
      case Some(next) => Successor(nodes, edges, next, j - 1)
  }

  /** Every pass of the loop body makes one or two calls, as the page's does. */
  ghost predicate StepCounts(step: Stepper) {
    forall n: Node, l: Option<string>, c: nat :: c + 1 <= step(n, l, c).calls <= c + 2
  }

  lemma PageStepCounts(ask: Asker, user: User)
    ensures StepCounts(PageStep(ask, user))
  {
    forall n: Node, l: Option<string>, c: nat ensures c + 1 <= PageStep(ask, user)(n, l, c).calls <= c + 2 {
      assert PageStep(ask, user)(n, l, c) == RunNode(n, l, c, ask, user);
    }
  }

  /** A walk that finishes has visited some m >= 1 nodes along the chain of
      successors, the last of them without a successor, made between m and
      2m calls, and its result is what the loop body gave for that last
      node. */
  lemma {:induction false} WalkFinishes(nodes: seq<Node>, edges: seq<Edge>, step: Stepper, current: Node,
                                        last: Option<string>, k: nat, fuel: nat)
    returns (m: nat, end: Node, input: Option<string>, before: nat)
    requires StepCounts(step)
    requires Walk(nodes, edges, step, current, last, k, fuel).Finished?
    ensures var w := Walk(nodes, edges, step, current, last, k, fuel);
      && 1 <= m <= fuel
      && Successor(nodes, edges, current, m - 1) == Some(end)
      && Next(nodes, edges, end).None?
      && k + m - 1 <= before <= k + 2 * (m - 1)
      && step(end, input, before) == Continue(w.last, w.calls)
      && k + m <= w.calls <= k + 2 * m
    decreases fuel
  {
    var out := step(current, last, k);
    match Next(nodes, edges, current)
    case None =>
      m, end, input, before := 1, current, last, k;
    case Some(next) =>
      var m', end', input', before' := WalkFinishes(nodes, edges, step, next, out.result, out.calls, fuel - 1);
      m, end, input, before := m' + 1, end', input', before';
  }

  /** For the page: a finished run with a start node shows the result of the
      last node of the chain, found by at most 2m calls for m nodes. */
  lemma RunWorkflowShowsLastNode(nodes: seq<Node>, edges: seq<Edge>, ask: Asker, user: User, fuel: nat,
                                 previous: Option<string>)
    returns (m: nat, end: Node, input: Option<string>, before: nat)
    requires Start(nodes, edges).Some?
    requires RunWorkflow(nodes, edges, ask, user, fuel).Finished?
    ensures var w := RunWorkflow(nodes, edges, ask, user, fuel);
      && 1 <= m <= fuel
      && Successor(nodes, edges, Start(nodes, edges).value, m - 1) == Some(end)
      && Next(nodes, edges, end).None?
      && RunNode(end, input, before, ask, user) == Continue(w.last, w.calls)
      && m <= w.calls <= 2 * m
      && (w.last.Some? && w.last.value != "" ==> Display(previous, w) == w.last)
  {
    PageStepCounts(ask, user);
    m, end, input, before := WalkFinishes(nodes, edges, PageStep(ask, user), Start(nodes, edges).value, Some(""), 0, fuel);
    assert PageStep(ask, user)(end, input, before) == RunNode(end, input, before, ask, user);
  }

  /** Once the walk has ended within some fuel, more fuel changes nothing. */
  lemma {:induction false} WalkFuelMonotone(nodes: seq<Node>, edges: seq<Edge>, step: Stepper, current: Node,
                                            last: Option<string>, k: nat, fuel: nat, more: nat)
    requires fuel <= more
    requires !Walk(nodes, edges, step, current, last, k, fuel).OutOfFuel?
    ensures Walk(nodes, edges, step, current, last, k, more) == Walk(nodes, edges, step, current, last, k, fuel)
    decreases fuel
  {
    match step(current, last, k)
    case Abort(_) =>
    case Continue(result, calls) =>
      match Next(nodes, edges, current)
      case None =>
      case Some(next) =>
        WalkFuelMonotone(nodes, edges, step, next, result, calls, fuel - 1, more - 1);
  }

  /** Fuel as long as the chain of successors is enough for the walk to end. */
  lemma {:induction false} WalkEndsOnFiniteChain(nodes: seq<Node>, edges: seq<Edge>, step: Stepper, current: Node,
                                                 last: Option<string>, k: nat, n: nat)
    requires ChainEndsWithin(nodes, edges, current, n)
    ensures !Walk(nodes, edges, step, current, last, k, n).OutOfFuel?
    decreases n
  {
    match step(current, last, k)
    case Abort(_) =>
    case Continue(result, calls) =>
      match Next(nodes, edges, current)
      case None =>
      case Some(next) =>
        WalkEndsOnFiniteChain(nodes, edges, step, next, result, calls, n - 1);
  }

  /** A set of nodes every member of which has its successor in the set:
      the chain of first edges goes round for ever. */
  ghost predicate ClosedUnderNext(nodes: seq<Node>, edges: seq<Edge>, s: set<Node>) {
    forall n :: n in s ==> Next(nodes, edges, n).Some? && Next(nodes, edges, n).value in s
  }

  lemma {:induction false} WalkDivergesWithoutAbort(nodes: seq<Node>, edges: seq<Edge>, step: Stepper, s: set<Node>,
                                                    current: Node, last: Option<string>, k: nat, fuel: nat)
    requires ClosedUnderNext(nodes, edges, s) && current in s
    requires forall n, l, c :: step(n, l, c).Continue?
    ensures Walk(nodes, edges, step, current, last, k, fuel) == OutOfFuel
    decreases fuel
  {
    if fuel > 0 {
      var out := step(current, last, k);
      WalkDivergesWithoutAbort(nodes, edges, step, s, Next(nodes, edges, current).value, out.result, out.calls, fuel - 1);
    }
  }

  /** The server never asks for input. */
  ghost predicate NeverPauses(ask: Asker) {
    forall k, c :: ask(k, c).AskReplied? ==> ask(k, c).record.status != NeedUserInput
  }

  /** No visited set: on a cycle of first edges, with a server that never
      asks for input, the walk does not end, whatever fuel it is given. */
  lemma WalkDivergesOnCycle(nodes: seq<Node>, edges: seq<Edge>, s: set<Node>, current: Node,
                            ask: Asker, user: User, fuel: nat)
    requires ClosedUnderNext(nodes, edges, s) && current in s
    requires NeverPauses(ask)
    ensures Walk(nodes, edges, PageStep(ask, user), current, Some(""), 0, fuel) == OutOfFuel
  {
    forall n, l, c ensures PageStep(ask, user)(n, l, c).Continue? {
      assert !AsksForInput(ask(c, NodeConfig(n, l)));
      assert PageStep(ask, user)(n, l, c) == RunNode(n, l, c, ask, user);
    }
    WalkDivergesWithoutAbort(nodes, edges, PageStep(ask, user), s, current, Some(""), 0, fuel);
  }

  /** A node whose first edge leads back to itself is such a cycle. */
  lemma SelfLoopDiverges(nodes: seq<Node>, edges: seq<Edge>, ask: Asker, user: User, fuel: nat)
    requires |nodes| == 1 && edges == [Edge("e", nodes[0].id, nodes[0].id)]
    requires NeverPauses(ask)
    ensures Walk(nodes, edges, PageStep(ask, user), nodes[0], Some(""), 0, fuel) == OutOfFuel
  {
    assert NodeIds(nodes)[0] == nodes[0].id;
    assert Next(nodes, edges, nodes[0]) == Some(nodes[0]);
    WalkDivergesOnCycle(nodes, edges, {nodes[0]}, nodes[0], ask, user, fuel);
  }
}
