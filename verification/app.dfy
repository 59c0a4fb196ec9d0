/** The builder screen: the agent form adds an agent (a list entry plus a
    canvas node with a fresh counter id) or edits the selected one, and
    "Submit" orders the agents along the canvas edges. */
module App {
  import opened Base
  import opened Workflow
  import opened GraphPaths
  import Linearizer
  import Canvas

  datatype BuilderState = BuilderState(
    agents: seq<Agent>,
    nodes: seq<Node>,
    edges: seq<Edge>,
    counter: nat,
    /** The id of the agent picked for editing, if any. */
    selected: Option<NodeId>)

  /** The screen as it opens: the id counter starts at 2. */
  const Initial := BuilderState([], [], [], 2, None)

  /** The data a node shows for an agent: a "model: query" label and the
      form fields, without `additional_info`. */
  function NodeDataOf(d: AgentData): (n: NodeData)
    ensures n.model == d.model && n.query == d.query && n.mode == d.mode && n.provider == d.provider
    ensures n.name == d.name && n.description == d.description
    ensures |n.labelText| == |d.model| + 2 + |d.query|
    ensures n.labelText[..|d.model|] == d.model
    ensures n.labelText[|d.model|..|d.model| + 2] == ": "
    ensures n.labelText[|d.model| + 2..] == d.query
  {
    NodeData(d.model + ": " + d.query, d.model, d.query, d.mode, d.provider, d.name, d.description)
  }

  function AgentIds(agents: seq<Agent>): (ids: seq<NodeId>)
    ensures |ids| == |agents|
    ensures forall i :: 0 <= i < |agents| ==> ids[i] == agents[i].id
  {
    seq(|agents|, i requires 0 <= i < |agents| => agents[i].id)
  }

  /** Every agent with id `id` gets the new form data; the ids, the length
      and all other agents stay as they were. */
  function EditAgents(agents: seq<Agent>, id: NodeId, data: AgentData): (r: seq<Agent>)
    ensures |r| == |agents| && AgentIds(r) == AgentIds(agents)
    ensures forall i :: 0 <= i < |agents| && agents[i].id == id ==> r[i].data == data
    ensures forall i :: 0 <= i < |agents| && agents[i].id != id ==> r[i] == agents[i]
  {
    seq(|agents|, i requires 0 <= i < |agents| => if agents[i].id == id then Agent(agents[i].id, data) else agents[i])
  }

  /** Every node with id `id` shows the new form data; ids, length and all
      other nodes stay as they were. */
  function EditNodes(nodes: seq<Node>, id: NodeId, data: AgentData): (r: seq<Node>)
    ensures |r| == |nodes| && NodeIds(r) == NodeIds(nodes)
    ensures forall i :: 0 <= i < |nodes| && nodes[i].id == id ==> r[i].data == NodeDataOf(data)
    ensures forall i :: 0 <= i < |nodes| && nodes[i].id != id ==> r[i] == nodes[i]
  {
    seq(|nodes|, i requires 0 <= i < |nodes| => if nodes[i].id == id then Node(id, NodeDataOf(data)) else nodes[i])
  }

  /** The form's submit: edit the selected agent and clear the selection, or
      append a new agent and node under the counter's id and advance the
      counter. The edges are never touched. */
  function AddAgent(b: BuilderState, data: AgentData): (b': BuilderState)
    ensures b'.edges == b.edges && b'.selected.None?
    ensures b.selected.Some? ==>
      && |b'.agents| == |b.agents| && AgentIds(b'.agents) == AgentIds(b.agents)
      && |b'.nodes| == |b.nodes| && NodeIds(b'.nodes) == NodeIds(b.nodes)
      && b'.counter == b.counter
    ensures b.selected.None? ==>
      && b'.agents == b.agents + [Agent(b.counter, data)]
      && b'.nodes == b.nodes + [Node(b.counter, NodeDataOf(data))]
      && b'.counter == b.counter + 1
  {
    match b.selected
    case Some(id) =>
      b.(agents := EditAgents(b.agents, id, data), nodes := EditNodes(b.nodes, id, data), selected := None)
    case None =>
      b.(agents := b.agents + [Agent(b.counter, data)],
         nodes := b.nodes + [Node(b.counter, NodeDataOf(data))],
         counter := b.counter + 1)
  }

  /** The last agent with id `id` (a lookup table built by walking the list
      keeps the last one). */
  function AgentById(agents: seq<Agent>, id: NodeId): (r: Option<Agent>)
    ensures r.Some? ==> r.value in agents && r.value.id == id
    ensures r.None? <==> id !in AgentIds(agents)
    decreases |agents|
  {
    if |agents| == 0 then None
    else if agents[|agents| - 1].id == id then Some(agents[|agents| - 1])
    else AgentById(agents[..|agents| - 1], id)
  }

  /** When several agents share an id, the last one is the one found. */
  lemma {:induction false} AgentByIdIsLast(agents: seq<Agent>, i: nat)
    requires i < |agents|
    requires forall j :: i < j < |agents| ==> agents[j].id != agents[i].id
    ensures AgentById(agents, agents[i].id) == Some(agents[i])
    decreases |agents|
  {
    if i < |agents| - 1 {
      AgentByIdIsLast(agents[..|agents| - 1], i);
    }
  }

  /** The agents for a sorted id list: each id's agent, in the order of the
      ids, with ids that have no agent dropped. */
  function OrderAgents(order: seq<NodeId>, agents: seq<Agent>): (r: seq<Agent>)
    ensures |r| <= |order|
    ensures forall a :: a in r ==> a in agents && a.id in order
    decreases |order|
  {
    if |order| == 0 then []
    else
      var found := AgentById(agents, order[|order| - 1]);
      OrderAgents(order[..|order| - 1], agents) + (if found.Some? then [found.value] else [])
  }

  /** Ordering works piecewise on the id list, so the agents keep the order
      of their ids. */
  lemma {:induction false} OrderAgentsConcat(a: seq<NodeId>, b: seq<NodeId>, agents: seq<Agent>)
    ensures OrderAgents(a + b, agents) == OrderAgents(a, agents) + OrderAgents(b, agents)
    decreases |b|
  {
    if |b| == 0 {
      assert a + b == a;
    } else {
      var b' := b[..|b| - 1];
      assert (a + b)[..|a + b| - 1] == a + b';
      OrderAgentsConcat(a, b', agents);
    }
  }

  /** Ids with an agent are never dropped, and ids without one always are. */
  lemma {:induction false} OrderAgentsKeeps(order: seq<NodeId>, agents: seq<Agent>)
    ensures forall id :: id in order && id in AgentIds(agents) ==> AgentById(agents, id).value in OrderAgents(order, agents)
    ensures forall a :: a in OrderAgents(order, agents) ==> a.id in AgentIds(agents)
    decreases |order|
  {
    if |order| > 0 {
      var pre := order[..|order| - 1];
      OrderAgentsKeeps(pre, agents);
      forall id | id in order && id in AgentIds(agents)
        ensures AgentById(agents, id).value in OrderAgents(order, agents)
      {
        if id != order[|order| - 1] {
          assert id in pre;
        }
      }
      forall a | a in OrderAgents(order, agents) ensures a.id in AgentIds(agents) {
        var k :| 0 <= k < |agents| && agents[k] == a;
        assert AgentIds(agents)[k] == a.id;
      }
    }
  }

  /** When every id has an agent, the i-th agent sent belongs to the i-th
      sorted id. */
  lemma {:induction false} OrderAgentsComplete(order: seq<NodeId>, agents: seq<Agent>)
    requires forall id :: id in order ==> id in AgentIds(agents)
    ensures |OrderAgents(order, agents)| == |order|
    ensures forall i :: 0 <= i < |order| ==>
      OrderAgents(order, agents)[i].id == order[i] && OrderAgents(order, agents)[i] == AgentById(agents, order[i]).value
    decreases |order|
  {
    if |order| > 0 {
      var pre := order[..|order| - 1];
      forall id | id in pre ensures id in AgentIds(agents) {
        assert id in order;
      }
      OrderAgentsComplete(pre, agents);
      var last := order[|order| - 1];
      assert last in order;
      var a := AgentById(agents, last).value;
      var r := OrderAgents(order, agents);
      var r' := OrderAgents(pre, agents);
      assert r == r' + [a];
      forall i | 0 <= i < |order| ensures r[i].id == order[i] && r[i] == AgentById(agents, order[i]).value {
        if i < |pre| {
          assert r[i] == r'[i] && order[i] == pre[i];
        }
      }
    }
  }

  /** What the builder keeps true: node ids and agent ids increase along
      their lists and lie below the counter, and every node has an agent. */
  ghost predicate Valid(b: BuilderState) {
    && b.counter >= 2
    && Linearizer.Increasing(NodeIds(b.nodes))
    && Linearizer.Increasing(AgentIds(b.agents))
    && (forall i :: 0 <= i < |b.nodes| ==> b.nodes[i].id < b.counter)
    && (forall i :: 0 <= i < |b.agents| ==> b.agents[i].id < b.counter)
    && (forall i :: 0 <= i < |b.nodes| ==> b.nodes[i].id in AgentIds(b.agents))
  }

  lemma InitialValid()
    ensures Valid(Initial)
  {
  }

  lemma AppendKeepsIncreasing(ids: seq<NodeId>, x: NodeId)
    requires Linearizer.Increasing(ids)
    requires forall i :: 0 <= i < |ids| ==> ids[i] < x
    ensures Linearizer.Increasing(ids + [x])
  {
  }

  /** Adding or editing an agent keeps the builder valid. */
  lemma AddAgentKeepsValid(b: BuilderState, data: AgentData)
    requires Valid(b)
    ensures Valid(AddAgent(b, data))
  {
    var b' := AddAgent(b, data);
    if b.selected.None? {
      assert NodeIds(b'.nodes) == NodeIds(b.nodes) + [b.counter];
      assert AgentIds(b'.agents) == AgentIds(b.agents) + [b.counter];
      AppendKeepsIncreasing(NodeIds(b.nodes), b.counter);
      AppendKeepsIncreasing(AgentIds(b.agents), b.counter);
    } else {
      forall i | 0 <= i < |b'.nodes| ensures b'.nodes[i].id in AgentIds(b'.agents) {
        assert b'.nodes[i].id == NodeIds(b.nodes)[i];
      }
    }
  }

  /** Deleting keeps increasing ids increasing. */
  lemma {:induction false} FilterNodesIncreasing(nodes: seq<Node>, keep: Node -> bool)
    requires Linearizer.Increasing(NodeIds(nodes))
    ensures Linearizer.Increasing(NodeIds(Filter(nodes, keep)))
    decreases |nodes|
  {
    if |nodes| > 0 {
      var pre := nodes[..|nodes| - 1];
      assert NodeIds(pre) == NodeIds(nodes)[..|nodes| - 1];
      FilterNodesIncreasing(pre, keep);
      var f := Filter(pre, keep);
      var last := nodes[|nodes| - 1];
      if keep(last) {
        forall i | 0 <= i < |f| ensures NodeIds(f)[i] < last.id {
          var k :| 0 <= k < |pre| && pre[k] == f[i];
          assert NodeIds(nodes)[k] == f[i].id;
        }
        assert NodeIds(Filter(nodes, keep)) == NodeIds(f) + [last.id];
        AppendKeepsIncreasing(NodeIds(f), last.id);
      } else {
        assert Filter(nodes, keep) == f;
      }
    }
  }

  /** Deleting a node or an edge on the canvas keeps the builder valid; the
      deleted node's agent stays in the agent list. */
  lemma DeletesKeepValid(b: BuilderState, nodeId: NodeId, edgeId: string)
    requires Valid(b)
    ensures var (nodes', edges') := Canvas.DeleteNode(b.nodes, b.edges, nodeId);
      Valid(b.(nodes := nodes', edges := edges'))
    ensures Valid(b.(edges := Canvas.DeleteEdge(b.edges, edgeId)))
  {
    var nodes' := Canvas.DeleteNode(b.nodes, b.edges, nodeId).0;
    FilterNodesIncreasing(b.nodes, (n: Node) => n.id != nodeId);
    forall i | 0 <= i < |nodes'| ensures nodes'[i].id < b.counter && nodes'[i].id in AgentIds(b.agents) {
      var k :| 0 <= k < |b.nodes| && b.nodes[k] == nodes'[i];
    }
  }

  /** Object keys in ascending numeric order are the node list order. */
  lemma SeedOrderIsNodeOrder(b: BuilderState)
    requires Valid(b)
    ensures Linearizer.KeyOrder(NodeIds(b.nodes)) == NodeIds(b.nodes)
  {
    Linearizer.KeyOrderOfIncreasing(NodeIds(b.nodes));
  }

  /** Every edge starts at a node (otherwise the page's sort throws). */
  predicate SourcesAreNodes(b: BuilderState) {
    forall k :: 0 <= k < |b.edges| ==> b.edges[k].source in NodeIds(b.nodes)
  }

  /** "Submit": the topological order of the node ids, and the agents sent
      for it. Only agents of nodes outside cycles are sent, each node's
      (last) agent once, sources before targets; without cycles every node
      is covered. */
  method Submit(b: BuilderState) returns (order: seq<NodeId>, sent: seq<Agent>)
    requires SourcesAreNodes(b)
    ensures Distinct(order) && EdgesPrecede(order, b.edges)
    ensures forall v :: v in NodeIds(b.nodes) ==> (v in order <==> !FedByCycle(v, b.edges))
    ensures forall v :: v in order ==> v in NodeIds(b.nodes)
    ensures forall a :: a in sent ==> a in b.agents && a.id in order
    ensures Valid(b) ==> |sent| == |order| && forall i :: 0 <= i < |order| ==> sent[i].id == order[i]
    ensures Valid(b) && Acyclic(b.edges) ==> forall v :: v in order <==> v in NodeIds(b.nodes)
  {
    order := Linearizer.Linearize(NodeIds(b.nodes), b.edges);
    sent := OrderAgents(order, b.agents);
    if Valid(b) {
      forall id | id in order ensures id in AgentIds(b.agents) {
        var k :| 0 <= k < |b.nodes| && NodeIds(b.nodes)[k] == id;
      }
      OrderAgentsComplete(order, b.agents);
    }
  }
}
