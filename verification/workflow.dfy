/** The records the builder, the canvas, the backend and the list views
    exchange. Node ids are the decimal strings the builder's counter
    produces; the model keeps the number itself. */
module Workflow {
  import opened Base

  type NodeId = nat

  /** What the agent form submits. */
  datatype AgentData = AgentData(
    model: string,
    query: string,
    mode: string,
    provider: string,
    name: string,
    description: string,
    additionalInfo: map<string, string>)

  /** An entry of the builder's agent list: the form data plus the id of the
      canvas node it belongs to. */
  datatype Agent = Agent(id: NodeId, data: AgentData)

  /** The data a canvas node carries (the builder never stores
      `additional_info` on a node). */
  datatype NodeData = NodeData(
    labelText: string,
    model: string,
    query: string,
    mode: string,
    provider: string,
    name: string,
    description: string)

  datatype Node = Node(id: NodeId, data: NodeData)

  /** A directed connection: the source's output feeds the target. */
  datatype Edge = Edge(id: string, source: NodeId, target: NodeId)

  function NodeIds(nodes: seq<Node>): (ids: seq<NodeId>)
    ensures |ids| == |nodes|
    ensures forall i :: 0 <= i < |nodes| ==> ids[i] == nodes[i].id
  {
    seq(|nodes|, i requires 0 <= i < |nodes| => nodes[i].id)
  }

  /** An agent as a saved workflow stores it on the server. */
  datatype StoredAgent = StoredAgent(
    provider: string,
    model: string,
    query: string,
    mode: string,
    additionalInfo: Option<map<string, string>>)

  datatype Status = Success | NeedUserInput | Error

  /** The `status` text the server sends. */
  function StatusText(s: Status): string {
    match s
    case Success => "success"
    case NeedUserInput => "need_user_input"
    case Error => "error"
  }

  /** One record of a server execution trace. */
  datatype TraceEntry = TraceEntry(
    step: int,
    provider: string,
    model: string,
    query: string,
    status: Status,
    response: Option<string>,
    prompt: Option<string>)

  /** A run or resume reply as the client views read it: either the body of
      a reply whose status is "need_user_input", or any other body (which
      may lack a trace). */
  datatype Reply =
    | PausedReply(step: int, prompt: string, pausedTrace: seq<TraceEntry>)
    | OtherReply(status: string, finalOutput: Option<string>, trace: Option<seq<TraceEntry>>)

  /** An HTTP request either answers with a body or rejects (network
      failure, 404, 500). */
  datatype Http<+T> = Answered(body: T) | Rejected
}
