/** The simulated model handler: it answers every agent of a request with
    a canned response built from the agent's query and model, without
    calling any model. */
module ModelHandler {
  import opened Workflow

  /** One result: the agent's model and query and the canned response; there
      is no status field. */
  datatype SimResult = SimResult(model: string, query: string, response: string)

  const Prefix := "Simulated response for "
  const Using := " using "

  /** The canned text: the fixed prefix, the query, " using " and the
      model, in that order. */
  function SimulatedResponse(model: string, query: string): (r: string)
    ensures |r| == |Prefix| + |query| + |Using| + |model|
    ensures r[..|Prefix|] == Prefix
    ensures r[|Prefix|..|Prefix| + |query|] == query
    ensures r[|Prefix| + |query|..|r| - |model|] == Using
    ensures r[|r| - |model|..] == model
  {
    Prefix + query + Using + model
  }

  /** One result per agent, in the agents' order, each echoing its agent. */
  function HandleModelRequest(agents: seq<StoredAgent>): (results: seq<SimResult>)
    ensures |results| == |agents|
    ensures forall i :: 0 <= i < |agents| ==>
      && results[i].model == agents[i].model
      && results[i].query == agents[i].query
      && results[i].response == SimulatedResponse(agents[i].model, agents[i].query)
  {
    seq(|agents|, i requires 0 <= i < |agents| =>
      SimResult(agents[i].model, agents[i].query, SimulatedResponse(agents[i].model, agents[i].query)))
  }

  /** Agents are answered independently: a request split in two gets the
      two halves' results. */
  lemma HandleConcat(a: seq<StoredAgent>, b: seq<StoredAgent>)
    ensures HandleModelRequest(a + b) == HandleModelRequest(a) + HandleModelRequest(b)
  {
  }

  /** For one model, the response tells the query apart. */
  lemma ResponseDeterminesQuery(model: string, q1: string, q2: string)
    requires SimulatedResponse(model, q1) == SimulatedResponse(model, q2)
    ensures q1 == q2
  {
    var r1 := SimulatedResponse(model, q1);
    var r2 := SimulatedResponse(model, q2);
    assert |q1| == |q2|;
    assert q1 == r1[|Prefix|..|Prefix| + |q1|];
    assert q2 == r2[|Prefix|..|Prefix| + |q2|];
  }

  /** Across models it does not: a query containing " using " can make two
      different agents produce the same response. */
  lemma ResponseIsAmbiguousAcrossModels()
    ensures SimulatedResponse("z", "x using y") == SimulatedResponse("y using z", "x")
  {
  }
}
