/** The maintenance script's pass over a stored workflow's agents: every
    agent document gets a `name` and a `description` when it has none. */
module UpdateWorkflow {
  import opened Text

  /** A field value of a stored document; only strings matter here. */
  datatype Value = Str(s: string) | Null | Structured

  /** An agent document: its fields by key. */
  type AgentDoc = map<string, Value>

  const NameKey := "name"
  const DescriptionKey := "description"

  /** "Agent <n>", counting agents from 1: the digits after the prefix read
      back as the agent's 1-based position. */
  function DefaultName(idx: nat): (r: string)
    ensures |r| > 6 && r[..6] == "Agent "
    ensures forall k :: 6 <= k < |r| ==> '0' <= r[k] <= '9'
    ensures ParseNat(r[6..]) == idx + 1
  {
    var digits := NatToString(idx + 1);
    NatToStringRoundTrip(idx + 1);
    assert ("Agent " + digits)[6..] == digits;
    "Agent " + digits
  }

  /** "Description for Agent <n>", with the same number as the name. */
  function DefaultDescription(idx: nat): (r: string)
    ensures |r| > 22 && r[..22] == "Description for Agent "
    ensures r[16..] == DefaultName(idx)
  {
    var digits := NatToString(idx + 1);
    assert ("Description for Agent " + digits)[16..] == "Agent " + digits;
    "Description for Agent " + digits
  }

  /** Python's `d.get(key, default)`: a present key keeps its value, even a
      null one. */
  function Get(d: AgentDoc, key: string, default: Value): (v: Value)
    ensures key in d ==> v == d[key]
    ensures key !in d ==> v == default
  {
    if key in d then d[key] else default
  }

  /** One turn of the loop for the agent at position `idx`. */
  function WithDefaults(agent: AgentDoc, idx: nat): (r: AgentDoc)
    ensures r.Keys == agent.Keys + {NameKey, DescriptionKey}
    ensures forall k :: k in agent ==> r[k] == agent[k]
    ensures NameKey !in agent ==> r[NameKey] == Str(DefaultName(idx))
    ensures DescriptionKey !in agent ==> r[DescriptionKey] == Str(DefaultDescription(idx))
  {
    var named := agent[NameKey := Get(agent, NameKey, Str(DefaultName(idx)))];
    named[DescriptionKey := Get(named, DescriptionKey, Str(DefaultDescription(idx)))]
  }

  /** The whole loop: the list keeps its length and order, and each agent
      gets the defaults for its own position. */
  function FillDefaults(agents: seq<AgentDoc>): (r: seq<AgentDoc>)
    ensures |r| == |agents|
    ensures forall i :: 0 <= i < |agents| ==>
      && r[i].Keys == agents[i].Keys + {NameKey, DescriptionKey}
      && (forall k :: k in agents[i] ==> r[i][k] == agents[i][k])
      && (NameKey !in agents[i] ==> r[i][NameKey] == Str(DefaultName(i)))
      && (DescriptionKey !in agents[i] ==> r[i][DescriptionKey] == Str(DefaultDescription(i)))
  {
    seq(|agents|, i requires 0 <= i < |agents| => WithDefaults(agents[i], i))
  }

  /** An agent that already has both fields is left exactly as it was. */
  lemma WithDefaultsKeepsComplete(agent: AgentDoc, idx: nat)
    requires NameKey in agent && DescriptionKey in agent
    ensures WithDefaults(agent, idx) == agent
  {
    var r := WithDefaults(agent, idx);
    assert r.Keys == agent.Keys;
  }

  /** Running the script twice changes nothing the first run did not. */
  lemma FillDefaultsIdempotent(agents: seq<AgentDoc>)
    ensures FillDefaults(FillDefaults(agents)) == FillDefaults(agents)
  {
    var once := FillDefaults(agents);
    forall i | 0 <= i < |once| ensures FillDefaults(once)[i] == once[i] {
      WithDefaultsKeepsComplete(once[i], i);
    }
  }

  /** Only absent fields are filled: a name that is present but null stays
      null. */
  lemma NullNameIsKept(agent: AgentDoc, idx: nat)
    requires NameKey in agent && agent[NameKey] == Null
    ensures WithDefaults(agent, idx)[NameKey] == Null
  {
  }
}
