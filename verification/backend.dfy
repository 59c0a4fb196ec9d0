/** The server's execution core: the provider dispatcher with its
    user-input marker, the `/ask` handler, and the run and resume loops over
    a saved workflow's agent list. Provider back ends are an oracle. */
module Backend {
  import opened Base
  import opened Text
  import opened Workflow

  /** The text a model emits to ask the user for input. */
  const Marker: string := "[USER_INPUT_REQUEST]"
  const DefaultPrompt: string := "Please provide input:"
  /** The placeholder the run loop fills with the previous step's output. */
  const InputSlot: string := "{{input}}"

  /** The dictionary `call_model` returns (a missing key is None). */
  datatype CallResult = CallResult(status: Status, response: Option<string>, prompt: Option<string>)

  /** Turns a model's raw text into a call result: text holding the marker
      pauses for user input, any other text succeeds unchanged. */
  function Classify(result: string): (r: CallResult)
    ensures r.status != Error
    ensures r.status == NeedUserInput <==> Contains(result, Marker)
    ensures r.status == NeedUserInput ==> r.response.None? && r.prompt.Some? && r.prompt.value != ""
    ensures r.status == Success ==> r.response == Some(result) && r.prompt.None?
  {
    if Contains(result, Marker) then
      var p := PyStrip(AfterLast(result, Marker));
      CallResult(NeedUserInput, None, Some(if p == "" then DefaultPrompt else p))
    else
      CallResult(Success, Some(result), None)
  }

  /** The prompt of a pause is the text after the LAST marker with
      surrounding white space removed, or the default when that text is
      blank. */
  lemma ClassifyPrompt(result: string)
    requires Contains(result, Marker)
    ensures var tail := AfterLast(result, Marker);
      && tail == result[|result| - |tail|..]
      && !Contains(tail, Marker)
      && |tail| + |Marker| <= |result|
      && MatchesAt(result, Marker, |result| - |tail| - |Marker|)
      && ((forall k :: 0 <= k < |tail| ==> IsPySpace(tail[k])) ==> Classify(result).prompt == Some(DefaultPrompt))
      && ((exists k :: 0 <= k < |tail| && !IsPySpace(tail[k])) ==> Classify(result).prompt == Some(PyStrip(tail)))
  {
    var tail := AfterLast(result, Marker);
    AfterLastSpec(result, Marker);
    PyStripEmptyIff(tail);
  }

  datatype ProviderKind = OpenAI | HuggingFace | Local

  function KindName(k: ProviderKind): string {
    match k
    case OpenAI => "openai"
    case HuggingFace => "huggingface"
    case Local => "local"
  }

  /** The provider a configuration names, compared after lower-casing;
      None for a provider the dispatcher does not support. */
  function KindOf(provider: string): (k: Option<ProviderKind>)
    ensures k.Some? ==> AsciiLower(provider) == KindName(k.value)
    ensures k.None? ==> forall kind: ProviderKind :: AsciiLower(provider) != KindName(kind)
  {
    var p := AsciiLower(provider);
    if p == "openai" then Some(OpenAI)
    else if p == "huggingface" then Some(HuggingFace)
    else if p == "local" then Some(Local)
    else None
  }

  /** Provider names match whatever their letter case: a name and its
      lower-cased form select the same provider (for instance "OpenAI",
      "LOCAL"), and a name no lowering turns into a known one is
      unsupported. */
  lemma KindOfIgnoresCase(provider: string)
    ensures KindOf(AsciiLower(provider)) == KindOf(provider)
    ensures KindOf("OpenAI") == Some(OpenAI)
    ensures KindOf("HuggingFace") == Some(HuggingFace)
    ensures KindOf("LOCAL") == Some(Local)
    ensures KindOf("ollama") == None
  {
    AsciiLowerIdempotent(provider);
    assert AsciiLower("OpenAI") == "openai";
    assert AsciiLower("HuggingFace") == "huggingface";
    assert AsciiLower("LOCAL") == "local";
    assert AsciiLower("ollama")[1] == 'l';
  }

  /** What a provider back end does with one call: return text or raise. */
  datatype Outcome = Returned(text: string) | Raised(message: string)

  /** The provider back ends (network calls) as an oracle: the outcome of the
      k-th call of one request, to the given provider, with the given
      configuration. */
  type Providers = (nat, ProviderKind, StoredAgent) -> Outcome

  /** `call_model` with the caller's exception handler folded in: dispatch on
      the provider, classify the text, and turn a raised exception into an
      "error" result. */
  function CallModel(k: nat, agent: StoredAgent, providers: Providers): (r: CallResult)
    ensures r.status == Error <==>
      KindOf(agent.provider).Some? && providers(k, KindOf(agent.provider).value, agent).Raised?
    ensures r.status == Error ==>
      r.response == Some("Error: " + providers(k, KindOf(agent.provider).value, agent).message) && r.prompt.None?
    ensures r.status == NeedUserInput ==> r.response.None? && r.prompt.Some?
    ensures r.status == Success ==> r.response.Some? && r.prompt.None?
  {
    match KindOf(agent.provider)
    case None => Classify(UnsupportedPrefix + agent.provider)
    case Some(kind) =>
      match providers(k, kind, agent)
      case Returned(text) => Classify(text)
      case Raised(message) => CallResult(Error, Some("Error: " + message), None)
  }

  /** Which text `call_model` classifies: the provider's text, or, without
      any call, the unsupported-provider message, which succeeds unless the
      provider name itself holds the marker. */
  lemma CallModelClassifies(k: nat, agent: StoredAgent, providers: Providers)
    ensures KindOf(agent.provider).Some? && providers(k, KindOf(agent.provider).value, agent).Returned? ==>
      CallModel(k, agent, providers) == Classify(providers(k, KindOf(agent.provider).value, agent).text)
    ensures KindOf(agent.provider).None? ==>
      CallModel(k, agent, providers) == Classify(UnsupportedPrefix + agent.provider)
    ensures KindOf(agent.provider).None? && !Contains(agent.provider, Marker) ==>
      CallModel(k, agent, providers) == CallResult(Success, Some(UnsupportedPrefix + agent.provider), None)
  {
    if KindOf(agent.provider).None? && !Contains(agent.provider, Marker) {
      UnsupportedMessageHasNoMarker(agent.provider);
    }
  }

  const UnsupportedPrefix: string := "Unsupported provider: "

  lemma UnsupportedMessageHasNoMarker(provider: string)
    requires !Contains(provider, Marker)
    ensures !Contains(UnsupportedPrefix + provider, Marker)
  {
    assert Marker[0] == '[';
    assert '[' !in UnsupportedPrefix;
    NoMatchAcross(UnsupportedPrefix, provider, Marker);
  }

  /** A record of the `/ask` reply. */
  datatype AskRecord = AskRecord(
    provider: string,
    model: string,
    query: string,
    status: Status,
    response: Option<string>,
    prompt: Option<string>,
    additionalInfo: Option<map<string, string>>)

  /** `/ask`: every agent is called with its own query, independently of the
      others; there is no chaining and no stop at a pause. */
  function Ask(agents: seq<StoredAgent>, providers: Providers): (rs: seq<AskRecord>)
    ensures |rs| == |agents|
    ensures forall i :: 0 <= i < |agents| ==>
      && rs[i].provider == agents[i].provider
      && rs[i].model == agents[i].model
      && rs[i].query == agents[i].query
      && rs[i].additionalInfo == agents[i].additionalInfo
      && CallResult(rs[i].status, rs[i].response, rs[i].prompt) == CallModel(i, agents[i], providers)
  {
    seq(|agents|, i requires 0 <= i < |agents| =>
      var out := CallModel(i, agents[i], providers);
      AskRecord(agents[i].provider, agents[i].model, agents[i].query,
        out.status, out.response, out.prompt, agents[i].additionalInfo))
  }

  /** The agent Python's `agents[idx]` selects (negative indices count from
      the end), or None where it raises IndexError. */
  function AgentAt(agents: seq<StoredAgent>, idx: int): (a: Option<StoredAgent>)
    ensures a.Some? <==> -|agents| <= idx < |agents|
    ensures 0 <= idx < |agents| ==> a == Some(agents[idx])
    ensures -|agents| <= idx < 0 ==> a == Some(agents[|agents| + idx])
  {
    if 0 <= idx < |agents| then Some(agents[idx])
    else if -|agents| <= idx < 0 then Some(agents[|agents| + idx])
    else None
  }

  /** The query a step sends: every `{{input}}` replaced by the input. */
  function StepQuery(agent: StoredAgent, input: string): (q: string)
    ensures !Contains(agent.query, InputSlot) ==> q == agent.query
    ensures Find(agent.query, InputSlot, 0).Some? ==>
      var i := Find(agent.query, InputSlot, 0).value;
      q == agent.query[..i] + input + PyReplaceAll(agent.query[i + |InputSlot|..], InputSlot, input)
  {
    if Find(agent.query, InputSlot, 0).Some? then
      var i := Find(agent.query, InputSlot, 0).value;
      assert agent.query == agent.query[..i] + InputSlot + agent.query[i + |InputSlot|..];
      PyReplaceAllSplit(agent.query[..i], InputSlot, agent.query[i + |InputSlot|..], input);
      PyReplaceAll(agent.query, InputSlot, input)
    else
      PyReplaceAll(agent.query, InputSlot, input)
  }

  /** One trace record: the stored agent's provider and model, the query
      actually sent, and the call's outcome. */
  function Entry(step: int, agent: StoredAgent, query: string, out: CallResult): TraceEntry {
    TraceEntry(step, agent.provider, agent.model, query, out.status, out.response, out.prompt)
  }

  /** The k-th model call of a request, with the configuration it is given. */
  type Caller = (nat, StoredAgent) -> CallResult

  /** The caller the server uses: `call_model` over the provider oracle. */
  function Dispatcher(providers: Providers): Caller {
    (k: nat, agent: StoredAgent) => CallModel(k, agent, providers)
  }

  /** The loop shared by run and resume, at list index `idx` of a request
      that started at `start`; step numbers are `idx + offset`. */
  function Loop(agents: seq<StoredAgent>, call: Caller, start: int, idx: int,
                input: string, trace: seq<TraceEntry>, offset: int): (r: Http<Reply>)
    requires start <= idx
    ensures r.Rejected? ==> idx < -|agents|
    ensures r.Answered? && r.body.PausedReply? ==> idx <= r.body.step < |agents|
    ensures r.Answered? && r.body.OtherReply? ==>
      r.body.status == "success" && r.body.finalOutput.Some? && r.body.trace.Some?
    decreases |agents| - idx
  {
    if idx >= |agents| then
      Answered(OtherReply("success", Some(input), Some(trace)))
    else
      match AgentAt(agents, idx)
      case None => Rejected
      case Some(agent) =>
        var query := StepQuery(agent, input);
        var out := call(idx - start, agent.(query := query));
        var trace' := trace + [Entry(idx + offset, agent, query, out)];
        if out.status == NeedUserInput then
          Answered(PausedReply(idx, out.prompt.GetOr(""), trace'))
        else
          Loop(agents, call, start, idx + 1, out.response.GetOr(""), trace', offset)
  }

  /** `POST /workflow/{id}/run` for a stored agent list. */
  function Run(agents: seq<StoredAgent>, providers: Providers): (r: Http<Reply>)
    ensures r.Answered?
    ensures r.body.PausedReply? ==> 0 <= r.body.step < |agents|
    ensures r.body.OtherReply? ==> r.body.status == "success" && r.body.trace.Some?
  {
    Loop(agents, Dispatcher(providers), 0, 0, "", [], 1)
  }

  /** `POST /workflow/{id}/resume` for a stored agent list. */
  function Resume(agents: seq<StoredAgent>, providers: Providers, stepIndex: int, userInput: string): (r: Http<Reply>)
    ensures r.Rejected? ==> stepIndex < -|agents|
    ensures r.Answered? && r.body.PausedReply? ==> stepIndex <= r.body.step < |agents|
    ensures stepIndex >= |agents| ==> r == Answered(OtherReply("success", Some(userInput), Some([])))
  {
    Loop(agents, Dispatcher(providers), stepIndex, stepIndex, userInput, [], 0)
  }

  // ---------------------------------------------------------------------
  // The trace a request produces, described step by step.

  /** The input of step j of a trace: the request's initial input, then the
      previous step's response. */
  function InputOf(input0: string, t: seq<TraceEntry>, j: nat): string
    requires j <= |t|
  {
    if j == 0 then input0 else t[j - 1].response.GetOr("")
  }

  /** The record step j of a request starting at list index `start` writes,
      given its input; None where the list index is out of range. */
  function StepRecord(agents: seq<StoredAgent>, call: Caller, start: int, offset: int,
                      j: nat, input: string): Option<TraceEntry>
  {
    match AgentAt(agents, start + j)
    case None => None
    case Some(agent) =>
      var query := StepQuery(agent, input);
      Some(Entry(start + j + offset, agent, query, call(j, agent.(query := query))))
  }

  /** Each record of `t` is the one its step writes, fed by the step before. */
  ghost predicate Chained(agents: seq<StoredAgent>, call: Caller, start: int, offset: int,
                          input0: string, t: seq<TraceEntry>)
  {
    forall j {:trigger InputOf(input0, t, j)} :: 0 <= j < |t| ==>
      StepRecord(agents, call, start, offset, j, InputOf(input0, t, j)) == Some(t[j])
  }

  ghost predicate NoPause(t: seq<TraceEntry>, n: int) {
    forall j :: 0 <= j < n && j < |t| ==> t[j].status != NeedUserInput
  }

  /** A completed request: one chained record per agent from `start` on, none
      of them a pause, and the last response (or the initial input) as
      final output. */
  ghost predicate Completed(agents: seq<StoredAgent>, call: Caller, start: int, offset: int,
                            input0: string, reply: Reply)
  {
    && reply.OtherReply? && reply.status == "success"
    && reply.trace.Some? && reply.finalOutput.Some?
    && var t := reply.trace.value;
    && |t| == (if start >= |agents| then 0 else |agents| - start)
    && Chained(agents, call, start, offset, input0, t)
    && NoPause(t, |t|)
    && reply.finalOutput.value == InputOf(input0, t, |t|)
  }

  /** A paused request: chained records up to and including the first pause,
      which is at list index `step`. */
  ghost predicate PausedAt(agents: seq<StoredAgent>, call: Caller, start: int, offset: int,
                           input0: string, reply: Reply)
  {
    && reply.PausedReply?
    && var t := reply.pausedTrace;
    && start <= reply.step < |agents|
    && |t| == reply.step - start + 1
    && Chained(agents, call, start, offset, input0, t)
    && NoPause(t, |t| - 1)
    && t[|t| - 1].status == NeedUserInput
    && t[|t| - 1].prompt.GetOr("") == reply.prompt
  }

  lemma ChainedExtend(agents: seq<StoredAgent>, call: Caller, start: int, offset: int,
                      input0: string, t: seq<TraceEntry>, e: TraceEntry)
    requires Chained(agents, call, start, offset, input0, t)
    requires StepRecord(agents, call, start, offset, |t|, InputOf(input0, t, |t|)) == Some(e)
    ensures Chained(agents, call, start, offset, input0, t + [e])
  {
    var t' := t + [e];
    forall j | 0 <= j < |t'|
      ensures StepRecord(agents, call, start, offset, j, InputOf(input0, t', j)) == Some(t'[j])
    {
      if j < |t| {
        assert InputOf(input0, t', j) == InputOf(input0, t, j);
      } else {
        assert InputOf(input0, t', j) == InputOf(input0, t, |t|);
      }
    }
  }

  /** One step of the loop from a chained, pause-free trace: the record it
      appends keeps the trace chained. */
  lemma LoopStep(agents: seq<StoredAgent>, call: Caller, start: int, idx: int,
                 input0: string, trace: seq<TraceEntry>, offset: int) returns (e: TraceEntry)
    requires start <= idx < |agents| && -|agents| <= idx && |trace| == idx - start
    requires Chained(agents, call, start, offset, input0, trace)
    requires NoPause(trace, |trace|)
    ensures Chained(agents, call, start, offset, input0, trace + [e])
    ensures var r := Loop(agents, call, start, idx, InputOf(input0, trace, |trace|), trace, offset);
      if e.status == NeedUserInput then
        r == Answered(PausedReply(idx, e.prompt.GetOr(""), trace + [e]))
      else
        && NoPause(trace + [e], |trace| + 1)
        && r == Loop(agents, call, start, idx + 1, InputOf(input0, trace + [e], |trace| + 1), trace + [e], offset)
  {
    var input := InputOf(input0, trace, |trace|);
    var agent := AgentAt(agents, idx).value;
    var query := StepQuery(agent, input);
    var out := call(idx - start, agent.(query := query));
    e := Entry(idx + offset, agent, query, out);
    assert StepRecord(agents, call, start, offset, |trace|, input) == Some(e);
    ChainedExtend(agents, call, start, offset, input0, trace, e);
    assert InputOf(input0, trace + [e], |trace| + 1) == out.response.GetOr("");
  }

  /** The loop is rejected exactly when it starts before the list even as a
      negative index. */
  lemma {:induction false} LoopRejected(agents: seq<StoredAgent>, call: Caller, start: int, idx: int,
                                        input: string, trace: seq<TraceEntry>, offset: int)
    requires start <= idx
    requires idx <= |agents| || idx == start
    ensures Loop(agents, call, start, idx, input, trace, offset).Rejected? <==> idx < -|agents|
    decreases |agents| - idx
  {
    if -|agents| <= idx < |agents| {
      var agent := AgentAt(agents, idx).value;
      var query := StepQuery(agent, input);
      var out := call(idx - start, agent.(query := query));
      if out.status != NeedUserInput {
        LoopRejected(agents, call, start, idx + 1, out.response.GetOr(""),
          trace + [Entry(idx + offset, agent, query, out)], offset);
      }
    }
  }

  /** A loop that completes, from the middle of a request whose trace so far
      is chained and pause-free, completes that trace. */
  lemma {:induction false} LoopCompleted(agents: seq<StoredAgent>, call: Caller, start: int, idx: int,
                                         input0: string, trace: seq<TraceEntry>, offset: int)
    requires start <= idx && |trace| == idx - start
    requires idx <= |agents| || idx == start
    requires Chained(agents, call, start, offset, input0, trace)
    requires NoPause(trace, |trace|)
    requires var r := Loop(agents, call, start, idx, InputOf(input0, trace, |trace|), trace, offset);
      r.Answered? && r.body.OtherReply?
    ensures Completed(agents, call, start, offset, input0,
      Loop(agents, call, start, idx, InputOf(input0, trace, |trace|), trace, offset).body)
    decreases |agents| - idx
  {
    if idx < |agents| {
      var e := LoopStep(agents, call, start, idx, input0, trace, offset);
      LoopCompleted(agents, call, start, idx + 1, input0, trace + [e], offset);
      CompletedStepBack(agents, call, start, idx, input0, trace, offset, e);
    } else {
      LoopAtEnd(agents, call, start, idx, input0, trace, offset);
    }
  }

  /** A completion one step on is a completion from here, once the step
      did not pause. */
  lemma CompletedStepBack(agents: seq<StoredAgent>, call: Caller, start: int, idx: int,
                          input0: string, trace: seq<TraceEntry>, offset: int, e: TraceEntry)
    requires start <= idx < |agents|
    requires e.status != NeedUserInput
    requires Loop(agents, call, start, idx, InputOf(input0, trace, |trace|), trace, offset)
          == Loop(agents, call, start, idx + 1, InputOf(input0, trace + [e], |trace| + 1), trace + [e], offset)
    requires var r := Loop(agents, call, start, idx + 1, InputOf(input0, trace + [e], |trace| + 1), trace + [e], offset);
      r.Answered? && Completed(agents, call, start, offset, input0, r.body)
    ensures Completed(agents, call, start, offset, input0,
      Loop(agents, call, start, idx, InputOf(input0, trace, |trace|), trace, offset).body)
  {
  }

  /** Past the end of the list the loop answers with the trace so far. */
  lemma LoopAtEnd(agents: seq<StoredAgent>, call: Caller, start: int, idx: int,
                  input0: string, trace: seq<TraceEntry>, offset: int)
    requires start <= idx && |trace| == idx - start && |agents| <= idx
    requires idx == |agents| || idx == start
    requires Chained(agents, call, start, offset, input0, trace)
    requires NoPause(trace, |trace|)
    ensures Completed(agents, call, start, offset, input0,
      Loop(agents, call, start, idx, InputOf(input0, trace, |trace|), trace, offset).body)
  {
    assert Loop(agents, call, start, idx, InputOf(input0, trace, |trace|), trace, offset)
        == Answered(OtherReply("success", Some(InputOf(input0, trace, |trace|)), Some(trace)));
  }

  /** A loop that pauses, from the middle of a request whose trace so far is
      chained and pause-free, pauses at its first pausing step. */
  lemma {:induction false} LoopPaused(agents: seq<StoredAgent>, call: Caller, start: int, idx: int,
                                      input0: string, trace: seq<TraceEntry>, offset: int)
    requires start <= idx && |trace| == idx - start
    requires idx <= |agents| || idx == start
    requires Chained(agents, call, start, offset, input0, trace)
    requires NoPause(trace, |trace|)
    requires var r := Loop(agents, call, start, idx, InputOf(input0, trace, |trace|), trace, offset);
      r.Answered? && r.body.PausedReply?
    ensures PausedAt(agents, call, start, offset, input0,
      Loop(agents, call, start, idx, InputOf(input0, trace, |trace|), trace, offset).body)
    decreases |agents| - idx
  {
    assert idx < |agents| && -|agents| <= idx;
    var e := LoopStep(agents, call, start, idx, input0, trace, offset);
    if e.status != NeedUserInput {
      LoopPaused(agents, call, start, idx + 1, input0, trace + [e], offset);
      PausedStepBack(agents, call, start, idx, input0, trace, offset, e);
    } else {
      assert NoPause(trace + [e], |trace|);
    }
  }

  /** A pause one step on is a pause from here, once the step did not
      pause. */
  lemma PausedStepBack(agents: seq<StoredAgent>, call: Caller, start: int, idx: int,
                       input0: string, trace: seq<TraceEntry>, offset: int, e: TraceEntry)
    requires start <= idx < |agents|
    requires e.status != NeedUserInput
    requires Loop(agents, call, start, idx, InputOf(input0, trace, |trace|), trace, offset)
          == Loop(agents, call, start, idx + 1, InputOf(input0, trace + [e], |trace| + 1), trace + [e], offset)
    requires var r := Loop(agents, call, start, idx + 1, InputOf(input0, trace + [e], |trace| + 1), trace + [e], offset);
      r.Answered? && PausedAt(agents, call, start, offset, input0, r.body)
    ensures PausedAt(agents, call, start, offset, input0,
      Loop(agents, call, start, idx, InputOf(input0, trace, |trace|), trace, offset).body)
  {
  }

  /** The loop from its first step: rejected, completed or paused. */
  lemma LoopOutcome(agents: seq<StoredAgent>, call: Caller, start: int, input0: string, offset: int)
    ensures var r := Loop(agents, call, start, start, input0, [], offset);
      && (r.Rejected? <==> start < -|agents|)
      && (r.Answered? && r.body.OtherReply? ==> Completed(agents, call, start, offset, input0, r.body))
      && (r.Answered? && r.body.PausedReply? ==> PausedAt(agents, call, start, offset, input0, r.body))
  {
    var r := Loop(agents, call, start, start, input0, [], offset);
    assert InputOf(input0, [], 0) == input0;
    LoopRejected(agents, call, start, start, input0, [], offset);
    if r.Answered? && r.body.OtherReply? {
      LoopCompleted(agents, call, start, start, input0, [], offset);
    }
    if r.Answered? && r.body.PausedReply? {
      LoopPaused(agents, call, start, start, input0, [], offset);
    }
  }

  /** A run either completes with one record per agent or stops at the
      first pause; it is never rejected. */
  lemma RunOutcome(agents: seq<StoredAgent>, providers: Providers)
    ensures Run(agents, providers).Answered?
    ensures var reply := Run(agents, providers).body;
      || Completed(agents, Dispatcher(providers), 0, 1, "", reply)
      || PausedAt(agents, Dispatcher(providers), 0, 1, "", reply)
  {
    LoopOutcome(agents, Dispatcher(providers), 0, "", 1);
  }

  /** A resume is rejected (IndexError) exactly when its step index lies
      before the start of the list even as a negative index; otherwise it
      completes or pauses like a run from that index, fed the user's text. */
  lemma ResumeOutcome(agents: seq<StoredAgent>, providers: Providers, stepIndex: int, userInput: string)
    ensures Resume(agents, providers, stepIndex, userInput).Rejected? <==> stepIndex < -|agents|
    ensures var r := Resume(agents, providers, stepIndex, userInput);
      r.Answered? ==>
        || Completed(agents, Dispatcher(providers), stepIndex, 0, userInput, r.body)
        || PausedAt(agents, Dispatcher(providers), stepIndex, 0, userInput, r.body)
  {
    LoopOutcome(agents, Dispatcher(providers), stepIndex, userInput, 0);
  }

  /** Every answer of `call` that is not a pause carries a response. */
  ghost predicate Responds(call: Caller) {
    forall k: nat, a: StoredAgent :: call(k, a).status != NeedUserInput ==> call(k, a).response.Some?
  }

  lemma DispatcherResponds(providers: Providers)
    ensures Responds(Dispatcher(providers))
  {
    forall k: nat, a: StoredAgent | Dispatcher(providers)(k, a).status != NeedUserInput
      ensures Dispatcher(providers)(k, a).response.Some?
    {
      var r := CallModel(k, a, providers);
      assert r.status == Error || r.status == Success;
    }
  }

  /** The records of a completed request, one per list index from `start`
      on, numbered `index + offset`. */
  lemma CompletedShape(agents: seq<StoredAgent>, call: Caller, start: int, offset: int,
                       input0: string, reply: Reply)
    requires 0 <= start
    requires Completed(agents, call, start, offset, input0, reply)
    ensures var t := reply.trace.value;
      && (forall j :: 0 <= j < |t| ==>
           && t[j].step == start + j + offset
           && t[j].provider == agents[start + j].provider
           && t[j].model == agents[start + j].model)
      && (|t| > 0 ==> reply.finalOutput == Some(t[|t| - 1].response.GetOr("")))
      && (|t| > 0 && Responds(call) ==> reply.finalOutput == t[|t| - 1].response)
  {
    var t := reply.trace.value;
    forall j | 0 <= j < |t|
      ensures t[j].step == start + j + offset
      ensures t[j].provider == agents[start + j].provider && t[j].model == agents[start + j].model
    {
      assert StepRecord(agents, call, start, offset, j, InputOf(input0, t, j)) == Some(t[j]);
    }
    if |t| > 0 {
      var j := |t| - 1;
      assert StepRecord(agents, call, start, offset, j, InputOf(input0, t, j)) == Some(t[j]);
      assert t[j].status != NeedUserInput;
    }
  }

  /** A completed run has exactly one record per agent, numbered 1..n in list
      order, each with the stored provider and model and none a pause; the
      final output is the last response, or "" for an empty list. */
  lemma RunCompleted(agents: seq<StoredAgent>, providers: Providers)
    requires Run(agents, providers).Answered? && Run(agents, providers).body.OtherReply?
    ensures var reply := Run(agents, providers).body;
      && reply.status == "success"
      && reply.trace.Some? && |reply.trace.value| == |agents|
      && (forall j :: 0 <= j < |agents| ==>
           && reply.trace.value[j].step == j + 1
           && reply.trace.value[j].provider == agents[j].provider
           && reply.trace.value[j].model == agents[j].model
           && reply.trace.value[j].status != NeedUserInput)
      && (|agents| == 0 ==> reply.finalOutput == Some(""))
      && (|agents| > 0 ==> reply.finalOutput == reply.trace.value[|agents| - 1].response)
  {
    RunOutcome(agents, providers);
    var reply := Run(agents, providers).body;
    DispatcherResponds(providers);
    CompletedShape(agents, Dispatcher(providers), 0, 1, "", reply);
    var t := reply.trace.value;
    assert |t| == |agents| && NoPause(t, |t|);
    assert |agents| == 0 ==> reply.finalOutput.value == InputOf("", t, 0);
  }

  /** Step 0 of a run fills every `{{input}}` with "", and step i+1 fills
      every `{{input}}` with step i's response; an error's "Error: ..." text
      is passed on like any other response. */
  lemma RunQueriesChain(agents: seq<StoredAgent>, providers: Providers, t: seq<TraceEntry>)
    requires Chained(agents, Dispatcher(providers), 0, 1, "", t)
    ensures |t| <= |agents|
    ensures |t| > 0 ==> t[0].query == PyReplaceAll(agents[0].query, InputSlot, "")
    ensures forall j :: 0 < j < |t| ==>
      t[j].query == PyReplaceAll(agents[j].query, InputSlot, t[j - 1].response.GetOr(""))
    ensures forall j :: 0 <= j < |t| && t[j].status == Error ==>
      t[j].response.Some? && |t[j].response.value| >= 7 && t[j].response.value[..7] == "Error: "
  {
    var call := Dispatcher(providers);
    if |t| > 0 {
      assert StepRecord(agents, call, 0, 1, |t| - 1, InputOf("", t, |t| - 1)).Some?;
    }
    forall j | 0 <= j < |t|
      ensures t[j].query == PyReplaceAll(agents[j].query, InputSlot, InputOf("", t, j))
      ensures t[j].status == Error ==> t[j].response.Some? && |t[j].response.value| >= 7 && t[j].response.value[..7] == "Error: "
    {
      assert StepRecord(agents, call, 0, 1, j, InputOf("", t, j)) == Some(t[j]);
    }
  }

  /** A paused run reports the 0-based index of the pausing agent and a trace
      of length index + 1 that ends in the pause, numbered index + 1. */
  lemma RunPause(agents: seq<StoredAgent>, providers: Providers)
    requires Run(agents, providers).Answered? && Run(agents, providers).body.PausedReply?
    ensures var reply := Run(agents, providers).body;
      && 0 <= reply.step < |agents|
      && |reply.pausedTrace| == reply.step + 1
      && reply.pausedTrace[reply.step].step == reply.step + 1
      && reply.pausedTrace[reply.step].status == NeedUserInput
      && reply.pausedTrace[reply.step].response.None?
      && reply.prompt != ""
      && forall j :: 0 <= j < reply.step ==> reply.pausedTrace[j].status != NeedUserInput
  {
    RunOutcome(agents, providers);
    var reply := Run(agents, providers).body;
    var t := reply.pausedTrace;
    var p := reply.step;
    assert StepRecord(agents, Dispatcher(providers), 0, 1, p, InputOf("", t, p)) == Some(t[p]);
  }

  lemma {:induction false} LoopPauseAfter(agents: seq<StoredAgent>, call: Caller, start: int, idx: int,
                                          input: string, trace: seq<TraceEntry>, offset: int)
    requires start <= idx
    requires Loop(agents, call, start, idx, input, trace, offset).Answered?
    requires Loop(agents, call, start, idx, input, trace, offset).body.PausedReply?
    ensures idx <= Loop(agents, call, start, idx, input, trace, offset).body.step < |agents|
    decreases |agents| - idx
  {
    var agent := AgentAt(agents, idx).value;
    var query := StepQuery(agent, input);
    var out := call(idx - start, agent.(query := query));
    if out.status != NeedUserInput {
      var trace' := trace + [Entry(idx + offset, agent, query, out)];
      LoopPauseAfter(agents, call, start, idx + 1, out.response.GetOr(""), trace', offset);
    }
  }

  /** The loop makes no call past the pausing step: two callers that agree
      on the calls up to the pause give the same reply. */
  lemma {:induction false} LoopIgnoresLaterCalls(agents: seq<StoredAgent>, c1: Caller, c2: Caller,
                                                 start: int, idx: int, input: string,
                                                 trace: seq<TraceEntry>, offset: int)
    requires start <= idx
    requires Loop(agents, c1, start, idx, input, trace, offset).Answered?
    requires Loop(agents, c1, start, idx, input, trace, offset).body.PausedReply?
    requires forall k: nat, a :: k <= Loop(agents, c1, start, idx, input, trace, offset).body.step - start ==>
      c1(k, a) == c2(k, a)
    ensures Loop(agents, c2, start, idx, input, trace, offset) == Loop(agents, c1, start, idx, input, trace, offset)
    decreases |agents| - idx
  {
    var agent := AgentAt(agents, idx).value;
    var query := StepQuery(agent, input);
    var out := c1(idx - start, agent.(query := query));
    LoopPauseAfter(agents, c1, start, idx, input, trace, offset);
    assert c2(idx - start, agent.(query := query)) == out;
    if out.status != NeedUserInput {
      var trace' := trace + [Entry(idx + offset, agent, query, out)];
      LoopIgnoresLaterCalls(agents, c1, c2, start, idx + 1, out.response.GetOr(""), trace', offset);
    }
  }

  /** Later agents are never invoked: a run that pauses at step i gives the
      same reply whatever the providers would answer after call i. */
  lemma RunIgnoresCallsAfterPause(agents: seq<StoredAgent>, p1: Providers, p2: Providers)
    requires Run(agents, p1).Answered? && Run(agents, p1).body.PausedReply?
    requires forall k: nat, kind, a :: k <= Run(agents, p1).body.step ==> p1(k, kind, a) == p2(k, kind, a)
    ensures Run(agents, p2) == Run(agents, p1)
  {
    var r := Run(agents, p1);
    forall k: nat, a | k <= r.body.step ensures Dispatcher(p1)(k, a) == Dispatcher(p2)(k, a) {
      if KindOf(a.provider).Some? {
        assert p1(k, KindOf(a.provider).value, a) == p2(k, KindOf(a.provider).value, a);
      }
    }
    LoopIgnoresLaterCalls(agents, Dispatcher(p1), Dispatcher(p2), 0, 0, "", [], 1);
  }

  /** A resume from an index at or past the end calls nothing and echoes the
      user's text as final output. */
  lemma ResumePastEnd(agents: seq<StoredAgent>, providers: Providers, stepIndex: int, userInput: string)
    requires stepIndex >= |agents|
    ensures Resume(agents, providers, stepIndex, userInput) == Answered(OtherReply("success", Some(userInput), Some([])))
  {
  }

  /** A resume re-runs the paused agent itself, with the user's text in place
      of every `{{input}}` (not `{{user_input}}`), numbering steps by their
      0-based list index. */
  lemma ResumeRerunsPausedStep(agents: seq<StoredAgent>, providers: Providers, stepIndex: int, userInput: string)
    requires 0 <= stepIndex < |agents|
    ensures Resume(agents, providers, stepIndex, userInput).Answered?
    ensures var r := Resume(agents, providers, stepIndex, userInput).body;
      var t := if r.PausedReply? then r.pausedTrace else r.trace.GetOr([]);
      && |t| > 0
      && t[0].query == PyReplaceAll(agents[stepIndex].query, InputSlot, userInput)
      && forall j :: 0 <= j < |t| ==> t[j].step == stepIndex + j
  {
    ResumeOutcome(agents, providers, stepIndex, userInput);
    var r := Resume(agents, providers, stepIndex, userInput).body;
    var t := if r.PausedReply? then r.pausedTrace else r.trace.GetOr([]);
    forall j | 0 <= j < |t| ensures t[j].step == stepIndex + j {
      assert StepRecord(agents, Dispatcher(providers), stepIndex, 0, j, InputOf(userInput, t, j)) == Some(t[j]);
    }
    assert StepRecord(agents, Dispatcher(providers), stepIndex, 0, 0, InputOf(userInput, t, 0)) == Some(t[0]);
  }

  // ---------------------------------------------------------------------
  // Run and resume from the start.

  function ShiftTrace(t: seq<TraceEntry>, d: int): (u: seq<TraceEntry>)
    ensures |u| == |t|
    ensures forall j :: 0 <= j < |t| ==> u[j] == t[j].(step := t[j].step + d)
  {
    seq(|t|, j requires 0 <= j < |t| => t[j].(step := t[j].step + d))
  }

  /** Renumbers the steps of a reply's trace by `d`. */
  function ShiftReply(r: Http<Reply>, d: int): Http<Reply> {
    match r
    case Rejected => Rejected
    case Answered(PausedReply(step, prompt, t)) => Answered(PausedReply(step, prompt, ShiftTrace(t, d)))
    case Answered(OtherReply(status, fo, t)) =>
      Answered(OtherReply(status, fo, if t.Some? then Some(ShiftTrace(t.value, d)) else None))
  }

  /** One step of the loop at a stored agent. */
  lemma LoopUnfold(agents: seq<StoredAgent>, call: Caller, start: int, idx: int,
                   input: string, trace: seq<TraceEntry>, offset: int)
    requires start <= idx < |agents| && AgentAt(agents, idx).Some?
    ensures var agent := AgentAt(agents, idx).value;
            var query := StepQuery(agent, input);
            var out := call(idx - start, agent.(query := query));
            var trace' := trace + [Entry(idx + offset, agent, query, out)];
            Loop(agents, call, start, idx, input, trace, offset)
              == if out.status == NeedUserInput then Answered(PausedReply(idx, out.prompt.GetOr(""), trace'))
                 else Loop(agents, call, start, idx + 1, out.response.GetOr(""), trace', offset)
  {
  }

  lemma ShiftTraceAppend(trace: seq<TraceEntry>, e: TraceEntry, d: int)
    ensures ShiftTrace(trace, d) + [e.(step := e.step + d)] == ShiftTrace(trace + [e], d)
  {
  }

  lemma {:induction false} LoopShift(agents: seq<StoredAgent>, call: Caller, start: int, idx: int,
                                     input: string, trace: seq<TraceEntry>, offset: int, d: int)
    requires start <= idx
    ensures Loop(agents, call, start, idx, input, ShiftTrace(trace, d), offset + d)
         == ShiftReply(Loop(agents, call, start, idx, input, trace, offset), d)
    decreases |agents| - idx
  {
    if idx < |agents| && AgentAt(agents, idx).Some? {
      var agent := AgentAt(agents, idx).value;
      var query := StepQuery(agent, input);
      var out := call(idx - start, agent.(query := query));
      var e := Entry(idx + offset, agent, query, out);
      var shifted := ShiftTrace(trace, d);
      ShiftTraceAppend(trace, e, d);
      assert e.(step := e.step + d) == Entry(idx + (offset + d), agent, query, out);
      LoopUnfold(agents, call, start, idx, input, trace, offset);
      LoopUnfold(agents, call, start, idx, input, shifted, offset + d);
      if out.status != NeedUserInput {
        var next := out.response.GetOr("");
        calc {
          Loop(agents, call, start, idx, input, shifted, offset + d);
          Loop(agents, call, start, idx + 1, next, ShiftTrace(trace + [e], d), offset + d);
          { LoopShift(agents, call, start, idx + 1, next, trace + [e], offset, d); }
          ShiftReply(Loop(agents, call, start, idx + 1, next, trace + [e], offset), d);
          ShiftReply(Loop(agents, call, start, idx, input, trace, offset), d);
        }
      }
    }
  }

  /** A run is a resume from index 0 with empty input, except that the run
      numbers its trace from 1 and the resume from 0. */
  lemma RunIsResumeFromZero(agents: seq<StoredAgent>, providers: Providers)
    ensures Run(agents, providers) == ShiftReply(Resume(agents, providers, 0, ""), 1)
  {
    LoopFromZero(agents, Dispatcher(providers));
  }

  lemma LoopFromZero(agents: seq<StoredAgent>, call: Caller)
    ensures Loop(agents, call, 0, 0, "", [], 1) == ShiftReply(Loop(agents, call, 0, 0, "", [], 0), 1)
  {
    LoopShift(agents, call, 0, 0, "", [], 0, 1);
    assert ShiftTrace([], 1) == [];
  }
}
