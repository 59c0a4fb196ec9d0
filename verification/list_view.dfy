/** The saved-workflow list: running and resuming a stored workflow on the
    server, and testing one agent in a small chat. Server replies and the
    typed text are inputs of pure transitions. */
module ListView {
  import opened Base
  import opened Text
  import opened Workflow
  import Backend

  const InputSlot := "{{input}}"
  const Marker := "[USER_INPUT_REQUEST]"
  const TestError := "Error testing agent"

  /** What the results panel shows: nothing yet, the trace of a paused run,
      or a whole reply body. */
  datatype Results = NoResults | TraceResults(trace: seq<TraceEntry>) | ReplyResults(reply: Reply)

  /** A chat line; an agent line's text is undefined when the reply had
      neither shape the page looks for. */
  datatype ChatLine = ChatLine(sender: string, text: Option<string>)

  datatype ListState = ListState(
    results: Results,
    needsInput: bool,
    userPrompt: string,
    userInput: string,
    resumeStep: Option<int>,
    activeWorkflow: Option<string>,
    selectedAgent: Option<StoredAgent>,
    testInput: string,
    chat: seq<ChatLine>)

  const Initial := ListState(NoResults, false, "", "", None, None, None, "", [])

  // ---------------------------------------------------------------------
  // Running and resuming.

  /** "Run": remember the workflow, then show the paused trace and arm the
      resume form, or show the whole reply. A failed request leaves only
      the remembered id. */
  function RunWorkflow(s: ListState, id: string, reply: Http<Reply>): (s': ListState)
    ensures s'.activeWorkflow == Some(id) && s'.chat == s.chat && s'.userInput == s.userInput
    ensures reply.Rejected? ==> s' == s.(activeWorkflow := Some(id))
    ensures reply.Answered? && reply.body.PausedReply? ==>
      && s'.needsInput && s'.userPrompt == reply.body.prompt
      && s'.resumeStep == Some(reply.body.step) && s'.results == TraceResults(reply.body.pausedTrace)
    ensures reply.Answered? && reply.body.OtherReply? ==>
      s' == s.(activeWorkflow := Some(id), results := ReplyResults(reply.body))
  {
    var s1 := s.(activeWorkflow := Some(id));
    match reply
    case Rejected => s1
    case Answered(PausedReply(step, prompt, trace)) =>
      s1.(needsInput := true, userPrompt := prompt, resumeStep := Some(step), results := TraceResults(trace))
    case Answered(other) => s1.(results := ReplyResults(other))
  }

  /** The body of a resume request. */
  datatype ResumeArgs = ResumeArgs(workflowId: string, stepIndex: int, userInput: string)

  /** The resume request the page sends, if any: none without an active
      workflow (an empty id counts as none) or without a paused step. */
  function ResumeRequest(s: ListState): (r: Option<ResumeArgs>)
    ensures r.Some? <==> s.activeWorkflow.Some? && s.activeWorkflow.value != "" && s.resumeStep.Some?
    ensures r.Some? ==> r.value == ResumeArgs(s.activeWorkflow.value, s.resumeStep.value, s.userInput)
  {
    if s.activeWorkflow.None? || s.activeWorkflow.value == "" || s.resumeStep.None? then None
    else Some(ResumeArgs(s.activeWorkflow.value, s.resumeStep.value, s.userInput))
  }

  /** "Resume": without a request nothing happens; a failed request changes
      nothing; any answer, even a new pause, closes the input form and
      shows the reply. */
  function ResumeWorkflow(s: ListState, reply: Http<Reply>): (s': ListState)
    ensures ResumeRequest(s).None? || reply.Rejected? ==> s' == s
    ensures ResumeRequest(s).Some? && reply.Answered? ==>
      && !s'.needsInput && s'.userInput == "" && s'.resumeStep.None?
      && s'.results == ReplyResults(reply.body)
      && s'.activeWorkflow == s.activeWorkflow && s'.chat == s.chat
  {
    if ResumeRequest(s).None? then s
    else match reply
      case Rejected => s
      case Answered(body) => s.(needsInput := false, userInput := "", resumeStep := None, results := ReplyResults(body))
  }

  /** A resume that pauses again leaves no way to continue from the page:
      the paused step is forgotten, so a further resume sends nothing. */
  lemma SecondPauseIsLost(s: ListState, step: int, prompt: string, trace: seq<TraceEntry>, answer: Http<Reply>)
    requires ResumeRequest(s).Some?
    ensures var s' := ResumeWorkflow(s, Answered(PausedReply(step, prompt, trace)));
      ResumeRequest(s').None? && ResumeWorkflow(s', answer) == s'
  {
  }

  /** Running a stored workflow that pauses, typing `text` and resuming sends
      the paused step back; the server then starts again at that very
      agent with `text` in place of every `{{input}}`. */
  lemma PauseThenResume(s: ListState, id: string, agents: seq<StoredAgent>, providers: Backend.Providers, text: string)
    requires id != ""
    requires Backend.Run(agents, providers).Answered? && Backend.Run(agents, providers).body.PausedReply?
    ensures var s1 := RunWorkflow(s, id, Backend.Run(agents, providers)).(userInput := text);
      var step := Backend.Run(agents, providers).body.step;
      && s1.needsInput
      && ResumeRequest(s1) == Some(ResumeArgs(id, step, text))
      && 0 <= step < |agents|
      && var r := Backend.Resume(agents, providers, step, text);
         && r.Answered?
         && var t := if r.body.PausedReply? then r.body.pausedTrace else r.body.trace.GetOr([]);
            |t| > 0 && t[0].query == PyReplaceAll(agents[step].query, Backend.InputSlot, text)
  {
    Backend.RunPause(agents, providers);
    var step := Backend.Run(agents, providers).body.step;
    Backend.ResumeRerunsPausedStep(agents, providers, step, text);
  }

  // ---------------------------------------------------------------------
  // Testing one agent.

  /** The query a test sends: the input goes into the first `{{input}}`,
      else into the first marker, else after a newline at the end (and an
      empty input leaves the template alone). */
  function TestQuery(template: string, input: string): (q: string)
    ensures !Contains(template, InputSlot) && !Contains(template, Marker) ==>
      q == if input == "" then template else template + "\n" + input
  {
    if Contains(template, InputSlot) then JsReplaceFirst(template, InputSlot, input)
    else if Contains(template, Marker) then JsReplaceFirst(template, Marker, input)
    else if input != "" then template + "\n" + input
    else template
  }

  /** Where the input lands: in place of the first `{{input}}` if there is
      one, otherwise of the first marker (for an input free of `$`). */
  lemma TestQueryReplacesFirstSlot(template: string, input: string)
    requires '$' !in input
    ensures Contains(template, InputSlot) ==>
      var i := Find(template, InputSlot, 0).value;
      && (forall j :: 0 <= j < i ==> !MatchesAt(template, InputSlot, j))
      && TestQuery(template, input) == template[..i] + input + template[i + |InputSlot|..]
    ensures !Contains(template, InputSlot) && Contains(template, Marker) ==>
      var i := Find(template, Marker, 0).value;
      && (forall j :: 0 <= j < i ==> !MatchesAt(template, Marker, j))
      && TestQuery(template, input) == template[..i] + input + template[i + |Marker|..]
  {
    if Contains(template, InputSlot) {
      JsReplaceFirstLiteral(template, InputSlot, input);
    } else if Contains(template, Marker) {
      JsReplaceFirstLiteral(template, Marker, input);
    }
  }

  lemma InfixIsContained(a: string, b: string, c: string)
    ensures Contains(a + b + c, b)
  {
    var s := a + b + c;
    assert s[|a|..|a| + |b|] == b;
    assert MatchesAt(s, b, |a|);
    ContainsIff(s, b);
  }

  /** Whatever the template, a test query carries the test input. */
  lemma TestQueryCarriesInput(template: string, input: string)
    requires '$' !in input
    ensures Contains(TestQuery(template, input), input)
  {
    TestQueryReplacesFirstSlot(template, input);
    var q := TestQuery(template, input);
    if Contains(template, InputSlot) {
      var i := Find(template, InputSlot, 0).value;
      InfixIsContained(template[..i], input, template[i + |InputSlot|..]);
    } else if Contains(template, Marker) {
      var i := Find(template, Marker, 0).value;
      InfixIsContained(template[..i], input, template[i + |Marker|..]);
    } else if input != "" {
      InfixIsContained(template + "\n", input, "");
      assert template + "\n" + input + "" == q;
    } else {
      InfixIsContained("", input, q);
      assert "" + input + q == q;
    }
  }

  /** The single-agent body of a test request. */
  datatype TestRequest = TestRequest(model: string, query: string, mode: string, additionalInfo: map<string, string>)

  /** The request for the selected agent: a missing (empty) mode becomes
      "local" and missing extra settings become an empty object. */
  function TestRequestFor(agent: StoredAgent, input: string): (r: TestRequest)
    ensures r.model == agent.model && r.query == TestQuery(agent.query, input)
    ensures r.mode == (if agent.mode == "" then "local" else agent.mode)
    ensures agent.additionalInfo.None? ==> r.additionalInfo == map[]
    ensures agent.additionalInfo.Some? ==> r.additionalInfo == agent.additionalInfo.value
  {
    TestRequest(agent.model, TestQuery(agent.query, input),
      if agent.mode == "" then "local" else agent.mode,
      agent.additionalInfo.GetOr(map[]))
  }

  /** The reply to a test request, as far as the page reads it: a `results`
      array (each element's `response`, if any), or a top-level `response`. */
  datatype TestReply = TestReply(results: Option<seq<Option<string>>>, response: Option<string>)

  /** The text shown for a reply: the first result's response when there is
      a non-empty results array, otherwise the top-level response. */
  function ReplyText(r: TestReply): (t: Option<string>)
    ensures r.results.Some? && |r.results.value| > 0 ==> t == r.results.value[0]
    ensures (r.results.None? || |r.results.value| == 0) ==> t == r.response
  {
    if r.results.Some? && |r.results.value| > 0 then r.results.value[0] else r.response
  }

  /** "Test": without a selected agent nothing happens; otherwise the user's
      line, then the agent's reply or the error line, are appended. */
  function TestAgent(s: ListState, reply: Http<TestReply>): (s': ListState)
    ensures s.selectedAgent.None? ==> s' == s
    ensures s.selectedAgent.Some? ==>
      && s' == s.(chat := s'.chat)
      && |s'.chat| == |s.chat| + 2 && s'.chat[..|s.chat|] == s.chat
      && s'.chat[|s.chat|] == ChatLine("user", Some(s.testInput))
      && s'.chat[|s.chat| + 1].sender == "agent"
      && s'.chat[|s.chat| + 1].text == (if reply.Rejected? then Some(TestError) else ReplyText(reply.body))
  {
    if s.selectedAgent.None? then s
    else
      var answer := match reply
        case Rejected => ChatLine("agent", Some(TestError))
        case Answered(body) => ChatLine("agent", ReplyText(body));
      s.(chat := s.chat + [ChatLine("user", Some(s.testInput)), answer])
  }
}
