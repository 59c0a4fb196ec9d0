/** The chat runner: one text box that starts a contextual run when nothing
    is paused and resumes the paused step otherwise, writing everything as
    chat messages. Both handlers catch failures, including a reply whose
    `context` is missing (reading `context.final_output` then throws). */
module RunnerChat {
  import opened Base
  import opened Text
  import opened Workflow

  datatype Role = UserRole | AgentRole

  datatype Message = Message(role: Role, content: string, agentName: Option<string>)

  datatype ChatState = ChatState(
    messages: seq<Message>,
    userInput: string,
    pausedStep: Option<int>,
    promptText: string)

  const Initial := ChatState([], "", None, "")

  const CompletedText := "Workflow completed."
  const RunError := "Error running workflow."
  const ResumeError := "Error resuming workflow."
  const PauseStatus := "need_user_input"

  /** `context.final_output` of a contextual reply. */
  datatype ContextOutput = ContextOutput(output: Option<string>)
  datatype Context = Context(finalOutput: Option<ContextOutput>)

  /** The top-level `final_output`: absent, a plain string (what `/resume`
      sends), or the record a contextual run is expected to send. */
  datatype FinalField = NoFinal | FinalText(text: string) | FinalRecord(agent: string, output: string, stepQuery: string)

  /** A reply body as the chat reads it. */
  datatype ChatReply = ChatReply(status: string, context: Option<Context>, prompt: string, step: int, finalOutput: FinalField)

  /** A `/resume` body as the chat reads it: it never carries a `context`,
      and its `final_output` is a plain string. */
  function FromServer(r: Reply): (c: ChatReply)
    ensures c.context.None?
    ensures r.PausedReply? ==> c.status == PauseStatus && c.step == r.step && c.prompt == r.prompt
    ensures r.OtherReply? ==> c.status == r.status
  {
    match r
    case PausedReply(step, prompt, _) => ChatReply(PauseStatus, None, prompt, step, NoFinal)
    case OtherReply(status, out, _) =>
      ChatReply(status, None, "", 0, if out.Some? then FinalText(out.value) else NoFinal)
  }

  function AgentMessage(content: string, name: string): Message {
    Message(AgentRole, content, Some(name))
  }

  /** "Agent <n>" for a 0-based step, counting agents from 1. */
  function StepLabel(step: int): (l: string)
    ensures step >= 0 ==> l == "Agent " + NatToString(step + 1)
  {
    "Agent " + IntToString(step + 1)
  }

  /** `context.final_output?.output || 'Workflow completed.'` */
  function ContextText(c: Context): (t: string)
    ensures t != ""
    ensures c.finalOutput.Some? && c.finalOutput.value.output.Some? && c.finalOutput.value.output.value != "" ==>
      t == c.finalOutput.value.output.value
  {
    match c.finalOutput
    case Some(ContextOutput(Some(out))) => if out == "" then CompletedText else out
    case _ => CompletedText
  }

  /** The summary line for a truthy `final_output`; the fields of a plain
      string read as "undefined". */
  function FinalMessages(f: FinalField): (ms: seq<Message>)
    ensures |ms| <= 1
    ensures |ms| == 1 <==> f.FinalRecord? || (f.FinalText? && f.text != "")
  {
    match f
    case NoFinal => []
    case FinalText(text) =>
      if text == "" then []
      else [AgentMessage("Final Output:\nAgent: undefined\nOutput: undefined\nQuery: undefined", "Agent")]
    case FinalRecord(agent, output, query) =>
      [AgentMessage("Final Output:\nAgent: " + agent + "\nOutput: " + output + "\nQuery: " + query, "Agent")]
  }

  /** The agent messages for a reply that does not pause, or None where
      reading its missing `context` throws. */
  function Completion(r: ChatReply): (ms: Option<seq<Message>>)
    ensures ms.None? <==> r.context.None?
    ensures ms.Some? ==> 1 <= |ms.value| <= 2 && ms.value[0] == AgentMessage(ContextText(r.context.value), "Agent")
  {
    match r.context
    case None => None
    case Some(c) => Some([AgentMessage(ContextText(c), "Agent")] + FinalMessages(r.finalOutput))
  }

  /** The state after a pausing reply: the paused step and prompt are
      recorded and the prompt is shown under the step's agent label. */
  function Paused(s: ChatState, r: ChatReply): ChatState {
    s.(pausedStep := Some(r.step), promptText := r.prompt,
       messages := s.messages + [AgentMessage(r.prompt, StepLabel(r.step))])
  }

  /** A contextual run: messages, paused step and prompt are cleared first;
      then the reply is shown (or the run error). The typed text stays. */
  function Run(s: ChatState, reply: Http<ChatReply>): (s': ChatState)
    ensures s'.userInput == s.userInput && 1 <= |s'.messages| <= 2
    ensures reply.Answered? && reply.body.status == PauseStatus ==>
      s' == ChatState([AgentMessage(reply.body.prompt, StepLabel(reply.body.step))], s.userInput, Some(reply.body.step), reply.body.prompt)
    ensures (reply.Rejected? || reply.body.status != PauseStatus) ==> s'.pausedStep.None? && s'.promptText == ""
    ensures (reply.Rejected? || reply.body.context.None?) && (reply.Answered? ==> reply.body.status != PauseStatus) ==>
      s'.messages == [AgentMessage(RunError, "Agent")]
    ensures reply.Answered? && reply.body.status != PauseStatus && reply.body.context.Some? ==>
      Completion(reply.body).Some? && s'.messages == Completion(reply.body).value
  {
    var s0 := s.(messages := [], pausedStep := None, promptText := "");
    match reply
    case Rejected => s0.(messages := [AgentMessage(RunError, "Agent")])
    case Answered(r) =>
      if r.status == PauseStatus then Paused(s0, r)
      else match Completion(r)
        case None => s0.(messages := [AgentMessage(RunError, "Agent")])
        case Some(ms) => s0.(messages := ms)
  }

  /** A resume: nothing happens without typed text. A failed request only
      adds the error line. An answer adds the user's line first and clears
      the box; a pause then records the new step, anything else clears the
      pause before its messages (or the error line) are added. */
  function Resume(s: ChatState, reply: Http<ChatReply>): (s': ChatState)
    ensures s.userInput == "" ==> s' == s
    ensures s.messages <= s'.messages
    ensures s.userInput != "" && reply.Rejected? ==>
      s' == s.(messages := s.messages + [AgentMessage(ResumeError, "Agent")])
    ensures s.userInput != "" && reply.Answered? ==>
      && s'.userInput == ""
      && |s'.messages| >= |s.messages| + 2
      && s'.messages[|s.messages|] == Message(UserRole, s.userInput, None)
    ensures s.userInput != "" && reply.Answered? && reply.body.status == PauseStatus ==>
      s'.pausedStep == Some(reply.body.step) && s'.promptText == reply.body.prompt
      && s'.messages == s.messages + [Message(UserRole, s.userInput, None), AgentMessage(reply.body.prompt, StepLabel(reply.body.step))]
    ensures s.userInput != "" && reply.Answered? && reply.body.status != PauseStatus ==>
      s'.pausedStep.None? && s'.promptText == ""
    ensures s.userInput != "" && reply.Answered? && reply.body.status != PauseStatus ==>
      s'.messages == s.messages + [Message(UserRole, s.userInput, None)]
        + (if reply.body.context.Some? then Completion(reply.body).value
           else [AgentMessage(ResumeError, "Agent")])
  {
    if s.userInput == "" then s
    else match reply
      case Rejected => s.(messages := s.messages + [AgentMessage(ResumeError, "Agent")])
      case Answered(r) =>
        var s1 := s.(messages := s.messages + [Message(UserRole, s.userInput, None)], userInput := "");
        if r.status == PauseStatus then Paused(s1, r)
        else
          var s2 := s1.(pausedStep := None, promptText := "");
          match Completion(r)
          case None => s2.(messages := s2.messages + [AgentMessage(ResumeError, "Agent")])
          case Some(ms) => s2.(messages := s2.messages + ms)
  }

  /** The request a submit sends, if any. */
  datatype ChatRequest = RunRequest(userInput: string) | ResumeRequest(stepIndex: int, userInput: string)

  function SubmitRequest(s: ChatState): (r: Option<ChatRequest>)
    ensures r.Some? && r.value.ResumeRequest? <==> s.pausedStep.Some? && s.userInput != ""
    ensures r.Some? && r.value.RunRequest? <==> s.pausedStep.None?
    ensures r.Some? ==> r.value.userInput == s.userInput
    ensures r.Some? && r.value.ResumeRequest? ==> r.value.stepIndex == s.pausedStep.value
  {
    match s.pausedStep
    case None => Some(RunRequest(s.userInput))
    case Some(step) => if s.userInput == "" then None else Some(ResumeRequest(step, s.userInput))
  }

  /** The form's submit: resume exactly when a step is paused, run
      otherwise; `reply` answers whichever request was sent. */
  function Submit(s: ChatState, reply: Http<ChatReply>): (s': ChatState)
    ensures SubmitRequest(s).None? ==> s' == s
    ensures s.pausedStep.Some? ==> s.messages <= s'.messages
    ensures s.pausedStep.None? ==> |s'.messages| <= 2
  {
    if s.pausedStep.Some? then Resume(s, reply) else Run(s, reply)
  }

  /** "Restart": messages, typed text, paused step and prompt are cleared. */
  function Restart(s: ChatState): (s': ChatState)
    ensures s'.messages == [] && s'.userInput == "" && s'.pausedStep.None? && s'.promptText == ""
  {
    Initial
  }

  /** What a user can do: type into the box, submit, or restart. */
  datatype Event = Type(text: string) | SubmitEvent(reply: Http<ChatReply>) | RestartEvent

  function Step(s: ChatState, e: Event): ChatState {
    match e
    case Type(text) => s.(userInput := text)
    case SubmitEvent(reply) => Submit(s, reply)
    case RestartEvent => Restart(s)
  }

  function Apply(s: ChatState, es: seq<Event>): ChatState
    decreases |es|
  {
    if |es| == 0 then s else Apply(Step(s, es[0]), es[1..])
  }

  /** An event that starts the conversation over: a restart, or a submit
      while nothing is paused (which runs). */
  predicate Resets(s: ChatState, e: Event) {
    e.RestartEvent? || (e.SubmitEvent? && s.pausedStep.None?)
  }

  predicate NoReset(s: ChatState, es: seq<Event>)
    decreases |es|
  {
    |es| == 0 || (!Resets(s, es[0]) && NoReset(Step(s, es[0]), es[1..]))
  }

  /** Between resets the message list only grows at its end. */
  lemma {:induction false} MessagesOnlyGrow(s: ChatState, es: seq<Event>)
    requires NoReset(s, es)
    ensures s.messages <= Apply(s, es).messages
    decreases |es|
  {
    if |es| > 0 {
      var s1 := Step(s, es[0]);
      assert s.messages <= s1.messages;
      MessagesOnlyGrow(s1, es[1..]);
    }
  }

  /** A reset leaves at most the two messages of the run's reply. */
  lemma ResetStartsOver(s: ChatState, e: Event)
    requires Resets(s, e)
    ensures |Step(s, e).messages| <= 2
    ensures e.RestartEvent? ==> Step(s, e) == Initial
  {
  }

  /** Resuming against the `/resume` endpoint: a pause is shown under the
      label of the paused list index counted from 1, but every other reply
      lacks `context`, so the user's line is followed by the resume error
      (whatever output the server computed), and the pause is cleared. */
  lemma ServerResumeReplies(s: ChatState, r: Reply)
    requires s.pausedStep.Some? && s.userInput != ""
    requires r.OtherReply? ==> r.status != PauseStatus
    ensures var s' := Submit(s, Answered(FromServer(r)));
      && (r.PausedReply? ==> s'.pausedStep == Some(r.step) && s'.messages[|s'.messages| - 1] == AgentMessage(r.prompt, StepLabel(r.step)))
      && (r.OtherReply? ==>
            s' == ChatState(s.messages + [Message(UserRole, s.userInput, None), AgentMessage(ResumeError, "Agent")], "", None, ""))
  {
  }
}
