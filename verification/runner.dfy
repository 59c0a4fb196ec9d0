/** The step-list runner: "Run" shows a workflow's trace, "Resume" sends the
    typed text for the paused step and appends the new trace. Neither
    handler catches a failed request, so a rejection changes nothing. */
module Runner {
  import opened Base
  import opened Text
  import opened Workflow
  import Backend

  datatype RunnerState = RunnerState(
    steps: seq<TraceEntry>,
    pausedStep: Option<int>,
    userInput: string,
    promptText: string)

  const Initial := RunnerState([], None, "", "")

  /** The `trace` field of a reply body, when it has one. */
  function TraceOf(r: Reply): Option<seq<TraceEntry>> {
    match r
    case PausedReply(_, _, t) => Some(t)
    case OtherReply(_, _, t) => t
  }

  /** "Run": a pause records its step and prompt and shows its trace; any
      other reply shows its trace (or nothing) and leaves the paused step
      and prompt as they were. */
  function Run(s: RunnerState, reply: Http<Reply>): (s': RunnerState)
    ensures reply.Rejected? ==> s' == s
    ensures reply.Answered? && reply.body.PausedReply? ==>
      s' == RunnerState(reply.body.pausedTrace, Some(reply.body.step), s.userInput, reply.body.prompt)
    ensures reply.Answered? && reply.body.OtherReply? ==>
      s' == s.(steps := reply.body.trace.GetOr([]))
  {
    match reply
    case Rejected => s
    case Answered(PausedReply(step, prompt, trace)) =>
      s.(pausedStep := Some(step), promptText := prompt, steps := trace)
    case Answered(other) => s.(steps := other.trace.GetOr([]))
  }

  /** The body "Resume" posts: the paused step (null when there is none,
      which the server refuses) and the typed text. */
  datatype ResumeArgs = ResumeArgs(stepIndex: Option<int>, userInput: string)

  function ResumeRequest(s: RunnerState): (a: ResumeArgs)
    ensures a.stepIndex == s.pausedStep && a.userInput == s.userInput
  {
    ResumeArgs(s.pausedStep, s.userInput)
  }

  /** "Resume": the reply's trace is appended to the steps already shown,
      and the paused step, prompt and input are cleared, even when the
      reply pauses again. */
  function Resume(s: RunnerState, reply: Http<Reply>): (s': RunnerState)
    ensures reply.Rejected? ==> s' == s
    ensures reply.Answered? ==>
      && s'.pausedStep.None? && s'.promptText == "" && s'.userInput == ""
      && |s'.steps| == |s.steps| + |TraceOf(reply.body).GetOr([])|
      && s'.steps[..|s.steps|] == s.steps
      && s'.steps[|s.steps|..] == TraceOf(reply.body).GetOr([])
  {
    match reply
    case Rejected => s
    case Answered(body) => RunnerState(s.steps + TraceOf(body).GetOr([]), None, "", "")
  }

  /** A completed run after a pause leaves the old paused step in place, so
      the next "Resume" still sends it. */
  lemma CompletedRunKeepsStalePause(s: RunnerState, status: string, out: Option<string>, trace: Option<seq<TraceEntry>>)
    requires s.pausedStep.Some?
    ensures var s' := Run(s, Answered(OtherReply(status, out, trace)));
      ResumeRequest(s').stepIndex == s.pausedStep
  {
  }

  /** A resume reply that pauses again is not recorded: the next resume
      request carries no step. */
  lemma ResumeForgetsNewPause(s: RunnerState, step: int, prompt: string, trace: seq<TraceEntry>)
    ensures ResumeRequest(Resume(s, Answered(PausedReply(step, prompt, trace)))).stepIndex.None?
  {
  }

  /** Against the server: a run that pauses at step p followed by a resume
      with `text` shows the run's p+1 records and then the resumed ones; the
      paused agent appears twice, first numbered p+1 (run numbering counts
      from 1) and then p (resume numbering counts from 0), the second time
      with `text` in its query. */
  lemma RunThenResume(agents: seq<StoredAgent>, providers: Backend.Providers, s: RunnerState, text: string)
    requires Backend.Run(agents, providers).Answered? && Backend.Run(agents, providers).body.PausedReply?
    ensures var s1 := Run(s, Backend.Run(agents, providers)).(userInput := text);
      var p := Backend.Run(agents, providers).body.step;
      && 0 <= p < |agents|
      && ResumeRequest(s1) == ResumeArgs(Some(p), text)
      && var s2 := Resume(s1, Backend.Resume(agents, providers, p, text));
         && s2.pausedStep.None?
         && |s2.steps| > p + 1
         && s2.steps[..p + 1] == Backend.Run(agents, providers).body.pausedTrace
         && s2.steps[p].step == p + 1
         && s2.steps[p + 1].step == p
         && s2.steps[p + 1].query == PyReplaceAll(agents[p].query, Backend.InputSlot, text)
  {
    Backend.RunPause(agents, providers);
    var run := Backend.Run(agents, providers).body;
    var p := run.step;
    Backend.ResumeRerunsPausedStep(agents, providers, p, text);
    var s1 := Run(s, Backend.Run(agents, providers)).(userInput := text);
    assert s1.steps == run.pausedTrace;
    var r := Backend.Resume(agents, providers, p, text);
    var s2 := Resume(s1, r);
    assert s2.steps[p + 1] == TraceOf(r.body).GetOr([])[0];
  }
}
