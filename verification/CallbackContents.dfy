/** What the callbacks of a run say of the events they come from (ai/app/callbacks/events.py). */
module CallbackContents {
  import opened Common
  import opened Domain
  import opened Callbacks
  import opened Sessions
  import opened EventBuilders
  import opened Text

  /** The entries are callbacks with these bodies, of the event's session and numbered from `first` on; or, when the schema
      refuses the first of them, its lost number. */
  ghost predicate Emits(entries: seq<Entry>, s: Session, first: nat, bodies: seq<Body>, accepted: bool) {
    if accepted && s.context.diagnosis.Some? && s.context.diagnosis.value != "" then
      && |entries| == |bodies|
      && forall i :: 0 <= i < |bodies| ==>
        entries[i] ==
        Made(Callback(s.context.diagnosis.value, s.context.product, s.context.run, first + i, bodies[i]))
    else entries == [Lost(s.context.run, first)]
  }

  /** A failure names the stage the session was in, unless it was internal. */
  function FailureStage(s: Session): Option<Stage> {
    if s.stage == Some(Pipeline) then None else s.stage
  }

  /**
   What an event gives in a run that has shown `show` and used the numbers below `first`: the start of a stage completes
   the open one, a tool shows in the open tool stage, a completion gives the presented result and the pipeline failure
   when there is none, questions and failures give what the session and the event carry. A run without a diagnosis, or
   one that is over, gives nothing.
   */
  ghost predicate Says(show: Show, first: nat, input: Input, entries: seq<Entry>) {
    var e, s := input.event, input.event.session;
    if s.context.diagnosis.None? || show.Over? then entries == []
    else match e
      case Started(_) => entries == []
      case Resumed(_) => entries == []
      case StageChanged(_, stage) =>
        if stage == Pipeline || show == Open(stage) then entries == []
        else if show.Open? then
          Emits(entries, s, first, [Progress(show.stage, StageCompleted), Progress(stage, StageStarted)], true)
        else Emits(entries, s, first, [Progress(stage, StageStarted)], true)
      case ToolProgressed(_, tool, progress) =>
        if show == Open(ToolExecution)
        then Emits(entries, s, first, [Progress(ToolExecution, ToolReport(tool, progress))], true) else entries == []
      case Completed(_, _) =>
        if input.content.Some? then Emits(entries, s, first, [ResultBody(input.content.value)], true)
        else Emits(entries, s, first, [FailedBody(FailureStage(s), "AI_PIPELINE_ERROR", false, None)], true)
      case AwaitingInput(_, _) =>
        Emits(entries, s, first, [AwaitingInputBody(s.questionRound, s.questions)],
              (s.questionRound == 1 || s.questionRound == 2) && s.questions != []
              && forall i, j :: 0 <= i < j < |s.questions| ==>
                s.questions[i].key != s.questions[j].key && s.questions[i].order != s.questions[j].order)
      case Failed(_, code, retryable, flag) =>
        Emits(entries, s, first, [FailedBody(FailureStage(s), code, retryable, flag)],
              |code| <= 50 && exists c :: c in code && !IsWhiteSpace(c))
  }

  lemma PipelineErrorIsAccepted(s: Session)
    requires s.context.diagnosis.Some?
    ensures Valid(s.context.diagnosis.value, FailedBody(FailureStage(s), "AI_PIPELINE_ERROR", false, None))
       <==> s.context.diagnosis.value != ""
  {
    assert "AI_PIPELINE_ERROR"[0] in "AI_PIPELINE_ERROR" && !IsWhiteSpace("AI_PIPELINE_ERROR"[0]);
  }

  lemma StageSays(b: Builder, show: Show, input: Input)
    requires var r := input.event.session.context.run;
      show == Believed(b, r) && StateOf(b, r).stage != Some(Pipeline)
    requires input.event.StageChanged?
    ensures Says(show, StateOf(b, input.event.session.context.run).sequence, input,
                 Build(b, input.event, input.content).1)
  {
  }

  lemma ToolSays(b: Builder, show: Show, input: Input)
    requires var r := input.event.session.context.run;
      show == Believed(b, r) && StateOf(b, r).stage != Some(Pipeline)
    requires input.event.ToolProgressed?
    ensures Says(show, StateOf(b, input.event.session.context.run).sequence, input,
                 Build(b, input.event, input.content).1)
  {
  }

  lemma NothingSaid(b: Builder, show: Show, input: Input)
    requires var r := input.event.session.context.run;
      show == Believed(b, r) && StateOf(b, r).stage != Some(Pipeline)
    requires input.event.Started? || input.event.Resumed?
    ensures Says(show, StateOf(b, input.event.session.context.run).sequence, input,
                 Build(b, input.event, input.content).1)
  {
  }

  lemma QuestionsSay(b: Builder, show: Show, input: Input)
    requires var r := input.event.session.context.run;
      show == Believed(b, r) && StateOf(b, r).stage != Some(Pipeline)
    requires input.event.AwaitingInput?
    ensures Says(show, StateOf(b, input.event.session.context.run).sequence, input,
                 Build(b, input.event, input.content).1)
  {
  }

  lemma ResultSays(b: Builder, show: Show, input: Input)
    requires var r := input.event.session.context.run;
      show == Believed(b, r) && StateOf(b, r).stage != Some(Pipeline)
    requires input.event.Completed?
    ensures Says(show, StateOf(b, input.event.session.context.run).sequence, input,
                 Build(b, input.event, input.content).1)
  {
    hide Blank, UniqueQuestions;
    if input.event.session.context.diagnosis.Some? {
      PipelineErrorIsAccepted(input.event.session);
    }
  }

  lemma FailureSays(b: Builder, show: Show, input: Input)
    requires var r := input.event.session.context.run;
      show == Believed(b, r) && StateOf(b, r).stage != Some(Pipeline)
    requires input.event.Failed?
    ensures Says(show, StateOf(b, input.event.session.context.run).sequence, input,
                 Build(b, input.event, input.content).1)
  {
    hide IsWhiteSpace;
  }

  lemma BuildSays(b: Builder, show: Show, input: Input)
    requires var r := input.event.session.context.run;
      show == Believed(b, r) && StateOf(b, r).stage != Some(Pipeline)
    ensures Says(show, StateOf(b, input.event.session.context.run).sequence, input,
                 Build(b, input.event, input.content).1)
  {
    hide Says, Build, Believed, StateOf;
    match input.event
    case StageChanged(_, _) => StageSays(b, show, input);
    case ToolProgressed(_, _, _) => ToolSays(b, show, input);
    case Completed(_, _) => ResultSays(b, show, input);
    case AwaitingInput(_, _) => QuestionsSay(b, show, input);
    case Failed(_, _, _, _) => FailureSays(b, show, input);
    case _ => NothingSaid(b, show, input);
  }

  /** For any events in any order, what one more event adds to the log is what it says in the run as shown so far. */
  lemma EveryEventSays(inputs: seq<Input>, input: Input)
    ensures var r, log, all := input.event.session.context.run, Stream(inputs).1, Stream(inputs + [input]).1;
      && log <= all
      && Says(ShowAfter(OfRun(MadeOf(log), r)), |EntriesOf(log, r)| + 1, input, all[|log|..])
  {
    hide Says, Build;
    var (b, log) := Stream(inputs);
    var r := input.event.session.context.run;
    assert (inputs + [input])[..|inputs|] == inputs;
    EveryStream(inputs);
    assert RunOk(b, log, r);
    EntriesCommute(log, r);
    BuildSays(b, Believed(b, r), input);
    if r in b.finished {
      FinishedSays(b, input, |EntriesOf(log, r)| + 1);
    }
    assert Stream(inputs + [input]).1 == log + Build(b, input.event, input.content).1;
  }

  lemma FinishedSays(b: Builder, input: Input, first: nat)
    requires input.event.session.context.run in b.finished
    ensures Says(Over, first, input, Build(b, input.event, input.content).1)
  {
  }
}
