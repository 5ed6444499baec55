/** The session transition rules (ai/app/sessions/transitions.py). */
module Sessions {
  import opened Common
  import opened Domain

  datatype Status = Accepted | Running | AwaitingAnswers | Done | Broken

  datatype Answer = Answer(round: nat, key: string, text: string)

  datatype Session = Session(
    context: Context,
    source: nat,
    status: Status,
    stage: Option<Stage>,
    termination: Option<EndReason>,
    result: Option<Assessment>,
    questionRound: nat,
    questions: seq<Question>,
    answers: seq<Answer>,
    errorCode: Option<string>,
    retryable: Option<bool>,
    acceptedAt: int,
    startedAt: Option<int>,
    stageStartedAt: Option<int>,
    updatedAt: int)

  datatype Change =
    | Start
    | ChangeStage(stage: Stage)
    | ReportTool(tool: ToolName, progress: ToolProgress)
    | Complete(result: Assessment)
    | AskUser(result: Assessment, questions: seq<Question>)
    | Resume(context: Context, answers: seq<Answer>)
    | Fail(code: string, retryable: bool, reviewFlag: Option<string>)

  datatype SessionEvent =
    | Started(session: Session)
    | StageChanged(session: Session, stage: Stage)
    | ToolProgressed(session: Session, tool: ToolName, progress: ToolProgress)
    | Completed(session: Session, result: Assessment)
    | AwaitingInput(session: Session, result: Assessment)
    | Failed(session: Session, code: string, retryable: bool, reviewFlag: Option<string>)
    | Resumed(session: Session)

  /** The last event of a run. */
  predicate Ending(e: SessionEvent) {
    e.Completed? || e.AwaitingInput? || e.Failed?
  }

  datatype Transition = Transition(session: Session, events: seq<SessionEvent>)

  datatype Rejection = InvalidTransition | InvalidQuestions

  /** The next status of the transition table; None when the table has no row. */
  function NextStatus(status: Status, change: Change): Option<Status> {
    match (status, change)
    case (Accepted, Start) => Some(Running)
    case (Running, ChangeStage(_)) => Some(Running)
    case (Running, ReportTool(_, _)) => Some(Running)
    case (Running, Complete(_)) => Some(Done)
    case (Running, AskUser(_, _)) => Some(AwaitingAnswers)
    case (AwaitingAnswers, Resume(_, _)) => Some(Accepted)
    case (Accepted, Fail(_, _, _)) => Some(Broken)
    case (Running, Fail(_, _, _)) => Some(Broken)
    case _ => None
  }

  /** No two questions share their key or their order. */
  predicate UniqueQuestions(questions: seq<Question>) {
    forall i, j :: 0 <= i < j < |questions| ==>
      questions[i].key != questions[j].key && questions[i].order != questions[j].order
  }

  /** Questions exist, are unique, and none reuses a key of the last round. */
  predicate QuestionsOk(session: Session, questions: seq<Question>) {
    && questions != []
    && UniqueQuestions(questions)
    && forall q, asked :: q in questions && asked in session.questions ==> q.key != asked.key
  }

  /** Applies one change to a session. The session itself is not changed: a new one is made. */
  function Apply(s: Session, change: Change, now: int): Result<Transition, Rejection> {
    var next := NextStatus(s.status, change);
    if next.None? then Err(InvalidTransition)
    else match change
      case Start =>
        var u := s.(status := next.value, startedAt := Some(now), updatedAt := now);
        Ok(Transition(u, [Started(u)]))
      case ChangeStage(stage) =>
        var u := s.(stage := Some(stage), stageStartedAt := Some(now), updatedAt := now);
        Ok(Transition(u, [StageChanged(u, stage)]))
      case ReportTool(tool, progress) => Ok(Transition(s, [ToolProgressed(s, tool, progress)]))
      case Complete(result) =>
        var u := s.(status := next.value, termination := Some(result.reason), result := Some(result), updatedAt := now);
        Ok(Transition(u, [SessionEvent.Completed(u, result)]))
      case AskUser(result, questions) =>
        if !QuestionsOk(s, questions) then Err(InvalidQuestions)
        else
          var u := s.(status := next.value, termination := Some(result.reason), result := Some(result),
                      questionRound := s.questionRound + 1, questions := questions, updatedAt := now);
          Ok(Transition(u, [AwaitingInput(u, result)]))
      case Resume(context, answers) =>
        var u := s.(context := context, status := next.value, stage := None, termination := None,
                    answers := s.answers + answers, acceptedAt := now, startedAt := None, stageStartedAt := None,
                    updatedAt := now);
        Ok(Transition(u, [Resumed(u)]))
      case Fail(code, retryable, flag) =>
        var u := s.(status := next.value, errorCode := Some(code), retryable := Some(retryable), updatedAt := now);
        Ok(Transition(u, [Failed(u, code, retryable, flag)]))
  }

  // ---------- traits ----------

  datatype Retention = EndedRetention | AwaitingRetention

  /** Which retention time purges a session of this status; None is never purged. */
  function RetentionOf(status: Status): Option<Retention> {
    match status
    case Accepted => None
    case Running => None
    case AwaitingAnswers => Some(AwaitingRetention)
    case Done => Some(EndedRetention)
    case Broken => Some(EndedRetention)
  }

  predicate ArchivedStatus(status: Status) {
    status.Accepted? || status.Running? || status.AwaitingAnswers?
  }

  /** Whether a session must survive a restart. */
  predicate Archived(s: Session) {
    ArchivedStatus(s.status) && s.context.runType != RunType.Test
  }

  // ---------- one session under any stream of changes ----------

  datatype TimedChange = TimedChange(change: Change, now: int)

  /** A session after a stream of changes, rejected ones leaving it alone, and the events made. */
  function Lineage(s: Session, changes: seq<TimedChange>): (Session, seq<SessionEvent>) {
    if changes == [] then (s, [])
    else
      var (before, events) := Lineage(s, changes[..|changes| - 1]);
      var c := changes[|changes| - 1];
      match Apply(before, c.change, c.now)
      case Ok(t) => (t.session, events + t.events)
      case Err(_) => (before, events)
  }
}
