/** What a session carries of the changes that reached it, and what its events announce (ai/app/sessions/transitions.py). */
module SessionHistory {
  import opened Common
  import opened Domain
  import opened Sessions
  import T = SessionTraces

  // ---------- which changes are accepted ----------

  /** The change suits the status of the session; questions exist, repeat neither a key nor an order among themselves, and
      no key of the round before. */
  ghost predicate May(s: Session, change: Change) {
    match change
    case Start => s.status.Accepted?
    case AskUser(_, questions) => s.status.Running? && Askable(s, questions)
    case Resume(_, _) => s.status.AwaitingAnswers?
    case Fail(_, _, _) => s.status.Accepted? || s.status.Running?
    case _ => s.status.Running?
  }

  ghost predicate Askable(s: Session, questions: seq<Question>) {
    && questions != []
    && (forall i, j :: 0 <= i < |questions| && 0 <= j < |questions| && i != j ==>
          questions[i].key != questions[j].key && questions[i].order != questions[j].order)
    && (forall i, j :: 0 <= i < |questions| && 0 <= j < |s.questions| ==> questions[i].key != s.questions[j].key)
  }

  /** A change is accepted exactly when the session may take it; questions are the only other ground of a rejection. */
  lemma AcceptedExactly(s: Session, change: Change, now: int)
    ensures Apply(s, change, now).Ok? <==> May(s, change)
    ensures Apply(s, change, now) == Err(InvalidQuestions) <==>
            change.AskUser? && s.status.Running? && !Askable(s, change.questions)
  {
    if change.AskUser? {
      QuestionsOkExactly(s, change.questions);
    }
  }

  lemma QuestionsOkExactly(s: Session, questions: seq<Question>)
    ensures QuestionsOk(s, questions) <==> Askable(s, questions)
  {
    if QuestionsOk(s, questions) {
      forall i, j | 0 <= i < |questions| && 0 <= j < |s.questions| ensures questions[i].key != s.questions[j].key {
        assert questions[i] in questions && s.questions[j] in s.questions;
      }
    }
  }

  /** The changes a session accepts of those that reach it. */
  function AcceptedOf(s: Session, changes: seq<TimedChange>): seq<TimedChange> {
    if changes == [] then []
    else
      var before, c := AcceptedOf(s, changes[..|changes| - 1]), changes[|changes| - 1];
      if Apply(Lineage(s, changes[..|changes| - 1]).0, c.change, c.now).Ok? then before + [c] else before
  }

  // ---------- the last change of a kind ----------

  predicate IsAny(c: Change) {
    true
  }

  predicate IsStart(c: Change) {
    c.Start? || c.Resume?
  }

  predicate IsStage(c: Change) {
    c.ChangeStage? || c.Resume?
  }

  predicate IsResult(c: Change) {
    c.Complete? || c.AskUser?
  }

  predicate IsReason(c: Change) {
    c.Complete? || c.AskUser? || c.Resume?
  }

  predicate IsQuestions(c: Change) {
    c.AskUser?
  }

  predicate IsResume(c: Change) {
    c.Resume?
  }

  predicate IsFailure(c: Change) {
    c.Fail?
  }

  predicate IsUpdate(c: Change) {
    !c.ReportTool?
  }

  function LastOf(changes: seq<TimedChange>, kind: Change -> bool): Option<TimedChange> {
    if changes == [] then None
    else if kind(changes[|changes| - 1].change) then Some(changes[|changes| - 1])
    else LastOf(changes[..|changes| - 1], kind)
  }

  lemma LastMore(changes: seq<TimedChange>, c: TimedChange, kind: Change -> bool)
    ensures LastOf(changes + [c], kind) == if kind(c.change) then Some(c) else LastOf(changes, kind)
  {
    assert (changes + [c])[..|changes|] == changes;
  }

  /** The answers of all resumptions, in order. */
  function AnswersIn(changes: seq<TimedChange>): seq<Answer> {
    if changes == [] then []
    else
      var before, c := AnswersIn(changes[..|changes| - 1]), changes[|changes| - 1].change;
      if c.Resume? then before + c.answers else before
  }

  function AsksIn(changes: seq<TimedChange>): nat {
    if changes == [] then 0 else AsksIn(changes[..|changes| - 1]) + if changes[|changes| - 1].change.AskUser? then 1 else 0
  }

  // ---------- what a session carries ----------

  function StatusBy(c: Change): Status {
    match c
    case Complete(_) => Done
    case AskUser(_, _) => AwaitingAnswers
    case Resume(_, _) => Accepted
    case Fail(_, _, _) => Broken
    case _ => Running
  }

  /** Status, context, times and stage of a session that started as `s` and accepted the changes. */
  predicate CarriesCourse(s: Session, changes: seq<TimedChange>, t: Session) {
    && t.source == s.source
    && t.status == (match LastOf(changes, IsAny) case None => s.status case Some(c) => StatusBy(c.change))
    && t.context == (match LastOf(changes, IsResume) case None => s.context case Some(c) => ContextBy(c.change, s.context))
    && t.acceptedAt == (match LastOf(changes, IsResume) case None => s.acceptedAt case Some(c) => c.now)
    && t.startedAt == (match LastOf(changes, IsStart)
                       case None => s.startedAt
                       case Some(c) => if c.change.Start? then Some(c.now) else None)
    && t.stage == (match LastOf(changes, IsStage)
                   case None => s.stage
                   case Some(c) => if c.change.ChangeStage? then Some(c.change.stage) else None)
    && t.stageStartedAt == (match LastOf(changes, IsStage)
                            case None => s.stageStartedAt
                            case Some(c) => if c.change.ChangeStage? then Some(c.now) else None)
    && t.updatedAt == (match LastOf(changes, IsUpdate) case None => s.updatedAt case Some(c) => c.now)
  }

  function ContextBy(c: Change, other: Context): Context {
    if c.Resume? then c.context else other
  }

  function ResultBy(c: Change): Option<Assessment> {
    match c
    case Complete(result) => Some(result)
    case AskUser(result, _) => Some(result)
    case _ => None
  }

  /** Result, reason, questions, answers and error of a session that started as `s` and accepted the changes. */
  predicate CarriesOutcome(s: Session, changes: seq<TimedChange>, t: Session) {
    && t.result == (match LastOf(changes, IsResult) case None => s.result case Some(c) => ResultBy(c.change))
    && t.termination == (match LastOf(changes, IsReason)
                         case None => s.termination
                         case Some(c) => if ResultBy(c.change).Some? then Some(ResultBy(c.change).value.reason) else None)
    && t.questions == (match LastOf(changes, IsQuestions)
                       case None => s.questions
                       case Some(c) => if c.change.AskUser? then c.change.questions else [])
    && t.questionRound == s.questionRound + AsksIn(changes)
    && t.answers == s.answers + AnswersIn(changes)
    && t.errorCode == (match LastOf(changes, IsFailure)
                       case None => s.errorCode
                       case Some(c) => if c.change.Fail? then Some(c.change.code) else None)
    && t.retryable == (match LastOf(changes, IsFailure)
                       case None => s.retryable
                       case Some(c) => if c.change.Fail? then Some(c.change.retryable) else None)
  }

  lemma CourseMore(s: Session, changes: seq<TimedChange>, t: Session, c: TimedChange)
    requires CarriesCourse(s, changes, t) && Apply(t, c.change, c.now).Ok?
    ensures CarriesCourse(s, changes + [c], Apply(t, c.change, c.now).value.session)
  {
    LastMore(changes, c, IsAny);
    LastMore(changes, c, IsResume);
    LastMore(changes, c, IsStart);
    LastMore(changes, c, IsStage);
    LastMore(changes, c, IsUpdate);
  }

  lemma OutcomeMore(s: Session, changes: seq<TimedChange>, t: Session, c: TimedChange)
    requires CarriesOutcome(s, changes, t) && Apply(t, c.change, c.now).Ok?
    ensures CarriesOutcome(s, changes + [c], Apply(t, c.change, c.now).value.session)
  {
    LastMore(changes, c, IsResult);
    LastMore(changes, c, IsReason);
    LastMore(changes, c, IsQuestions);
    LastMore(changes, c, IsFailure);
    assert (changes + [c])[..|changes|] == changes;
  }

  lemma {:induction false} LineageCarries(s: Session, changes: seq<TimedChange>)
    ensures var t, accepted := Lineage(s, changes).0, AcceptedOf(s, changes);
      CarriesCourse(s, accepted, t) && CarriesOutcome(s, accepted, t)
  {
    hide Apply, CarriesCourse, CarriesOutcome;
    if changes == [] {
      NothingCarried(s);
    } else {
      var init, c := changes[..|changes| - 1], changes[|changes| - 1];
      LineageCarries(s, init);
      if Apply(Lineage(s, init).0, c.change, c.now).Ok? {
        CourseMore(s, AcceptedOf(s, init), Lineage(s, init).0, c);
        OutcomeMore(s, AcceptedOf(s, init), Lineage(s, init).0, c);
      }
    }
  }

  lemma NothingCarried(s: Session)
    ensures CarriesCourse(s, [], s) && CarriesOutcome(s, [], s)
  {
  }

  // ---------- what the events announce ----------

  /** The event tells what the change brought. */
  predicate Announces(c: Change, e: SessionEvent) {
    match c
    case Start => e.Started?
    case ChangeStage(stage) => e.StageChanged? && e.stage == stage
    case ReportTool(tool, progress) => e.ToolProgressed? && e.tool == tool && e.progress == progress
    case Complete(result) => e.Completed? && e.result == result
    case AskUser(result, _) => e.AwaitingInput? && e.result == result
    case Resume(_, _) => e.Resumed?
    case Fail(code, retryable, flag) => e.Failed? && e.code == code && e.retryable == retryable && e.reviewFlag == flag
  }

  lemma ApplyAnnounces(s: Session, change: Change, now: int)
    requires Apply(s, change, now).Ok?
    ensures var t := Apply(s, change, now).value;
      |t.events| == 1 && Announces(change, t.events[0]) && t.events[0].session == t.session
  {
  }

  /** One event for every accepted change; it announces the change, and its session is the one after it. */
  ghost predicate Told(s: Session, accepted: seq<TimedChange>, events: seq<SessionEvent>) {
    && |events| == |accepted|
    && forall j :: 0 <= j < |events| ==>
      && Announces(accepted[j].change, events[j])
      && CarriesCourse(s, accepted[..j + 1], events[j].session) && CarriesOutcome(s, accepted[..j + 1], events[j].session)
  }

  lemma ToldMore(s: Session, accepted: seq<TimedChange>, events: seq<SessionEvent>, c: TimedChange, e: SessionEvent)
    requires Told(s, accepted, events) && Announces(c.change, e)
    requires CarriesCourse(s, accepted + [c], e.session) && CarriesOutcome(s, accepted + [c], e.session)
    ensures Told(s, accepted + [c], events + [e])
  {
    hide Announces, CarriesCourse, CarriesOutcome;
    var all := accepted + [c];
    assert all[..|accepted| + 1] == all;
    forall j | 0 <= j < |events| ensures all[..j + 1] == accepted[..j + 1] && all[j] == accepted[j] {
    }
  }

  lemma {:induction false} LineageTells(s: Session, changes: seq<TimedChange>)
    ensures Told(s, AcceptedOf(s, changes), Lineage(s, changes).1)
  {
    hide Apply, CarriesCourse, CarriesOutcome, Announces, Told;
    if changes == [] {
      NothingTold(s);
    } else {
      var init, c := changes[..|changes| - 1], changes[|changes| - 1];
      LineageTells(s, init);
      var t := Lineage(s, init).0;
      if Apply(t, c.change, c.now).Ok? {
        LineageCarries(s, init);
        CourseMore(s, AcceptedOf(s, init), t, c);
        OutcomeMore(s, AcceptedOf(s, init), t, c);
        ApplyAnnounces(t, c.change, c.now);
        var e := Apply(t, c.change, c.now).value.events[0];
        assert Apply(t, c.change, c.now).value.events == [e];
        ToldMore(s, AcceptedOf(s, init), Lineage(s, init).1, c, e);
      }
    }
  }

  lemma NothingTold(s: Session)
    ensures Told(s, [], [])
  {
  }

  // ---------- every run of the store ----------

  /** In every run of the store a session carries what the changes it accepted since it was added brought, field by
      field, and the events of its product since then are one for each of these changes, telling the same. */
  lemma EverySession(steps: seq<T.Step>, p: ProductId)
    requires T.Run(steps).Some? && p in T.Run(steps).value.sessions
    ensures var w := T.Run(steps).value;
      T.StoryOf(steps, p).Some? && var story := T.StoryOf(steps, p).value;
      var accepted := AcceptedOf(story.added, story.changes);
      && CarriesCourse(story.added, accepted, w.sessions[p]) && CarriesOutcome(story.added, accepted, w.sessions[p])
      && story.mark <= |w.events| && Told(story.added, accepted, T.OfProduct(w.events[story.mark..], p))
  {
    hide CarriesCourse, CarriesOutcome, Told, T.Run;
    T.EveryStory(steps, p);
    var story := T.StoryOf(steps, p).value;
    LineageCarries(story.added, story.changes);
    LineageTells(story.added, story.changes);
  }

  /** So a session that accepted some change since it was added shows its last one: a waiting session the questions,
      result and reason of that AskUser, a completed one the result and reason of that Complete, a failed one the code of
      that Fail; a resumed one waits without stage, start and reason. */
  lemma LastChangeShows(steps: seq<T.Step>, p: ProductId)
    requires T.Run(steps).Some? && p in T.Run(steps).value.sessions
    requires T.StoryOf(steps, p).Some? &&
             var story := T.StoryOf(steps, p).value; AcceptedOf(story.added, story.changes) != []
    ensures var story := T.StoryOf(steps, p).value;
      var accepted, s := AcceptedOf(story.added, story.changes), T.Run(steps).value.sessions[p];
      var last := accepted[|accepted| - 1];
      && (s.status.AwaitingAnswers? <==> last.change.AskUser?)
      && (last.change.AskUser? ==>
            s.questions == last.change.questions && s.result == Some(last.change.result)
            && s.termination == Some(last.change.result.reason))
      && (s.status.Done? <==> last.change.Complete?)
      && (last.change.Complete? ==>
            s.result == Some(last.change.result) && s.termination == Some(last.change.result.reason))
      && (s.status.Broken? <==> last.change.Fail?)
      && (last.change.Fail? ==> s.errorCode == Some(last.change.code) && s.retryable == Some(last.change.retryable))
      && (s.status.Accepted? <==> last.change.Resume?)
      && (last.change.Resume? ==>
            s.context == last.change.context && s.stage == None && s.startedAt == None && s.stageStartedAt == None
            && s.termination == None && s.acceptedAt == last.now)
  {
    hide T.Run, T.StoryOf, AcceptedOf;
    EverySession(steps, p);
  }
}
