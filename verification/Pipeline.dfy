/** The bounded re-execution loop (ai/app/pipeline/runner.py). */
module Pipeline {
  import opened Common
  import opened Domain
  import opened Schemas
  import opened EarlyStop
  import opened ToolExecutor
  import opened RetryMerging

  /** A draft assessment; the pipeline copies its fields into the final one without reading them. */
  datatype Draft = Draft(content: nat)

  /** What the injected stages answer in each round. An arbitrary answer for every round covers stages that remember
      anything at all about earlier rounds. */
  datatype Stages = Stages(
    decisions: map<ToolName, Decision>, calls: nat -> Calls, drafts: nat -> Draft, verdicts: nat -> Verification)

  datatype FinalStatus = Verified | VerifiedWithWarnings | Incomplete

  datatype FinalAssessment = FinalAssessment(
    draft: Draft, status: FinalStatus, reason: EndReason, questions: seq<FollowUp>, verification: Verification)

  datatype NextAction = Complete | AwaitUserInput | StopForRevision | RetryTools

  function DetermineNextAction(v: Verification): NextAction {
    match v.status
    case Approved => Complete
    case ApprovedWithWarnings => Complete
    case UserInputRequired => AwaitUserInput
    case RevisionRequired => StopForRevision
    case ToolsRequired => RetryTools
  }

  function ToFinalStatus(s: VerificationStatus): FinalStatus {
    match s
    case Approved => Verified
    case ApprovedWithWarnings => VerifiedWithWarnings
    case _ => Incomplete
  }

  function BuildFinalAssessment(draft: Draft, v: Verification, reason: EndReason): FinalAssessment {
    FinalAssessment(draft, ToFinalStatus(v.status), reason, v.questions, v)
  }

  // ---------- the states a run goes through ----------

  function RequestAfter(state: SelectionResult, v: Verification, round: nat): RetryRequest {
    RetryRequest(round, v.additional, v, state.results)
  }

  /** The selection result after `k` retries. */
  function StateAt(stages: Stages, k: nat): (state: SelectionResult)
    requires AllTools(stages.decisions)
    ensures Sound(state) && RoundsWithin(state.results, k)
  {
    if k == 0 then
      InitiallySound(stages.decisions, stages.calls(0));
      InitialRounds(stages.decisions, stages.calls(0));
      Initially(stages.decisions, stages.calls(0))
    else
      var before := StateAt(stages, k - 1);
      var request := RequestAfter(before, stages.verdicts(k - 1), k);
      RoundKeepsSound(before, request, stages.calls(k));
      RoundBounds(before, request, stages.calls(k));
      Retried(before, request, stages.calls(k))
  }

  lemma InitialRounds(decisions: map<ToolName, Decision>, calls: Calls)
    requires AllTools(decisions)
    ensures RoundsWithin(Initially(decisions, calls).results, 0)
  {
    forall i | 0 <= i < |TOOLS| ensures Initially(decisions, calls).results[i].execution.round <= 0 {
      ExecuteOneTool(TOOLS[i], decisions[TOOLS[i]], 0, calls(TOOLS[i]));
    }
  }

  ghost predicate NoProgressAt(stages: Stages, k: nat)
    requires AllTools(stages.decisions)
  {
    k >= 1 && Unimproved(StateAt(stages, k - 1), stages.verdicts(k - 1), StateAt(stages, k), stages.verdicts(k),
                         stages.verdicts(k - 1).additional, k)
  }

  function Reason(v: Verification, stuck: bool, max: nat, k: nat): Option<EndReason> {
    if stuck then Some(EndReason.NoProgress)
    else
      match DetermineNextAction(v)
      case Complete => Some(Completed)
      case AwaitUserInput => Some(EndReason.UserInputRequired)
      case StopForRevision => Some(EndReason.RevisionRequired)
      case RetryTools => if k >= max then Some(RetryLimitExceeded) else None
  }

  /** Why the run stops after `k` retries, if it does. */
  ghost function StopReason(stages: Stages, max: nat, k: nat): Option<EndReason>
    requires AllTools(stages.decisions)
  {
    Reason(stages.verdicts(k), NoProgressAt(stages, k), max, k)
  }

  /** The run goes on after `k` retries: nothing stops it and the verifier names a tool to run again. */
  ghost predicate Continues(stages: Stages, max: nat, k: nat)
    requires AllTools(stages.decisions)
  {
    StopReason(stages, max, k) == None && stages.verdicts(k).additional != []
  }

  /** The run gets as far as `n` retries. */
  ghost predicate Reaches(stages: Stages, max: nat, n: nat)
    requires AllTools(stages.decisions)
  {
    n == 0 || (Reaches(stages, max, n - 1) && Continues(stages, max, n - 1))
  }

  // ---------- the run ----------

  datatype PipelineError = InvalidRetryRequest | ExecutorRefused(error: ExecutorError)

  /** The run ends after `n` retries in this way: with the assessment of that round, or by a refused request when a retry
      is due and the verifier names no tool. */
  ghost predicate Ends(stages: Stages, max: nat, n: nat, outcome: Result<FinalAssessment, PipelineError>)
    requires AllTools(stages.decisions)
  {
    && n <= max && Reaches(stages, max, n)
    && match StopReason(stages, max, n)
       case Some(reason) => outcome == Ok(BuildFinalAssessment(stages.drafts(n), stages.verdicts(n), reason))
       case None => stages.verdicts(n).additional == [] && outcome == Err(InvalidRetryRequest)
  }

  /** The checks of a retry request refuse it exactly when it names no tool: its round is later than every result's. */
  lemma RequestNeverStale(stages: Stages, k: nat)
    requires AllTools(stages.decisions)
    ensures var v, state := stages.verdicts(k), StateAt(stages, k);
      NewRetryRequest(k + 1, v.additional, v, state.results) ==
        if v.additional == [] then None else Some(RequestAfter(state, v, k + 1))
  {
  }

  /** The retry after round `k`: builds the request and hands it to the executor. The request is refused only when it
      names no tool; the executor never refuses. */
  method RetryOnce(stages: Stages, k: nat, state: SelectionResult) returns (retried: Result<SelectionResult, PipelineError>)
    requires AllTools(stages.decisions) && state == StateAt(stages, k)
    requires DetermineNextAction(stages.verdicts(k)) == RetryTools
    ensures retried == if stages.verdicts(k).additional == [] then Err(InvalidRetryRequest)
                       else Ok(StateAt(stages, k + 1))
  {
    hide Retried, Initially;
    var v := stages.verdicts(k);
    LatestInOrder(state.results);
    RequestNeverStale(stages, k);
    var request := NewRetryRequest(k + 1, v.additional, v, state.results);
    if request == None {
      return Err(InvalidRetryRequest);
    }
    var outcome := ExecuteRetry(state, request.value, stages.calls(k + 1));
    retried := match outcome
      case Ok(next) => Ok(next)
      case Err(error) => Err(ExecutorRefused(error));
  }

  function Ending(action: NextAction): EndReason
    requires action != RetryTools
  {
    match action
    case Complete => Completed
    case AwaitUserInput => EndReason.UserInputRequired
    case StopForRevision => EndReason.RevisionRequired
  }

  /** Whether the retry into round `k` left everything as it was. */
  method Stuck(stages: Stages, k: nat, previous: SelectionResult, current: SelectionResult) returns (stuck: bool)
    requires AllTools(stages.decisions) && k >= 1
    requires previous == StateAt(stages, k - 1) && current == StateAt(stages, k)
    ensures stuck <==> NoProgressAt(stages, k)
  {
    var before := stages.verdicts(k - 1);
    stuck := HasNoProgress(previous, before, current, stages.verdicts(k), before.additional, k);
  }

  /** Runs the stages. `used` counts the retries. */
  method Run(stages: Stages, max: nat) returns (outcome: Result<FinalAssessment, PipelineError>, used: nat)
    requires AllTools(stages.decisions)
    ensures Ends(stages, max, used, outcome)
  {
    hide Unimproved, Retried, Initially;
    var state := ExecuteInitial(stages.decisions, stages.calls(0));
    var draft, verification := stages.drafts(0), stages.verdicts(0);
    used := 0;
    while true
      invariant used <= max && state == StateAt(stages, used)
      invariant draft == stages.drafts(used) && verification == stages.verdicts(used)
      invariant Reaches(stages, max, used)
      invariant !NoProgressAt(stages, used)
      decreases max - used
    {
      var action := DetermineNextAction(verification);
      if action != RetryTools {
        return Ok(BuildFinalAssessment(draft, verification, Ending(action))), used;
      }
      if used >= max {
        return Ok(BuildFinalAssessment(draft, verification, RetryLimitExceeded)), used;
      }
      var retried := RetryOnce(stages, used, state);
      if retried.Err? {
        return Err(retried.error), used;
      }
      var previous := state;
      used := used + 1;
      state, draft, verification := retried.value, stages.drafts(used), stages.verdicts(used);
      var stuck := Stuck(stages, used, previous, state);
      if stuck {
        return Ok(BuildFinalAssessment(draft, verification, EndReason.NoProgress)), used;
      }
    }
  }
}
