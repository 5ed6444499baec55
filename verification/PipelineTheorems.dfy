/** What every run of the pipeline guarantees, for any tools and any verifier. */
module PipelineTheorems {
  import opened Common
  import opened Domain
  import opened Schemas
  import opened EarlyStop
  import opened SnapshotAgreement
  import opened ToolExecutor
  import opened RetryMerging
  import opened Pipeline

  // ---------- the end of a run ----------

  lemma {:induction false} ReachedBefore(stages: Stages, max: nat, n: nat, k: nat)
    requires AllTools(stages.decisions) && Reaches(stages, max, n) && k < n
    ensures Continues(stages, max, k)
  {
    hide Continues;
    if k < n - 1 {
      ReachedBefore(stages, max, n - 1, k);
    }
  }

  /** A run has one end: the number of retries and the outcome are determined. */
  lemma EndIsUnique(stages: Stages, max: nat, n: nat, o: Result<FinalAssessment, PipelineError>, m: nat,
      p: Result<FinalAssessment, PipelineError>)
    requires AllTools(stages.decisions) && Ends(stages, max, n, o) && Ends(stages, max, m, p)
    ensures n == m && o == p
  {
    if n < m {
      ReachedBefore(stages, max, m, n);
    } else if m < n {
      ReachedBefore(stages, max, n, m);
    }
  }

  lemma ReasonFits(draft: Draft, v: Verification, stuck: bool, max: nat, k: nat, reason: EndReason)
    requires Reason(v, stuck, max, k) == Some(reason) && (stuck ==> v.status == ToolsRequired)
    ensures var f := BuildFinalAssessment(draft, v, reason);
      && f.draft == draft && f.verification == v && f.questions == v.questions
      && (f.reason == Completed <==> f.status == Verified || f.status == VerifiedWithWarnings)
      && (f.status == Verified <==> v.status == Approved)
      && (f.status == VerifiedWithWarnings <==> v.status == ApprovedWithWarnings)
      && (f.reason == EndReason.NoProgress <==> stuck)
      && (f.reason == RetryLimitExceeded ==> k >= max)
      && (f.reason == RetryLimitExceeded || f.reason == EndReason.NoProgress <==> v.status == ToolsRequired)
      && (f.reason == EndReason.UserInputRequired <==> v.status == VerificationStatus.UserInputRequired)
      && (f.reason == EndReason.RevisionRequired <==> v.status == VerificationStatus.RevisionRequired)
  {
  }

  /** The assessment of a run is that of its last round. It is verified exactly when the verdict approves, with warnings
      exactly when the verdict does so with warnings, and the reason is COMPLETED exactly then. At the retry limit all
      retries were used, and no run makes more of them than allowed. */
  lemma {:induction false} ReasonMatchesStatus(stages: Stages, max: nat, n: nat, f: FinalAssessment)
    requires AllTools(stages.decisions) && Ends(stages, max, n, Ok(f))
    ensures n <= max && f.draft == stages.drafts(n) && f.verification == stages.verdicts(n)
    ensures f.questions == stages.verdicts(n).questions
    ensures f.status == Verified <==> stages.verdicts(n).status == Approved
    ensures f.status == VerifiedWithWarnings <==> stages.verdicts(n).status == ApprovedWithWarnings
    ensures f.reason == EndReason.NoProgress <==> NoProgressAt(stages, n)
    ensures f.reason == Completed <==> f.status == Verified || f.status == VerifiedWithWarnings
    ensures f.reason == RetryLimitExceeded ==> n == max
    ensures f.reason == RetryLimitExceeded || f.reason == EndReason.NoProgress <==> f.verification.status == ToolsRequired
    ensures f.reason == EndReason.UserInputRequired <==> f.verification.status == VerificationStatus.UserInputRequired
    ensures f.reason == EndReason.RevisionRequired <==> f.verification.status == VerificationStatus.RevisionRequired
  {
    ReasonFits(stages.drafts(n), stages.verdicts(n), NoProgressAt(stages, n), max, n, f.reason);
  }

  // ---------- the results of a run ----------

  function RoundsUpTo(stages: Stages, k: nat): seq<RetryRound>
    requires AllTools(stages.decisions)
  {
    if k == 0 then [] else RoundsUpTo(stages, k - 1) + [RoundInto(stages, k)]
  }

  function RoundInto(stages: Stages, k: nat): RetryRound
    requires AllTools(stages.decisions) && k >= 1
  {
    RetryRound(RequestAfter(StateAt(stages, k - 1), stages.verdicts(k - 1), k), stages.calls(k))
  }

  lemma StateStep(stages: Stages, k: nat)
    requires AllTools(stages.decisions) && k >= 1
    ensures var before, round := StateAt(stages, k - 1), RoundInto(stages, k);
      Covered(before.results) && StateAt(stages, k) == Retried(before, round.request, round.calls)
  {
    RoundKeepsSound(StateAt(stages, k - 1), RoundInto(stages, k).request, stages.calls(k));
  }

  lemma RoundsStep(state: SelectionResult, rounds: seq<RetryRound>, last: RetryRound)
    requires Sound(state)
    ensures var before := AfterRounds(state, rounds);
      Covered(before.results) && AfterRounds(state, rounds + [last]) == Retried(before, last.request, last.calls)
  {
    RoundKeepsSound(AfterRounds(state, rounds), last.request, last.calls);
    assert (rounds + [last])[..|rounds|] == rounds;
  }

  /** The state after `k` retries is what the executor makes of `k` rounds: its laws hold of every run. */
  lemma {:induction false} StateIsAfterRounds(stages: Stages, k: nat)
    requires AllTools(stages.decisions)
    ensures StateAt(stages, k) == AfterRounds(StateAt(stages, 0), RoundsUpTo(stages, k))
  {
    hide Retried, Initially;
    if k > 0 {
      StateIsAfterRounds(stages, k - 1);
      StateStep(stages, k);
      RoundsStep(StateAt(stages, 0), RoundsUpTo(stages, k - 1), RoundInto(stages, k));
    }
  }

  // ---------- no progress ----------

  lemma {:induction false} ResultsOfAppend(a: seq<ToolResult>, b: seq<ToolResult>, t: ToolName)
    ensures ResultsOf(a + b, t) == ResultsOf(a, t) + ResultsOf(b, t)
  {
    if b == [] {
      assert a + b == a;
    } else {
      var n := |b| - 1;
      ResultsOfAppend(a, b[..n], t);
      assert (a + b)[..|a + b| - 1] == a + b[..n];
    }
  }

  lemma {:induction false} ResultsOfNone(rs: seq<ToolResult>, t: ToolName)
    requires forall i :: 0 <= i < |rs| ==> rs[i].tool != t
    ensures ResultsOf(rs, t) == []
  {
    if rs != [] {
      ResultsOfNone(rs[..|rs| - 1], t);
    }
  }

  lemma ResultsOfOne(rs: seq<ToolResult>, i: nat, t: ToolName)
    requires i < |rs| && rs[i].tool == t && forall j :: 0 <= j < |rs| && j != i ==> rs[j].tool != t
    ensures ResultsOf(rs, t) == [rs[i]]
  {
    assert rs == rs[..i] + ([rs[i]] + rs[i + 1..]);
    ResultsOfAppend(rs[..i], [rs[i]] + rs[i + 1..], t);
    ResultsOfAppend([rs[i]], rs[i + 1..], t);
    ResultsOfNone(rs[..i], t);
    ResultsOfNone(rs[i + 1..], t);
    assert [rs[i]][..0] == [];
  }

  /** What the round that leads to round `k` executes for a tool it requests. */
  function ExecutedFor(stages: Stages, k: nat, t: ToolName): ToolResult {
    ExecuteOne(t, Decision(true, RetryReason(k)), k, stages.calls(k)(t))
  }

  lemma RunOnce(round: RetryRound, t: ToolName)
    requires t in round.request.requested
    ensures ResultsOf(RunsIn(round), t) == [AttemptAt(t, round.request, round.calls).result]
  {
    hide ExecuteOne, Filter, ResultsOf, Requested;
    var rs := RunsIn(round);
    var tools := Filter(TOOLS, u => u in round.request.requested);
    RequestedIsFilter(TOOLS, round.request.requested);
    RequestedExactly(TOOLS, round.request.requested);
    AllToolsListed(t);
    var i :| 0 <= i < |tools| && tools[i] == t;
    forall j | 0 <= j < |rs| ensures rs[j].tool == tools[j] {
      ExecuteOneTool(tools[j], Decision(true, RetryReason(round.request.round)), round.request.round, round.calls(tools[j]));
    }
    ResultsOfOne(rs, i, t);
  }

  lemma LastOfAppend(h: seq<ToolResult>, added: seq<ToolResult>, t: ToolName, r: ToolResult)
    requires ResultsOf(added, t) == [r]
    ensures var all := ResultsOf(h + added, t); all != [] && all[|all| - 1] == r
  {
    ResultsOfAppend(h, added, t);
  }

  lemma LastInRound(before: SelectionResult, round: RetryRound, t: ToolName)
    requires Sound(before) && t in round.request.requested
    ensures Covered(before.results)
    ensures var h := ResultsOf(Retried(before, round.request, round.calls).history, t);
      h != [] && h[|h| - 1] == AttemptAt(t, round.request, round.calls).result
  {
    hide ExecuteOne, Retried, RunsIn, ResultsOf;
    RoundHistory(before, round);
    RunOnce(round, t);
    LastOfAppend(before.history, RunsIn(round), t, AttemptAt(t, round.request, round.calls).result);
  }

  /** The last entry a requested tool has in the history is the execution of this round. */
  lemma LastExecution(stages: Stages, k: nat, t: ToolName)
    requires AllTools(stages.decisions) && k >= 1 && t in stages.verdicts(k - 1).additional
    ensures var h := ResultsOf(StateAt(stages, k).history, t); h != [] && h[|h| - 1] == ExecutedFor(stages, k, t)
  {
    hide Retried, ExecuteOne, RetryReason, NotSkipped, Initially;
    StateStep(stages, k);
    LastInRound(StateAt(stages, k - 1), RoundInto(stages, k), t);
  }

  lemma RecordIsLast(state: SelectionResult, t: ToolName)
    requires NormalExecutionRecord(state, t).Some?
    ensures var h, r := ResultsOf(state.history, t), NormalExecutionRecord(state, t).value;
      && h != [] && r == h[|h| - 1] && NormalExecution(r)
      && exists l :: l in ResultsOf(state.results, t) && l.execution.round == r.execution.round
  {
    assert ResultsOf(state.results, t)[0] in ResultsOf(state.results, t);
  }

  lemma {:induction false} ResultsOfIn(rs: seq<ToolResult>, t: ToolName, r: ToolResult)
    requires r in ResultsOf(rs, t)
    ensures r in rs && r.tool == t
  {
    if rs[|rs| - 1] != r || rs[|rs| - 1].tool != t {
      ResultsOfIn(rs[..|rs| - 1], t, r);
    }
  }

  lemma RecordWithin(state: SelectionResult, t: ToolName, k: nat)
    requires RoundsWithin(state.results, k) && NormalExecutionRecord(state, t).Some?
    ensures NormalExecutionRecord(state, t).value.execution.round <= k
  {
    RecordIsLast(state, t);
    var r := NormalExecutionRecord(state, t).value;
    var l :| l in ResultsOf(state.results, t) && l.execution.round == r.execution.round;
    ResultsOfIn(state.results, t, l);
  }

  lemma RecordOfRound(stages: Stages, k: nat, t: ToolName)
    requires AllTools(stages.decisions) && k >= 1 && t in stages.verdicts(k - 1).additional
    requires NormalExecutionRecord(StateAt(stages, k), t).Some?
    ensures NormalExecutionRecord(StateAt(stages, k), t).value == ExecutedFor(stages, k, t)
    ensures ExecutedFor(stages, k, t).execution.round == k && NormalExecution(ExecutedFor(stages, k, t))
  {
    RecordIsLast(StateAt(stages, k), t);
    LastExecution(stages, k, t);
    ExecuteOneTool(t, Decision(true, RetryReason(k)), k, stages.calls(k)(t));
  }

  /** The round checks of the no-progress test never decide it: with both records present, the previous one is of an
      earlier round and the current one is of this round. */
  lemma RoundChecksNeverFail(stages: Stages, k: nat, t: ToolName)
    requires AllTools(stages.decisions) && k >= 1 && t in stages.verdicts(k - 1).additional
    ensures ExecutedAgain(StateAt(stages, k - 1), StateAt(stages, k), t, k) <==>
            NormalExecutionRecord(StateAt(stages, k - 1), t).Some? && NormalExecutionRecord(StateAt(stages, k), t).Some?
  {
    if NormalExecutionRecord(StateAt(stages, k - 1), t).Some? && NormalExecutionRecord(StateAt(stages, k), t).Some? {
      RecordWithin(StateAt(stages, k - 1), t, k - 1);
      RecordOfRound(stages, k, t);
    }
  }

  // ---------- when a run makes no progress ----------

  /** The last round up to `k` that executed the tool: 0 is the first execution. */
  function LastRun(stages: Stages, k: nat, t: ToolName): Option<nat>
    requires t in stages.decisions
  {
    if k == 0 then (if stages.decisions[t].selected then Some(0) else None)
    else if t in stages.verdicts(k - 1).additional then Some(k)
    else LastRun(stages, k - 1, t)
  }

  function DecisionIn(stages: Stages, j: nat, t: ToolName): Decision
    requires t in stages.decisions
  {
    if j == 0 then stages.decisions[t] else Decision(true, RetryReason(j))
  }

  /** What round `j` made of its call of the tool. */
  function RunIn(stages: Stages, j: nat, t: ToolName): ToolResult
    requires t in stages.decisions
  {
    ExecuteOne(t, DecisionIn(stages, j, t), j, stages.calls(j)(t))
  }

  /** The call came to a judgement: the tool returned its own result, with an id, without an error and with a detail and
      some finding, and it neither failed nor skipped. */
  predicate Judged(call: Call, t: ToolName) {
    && call.id != "" && call.outcome.Returned?
    && var r := call.outcome.result;
       && r.tool == t && r.selected && (r.status == Success || r.status == Partial)
       && r.error == None && r.result != None && r.findings != []
  }

  /** The history of a tool ends with its last run, which is its result unless it failed. */
  ghost predicate EndsWithRun(state: SelectionResult, i: nat, run: Option<ToolResult>)
    requires i < |TOOLS| == |state.results|
  {
    var h := ResultsOf(state.history, TOOLS[i]);
    match run
    case None => h == []
    case Some(r) => h != [] && h[|h| - 1] == r && r.selected && (r.status != Failed ==> state.results[i] == r)
  }

  function LastResult(stages: Stages, k: nat, t: ToolName): Option<ToolResult>
    requires t in stages.decisions
  {
    var j := LastRun(stages, k, t);
    if j.None? then None else Some(RunIn(stages, j.value, t))
  }

  lemma {:induction false} HistoryOf(rs: seq<ToolResult>, t: ToolName)
    ensures ResultsOf(NotSkipped(rs), t) == NotSkipped(ResultsOf(rs, t))
  {
    if rs != [] {
      var init, last := rs[..|rs| - 1], rs[|rs| - 1];
      HistoryOf(init, t);
      if last.status != Skipped {
        assert (NotSkipped(init) + [last])[..|NotSkipped(init)|] == NotSkipped(init);
      }
      if last.tool == t {
        assert (ResultsOf(init, t) + [last])[..|ResultsOf(init, t)|] == ResultsOf(init, t);
      }
    }
  }

  lemma ResultAt(rs: seq<ToolResult>, i: nat)
    requires OnePerTool(rs) && i < |TOOLS|
    ensures ResultsOf(rs, TOOLS[i]) == [rs[i]]
  {
    forall j | 0 <= j < |rs| && j != i ensures rs[j].tool != TOOLS[i] {
      ToolsDiffer(i, j);
    }
    ResultsOfOne(rs, i, TOOLS[i]);
  }

  lemma StartOf(stages: Stages, i: nat)
    requires AllTools(stages.decisions) && i < |TOOLS|
    ensures TOOLS[i] in stages.decisions
    ensures var state := StateAt(stages, 0);
      OnePerTool(state.results) && state.history == NotSkipped(state.results)
      && state.results[i] == RunIn(stages, 0, TOOLS[i])
  {
    hide ExecuteOne, NotSkipped;
  }

  lemma FirstRun(stages: Stages, i: nat)
    requires AllTools(stages.decisions) && i < |TOOLS|
    ensures TOOLS[i] in stages.decisions
    ensures EndsWithRun(StateAt(stages, 0), i, LastResult(stages, 0, TOOLS[i]))
  {
    hide ExecuteOne, StateAt, ResultsOf;
    var rs := StateAt(stages, 0).results;
    StartOf(stages, i);
    ResultAt(rs, i);
    HistoryOf(rs, TOOLS[i]);
    ExecutionRecorded(TOOLS[i], stages.decisions[TOOLS[i]], 0, stages.calls(0)(TOOLS[i]));
    assert [rs[i]][..0] == [];
  }

  lemma NotRun(round: RetryRound, t: ToolName)
    requires t !in round.request.requested
    ensures ResultsOf(RunsIn(round), t) == []
  {
    hide ExecuteOne;
    var rs := RunsIn(round);
    var tools := Filter(TOOLS, u => u in round.request.requested);
    RequestedIsFilter(TOOLS, round.request.requested);
    RequestedExactly(TOOLS, round.request.requested);
    forall i | 0 <= i < |rs| ensures rs[i].tool != t {
      assert tools[i] in tools;
      ExecuteOneTool(tools[i], Decision(true, RetryReason(round.request.round)), round.request.round, round.calls(tools[i]));
    }
    ResultsOfNone(rs, t);
  }

  /** After any number of retries the history of a tool ends with its last run, and so does its result unless that run
      failed. */
  lemma {:induction false} EveryTool(stages: Stages, k: nat, i: nat)
    requires AllTools(stages.decisions) && i < |TOOLS|
    ensures TOOLS[i] in stages.decisions
    ensures EndsWithRun(StateAt(stages, k), i, LastResult(stages, k, TOOLS[i]))
  {
    hide ExecuteOne, Retried, RunsIn, ResultsOf;
    if k == 0 {
      FirstRun(stages, i);
    } else {
      EveryTool(stages, k - 1, i);
      var before, round, t := StateAt(stages, k - 1), RoundInto(stages, k), TOOLS[i];
      StateStep(stages, k);
      RoundKeepsSound(before, round.request, round.calls);
      if t in round.request.requested {
        LastExecution(stages, k, t);
        ExecuteOneTool(t, Decision(true, RetryReason(k)), k, stages.calls(k)(t));
      } else {
        RoundHistory(before, round);
        ResultsOfAppend(before.history, RunsIn(round), t);
        NotRun(round, t);
      }
    }
  }

  lemma NormalExactly(t: ToolName, decision: Decision, round: nat, call: Call)
    requires decision.selected
    ensures var r := ExecuteOne(t, decision, round, call);
      NormalExecution(r) && r.execution.id != Some("") <==> Judged(call, t)
  {
    ExecutionRecorded(t, decision, round, call);
  }

  /** The last round that executed the tool came to a judgement. */
  predicate JudgedLast(stages: Stages, k: nat, t: ToolName)
    requires t in stages.decisions
  {
    var j := LastRun(stages, k, t);
    j.Some? && Judged(stages.calls(j.value)(t), t)
  }

  lemma {:induction false} LastRunSelects(stages: Stages, k: nat, t: ToolName)
    requires t in stages.decisions
    ensures var j := LastRun(stages, k, t);
      j.Some? ==> j.value <= k && DecisionIn(stages, j.value, t).selected
  {
    if k > 0 {
      LastRunSelects(stages, k - 1, t);
    }
  }

  lemma RecordExactly(stages: Stages, k: nat, i: nat)
    requires AllTools(stages.decisions) && i < |TOOLS|
    ensures TOOLS[i] in stages.decisions
    ensures NormalExecutionRecord(StateAt(stages, k), TOOLS[i]).Some? <==> JudgedLast(stages, k, TOOLS[i])
  {
    hide ExecuteOne, ResultsOf, NormalExecution, Judged, StateAt;
    var t := TOOLS[i];
    EveryTool(stages, k, i);
    ResultAt(StateAt(stages, k).results, i);
    LastRunSelects(stages, k, t);
    var j := LastRun(stages, k, t);
    if j.Some? {
      NormalExactly(t, DecisionIn(stages, j.value, t), j.value, stages.calls(j.value)(t));
      ExecutionRecorded(t, DecisionIn(stages, j.value, t), j.value, stages.calls(j.value)(t));
      NormalNotFailed(RunIn(stages, j.value, t));
    }
  }

  lemma NormalNotFailed(r: ToolResult)
    ensures NormalExecution(r) ==> r.status != Failed
  {
  }

  lemma AgainExactly(stages: Stages, k: nat, t: ToolName)
    requires AllTools(stages.decisions) && k >= 1 && t in stages.verdicts(k - 1).additional
    ensures t in stages.decisions
    ensures ExecutedAgain(StateAt(stages, k - 1), StateAt(stages, k), t, k) <==>
            JudgedLast(stages, k - 1, t) && Judged(stages.calls(k)(t), t)
  {
    hide Judged, StateAt, ExecutedAgain;
    AllToolsListed(t);
    var i :| 0 <= i < |TOOLS| && TOOLS[i] == t;
    RecordExactly(stages, k - 1, i);
    RecordExactly(stages, k, i);
    RoundChecksNeverFail(stages, k, t);
  }

  /** Every tool the round before asked for came to a judgement both in its last run before and in round `k`. */
  ghost predicate AllJudged(stages: Stages, k: nat)
    requires AllTools(stages.decisions) && k >= 1
  {
    forall t :: t in stages.verdicts(k - 1).additional ==>
      t in stages.decisions && JudgedLast(stages, k - 1, t) && Judged(stages.calls(k)(t), t)
  }

  lemma AllAgainExactly(stages: Stages, k: nat, before: SelectionResult, after: SelectionResult)
    requires AllTools(stages.decisions) && k >= 1
    requires before == StateAt(stages, k - 1) && after == StateAt(stages, k)
    ensures (forall t :: t in stages.verdicts(k - 1).additional ==> ExecutedAgain(before, after, t, k)) <==> AllJudged(stages, k)
  {
    hide StateAt, ExecutedAgain, Judged, JudgedLast;
    forall t | t in stages.verdicts(k - 1).additional
      ensures t in stages.decisions
      ensures ExecutedAgain(before, after, t, k) <==> JudgedLast(stages, k - 1, t) && Judged(stages.calls(k)(t), t)
    {
      AgainExactly(stages, k, t);
    }
  }

  lemma UnimprovedAt(stages: Stages, k: nat, before: SelectionResult, after: SelectionResult)
    requires AllTools(stages.decisions) && k >= 1
    requires before == StateAt(stages, k - 1) && after == StateAt(stages, k)
    ensures var v, w := stages.verdicts(k - 1), stages.verdicts(k);
      NoProgressAt(stages, k) <==>
      && v.status == ToolsRequired && w.status == ToolsRequired && v.additional != [] && Distinct(v.additional)
      && (forall t :: t in v.additional ==> ExecutedAgain(before, after, t, k))
      && Snapshot(before.results, v).Some? && Snapshot(before.results, v) == Snapshot(after.results, w)
  {
    hide StateAt, ExecutedAgain, Snapshot;
  }

  /**
   The retry into round `k` made no progress exactly when both rounds ask for tools, those asked for first are not
   repeated, each of them came to a judgement both in its last run before and in this one, and the two states say the
   same: nothing but list order, ids and metadata changed.
   */
  lemma NoProgressExactly(stages: Stages, k: nat)
    requires AllTools(stages.decisions)
    ensures NoProgressAt(stages, k) <==>
      && k >= 1 && stages.verdicts(k - 1).status == ToolsRequired && stages.verdicts(k).status == ToolsRequired
      && stages.verdicts(k - 1).additional != [] && Distinct(stages.verdicts(k - 1).additional)
      && AllJudged(stages, k)
      && var before, after := StateAt(stages, k - 1).results, StateAt(stages, k).results;
         && Unambiguous(before, stages.verdicts(k - 1)) && Unambiguous(after, stages.verdicts(k))
         && StatesAgree(before, stages.verdicts(k - 1), after, stages.verdicts(k))
  {
    hide AllJudged, ExecutedAgain, Snapshot, Unambiguous, StatesAgree, StateAt;
    if k >= 1 {
      var before, after := StateAt(stages, k - 1), StateAt(stages, k);
      SnapshotsAgreeExactly(before.results, stages.verdicts(k - 1), after.results, stages.verdicts(k));
      UnimprovedAt(stages, k, before, after);
      AllAgainExactly(stages, k, before, after);
    }
  }
}
