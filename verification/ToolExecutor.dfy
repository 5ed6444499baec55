/** Executing and re-executing the tools (ai/app/pipeline/tool_executor.py). */
module ToolExecutor {
  import opened Common
  import opened Domain
  import opened Json
  import opened Schemas
  import opened Text

  // ---------- one execution ----------

  /** What a tool does when it is called: it returns a result or raises an exception of some type. */
  datatype Outcome = Returned(result: ToolResult) | Raised(error: string)

  /** The outcome of a call with the execution id and the time the executor gives it. */
  datatype Call = Call(outcome: Outcome, id: string, at: int)

  /** One round calls a tool at most once. */
  type Calls = ToolName -> Call

  function FailedResult(tool: ToolName, reason: string, round: nat, call: Call, error: string): ToolResult {
    ToolResult(tool, Failed, true, Execution(Some(call.id), round, reason, Obj(map[]), Null, call.at), None, [], [], [],
               Some(error + ": Tool 실행에 실패했습니다."))
  }

  /** `_execute_one`: a failure becomes a result as well. */
  function ExecuteOne(tool: ToolName, decision: Decision, round: nat, call: Call): ToolResult {
    if !decision.selected then
      ToolResult(tool, Skipped, false, Execution(None, round, decision.reason, Obj(map[]), Null, call.at),
                 None, [], [], [], None)
    else
      match call.outcome
      case Raised(error) => FailedResult(tool, decision.reason, round, call, error)
      case Returned(r) =>
        if r.tool != tool || !r.selected || r.status == Skipped
        then FailedResult(tool, decision.reason, round, call, "ValueError")
        else r.(execution := Execution(Some(call.id), round, decision.reason, r.execution.query, r.execution.raw, call.at))
  }

  // ---------- keeping findings after a failed retry ----------

  predicate Invalidates(issue: Issue) {
    issue.severity == "critical" && (issue.kind == ToolFailure || issue.kind == MissingEvidence)
  }

  function Challenged(issues: seq<Issue>): set<string> {
    set i, k | 0 <= i < |issues| && Invalidates(issues[i]) && 0 <= k < |issues[i].related| :: issues[i].related[k]
  }

  function Unchallenged(fs: seq<Finding>, ids: set<string>): seq<Finding> {
    if fs == [] then []
    else if fs[0].id in ids then Unchallenged(fs[1..], ids)
    else [fs[0]] + Unchallenged(fs[1..], ids)
  }

  function Requirements(fs: seq<Finding>): set<string> {
    set f, r | f in fs && r in f.requirements :: r
  }

  /** The requirements of the findings with these ids. */
  function RemovedRequirements(fs: seq<Finding>, ids: set<string>): set<string> {
    set f, r | f in fs && f.id in ids && r in f.requirements :: r
  }

  /** What only removed findings require. */
  function OnlyRemoved(fs: seq<Finding>, ids: set<string>): set<string> {
    RemovedRequirements(fs, ids) - Requirements(Unchallenged(fs, ids))
  }

  function WithoutActions(actions: seq<string>, dropped: set<string>): seq<string> {
    if actions == [] then []
    else if actions[0] in dropped then WithoutActions(actions[1..], dropped)
    else [actions[0]] + WithoutActions(actions[1..], dropped)
  }

  /** A failed retry that carries on with what an earlier result still holds. */
  function CarriedOn(failed: ToolResult, previous: ToolResult, ids: set<string>): ToolResult {
    failed.(
      status := Partial,
      execution := failed.execution.(query := previous.execution.query, raw := previous.execution.raw),
      result := previous.result,
      findings := Unchallenged(previous.findings, ids),
      actions := WithoutActions(previous.actions, OnlyRemoved(previous.findings, ids)),
      missing := previous.missing)
  }

  /** `_retain_unchallenged_findings` */
  function Retain(previous: ToolResult, retry: ToolResult, ids: set<string>): ToolResult {
    if retry.status != Failed || Unchallenged(previous.findings, ids) == [] then retry
    else CarriedOn(retry, previous, ids)
  }

  // ---------- the executor ----------

  predicate AllTools(decisions: map<ToolName, Decision>) {
    forall t :: t in TOOLS ==> t in decisions
  }

  /** One result a tool, in the order of ToolName. */
  predicate OnePerTool(rs: seq<ToolResult>) {
    |rs| == |TOOLS| && forall i :: 0 <= i < |TOOLS| ==> rs[i].tool == TOOLS[i]
  }

  /** The dict of the latest results: of two results for a tool the later one counts. */
  function Latest(rs: seq<ToolResult>): map<ToolName, ToolResult> {
    if rs == [] then map[] else Latest(rs[..|rs| - 1])[rs[|rs| - 1].tool := rs[|rs| - 1]]
  }

  function Executed(tools: seq<ToolName>, decisions: map<ToolName, Decision>, round: nat, calls: Calls): seq<ToolResult>
    requires forall t :: t in tools ==> t in decisions
  {
    seq(|tools|, i requires 0 <= i < |tools| => ExecuteOne(tools[i], decisions[tools[i]], round, calls(tools[i])))
  }

  /** `_execute_all`: the tools finish in any order, and the futures are read in the order of the tools. */
  method ExecuteAll(tools: seq<ToolName>, decisions: map<ToolName, Decision>, round: nat, calls: Calls)
    returns (results: seq<ToolResult>)
    requires forall t :: t in tools ==> t in decisions
    ensures results == Executed(tools, decisions, round, calls)
  {
    var running := set i {:trigger tools[i]} | 0 <= i < |tools|;
    var futures: map<int, ToolResult> := map[];
    while running != {}
      invariant forall i :: i in running ==> 0 <= i < |tools|
      invariant forall i :: 0 <= i < |tools| && i !in running ==>
        i in futures && futures[i] == ExecuteOne(tools[i], decisions[tools[i]], round, calls(tools[i]))
    {
      var next :| next in running;
      futures := futures[next := ExecuteOne(tools[next], decisions[tools[next]], round, calls(tools[next]))];
      running := running - {next};
    }
    results := [];
    for i := 0 to |tools|
      invariant |results| == i
      invariant forall j :: 0 <= j < i ==> results[j] == ExecuteOne(tools[j], decisions[tools[j]], round, calls(tools[j]))
    {
      results := results + [futures[i]];
    }
  }

  function NotSkipped(rs: seq<ToolResult>): seq<ToolResult> {
    if rs == [] then []
    else if rs[|rs| - 1].status == Skipped then NotSkipped(rs[..|rs| - 1])
    else NotSkipped(rs[..|rs| - 1]) + [rs[|rs| - 1]]
  }

  /** What the first execution leaves. */
  function Initially(decisions: map<ToolName, Decision>, calls: Calls): SelectionResult
    requires AllTools(decisions)
  {
    var results := Executed(TOOLS, decisions, 0, calls);
    SelectionResult(decisions, results, NotSkipped(results))
  }

  method ExecuteInitial(decisions: map<ToolName, Decision>, calls: Calls) returns (state: SelectionResult)
    requires AllTools(decisions)
    ensures state == Initially(decisions, calls)
  {
    var results := ExecuteAll(TOOLS, decisions, 0, calls);
    var history: seq<ToolResult> := [];
    for i := 0 to |results|
      invariant history == NotSkipped(results[..i])
    {
      if results[i].status != Skipped {
        history := history + [results[i]];
      }
      assert results[..i + 1][..i] == results[..i];
    }
    assert results[..|results|] == results;
    state := SelectionResult(decisions, results, history);
  }

  datatype ExecutorError = StaleRequest | MissingResult

  function Requested(tools: seq<ToolName>, names: seq<ToolName>): seq<ToolName> {
    if tools == [] then []
    else if tools[|tools| - 1] in names then Requested(tools[..|tools| - 1], names) + [tools[|tools| - 1]]
    else Requested(tools[..|tools| - 1], names)
  }

  function RetryReason(round: nat): string {
    "Verification Agent가 " + Decimal(round) + "회차 추가 검토를 요청했습니다."
  }

  /** Requested tools become selected, with the retry as the reason. */
  function RetryDecisions(decisions: map<ToolName, Decision>, names: seq<ToolName>, round: nat): map<ToolName, Decision> {
    map t | t in decisions :: if t in names then Decision(true, RetryReason(round)) else decisions[t]
  }

  /** The result of a tool after a retry round. */
  function RetriedResult(previous: ToolResult, t: ToolName, request: RetryRequest, calls: Calls): ToolResult {
    if t in request.requested
    then Retain(previous, ExecuteOne(t, Decision(true, RetryReason(request.round)), request.round, calls(t)),
                Challenged(request.verification.issues))
    else previous
  }

  /** What a retry leaves. */
  function Retried(state: SelectionResult, request: RetryRequest, calls: Calls): SelectionResult
    requires AllTools(state.decisions) && forall t :: t in TOOLS ==> t in Latest(state.results)
  {
    var latest := Latest(state.results);
    var decisions := RetryDecisions(state.decisions, request.requested, request.round);
    RequestedExactly(TOOLS, request.requested);
    SelectionResult(
      decisions,
      seq(|TOOLS|, i requires 0 <= i < |TOOLS| => RetriedResult(latest[TOOLS[i]], TOOLS[i], request, calls)),
      state.history + Executed(Requested(TOOLS, request.requested), decisions, request.round, calls))
  }

  lemma AllToolsListed(t: ToolName)
    ensures t in TOOLS
  {
    match t
    case Customs => assert TOOLS[0] == t;
    case Radio => assert TOOLS[1] == t;
    case FoodDrug => assert TOOLS[2] == t;
    case Electrical => assert TOOLS[3] == t;
    case Children => assert TOOLS[4] == t;
    case LabelAd => assert TOOLS[5] == t;
  }

  lemma {:induction false} RequestedExactly(tools: seq<ToolName>, names: seq<ToolName>)
    ensures forall t :: t in Requested(tools, names) <==> t in tools && t in names
    ensures Distinct(tools) ==> Distinct(Requested(tools, names))
  {
    if tools != [] {
      RequestedExactly(tools[..|tools| - 1], names);
      assert tools == tools[..|tools| - 1] + [tools[|tools| - 1]];
    }
  }

  /** The first loop of execute_retry. */
  method SelectForRetry(decisions: map<ToolName, Decision>, tools: seq<ToolName>, names: seq<ToolName>, round: nat)
    returns (all: map<ToolName, Decision>)
    requires AllTools(decisions) && tools == Requested(TOOLS, names)
    ensures all == RetryDecisions(decisions, names, round)
  {
    all := decisions;
    for i := 0 to |tools|
      invariant all.Keys == decisions.Keys
      invariant forall t :: t in decisions ==> all[t] == if t in tools[..i] then Decision(true, RetryReason(round)) else decisions[t]
    {
      AllToolsListed(tools[i]);
      all := all[tools[i] := Decision(true, RetryReason(round))];
    }
    RequestedExactly(TOOLS, names);
    forall t | t in decisions ensures t in tools <==> t in names {
      AllToolsListed(t);
    }
    assert tools[..|tools|] == tools;
  }

  ghost predicate Covered(rs: seq<ToolResult>) {
    forall t :: t in TOOLS ==> t in Latest(rs)
  }

  /** The loop that merges the retry results: None when a requested tool has no latest result. */
  method MergeRetries(latest: map<ToolName, ToolResult>, history: seq<ToolResult>, tools: seq<ToolName>,
      executed: seq<ToolResult>, ids: set<string>)
    returns (merged: Option<map<ToolName, ToolResult>>, all: seq<ToolResult>)
    requires |executed| == |tools| && Distinct(tools)
    ensures merged.None? <==> exists t :: t in tools && t !in latest
    ensures merged.Some? ==> all == history + executed && merged.value.Keys == latest.Keys
    ensures merged.Some? ==> forall t :: t in latest && t !in tools ==> merged.value[t] == latest[t]
    ensures merged.Some? ==> forall i :: 0 <= i < |tools| ==>
      tools[i] in latest && merged.value[tools[i]] == Retain(latest[tools[i]], executed[i], ids)
  {
    var now := latest;
    all := history;
    for i := 0 to |tools|
      invariant all == history + executed[..i] && now.Keys == latest.Keys
      invariant forall j :: 0 <= j < i ==> tools[j] in latest && now[tools[j]] == Retain(latest[tools[j]], executed[j], ids)
      invariant forall t :: t in latest && t !in tools[..i] ==> now[t] == latest[t]
    {
      assert tools[i] in tools;
      if tools[i] !in now {
        return None, all;
      }
      all := all + [executed[i]];
      now := now[tools[i] := Retain(now[tools[i]], executed[i], ids)];
    }
    assert executed[..|tools|] == executed && tools[..|tools|] == tools;
    merged := Some(now);
  }

  /** The final list: None when a tool has no latest result. */
  method InToolOrder(latest: map<ToolName, ToolResult>) returns (results: Option<seq<ToolResult>>)
    ensures results.None? <==> exists t :: t in TOOLS && t !in latest
    ensures results.Some? ==> |results.value| == |TOOLS|
    ensures results.Some? ==>
      forall i :: 0 <= i < |TOOLS| == |results.value| ==> TOOLS[i] in latest && results.value[i] == latest[TOOLS[i]]
  {
    var done: seq<ToolResult> := [];
    for i := 0 to |TOOLS|
      invariant |done| == i
      invariant forall j :: 0 <= j < i ==> TOOLS[j] in latest && done[j] == latest[TOOLS[j]]
    {
      assert TOOLS[i] in TOOLS;
      if TOOLS[i] !in latest {
        return None;
      }
      done := done + [latest[TOOLS[i]]];
    }
    results := Some(done);
  }

  lemma MergedResult(state: SelectionResult, request: RetryRequest, calls: Calls, decisions: map<ToolName, Decision>,
      tools: seq<ToolName>, executed: seq<ToolResult>, merged: map<ToolName, ToolResult>, t: ToolName)
    requires AllTools(state.decisions) && tools == Requested(TOOLS, request.requested)
    requires decisions == RetryDecisions(state.decisions, request.requested, request.round)
    requires forall u :: u in tools ==> u in decisions
    requires executed == Executed(tools, decisions, request.round, calls)
    requires var latest := Latest(state.results);
      && merged.Keys == latest.Keys
      && (forall u :: u in latest && u !in tools ==> merged[u] == latest[u])
      && forall i :: 0 <= i < |tools| ==>
        tools[i] in latest
        && merged[tools[i]] == Retain(latest[tools[i]], executed[i], Challenged(request.verification.issues))
    requires t in merged
    ensures merged[t] == RetriedResult(Latest(state.results)[t], t, request, calls)
  {
    RequestedExactly(TOOLS, request.requested);
    AllToolsListed(t);
    if t in tools {
      var i :| 0 <= i < |tools| && tools[i] == t;
      assert executed[i] == ExecuteOne(t, decisions[t], request.round, calls(t));
    }
  }

  lemma MergedResults(state: SelectionResult, request: RetryRequest, calls: Calls, decisions: map<ToolName, Decision>,
      tools: seq<ToolName>, executed: seq<ToolResult>, merged: map<ToolName, ToolResult>, results: seq<ToolResult>)
    requires AllTools(state.decisions) && tools == Requested(TOOLS, request.requested)
    requires decisions == RetryDecisions(state.decisions, request.requested, request.round)
    requires forall u :: u in tools ==> u in decisions
    requires executed == Executed(tools, decisions, request.round, calls)
    requires var latest := Latest(state.results);
      && merged.Keys == latest.Keys
      && (forall u :: u in latest && u !in tools ==> merged[u] == latest[u])
      && forall i :: 0 <= i < |tools| ==>
        tools[i] in latest
        && merged[tools[i]] == Retain(latest[tools[i]], executed[i], Challenged(request.verification.issues))
    requires |results| == |TOOLS|
    requires forall i :: 0 <= i < |TOOLS| ==> TOOLS[i] in merged && results[i] == merged[TOOLS[i]]
    ensures Covered(state.results)
    ensures SelectionResult(decisions, results, state.history + executed) == Retried(state, request, calls)
  {
    var latest := Latest(state.results);
    forall t | t in TOOLS ensures t in latest {
      var i :| 0 <= i < |TOOLS| && TOOLS[i] == t;
    }
    forall i | 0 <= i < |TOOLS| ensures results[i] == RetriedResult(latest[TOOLS[i]], TOOLS[i], request, calls) {
      MergedResult(state, request, calls, decisions, tools, executed, merged, TOOLS[i]);
    }
    assert results == Retried(state, request, calls).results;
  }

  /** `execute_retry`: a request about other results than the current ones is refused; otherwise every requested tool
      runs once, and its result is merged with the latest one. */
  method ExecuteRetry(state: SelectionResult, request: RetryRequest, calls: Calls)
    returns (outcome: Result<SelectionResult, ExecutorError>)
    requires AllTools(state.decisions)
    ensures outcome == if request.latest != state.results then Err(StaleRequest)
                       else if !Covered(state.results) then Err(MissingResult)
                       else Ok(Retried(state, request, calls))
  {
    if request.latest != state.results {
      return Err(StaleRequest);
    }
    var latest := Latest(state.results);
    var tools := Requested(TOOLS, request.requested);
    RequestedExactly(TOOLS, request.requested);
    var decisions := SelectForRetry(state.decisions, tools, request.requested, request.round);
    var executed := ExecuteAll(tools, decisions, request.round, calls);
    var merged, history := MergeRetries(latest, state.history, tools, executed, Challenged(request.verification.issues));
    if merged == None {
      return Err(MissingResult);
    }
    var results := InToolOrder(merged.value);
    if results == None {
      return Err(MissingResult);
    }
    MergedResults(state, request, calls, decisions, tools, executed, merged.value, results.value);
    outcome := Ok(SelectionResult(decisions, results.value, history));
  }
}
