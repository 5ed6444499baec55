/** What any number of retry rounds leaves of results, findings and actions. */
module RetryMerging {
  import opened Common
  import opened Domain
  import opened Schemas
  import opened Text
  import opened ToolExecutor

  // ---------- filtering ----------

  lemma {:induction false} UnchallengedExactly(fs: seq<Finding>, ids: set<string>)
    ensures forall f :: f in Unchallenged(fs, ids) <==> f in fs && f.id !in ids
  {
    if fs != [] {
      UnchallengedExactly(fs[1..], ids);
      assert fs == [fs[0]] + fs[1..];
    }
  }

  lemma {:induction false} UnchallengedTwice(fs: seq<Finding>, a: set<string>, b: set<string>)
    ensures Unchallenged(Unchallenged(fs, a), b) == Unchallenged(fs, a + b)
  {
    if fs != [] {
      UnchallengedTwice(fs[1..], a, b);
      if fs[0].id !in a {
        assert ([fs[0]] + Unchallenged(fs[1..], a))[1..] == Unchallenged(fs[1..], a);
      }
    }
  }

  lemma {:induction false} WithoutTwice(actions: seq<string>, a: set<string>, b: set<string>)
    ensures WithoutActions(WithoutActions(actions, a), b) == WithoutActions(actions, a + b)
  {
    if actions != [] {
      WithoutTwice(actions[1..], a, b);
      if actions[0] !in a {
        assert ([actions[0]] + WithoutActions(actions[1..], a))[1..] == WithoutActions(actions[1..], a);
      }
    }
  }

  lemma {:induction false} UnchallengedNothing(fs: seq<Finding>)
    ensures Unchallenged(fs, {}) == fs
  {
    if fs != [] {
      UnchallengedNothing(fs[1..]);
    }
  }

  /** What only removed findings require adds up over two rounds. */
  lemma OnlyRemovedTwice(fs: seq<Finding>, a: set<string>, b: set<string>)
    ensures OnlyRemoved(fs, a) + OnlyRemoved(Unchallenged(fs, a), b) == OnlyRemoved(fs, a + b)
  {
    UnchallengedExactly(fs, a);
    UnchallengedExactly(fs, a + b);
    UnchallengedTwice(fs, a, b);
    var left, right := OnlyRemoved(fs, a) + OnlyRemoved(Unchallenged(fs, a), b), OnlyRemoved(fs, a + b);
    forall r | r in right ensures r in left {
      var f :| f in fs && f.id in a + b && r in f.requirements;
      if r in Requirements(Unchallenged(fs, a)) {
        var g :| g in Unchallenged(fs, a) && r in g.requirements;
        assert g in Unchallenged(fs, a + b) ==> r in Requirements(Unchallenged(fs, a + b));
      }
    }
  }

  lemma {:induction false} UnchallengedIsFilter(fs: seq<Finding>, ids: set<string>)
    ensures Unchallenged(fs, ids) == Filter(fs, (f: Finding) => f.id !in ids)
  {
    if fs != [] {
      UnchallengedIsFilter(fs[1..], ids);
    }
  }

  lemma {:induction false} WithoutIsFilter(actions: seq<string>, dropped: set<string>)
    ensures WithoutActions(actions, dropped) == Filter(actions, a => a !in dropped)
  {
    if actions != [] {
      WithoutIsFilter(actions[1..], dropped);
    }
  }

  // ---------- one round ----------

  /** A failed retry shows nothing new and nothing challenged exactly when an unchallenged finding is left or the failed
      result itself lists no finding. */
  lemma NothingReappears(previous: ToolResult, retry: ToolResult, ids: set<string>)
    requires retry.status == Failed
    ensures (forall f :: f in Retain(previous, retry, ids).findings ==> f in previous.findings && f.id !in ids)
        <==> (exists f :: f in previous.findings && f.id !in ids) || retry.findings == []
  {
    UnchallengedExactly(previous.findings, ids);
    if Unchallenged(previous.findings, ids) != [] {
      assert Unchallenged(previous.findings, ids)[0] in previous.findings;
    } else if retry.findings != [] {
      var f := retry.findings[0];
      assert f in Retain(previous, retry, ids).findings;
      assert !(f in previous.findings && f.id !in ids);
    }
  }

  // ---------- a tool over several rounds ----------

  /** One re-execution of a tool, with the finding ids its round had challenged. */
  datatype Attempt = Attempt(result: ToolResult, ids: set<string>)

  function After(previous: ToolResult, a: Attempt): ToolResult {
    Retain(previous, a.result, a.ids)
  }

  function Merged(first: ToolResult, attempts: seq<Attempt>): ToolResult {
    if attempts == [] then first
    else After(Merged(first, attempts[..|attempts| - 1]), attempts[|attempts| - 1])
  }

  predicate AllFailed(attempts: seq<Attempt>) {
    forall i :: 0 <= i < |attempts| ==> attempts[i].result.status == Failed
  }

  function AllIds(attempts: seq<Attempt>): set<string> {
    if attempts == [] then {} else AllIds(attempts[..|attempts| - 1]) + attempts[|attempts| - 1].ids
  }

  lemma CarriedOnTwice(first: ToolResult, failed: ToolResult, a: set<string>, again: ToolResult, b: set<string>)
    requires failed.status == Failed && again.status == Failed
    ensures CarriedOn(again, CarriedOn(failed, first, a), b) == CarriedOn(again, first, a + b)
  {
    UnchallengedTwice(first.findings, a, b);
    OnlyRemovedTwice(first.findings, a, b);
    WithoutTwice(first.actions, OnlyRemoved(first.findings, a), OnlyRemoved(Unchallenged(first.findings, a), b));
  }

  /** A streak of failed retries merges like one: as long as an unchallenged finding is left, the result is the last
      failure carrying on with what the first result holds outside all the challenges. */
  lemma {:induction false} StreakMergesOnce(first: ToolResult, attempts: seq<Attempt>)
    requires attempts != [] && AllFailed(attempts)
    requires Unchallenged(first.findings, AllIds(attempts)) != []
    ensures Merged(first, attempts) == CarriedOn(attempts[|attempts| - 1].result, first, AllIds(attempts))
  {
    var n := |attempts| - 1;
    var before, last := attempts[..n], attempts[n];
    UnchallengedTwice(first.findings, AllIds(before), last.ids);
    if before == [] {
      assert AllIds(attempts) == last.ids;
    } else {
      StreakMergesOnce(first, before);
      CarriedOnTwice(first, before[n - 1].result, AllIds(before), last.result, last.ids);
    }
  }

  lemma TailWithoutLast(xs: seq<Attempt>, k: nat)
    requires k < |xs|
    ensures xs[..|xs| - 1][k..] == xs[k..][..|xs[k..]| - 1]
  {
  }

  /** Once a round leaves no unchallenged finding, the streak starts again from that round's failure. */
  lemma {:induction false} StreakStartsAgain(first: ToolResult, attempts: seq<Attempt>, k: nat)
    requires k < |attempts| && AllFailed(attempts)
    requires Unchallenged(first.findings, AllIds(attempts[..k])) != []
    requires Unchallenged(first.findings, AllIds(attempts[..k + 1])) == []
    ensures Merged(first, attempts) == Merged(attempts[k].result, attempts[k + 1..])
  {
    hide OnlyRemoved, WithoutActions;
    if k == |attempts| - 1 {
      var before := attempts[..k];
      assert attempts[..k + 1] == attempts;
      UnchallengedTwice(first.findings, AllIds(before), attempts[k].ids);
      if before == [] {
        UnchallengedNothing(first.findings);
        assert AllIds(before) + attempts[k].ids == attempts[k].ids;
      } else {
        StreakMergesOnce(first, before);
      }
    } else {
      var shorter := attempts[..|attempts| - 1];
      assert shorter[..k] == attempts[..k] && shorter[..k + 1] == attempts[..k + 1];
      TailWithoutLast(attempts, k + 1);
      StreakStartsAgain(first, shorter, k);
    }
  }

  /** If failures bring no findings of their own, a streak leaves exactly the findings no round challenged. */
  lemma {:induction false} FindingsOnlyShrink(first: ToolResult, attempts: seq<Attempt>)
    requires AllFailed(attempts) && forall i :: 0 <= i < |attempts| ==> attempts[i].result.findings == []
    ensures Merged(first, attempts).findings == Unchallenged(first.findings, AllIds(attempts))
  {
    if attempts == [] {
      UnchallengedNothing(first.findings);
    } else {
      var n := |attempts| - 1;
      FindingsOnlyShrink(first, attempts[..n]);
      UnchallengedTwice(first.findings, AllIds(attempts[..n]), attempts[n].ids);
    }
  }

  // ---------- the executor over several rounds ----------

  /** The state the executor keeps: six results in the order of ToolName, and a decision for every tool. */
  predicate Sound(state: SelectionResult) {
    OnePerTool(state.results) && AllTools(state.decisions)
  }

  lemma ExecuteOneTool(tool: ToolName, decision: Decision, round: nat, call: Call)
    ensures var r := ExecuteOne(tool, decision, round, call);
            r.tool == tool && r.execution.round == round && r.selected == decision.selected
  {
  }

  lemma ToolsDiffer(i: nat, j: nat)
    requires i < |TOOLS| && j < |TOOLS| && i != j
    ensures TOOLS[i] != TOOLS[j]
  {
  }

  lemma {:induction false} LatestPrefix(rs: seq<ToolResult>, n: nat, i: nat)
    requires OnePerTool(rs) && i < n <= |rs|
    ensures TOOLS[i] in Latest(rs[..n]) && Latest(rs[..n])[TOOLS[i]] == rs[i]
  {
    assert rs[..n][..n - 1] == rs[..n - 1];
    if i < n - 1 {
      LatestPrefix(rs, n - 1, i);
      ToolsDiffer(i, n - 1);
    }
  }

  lemma LatestInOrder(rs: seq<ToolResult>)
    requires OnePerTool(rs)
    ensures Covered(rs)
    ensures forall i :: 0 <= i < |TOOLS| ==> TOOLS[i] in Latest(rs) && Latest(rs)[TOOLS[i]] == rs[i]
  {
    assert rs[..|rs|] == rs;
    forall i | 0 <= i < |TOOLS| ensures TOOLS[i] in Latest(rs) && Latest(rs)[TOOLS[i]] == rs[i] {
      LatestPrefix(rs, |rs|, i);
    }
    forall t | t in TOOLS ensures t in Latest(rs) {
      var i :| 0 <= i < |TOOLS| && TOOLS[i] == t;
    }
  }

  lemma InitiallySound(decisions: map<ToolName, Decision>, calls: Calls)
    requires AllTools(decisions)
    ensures Sound(Initially(decisions, calls))
  {
    forall i | 0 <= i < |TOOLS| ensures Initially(decisions, calls).results[i].tool == TOOLS[i] {
      ExecuteOneTool(TOOLS[i], decisions[TOOLS[i]], 0, calls(TOOLS[i]));
    }
  }

  lemma {:induction false} NotSkippedIsFilter(rs: seq<ToolResult>)
    ensures NotSkipped(rs) == Filter(rs, (r: ToolResult) => r.status != Skipped)
  {
    if rs != [] {
      var init, last := rs[..|rs| - 1], rs[|rs| - 1];
      NotSkippedIsFilter(init);
      FilterSnoc(init, last, (r: ToolResult) => r.status != Skipped);
      assert rs == init + [last];
    }
  }

  /** The first execution: each tool once, in the order of ToolName, and the selected ones as the history. */
  lemma InitialState(decisions: map<ToolName, Decision>, calls: Calls)
    requires AllTools(decisions)
    ensures var state := Initially(decisions, calls);
      && state.decisions == decisions && |state.results| == |TOOLS|
      && (forall i :: 0 <= i < |TOOLS| ==>
            state.results[i] == ExecuteOne(TOOLS[i], decisions[TOOLS[i]], 0, calls(TOOLS[i])))
      && state.history == Filter(state.results, (r: ToolResult) => r.selected)
  {
    var rs := Initially(decisions, calls).results;
    forall r | r in rs ensures r.status != Skipped <==> r.selected {
      var i :| 0 <= i < |TOOLS| && rs[i] == r;
      ExecutionRecorded(TOOLS[i], decisions[TOOLS[i]], 0, calls(TOOLS[i]));
    }
    NotSkippedIsFilter(rs);
    FilterSame(rs, (r: ToolResult) => r.status != Skipped, (r: ToolResult) => r.selected);
  }

  /** The attempt a round makes at a tool it requests. */
  function AttemptAt(t: ToolName, request: RetryRequest, calls: Calls): Attempt {
    Attempt(ExecuteOne(t, Decision(true, RetryReason(request.round)), request.round, calls(t)),
            Challenged(request.verification.issues))
  }

  /** A round keeps one result a tool in order, leaves unrequested tools alone, and merges the requested ones. */
  lemma RoundKeepsSound(state: SelectionResult, request: RetryRequest, calls: Calls)
    requires Sound(state)
    ensures Covered(state.results) && Sound(Retried(state, request, calls))
    ensures forall i :: 0 <= i < |TOOLS| ==>
      Retried(state, request, calls).results[i] ==
        if TOOLS[i] in request.requested then After(state.results[i], AttemptAt(TOOLS[i], request, calls))
        else state.results[i]
  {
    LatestInOrder(state.results);
    forall i | 0 <= i < |TOOLS|
      ensures var r := Retried(state, request, calls).results[i];
        r.tool == TOOLS[i]
        && r == if TOOLS[i] in request.requested then After(state.results[i], AttemptAt(TOOLS[i], request, calls))
                else state.results[i]
    {
      ExecuteOneTool(TOOLS[i], Decision(true, RetryReason(request.round)), request.round, calls(TOOLS[i]));
    }
  }

  datatype RetryRound = RetryRound(request: RetryRequest, calls: Calls)

  function AfterRounds(state: SelectionResult, rounds: seq<RetryRound>): (after: SelectionResult)
    requires Sound(state)
    ensures Sound(after)
  {
    if rounds == [] then state
    else
      var before := AfterRounds(state, rounds[..|rounds| - 1]);
      var last := rounds[|rounds| - 1];
      RoundKeepsSound(before, last.request, last.calls);
      Retried(before, last.request, last.calls)
  }

  /** The attempts at a tool in the rounds that request it. */
  function AttemptsAt(t: ToolName, rounds: seq<RetryRound>): seq<Attempt> {
    if rounds == [] then []
    else
      var before, last := AttemptsAt(t, rounds[..|rounds| - 1]), rounds[|rounds| - 1];
      if t in last.request.requested then before + [AttemptAt(t, last.request, last.calls)] else before
  }

  lemma MergedMore(first: ToolResult, attempts: seq<Attempt>, a: Attempt)
    ensures Merged(first, attempts + [a]) == After(Merged(first, attempts), a)
  {
    assert (attempts + [a])[..|attempts|] == attempts;
  }

  lemma OneMoreRound(before: SelectionResult, last: RetryRound, i: nat, first: ToolResult, attempts: seq<Attempt>)
    requires Sound(before) && i < |TOOLS| && before.results[i] == Merged(first, attempts)
    ensures Covered(before.results) && Retried(before, last.request, last.calls).results[i] ==
      Merged(first, if TOOLS[i] in last.request.requested
                    then attempts + [AttemptAt(TOOLS[i], last.request, last.calls)] else attempts)
  {
    RoundKeepsSound(before, last.request, last.calls);
    MergedMore(first, attempts, AttemptAt(TOOLS[i], last.request, last.calls));
  }

  /** Each result is the merge of the tool's own attempts, whatever the rounds asked of other tools. */
  lemma {:induction false} ResultsAreMerged(state: SelectionResult, rounds: seq<RetryRound>, i: nat)
    requires Sound(state) && i < |TOOLS|
    ensures AfterRounds(state, rounds).results[i] == Merged(state.results[i], AttemptsAt(TOOLS[i], rounds))
  {
    if rounds != [] {
      var n := |rounds| - 1;
      ResultsAreMerged(state, rounds[..n], i);
      OneMoreRound(AfterRounds(state, rounds[..n]), rounds[n], i, state.results[i], AttemptsAt(TOOLS[i], rounds[..n]));
    }
  }

  /** What a round executes: every requested tool once, in the order of ToolName. */
  function RunsIn(round: RetryRound): seq<ToolResult> {
    var tools := Filter(TOOLS, t => t in round.request.requested);
    seq(|tools|, i requires 0 <= i < |tools| => AttemptAt(tools[i], round.request, round.calls).result)
  }

  function RunsOf(rounds: seq<RetryRound>): seq<ToolResult> {
    if rounds == [] then [] else RunsOf(rounds[..|rounds| - 1]) + RunsIn(rounds[|rounds| - 1])
  }

  lemma {:induction false} RequestedIsFilter(tools: seq<ToolName>, names: seq<ToolName>)
    ensures Requested(tools, names) == Filter(tools, t => t in names)
  {
    if tools != [] {
      var init, last := tools[..|tools| - 1], tools[|tools| - 1];
      RequestedIsFilter(init, names);
      FilterSnoc(init, last, t => t in names);
      assert tools == init + [last];
    }
  }

  lemma RoundHistory(before: SelectionResult, last: RetryRound)
    requires Sound(before)
    ensures Covered(before.results)
    ensures Retried(before, last.request, last.calls).history == before.history + RunsIn(last)
  {
    hide ExecuteOne, RetryReason, Filter;
    RoundKeepsSound(before, last.request, last.calls);
    RequestedExactly(TOOLS, last.request.requested);
    RequestedIsFilter(TOOLS, last.request.requested);
    var tools := Requested(TOOLS, last.request.requested);
    var decisions := RetryDecisions(before.decisions, last.request.requested, last.request.round);
    assert Executed(tools, decisions, last.request.round, last.calls) == RunsIn(last);
  }

  /** The history only grows: after all rounds it is the old history followed by what the rounds executed. */
  lemma {:induction false} HistoryGrows(state: SelectionResult, rounds: seq<RetryRound>)
    requires Sound(state)
    ensures AfterRounds(state, rounds).history == state.history + RunsOf(rounds)
  {
    hide RunsIn, Retried;
    if rounds != [] {
      var n := |rounds| - 1;
      HistoryGrows(state, rounds[..n]);
      RoundHistory(AfterRounds(state, rounds[..n]), rounds[n]);
    }
  }

  /** The last round that requests the tool. */
  function LastRequest(rounds: seq<RetryRound>, t: ToolName): Option<nat> {
    if rounds == [] then None
    else if t in rounds[|rounds| - 1].request.requested then Some(rounds[|rounds| - 1].request.round)
    else LastRequest(rounds[..|rounds| - 1], t)
  }

  /** A tool that was requested is selected by the retry that requested it last; any other decision stays. */
  lemma {:induction false} DecisionsAfterRounds(state: SelectionResult, rounds: seq<RetryRound>, t: ToolName)
    requires Sound(state)
    ensures var last := LastRequest(rounds, t);
      && t in state.decisions && t in AfterRounds(state, rounds).decisions
      && AfterRounds(state, rounds).decisions[t] ==
         if last.None? then state.decisions[t]
         else Decision(true, "Verification Agent가 " + Decimal(last.value) + "회차 추가 검토를 요청했습니다.")
  {
    hide ExecuteOne, RetriedResult, Executed;
    AllToolsListed(t);
    if rounds != [] {
      var n := |rounds| - 1;
      DecisionsAfterRounds(state, rounds[..n], t);
      RoundKeepsSound(AfterRounds(state, rounds[..n]), rounds[n].request, rounds[n].calls);
    }
  }

  predicate RoundsWithin(rs: seq<ToolResult>, round: nat) {
    forall i :: 0 <= i < |rs| ==> rs[i].execution.round <= round
  }

  /** No latest result is of a later round than the request. */
  lemma RoundBounds(state: SelectionResult, request: RetryRequest, calls: Calls)
    requires Sound(state) && RoundsWithin(state.results, request.round)
    ensures Covered(state.results) && RoundsWithin(Retried(state, request, calls).results, request.round)
  {
    LatestInOrder(state.results);
    forall i | 0 <= i < |TOOLS| ensures Retried(state, request, calls).results[i].execution.round <= request.round {
      ExecuteOneTool(TOOLS[i], Decision(true, RetryReason(request.round)), request.round, calls(TOOLS[i]));
    }
  }

  // ---------- which findings survive ----------

  /** A critical tool failure or missing evidence is reported against the finding. */
  predicate ChallengedBy(issues: seq<Issue>, id: string) {
    exists j :: 0 <= j < |issues| && issues[j].severity == "critical"
      && (issues[j].kind == ToolFailure || issues[j].kind == MissingEvidence) && id in issues[j].related
  }

  predicate ChallengedIn(rounds: seq<RetryRound>, t: ToolName, id: string) {
    exists k :: 0 <= k < |rounds| && t in rounds[k].request.requested
      && ChallengedBy(rounds[k].request.verification.issues, id)
  }

  /** Every re-execution of the tool failed. */
  predicate FailedEachTime(rounds: seq<RetryRound>, t: ToolName) {
    forall k :: 0 <= k < |rounds| && t in rounds[k].request.requested ==>
      AttemptAt(t, rounds[k].request, rounds[k].calls).result.status == Failed
  }

  /** No re-execution of the tool listed a finding. */
  predicate ListedNothing(rounds: seq<RetryRound>, t: ToolName) {
    forall k :: 0 <= k < |rounds| && t in rounds[k].request.requested ==>
      AttemptAt(t, rounds[k].request, rounds[k].calls).result.findings == []
  }

  /** The finding was there and no round that ran the tool challenged it. */
  predicate Stays(before: ToolResult, rounds: seq<RetryRound>, f: Finding) {
    f in before.findings && !ChallengedIn(rounds, before.tool, f.id)
  }

  predicate SomeStays(before: ToolResult, rounds: seq<RetryRound>) {
    exists f :: f in before.findings && Stays(before, rounds, f)
  }

  /** A challenged finding requires the action and no finding that stays does. */
  predicate OnlyChallengedNeed(before: ToolResult, rounds: seq<RetryRound>, action: string) {
    && (exists f :: f in before.findings && !Stays(before, rounds, f) && action in f.requirements)
    && (forall f :: f in before.findings && Stays(before, rounds, f) ==> action !in f.requirements)
  }

  lemma ChallengedExactly(issues: seq<Issue>, id: string)
    ensures id in Challenged(issues) <==> ChallengedBy(issues, id)
  {
    if ChallengedBy(issues, id) {
      var j :| 0 <= j < |issues| && Invalidates(issues[j]) && id in issues[j].related;
      var k :| 0 <= k < |issues[j].related| && issues[j].related[k] == id;
    }
  }

  lemma {:induction false} ChallengedAcross(rounds: seq<RetryRound>, t: ToolName, id: string)
    ensures id in AllIds(AttemptsAt(t, rounds)) <==> ChallengedIn(rounds, t, id)
  {
    hide ChallengedBy, AttemptAt, Challenged;
    if rounds != [] {
      var n := |rounds| - 1;
      var before, last := rounds[..n], rounds[n];
      ChallengedAcross(before, t, id);
      ChallengedExactly(last.request.verification.issues, id);
      AttemptIds(t, last);
      var a := AttemptAt(t, last.request, last.calls);
      assert (AttemptsAt(t, before) + [a])[..|AttemptsAt(t, before)|] == AttemptsAt(t, before);
      if k :| 0 <= k < n && t in before[k].request.requested && ChallengedBy(before[k].request.verification.issues, id) {
        assert rounds[k] == before[k];
      }
    }
  }

  lemma AttemptIds(t: ToolName, round: RetryRound)
    ensures AttemptAt(t, round.request, round.calls).ids == Challenged(round.request.verification.issues)
  {
  }

  lemma {:induction false} FailedAttempts(rounds: seq<RetryRound>, t: ToolName)
    requires FailedEachTime(rounds, t)
    ensures AllFailed(AttemptsAt(t, rounds))
    ensures ListedNothing(rounds, t) ==>
      forall i :: 0 <= i < |AttemptsAt(t, rounds)| ==> AttemptsAt(t, rounds)[i].result.findings == []
  {
    hide AttemptAt;
    if rounds != [] {
      var init := rounds[..|rounds| - 1];
      assert forall k :: 0 <= k < |init| ==> init[k] == rounds[k];
      FailedAttempts(init, t);
    }
  }

  /** The findings no round challenged are those of the merged challenges. */
  lemma StaysExactly(before: ToolResult, rounds: seq<RetryRound>)
    ensures var left := Unchallenged(before.findings, AllIds(AttemptsAt(before.tool, rounds)));
      left == Filter(before.findings, f => Stays(before, rounds, f)) && (left != [] <==> SomeStays(before, rounds))
  {
    hide ChallengedIn;
    var ids := AllIds(AttemptsAt(before.tool, rounds));
    UnchallengedExactly(before.findings, ids);
    UnchallengedIsFilter(before.findings, ids);
    forall f: Finding ensures f.id in ids <==> ChallengedIn(rounds, before.tool, f.id) {
      ChallengedAcross(rounds, before.tool, f.id);
    }
    FilterSame(before.findings, (f: Finding) => f.id !in ids, (f: Finding) => Stays(before, rounds, f));
    var left := Unchallenged(before.findings, ids);
    if left != [] {
      assert left[0] in left;
    }
  }

  /** When nothing stays and failures list nothing, the last failure is left as it is. */
  lemma NothingLeft(first: ToolResult, attempts: seq<Attempt>)
    requires attempts != [] && AllFailed(attempts)
    requires forall i :: 0 <= i < |attempts| ==> attempts[i].result.findings == []
    requires Unchallenged(first.findings, AllIds(attempts)) == []
    ensures Merged(first, attempts) == attempts[|attempts| - 1].result
  {
    var n := |attempts| - 1;
    FindingsOnlyShrink(first, attempts[..n]);
    UnchallengedTwice(first.findings, AllIds(attempts[..n]), attempts[n].ids);
  }

  lemma NothingDropped(before: ToolResult, rounds: seq<RetryRound>)
    requires AttemptsAt(before.tool, rounds) == []
    ensures before.actions == Filter(before.actions, a => !OnlyChallengedNeed(before, rounds, a))
  {
    hide ChallengedIn;
    forall f: Finding ensures !ChallengedIn(rounds, before.tool, f.id) {
      ChallengedAcross(rounds, before.tool, f.id);
    }
    var none: set<string> := {};
    WithoutIsFilter(before.actions, none);
    WithoutNothing(before.actions);
    FilterSame(before.actions, (a: string) => a !in none, (a: string) => !OnlyChallengedNeed(before, rounds, a));
  }

  lemma {:induction false} WithoutNothing(actions: seq<string>)
    ensures WithoutActions(actions, {}) == actions
  {
    if actions != [] {
      WithoutNothing(actions[1..]);
    }
  }

  /** What the challenges drop is what only challenged findings require. */
  lemma DroppedExactly(before: ToolResult, rounds: seq<RetryRound>, action: string)
    ensures action in OnlyRemoved(before.findings, AllIds(AttemptsAt(before.tool, rounds)))
       <==> OnlyChallengedNeed(before, rounds, action)
  {
    hide ChallengedIn;
    var ids := AllIds(AttemptsAt(before.tool, rounds));
    UnchallengedExactly(before.findings, ids);
    forall f: Finding ensures f.id in ids <==> ChallengedIn(rounds, before.tool, f.id) {
      ChallengedAcross(rounds, before.tool, f.id);
    }
    assert action in Requirements(Unchallenged(before.findings, ids)) <==>
           exists f :: f in before.findings && f.id !in ids && action in f.requirements;
  }

  lemma ActionsOfStreak(before: ToolResult, rounds: seq<RetryRound>)
    requires FailedEachTime(rounds, before.tool) && SomeStays(before, rounds)
    ensures Merged(before, AttemptsAt(before.tool, rounds)).actions ==
            Filter(before.actions, a => !OnlyChallengedNeed(before, rounds, a))
  {
    hide FailedEachTime, SomeStays, Stays, AllFailed, OnlyRemoved, OnlyChallengedNeed;
    var attempts := AttemptsAt(before.tool, rounds);
    FailedAttempts(rounds, before.tool);
    StaysExactly(before, rounds);
    if attempts == [] {
      NothingDropped(before, rounds);
    } else {
      StreakMergesOnce(before, attempts);
      var dropped := OnlyRemoved(before.findings, AllIds(attempts));
      WithoutIsFilter(before.actions, dropped);
      forall a ensures a in dropped <==> OnlyChallengedNeed(before, rounds, a) {
        DroppedExactly(before, rounds, a);
      }
      FilterSame(before.actions, (a: string) => a !in dropped, (a: string) => !OnlyChallengedNeed(before, rounds, a));
    }
  }

  /** A failure that is carried on: the last execution as it is, Partial, around what the earlier result holds. */
  ghost predicate CarriesOn(before: ToolResult, last: ToolResult, after: ToolResult) {
    && after.tool == last.tool && after.selected == last.selected && after.status == Partial
    && after.error == last.error && after.execution.id == last.execution.id && after.execution.round == last.execution.round
    && after.execution.reason == last.execution.reason && after.execution.at == last.execution.at
    && after.execution.query == before.execution.query && after.execution.raw == before.execution.raw
    && after.result == before.result && after.missing == before.missing
  }

  /**
   Any rounds in which a tool fails each time it runs leave its result, provided that some finding stays or the failures
   list nothing, with exactly the findings no round challenged, in their order. If some finding stays, exactly the actions
   go that a challenged finding requires and no staying one does, and the last failure carries on with the earlier result,
   missing information, query and raw response. If none stays, the last failure is the result.
   */
  lemma FailuresKeepExactly(state: SelectionResult, rounds: seq<RetryRound>, i: nat)
    requires Sound(state) && i < |TOOLS| && FailedEachTime(rounds, TOOLS[i])
    requires SomeStays(state.results[i], rounds) || ListedNothing(rounds, TOOLS[i])
    ensures var before, after := state.results[i], AfterRounds(state, rounds).results[i];
      var attempts := AttemptsAt(TOOLS[i], rounds);
      && after.findings == Filter(before.findings, f => Stays(before, rounds, f))
      && (SomeStays(before, rounds) ==>
            after.actions == Filter(before.actions, a => !OnlyChallengedNeed(before, rounds, a)))
      && (attempts == [] ==> after == before)
      && (attempts != [] ==>
            if SomeStays(before, rounds) then CarriesOn(before, attempts[|attempts| - 1].result, after)
            else after == attempts[|attempts| - 1].result)
  {
    hide FailedEachTime, ListedNothing, AfterRounds, Stays, SomeStays, OnlyChallengedNeed, AllFailed, OnlyRemoved;
    var before, attempts := state.results[i], AttemptsAt(TOOLS[i], rounds);
    ResultsAreMerged(state, rounds, i);
    FailedAttempts(rounds, TOOLS[i]);
    StaysExactly(before, rounds);
    if ListedNothing(rounds, TOOLS[i]) {
      FindingsOnlyShrink(before, attempts);
    } else if attempts == [] {
      UnchallengedNothing(before.findings);
    }
    if SomeStays(before, rounds) {
      ActionsOfStreak(before, rounds);
      if attempts != [] {
        StreakMergesOnce(before, attempts);
      }
    } else if attempts != [] {
      NothingLeft(before, attempts);
    }
  }

  /** A tool whose last execution did not fail has that execution as its result, whatever came before. */
  lemma {:induction false} LastSuccessReplaces(state: SelectionResult, rounds: seq<RetryRound>, i: nat)
    requires Sound(state) && i < |TOOLS|
    ensures var attempts := AttemptsAt(TOOLS[i], rounds);
      attempts != [] && attempts[|attempts| - 1].result.status != Failed ==>
        AfterRounds(state, rounds).results[i] == attempts[|attempts| - 1].result
  {
    ResultsAreMerged(state, rounds, i);
  }

  // ---------- a challenged finding that comes back ----------

  const FINDING: Finding := Finding("f", [], map[])

  /** A result that lists the finding. */
  function Listing(t: ToolName, status: ToolStatus): ToolResult {
    ToolResult(t, status, true, Execution(None, 0, "", Json.Null, Json.Null, 0), None, [FINDING], [], [], None)
  }

  /** The state of six tools that list the finding. */
  function AllListing(): (state: SelectionResult)
    ensures Sound(state)
  {
    SelectionResult(map t | t in TOOLS :: Decision(true, ""),
                    seq(|TOOLS|, i requires 0 <= i < |TOOLS| => Listing(TOOLS[i], Success)), [])
  }

  /** A round that asks one tool again because of a critical tool failure against the finding; the tool reports its
      failure together with the finding. */
  function FailingRound(state: SelectionResult): RetryRound {
    var issue := Issue("i", "critical", ToolFailure, "", ["f"], None);
    RetryRound(RetryRequest(1, [Radio], Verification.Verification(ToolsRequired, None, [issue], [Radio], [], [], 0), state.results),
               t => Call(Returned(Listing(t, Failed)), "x", 0))
  }

  lemma OneRound(state: SelectionResult, round: RetryRound, i: nat)
    requires Sound(state) && i < |TOOLS| && TOOLS[i] in round.request.requested
    ensures AfterRounds(state, [round]).results[i]
         == After(state.results[i], AttemptAt(TOOLS[i], round.request, round.calls))
  {
    hide AttemptAt;
    assert [round][..0] == [] && AfterRounds(state, []) == state;
    RoundKeepsSound(state, round.request, round.calls);
  }

  lemma RadioAttempt(state: SelectionResult)
    ensures var round := FailingRound(state); var a := AttemptAt(Radio, round.request, round.calls);
      && a.result.status == Failed && a.result.findings == [FINDING]
      && Radio in round.request.requested && ChallengedBy(round.request.verification.issues, FINDING.id)
      && FINDING.id in a.ids
  {
    hide RetryReason;
    var round := FailingRound(state);
    var issues := round.request.verification.issues;
    assert "f" in issues[0].related && ChallengedBy(issues, "f");
    ChallengedExactly(issues, "f");
  }

  /** An input for which a challenged finding comes back. */
  lemma ChallengedFindingReturns()
    ensures var state, rounds := AllListing(), [FailingRound(AllListing())];
      && TOOLS[1] == Radio && FailedEachTime(rounds, Radio) && ChallengedIn(rounds, Radio, FINDING.id)
      && rounds[0].request.latest == state.results
      && FINDING in AfterRounds(state, rounds).results[1].findings
  {
    hide AttemptAt, AfterRounds, ChallengedBy;
    var state := AllListing();
    var round := FailingRound(state);
    RadioAttempt(state);
    assert [round][0] == round && ChallengedBy([round][0].request.verification.issues, FINDING.id);
    OneRound(state, round, 1);
    assert [FINDING][1..] == [];
    assert Unchallenged([FINDING], AttemptAt(Radio, round.request, round.calls).ids) == [];
  }

  /** The tool returned a result of its own for an execution. */
  predicate OwnResult(tool: ToolName, outcome: Outcome) {
    outcome.Returned? && outcome.result.tool == tool && outcome.result.selected && outcome.result.status != Skipped
  }

  /** The tool raised, reported a failure, or returned a result that is not its own or not of an execution. */
  predicate Unfit(tool: ToolName, outcome: Outcome) {
    match outcome
    case Raised(_) => true
    case Returned(r) => r.tool != tool || !r.selected || r.status == Skipped || r.status == Failed
  }

  /** What an execution records. It carries the round, the reason, the time and the id it is given. A tool that is not
      selected is skipped; one that raises or returns a result that is not its own fails with nothing but the error;
      any other result is the tool's own. */
  lemma ExecutionRecorded(tool: ToolName, decision: Decision, round: nat, call: Call)
    ensures var r := ExecuteOne(tool, decision, round, call);
      && r.tool == tool && r.execution.round == round && r.execution.reason == decision.reason && r.execution.at == call.at
      && r.selected == decision.selected && r.execution.id == (if decision.selected then Some(call.id) else None)
      && (r.status == Skipped <==> !decision.selected)
      && (r.status == Failed <==> decision.selected && Unfit(tool, call.outcome))
      && (decision.selected && OwnResult(tool, call.outcome) ==>
            var x := call.outcome.result;
            r == x.(execution := r.execution)
            && r.execution.query == x.execution.query && r.execution.raw == x.execution.raw)
      && (!decision.selected || !OwnResult(tool, call.outcome) ==>
            && r.result == None && r.findings == [] && r.actions == [] && r.missing == []
            && r.execution.query == Json.Obj(map[]) && r.execution.raw == Json.Null
            && (!decision.selected ==> r.error == None)
            && (decision.selected && call.outcome.Raised? ==>
                  r.error == Some(call.outcome.error + ": Tool 실행에 실패했습니다."))
            && (decision.selected && call.outcome.Returned? ==> r.error == Some("ValueError: Tool 실행에 실패했습니다.")))
  {
    match call.outcome
    case Raised(_) =>
    case Returned(x) =>
      assert x.status == Skipped || x.status == Failed || x.status == Success || x.status == Partial;
      assert "ValueError" + ": Tool 실행에 실패했습니다." == "ValueError: Tool 실행에 실패했습니다.";
  }
}
