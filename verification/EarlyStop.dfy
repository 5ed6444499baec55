/** The no-progress test (ai/app/pipeline/early_stop.py). */
module EarlyStop {
  import opened Common
  import opened Domain
  import opened Json
  import opened Canonical
  import opened Schemas

  // ---------- what is compared ----------

  function Text(s: Option<string>): Json {
    match s
    case None => Null
    case Some(t) => Str(t)
  }

  function Texts(xs: seq<string>): Json {
    Arr(seq(|xs|, i requires 0 <= i < |xs| => Str(xs[i])))
  }

  function ToolTexts(ts: seq<ToolName>): Json {
    Arr(seq(|ts|, i requires 0 <= i < |ts| => Str(ToolText(ts[i]))))
  }

  function Detail(result: Option<FieldValues>): Json {
    match result
    case None => Null
    case Some(fields) => Obj(fields)
  }

  /** A finding without its id. */
  function Content(f: Finding): Json {
    Obj(f.others["requirements" := Texts(f.requirements)])
  }

  function Contents(fs: seq<Finding>): seq<Json> {
    seq(|fs|, i requires 0 <= i < |fs| => Content(fs[i]))
  }

  /** A result without what the executor attached to it. */
  function ToolData(r: ToolResult): Json {
    Obj(map[
      "tool_name" := Str(ToolText(r.tool)),
      "status" := Str(StatusText(r.status)),
      "selected" := Bool(r.selected),
      "result" := Detail(r.result),
      "findings" := Arr(Contents(r.findings)),
      "required_actions" := Texts(r.actions),
      "missing_information" := Texts(r.missing),
      "error" := Text(r.error)])
  }

  function IssueData(issue: Issue, related: seq<string>): Json {
    Obj(map[
      "severity" := Str(issue.severity),
      "issue_type" := Str(IssueText(issue.kind)),
      "description" := Str(issue.description),
      "recommended_action" := Text(issue.recommended),
      "related_findings" := Texts(related)])
  }

  function QuestionData(q: FollowUp): Json {
    Obj(map[
      "question" := Str(q.question),
      "reason" := Str(q.reason),
      "related_tools" := ToolTexts(q.tools),
      "required" := Bool(q.required)])
  }

  function QuestionsData(qs: seq<FollowUp>): seq<Json> {
    seq(|qs|, i requires 0 <= i < |qs| => QuestionData(qs[i]))
  }

  function VerificationData(v: Verification, issues: seq<Json>, checked: seq<string>): Json {
    Obj(map[
      "status" := Str(VerdictText(v.status)),
      "review_summary" := Text(v.summary),
      "additional_tools_required" := ToolTexts(v.additional),
      "issues" := Arr(issues),
      "checked_findings" := Texts(checked),
      "follow_up_questions" := Arr(QuestionsData(v.questions))])
  }

  function Document(tools: seq<Json>, verification: Json): Json {
    Obj(map["tools" := Arr(tools), "verification" := verification])
  }

  // ---------- the snapshot ----------

  /** An entry of `finding_keys`: a finding's id and the canonical text of its content. */
  datatype Entry = Entry(id: string, text: string)

  function EntryOf(f: Finding): Entry {
    Entry(f.id, CanonicalText(Content(f)))
  }

  function Entries(fs: seq<Finding>): seq<Entry> {
    seq(|fs|, i requires 0 <= i < |fs| => EntryOf(fs[i]))
  }

  function AllEntries(rs: seq<ToolResult>): seq<Entry> {
    if rs == [] then [] else AllEntries(rs[..|rs| - 1]) + Entries(rs[|rs| - 1].findings)
  }

  ghost predicate DistinctIds(es: seq<Entry>) {
    forall i, j :: 0 <= i < j < |es| ==> es[i].id != es[j].id
  }

  ghost predicate Known(es: seq<Entry>, id: string) {
    exists i :: 0 <= i < |es| && es[i].id == id
  }

  ghost predicate AllKnown(es: seq<Entry>, ids: seq<string>) {
    forall i :: 0 <= i < |ids| ==> Known(es, ids[i])
  }

  /** The text an id stands for. */
  ghost function Key(es: seq<Entry>, id: string): string
    requires Known(es, id)
  {
    var i :| 0 <= i < |es| && es[i].id == id;
    es[i].text
  }

  ghost function Keys(es: seq<Entry>, ids: seq<string>): seq<string>
    requires AllKnown(es, ids)
  {
    seq(|ids|, i requires 0 <= i < |ids| => Key(es, ids[i]))
  }

  ghost predicate AllRelatedKnown(es: seq<Entry>, issues: seq<Issue>) {
    forall i :: 0 <= i < |issues| ==> AllKnown(es, issues[i].related)
  }

  ghost predicate Comparable(es: seq<Entry>, v: Verification) {
    DistinctIds(es) && AllKnown(es, v.checked) && AllRelatedKnown(es, v.issues)
  }

  function ToolsData(rs: seq<ToolResult>): seq<Json> {
    seq(|rs|, i requires 0 <= i < |rs| => ToolData(rs[i]))
  }

  ghost function IssuesData(es: seq<Entry>, issues: seq<Issue>): seq<Json>
    requires AllRelatedKnown(es, issues)
  {
    seq(|issues|, i requires 0 <= i < |issues| => IssueData(issues[i], Keys(es, issues[i].related)))
  }

  /** The content of a state: every id replaced by what it stands for. */
  ghost function StateDocument(rs: seq<ToolResult>, v: Verification): Json
    requires Comparable(AllEntries(rs), v)
  {
    var es := AllEntries(rs);
    Document(ToolsData(rs), VerificationData(v, IssuesData(es, v.issues), Keys(es, v.checked)))
  }

  ghost function Snapshot(rs: seq<ToolResult>, v: Verification): Option<string> {
    if Comparable(AllEntries(rs), v) then Some(CanonicalText(StateDocument(rs, v))) else None
  }

  // ---------- computing the snapshot ----------

  /** What `finding_keys` holds after some entries. */
  ghost predicate KeysOf(keys: map<string, string>, es: seq<Entry>) {
    && DistinctIds(es)
    && (forall i :: 0 <= i < |es| ==> es[i].id in keys && keys[es[i].id] == es[i].text)
    && forall id :: id in keys ==> Known(es, id)
  }

  lemma KeyFound(keys: map<string, string>, es: seq<Entry>, id: string)
    requires KeysOf(keys, es)
    ensures id in keys <==> Known(es, id)
    ensures id in keys ==> keys[id] == Key(es, id)
  {
  }

  lemma KnownMore(es: seq<Entry>, e: Entry, id: string)
    requires id == e.id || Known(es, id)
    ensures Known(es + [e], id)
  {
    var i := if id == e.id then |es| else var i :| 0 <= i < |es| && es[i].id == id; i;
    assert (es + [e])[i].id == id;
  }

  lemma KeysExtend(keys: map<string, string>, es: seq<Entry>, e: Entry)
    requires KeysOf(keys, es) && e.id !in keys
    ensures KeysOf(keys[e.id := e.text], es + [e])
  {
    forall id | id in keys[e.id := e.text] ensures Known(es + [e], id) {
      KnownMore(es, e, id);
    }
  }

  lemma DuplicateId(keys: map<string, string>, es: seq<Entry>, e: Entry, rest: seq<Entry>)
    requires KeysOf(keys, es) && e.id in keys
    ensures !DistinctIds(es + [e] + rest)
  {
    var i :| 0 <= i < |es| && es[i].id == e.id;
    var all := es + [e] + rest;
    assert all[i].id == all[|es|].id;
  }

  lemma Resolved(keys: map<string, string>, es: seq<Entry>, ids: seq<string>, texts: seq<string>)
    requires KeysOf(keys, es) && |texts| == |ids|
    requires forall i :: 0 <= i < |ids| ==> ids[i] in keys && texts[i] == keys[ids[i]]
    ensures AllKnown(es, ids) && texts == Keys(es, ids)
  {
    forall i | 0 <= i < |ids| ensures Known(es, ids[i]) && texts[i] == Key(es, ids[i]) {
      KeyFound(keys, es, ids[i]);
    }
  }

  /** `resolve`: None when an id is unknown. */
  method Resolve(keys: map<string, string>, ids: seq<string>, ghost es: seq<Entry>) returns (texts: Option<seq<string>>)
    requires KeysOf(keys, es)
    ensures texts == if AllKnown(es, ids) then Some(Keys(es, ids)) else None
  {
    var found: seq<string> := [];
    for i := 0 to |ids|
      invariant |found| == i
      invariant forall j :: 0 <= j < i ==> ids[j] in keys && found[j] == keys[ids[j]]
    {
      if ids[i] !in keys {
        KeyFound(keys, es, ids[i]);
        return None;
      }
      found := found + [keys[ids[i]]];
    }
    Resolved(keys, es, ids, found);
    return Some(found);
  }

  lemma AllEntriesSplit(rs: seq<ToolResult>, i: nat) returns (rest: seq<Entry>)
    requires i < |rs|
    ensures AllEntries(rs) == AllEntries(rs[..i]) + Entries(rs[i].findings) + rest
  {
    if i == |rs| - 1 {
      rest := [];
    } else {
      var before := AllEntriesSplit(rs[..|rs| - 1], i);
      assert rs[..|rs| - 1][..i] == rs[..i];
      rest := before + Entries(rs[|rs| - 1].findings);
    }
  }

  /** Enters the findings of one result; None when an id is already there. */
  method EnterFindings(keys: map<string, string>, own: seq<Finding>, ghost before: seq<Entry>)
    returns (all: Option<map<string, string>>)
    requires KeysOf(keys, before)
    ensures all.Some? ==> KeysOf(all.value, before + Entries(own))
    ensures all.None? ==> !DistinctIds(before + Entries(own))
  {
    var now := keys;
    ghost var es := Entries(own);
    assert before + es[..0] == before;
    for k := 0 to |own|
      invariant KeysOf(now, before + es[..k])
    {
      var e := EntryOf(own[k]);
      Snoc(before, es, k);
      if e.id in now {
        DuplicateId(now, before + es[..k], e, es[k + 1..]);
        return None;
      }
      KeysExtend(now, before + es[..k], e);
      now := now[e.id := e.text];
    }
    assert es[..|own|] == es;
    return Some(now);
  }

  lemma NotComparable(rs: seq<ToolResult>, i: nat)
    requires i < |rs| && !DistinctIds(AllEntries(rs[..i]) + Entries(rs[i].findings))
    ensures !DistinctIds(AllEntries(rs))
  {
    var rest := AllEntriesSplit(rs, i);
    var part := AllEntries(rs[..i]) + Entries(rs[i].findings);
    var j, k :| 0 <= j < k < |part| && part[j].id == part[k].id;
    assert AllEntries(rs)[j].id == AllEntries(rs)[k].id;
  }

  method ResolveIssues(keys: map<string, string>, issues: seq<Issue>, ghost es: seq<Entry>)
    returns (data: Option<seq<Json>>)
    requires KeysOf(keys, es)
    ensures data == if AllRelatedKnown(es, issues) then Some(IssuesData(es, issues)) else None
  {
    var done: seq<Json> := [];
    for i := 0 to |issues|
      invariant |done| == i
      invariant forall j :: 0 <= j < i ==>
        AllKnown(es, issues[j].related) && done[j] == IssueData(issues[j], Keys(es, issues[j].related))
    {
      var related := Resolve(keys, issues[i].related, es);
      if related == None {
        return None;
      }
      done := done + [IssueData(issues[i], related.value)];
    }
    assert done == IssuesData(es, issues);
    return Some(done);
  }

  /** The first loop of `_snapshot`: None when an id occurs twice. */
  method EnterResults(rs: seq<ToolResult>) returns (keys: Option<map<string, string>>, tools: seq<Json>)
    ensures keys.None? <==> !DistinctIds(AllEntries(rs))
    ensures keys.Some? ==> KeysOf(keys.value, AllEntries(rs)) && tools == ToolsData(rs)
  {
    hide ToolData, EntryOf;
    var now: map<string, string> := map[];
    tools := [];
    for i := 0 to |rs|
      invariant |tools| == i && forall j :: 0 <= j < i ==> tools[j] == ToolData(rs[j])
      invariant KeysOf(now, AllEntries(rs[..i]))
    {
      var all := EnterFindings(now, rs[i].findings, AllEntries(rs[..i]));
      if all == None {
        NotComparable(rs, i);
        return None, tools;
      }
      now := all.value;
      tools := tools + [ToolData(rs[i])];
      assert rs[..i + 1][..i] == rs[..i];
    }
    assert rs[..|rs|] == rs;
    keys := Some(now);
  }

  method TakeSnapshot(rs: seq<ToolResult>, v: Verification) returns (text: Option<string>)
    ensures text == Snapshot(rs, v)
  {
    ghost var es := AllEntries(rs);
    var keys, tools := EnterResults(rs);
    if keys == None {
      return None;
    }
    var checked := Resolve(keys.value, v.checked, es);
    if checked == None {
      return None;
    }
    var issues := ResolveIssues(keys.value, v.issues, es);
    if issues == None {
      return None;
    }
    text := Some(CanonicalText(Document(tools, VerificationData(v, issues.value, checked.value))));
  }

  // ---------- the test ----------

  /** An execution that came to a judgement: a result without findings does not count as one. */
  predicate NormalExecution(r: ToolResult) {
    r.selected && (r.status == Success || r.status == Partial) && r.error.None? && r.result.Some? && r.findings != []
  }

  function ResultsOf(rs: seq<ToolResult>, name: ToolName): seq<ToolResult> {
    if rs == [] then []
    else if rs[|rs| - 1].tool == name then ResultsOf(rs[..|rs| - 1], name) + [rs[|rs| - 1]]
    else ResultsOf(rs[..|rs| - 1], name)
  }

  /** The last execution of a tool, if it is the one the latest result stands for and both are normal. */
  function NormalExecutionRecord(state: SelectionResult, name: ToolName): Option<ToolResult> {
    var latest, history := ResultsOf(state.results, name), ResultsOf(state.history, name);
    if |latest| != 1 || history == [] then None
    else
      var actual := history[|history| - 1];
      if !NormalExecution(latest[0]) || !NormalExecution(actual)
        || actual.execution.id == None || actual.execution.id == Some("")
        || actual.execution.round != latest[0].execution.round
        || actual.execution.id != latest[0].execution.id
      then None else Some(actual)
  }

  /** Both states hold a normal execution of the tool, the current one made in this round. */
  predicate ExecutedAgain(previous: SelectionResult, current: SelectionResult, name: ToolName, round: int) {
    var before, after := NormalExecutionRecord(previous, name), NormalExecutionRecord(current, name);
    before.Some? && after.Some? && before.value.execution.round < round && after.value.execution.round == round
  }

  predicate SameTools(a: seq<ToolName>, b: seq<ToolName>) {
    (forall t :: t in a ==> t in b) && (forall t :: t in b ==> t in a)
  }

  ghost predicate Unimproved(previous: SelectionResult, before: Verification, current: SelectionResult, after: Verification,
    executed: seq<ToolName>, round: int)
  {
    && before.status == ToolsRequired && after.status == ToolsRequired
    && executed != [] && Distinct(executed) && SameTools(executed, before.additional) && round >= 1
    && (forall t :: t in executed ==> ExecutedAgain(previous, current, t, round))
    && Snapshot(previous.results, before).Some?
    && Snapshot(previous.results, before) == Snapshot(current.results, after)
  }

  /** The loop over the executed tools. */
  method AllExecutedAgain(previous: SelectionResult, current: SelectionResult, executed: seq<ToolName>, round: int)
    returns (answer: bool)
    ensures answer <==> forall t :: t in executed ==> ExecutedAgain(previous, current, t, round)
  {
    for i := 0 to |executed|
      invariant forall j :: 0 <= j < i ==> ExecutedAgain(previous, current, executed[j], round)
    {
      var was := NormalExecutionRecord(previous, executed[i]);
      var now := NormalExecutionRecord(current, executed[i]);
      assert executed[i] in executed;
      if was == None || now == None {
        return false;
      }
      if was.value.execution.round >= round {
        return false;
      }
      if now.value.execution.round != round {
        return false;
      }
    }
    answer := true;
  }

  method HasNoProgress(previous: SelectionResult, before: Verification, current: SelectionResult, after: Verification,
      executed: seq<ToolName>, round: int)
    returns (answer: bool)
    ensures answer <==> Unimproved(previous, before, current, after, executed, round)
  {
    if before.status != ToolsRequired || after.status != ToolsRequired || executed == []
      || !Distinct(executed) || !SameTools(executed, before.additional) || round < 1
    {
      return false;
    }
    var again := AllExecutedAgain(previous, current, executed, round);
    if !again {
      return false;
    }
    var was := TakeSnapshot(previous.results, before);
    var now := TakeSnapshot(current.results, after);
    answer := was != None && now != None && was == now;
  }
}
