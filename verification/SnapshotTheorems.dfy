/** What the snapshot forgets and what it keeps. */
module SnapshotTheorems {
  import opened Common
  import opened Domain
  import opened Json
  import opened Canonical
  import opened Schemas
  import opened EarlyStop

  // ---------- it forgets the names of findings and the excluded metadata ----------

  ghost predicate Injective(names: map<string, string>) {
    forall a, b :: a in names && b in names && names[a] == names[b] ==> a == b
  }

  ghost predicate RenamedIds(xs: seq<string>, ys: seq<string>, names: map<string, string>) {
    |ys| == |xs| && forall i :: 0 <= i < |xs| ==> xs[i] in names && ys[i] == names[xs[i]]
  }

  ghost predicate RenamedFindings(fs: seq<Finding>, gs: seq<Finding>, names: map<string, string>) {
    && |gs| == |fs|
    && forall i :: 0 <= i < |fs| ==> fs[i].id in names && gs[i] == fs[i].(id := names[fs[i].id])
  }

  /** The same result under new finding ids, whatever the executor attached to it. */
  ghost predicate RenamedResult(x: ToolResult, y: ToolResult, names: map<string, string>) {
    y == x.(execution := y.execution, findings := y.findings) && RenamedFindings(x.findings, y.findings, names)
  }

  ghost predicate RenamedIssue(x: Issue, y: Issue, names: map<string, string>) {
    y == x.(id := y.id, related := y.related) && RenamedIds(x.related, y.related, names)
  }

  /** The same verification under new finding ids, whatever its time and the ids of its issues and questions. */
  ghost predicate RenamedVerification(v: Verification, w: Verification, names: map<string, string>) {
    && w == v.(at := w.at, issues := w.issues, questions := w.questions, checked := w.checked)
    && RenamedIds(v.checked, w.checked, names)
    && |w.issues| == |v.issues| && |w.questions| == |v.questions|
    && (forall i :: 0 <= i < |v.issues| ==> RenamedIssue(v.issues[i], w.issues[i], names))
    && forall i :: 0 <= i < |v.questions| ==> w.questions[i] == v.questions[i].(id := w.questions[i].id)
  }

  ghost predicate RenamedResults(rs: seq<ToolResult>, ss: seq<ToolResult>, names: map<string, string>) {
    |ss| == |rs| && forall i :: 0 <= i < |rs| ==> RenamedResult(rs[i], ss[i], names)
  }

  ghost predicate RenamedEntries(es: seq<Entry>, gs: seq<Entry>, names: map<string, string>) {
    |gs| == |es| && forall i :: 0 <= i < |es| ==> es[i].id in names && gs[i] == Entry(names[es[i].id], es[i].text)
  }

  lemma RenamedData(x: ToolResult, y: ToolResult, names: map<string, string>)
    requires RenamedResult(x, y, names)
    ensures ToolData(x) == ToolData(y)
  {
    assert Contents(x.findings) == Contents(y.findings);
  }

  lemma {:induction false} EntriesRenamed(rs: seq<ToolResult>, ss: seq<ToolResult>, names: map<string, string>)
    requires RenamedResults(rs, ss, names)
    ensures RenamedEntries(AllEntries(rs), AllEntries(ss), names)
  {
    hide RenamedEntries, Entries;
    if rs != [] {
      var n := |rs| - 1;
      EntriesRenamed(rs[..n], ss[..n], names);
      assert RenamedResult(rs[n], ss[n], names);
      OwnEntriesRenamed(rs[n].findings, ss[n].findings, names);
      EntriesJoined(AllEntries(rs[..n]), AllEntries(ss[..n]), Entries(rs[n].findings), Entries(ss[n].findings), names);
    } else {
      NoEntries(names);
    }
  }

  lemma NoEntries(names: map<string, string>)
    ensures RenamedEntries([], [], names)
  {
  }

  lemma OwnEntriesRenamed(fs: seq<Finding>, gs: seq<Finding>, names: map<string, string>)
    requires RenamedFindings(fs, gs, names)
    ensures RenamedEntries(Entries(fs), Entries(gs), names)
  {
    hide CanonicalText;
  }

  lemma EntriesJoined(a: seq<Entry>, b: seq<Entry>, c: seq<Entry>, d: seq<Entry>, names: map<string, string>)
    requires RenamedEntries(a, b, names) && RenamedEntries(c, d, names)
    ensures RenamedEntries(a + c, b + d, names)
  {
  }

  lemma KnownRenamed(es: seq<Entry>, gs: seq<Entry>, names: map<string, string>, id: string)
    requires Injective(names) && RenamedEntries(es, gs, names) && id in names
    ensures Known(es, id) <==> Known(gs, names[id])
    ensures DistinctIds(es) && Known(es, id) ==> Key(es, id) == Key(gs, names[id])
  {
    if Known(es, id) {
      var i :| 0 <= i < |es| && es[i].id == id;
      assert gs[i].id == names[id];
    }
  }

  lemma KeysRenamed(es: seq<Entry>, gs: seq<Entry>, names: map<string, string>, xs: seq<string>, ys: seq<string>)
    requires Injective(names) && RenamedEntries(es, gs, names) && RenamedIds(xs, ys, names)
    ensures AllKnown(es, xs) <==> AllKnown(gs, ys)
    ensures DistinctIds(es) && AllKnown(es, xs) ==> Keys(es, xs) == Keys(gs, ys)
  {
    forall i | 0 <= i < |xs|
      ensures Known(es, xs[i]) <==> Known(gs, ys[i])
      ensures DistinctIds(es) && Known(es, xs[i]) ==> Key(es, xs[i]) == Key(gs, ys[i])
    {
      KnownRenamed(es, gs, names, xs[i]);
    }
  }

  lemma DistinctRenamed(es: seq<Entry>, gs: seq<Entry>, names: map<string, string>)
    requires Injective(names) && RenamedEntries(es, gs, names)
    ensures DistinctIds(es) <==> DistinctIds(gs)
  {
    if DistinctIds(gs) {
      forall i, j | 0 <= i < j < |es| ensures es[i].id != es[j].id {
        assert gs[i].id != gs[j].id;
      }
    }
  }

  lemma IssuesRenamed(es: seq<Entry>, gs: seq<Entry>, v: seq<Issue>, w: seq<Issue>, names: map<string, string>)
    requires Injective(names) && RenamedEntries(es, gs, names) && |w| == |v|
    requires forall i :: 0 <= i < |v| ==> RenamedIssue(v[i], w[i], names)
    ensures AllRelatedKnown(es, v) <==> AllRelatedKnown(gs, w)
    ensures DistinctIds(es) && AllRelatedKnown(es, v) ==> IssuesData(es, v) == IssuesData(gs, w)
  {
    forall i | 0 <= i < |v|
      ensures AllKnown(es, v[i].related) <==> AllKnown(gs, w[i].related)
      ensures DistinctIds(es) && AllKnown(es, v[i].related) ==> Keys(es, v[i].related) == Keys(gs, w[i].related)
    {
      assert RenamedIssue(v[i], w[i], names);
      KeysRenamed(es, gs, names, v[i].related, w[i].related);
    }
  }

  lemma QuestionsRenamed(qs: seq<FollowUp>, ps: seq<FollowUp>)
    requires |ps| == |qs| && forall i :: 0 <= i < |qs| ==> ps[i] == qs[i].(id := ps[i].id)
    ensures QuestionsData(qs) == QuestionsData(ps)
  {
    forall i | 0 <= i < |qs| ensures QuestionData(qs[i]) == QuestionData(ps[i]) {
    }
  }

  lemma ToolsRenamed(rs: seq<ToolResult>, ss: seq<ToolResult>, names: map<string, string>)
    requires RenamedResults(rs, ss, names)
    ensures ToolsData(rs) == ToolsData(ss)
  {
    hide ToolData;
    forall i | 0 <= i < |rs| ensures ToolData(rs[i]) == ToolData(ss[i]) {
      RenamedData(rs[i], ss[i], names);
    }
  }

  /** Renaming the findings one-to-one, in results and references alike, and changing any excluded field leaves the
      snapshot as it was, comparable or not. */
  lemma SnapshotForgetsNames(rs: seq<ToolResult>, v: Verification, ss: seq<ToolResult>, w: Verification,
      names: map<string, string>)
    requires Injective(names) && RenamedResults(rs, ss, names) && RenamedVerification(v, w, names)
    ensures Snapshot(rs, v) == Snapshot(ss, w)
  {
    hide RenamedResults, RenamedEntries, Injective, DistinctIds, AllKnown, AllRelatedKnown, Keys, IssuesData, ToolsData,
         AllEntries, CanonicalText;
    var es, gs := AllEntries(rs), AllEntries(ss);
    EntriesRenamed(rs, ss, names);
    DistinctRenamed(es, gs, names);
    KeysRenamed(es, gs, names, v.checked, w.checked);
    IssuesRenamed(es, gs, v.issues, w.issues, names);
    QuestionsRenamed(v.questions, w.questions);
    ToolsRenamed(rs, ss, names);
  }

  // ---------- it keeps everything else, up to list order ----------

  lemma TextsWellFormed(xs: seq<string>)
    ensures WellFormed(Texts(xs))
  {
  }

  lemma ContentWellFormed(f: Finding)
    ensures WellFormed(Content(f))
  {
    TextsWellFormed(f.requirements);
  }

  lemma ContentsWellFormed(fs: seq<Finding>)
    ensures WellFormed(Arr(Contents(fs)))
  {
    forall i | 0 <= i < |fs| ensures WellFormed(Contents(fs)[i]) {
      ContentWellFormed(fs[i]);
    }
  }

  lemma ToolDataWellFormed(r: ToolResult)
    ensures WellFormed(ToolData(r))
  {
    ContentsWellFormed(r.findings);
    TextsWellFormed(r.actions);
    TextsWellFormed(r.missing);
  }

  lemma IssueDataWellFormed(issue: Issue, related: seq<string>)
    ensures WellFormed(IssueData(issue, related))
  {
    TextsWellFormed(related);
  }

  lemma QuestionDataWellFormed(q: FollowUp)
    ensures WellFormed(QuestionData(q))
  {
  }

  lemma VerificationDataWellFormed(v: Verification, issues: seq<Json>, checked: seq<string>)
    requires WellFormed(Arr(issues))
    ensures WellFormed(VerificationData(v, issues, checked))
  {
    TextsWellFormed(checked);
    forall i | 0 <= i < |v.questions| ensures WellFormed(QuestionsData(v.questions)[i]) {
      QuestionDataWellFormed(v.questions[i]);
    }
    assert WellFormed(Arr(QuestionsData(v.questions)));
    assert WellFormed(ToolTexts(v.additional));
  }

  lemma DocumentWellFormed(rs: seq<ToolResult>, v: Verification)
    requires Comparable(AllEntries(rs), v)
    ensures WellFormed(StateDocument(rs, v))
  {
    var es := AllEntries(rs);
    forall i | 0 <= i < |rs| ensures WellFormed(ToolsData(rs)[i]) {
      ToolDataWellFormed(rs[i]);
    }
    forall i | 0 <= i < |v.issues| ensures WellFormed(IssuesData(es, v.issues)[i]) {
      IssueDataWellFormed(v.issues[i], Keys(es, v.issues[i].related));
    }
    assert WellFormed(Arr(ToolsData(rs)));
    VerificationDataWellFormed(v, IssuesData(es, v.issues), Keys(es, v.checked));
  }

  /** Two comparable states have equal snapshots exactly when their contents are equal up to list order. */
  lemma SnapshotsExactly(rs: seq<ToolResult>, v: Verification, ss: seq<ToolResult>, w: Verification)
    requires Comparable(AllEntries(rs), v) && Comparable(AllEntries(ss), w)
    ensures Snapshot(rs, v) == Snapshot(ss, w) <==> Same(StateDocument(rs, v), StateDocument(ss, w), false)
  {
    DocumentWellFormed(rs, v);
    DocumentWellFormed(ss, w);
    CanonicalExactly(StateDocument(rs, v), StateDocument(ss, w));
  }
}
