/** What equal snapshots say about two states, field by field. */
module SnapshotAgreement {
  import opened Common
  import opened Domain
  import opened Json
  import opened Canonical
  import opened Schemas
  import opened EarlyStop
  import opened SnapshotTheorems

  // ---------- texts ----------

  lemma ToolTextInjective(a: ToolName, b: ToolName)
    requires ToolText(a) == ToolText(b)
    ensures a == b
  {
    assert |ToolText(Customs)| == 20 && |ToolText(Radio)| == 16 && |ToolText(FoodDrug)| == 16;
    assert |ToolText(Electrical)| == 17 && |ToolText(Children)| == 23 && |ToolText(LabelAd)| == 30;
    assert ToolText(Radio)[0] != ToolText(FoodDrug)[0];
  }

  lemma StatusTextInjective(a: ToolStatus, b: ToolStatus)
    requires StatusText(a) == StatusText(b)
    ensures a == b
  {
    assert StatusText(Success)[1] == 'u' && StatusText(Partial)[1] == 'a' && StatusText(Skipped)[1] == 'k';
    assert |StatusText(Failed)| == 6 && |StatusText(Partial)| == 7;
  }

  lemma IssueTextInjective(a: IssueType, b: IssueType)
    requires IssueText(a) == IssueText(b)
    ensures a == b
  {
    assert |IssueText(MissingTool)| == 12 && |IssueText(ToolFailure)| == 12 && |IssueText(MissingEvidence)| == 16;
    assert |IssueText(UnsupportedClaim)| == 17 && |IssueText(Contradiction)| == 13;
    assert |IssueText(InsufficientProductData)| == 25 && |IssueText(IncorrectDetermination)| == 23;
    assert IssueText(MissingTool)[0] != IssueText(ToolFailure)[0];
  }

  lemma VerdictTextInjective(a: VerificationStatus, b: VerificationStatus)
    requires VerdictText(a) == VerdictText(b)
    ensures a == b
  {
    assert |VerdictText(Approved)| == 8 && |VerdictText(ApprovedWithWarnings)| == 22;
    assert |VerdictText(VerificationStatus.RevisionRequired)| == 17 && |VerdictText(VerificationStatus.UserInputRequired)| == 19;
    assert |VerdictText(ToolsRequired)| == 14;
  }

  // ---------- lists and objects ----------

  ghost predicate Matches(xs: seq<Json>, ys: seq<Json>, p: seq<nat>) {
    Permutation(p) && |p| == |xs| == |ys| && forall i :: 0 <= i < |xs| ==> Same(xs[i], ys[p[i]], false)
  }

  lemma ListsExactly(xs: seq<Json>, ys: seq<Json>)
    ensures Same(Arr(xs), Arr(ys), false) <==> exists p :: Matches(xs, ys, p)
  {
    if Same(Arr(xs), Arr(ys), false) {
      var p: seq<nat> :| Permutation(p) && |p| == |xs| && forall i :: 0 <= i < |xs| ==> Same(xs[i], ys[p[i]], false);
      assert Matches(xs, ys, p);
    }
  }

  lemma StringsExactly(a: string, b: string)
    ensures Same(Str(a), Str(b), false) <==> a == b
  {
  }

  lemma TextsExactly(xs: seq<string>, ys: seq<string>)
    ensures Same(Texts(xs), Texts(ys), false) <==> multiset(xs) == multiset(ys)
  {
    hide Same;
    var a, b := Texts(xs).items, Texts(ys).items;
    ListsExactly(a, b);
    if p :| Matches(a, b, p) {
      forall i | 0 <= i < |xs| ensures xs[i] == ys[p[i]] {
        StringsExactly(xs[i], ys[p[i]]);
      }
      MultisetsFromPermutation(xs, ys, p);
    }
    if multiset(xs) == multiset(ys) {
      var p := PermutationFromMultisets(xs, ys);
      forall i | 0 <= i < |a| ensures Same(a[i], b[p[i]], false) {
        StringsExactly(xs[i], ys[p[i]]);
      }
      assert Matches(a, b, p);
    }
  }

  lemma ToolTextsExactly(xs: seq<ToolName>, ys: seq<ToolName>)
    ensures Same(ToolTexts(xs), ToolTexts(ys), false) <==> multiset(xs) == multiset(ys)
  {
    hide Same, ToolText;
    var a, b := ToolTexts(xs).items, ToolTexts(ys).items;
    ListsExactly(a, b);
    if p :| Matches(a, b, p) {
      forall i | 0 <= i < |xs| ensures xs[i] == ys[p[i]] {
        StringsExactly(ToolText(xs[i]), ToolText(ys[p[i]]));
        ToolTextInjective(xs[i], ys[p[i]]);
      }
      MultisetsFromPermutation(xs, ys, p);
    }
    if multiset(xs) == multiset(ys) {
      var p := PermutationFromMultisets(xs, ys);
      forall i | 0 <= i < |a| ensures Same(a[i], b[p[i]], false) {
        StringsExactly(ToolText(xs[i]), ToolText(ys[p[i]]));
      }
      assert Matches(a, b, p);
    }
  }

  lemma ObjectsExactly(f: map<string, Json>, g: map<string, Json>)
    ensures Same(Obj(f), Obj(g), false) <==>
            f.Keys == g.Keys && forall k :: k in f ==> Same(f[k], g[k], k == ORDERED_KEY)
  {
  }

  /** Objects without the ordered key are the same exactly when their fields are. */
  lemma FieldsSame(f: map<string, Json>, g: map<string, Json>)
    requires ORDERED_KEY !in f && f.Keys == g.Keys
    ensures Same(Obj(f), Obj(g), false) <==> forall k :: k in f ==> Same(f[k], g[k], false)
  {
    assert forall k :: k in f ==> k != ORDERED_KEY;
  }

  lemma NotOrdered(k: string)
    requires |k| != 18 || (k != "" && k[0] != 'h')
    ensures k != ORDERED_KEY
  {
    assert |ORDERED_KEY| == 18 && ORDERED_KEY[0] == 'h';
  }

  // ---------- findings ----------

  function Others(f: Finding): map<string, Json> {
    f.others - {"requirements"}
  }

  /** Two findings say the same: the same requirements and, up to list order, the same other fields. */
  ghost predicate FindingsAgree(f: Finding, g: Finding) {
    && multiset(f.requirements) == multiset(g.requirements)
    && Same(Obj(Others(f)), Obj(Others(g)), false)
  }

  /** An object that holds the requirements beside other fields. */
  ghost predicate Extends(a: map<string, Json>, f: map<string, Json>, requirements: Json) {
    && "requirements" !in f && a.Keys == f.Keys + {"requirements"} && a["requirements"] == requirements
    && forall k :: k in f ==> a[k] == f[k]
  }

  lemma ContentFields(f: Finding)
    ensures Extends(Content(f).fields, Others(f), Texts(f.requirements))
  {
  }

  lemma ExtendedExactly(a: map<string, Json>, f: map<string, Json>, r: Json, b: map<string, Json>, g: map<string, Json>, q: Json)
    requires Extends(a, f, r) && Extends(b, g, q)
    ensures Same(Obj(a), Obj(b), false) <==> Same(r, q, false) && Same(Obj(f), Obj(g), false)
  {
    hide Same;
    NotOrdered("requirements");
    ObjectsExactly(a, b);
    ObjectsExactly(f, g);
    if a.Keys == b.Keys {
      assert f.Keys == a.Keys - {"requirements"} == g.Keys;
    }
    if Same(Obj(a), Obj(b), false) {
      assert "requirements" in a;
      forall k | k in f ensures Same(f[k], g[k], k == ORDERED_KEY) {
        assert k in a;
      }
    }
  }

  lemma ContentExactly(f: Finding, g: Finding)
    ensures Same(Content(f), Content(g), false) <==> FindingsAgree(f, g)
  {
    hide Same, Extends, Others;
    TextsExactly(f.requirements, g.requirements);
    ContentFields(f);
    ContentFields(g);
    ExtendedExactly(Content(f).fields, Others(f), Texts(f.requirements),
                    Content(g).fields, Others(g), Texts(g.requirements));
  }

  ghost predicate AllFindingsAgree(fs: seq<Finding>, gs: seq<Finding>, p: seq<nat>) {
    Permutation(p) && |p| == |fs| == |gs| && forall i :: 0 <= i < |fs| ==> FindingsAgree(fs[i], gs[p[i]])
  }

  lemma ContentsExactly(fs: seq<Finding>, gs: seq<Finding>)
    ensures Same(Arr(Contents(fs)), Arr(Contents(gs)), false) <==> exists p :: AllFindingsAgree(fs, gs, p)
  {
    hide Same, Content, FindingsAgree;
    var a, b := Contents(fs), Contents(gs);
    ListsExactly(a, b);
    forall p ensures Matches(a, b, p) <==> AllFindingsAgree(fs, gs, p) {
      if Permutation(p) && |p| == |fs| == |gs| {
        forall i | 0 <= i < |fs| ensures Same(a[i], b[p[i]], false) <==> FindingsAgree(fs[i], gs[p[i]]) {
          ContentExactly(fs[i], gs[p[i]]);
        }
      }
    }
  }

  // ---------- results ----------

  ghost predicate DetailsAgree(x: Option<FieldValues>, y: Option<FieldValues>) {
    (x.None? && y.None?) || (x.Some? && y.Some? && Same(Obj(x.value), Obj(y.value), false))
  }

  /** The judgements of two results agree up to the order of their lists. */
  ghost predicate ResultsAgree(x: ToolResult, y: ToolResult) {
    && x.tool == y.tool && x.status == y.status && x.selected == y.selected && x.error == y.error
    && multiset(x.actions) == multiset(y.actions) && multiset(x.missing) == multiset(y.missing)
    && DetailsAgree(x.result, y.result)
    && exists p :: AllFindingsAgree(x.findings, y.findings, p)
  }

  /** The keys of a result and what stands under them. */
  ghost predicate HoldsTool(f: map<string, Json>, x: ToolResult) {
    && f.Keys == {"tool_name", "status", "selected", "result", "findings", "required_actions", "missing_information",
                  "error"}
    && f["tool_name"] == Str(ToolText(x.tool)) && f["status"] == Str(StatusText(x.status))
    && f["selected"] == Bool(x.selected) && f["result"] == Detail(x.result)
    && f["findings"] == Arr(Contents(x.findings)) && f["required_actions"] == Texts(x.actions)
    && f["missing_information"] == Texts(x.missing) && f["error"] == Text(x.error)
  }

  lemma ToolFields(x: ToolResult)
    ensures HoldsTool(ToolData(x).fields, x)
  {
  }

  lemma ScalarsExactly(x: ToolResult, y: ToolResult)
    ensures Same(Str(ToolText(x.tool)), Str(ToolText(y.tool)), false) <==> x.tool == y.tool
    ensures Same(Str(StatusText(x.status)), Str(StatusText(y.status)), false) <==> x.status == y.status
    ensures Same(Bool(x.selected), Bool(y.selected), false) <==> x.selected == y.selected
    ensures Same(Text(x.error), Text(y.error), false) <==> x.error == y.error
    ensures Same(Detail(x.result), Detail(y.result), false) <==> DetailsAgree(x.result, y.result)
  {
    if ToolText(x.tool) == ToolText(y.tool) {
      ToolTextInjective(x.tool, y.tool);
    }
    if StatusText(x.status) == StatusText(y.status) {
      StatusTextInjective(x.status, y.status);
    }
  }

  lemma ToolKeys(f: map<string, Json>, x: ToolResult)
    requires HoldsTool(f, x)
    ensures ORDERED_KEY !in f
  {
    NotOrdered("tool_name");
    NotOrdered("status");
    NotOrdered("selected");
    NotOrdered("result");
    NotOrdered("findings");
    NotOrdered("required_actions");
    NotOrdered("missing_information");
    NotOrdered("error");
  }

  lemma ToolFieldsExactly(f: map<string, Json>, g: map<string, Json>, x: ToolResult, y: ToolResult)
    requires HoldsTool(f, x) && HoldsTool(g, y)
    ensures Same(Obj(f), Obj(g), false) <==> ResultsAgree(x, y)
  {
    hide Same, AllFindingsAgree;
    ToolKeys(f, x);
    FieldsSame(f, g);
    ScalarsExactly(x, y);
    TextsExactly(x.actions, y.actions);
    TextsExactly(x.missing, y.missing);
    ContentsExactly(x.findings, y.findings);
  }

  lemma ToolDataExactly(x: ToolResult, y: ToolResult)
    ensures Same(ToolData(x), ToolData(y), false) <==> ResultsAgree(x, y)
  {
    hide ResultsAgree;
    ToolFields(x);
    ToolFields(y);
    ToolFieldsExactly(ToolData(x).fields, ToolData(y).fields, x, y);
  }

  ghost predicate AllResultsAgree(rs: seq<ToolResult>, ss: seq<ToolResult>, p: seq<nat>) {
    Permutation(p) && |p| == |rs| == |ss| && forall i :: 0 <= i < |rs| ==> ResultsAgree(rs[i], ss[p[i]])
  }

  lemma ToolsExactly(rs: seq<ToolResult>, ss: seq<ToolResult>)
    ensures Same(Arr(ToolsData(rs)), Arr(ToolsData(ss)), false) <==> exists p :: AllResultsAgree(rs, ss, p)
  {
    hide Same, ToolData, ResultsAgree;
    var a, b := ToolsData(rs), ToolsData(ss);
    ListsExactly(a, b);
    forall p ensures Matches(a, b, p) <==> AllResultsAgree(rs, ss, p) {
      if Permutation(p) && |p| == |rs| == |ss| {
        forall i | 0 <= i < |rs| ensures Same(a[i], b[p[i]], false) <==> ResultsAgree(rs[i], ss[p[i]]) {
          ToolDataExactly(rs[i], ss[p[i]]);
        }
      }
    }
  }

  // ---------- findings by their ids ----------

  /** Some result lists the finding. */
  ghost predicate Lists(rs: seq<ToolResult>, f: Finding) {
    exists i, k :: 0 <= i < |rs| && 0 <= k < |rs[i].findings| && rs[i].findings[k] == f
  }

  /** No two findings share their id. */
  ghost predicate UniqueIds(rs: seq<ToolResult>) {
    forall i, j, k, l ::
      (0 <= i < |rs| && 0 <= j < |rs| && 0 <= k < |rs[i].findings| && 0 <= l < |rs[j].findings|
       && rs[i].findings[k].id == rs[j].findings[l].id) ==> i == j && k == l
  }

  ghost predicate ListsId(rs: seq<ToolResult>, id: string) {
    exists f :: Lists(rs, f) && f.id == id
  }

  ghost predicate ListsIds(rs: seq<ToolResult>, ids: seq<string>) {
    forall i :: 0 <= i < |ids| ==> ListsId(rs, ids[i])
  }

  /** Every id the verification mentions is that of exactly one finding. */
  ghost predicate Unambiguous(rs: seq<ToolResult>, v: Verification) {
    && UniqueIds(rs) && ListsIds(rs, v.checked)
    && forall i :: 0 <= i < |v.issues| ==> ListsIds(rs, v.issues[i].related)
  }

  lemma ListsSplit(rs: seq<ToolResult>, r: ToolResult, f: Finding)
    ensures Lists(rs + [r], f) <==> Lists(rs, f) || f in r.findings
  {
    var all := rs + [r];
    if i, k :| 0 <= i < |rs| && 0 <= k < |rs[i].findings| && rs[i].findings[k] == f {
      assert all[i].findings[k] == f;
    }
    if k :| 0 <= k < |r.findings| && r.findings[k] == f {
      assert all[|rs|].findings[k] == f;
    }
    if i, k :| 0 <= i < |all| && 0 <= k < |all[i].findings| && all[i].findings[k] == f {
      assert i < |rs| ==> rs[i].findings[k] == f;
    }
  }

  lemma {:induction false} EntriesExactly(rs: seq<ToolResult>, e: Entry)
    ensures e in AllEntries(rs) <==> exists f :: Lists(rs, f) && EntryOf(f) == e
  {
    hide EntryOf, Lists;
    if rs == [] {
      assert forall f :: !Lists([], f) by {
        NoLists();
      }
    } else {
      var init, last := rs[..|rs| - 1], rs[|rs| - 1];
      assert rs == init + [last];
      EntriesExactly(init, e);
      forall f ensures Lists(rs, f) <==> Lists(init, f) || f in last.findings {
        ListsSplit(init, last, f);
      }
      if e in Entries(last.findings) {
        var k :| 0 <= k < |last.findings| && EntryOf(last.findings[k]) == e;
        assert Lists(rs, last.findings[k]);
      }
      if f :| f in last.findings && EntryOf(f) == e {
        var k :| 0 <= k < |last.findings| && last.findings[k] == f;
        assert Entries(last.findings)[k] == e;
      }
    }
  }

  lemma NoLists()
    ensures forall f :: !Lists([], f)
  {
  }

  lemma EntryFields(f: Finding)
    ensures EntryOf(f).id == f.id && EntryOf(f).text == CanonicalText(Content(f))
  {
  }

  lemma KnownExactly(rs: seq<ToolResult>, id: string)
    ensures Known(AllEntries(rs), id) <==> ListsId(rs, id)
  {
    hide EntryOf, Lists;
    var es := AllEntries(rs);
    if Known(es, id) {
      var i :| 0 <= i < |es| && es[i].id == id;
      EntriesExactly(rs, es[i]);
      var f :| Lists(rs, f) && EntryOf(f) == es[i];
      EntryFields(f);
    }
    if f :| Lists(rs, f) && f.id == id {
      EntryFields(f);
      EntriesExactly(rs, EntryOf(f));
      var i :| 0 <= i < |es| && es[i] == EntryOf(f);
    }
  }

  /** The text an id stands for is the canonical text of the finding that carries it. */
  lemma KeyOfFinding(rs: seq<ToolResult>, f: Finding)
    requires DistinctIds(AllEntries(rs)) && Lists(rs, f)
    ensures Known(AllEntries(rs), f.id) && Key(AllEntries(rs), f.id) == CanonicalText(Content(f))
  {
    hide EntryOf, Lists;
    var es := AllEntries(rs);
    EntryFields(f);
    EntriesExactly(rs, EntryOf(f));
    var i :| 0 <= i < |es| && es[i] == EntryOf(f);
    assert es[i].id == f.id;
  }

  /** The ids name findings that say the same. */
  ghost predicate IdsAgree(rs: seq<ToolResult>, a: string, ss: seq<ToolResult>, b: string) {
    exists f, g :: Lists(rs, f) && f.id == a && Lists(ss, g) && g.id == b && FindingsAgree(f, g)
  }

  lemma KeysExactly(rs: seq<ToolResult>, a: string, ss: seq<ToolResult>, b: string)
    requires DistinctIds(AllEntries(rs)) && DistinctIds(AllEntries(ss))
    requires Known(AllEntries(rs), a) && Known(AllEntries(ss), b)
    ensures Key(AllEntries(rs), a) == Key(AllEntries(ss), b) <==> IdsAgree(rs, a, ss, b)
  {
    hide Lists, FindingsAgree, AllEntries, CanonicalText, Content, Key, Known, DistinctIds;
    KnownExactly(rs, a);
    KnownExactly(ss, b);
    var f :| Lists(rs, f) && f.id == a;
    var g :| Lists(ss, g) && g.id == b;
    KeyOfFinding(rs, f);
    KeyOfFinding(ss, g);
    TextsOfContents(f, g);
    if IdsAgree(rs, a, ss, b) {
      var x, y :| Lists(rs, x) && x.id == a && Lists(ss, y) && y.id == b && FindingsAgree(x, y);
      KeyOfFinding(rs, x);
      KeyOfFinding(ss, y);
      TextsOfContents(x, y);
    }
  }

  lemma TextsOfContents(f: Finding, g: Finding)
    ensures CanonicalText(Content(f)) == CanonicalText(Content(g)) <==> FindingsAgree(f, g)
  {
    ContentWellFormed(f);
    ContentWellFormed(g);
    CanonicalExactly(Content(f), Content(g));
    ContentExactly(f, g);
  }

  ghost predicate AllIdsAgree(rs: seq<ToolResult>, xs: seq<string>, ss: seq<ToolResult>, ys: seq<string>, p: seq<nat>) {
    Permutation(p) && |p| == |xs| == |ys| && forall i :: 0 <= i < |xs| ==> IdsAgree(rs, xs[i], ss, ys[p[i]])
  }

  lemma ReferencesExactly(rs: seq<ToolResult>, xs: seq<string>, ss: seq<ToolResult>, ys: seq<string>)
    requires DistinctIds(AllEntries(rs)) && DistinctIds(AllEntries(ss))
    requires AllKnown(AllEntries(rs), xs) && AllKnown(AllEntries(ss), ys)
    ensures multiset(Keys(AllEntries(rs), xs)) == multiset(Keys(AllEntries(ss), ys))
       <==> exists p :: AllIdsAgree(rs, xs, ss, ys, p)
  {
    hide AllEntries, Key, Known, DistinctIds, IdsAgree;
    var a, b := Keys(AllEntries(rs), xs), Keys(AllEntries(ss), ys);
    forall i, j | 0 <= i < |xs| && 0 <= j < |ys| ensures a[i] == b[j] <==> IdsAgree(rs, xs[i], ss, ys[j]) {
      KeysExactly(rs, xs[i], ss, ys[j]);
    }
    if multiset(a) == multiset(b) {
      var p := PermutationFromMultisets(a, b);
      assert AllIdsAgree(rs, xs, ss, ys, p);
    }
    if p :| AllIdsAgree(rs, xs, ss, ys, p) {
      MultisetsFromPermutation(a, b, p);
    }
  }

  lemma DistinctSplit(a: seq<Entry>, b: seq<Entry>)
    ensures DistinctIds(a + b) <==> DistinctIds(a) && DistinctIds(b) && forall l :: 0 <= l < |b| ==> !Known(a, b[l].id)
  {
    var all := a + b;
    if DistinctIds(all) {
      forall i, j | 0 <= i < j < |b| ensures b[i].id != b[j].id {
        assert all[|a| + i].id != all[|a| + j].id;
      }
      forall i, j | 0 <= i < j < |a| ensures a[i].id != a[j].id {
        assert all[i].id != all[j].id;
      }
      forall i, l | 0 <= i < |a| && 0 <= l < |b| ensures a[i].id != b[l].id {
        assert all[i].id != all[|a| + l].id;
      }
    }
  }

  ghost predicate OwnUnique(fs: seq<Finding>) {
    forall k, l :: 0 <= k < l < |fs| ==> fs[k].id != fs[l].id
  }

  lemma UniqueSplit(rs: seq<ToolResult>, r: ToolResult)
    ensures UniqueIds(rs + [r]) <==>
      UniqueIds(rs) && OwnUnique(r.findings) && forall l :: 0 <= l < |r.findings| ==> !ListsId(rs, r.findings[l].id)
  {
    var all := rs + [r];
    if UniqueIds(all) {
      assert all[|rs|].findings == r.findings;
      forall i, j, k, l | 0 <= i < |rs| && 0 <= j < |rs| && 0 <= k < |rs[i].findings| && 0 <= l < |rs[j].findings|
                          && rs[i].findings[k].id == rs[j].findings[l].id
        ensures i == j && k == l
      {
        assert all[i].findings[k].id == all[j].findings[l].id;
      }
      forall i, k, l | 0 <= i < |rs| && 0 <= k < |rs[i].findings| && 0 <= l < |r.findings|
        ensures rs[i].findings[k].id != r.findings[l].id
      {
        assert all[i].findings[k].id != all[|rs|].findings[l].id;
      }
    }
    if UniqueIds(rs) && OwnUnique(r.findings) && forall l :: 0 <= l < |r.findings| ==> !ListsId(rs, r.findings[l].id) {
      forall i, k | 0 <= i < |rs| && 0 <= k < |rs[i].findings| ensures ListsId(rs, rs[i].findings[k].id) {
        assert Lists(rs, rs[i].findings[k]);
      }
    }
  }

  lemma {:induction false} UniqueExactly(rs: seq<ToolResult>)
    ensures DistinctIds(AllEntries(rs)) <==> UniqueIds(rs)
  {
    hide UniqueIds, DistinctIds, ListsId, Known;
    if rs == [] {
      NothingRepeated();
    } else {
      var init, last := rs[..|rs| - 1], rs[|rs| - 1];
      assert rs == init + [last];
      UniqueExactly(init);
      UniqueSplit(init, last);
      DistinctSplit(AllEntries(init), Entries(last.findings));
      OwnExactly(last.findings);
      forall l | 0 <= l < |last.findings|
        ensures Known(AllEntries(init), Entries(last.findings)[l].id) <==> ListsId(init, last.findings[l].id)
      {
        EntryFields(last.findings[l]);
        KnownExactly(init, last.findings[l].id);
      }
    }
  }

  lemma NothingRepeated()
    ensures DistinctIds([]) && UniqueIds([])
  {
  }

  lemma OwnExactly(fs: seq<Finding>)
    ensures DistinctIds(Entries(fs)) <==> OwnUnique(fs)
  {
    var es := Entries(fs);
    forall k | 0 <= k < |fs| ensures es[k].id == fs[k].id {
      EntryFields(fs[k]);
    }
  }

  lemma IdsKnown(rs: seq<ToolResult>, ids: seq<string>)
    ensures AllKnown(AllEntries(rs), ids) <==> ListsIds(rs, ids)
  {
    forall i | 0 <= i < |ids| ensures Known(AllEntries(rs), ids[i]) <==> ListsId(rs, ids[i]) {
      KnownExactly(rs, ids[i]);
    }
  }

  lemma ComparableExactly(rs: seq<ToolResult>, v: Verification)
    ensures Comparable(AllEntries(rs), v) <==> Unambiguous(rs, v)
  {
    hide AllKnown, ListsIds, DistinctIds, UniqueIds;
    UniqueExactly(rs);
    IdsKnown(rs, v.checked);
    forall i | 0 <= i < |v.issues|
      ensures AllKnown(AllEntries(rs), v.issues[i].related) <==> ListsIds(rs, v.issues[i].related)
    {
      IdsKnown(rs, v.issues[i].related);
    }
  }

  // ---------- issues and questions ----------

  /** Two issues say the same about findings that say the same. */
  ghost predicate IssuesAgree(rs: seq<ToolResult>, x: Issue, ss: seq<ToolResult>, y: Issue) {
    && x.severity == y.severity && x.kind == y.kind && x.description == y.description && x.recommended == y.recommended
    && exists p :: AllIdsAgree(rs, x.related, ss, y.related, p)
  }

  ghost predicate HoldsIssue(f: map<string, Json>, x: Issue, related: seq<string>) {
    && f.Keys == {"severity", "issue_type", "description", "recommended_action", "related_findings"}
    && f["severity"] == Str(x.severity) && f["issue_type"] == Str(IssueText(x.kind))
    && f["description"] == Str(x.description) && f["recommended_action"] == Text(x.recommended)
    && f["related_findings"] == Texts(related)
  }

  lemma IssueFields(x: Issue, related: seq<string>)
    ensures HoldsIssue(IssueData(x, related).fields, x, related)
  {
  }

  lemma IssueKeys(f: map<string, Json>, x: Issue, related: seq<string>)
    requires HoldsIssue(f, x, related)
    ensures ORDERED_KEY !in f
  {
    NotOrdered("severity");
    NotOrdered("issue_type");
    NotOrdered("description");
    NotOrdered("recommended_action");
    NotOrdered("related_findings");
  }

  lemma OptionsExactly(a: Option<string>, b: Option<string>)
    ensures Same(Text(a), Text(b), false) <==> a == b
  {
  }

  lemma IssueFieldsExactly(f: map<string, Json>, g: map<string, Json>, x: Issue, xs: seq<string>, y: Issue, ys: seq<string>)
    requires HoldsIssue(f, x, xs) && HoldsIssue(g, y, ys)
    ensures Same(Obj(f), Obj(g), false) <==>
      && x.severity == y.severity && x.kind == y.kind && x.description == y.description && x.recommended == y.recommended
      && multiset(xs) == multiset(ys)
  {
    hide Same, IssueText;
    IssueKeys(f, x, xs);
    FieldsSame(f, g);
    StringsExactly(x.severity, y.severity);
    StringsExactly(IssueText(x.kind), IssueText(y.kind));
    if IssueText(x.kind) == IssueText(y.kind) {
      IssueTextInjective(x.kind, y.kind);
    }
    StringsExactly(x.description, y.description);
    OptionsExactly(x.recommended, y.recommended);
    TextsExactly(xs, ys);
  }

  lemma IssueDataExactly(rs: seq<ToolResult>, x: Issue, ss: seq<ToolResult>, y: Issue)
    requires DistinctIds(AllEntries(rs)) && DistinctIds(AllEntries(ss))
    requires AllKnown(AllEntries(rs), x.related) && AllKnown(AllEntries(ss), y.related)
    ensures Same(IssueData(x, Keys(AllEntries(rs), x.related)), IssueData(y, Keys(AllEntries(ss), y.related)), false)
       <==> IssuesAgree(rs, x, ss, y)
  {
    hide AllEntries, Keys, DistinctIds, AllKnown, AllIdsAgree, Same;
    var xs, ys := Keys(AllEntries(rs), x.related), Keys(AllEntries(ss), y.related);
    IssueFields(x, xs);
    IssueFields(y, ys);
    IssueFieldsExactly(IssueData(x, xs).fields, IssueData(y, ys).fields, x, xs, y, ys);
    ReferencesExactly(rs, x.related, ss, y.related);
  }

  ghost predicate AllIssuesAgree(rs: seq<ToolResult>, xs: seq<Issue>, ss: seq<ToolResult>, ys: seq<Issue>, p: seq<nat>) {
    Permutation(p) && |p| == |xs| == |ys| && forall i :: 0 <= i < |xs| ==> IssuesAgree(rs, xs[i], ss, ys[p[i]])
  }

  lemma IssueListsExactly(rs: seq<ToolResult>, xs: seq<Issue>, ss: seq<ToolResult>, ys: seq<Issue>)
    requires DistinctIds(AllEntries(rs)) && DistinctIds(AllEntries(ss))
    requires AllRelatedKnown(AllEntries(rs), xs) && AllRelatedKnown(AllEntries(ss), ys)
    ensures Same(Arr(IssuesData(AllEntries(rs), xs)), Arr(IssuesData(AllEntries(ss), ys)), false)
       <==> exists p :: AllIssuesAgree(rs, xs, ss, ys, p)
  {
    hide Same, AllEntries, Keys, DistinctIds, AllKnown, IssueData, IssuesAgree;
    var a, b := IssuesData(AllEntries(rs), xs), IssuesData(AllEntries(ss), ys);
    ListsExactly(a, b);
    forall i, j | 0 <= i < |xs| && 0 <= j < |ys| ensures Same(a[i], b[j], false) <==> IssuesAgree(rs, xs[i], ss, ys[j]) {
      IssueDataExactly(rs, xs[i], ss, ys[j]);
    }
    forall p ensures Matches(a, b, p) <==> AllIssuesAgree(rs, xs, ss, ys, p) {
    }
  }

  ghost predicate QuestionsAgree(x: FollowUp, y: FollowUp) {
    && x.question == y.question && x.reason == y.reason && x.required == y.required
    && multiset(x.tools) == multiset(y.tools)
  }

  ghost predicate HoldsQuestion(f: map<string, Json>, q: FollowUp) {
    && f.Keys == {"question", "reason", "related_tools", "required"}
    && f["question"] == Str(q.question) && f["reason"] == Str(q.reason)
    && f["related_tools"] == ToolTexts(q.tools) && f["required"] == Bool(q.required)
  }

  lemma QuestionFields(q: FollowUp)
    ensures HoldsQuestion(QuestionData(q).fields, q)
  {
  }

  lemma QuestionKeys(f: map<string, Json>, q: FollowUp)
    requires HoldsQuestion(f, q)
    ensures ORDERED_KEY !in f
  {
    NotOrdered("question");
    NotOrdered("reason");
    NotOrdered("related_tools");
    NotOrdered("required");
  }

  lemma BoolsExactly(a: bool, b: bool)
    ensures Same(Bool(a), Bool(b), false) <==> a == b
  {
  }

  lemma QuestionFieldsExactly(f: map<string, Json>, g: map<string, Json>, x: FollowUp, y: FollowUp)
    requires HoldsQuestion(f, x) && HoldsQuestion(g, y)
    ensures Same(Obj(f), Obj(g), false) <==> QuestionsAgree(x, y)
  {
    hide Same;
    QuestionKeys(f, x);
    FieldsSame(f, g);
    StringsExactly(x.question, y.question);
    StringsExactly(x.reason, y.reason);
    ToolTextsExactly(x.tools, y.tools);
    BoolsExactly(x.required, y.required);
  }

  lemma QuestionDataExactly(x: FollowUp, y: FollowUp)
    ensures Same(QuestionData(x), QuestionData(y), false) <==> QuestionsAgree(x, y)
  {
    hide Same, QuestionsAgree;
    QuestionFields(x);
    QuestionFields(y);
    QuestionFieldsExactly(QuestionData(x).fields, QuestionData(y).fields, x, y);
  }

  ghost predicate AllQuestionsAgree(xs: seq<FollowUp>, ys: seq<FollowUp>, p: seq<nat>) {
    Permutation(p) && |p| == |xs| == |ys| && forall i :: 0 <= i < |xs| ==> QuestionsAgree(xs[i], ys[p[i]])
  }

  lemma QuestionListsExactly(xs: seq<FollowUp>, ys: seq<FollowUp>)
    ensures Same(Arr(QuestionsData(xs)), Arr(QuestionsData(ys)), false) <==> exists p :: AllQuestionsAgree(xs, ys, p)
  {
    hide Same, QuestionData, QuestionsAgree;
    var a, b := QuestionsData(xs), QuestionsData(ys);
    ListsExactly(a, b);
    forall i, j | 0 <= i < |xs| && 0 <= j < |ys| ensures Same(a[i], b[j], false) <==> QuestionsAgree(xs[i], ys[j]) {
      QuestionDataExactly(xs[i], ys[j]);
    }
    forall p ensures Matches(a, b, p) <==> AllQuestionsAgree(xs, ys, p) {
    }
  }

  // ---------- the whole state ----------

  /** Two states say the same: results, issues, questions and checked findings correspond one-to-one. */
  ghost predicate StatesAgree(rs: seq<ToolResult>, v: Verification, ss: seq<ToolResult>, w: Verification) {
    && v.status == w.status && v.summary == w.summary && multiset(v.additional) == multiset(w.additional)
    && (exists p :: AllIdsAgree(rs, v.checked, ss, w.checked, p))
    && (exists p :: AllResultsAgree(rs, ss, p))
    && (exists p :: AllIssuesAgree(rs, v.issues, ss, w.issues, p))
    && exists p :: AllQuestionsAgree(v.questions, w.questions, p)
  }

  ghost predicate HoldsVerification(f: map<string, Json>, v: Verification, issues: seq<Json>, checked: seq<string>) {
    && f.Keys == {"status", "review_summary", "additional_tools_required", "issues", "checked_findings",
                  "follow_up_questions"}
    && f["status"] == Str(VerdictText(v.status)) && f["review_summary"] == Text(v.summary)
    && f["additional_tools_required"] == ToolTexts(v.additional) && f["issues"] == Arr(issues)
    && f["checked_findings"] == Texts(checked) && f["follow_up_questions"] == Arr(QuestionsData(v.questions))
  }

  lemma VerificationFields(v: Verification, issues: seq<Json>, checked: seq<string>)
    ensures HoldsVerification(VerificationData(v, issues, checked).fields, v, issues, checked)
  {
  }

  lemma VerificationKeys(f: map<string, Json>, v: Verification, issues: seq<Json>, checked: seq<string>)
    requires HoldsVerification(f, v, issues, checked)
    ensures ORDERED_KEY !in f
  {
    NotOrdered("status");
    NotOrdered("review_summary");
    NotOrdered("additional_tools_required");
    NotOrdered("issues");
    NotOrdered("checked_findings");
    NotOrdered("follow_up_questions");
  }

  lemma VerificationFieldsExactly(f: map<string, Json>, g: map<string, Json>, v: Verification, xs: seq<Json>,
      cs: seq<string>, w: Verification, ys: seq<Json>, ds: seq<string>)
    requires HoldsVerification(f, v, xs, cs) && HoldsVerification(g, w, ys, ds)
    ensures Same(Obj(f), Obj(g), false) <==>
      && v.status == w.status && v.summary == w.summary && multiset(v.additional) == multiset(w.additional)
      && multiset(cs) == multiset(ds) && Same(Arr(xs), Arr(ys), false)
      && exists p :: AllQuestionsAgree(v.questions, w.questions, p)
  {
    hide Same, VerdictText, AllQuestionsAgree, QuestionsData;
    VerificationKeys(f, v, xs, cs);
    FieldsSame(f, g);
    StringsExactly(VerdictText(v.status), VerdictText(w.status));
    if VerdictText(v.status) == VerdictText(w.status) {
      VerdictTextInjective(v.status, w.status);
    }
    OptionsExactly(v.summary, w.summary);
    ToolTextsExactly(v.additional, w.additional);
    TextsExactly(cs, ds);
    QuestionListsExactly(v.questions, w.questions);
  }

  lemma VerificationDataExactly(v: Verification, xs: seq<Json>, cs: seq<string>, w: Verification, ys: seq<Json>,
      ds: seq<string>)
    ensures Same(VerificationData(v, xs, cs), VerificationData(w, ys, ds), false) <==>
      && v.status == w.status && v.summary == w.summary && multiset(v.additional) == multiset(w.additional)
      && multiset(cs) == multiset(ds) && Same(Arr(xs), Arr(ys), false)
      && exists p :: AllQuestionsAgree(v.questions, w.questions, p)
  {
    hide Same, AllQuestionsAgree;
    VerificationFields(v, xs, cs);
    VerificationFields(w, ys, ds);
    VerificationFieldsExactly(VerificationData(v, xs, cs).fields, VerificationData(w, ys, ds).fields, v, xs, cs, w, ys, ds);
  }

  lemma DocumentsExactly(ts: seq<Json>, v: Json, us: seq<Json>, w: Json)
    ensures Same(Document(ts, v), Document(us, w), false) <==> Same(Arr(ts), Arr(us), false) && Same(v, w, false)
  {
    hide Same;
    var f, g := Document(ts, v).fields, Document(us, w).fields;
    NotOrdered("tools");
    NotOrdered("verification");
    FieldsSame(f, g);
    assert f.Keys == {"tools", "verification"} && f["tools"] == Arr(ts) && f["verification"] == v;
    assert g["tools"] == Arr(us) && g["verification"] == w;
  }

  lemma DocumentsAgree(rs: seq<ToolResult>, v: Verification, ss: seq<ToolResult>, w: Verification)
    requires Comparable(AllEntries(rs), v) && Comparable(AllEntries(ss), w)
    ensures Same(StateDocument(rs, v), StateDocument(ss, w), false) <==> StatesAgree(rs, v, ss, w)
  {
    hide Same, AllEntries, DistinctIds, AllKnown, AllRelatedKnown, Keys, IssuesData, ToolsData, AllIdsAgree,
         AllResultsAgree, AllIssuesAgree, AllQuestionsAgree, Document, VerificationData;
    var es, gs := AllEntries(rs), AllEntries(ss);
    var xs, ys := IssuesData(es, v.issues), IssuesData(gs, w.issues);
    var cs, ds := Keys(es, v.checked), Keys(gs, w.checked);
    DocumentsExactly(ToolsData(rs), VerificationData(v, xs, cs), ToolsData(ss), VerificationData(w, ys, ds));
    ToolsExactly(rs, ss);
    VerificationDataExactly(v, xs, cs, w, ys, ds);
    ReferencesExactly(rs, v.checked, ss, w.checked);
    IssueListsExactly(rs, v.issues, ss, w.issues);
  }

  /** A state has a snapshot exactly when its finding ids are unambiguous, and two states share it exactly when they say
      the same: nothing but list order, ids and metadata differs. */
  lemma SnapshotsAgreeExactly(rs: seq<ToolResult>, v: Verification, ss: seq<ToolResult>, w: Verification)
    ensures Snapshot(rs, v).Some? <==> Unambiguous(rs, v)
    ensures Snapshot(rs, v).Some? && Snapshot(rs, v) == Snapshot(ss, w) <==>
            Unambiguous(rs, v) && Unambiguous(ss, w) && StatesAgree(rs, v, ss, w)
  {
    hide Comparable, Unambiguous, StatesAgree, StateDocument, CanonicalText, Same;
    ComparableExactly(rs, v);
    ComparableExactly(ss, w);
    if Comparable(AllEntries(rs), v) && Comparable(AllEntries(ss), w) {
      SnapshotsExactly(rs, v, ss, w);
      DocumentsAgree(rs, v, ss, w);
    }
  }

  // ---------- the test on any two states ----------

  /** `l` is the only result of the tool, `a` its last entry in the history; both are selected executions, successful or
      partial, without an error and with a detail and findings; they carry the same id, not empty, and the same round. */
  ghost predicate Ran(state: SelectionResult, t: ToolName, l: ToolResult, a: ToolResult) {
    && OnlyOne(state.results, t, l) && LastOne(state.history, t, a)
    && CameToJudgement(l) && CameToJudgement(a)
    && a.execution.id == l.execution.id != None && a.execution.id != Some("") && a.execution.round == l.execution.round
  }

  predicate CameToJudgement(r: ToolResult) {
    && r.selected && (r.status == Success || r.status == Partial)
    && r.error == None && r.result != None && r.findings != []
  }

  lemma {:induction false} ResultsOfLast(rs: seq<ToolResult>, t: ToolName, a: ToolResult)
    ensures var h := ResultsOf(rs, t);
      (h != [] && h[|h| - 1] == a) <==> LastOne(rs, t, a)
  {
    if rs != [] {
      var n := |rs| - 1;
      ResultsOfLast(rs[..n], t, a);
      if rs[n].tool == t {
        if rs[n] == a {
          assert rs[n] == a;
        }
      } else {
        assert forall m :: 0 <= m < n ==> rs[..n][m] == rs[m];
      }
    }
  }

  lemma {:induction false} ResultsOfEmpty(rs: seq<ToolResult>, t: ToolName)
    ensures ResultsOf(rs, t) == [] <==> forall j :: 0 <= j < |rs| ==> rs[j].tool != t
  {
    if rs != [] {
      ResultsOfEmpty(rs[..|rs| - 1], t);
    }
  }

  /** The result is the only one of the tool. */
  ghost predicate OnlyOne(rs: seq<ToolResult>, t: ToolName, l: ToolResult) {
    exists i :: 0 <= i < |rs| && rs[i] == l && l.tool == t && forall j :: 0 <= j < |rs| && j != i ==> rs[j].tool != t
  }

  lemma {:induction false} ResultsOfSingle(rs: seq<ToolResult>, t: ToolName, l: ToolResult)
    ensures ResultsOf(rs, t) == [l] <==> OnlyOne(rs, t, l)
  {
    if rs != [] {
      var n := |rs| - 1;
      var init := rs[..n];
      ResultsOfSingle(init, t, l);
      ResultsOfEmpty(init, t);
      assert forall j :: 0 <= j < n ==> init[j] == rs[j];
      assert [] + [rs[n]] == [rs[n]];
      if rs[n].tool != t {
        OnlyBefore(rs, t, l);
      } else if ResultsOf(rs, t) == [l] {
        assert |ResultsOf(init, t)| == 0 && ResultsOf(rs, t)[0] == rs[n];
        assert rs[n] == l && forall j :: 0 <= j < |rs| && j != n ==> rs[j].tool != t;
      }
    }
  }

  lemma OnlyBefore(rs: seq<ToolResult>, t: ToolName, l: ToolResult)
    requires rs != [] && rs[|rs| - 1].tool != t
    ensures OnlyOne(rs, t, l) <==> OnlyOne(rs[..|rs| - 1], t, l)
  {
    var init := rs[..|rs| - 1];
    assert forall j :: 0 <= j < |init| ==> init[j] == rs[j];
    if i :| 0 <= i < |init| && init[i] == l && l.tool == t && forall j :: 0 <= j < |init| && j != i ==> init[j].tool != t {
      assert rs[i] == l && forall j :: 0 <= j < |rs| && j != i ==> rs[j].tool != t;
    }
    if i :| 0 <= i < |rs| && rs[i] == l && l.tool == t && forall j :: 0 <= j < |rs| && j != i ==> rs[j].tool != t {
      assert init[i] == l && forall j :: 0 <= j < |init| && j != i ==> init[j].tool != t;
    }
  }

  /** The result is the last one of the tool. */
  ghost predicate LastOne(rs: seq<ToolResult>, t: ToolName, a: ToolResult) {
    exists m :: 0 <= m < |rs| && rs[m] == a && a.tool == t && forall j :: m < j < |rs| ==> rs[j].tool != t
  }

  lemma RecordIsRan(state: SelectionResult, t: ToolName, a: ToolResult)
    ensures NormalExecutionRecord(state, t) == Some(a) <==> exists l :: Ran(state, t, l, a)
  {
    hide OnlyOne, LastOne;
    ResultsOfLast(state.history, t, a);
    var latest := ResultsOf(state.results, t);
    if |latest| == 1 {
      ResultsOfSingle(state.results, t, latest[0]);
      assert latest == [latest[0]];
    }
    forall l ensures latest == [l] <==> OnlyOne(state.results, t, l) {
      ResultsOfSingle(state.results, t, l);
    }
    if NormalExecutionRecord(state, t) == Some(a) {
      assert Ran(state, t, latest[0], a);
    }
    if l :| Ran(state, t, l, a) {
      assert latest == [l];
    }
  }

  /** Both states hold a run of the tool, the current one made in this round and the previous one earlier. */
  ghost predicate RanAgain(previous: SelectionResult, current: SelectionResult, t: ToolName, round: int) {
    exists l, a, m, b ::
      Ran(previous, t, l, a) && Ran(current, t, m, b) && a.execution.round < round && b.execution.round == round
  }

  lemma AgainIsRan(previous: SelectionResult, current: SelectionResult, t: ToolName, round: int)
    ensures ExecutedAgain(previous, current, t, round) <==> RanAgain(previous, current, t, round)
  {
    hide Ran, NormalExecutionRecord;
    forall a ensures NormalExecutionRecord(previous, t) == Some(a) <==> exists l :: Ran(previous, t, l, a) {
      RecordIsRan(previous, t, a);
    }
    forall b ensures NormalExecutionRecord(current, t) == Some(b) <==> exists m :: Ran(current, t, m, b) {
      RecordIsRan(current, t, b);
    }
    var before, after := NormalExecutionRecord(previous, t), NormalExecutionRecord(current, t);
    if ExecutedAgain(previous, current, t, round) {
      assert before == Some(before.value) && after == Some(after.value);
      var l :| Ran(previous, t, l, before.value);
      var m :| Ran(current, t, m, after.value);
    }
    if l, a, m, b :|
      Ran(previous, t, l, a) && Ran(current, t, m, b) && a.execution.round < round && b.execution.round == round {
      assert before == Some(a) && after == Some(b);
    }
  }

  /** The test on any two states: both verdicts ask for tools, the executed tools are those the first verdict names, none
      twice, each ran before and in this round, and the states say the same. */
  lemma UnimprovedExactly(previous: SelectionResult, before: Verification, current: SelectionResult, after: Verification,
      executed: seq<ToolName>, round: int)
    ensures Unimproved(previous, before, current, after, executed, round) <==>
      && before.status == ToolsRequired && after.status == ToolsRequired && round >= 1
      && executed != [] && Distinct(executed) && (forall t :: t in executed <==> t in before.additional)
      && (forall t :: t in executed ==> RanAgain(previous, current, t, round))
      && Unambiguous(previous.results, before) && Unambiguous(current.results, after)
      && StatesAgree(previous.results, before, current.results, after)
  {
    hide ExecutedAgain, RanAgain, Snapshot, Unambiguous, StatesAgree;
    SnapshotsAgreeExactly(previous.results, before, current.results, after);
    forall t ensures ExecutedAgain(previous, current, t, round) <==> RanAgain(previous, current, t, round) {
      AgainIsRan(previous, current, t, round);
    }
  }
}
