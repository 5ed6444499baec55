/** Answers written into the product, and what is asked again in later rounds (ai/app/diagnosis/answers.py, job.py). */
module Interview {
  import opened Common
  import opened Domain
  import opened Schemas
  import opened Text
  import opened Sessions
  import opened Questions

  // ---------- answer lines ----------

  const ANSWER_PREFIX := "[사용자 답변]"

  function AnswerLine(question: string, answer: string): string {
    ANSWER_PREFIX + " " + question + ARROW + Strip(answer)
  }

  predicate IsAnswerLine(line: string) {
    ANSWER_PREFIX <= line
  }

  /** The question a later run reads off an answer line. */
  function QuestionOf(line: string): string
    requires IsAnswerLine(line)
  {
    Strip(BeforeArrow(line[|ANSWER_PREFIX|..]))
  }

  /** An answer line gives its question back exactly when the question, between blanks, has no arrow. */
  lemma LineParsesBack(question: string, answer: string)
    requires Stripped(question) && question != ""
    ensures IsAnswerLine(AnswerLine(question, answer))
    ensures QuestionOf(AnswerLine(question, answer)) == question <==> !HasArrow(" " + question + " ")
  {
    var line, x := AnswerLine(question, answer), " " + question;
    assert line == ANSWER_PREFIX + (x + ARROW + Strip(answer));
    assert line[|ANSWER_PREFIX|..] == x + ARROW + Strip(answer);
    BeforeArrowExactly(x, Strip(answer));
    StrippedStays(question);
    StripIsStripped(BeforeArrow(x + ARROW + Strip(answer)));
  }

  /** The dict of the questions of a round, by key. */
  function AskedText(built: seq<Question>, key: string): Option<string> {
    if built == [] then None
    else if built[|built| - 1].key == key then Some(built[|built| - 1].text)
    else AskedText(built[..|built| - 1], key)
  }

  function LastRound(answers: seq<Answer>): nat {
    if answers == [] then 0
    else
      var before, last := LastRound(answers[..|answers| - 1]), answers[|answers| - 1].round;
      if before < last then last else before
  }

  /** `_next_round` */
  function NextRound(answers: seq<Answer>): nat {
    LastRound(answers) + 1
  }

  function LineOf(built: seq<Question>, a: Answer): string {
    var text := AskedText(built, a.key);
    AnswerLine(if text.Some? then text.value else a.key, a.text)
  }

  function LinesOf(built: seq<Question>, answers: seq<Answer>, round: nat): seq<string> {
    if answers == [] then []
    else
      var before, last := LinesOf(built, answers[..|answers| - 1], round), answers[|answers| - 1];
      if last.round == round then before + [LineOf(built, last)] else before
  }

  /** `with_answers`: the listing text with the answers of the last round, their questions found by rebuilding them. */
  function WithAnswers(listing: seq<string>, previous: Option<seq<FollowUp>>, answers: seq<Answer>): seq<string> {
    if previous.None? || answers == [] then listing
    else
      var latest := LastRound(answers);
      listing + LinesOf(BuildQuestions(previous.value, latest), answers, latest)
  }

  lemma {:induction false} AskedTextAt(built: seq<Question>, i: nat)
    requires i < |built| && forall j, k :: 0 <= j < k < |built| ==> built[j].key != built[k].key
    ensures AskedText(built, built[i].key) == Some(built[i].text)
  {
    if i < |built| - 1 {
      AskedTextAt(built[..|built| - 1], i);
    }
  }

  lemma {:induction false} LineIsThere(built: seq<Question>, answers: seq<Answer>, round: nat, a: Answer)
    requires a in answers && a.round == round
    ensures LineOf(built, a) in LinesOf(built, answers, round)
  {
    var before, last := answers[..|answers| - 1], answers[|answers| - 1];
    assert answers == before + [last];
    if a != last {
      LineIsThere(built, before, round, a);
    }
  }

  /** Rebuilding the questions from the report before finds the text an answer belongs to, whatever the round. */
  lemma AnswerFindsItsQuestion(qs: seq<FollowUp>, round: nat, j: nat, a: Answer)
    requires j < |BuildQuestions(qs, round)| && a.key == BuildQuestions(qs, round)[j].key
    ensures LineOf(BuildQuestions(qs, round), a) == AnswerLine(BuildQuestions(qs, round)[j].text, a.text)
  {
    hide BuildQuestions, AnswerLine;
    QuestionsOfRound(qs, round);
    AskedTextAt(BuildQuestions(qs, round), j);
  }

  // ---------- asking for missing information ----------

  /** What one diagnosis run leaves of interest here: the listing text of its product, the tool results, the questions
      and how it ended. */
  datatype Report = Report(
    listing: seq<string>, results: seq<ToolResult>, questions: seq<FollowUp>, reason: EndReason, verified: bool)

  datatype Mention = Mention(tool: ToolName, text: string)

  function MentionsIn(r: ToolResult): seq<Mention> {
    seq(|r.missing|, i requires 0 <= i < |r.missing| => Mention(r.tool, Strip(r.missing[i])))
  }

  function Mentions(rs: seq<ToolResult>): seq<Mention> {
    if rs == [] then [] else Mentions(rs[..|rs| - 1]) + MentionsIn(rs[|rs| - 1])
  }

  /** A question to be added, with the tools that need its answer. */
  datatype Wanted = Wanted(text: string, tools: seq<ToolName>)

  /** Adds a mention to the ordered dict of added questions. */
  function Want(wanted: seq<Wanted>, m: Mention): seq<Wanted> {
    if wanted == [] then [Wanted(m.text, [m.tool])]
    else if wanted[0].text != m.text then [wanted[0]] + Want(wanted[1..], m)
    else if m.tool in wanted[0].tools then wanted
    else [wanted[0].(tools := wanted[0].tools + [m.tool])] + wanted[1..]
  }

  function WantAll(ms: seq<Mention>, known: set<string>): seq<Wanted> {
    if ms == [] then []
    else
      var before, m := WantAll(ms[..|ms| - 1], known), ms[|ms| - 1];
      if m.text == "" || m.text in known then before else Want(before, m)
  }

  function Label(t: ToolName): string {
    match t
    case Customs => "통관"
    case Radio => "전파"
    case FoodDrug => "식품·의약품"
    case Electrical => "전기용품"
    case Children => "어린이제품"
    case LabelAd => "표시·광고"
  }

  function Labels(ts: seq<ToolName>): string {
    if ts == [] then "" else if |ts| == 1 then Label(ts[0]) else Label(ts[0]) + ", " + Labels(ts[1..])
  }

  /** The follow-up question for a wanted text; its id is generated. */
  function QuestionFor(w: Wanted, id: string): FollowUp {
    FollowUp(id, w.text, Labels(w.tools) + " 판단에 필요한 정보예요.", w.tools, true)
  }

  function AskedBefore(previous: Option<Report>): set<string> {
    match previous
    case None => {}
    case Some(r) =>
      (set q | q in r.questions :: TextOf(q)) + (set line | line in r.listing && IsAnswerLine(line) :: QuestionOf(line))
  }

  function TextSet(qs: seq<FollowUp>): set<string> {
    set q | q in qs :: TextOf(q)
  }

  function NewQuestions(wanted: seq<Wanted>, ids: nat -> string): seq<FollowUp> {
    seq(|wanted|, i requires 0 <= i < |wanted| => QuestionFor(wanted[i], ids(i)))
  }

  /** What the run still has to ask: the missing information neither asked before nor asked already. */
  function Missing(report: Report, previous: Option<Report>): seq<Wanted> {
    WantAll(Mentions(report.results), AskedBefore(previous) + TextSet(report.questions))
  }

  /** The report with the questions for missing information; one that has none stays as it is. */
  function Asking(report: Report, previous: Option<Report>, ids: nat -> string): Report {
    var wanted := Missing(report, previous);
    if wanted == [] then report
    else report.(reason := EndReason.UserInputRequired, verified := false,
                 questions := report.questions + NewQuestions(wanted, ids))
  }

  /** `_ask_missing_information` */
  method AskMissingInformation(report: Report, previous: Option<Report>, ids: nat -> string) returns (asking: Report)
    ensures asking == Asking(report, previous, ids)
  {
    var known := AskedBefore(previous) + TextSet(report.questions);
    var wanted: seq<Wanted> := [];
    for i := 0 to |report.results|
      invariant wanted == WantAll(Mentions(report.results[..i]), known)
    {
      var r := report.results[i];
      ghost var before := Mentions(report.results[..i]);
      assert before + MentionsIn(r)[..0] == before;
      for k := 0 to |r.missing|
        invariant wanted == WantAll(before + MentionsIn(r)[..k], known)
      {
        var text := Strip(r.missing[k]);
        Snoc(before, MentionsIn(r), k);
        assert (before + MentionsIn(r)[..k + 1])[..|before| + k] == before + MentionsIn(r)[..k];
        if text != "" && text !in known {
          wanted := Want(wanted, Mention(r.tool, text));
        }
      }
      assert MentionsIn(r)[..|r.missing|] == MentionsIn(r);
      assert report.results[..i + 1][..i] == report.results[..i];
    }
    assert report.results[..|report.results|] == report.results;
    if wanted == [] {
      return report;
    }
    asking := report.(reason := EndReason.UserInputRequired, verified := false,
                      questions := report.questions + NewQuestions(wanted, ids));
  }

  // ---------- what is asked ----------

  predicate WantsText(wanted: seq<Wanted>, t: string) {
    exists i :: 0 <= i < |wanted| && wanted[i].text == t
  }

  predicate WantsFor(wanted: seq<Wanted>, t: string, tool: ToolName) {
    exists i :: 0 <= i < |wanted| && wanted[i].text == t && tool in wanted[i].tools
  }

  ghost predicate DistinctTexts(wanted: seq<Wanted>) {
    forall i, j :: 0 <= i < j < |wanted| ==> wanted[i].text != wanted[j].text
  }

  lemma WantsHead(w: Wanted, rest: seq<Wanted>)
    ensures forall t :: WantsText([w] + rest, t) <==> t == w.text || WantsText(rest, t)
    ensures forall t, u :: WantsFor([w] + rest, t, u) <==> (t == w.text && u in w.tools) || WantsFor(rest, t, u)
    ensures DistinctTexts([w] + rest) <==> DistinctTexts(rest) && !WantsText(rest, w.text)
  {
    var all := [w] + rest;
    forall t ensures WantsText(all, t) <==> t == w.text || WantsText(rest, t) {
      if i :| 0 <= i < |rest| && rest[i].text == t {
        assert all[i + 1].text == t;
      }
      assert all[0].text == w.text;
    }
    forall t, u ensures WantsFor(all, t, u) <==> (t == w.text && u in w.tools) || WantsFor(rest, t, u) {
      if i :| 0 <= i < |rest| && rest[i].text == t && u in rest[i].tools {
        assert all[i + 1].text == t && u in all[i + 1].tools;
      }
      assert all[0].text == w.text;
    }
    if DistinctTexts(all) {
      forall i | 0 <= i < |rest| ensures rest[i].text != w.text {
        assert all[0].text != all[i + 1].text;
      }
      forall i, j | 0 <= i < j < |rest| ensures rest[i].text != rest[j].text {
        assert all[i + 1].text != all[j + 1].text;
      }
    }
  }

  /** A mention adds its text and its tool, and nothing else. */
  lemma {:induction false} WantExactly(wanted: seq<Wanted>, m: Mention)
    requires DistinctTexts(wanted)
    ensures DistinctTexts(Want(wanted, m))
    ensures forall t :: WantsText(Want(wanted, m), t) <==> t == m.text || WantsText(wanted, t)
    ensures forall t, u :: WantsFor(Want(wanted, m), t, u) <==> (t == m.text && u == m.tool) || WantsFor(wanted, t, u)
  {
    hide WantsText, WantsFor, DistinctTexts;
    if wanted == [] {
      WantsNothing();
      WantsHead(Wanted(m.text, [m.tool]), []);
      assert [Wanted(m.text, [m.tool])] + [] == [Wanted(m.text, [m.tool])];
    } else {
      var w, rest := wanted[0], wanted[1..];
      assert wanted == [w] + rest;
      WantsHead(w, rest);
      if w.text != m.text {
        WantExactly(rest, m);
        WantsHead(w, Want(rest, m));
      } else if m.tool !in w.tools {
        WantsHead(w.(tools := w.tools + [m.tool]), rest);
      }
    }
  }

  lemma WantsNothing()
    ensures DistinctTexts([]) && (forall t :: !WantsText([], t)) && forall t, u :: !WantsFor([], t, u)
  {
  }

  /** The added questions: each missing text that is not blank and not known, once, for exactly the tools that miss it. */
  lemma {:induction false} WantedExactly(ms: seq<Mention>, known: set<string>)
    ensures var wanted := WantAll(ms, known);
      && DistinctTexts(wanted)
      && (forall t :: WantsText(wanted, t) <==> t != "" && t !in known && exists m :: m in ms && m.text == t)
      && forall t, u :: WantsFor(wanted, t, u) <==> t != "" && t !in known && Mention(u, t) in ms
  {
    hide WantsText, WantsFor, DistinctTexts;
    if ms == [] {
      WantsNothing();
    } else {
      var before, m := ms[..|ms| - 1], ms[|ms| - 1];
      assert ms == before + [m];
      WantedExactly(before, known);
      WantExactly(WantAll(before, known), m);
    }
  }

  function TextsWanted(wanted: seq<Wanted>): seq<string> {
    seq(|wanted|, i requires 0 <= i < |wanted| => wanted[i].text)
  }

  /** The tools a text is wanted for. */
  function ToolsWanted(wanted: seq<Wanted>, t: string): seq<ToolName> {
    if wanted == [] then [] else if wanted[0].text == t then wanted[0].tools else ToolsWanted(wanted[1..], t)
  }

  lemma TextsOfHead(w: Wanted, rest: seq<Wanted>)
    ensures TextsWanted([w] + rest) == [w.text] + TextsWanted(rest)
  {
  }

  lemma {:induction false} WantInOrder(wanted: seq<Wanted>, m: Mention, t: string)
    ensures TextsWanted(Want(wanted, m)) ==
            if m.text in TextsWanted(wanted) then TextsWanted(wanted) else TextsWanted(wanted) + [m.text]
    ensures ToolsWanted(Want(wanted, m), t) ==
            if m.text != t || m.tool in ToolsWanted(wanted, t) then ToolsWanted(wanted, t)
            else ToolsWanted(wanted, t) + [m.tool]
  {
    if wanted == [] {
      assert TextsWanted([Wanted(m.text, [m.tool])]) == [m.text];
    } else {
      var w, rest := wanted[0], wanted[1..];
      assert wanted == [w] + rest;
      TextsOfHead(w, rest);
      if w.text != m.text {
        WantInOrder(rest, m, t);
        TextsOfHead(w, Want(rest, m));
      } else if m.tool !in w.tools {
        TextsOfHead(w.(tools := w.tools + [m.tool]), rest);
      }
    }
  }

  function TextsOfMentions(ms: seq<Mention>): seq<string> {
    seq(|ms|, i requires 0 <= i < |ms| => ms[i].text)
  }

  function ToolsOfMentions(ms: seq<Mention>): seq<ToolName> {
    seq(|ms|, i requires 0 <= i < |ms| => ms[i].tool)
  }

  /** The mentions whose text is neither blank nor known. */
  function Kept(ms: seq<Mention>, known: set<string>): seq<Mention> {
    Filter(ms, (m: Mention) => m.text != "" && m.text !in known)
  }

  function Of(ms: seq<Mention>, t: string): seq<Mention> {
    Filter(ms, (m: Mention) => m.text == t)
  }

  /** The wanted texts stand in the order in which they are first missed, and the tools of each in the order in which
      they first miss it. */
  lemma {:induction false} WantedInOrder(ms: seq<Mention>, known: set<string>, t: string)
    ensures TextsWanted(WantAll(ms, known)) == Firsts(TextsOfMentions(Kept(ms, known)))
    ensures ToolsWanted(WantAll(ms, known), t) == Firsts(ToolsOfMentions(Of(Kept(ms, known), t)))
  {
    if ms != [] {
      hide Kept, Of, TextsOfMentions, ToolsOfMentions, TextsWanted;
      var before, m := ms[..|ms| - 1], ms[|ms| - 1];
      assert ms == before + [m];
      WantedInOrder(before, known, t);
      KeptMore(before, m, known);
      if m.text != "" && m.text !in known {
        WantInOrder(WantAll(before, known), m, t);
        TextsMore(Kept(before, known), m);
        ToolsMore(Kept(before, known), m, t);
      }
    }
  }

  lemma KeptMore(before: seq<Mention>, m: Mention, known: set<string>)
    ensures Kept(before + [m], known) == if m.text == "" || m.text in known then Kept(before, known) else Kept(before, known) + [m]
  {
    FilterSnoc(before, m, (m: Mention) => m.text != "" && m.text !in known);
  }

  lemma TextsMore(kept: seq<Mention>, m: Mention)
    ensures var texts := Firsts(TextsOfMentions(kept));
      Firsts(TextsOfMentions(kept + [m])) == if m.text in texts then texts else texts + [m.text]
  {
    assert TextsOfMentions(kept + [m]) == TextsOfMentions(kept) + [m.text];
    FirstsMore(TextsOfMentions(kept), m.text);
  }

  lemma ToolsMore(kept: seq<Mention>, m: Mention, t: string)
    ensures var tools := Firsts(ToolsOfMentions(Of(kept, t)));
      Firsts(ToolsOfMentions(Of(kept + [m], t))) == if m.text != t || m.tool in tools then tools else tools + [m.tool]
  {
    FilterSnoc(kept, m, (m: Mention) => m.text == t);
    if m.text == t {
      assert ToolsOfMentions(Of(kept, t) + [m]) == ToolsOfMentions(Of(kept, t)) + [m.tool];
      FirstsMore(ToolsOfMentions(Of(kept, t)), m.tool);
    }
  }

  /** The tool misses the text. */
  ghost predicate Misses(rs: seq<ToolResult>, tool: ToolName, text: string) {
    exists i, k :: 0 <= i < |rs| && rs[i].tool == tool && 0 <= k < |rs[i].missing| && Strip(rs[i].missing[k]) == text
  }

  lemma {:induction false} MentionsExactly(rs: seq<ToolResult>, m: Mention)
    ensures m in Mentions(rs) <==> Misses(rs, m.tool, m.text)
  {
    hide Strip;
    if rs != [] {
      var before, r := rs[..|rs| - 1], rs[|rs| - 1];
      MentionsExactly(before, m);
      if m in MentionsIn(r) {
        var k :| 0 <= k < |r.missing| && MentionsIn(r)[k] == m;
        assert rs[|rs| - 1].tool == m.tool && Strip(rs[|rs| - 1].missing[k]) == m.text;
      }
      if i, k :| 0 <= i < |before| && before[i].tool == m.tool && 0 <= k < |before[i].missing|
                 && Strip(before[i].missing[k]) == m.text {
        assert rs[i].tool == m.tool && Strip(rs[i].missing[k]) == m.text;
      }
      if i, k :| 0 <= i < |rs| && rs[i].tool == m.tool && 0 <= k < |rs[i].missing| && Strip(rs[i].missing[k]) == m.text {
        if i == |rs| - 1 {
          assert MentionsIn(r)[k] == m;
        } else {
          assert before[i].tool == m.tool && Strip(before[i].missing[k]) == m.text;
        }
      }
    }
  }

  lemma {:induction false} MentionsStripped(rs: seq<ToolResult>, m: Mention)
    requires m in Mentions(rs)
    ensures Stripped(m.text)
  {
    var before, r := rs[..|rs| - 1], rs[|rs| - 1];
    if m in Mentions(before) {
      MentionsStripped(before, m);
    } else {
      var i :| 0 <= i < |r.missing| && MentionsIn(r)[i] == m;
      StripIsStripped(r.missing[i]);
    }
  }

  /** The questions a report adds carry the wanted texts, in their order. */
  lemma AddedQuestions(report: Report, previous: Option<Report>, ids: nat -> string, k: nat)
    requires k < |Missing(report, previous)|
    ensures var qs, n := Asking(report, previous, ids).questions, |report.questions|;
      |qs| == n + |Missing(report, previous)| && TextOf(qs[n + k]) == Missing(report, previous)[k].text
  {
    hide AskedBefore, TextSet, Mentions, WantAll, TextOf;
    var known, ms := AskedBefore(previous) + TextSet(report.questions), Mentions(report.results);
    var wanted := WantAll(ms, known);
    WantedExactly(ms, known);
    assert WantsText(wanted, wanted[k].text);
    var m :| m in ms && m.text == wanted[k].text;
    MentionsStripped(report.results, m);
    AddedText(wanted[k], ids(k));
  }

  lemma AddedText(w: Wanted, id: string)
    requires Stripped(w.text)
    ensures TextOf(QuestionFor(w, id)) == w.text
  {
    StrippedStays(w.text);
  }

  lemma MissedExactly(rs: seq<ToolResult>, text: string)
    ensures (exists m :: m in Mentions(rs) && m.text == text) <==> exists tool :: Misses(rs, tool, text)
  {
    hide Misses, Mentions;
    forall m ensures m in Mentions(rs) <==> Misses(rs, m.tool, m.text) {
      MentionsExactly(rs, m);
    }
    if tool :| Misses(rs, tool, text) {
      assert Mention(tool, text) in Mentions(rs);
    }
  }

  /** Asking ends the run waiting for the seller, and leaves it as it was when nothing is missing. Each added question is
      required and names exactly the tools that miss its text. */
  lemma AskingEnds(report: Report, previous: Option<Report>, ids: nat -> string, i: nat)
    requires |report.questions| <= i < |Asking(report, previous, ids).questions|
    ensures var asking, n := Asking(report, previous, ids), |report.questions|;
      && asking.listing == report.listing && asking.results == report.results
      && report.questions <= asking.questions
      && asking.reason == EndReason.UserInputRequired && !asking.verified
      && asking.questions[i].required && asking.questions[i].id == ids(i - n)
      && forall tool :: tool in asking.questions[i].tools <==> Misses(report.results, tool, asking.questions[i].question)
  {
    hide AskedBefore, TextSet, Mentions, WantAll, Misses, WantsFor, WantsText, DistinctTexts;
    var known, ms := AskedBefore(previous) + TextSet(report.questions), Mentions(report.results);
    var wanted, k := WantAll(ms, known), i - |report.questions|;
    WantedExactly(ms, known);
    assert Asking(report, previous, ids).questions[i] == QuestionFor(wanted[k], ids(k));
    forall tool ensures tool in wanted[k].tools <==> Misses(report.results, tool, wanted[k].text) {
      ToolsOfWanted(wanted, k, tool);
      MentionsExactly(report.results, Mention(tool, wanted[k].text));
    }
  }

  lemma ToolsOfWanted(wanted: seq<Wanted>, k: nat, tool: ToolName)
    requires k < |wanted| && DistinctTexts(wanted)
    ensures tool in wanted[k].tools <==> WantsFor(wanted, wanted[k].text, tool)
    ensures WantsText(wanted, wanted[k].text)
  {
  }

  lemma AskingNothing(report: Report, previous: Option<Report>, ids: nat -> string)
    ensures |Asking(report, previous, ids).questions| == |report.questions| ==> Asking(report, previous, ids) == report
  {
    hide Missing;
  }

  /** The texts a report is asked for besides the verifier's questions: exactly the non-blank ones that a tool misses,
      that the verifier does not ask, and that the report before neither asked nor gives back from an answer line. */
  lemma AddsExactly(report: Report, previous: Option<Report>, ids: nat -> string, text: string)
    ensures var qs := Asking(report, previous, ids).questions;
      (exists i :: |report.questions| <= i < |qs| && TextOf(qs[i]) == text) <==>
      && text != ""
      && (exists tool :: Misses(report.results, tool, text))
      && text !in TextSet(report.questions) && text !in AskedBefore(previous)
  {
    hide AskedBefore, TextSet, Mentions, WantAll, TextOf;
    var wanted, qs, n := Missing(report, previous), Asking(report, previous, ids).questions, |report.questions|;
    WantedExactly(Mentions(report.results), AskedBefore(previous) + TextSet(report.questions));
    assert wanted == [] ==> |qs| == n;
    MissedExactly(report.results, text);
    forall k | 0 <= k < |wanted| ensures |qs| == n + |wanted| && TextOf(qs[n + k]) == wanted[k].text {
      AddedQuestions(report, previous, ids, k);
    }
    if WantsText(wanted, text) {
      var k :| 0 <= k < |wanted| && wanted[k].text == text;
      assert TextOf(qs[n + k]) == text;
    }
    if i :| n <= i < |qs| && TextOf(qs[i]) == text {
      assert TextOf(qs[n + (i - n)]) == wanted[i - n].text;
      assert WantsText(wanted, text);
    }
  }

  // ---------- a diagnosis over several rounds ----------

  datatype Reply = Reply(key: string, text: string)

  /** A run: what the pipeline reports in it, the ids it generates for added questions, and the seller's replies. */
  datatype Turn = Turn(
    results: seq<ToolResult>, questions: seq<FollowUp>, reason: EndReason, verified: bool, ids: nat -> string, replies: seq<Reply>)

  function AnswersOf(replies: seq<Reply>, round: nat): seq<Answer> {
    seq(|replies|, i requires 0 <= i < |replies| => Answer(round, replies[i].key, replies[i].text))
  }

  /** The session's answers when run `n` starts: those of rounds 1 to n. */
  function AnswersBefore(turns: seq<Turn>, n: nat): seq<Answer>
    requires n <= |turns|
  {
    if n == 0 then [] else AnswersBefore(turns, n - 1) + AnswersOf(turns[n - 1].replies, n)
  }

  /** The report of run `n`: it goes on from the product of the run before, with the new answers written into it. */
  function ReportOf(listing: seq<string>, turns: seq<Turn>, n: nat): Report
    requires n < |turns|
  {
    if n == 0 then Asking(Plain(turns[0], listing), None, turns[0].ids)
    else
      var before := ReportOf(listing, turns, n - 1);
      Asking(Plain(turns[n], Continued(before, AnswersBefore(turns, n))), Some(before), turns[n].ids)
  }

  /** What the pipeline itself reports of a product with this listing text. */
  function Plain(t: Turn, listing: seq<string>): Report {
    Report(listing, t.results, t.questions, t.reason, t.verified)
  }

  function Continued(before: Report, answers: seq<Answer>): seq<string> {
    WithAnswers(before.listing, Some(before.questions), answers)
  }

  lemma {:induction false} RoundsAppend(a: seq<Answer>, replies: seq<Reply>, round: nat)
    requires LastRound(a) < round
    ensures LastRound(a + AnswersOf(replies, round)) == if replies == [] then LastRound(a) else round
  {
    if replies == [] {
      assert a + AnswersOf(replies, round) == a;
    } else {
      var n := |replies| - 1;
      var all := a + AnswersOf(replies, round);
      RoundsAppend(a, replies[..n], round);
      assert all[..|all| - 1] == a + AnswersOf(replies[..n], round);
    }
  }

  /** Every round was answered, so the last answered round is the number of the round: the next question round is new. */
  lemma {:induction false} RoundsCount(turns: seq<Turn>, n: nat)
    requires n <= |turns| && forall i :: 0 <= i < n ==> turns[i].replies != []
    ensures LastRound(AnswersBefore(turns, n)) == n && NextRound(AnswersBefore(turns, n)) == n + 1
  {
    hide AnswersOf;
    if n > 0 {
      RoundsCount(turns, n - 1);
      RoundsAppend(AnswersBefore(turns, n - 1), turns[n - 1].replies, n);
    }
  }

  lemma ListingGoesOn(listing: seq<string>, turns: seq<Turn>, n: nat)
    requires 0 < n < |turns|
    ensures ReportOf(listing, turns, n).listing == Continued(ReportOf(listing, turns, n - 1), AnswersBefore(turns, n))
  {
    hide WithAnswers, Missing;
  }

  /** The line of a reply is in the product of every later run. */
  lemma {:induction false} LineStays(listing: seq<string>, turns: seq<Turn>, n: nat, i: nat, reply: Reply)
    requires i < n < |turns| && forall k :: 0 <= k < n ==> turns[k].replies != []
    requires reply in turns[i].replies
    ensures LineOf(BuildQuestions(ReportOf(listing, turns, i).questions, i + 1), Answer(i + 1, reply.key, reply.text))
      in ReportOf(listing, turns, n).listing
  {
    hide ReportOf, BuildQuestions, LineOf;
    ListingGoesOn(listing, turns, n);
    var before, answers := ReportOf(listing, turns, n - 1), AnswersBefore(turns, n);
    RoundsCount(turns, n);
    if i == n - 1 {
      var k :| 0 <= k < |turns[i].replies| && turns[i].replies[k] == reply;
      assert AnswersOf(turns[i].replies, n)[k] == Answer(n, reply.key, reply.text);
      LineIsThere(BuildQuestions(before.questions, n), answers, n, Answer(n, reply.key, reply.text));
    } else {
      LineStays(listing, turns, n - 1, i, reply);
    }
  }

  /** The line written for a reply: the text of the question with its key, or the key itself when no question has it. */
  ghost predicate LineFor(built: seq<Question>, reply: Reply, line: string) {
    && (forall j :: 0 <= j < |built| && built[j].key == reply.key ==>
          line == "[사용자 답변] " + built[j].text + " → " + Strip(reply.text))
    && ((forall j :: 0 <= j < |built| ==> built[j].key != reply.key) ==>
          line == "[사용자 답변] " + reply.key + " → " + Strip(reply.text))
  }

  lemma LineSpelled(question: string, answer: string)
    ensures AnswerLine(question, answer) == "[사용자 답변] " + question + " → " + Strip(answer)
  {
    assert ANSWER_PREFIX + " " == "[사용자 답변] ";
  }

  lemma {:induction false} NoText(built: seq<Question>, key: string)
    requires forall j :: 0 <= j < |built| ==> built[j].key != key
    ensures AskedText(built, key) == None
  {
    if built != [] {
      NoText(built[..|built| - 1], key);
    }
  }

  lemma ReplyLine(qs: seq<FollowUp>, round: nat, reply: Reply)
    ensures LineFor(BuildQuestions(qs, round), reply, LineOf(BuildQuestions(qs, round), Answer(round, reply.key, reply.text)))
  {
    hide BuildQuestions, AnswerLine, Strip;
    var built, a := BuildQuestions(qs, round), Answer(round, reply.key, reply.text);
    forall j | 0 <= j < |built| && built[j].key == reply.key
      ensures LineOf(built, a) == "[사용자 답변] " + built[j].text + " → " + Strip(reply.text)
    {
      AnswerFindsItsQuestion(qs, round, j, a);
      LineSpelled(built[j].text, reply.text);
    }
    if forall j :: 0 <= j < |built| ==> built[j].key != reply.key {
      NoText(built, reply.key);
      LineSpelled(reply.key, reply.text);
    }
  }

  /** The lines of a run's replies, in their order. */
  ghost predicate LinesFor(built: seq<Question>, replies: seq<Reply>, lines: seq<string>) {
    |lines| == |replies| && forall k :: 0 <= k < |replies| ==> LineFor(built, replies[k], lines[k])
  }

  lemma {:induction false} OldRounds(built: seq<Question>, answers: seq<Answer>, round: nat)
    requires LastRound(answers) < round
    ensures LinesOf(built, answers, round) == []
  {
    if answers != [] {
      OldRounds(built, answers[..|answers| - 1], round);
    }
  }

  lemma {:induction false} OwnLines(qs: seq<FollowUp>, before: seq<Answer>, replies: seq<Reply>, round: nat)
    requires LastRound(before) < round
    ensures LinesFor(BuildQuestions(qs, round), replies,
                     LinesOf(BuildQuestions(qs, round), before + AnswersOf(replies, round), round))
  {
    hide BuildQuestions, LineFor, LineOf;
    var built := BuildQuestions(qs, round);
    if replies == [] {
      assert before + AnswersOf(replies, round) == before;
      OldRounds(built, before, round);
    } else {
      var init, last := replies[..|replies| - 1], replies[|replies| - 1];
      var all := before + AnswersOf(replies, round);
      OwnLines(qs, before, init, round);
      assert all[..|all| - 1] == before + AnswersOf(init, round);
      ReplyLine(qs, round, last);
    }
  }

  lemma ContinuedBy(before: Report, earlier: seq<Answer>, replies: seq<Reply>, n: nat)
    requires LastRound(earlier) < n && replies != [] && LastRound(earlier + AnswersOf(replies, n)) == n
    ensures var now := Continued(before, earlier + AnswersOf(replies, n));
      before.listing <= now && LinesFor(BuildQuestions(before.questions, n), replies, now[|before.listing|..])
  {
    hide BuildQuestions, LinesFor, LastRound;
    OwnLines(before.questions, earlier, replies, n);
    var answers := earlier + AnswersOf(replies, n);
    var lines := LinesOf(BuildQuestions(before.questions, n), answers, n);
    assert answers != [] by {
      assert |answers| == |earlier| + |replies|;
    }
    assert Continued(before, answers) == before.listing + lines;
    assert (before.listing + lines)[|before.listing|..] == lines;
  }

  /** Every run but the first adds to the product of the run before exactly one line for every reply to it, in their order,
      with the text of the question replied to. */
  lemma AnswersAreWritten(listing: seq<string>, turns: seq<Turn>, n: nat)
    requires 0 < n < |turns| && forall k :: 0 <= k < n ==> turns[k].replies != []
    ensures var before, now := ReportOf(listing, turns, n - 1), ReportOf(listing, turns, n);
      && before.listing <= now.listing
      && LinesFor(BuildQuestions(before.questions, n), turns[n - 1].replies, now.listing[|before.listing|..])
  {
    hide LinesFor, Continued, LastRound, Asking;
    ListingGoesOn(listing, turns, n);
    RoundsCount(turns, n - 1);
    RoundsCount(turns, n);
    ContinuedBy(ReportOf(listing, turns, n - 1), AnswersBefore(turns, n - 1), turns[n - 1].replies, n);
  }

  /** The texts run `n` asks for on its own, besides the questions of the verifier. */
  predicate AsksAnew(listing: seq<string>, turns: seq<Turn>, n: nat, text: string)
    requires n < |turns|
  {
    var qs := ReportOf(listing, turns, n).questions;
    exists i :: |turns[n].questions| <= i < |qs| && TextOf(qs[i]) == text
  }

  /** What run `n` asks on its own: exactly the non-blank texts that a tool misses, that the verifier does not ask, and
      that the report before neither asked nor has an answer line for that gives them back. */
  lemma AskedAnewExactly(listing: seq<string>, turns: seq<Turn>, n: nat, text: string)
    requires 0 < n < |turns|
    ensures AsksAnew(listing, turns, n, text) <==>
      && text != ""
      && (exists tool :: Misses(turns[n].results, tool, text))
      && text !in TextSet(turns[n].questions)
      && text !in AskedBefore(Some(ReportOf(listing, turns, n - 1)))
  {
    hide AskedBefore, WithAnswers, Asking, Mentions, TextSet, WantAll, TextOf, WantsText;
    var before := ReportOf(listing, turns, n - 1);
    var report := Plain(turns[n], Continued(before, AnswersBefore(turns, n)));
    AddsExactly(report, Some(before), turns[n].ids, text);
  }

  lemma AskedIsText(qs: seq<FollowUp>, round: nat, j: nat)
    requires j < |BuildQuestions(qs, round)|
    ensures var q := BuildQuestions(qs, round)[j].text;
      Stripped(q) && q != "" && q in TextSet(qs)
  {
    var built := BuildQuestions(qs, round);
    QuestionsOfRound(qs, round);
    assert Asks(built, built[j].text);
    var k :| 0 <= k < |qs| && TextsOf(qs)[k] == built[j].text;
    StripIsStripped(qs[k].question);
  }

  /** The questions run `i` puts to the seller. */
  function Put(listing: seq<string>, turns: seq<Turn>, i: nat): seq<Question>
    requires i < |turns|
  {
    BuildQuestions(ReportOf(listing, turns, i).questions, i + 1)
  }

  /** Run `i` puts the question to the seller, who answers it. */
  predicate Answered(listing: seq<string>, turns: seq<Turn>, i: nat, text: string)
    requires i < |turns|
  {
    var built := Put(listing, turns, i);
    exists j, reply :: 0 <= j < |built| && reply in turns[i].replies && built[j].text == text && reply.key == built[j].key
  }

  /** A question that an earlier run put to the seller and the seller answered is never added again, unless it carries an
      arrow; the questions of the run just before are not added again in any case. */
  lemma NeverAskedAgain(listing: seq<string>, turns: seq<Turn>, n: nat, i: nat, text: string)
    requires i < n < |turns| && forall k :: 0 <= k < n ==> turns[k].replies != []
    requires (Answered(listing, turns, i, text) && !HasArrow(" " + text + " "))
             || (i == n - 1 && Asks(Put(listing, turns, i), text))
    ensures !AsksAnew(listing, turns, n, text)
  {
    hide ReportOf, AsksAnew, BuildQuestions, AnswerLine, HasArrow;
    var qs, built := ReportOf(listing, turns, i).questions, Put(listing, turns, i);
    var j :| 0 <= j < |built| && built[j].text == text
             && (i < n - 1 ==> exists reply :: reply in turns[i].replies && reply.key == built[j].key);
    AskedIsText(qs, i + 1, j);
    if i < n - 1 {
      var reply :| reply in turns[i].replies && reply.key == built[j].key;
      LineStays(listing, turns, n - 1, i, reply);
      AnswerFindsItsQuestion(qs, i + 1, j, Answer(i + 1, reply.key, reply.text));
      LineParsesBack(text, reply.text);
    }
    AskedAnewExactly(listing, turns, n, text);
  }

  // ---------- a question that comes back ----------

  /** A run in which one tool misses `text`, and the seller answers the first question of the round. */
  function MissingTurn(text: string, round: nat): Turn {
    var r := ToolResult(Radio, Success, true, Execution(None, 0, "", Json.Null, Json.Null, 0), None, [], [], [text], None);
    Turn([r], [], EndReason.Completed, true, (n: nat) => "", [Reply(QuestionKey(round, 1), "yes")])
  }

  lemma OneMention(text: string, round: nat)
    requires Stripped(text)
    ensures Mentions(MissingTurn(text, round).results) == [Mention(Radio, text)]
  {
    var rs := MissingTurn(text, round).results;
    assert rs[..0] == [] && Mentions([]) + MentionsIn(rs[0]) == MentionsIn(rs[0]);
    StrippedStays(text);
  }

  /** The report of such a run asks for the text alone, unless it is known. */
  lemma OneAdded(text: string, round: nat, listing: seq<string>, previous: Option<Report>)
    requires Stripped(text) && text != "" && text !in AskedBefore(previous)
    ensures Asking(Plain(MissingTurn(text, round), listing), previous, MissingTurn(text, round).ids).questions
         == [QuestionFor(Wanted(text, [Radio]), "")]
  {
    hide AskedBefore, Mentions;
    OneMention(text, round);
    var report := Plain(MissingTurn(text, round), listing);
    var known := AskedBefore(previous) + TextSet(report.questions);
    assert [Mention(Radio, text)][..0] == [] && WantAll([], known) == [];
    assert Missing(report, previous) == [Wanted(text, [Radio])];
    assert [] + NewQuestions([Wanted(text, [Radio])], MissingTurn(text, round).ids)
        == [QuestionFor(Wanted(text, [Radio]), "")];
  }

  lemma OneBuilt(q: FollowUp, round: nat)
    requires TextOf(q) != ""
    ensures BuildQuestions([q], round) == [Question(QuestionKey(round, 1), 1, TextOf(q), HelpOf(q))]
  {
    assert [q][..0] == [] && Unique([q]) == [q];
    assert [q][1..] == [] && WithRequired([], true) == WithRequired([], false) == [];
    assert WithRequired([q], q.required) == [q] && WithRequired([q], !q.required) == [];
    assert RequiredFirst([q]) == [q];
  }

  function ThreeTurns(q: string): seq<Turn> {
    [MissingTurn(q, 1), MissingTurn(q + "!", 2), MissingTurn(q, 3)]
  }

  lemma FirstReport(q: string)
    requires Stripped(q) && q != ""
    ensures var r := ReportOf([], ThreeTurns(q), 0); r.listing == [] && r.questions == [QuestionFor(Wanted(q, [Radio]), "")]
    ensures Put([], ThreeTurns(q), 0) == [Question(QuestionKey(1, 1), 1, q, HelpOf(QuestionFor(Wanted(q, [Radio]), "")))]
  {
    hide MissingTurn, Missing, BuildQuestions, QuestionFor, TextOf, Stripped, HelpOf;
    OneAdded(q, 1, [], None);
    AddedText(Wanted(q, [Radio]), "");
    OneBuilt(QuestionFor(Wanted(q, [Radio]), ""), 1);
  }

  lemma FirstAnswers(q: string)
    ensures AnswersBefore(ThreeTurns(q), 1) == [Answer(1, QuestionKey(1, 1), "yes")]
  {
    hide QuestionKey;
    assert [] + AnswersOf(ThreeTurns(q)[0].replies, 1) == [Answer(1, QuestionKey(1, 1), "yes")];
  }

  lemma SecondListing(q: string)
    requires Stripped(q) && q != ""
    ensures ReportOf([], ThreeTurns(q), 1).listing == [AnswerLine(q, "yes")]
  {
    hide MissingTurn, QuestionFor, BuildQuestions, AnswerLine, Stripped, QuestionKey, ReportOf, HelpOf;
    FirstReport(q);
    FirstAnswers(q);
    ListingGoesOn([], ThreeTurns(q), 1);
    var built, a := Put([], ThreeTurns(q), 0), Answer(1, QuestionKey(1, 1), "yes");
    assert [a][..0] == [] && LastRound([]) == 0 && LastRound([a]) == 1;
    assert LinesOf(built, [], 1) == [] && LineOf(built, a) == AnswerLine(q, "yes");
    assert LinesOf(built, [a], 1) == [AnswerLine(q, "yes")];
  }

  lemma SecondQuestions(q: string)
    requires Stripped(q) && q != ""
    ensures ReportOf([], ThreeTurns(q), 1).questions == [QuestionFor(Wanted(q + "!", [Radio]), "")]
  {
    hide QuestionFor, BuildQuestions, TextOf, HelpOf, WithAnswers, Missing;
    FirstReport(q);
    var before := ReportOf([], ThreeTurns(q), 0);
    AddedText(Wanted(q, [Radio]), "");
    assert AskedBefore(Some(before)) == {q};
    assert |q + "!"| != |q| && !IsSpace('!') && (q + "!")[0] == q[0];
    OneAdded(q + "!", 2, Continued(before, AnswersBefore(ThreeTurns(q), 1)), Some(before));
  }

  lemma Forgotten(q: string)
    requires Stripped(q) && q != "" && HasArrow(" " + q + " ")
    ensures q !in AskedBefore(Some(ReportOf([], ThreeTurns(q), 1)))
  {
    hide ReportOf, QuestionFor, TextOf, HasArrow, AnswerLine, QuestionOf;
    SecondListing(q);
    SecondQuestions(q);
    LineParsesBack(q, "yes");
    assert |q + "!"| != |q| && !IsSpace('!') && (q + "!")[0] == q[0];
    AddedText(Wanted(q + "!", [Radio]), "");
  }

  /** Every question with an arrow between blanks comes back: missing in run 0 and answered, something else missing in
      run 1, missing again in run 2 and asked anew. */
  lemma ArrowQuestionReturns(q: string)
    requires Stripped(q) && q != "" && HasArrow(" " + q + " ")
    ensures forall k :: 0 <= k < 3 ==> ThreeTurns(q)[k].replies != []
    ensures Answered([], ThreeTurns(q), 0, q) && AsksAnew([], ThreeTurns(q), 2, q)
  {
    hide ReportOf, HasArrow, Stripped, AskedBefore, Mentions, Misses, Put, AsksAnew, QuestionKey, HelpOf;
    FirstReport(q);
    var built, reply := Put([], ThreeTurns(q), 0), Reply(QuestionKey(1, 1), "yes");
    assert reply in ThreeTurns(q)[0].replies && built[0].text == q && built[0].key == reply.key;
    Forgotten(q);
    OneMention(q, 3);
    assert Mentions(ThreeTurns(q)[2].results)[0] == Mention(Radio, q);
    MentionsExactly(ThreeTurns(q)[2].results, Mention(Radio, q));
    AskedAnewExactly([], ThreeTurns(q), 2, q);
  }

  /** Run `i` puts the question and the seller answers it, and run `n`, after as many answered rounds, asks it anew. */
  predicate ComesBack(listing: seq<string>, turns: seq<Turn>, n: nat, i: nat, text: string) {
    && i < n < |turns| && (forall k :: 0 <= k < n ==> turns[k].replies != [])
    && Answered(listing, turns, i, text) && AsksAnew(listing, turns, n, text)
  }

  /** Some conversation asks an answered question anew exactly when the question, between blanks, has an arrow. */
  lemma ComesBackExactly(q: string)
    requires Stripped(q) && q != ""
    ensures (exists listing, turns, n, i :: ComesBack(listing, turns, n, i, q)) <==> HasArrow(" " + q + " ")
  {
    hide HasArrow, Answered, AsksAnew, Stripped;
    if HasArrow(" " + q + " ") {
      ArrowQuestionReturns(q);
      assert ComesBack([], ThreeTurns(q), 2, 0, q);
    } else if listing, turns, n: nat, i: nat :| ComesBack(listing, turns, n, i, q) {
      NeverAskedAgain(listing, turns, n, i, q);
    }
  }

  /** The question "a → b" comes back. */
  lemma ArrowExample()
    ensures ComesBack([], ThreeTurns("a → b"), 2, 0, "a → b")
  {
    assert ArrowAt(" a → b ", 2) && " " + "a → b" + " " == " a → b ";
    ArrowQuestionReturns("a → b");
  }
}
