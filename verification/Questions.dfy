/** Questions to the seller and their answers across diagnosis rounds (ai/app/diagnosis/questions.py, answers.py, job.py). */
module Questions {
  import opened Common
  import opened Domain
  import opened Schemas
  import opened Text
  import opened Sessions

  // ---------- keys ----------

  function QuestionKey(round: nat, order: nat): string {
    "r" + Decimal(round) + "_q" + Decimal(order)
  }

  lemma {:induction false} DigitsThenMark(a: string, r: string, b: string, s: string)
    requires forall i :: 0 <= i < |a| ==> IsDigit(a[i])
    requires forall i :: 0 <= i < |b| ==> IsDigit(b[i])
    requires a + "_" + r == b + "_" + s
    ensures a == b && r == s
  {
    var x, y := a + "_" + r, b + "_" + s;
    assert x[0] == (if a == "" then '_' else a[0]) && y[0] == (if b == "" then '_' else b[0]);
    assert x[1..] == (if a == "" then r else a[1..] + "_" + r) && y[1..] == (if b == "" then s else b[1..] + "_" + s);
    if a != "" && b != "" {
      DigitsThenMark(a[1..], r, b[1..], s);
      assert a == [a[0]] + a[1..] && b == [b[0]] + b[1..];
    }
  }

  /** A key names its round and its place: no key of one round comes back in another. */
  lemma KeysNeverRepeat(round: nat, order: nat, otherRound: nat, otherOrder: nat)
    requires QuestionKey(round, order) == QuestionKey(otherRound, otherOrder)
    ensures round == otherRound && order == otherOrder
  {
    DecimalDigits(round);
    DecimalDigits(otherRound);
    var a, b := Decimal(round), Decimal(otherRound);
    var r, s := "q" + Decimal(order), "q" + Decimal(otherOrder);
    assert QuestionKey(round, order) == "r" + (a + "_" + r);
    assert QuestionKey(otherRound, otherOrder) == "r" + (b + "_" + s);
    assert a + "_" + r == QuestionKey(round, order)[1..] && b + "_" + s == QuestionKey(otherRound, otherOrder)[1..];
    DigitsThenMark(a, r, b, s);
    DecimalInjective(round, otherRound);
    assert r[1..] == Decimal(order) && s[1..] == Decimal(otherOrder);
    DecimalInjective(order, otherOrder);
  }

  // ---------- building the questions of a round ----------

  function TextOf(q: FollowUp): string {
    Strip(q.question)
  }

  /** An entry of an ordered dict: the first question with a text gives the place, the last one the value. */
  function Enter(unique: seq<FollowUp>, q: FollowUp): seq<FollowUp> {
    if unique == [] then [q]
    else if TextOf(unique[0]) == TextOf(q) then [q] + unique[1..]
    else [unique[0]] + Enter(unique[1..], q)
  }

  function Unique(qs: seq<FollowUp>): seq<FollowUp> {
    if qs == [] then []
    else
      var before, q := Unique(qs[..|qs| - 1]), qs[|qs| - 1];
      if TextOf(q) == "" then before else Enter(before, q)
  }

  function WithRequired(qs: seq<FollowUp>, required: bool): seq<FollowUp> {
    if qs == [] then []
    else if qs[0].required == required then [qs[0]] + WithRequired(qs[1..], required)
    else WithRequired(qs[1..], required)
  }

  /** The stable sort by `not required`. */
  function RequiredFirst(qs: seq<FollowUp>): seq<FollowUp> {
    WithRequired(qs, true) + WithRequired(qs, false)
  }

  function HelpOf(q: FollowUp): Option<string> {
    if Strip(q.reason) == "" then None else Some(Strip(q.reason))
  }

  function BuildQuestions(qs: seq<FollowUp>, round: nat): seq<Question> {
    var ordered := RequiredFirst(Unique(qs));
    seq(|ordered|, i requires 0 <= i < |ordered| =>
      Question(QuestionKey(round, i + 1), i + 1, TextOf(ordered[i]), HelpOf(ordered[i])))
  }

  function TextsOf(qs: seq<FollowUp>): seq<string> {
    seq(|qs|, i requires 0 <= i < |qs| => TextOf(qs[i]))
  }

  /** Entering a question adds its text at the end unless it is there. */
  lemma {:induction false} EnterTexts(unique: seq<FollowUp>, q: FollowUp)
    ensures TextsOf(Enter(unique, q)) ==
            if TextOf(q) in TextsOf(unique) then TextsOf(unique) else TextsOf(unique) + [TextOf(q)]
  {
    if unique == [] {
      assert TextsOf([q]) == [TextOf(q)];
    } else {
      var tail := unique[1..];
      EnterTexts(tail, q);
      TextsHead(unique[0], tail);
      TextsHead(q, tail);
      TextsHead(unique[0], Enter(tail, q));
      assert unique == [unique[0]] + tail;
    }
  }

  lemma TextsHead(q: FollowUp, qs: seq<FollowUp>)
    ensures TextsOf([q] + qs) == [TextOf(q)] + TextsOf(qs)
  {
  }

  lemma {:induction false} UniqueTexts(qs: seq<FollowUp>)
    ensures Distinct(TextsOf(Unique(qs)))
    ensures forall t :: t in TextsOf(Unique(qs)) <==> t != "" && t in TextsOf(qs)
  {
    if qs != [] {
      var before, q := qs[..|qs| - 1], qs[|qs| - 1];
      UniqueTexts(before);
      EnterTexts(Unique(before), q);
      assert qs == before + [q];
      assert TextsOf(qs) == TextsOf(before) + [TextOf(q)];
    }
  }

  /** The last of the questions that share a text. */
  ghost predicate LastWith(qs: seq<FollowUp>, x: FollowUp) {
    exists k :: 0 <= k < |qs| && qs[k] == x && forall j :: k < j < |qs| ==> TextOf(qs[j]) != TextOf(x)
  }

  lemma {:induction false} EnterMembers(unique: seq<FollowUp>, q: FollowUp, x: FollowUp)
    requires Distinct(TextsOf(unique)) && x in Enter(unique, q)
    ensures x == q || (x in unique && TextOf(x) != TextOf(q))
  {
    if unique != [] {
      assert unique == [unique[0]] + unique[1..];
      TextsHead(unique[0], unique[1..]);
      assert TextsOf(unique)[1..] == TextsOf(unique[1..]);
      if TextOf(unique[0]) == TextOf(q) {
        if x in unique[1..] {
          var i :| 0 <= i < |unique| - 1 && unique[1..][i] == x;
          assert TextsOf(unique)[i + 1] == TextOf(x) && TextsOf(unique)[0] == TextOf(q);
        }
      } else if x != unique[0] {
        EnterMembers(unique[1..], q, x);
      }
    }
  }

  lemma LastWithMore(before: seq<FollowUp>, q: FollowUp, x: FollowUp)
    requires x == q || (LastWith(before, x) && TextOf(q) != TextOf(x))
    ensures LastWith(before + [q], x)
  {
    var qs := before + [q];
    var k := if x == q then |before|
      else var k :| 0 <= k < |before| && before[k] == x && forall j :: k < j < |before| ==> TextOf(before[j]) != TextOf(x); k;
    assert qs[k] == x && forall j :: k < j < |qs| ==> TextOf(qs[j]) != TextOf(x);
  }

  /** Of questions with the same text the last one is kept. */
  lemma {:induction false} LastIsKept(qs: seq<FollowUp>, x: FollowUp)
    requires x in Unique(qs)
    ensures LastWith(qs, x) && TextOf(x) != ""
  {
    hide TextOf, LastWith;
    var n := |qs| - 1;
    var before, q := qs[..n], qs[n];
    assert qs == before + [q];
    UniqueTexts(before);
    if TextOf(q) != "" {
      EnterMembers(Unique(before), q, x);
      if x != q {
        LastIsKept(before, x);
      }
      LastWithMore(before, q, x);
    } else {
      LastIsKept(before, x);
      LastWithMore(before, q, x);
    }
  }

  /** Text `t` appears before any question has text `u`. */
  ghost predicate AppearsBefore(qs: seq<FollowUp>, t: string, u: string) {
    exists k :: 0 <= k < |qs| && TextOf(qs[k]) == t && forall l :: 0 <= l <= k ==> TextOf(qs[l]) != u
  }

  lemma AppearsMore(before: seq<FollowUp>, q: FollowUp, t: string, u: string)
    requires AppearsBefore(before, t, u)
    ensures AppearsBefore(before + [q], t, u)
  {
    var qs := before + [q];
    var k :| 0 <= k < |before| && TextOf(before[k]) == t && forall l :: 0 <= l <= k ==> TextOf(before[l]) != u;
    assert TextOf(qs[k]) == t && forall l :: 0 <= l <= k ==> qs[l] == before[l];
  }

  lemma AppearsFirst(before: seq<FollowUp>, q: FollowUp, t: string, u: string)
    requires t in TextsOf(before) && u !in TextsOf(before)
    ensures AppearsBefore(before + [q], t, u)
  {
    var qs := before + [q];
    var k :| 0 <= k < |before| && TextsOf(before)[k] == t;
    forall l | 0 <= l <= k ensures TextOf(qs[l]) != u {
      assert qs[l] == before[l] && TextsOf(before)[l] in TextsOf(before);
    }
    assert TextOf(qs[k]) == t;
  }

  /** Texts keep the order in which they first appear. */
  lemma {:induction false} FirstAppearanceOrder(qs: seq<FollowUp>, i: nat, j: nat)
    requires i < j < |TextsOf(Unique(qs))|
    ensures AppearsBefore(qs, TextsOf(Unique(qs))[i], TextsOf(Unique(qs))[j])
  {
    hide TextOf, Enter, AppearsBefore;
    if qs != [] {
      var n := |qs| - 1;
      var before, q := qs[..n], qs[n];
      assert qs == before + [q];
      var a, b := TextsOf(Unique(before)), TextsOf(Unique(qs));
      UniqueTexts(before);
      UniqueTexts(qs);
      EnterTexts(Unique(before), q);
      assert b == a || (b == a + [TextOf(q)] && TextOf(q) != "");
      if j < |a| {
        FirstAppearanceOrder(before, i, j);
        AppearsMore(before, q, b[i], b[j]);
      } else {
        assert a[i] in a;
        AppearsFirst(before, q, b[i], b[j]);
      }
    }
  }

  lemma {:induction false} WithRequiredExactly(qs: seq<FollowUp>, required: bool)
    ensures forall x :: x in WithRequired(qs, required) <==> x in qs && x.required == required
    ensures Distinct(TextsOf(qs)) ==> Distinct(TextsOf(WithRequired(qs, required)))
  {
    if qs != [] {
      assert qs == [qs[0]] + qs[1..];
      WithRequiredExactly(qs[1..], required);
      TextsHead(qs[0], qs[1..]);
      var rest := WithRequired(qs[1..], required);
      TextsHead(qs[0], rest);
      if Distinct(TextsOf(qs)) {
        TailDistinct(TextsOf(qs));
        forall i | 0 <= i < |rest| ensures TextOf(rest[i]) != TextOf(qs[0]) {
          assert rest[i] in qs[1..];
          var k :| 0 <= k < |qs| - 1 && qs[1..][k] == rest[i];
          assert TextsOf(qs)[k + 1] != TextsOf(qs)[0];
        }
      }
    }
  }

  lemma TailDistinct<T(!new)>(xs: seq<T>)
    requires Distinct(xs) && xs != []
    ensures Distinct(xs[1..])
  {
  }

  ghost predicate Asks(built: seq<Question>, t: string) {
    exists i :: 0 <= i < |built| && built[i].text == t
  }

  /** The questions of a round ask exactly the non-blank texts, each once, under distinct keys that carry the round. */
  lemma QuestionsOfRound(qs: seq<FollowUp>, round: nat)
    ensures var built := BuildQuestions(qs, round);
      && (forall t :: Asks(built, t) <==> t != "" && t in TextsOf(qs))
      && (forall i, j :: 0 <= i < j < |built| ==> built[i].text != built[j].text && built[i].key != built[j].key)
      && (forall i :: 0 <= i < |built| ==> built[i].order == i + 1 && built[i].key == QuestionKey(round, i + 1))
  {
    hide Unique, TextOf, Asks;
    var unique := Unique(qs);
    var ordered, built := RequiredFirst(unique), BuildQuestions(qs, round);
    UniqueTexts(qs);
    OrderedTexts(unique);
    forall i, j | 0 <= i < j < |built| ensures built[i].text != built[j].text && built[i].key != built[j].key {
      assert TextsOf(ordered)[i] != TextsOf(ordered)[j];
      if built[i].key == built[j].key {
        KeysNeverRepeat(round, i + 1, round, j + 1);
      }
    }
    forall t ensures Asks(built, t) <==> t in TextsOf(unique) {
      BuiltTexts(qs, round, t);
    }
  }

  /** The help of a question is the reason given with the last question of that text. */
  lemma HelpOfLast(qs: seq<FollowUp>, round: nat, i: nat)
    requires i < |BuildQuestions(qs, round)|
    ensures exists x :: LastWith(qs, x) && TextOf(x) == BuildQuestions(qs, round)[i].text
              && BuildQuestions(qs, round)[i].help == if Strip(x.reason) == "" then None else Some(Strip(x.reason))
  {
    UniqueTexts(qs);
    OrderedTexts(Unique(qs));
    var x := RequiredFirst(Unique(qs))[i];
    assert x in Unique(qs);
    LastIsKept(qs, x);
  }

  /** A follow-up is the last one with its text, so the text determines it. */
  lemma LastIsUnique(qs: seq<FollowUp>, x: FollowUp, y: FollowUp)
    requires LastWith(qs, x) && LastWith(qs, y) && TextOf(x) == TextOf(y)
    ensures x == y
  {
    var k :| 0 <= k < |qs| && qs[k] == x && forall j :: k < j < |qs| ==> TextOf(qs[j]) != TextOf(x);
    var l :| 0 <= l < |qs| && qs[l] == y && forall j :: l < j < |qs| ==> TextOf(qs[j]) != TextOf(y);
  }

  /** What stands at place i of a round: the last follow-up with its text. */
  lemma BuiltFrom(qs: seq<FollowUp>, round: nat, i: nat, x: FollowUp)
    requires i < |BuildQuestions(qs, round)|
    requires LastWith(qs, x) && TextOf(x) == BuildQuestions(qs, round)[i].text
    ensures RequiredFirst(Unique(qs))[i] == x
  {
    UniqueTexts(qs);
    OrderedTexts(Unique(qs));
    var y := RequiredFirst(Unique(qs))[i];
    assert y in Unique(qs);
    LastIsKept(qs, y);
    LastIsUnique(qs, x, y);
  }

  /** Two elements of a filtered list stand in the order of the list. */
  lemma {:induction false} FilterKeepsOrder(us: seq<FollowUp>, required: bool, i: nat, j: nat) returns (k: nat, l: nat)
    requires i < j < |WithRequired(us, required)|
    ensures k < l < |us| && us[k] == WithRequired(us, required)[i] && us[l] == WithRequired(us, required)[j]
  {
    if us[0].required == required && i == 0 {
      k := 0;
      l := FilteredIn(us[1..], required, j - 1);
      l := l + 1;
    } else if us[0].required == required {
      k, l := FilterKeepsOrder(us[1..], required, i - 1, j - 1);
      k, l := k + 1, l + 1;
    } else {
      k, l := FilterKeepsOrder(us[1..], required, i, j);
      k, l := k + 1, l + 1;
    }
  }

  lemma {:induction false} FilteredIn(us: seq<FollowUp>, required: bool, i: nat) returns (k: nat)
    requires i < |WithRequired(us, required)|
    ensures k < |us| && us[k] == WithRequired(us, required)[i]
  {
    if us[0].required == required && i == 0 {
      k := 0;
    } else {
      k := FilteredIn(us[1..], required, if us[0].required == required then i - 1 else i);
      k := k + 1;
    }
  }

  lemma AllRequired(us: seq<FollowUp>, required: bool)
    ensures var a := WithRequired(us, required); forall m :: 0 <= m < |a| ==> a[m].required == required
  {
    WithRequiredExactly(us, required);
    var a := WithRequired(us, required);
    assert forall m :: 0 <= m < |a| ==> a[m] in a;
  }

  /** The sort puts required questions first and is stable. */
  lemma RequiredFirstOrder(us: seq<FollowUp>, i: nat, j: nat) returns (k: nat, l: nat)
    requires i < j < |RequiredFirst(us)|
    ensures RequiredFirst(us)[j].required ==> RequiredFirst(us)[i].required
    ensures RequiredFirst(us)[i].required == RequiredFirst(us)[j].required ==>
              k < l < |us| && us[k] == RequiredFirst(us)[i] && us[l] == RequiredFirst(us)[j]
  {
    AllRequired(us, true);
    AllRequired(us, false);
    var a := WithRequired(us, true);
    k, l := 0, 0;
    if j < |a| {
      k, l := FilterKeepsOrder(us, true, i, j);
    } else if i >= |a| {
      k, l := FilterKeepsOrder(us, false, i - |a|, j - |a|);
    } else {
      assert RequiredFirst(us)[i] == a[i] && RequiredFirst(us)[j] == WithRequired(us, false)[j - |a|];
    }
  }

  /** The order of the questions of a round, by the follow-ups they come from: a required one has only required ones
      before it, and two that are both required or both not stand in the order in which their texts first appear. */
  lemma QuestionOrder(qs: seq<FollowUp>, round: nat, i: nat, j: nat, x: FollowUp, y: FollowUp)
    requires i < j < |BuildQuestions(qs, round)|
    requires LastWith(qs, x) && TextOf(x) == BuildQuestions(qs, round)[i].text
    requires LastWith(qs, y) && TextOf(y) == BuildQuestions(qs, round)[j].text
    ensures y.required ==> x.required
    ensures x.required == y.required ==> AppearsBefore(qs, TextOf(x), TextOf(y))
  {
    hide TextOf, LastWith, AppearsBefore, RequiredFirst;
    var us := Unique(qs);
    BuiltFrom(qs, round, i, x);
    BuiltFrom(qs, round, j, y);
    var k, l := RequiredFirstOrder(us, i, j);
    if x.required == y.required {
      assert TextsOf(us)[k] == TextOf(x) && TextsOf(us)[l] == TextOf(y);
      FirstAppearanceOrder(qs, k, l);
    }
  }

  lemma OrderedTexts(unique: seq<FollowUp>)
    requires Distinct(TextsOf(unique))
    ensures Distinct(TextsOf(RequiredFirst(unique)))
    ensures forall x :: x in RequiredFirst(unique) <==> x in unique
  {
    WithRequiredExactly(unique, true);
    WithRequiredExactly(unique, false);
    var a, b := WithRequired(unique, true), WithRequired(unique, false);
    assert TextsOf(a + b) == TextsOf(a) + TextsOf(b);
    forall i, j | 0 <= i < |a| && 0 <= j < |b| ensures TextOf(a[i]) != TextOf(b[j]) {
      assert a[i] in unique && b[j] in unique && a[i].required != b[j].required;
      var k :| 0 <= k < |unique| && unique[k] == a[i];
      var l :| 0 <= l < |unique| && unique[l] == b[j];
      assert TextsOf(unique)[k] == TextOf(a[i]) && TextsOf(unique)[l] == TextOf(b[j]);
    }
  }

  lemma BuiltTexts(qs: seq<FollowUp>, round: nat, t: string)
    requires Distinct(TextsOf(Unique(qs)))
    ensures Asks(BuildQuestions(qs, round), t) <==> t in TextsOf(Unique(qs))
  {
    var unique, built := Unique(qs), BuildQuestions(qs, round);
    var ordered := RequiredFirst(unique);
    OrderedTexts(unique);
    if i :| 0 <= i < |built| && built[i].text == t {
      assert ordered[i] in unique;
      var k :| 0 <= k < |unique| && unique[k] == ordered[i];
      assert TextsOf(unique)[k] == t;
    }
    if t in TextsOf(unique) {
      var k :| 0 <= k < |unique| && TextsOf(unique)[k] == t;
      assert unique[k] in ordered;
      var i :| 0 <= i < |ordered| && ordered[i] == unique[k];
      assert built[i].text == t;
    }
  }
}
