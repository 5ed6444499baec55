/** When the callbacks of a run are numbered without gaps (ai/app/callbacks/events.py). */
module CallbackNumbers {
  import opened Common
  import opened Domain
  import opened Callbacks
  import opened Sessions
  import opened EventBuilders

  // ---------- what one event asks for ----------

  /** The bodies an event asks for after the events before it. */
  function Asked(b: Builder, input: Input): seq<Body> {
    if Heard(b, input.event) then Bodies(StateOf(b, RunOf(input)), input.event, input.content) else []
  }

  function RunOf(input: Input): RunId {
    input.event.session.context.run
  }

  /** The event asks for a callback that the schema refuses. */
  predicate Refuses(b: Builder, input: Input) {
    Asked(b, input) != [] && !Valid(input.event.session.context.diagnosis.value, Asked(b, input)[0])
  }

  /** The event gives a callback. */
  predicate Gives(b: Builder, input: Input) {
    Asked(b, input) != [] && Valid(input.event.session.context.diagnosis.value, Asked(b, input)[0])
  }

  predicate RefusedAt(inputs: seq<Input>, i: nat, r: RunId) {
    i < |inputs| && RunOf(inputs[i]) == r && Refuses(Stream(inputs[..i]).0, inputs[i])
  }

  predicate GivesAt(inputs: seq<Input>, i: nat, r: RunId) {
    i < |inputs| && RunOf(inputs[i]) == r && Gives(Stream(inputs[..i]).0, inputs[i])
  }

  /** No event of the run whose callback is refused comes before one that gives a callback. */
  ghost predicate NoRefusalBefore(inputs: seq<Input>, r: RunId) {
    forall i: nat, j: nat :: i < j && RefusedAt(inputs, i, r) ==> !GivesAt(inputs, j, r)
  }

  predicate AllMade(entries: seq<Entry>) {
    forall i :: 0 <= i < |entries| ==> entries[i].Made?
  }

  predicate SomeLost(entries: seq<Entry>) {
    exists i :: 0 <= i < |entries| && entries[i].Lost?
  }

  lemma EntriesOfInput(b: Builder, input: Input, r: RunId)
    ensures var entries := EntriesOf(Build(b, input.event, input.content).1, r);
      && (RunOf(input) == r && Refuses(b, input) ==> |entries| == 1 && entries[0].Lost?)
      && (RunOf(input) == r && Gives(b, input) ==> entries != [] && AllMade(entries))
      && (!(RunOf(input) == r && (Refuses(b, input) || Gives(b, input))) ==> entries == [])
  {
    hide Valid, Bodies;
    EntriesAll(Build(b, input.event, input.content).1, RunOf(input), r);
  }

  /** The entries of a run after one more event. */
  lemma OneMoreInput(inputs: seq<Input>, input: Input, r: RunId)
    ensures var (b, log) := Stream(inputs);
      EntriesOf(Stream(inputs + [input]).1, r) == EntriesOf(log, r) + EntriesOf(Build(b, input.event, input.content).1, r)
  {
    hide Build;
    assert (inputs + [input])[..|inputs|] == inputs;
    EntriesSplit(Stream(inputs).1, Build(Stream(inputs).0, input.event, input.content).1, r);
  }

  /** What an event of a longer stream does depends on the events before it alone. */
  lemma SameAt(inputs: seq<Input>, input: Input, i: nat, r: RunId)
    ensures var more := inputs + [input];
      && (i < |inputs| ==> (RefusedAt(more, i, r) <==> RefusedAt(inputs, i, r)))
      && (i < |inputs| ==> (GivesAt(more, i, r) <==> GivesAt(inputs, i, r)))
      && (i == |inputs| ==> (RefusedAt(more, i, r) <==> RunOf(input) == r && Refuses(Stream(inputs).0, input)))
      && (i == |inputs| ==> (GivesAt(more, i, r) <==> RunOf(input) == r && Gives(Stream(inputs).0, input)))
  {
    hide Refuses, Gives, Stream;
    var more := inputs + [input];
    if i <= |inputs| {
      assert more[..i] == inputs[..i] && inputs[..|inputs|] == inputs;
    }
  }

  lemma {:induction false} LostExactly(inputs: seq<Input>, r: RunId)
    ensures SomeLost(EntriesOf(Stream(inputs).1, r)) <==> exists i: nat :: RefusedAt(inputs, i, r)
  {
    hide Refuses, Gives, RefusedAt, GivesAt;
    if inputs == [] {
      NothingRefused(r);
    } else {
      var init, last := inputs[..|inputs| - 1], inputs[|inputs| - 1];
      assert inputs == init + [last];
      LostExactly(init, r);
      OneMoreInput(init, last, r);
      EntriesOfInput(Stream(init).0, last, r);
      SomeLostSplit(EntriesOf(Stream(init).1, r), EntriesOf(Build(Stream(init).0, last.event, last.content).1, r));
      SameAt(init, last, |init|, r);
      BeyondEnd(init, r);
      BeyondEnd(inputs, r);
      forall i: nat | i < |init| ensures RefusedAt(inputs, i, r) <==> RefusedAt(init, i, r) {
        SameAt(init, last, i, r);
      }
      if i: nat :| RefusedAt(init, i, r) {
        assert RefusedAt(inputs, i, r);
      }
    }
  }

  lemma NothingRefused(r: RunId)
    ensures EntriesOf(Stream([]).1, r) == [] && forall i: nat :: !RefusedAt([], i, r)
  {
  }

  lemma BeyondEnd(inputs: seq<Input>, r: RunId)
    ensures forall i: nat :: RefusedAt(inputs, i, r) || GivesAt(inputs, i, r) ==> i < |inputs|
  {
  }

  lemma SomeLostSplit(a: seq<Entry>, b: seq<Entry>)
    ensures SomeLost(a + b) <==> SomeLost(a) || SomeLost(b)
  {
    if i :| 0 <= i < |a| && a[i].Lost? {
      assert (a + b)[i].Lost?;
    }
    if i :| 0 <= i < |b| && b[i].Lost? {
      assert (a + b)[|a| + i].Lost?;
    }
  }

  lemma LossSplit(a: seq<Entry>, b: seq<Entry>)
    requires b == [] || AllMade(b) || (|b| == 1 && b[0].Lost?)
    ensures NoLossBefore(a + b) <==> NoLossBefore(a) && (b != [] && AllMade(b) ==> !SomeLost(a))
  {
    var all := a + b;
    if NoLossBefore(all) {
      forall i, j | 0 <= i < j < |a| && a[i].Lost? ensures a[j].Lost? {
        assert all[i].Lost? ==> all[j].Lost?;
      }
    }
    if b != [] && AllMade(b) && SomeLost(a) {
      var i :| 0 <= i < |a| && a[i].Lost?;
      assert all[i].Lost? && !all[|a|].Lost?;
    }
  }

  lemma {:induction false} NoLossExactly(inputs: seq<Input>, r: RunId)
    ensures NoLossBefore(EntriesOf(Stream(inputs).1, r)) <==> NoRefusalBefore(inputs, r)
  {
    hide Refuses, Gives, RefusedAt, GivesAt, NoLossBefore;
    if inputs == [] {
      NothingRefused(r);
      NothingLost();
    } else {
      var init, last := inputs[..|inputs| - 1], inputs[|inputs| - 1];
      assert inputs == init + [last];
      NoLossExactly(init, r);
      LostExactly(init, r);
      OneMoreInput(init, last, r);
      EntriesOfInput(Stream(init).0, last, r);
      LossSplit(EntriesOf(Stream(init).1, r), EntriesOf(Build(Stream(init).0, last.event, last.content).1, r));
      RefusalSplit(init, last, r);
    }
  }

  lemma NothingLost()
    ensures NoLossBefore([])
  {
  }

  lemma RefusalSplit(init: seq<Input>, last: Input, r: RunId)
    ensures NoRefusalBefore(init + [last], r) <==>
      NoRefusalBefore(init, r)
      && (RunOf(last) == r && Gives(Stream(init).0, last) ==> forall i: nat :: !RefusedAt(init, i, r))
  {
    hide Refuses, Gives, RefusedAt, GivesAt;
    var inputs := init + [last];
    BeyondEnd(init, r);
    BeyondEnd(inputs, r);
    SameAt(init, last, |init|, r);
    forall i: nat | i < |init|
      ensures (RefusedAt(inputs, i, r) <==> RefusedAt(init, i, r)) && (GivesAt(inputs, i, r) <==> GivesAt(init, i, r))
    {
      SameAt(init, last, i, r);
    }
  }

  // ---------- main results ----------

  /** The callbacks of a run are numbered 1, 2, ..., n. */
  ghost predicate Gapless(cs: seq<Callback>) {
    forall k :: 0 <= k < |cs| ==> cs[k].sequence == k + 1
  }

  /** For any session events in any order, the callbacks of a run are numbered 1, 2, ..., n exactly when no event whose
      callback the schema refuses comes before one that gives a callback. */
  lemma GaplessExactly(inputs: seq<Input>, r: RunId)
    ensures Gapless(OfRun(MadeOf(Stream(inputs).1), r)) <==> NoRefusalBefore(inputs, r)
  {
    hide NoRefusalBefore, NoLossBefore, Numbered;
    var log := Stream(inputs).1;
    EntriesCommute(log, r);
    NumberedWithoutGaps(inputs, r);
    GaplessExactlyWithoutLoss(EntriesOf(log, r));
    NoLossExactly(inputs, r);
  }

  function Sample(status: Status, run: RunId): Session {
    Session(Context(run, 7, Production, Some("d")), 0, status, None, None, None, 0, [], [], None, None, 0, None, None, 0)
  }
}
