/** Session traces fed to the event builder. */
module SessionCallbacks {
  import opened Common
  import opened Domain
  import opened Callbacks
  import opened Sessions
  import opened EventBuilders
  import opened CallbackNumbers
  import opened Text
  import T = SessionTraces

  /** The session events of a stream of builder inputs. */
  function EventsIn(inputs: seq<Input>): seq<SessionEvent> {
    seq(|inputs|, i requires 0 <= i < |inputs| => inputs[i].event)
  }

  lemma FinishStep(b: Builder, e: SessionEvent, content: Option<nat>, phase: T.Phase)
    requires e.session.context.run in Build(b, e, content).0.finished && e.session.context.run !in b.finished
    requires T.Advance(phase, e) != T.Illegal
    ensures T.Advance(phase, e) == T.Ended
  {
  }

  /** A run that the builder has finished has emitted its ending event. */
  lemma {:induction false} FinishedMeansEnded(inputs: seq<Input>, start: T.Phase, r: RunId)
    requires r in Stream(inputs).0.finished
    requires T.PhaseAfter(start, T.EventsOf(EventsIn(inputs), r)) != T.Illegal
    ensures T.PhaseAfter(start, T.EventsOf(EventsIn(inputs), r)) == T.Ended
  {
    if inputs != [] {
      var init, last := inputs[..|inputs| - 1], inputs[|inputs| - 1];
      var phase := T.PhaseAfter(start, T.EventsOf(EventsIn(init), r));
      assert EventsIn(inputs) == EventsIn(init) + [last.event];
      T.EventStep(EventsIn(init), last.event, r);
      T.PhaseStep(start, T.EventsOf(EventsIn(init), r), last.event);
      BuildNumbers(Stream(init).0, last.event, last.content);
      if r in Stream(init).0.finished {
        FinishedMeansEnded(init, start, r);
      } else {
        FinishStep(Stream(init).0, last.event, last.content, phase);
      }
    }
  }

  lemma {:induction false} LegalPrefix(start: T.Phase, events: seq<SessionEvent>, i: nat, r: RunId)
    requires i <= |events| && T.PhaseAfter(start, T.EventsOf(events, r)) != T.Illegal
    ensures T.PhaseAfter(start, T.EventsOf(events[..i], r)) != T.Illegal
    decreases |events|
  {
    if i < |events| {
      var init, e := events[..|events| - 1], events[|events| - 1];
      assert events == init + [e];
      T.EventStep(init, e, r);
      T.PhaseStep(start, T.EventsOf(init, r), e);
      LegalPrefix(start, init, i, r);
      assert init[..i] == events[..i];
    } else {
      assert events[..i] == events;
    }
  }

  lemma NothingAfterEnd(e: SessionEvent)
    ensures T.Advance(T.Ended, e) == T.Advance(T.Illegal, e) == T.Illegal
  {
  }

  /** In a legal trace the event at any place is legal after those before it. */
  lemma LegalAt(start: T.Phase, events: seq<SessionEvent>, i: nat, r: RunId)
    requires i < |events| && events[i].session.context.run == r
    requires T.PhaseAfter(start, T.EventsOf(events, r)) != T.Illegal
    ensures var phase := T.PhaseAfter(start, T.EventsOf(events[..i], r));
      phase != T.Illegal && T.Advance(phase, events[i]) != T.Illegal
  {
    hide T.Advance;
    LegalPrefix(start, events, i, r);
    LegalPrefix(start, events, i + 1, r);
    assert events[..i + 1] == events[..i] + [events[i]];
    T.EventStep(events[..i], events[i], r);
    T.PhaseStep(start, T.EventsOf(events[..i], r), events[i]);
  }

  lemma LegalTrace(steps: seq<T.Step>, r: RunId)
    requires T.Run(steps).Some?
    ensures var w := T.Run(steps).value; T.PhaseAfter(T.StartPhase(w.born, r), T.EventsOf(w.events, r)) != T.Illegal
  {
    T.EveryRun(steps);
    assert T.RunOk(T.Run(steps).value, r);
  }

  /** Whatever changes the sessions go through, events handed to the builder in the order the store made them
      never belong to a run the builder has finished. */
  lemma TracesAreNeverSuppressed(steps: seq<T.Step>, inputs: seq<Input>, i: nat)
    requires T.Run(steps).Some? && EventsIn(inputs) == T.Run(steps).value.events && i < |inputs|
    ensures inputs[i].event.session.context.run !in Stream(inputs[..i]).0.finished
  {
    hide T.Run, T.Advance, T.PhaseAfter, T.EventsOf, Stream;
    var w, e := T.Run(steps).value, inputs[i].event;
    var r := e.session.context.run;
    var start := T.StartPhase(w.born, r);
    LegalTrace(steps, r);
    LegalAt(start, w.events, i, r);
    assert EventsIn(inputs[..i]) == w.events[..i];
    NothingAfterEnd(e);
    if r in Stream(inputs[..i]).0.finished {
      FinishedMeansEnded(inputs[..i], start, r);
    }
  }

  // ---------- which events the builder drops ----------

  /** The event ends run r with a callback that the schema accepts. */
  predicate Closes(input: Input, r: RunId) {
    && input.event.session.context.run == r && Ending(input.event)
    && input.event.session.context.diagnosis.Some?
    && Valid(input.event.session.context.diagnosis.value, LastBody(input.event, input.content))
  }

  lemma FinishedAfter(b: Builder, input: Input, r: RunId)
    ensures r in Build(b, input.event, input.content).0.finished <==> r in b.finished || Closes(input, r)
  {
    hide Valid;
  }

  predicate ClosedBefore(inputs: seq<Input>, i: nat, r: RunId) {
    exists j :: 0 <= j < i && j < |inputs| && Closes(inputs[j], r)
  }

  /** For any events in any order, the builder has finished a run exactly when some event so far closed it. */
  lemma {:induction false} FinishedExactly(inputs: seq<Input>, r: RunId)
    ensures r in Stream(inputs).0.finished <==> ClosedBefore(inputs, |inputs|, r)
  {
    hide Build, Closes;
    if inputs != [] {
      var init, last := inputs[..|inputs| - 1], inputs[|inputs| - 1];
      assert inputs == init + [last];
      FinishedExactly(init, r);
      FinishedAfter(Stream(init).0, last, r);
      if ClosedBefore(init, |init|, r) {
        var j :| 0 <= j < |init| && Closes(init[j], r);
        assert Closes(inputs[j], r);
      }
      if j :| 0 <= j < |inputs| && Closes(inputs[j], r) {
        assert j < |init| ==> Closes(init[j], r);
      }
    }
  }

  /** Event i of a stream belongs to a run the builder has finished: it gives nothing and changes nothing. */
  predicate Suppressed(inputs: seq<Input>, i: nat)
    requires i < |inputs|
  {
    var b, input := Stream(inputs[..i]).0, inputs[i];
    input.event.session.context.run in b.finished && Build(b, input.event, input.content) == (b, [])
  }

  /** An event is suppressed exactly when an event handed over before it closed its run. */
  lemma SuppressedExactly(inputs: seq<Input>, i: nat)
    requires i < |inputs|
    ensures Suppressed(inputs, i) <==> ClosedBefore(inputs, i, inputs[i].event.session.context.run)
  {
    hide Closes, Stream;
    var r := inputs[i].event.session.context.run;
    FinishedExactly(inputs[..i], r);
    if j :| 0 <= j < i && Closes(inputs[j], r) {
      assert Closes(inputs[..i][j], r);
    }
    if j :| 0 <= j < i && Closes(inputs[..i][j], r) {
      assert Closes(inputs[j], r);
    }
  }

  // ---------- numbers in the order of the store ----------

  /** With a diagnosis that is not empty only an ending callback can be refused. */
  lemma OnlyEndingIsRefused(b: Builder, input: Input)
    requires Refuses(b, input) && input.event.session.context.diagnosis != Some("")
    ensures Ending(input.event)
  {
  }

  lemma EmptyDiagnosisGivesNothing(b: Builder, input: Input)
    requires input.event.session.context.diagnosis == Some("")
    ensures !Gives(b, input)
  {
  }

  lemma EndingEnds(phase: T.Phase, e: SessionEvent)
    requires Ending(e)
    ensures T.Advance(phase, e) == T.Ended || T.Advance(phase, e) == T.Illegal
  {
  }

  /** After an ended phase a legal trace has no further event of the run. */
  lemma {:induction false} NothingLegalAfter(start: T.Phase, events: seq<SessionEvent>, i: nat, r: RunId)
    requires i <= |events| && T.PhaseAfter(start, T.EventsOf(events[..i], r)) == T.Ended
    requires T.PhaseAfter(start, T.EventsOf(events, r)) != T.Illegal
    ensures forall j :: i <= j < |events| ==> events[j].session.context.run != r
    ensures T.PhaseAfter(start, T.EventsOf(events, r)) == T.Ended
    decreases |events|
  {
    hide T.Advance;
    if i < |events| {
      var init, e := events[..|events| - 1], events[|events| - 1];
      assert events == init + [e];
      assert init[..i] == events[..i];
      T.EventStep(init, e, r);
      T.PhaseStep(start, T.EventsOf(init, r), e);
      NothingAfterEnd(e);
      NothingLegalAfter(start, init, i, r);
    } else {
      assert events[..i] == events;
    }
  }

  lemma EndingIsLast(start: T.Phase, events: seq<SessionEvent>, i: nat, r: RunId)
    requires i < |events| && events[i].session.context.run == r && Ending(events[i])
    requires T.PhaseAfter(start, T.EventsOf(events, r)) != T.Illegal
    ensures forall j :: i < j < |events| ==> events[j].session.context.run != r
  {
    hide T.Advance;
    LegalAt(start, events, i, r);
    assert events[..i + 1] == events[..i] + [events[i]];
    T.EventStep(events[..i], events[i], r);
    T.PhaseStep(start, T.EventsOf(events[..i], r), events[i]);
    EndingEnds(T.PhaseAfter(start, T.EventsOf(events[..i], r)), events[i]);
    NothingLegalAfter(start, events, i + 1, r);
  }

  /** Whatever changes the sessions go through, events handed to the builder in the order the store made them give
      each run callbacks numbered 1, 2, ..., n. */
  lemma StoreOrderIsGapless(steps: seq<T.Step>, inputs: seq<Input>, r: RunId)
    requires T.Run(steps).Some? && EventsIn(inputs) == T.Run(steps).value.events
    ensures Gapless(OfRun(MadeOf(Stream(inputs).1), r))
  {
    hide T.Run, T.PhaseAfter, T.EventsOf, Stream, Refuses, Gives, Gapless, Ending;
    var w := T.Run(steps).value;
    forall i: nat, j: nat | i < j && RefusedAt(inputs, i, r) && j < |inputs| ensures !GivesAt(inputs, j, r) {
      assert w.events[i] == inputs[i].event && w.events[j] == inputs[j].event;
      if RunOf(inputs[j]) == r {
        T.EveryContext(steps);
        assert inputs[i].event.session.context == inputs[j].event.session.context;
        if inputs[i].event.session.context.diagnosis == Some("") {
          EmptyDiagnosisGivesNothing(Stream(inputs[..j]).0, inputs[j]);
        } else {
          OnlyEndingIsRefused(Stream(inputs[..i]).0, inputs[i]);
          LegalTrace(steps, r);
          EndingIsLast(T.StartPhase(w.born, r), w.events, i, r);
        }
      }
    }
    GaplessExactly(inputs, r);
  }

  // ---------- a run of the store whose events are handed over in another order ----------

  const BORN: Session := Sample(Accepted, 1)
  const STARTED: Session := BORN.(status := Running, startedAt := Some(1), updatedAt := 1)
  const STAGED: Session := STARTED.(stage := Some(Extraction), stageStartedAt := Some(2), updatedAt := 2)

  function Broke(code: string): Session {
    STAGED.(status := Broken, errorCode := Some(code), retryable := Some(true), updatedAt := 3)
  }

  /** A session is added, starts, enters a stage and fails with the code. */
  function FailingSteps(code: string): seq<T.Step> {
    [T.Add(BORN), T.Replace(BORN.context, Start, 1), T.Replace(BORN.context, ChangeStage(Extraction), 2),
     T.Replace(BORN.context, Fail(code, true, None), 3)]
  }

  const FIRST := Input(Started(STARTED), None)
  const SECOND := Input(StageChanged(STAGED, Extraction), None)

  function Third(code: string): Input {
    Input(Failed(Broke(code), code, true, None), None)
  }

  lemma OneMoreStep(steps: seq<T.Step>, step: T.Step)
    requires T.Run(steps).Some? && T.Enabled(T.Run(steps).value, step)
    ensures T.Run(steps + [step]) == Some(T.Next(T.Run(steps).value, step))
  {
    assert (steps + [step])[..|steps|] == steps;
  }

  lemma NoSteps()
    ensures T.Run([]) == Some(T.EMPTY_WORLD)
  {
  }

  lemma RunOfFailingSteps(code: string)
    ensures var run := T.Run(FailingSteps(code));
      run.Some? && run.value.events == [FIRST.event, SECOND.event, Third(code).event]
  {
    hide T.Run;
    var steps := FailingSteps(code);
    NoSteps();
    assert [] + [steps[0]] == [steps[0]] && [steps[0]] + [steps[1]] == steps[..2];
    assert steps[..2] + [steps[2]] == steps[..3] && steps[..3] + [steps[3]] == steps;
    OneMoreStep([], steps[0]);
    OneMoreStep([steps[0]], steps[1]);
    OneMoreStep(steps[..2], steps[2]);
    OneMoreStep(steps[..3], steps[3]);
  }

  lemma OneMoreHanded(inputs: seq<Input>, input: Input)
    ensures var (b, log) := Stream(inputs);
      Stream(inputs + [input]) ==
      (Build(b, input.event, input.content).0, log + Build(b, input.event, input.content).1)
  {
    hide Build;
    assert (inputs + [input])[..|inputs|] == inputs;
  }

  const OPEN: Builder := Builder(map[1 := RunState(1, None)], {})
  const AFTER_LOSS: Builder := Builder(map[1 := RunState(2, None)], {})

  lemma AfterFirst()
    ensures Stream([FIRST]) == (OPEN, [])
  {
    var none: seq<Entry> := [];
    assert [] + [FIRST] == [FIRST] && none + none == none;
    assert Build(EMPTY_BUILDER, FIRST.event, None) == (OPEN, none);
    OneMoreHanded([], FIRST);
  }

  lemma AfterRefusal()
    ensures Stream([FIRST, Third("")]) == (AFTER_LOSS, [Lost(1, 1)])
  {
    hide Stream;
    AfterFirst();
    var none: seq<Entry> := [];
    assert none + [Lost(1, 1)] == [Lost(1, 1)];
    assert Refuses(OPEN, Third(""));
    assert OPEN.runs[1 := RunState(2, None)] == AFTER_LOSS.runs;
    assert Build(OPEN, Third("").event, None) == (AFTER_LOSS, [Lost(1, 1)]);
    assert [FIRST] + [Third("")] == [FIRST, Third("")];
    OneMoreHanded([FIRST], Third(""));
  }

  lemma StageAfterLoss()
    ensures Build(AFTER_LOSS, SECOND.event, None).1 == [Made(Stamp(STAGED, Progress(Extraction, StageStarted), 2))]
  {
  }

  lemma ThirdCloses()
    ensures Closes(Third("AI_TIMEOUT"), 1)
  {
    assert "AI_TIMEOUT"[0] in "AI_TIMEOUT" && !IsWhiteSpace("AI_TIMEOUT"[0]);
  }

  lemma SecondGives()
    ensures Gives(OPEN, SECOND)
  {
  }

  /** Listeners run after the store lock is released, so an event can be handed over after the failure that ended its
      run. A run of the store and an order of its events in which the start of a stage, shown in the store's order, is
      suppressed. */
  lemma ReorderedEventIsSuppressed() returns (steps: seq<T.Step>, stored: seq<Input>, handed: seq<Input>)
    ensures T.Run(steps).Some? && EventsIn(stored) == T.Run(steps).value.events && multiset(handed) == multiset(stored)
    ensures |stored| == 3 && |handed| == 3 && stored[1] == handed[2]
    ensures Suppressed(handed, 2) && GivesAt(stored, 1, BORN.context.run)
  {
    hide Stream, T.Run, Suppressed, Closes, Gives;
    var third := Third("AI_TIMEOUT");
    steps, stored, handed := FailingSteps("AI_TIMEOUT"), [FIRST, SECOND, third], [FIRST, third, SECOND];
    RunOfFailingSteps("AI_TIMEOUT");
    assert EventsIn(stored) == [FIRST.event, SECOND.event, third.event];
    ThirdCloses();
    assert Closes(handed[1], 1);
    SuppressedExactly(handed, 2);
    assert stored[..1] == [FIRST];
    AfterFirst();
    SecondGives();
  }

  /** A run of the store and an order of its events that leaves a gap: the callback of a failure without an error code
      is refused, and the stage that comes after it is shown under number 2. */
  lemma GapAfterRefusal() returns (steps: seq<T.Step>, handed: seq<Input>)
    ensures T.Run(steps).Some? && multiset(EventsIn(handed)) == multiset(T.Run(steps).value.events)
    ensures var cs := OfRun(MadeOf(Stream(handed).1), BORN.context.run);
      |cs| == 1 && cs[0].sequence == 2 && !Gapless(cs)
  {
    hide Stream, T.Run, Build;
    var third := Third("");
    steps, handed := FailingSteps(""), [FIRST, third, SECOND];
    RunOfFailingSteps("");
    assert EventsIn(handed) == [FIRST.event, third.event, SECOND.event];
    AfterRefusal();
    StageAfterLoss();
    assert [FIRST, third] + [SECOND] == handed;
    OneMoreHanded([FIRST, third], SECOND);
    var made := Stamp(STAGED, Progress(Extraction, StageStarted), 2);
    assert [Lost(1, 1), Made(made)][..1] == [Lost(1, 1)];
    MadeOne(Lost(1, 1));
    assert MadeOf(Stream(handed).1) == [made];
    assert [made][..0] == [];
  }
}
