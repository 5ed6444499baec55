/**
 Session events become numbered callbacks (ai/app/callbacks/events.py).

 Making a callback takes the next number of the run first and validates the callback after that, so a callback
 the schema refuses raises and its number is lost. The log of a run holds both: callbacks made and numbers lost.
 */
module EventBuilders {
  import opened Common
  import opened Domain
  import opened Callbacks
  import opened Sessions
  import opened Text

  /** `sequence` is the next number to use. */
  datatype RunState = RunState(sequence: nat, stage: Option<Stage>)

  datatype Builder = Builder(runs: map<RunId, RunState>, finished: set<RunId>)

  const EMPTY_BUILDER := Builder(map[], {})

  datatype Entry = Made(callback: Callback) | Lost(run: RunId, sequence: nat)

  function EntryRun(e: Entry): RunId {
    if e.Made? then e.callback.run else e.run
  }

  function Number(e: Entry): nat {
    if e.Made? then e.callback.sequence else e.sequence
  }

  /** Internal stages are not shown. */
  function PublicStage(stage: Option<Stage>): Option<Stage> {
    if stage == Some(Pipeline) then None else stage
  }

  predicate Blank(s: string) {
    forall c :: c in s ==> IsWhiteSpace(c)
  }

  /** What the callback schemas ask of the diagnosis id and the body. */
  predicate Valid(diagnosis: string, body: Body) {
    && diagnosis != ""
    && match body
       case Progress(_, _) => true
       case AwaitingInputBody(round, questions) => 1 <= round <= 2 && questions != [] && UniqueQuestions(questions)
       case ResultBody(_) => true
       case FailedBody(_, code, _, _) => |code| <= 50 && !Blank(code)
  }

  const PIPELINE_ERROR := "AI_PIPELINE_ERROR"

  /** The body of the last callback of a run. `content` is the presented result, None when presenting it failed. */
  function LastBody(e: SessionEvent, content: Option<nat>): Body
    requires Ending(e)
  {
    match e
    case Failed(s, code, retryable, flag) => FailedBody(PublicStage(s.stage), code, retryable, flag)
    case Completed(s, _) =>
      if content.None? then FailedBody(PublicStage(s.stage), PIPELINE_ERROR, false, None) else ResultBody(content.value)
    case AwaitingInput(s, _) => AwaitingInputBody(s.questionRound, s.questions)
  }

  /** The bodies a session event asks for in a run that is not finished. */
  function Bodies(run: RunState, e: SessionEvent, content: Option<nat>): seq<Body> {
    match e
    case Started(_) => []
    case Resumed(_) => []
    case StageChanged(_, stage) =>
      var shown := PublicStage(Some(stage));
      if shown.None? || shown == run.stage then []
      else (if run.stage.Some? then [Progress(run.stage.value, StageCompleted)] else [])
           + [Progress(shown.value, StageStarted)]
    case ToolProgressed(_, tool, progress) =>
      if run.stage != Some(ToolExecution) then [] else [Progress(ToolExecution, ToolReport(tool, progress))]
    case _ => [LastBody(e, content)]
  }

  function Stamp(s: Session, body: Body, sequence: nat): Callback
    requires s.context.diagnosis.Some?
  {
    Callback(s.context.diagnosis.value, s.context.product, s.context.run, sequence, body)
  }

  /** Whether the builder looks at the event at all: the run has a diagnosis and is not finished. */
  predicate Heard(b: Builder, e: SessionEvent) {
    e.session.context.diagnosis.Some? && e.session.context.run !in b.finished
  }

  function StateOf(b: Builder, r: RunId): RunState {
    if r in b.runs then b.runs[r] else RunState(1, None)
  }

  /** Handles one session event: the new builder and the new log entries. An entry Lost means build() raised. */
  function Build(b: Builder, e: SessionEvent, content: Option<nat>): (Builder, seq<Entry>) {
    if !Heard(b, e) then (b, [])
    else
      var r := e.session.context.run;
      var run := StateOf(b, r);
      var bodies := Bodies(run, e, content);
      if bodies == [] then (b.(runs := b.runs[r := run]), [])
      else if !Valid(e.session.context.diagnosis.value, bodies[0]) then
        (b.(runs := b.runs[r := run.(sequence := run.sequence + 1)]), [Lost(r, run.sequence)])
      else
        var made := seq(|bodies|, i requires 0 <= i < |bodies| => Made(Stamp(e.session, bodies[i], run.sequence + i)));
        if Ending(e) then (Builder(b.runs - {r}, b.finished + {r}), made)
        else
          var stage := if e.StageChanged? then PublicStage(Some(e.stage)) else run.stage;
          (b.(runs := b.runs[r := RunState(run.sequence + |bodies|, stage)]), made)
  }

  /** One session event and what presenting its result gave. */
  datatype Input = Input(event: SessionEvent, content: Option<nat>)

  /** The builder and its log after a stream of session events, in any order from any threads. */
  function Stream(inputs: seq<Input>): (Builder, seq<Entry>) {
    if inputs == [] then (EMPTY_BUILDER, [])
    else
      var (b, log) := Stream(inputs[..|inputs| - 1]);
      var (b', entries) := Build(b, inputs[|inputs| - 1].event, inputs[|inputs| - 1].content);
      (b', log + entries)
  }

  function EntriesOf(log: seq<Entry>, r: RunId): seq<Entry> {
    if log == [] then []
    else
      var e := log[|log| - 1];
      if EntryRun(e) == r then EntriesOf(log[..|log| - 1], r) + [e] else EntriesOf(log[..|log| - 1], r)
  }

  function MadeOf(log: seq<Entry>): seq<Callback> {
    if log == [] then []
    else
      var e := log[|log| - 1];
      if e.Made? then MadeOf(log[..|log| - 1]) + [e.callback] else MadeOf(log[..|log| - 1])
  }

  // ---------- the grammar of one run ----------

  /** What the callbacks of a run have shown so far. */
  datatype Show = Fresh | Open(stage: Stage) | Between(stage: Stage) | Over | Bad

  function Watch(show: Show, body: Body): Show {
    match body
    case Progress(stage, StageStarted) =>
      if stage != Pipeline && (show.Fresh? || (show.Between? && show.stage != stage)) then Open(stage) else Bad
    case Progress(stage, StageCompleted) => if show == Open(stage) then Between(stage) else Bad
    case Progress(stage, ToolReport(_, _)) => if show == Open(ToolExecution) && stage == ToolExecution then show else Bad
    case _ => if show.Fresh? || show.Open? then Over else Bad
  }

  function ShowAfter(cs: seq<Callback>): Show {
    if cs == [] then Fresh else Watch(ShowAfter(cs[..|cs| - 1]), cs[|cs| - 1].body)
  }

  /** What the builder believes it has shown of the run. */
  function Believed(b: Builder, r: RunId): Show {
    if r in b.finished then Over
    else if StateOf(b, r).stage.Some? then Open(StateOf(b, r).stage.value)
    else Fresh
  }

  // ---------- the invariant ----------

  /** The numbers are 1, 2, 3, ... in order. */
  predicate Numbered(entries: seq<Entry>) {
    forall i :: 0 <= i < |entries| ==> Number(entries[i]) == i + 1
  }

  predicate RunOk(b: Builder, log: seq<Entry>, r: RunId) {
    && Numbered(EntriesOf(log, r))
    && (r !in b.finished ==> StateOf(b, r).sequence == |EntriesOf(log, r)| + 1)
    && (StateOf(b, r).stage != Some(Pipeline))
    && ShowAfter(MadeOf(EntriesOf(log, r))) == Believed(b, r)
  }

  ghost predicate Inv(b: Builder, log: seq<Entry>) {
    b.runs.Keys !! b.finished && forall r :: RunOk(b, log, r)
  }

  lemma {:induction false} EntriesSplit(log: seq<Entry>, more: seq<Entry>, r: RunId)
    ensures EntriesOf(log + more, r) == EntriesOf(log, r) + EntriesOf(more, r)
  {
    if more == [] {
      assert log + more == log;
    } else {
      EntriesSplit(log, more[..|more| - 1], r);
      assert (log + more)[..|log + more| - 1] == log + more[..|more| - 1];
    }
  }

  lemma {:induction false} MadeSplit(log: seq<Entry>, more: seq<Entry>)
    ensures MadeOf(log + more) == MadeOf(log) + MadeOf(more)
  {
    if more == [] {
      assert log + more == log;
    } else {
      MadeSplit(log, more[..|more| - 1]);
      assert (log + more)[..|log + more| - 1] == log + more[..|more| - 1];
    }
  }

  lemma {:induction false} EntriesAll(log: seq<Entry>, q: RunId, r: RunId)
    requires forall e :: e in log ==> EntryRun(e) == q
    ensures EntriesOf(log, r) == if r == q then log else []
  {
    if log != [] {
      EntriesAll(log[..|log| - 1], q, r);
    }
  }

  lemma ShowStep(cs: seq<Callback>, c: Callback)
    ensures ShowAfter(cs + [c]) == Watch(ShowAfter(cs), c.body)
  {
    assert (cs + [c])[..|cs|] == cs;
  }

  lemma MadeOne(e: Entry)
    ensures MadeOf([e]) == if e.Made? then [e.callback] else []
  {
    assert [e][..0] == [];
  }

  lemma MadeTwo(c: Callback, d: Callback)
    ensures MadeOf([Made(c), Made(d)]) == [c, d]
  {
    assert [Made(c), Made(d)][..1] == [Made(c)];
    MadeOne(Made(c));
  }

  /** The bodies asked for are legal after what the builder has shown, and leave it where the builder goes. */
  lemma BodiesLegal(run: RunState, e: SessionEvent, content: Option<nat>)
    requires run.stage != Some(Pipeline)
    ensures var show := if run.stage.Some? then Open(run.stage.value) else Fresh;
            var bodies := Bodies(run, e, content);
            && |bodies| <= 2
            && (|bodies| == 1 ==>
                  Watch(show, bodies[0]) == if Ending(e) then Over
                                            else if e.StageChanged? then Open(PublicStage(Some(e.stage)).value) else show)
            && (|bodies| == 2 ==>
                  e.StageChanged? && Watch(Watch(show, bodies[0]), bodies[1]) == Open(PublicStage(Some(e.stage)).value))
            && (e.StageChanged? && bodies != [] ==> PublicStage(Some(e.stage)).Some?)
  {
  }

  lemma ShowAll(cs: seq<Callback>, made: seq<Entry>)
    requires 1 <= |made| <= 2 && forall i :: 0 <= i < |made| ==> made[i].Made?
    ensures ShowAfter(cs + MadeOf(made))
         == if |made| == 1 then Watch(ShowAfter(cs), made[0].callback.body)
            else Watch(Watch(ShowAfter(cs), made[0].callback.body), made[1].callback.body)
  {
    ShowStep(cs, made[0].callback);
    if |made| == 1 {
      assert made == [Made(made[0].callback)];
      MadeOne(made[0]);
    } else {
      assert made == [Made(made[0].callback), Made(made[1].callback)];
      MadeTwo(made[0].callback, made[1].callback);
      ShowStep(cs + [made[0].callback], made[1].callback);
      assert cs + MadeOf(made) == cs + [made[0].callback] + [made[1].callback];
    }
  }

  /** The entries of one event move the show of its run exactly as the builder records it. */
  lemma BuildShows(b: Builder, cs: seq<Callback>, e: SessionEvent, content: Option<nat>)
    requires var r := e.session.context.run; ShowAfter(cs) == Believed(b, r) && StateOf(b, r).stage != Some(Pipeline)
    requires b.runs.Keys !! b.finished
    ensures var (b', entries) := Build(b, e, content);
            var r := e.session.context.run;
            ShowAfter(cs + MadeOf(entries)) == Believed(b', r) && StateOf(b', r).stage != Some(Pipeline)
  {
    var (b', entries) := Build(b, e, content);
    var run := StateOf(b, e.session.context.run);
    BodiesLegal(run, e, content);
    if entries != [] && entries[0].Made? {
      ShowAll(cs, entries);
    } else {
      assert MadeOf(entries) == [] by {
        if entries != [] {
          MadeOne(entries[0]);
          assert entries == [entries[0]];
        }
      }
      assert cs + MadeOf(entries) == cs;
    }
  }

  /** The entries of one event carry the run of the event and the next numbers. */
  lemma BuildNumbers(b: Builder, e: SessionEvent, content: Option<nat>)
    ensures var (b', entries) := Build(b, e, content);
            var r := e.session.context.run;
            && (forall i :: 0 <= i < |entries| ==>
                  EntryRun(entries[i]) == r && Number(entries[i]) == StateOf(b, r).sequence + i)
            && (entries != [] ==> r !in b.finished)
            && (r !in b'.finished ==> StateOf(b', r).sequence == StateOf(b, r).sequence + |entries|)
            && (forall q :: q != r ==> StateOf(b', q) == StateOf(b, q) && (q in b'.finished <==> q in b.finished))
            && (b.runs.Keys !! b.finished ==> b'.runs.Keys !! b'.finished)
            && b.finished <= b'.finished
  {
  }

  lemma BuildKeeps(b: Builder, log: seq<Entry>, e: SessionEvent, content: Option<nat>)
    requires Inv(b, log)
    ensures Inv(Build(b, e, content).0, log + Build(b, e, content).1)
  {
    var (b', entries) := Build(b, e, content);
    BuildNumbers(b, e, content);
    forall r ensures RunOk(b', log + entries, r) {
      assert RunOk(b, log, r);
      EntriesSplit(log, entries, r);
      EntriesAll(entries, e.session.context.run, r);
      if r == e.session.context.run {
        MadeSplit(EntriesOf(log, r), entries);
        BuildShows(b, MadeOf(EntriesOf(log, r)), e, content);
      } else {
        assert EntriesOf(log + entries, r) == EntriesOf(log, r);
      }
    }
  }

  lemma {:induction false} EveryStream(inputs: seq<Input>)
    ensures Inv(Stream(inputs).0, Stream(inputs).1)
  {
    if inputs != [] {
      EveryStream(inputs[..|inputs| - 1]);
      var (b, log) := Stream(inputs[..|inputs| - 1]);
      BuildKeeps(b, log, inputs[|inputs| - 1].event, inputs[|inputs| - 1].content);
    }
  }

  // ---------- main results ----------

  /** Numbers of a run's log: 1, 2, 3, ... without gaps, callbacks and lost numbers together. */
  lemma NumberedWithoutGaps(inputs: seq<Input>, r: RunId)
    ensures Numbered(EntriesOf(Stream(inputs).1, r))
  {
    EveryStream(inputs);
    assert RunOk(Stream(inputs).0, Stream(inputs).1, r);
  }

  lemma {:induction false} MadeCount(entries: seq<Entry>)
    requires Numbered(entries)
    ensures |MadeOf(entries)| <= |entries|
    ensures forall i :: 0 <= i < |MadeOf(entries)| ==> i + 1 <= MadeOf(entries)[i].sequence <= |entries|
    ensures forall i, j :: 0 <= i < j < |MadeOf(entries)| ==> MadeOf(entries)[i].sequence < MadeOf(entries)[j].sequence
    ensures (forall i :: 0 <= i < |entries| ==> entries[i].Made?) ==> |MadeOf(entries)| == |entries|
  {
    if entries != [] {
      MadeCount(entries[..|entries| - 1]);
    }
  }

  /** No number was lost before a callback that was made. */
  ghost predicate NoLossBefore(entries: seq<Entry>) {
    forall i, j :: 0 <= i < j < |entries| && entries[i].Lost? ==> entries[j].Lost?
  }

  /** The callbacks of a run are numbered 1, 2, ..., n exactly when no refused callback came before a made one;
      their numbers increase strictly in any case. */
  lemma {:induction false} GaplessExactlyWithoutLoss(entries: seq<Entry>)
    requires Numbered(entries)
    ensures (forall i :: 0 <= i < |MadeOf(entries)| ==> MadeOf(entries)[i].sequence == i + 1) <==> NoLossBefore(entries)
  {
    MadeCount(entries);
    if entries != [] {
      var init, last := entries[..|entries| - 1], entries[|entries| - 1];
      GaplessExactlyWithoutLoss(init);
      MadeCount(init);
      if last.Made? {
        assert MadeOf(entries) == MadeOf(init) + [last.callback];
        if NoLossBefore(entries) {
          assert forall i :: 0 <= i < |init| ==> init[i].Made?;
        } else if forall i :: 0 <= i < |MadeOf(entries)| ==> MadeOf(entries)[i].sequence == i + 1 {
          assert MadeOf(entries)[|MadeOf(init)|].sequence == |entries|;
          FullyMade(init);
          assert false;
        }
      }
    }
  }

  lemma {:induction false} FullyMade(entries: seq<Entry>)
    requires |MadeOf(entries)| == |entries|
    ensures forall i :: 0 <= i < |entries| ==> entries[i].Made?
  {
    if entries != [] {
      MadeBound(entries[..|entries| - 1]);
      FullyMade(entries[..|entries| - 1]);
    }
  }

  lemma {:induction false} MadeBound(entries: seq<Entry>)
    ensures |MadeOf(entries)| <= |entries|
  {
    if entries != [] {
      MadeBound(entries[..|entries| - 1]);
    }
  }

  /** A number is lost exactly when the event asks for a callback that the schema refuses. */
  lemma LossExactlyWhenRefused(b: Builder, e: SessionEvent, content: Option<nat>)
    ensures (exists x :: x in Build(b, e, content).1 && x.Lost?)
        <==> Heard(b, e) && var bodies := Bodies(StateOf(b, e.session.context.run), e, content);
                            bodies != [] && !Valid(e.session.context.diagnosis.value, bodies[0])
  {
    var entries := Build(b, e, content).1;
    if Heard(b, e) {
      var bodies := Bodies(StateOf(b, e.session.context.run), e, content);
      if bodies != [] && !Valid(e.session.context.diagnosis.value, bodies[0]) {
        assert entries[0] in entries;
      }
    }
  }

  lemma {:induction false} EntriesCommute(log: seq<Entry>, r: RunId)
    ensures OfRun(MadeOf(log), r) == MadeOf(EntriesOf(log, r))
  {
    if log != [] {
      var init, last := log[..|log| - 1], log[|log| - 1];
      EntriesCommute(init, r);
      if last.Made? {
        assert (MadeOf(init) + [last.callback])[..|MadeOf(init)|] == MadeOf(init);
      }
      if EntryRun(last) == r {
        assert (EntriesOf(init, r) + [last])[..|EntriesOf(init, r)|] == EntriesOf(init, r);
      }
    }
  }

  /** After Over nothing is legal, so a terminal callback is the last of its run. */
  lemma {:induction false} TerminalIsLast(cs: seq<Callback>)
    requires ShowAfter(cs) != Bad
    ensures forall i :: 0 <= i < |cs| && Terminal(cs[i]) ==> i == |cs| - 1
    ensures cs != [] && Terminal(cs[|cs| - 1]) ==> ShowAfter(cs).Over?
  {
    if cs != [] {
      TerminalIsLast(cs[..|cs| - 1]);
    }
  }

  /** For any session events in any order, the callbacks of each run obey the grammar: stages are bracketed, tool
      callbacks come only inside an open tool stage, a terminal callback is the last, their numbers increase
      strictly, and the builder ignores a run exactly when its terminal callback was made. */
  lemma RunGrammar(inputs: seq<Input>, r: RunId)
    ensures var (b, log) := Stream(inputs);
            var cs := OfRun(MadeOf(log), r);
            && !ShowAfter(cs).Bad? && !ShowAfter(cs).Between?
            && (forall i, j :: 0 <= i < j < |cs| ==> cs[i].sequence < cs[j].sequence)
            && (forall i :: 0 <= i < |cs| && Terminal(cs[i]) ==> i == |cs| - 1)
            && (r in b.finished <==> ShowAfter(cs).Over?)
            && b.runs.Keys !! b.finished
  {
    EveryStream(inputs);
    var (b, log) := Stream(inputs);
    assert RunOk(b, log, r);
    EntriesCommute(log, r);
    MadeCount(EntriesOf(log, r));
    TerminalIsLast(OfRun(MadeOf(log), r));
  }

  // ---------- the builder object ----------

  /** What build() returns for the event: its callbacks, or Err when a callback was refused. */
  function Returned(b: Builder, e: SessionEvent, content: Option<nat>): Result<seq<Callback>, ()> {
    var entries := Build(b, e, content).1;
    if entries != [] && entries[0].Lost? then Err(()) else Ok(MadeOf(entries))
  }

  /** Entering a run's initial state first changes nothing, and only a completed result has content. */
  lemma BuildPrimed(b: Builder, e: SessionEvent, content: Option<nat>)
    requires Heard(b, e)
    ensures var r := e.session.context.run;
            var primed := b.(runs := b.runs[r := StateOf(b, r)]);
            && Build(primed, e, content) == Build(b, e, content)
            && (!e.Completed? ==> Build(primed, e, None) == Build(b, e, content))
  {
    var r := e.session.context.run;
    var run := StateOf(b, r);
    var after := Build(b, e, content).0;
    assert b.runs[r := run] - {r} == b.runs - {r};
    if r in after.runs {
      assert b.runs[r := run][r := after.runs[r]] == b.runs[r := after.runs[r]];
    }
  }

  lemma ReturnedMade(b: Builder, e: SessionEvent, content: Option<nat>)
    requires Heard(b, e)
    ensures var run := StateOf(b, e.session.context.run);
            var bodies := Bodies(run, e, content);
            bodies != [] && Valid(e.session.context.diagnosis.value, bodies[0]) ==>
              && (|bodies| == 1 ==> Returned(b, e, content) == Ok([Stamp(e.session, bodies[0], run.sequence)]))
              && (|bodies| == 2 ==>
                    Returned(b, e, content) == Ok([Stamp(e.session, bodies[0], run.sequence),
                                                   Stamp(e.session, bodies[1], run.sequence + 1)]))
  {
    var run := StateOf(b, e.session.context.run);
    var bodies := Bodies(run, e, content);
    var entries := Build(b, e, content).1;
    if bodies != [] && Valid(e.session.context.diagnosis.value, bodies[0]) {
      if |bodies| == 1 {
        assert entries == [Made(Stamp(e.session, bodies[0], run.sequence))];
        MadeOne(entries[0]);
      } else if |bodies| == 2 {
        assert entries == [Made(Stamp(e.session, bodies[0], run.sequence)),
                           Made(Stamp(e.session, bodies[1], run.sequence + 1))];
        MadeTwo(entries[0].callback, entries[1].callback);
      }
    }
  }

  class EventBuilder {
    var runs: map<RunId, RunState>
    var finished: set<RunId>

    ghost function View(): Builder
      reads this
    {
      Builder(runs, finished)
    }

    constructor ()
      ensures View() == EMPTY_BUILDER
    {
      runs, finished := map[], {};
    }

    /** The next callback of a run; its number is used up even when the callback is refused. */
    method Next(s: Session, body: Body) returns (c: Option<Callback>)
      requires s.context.diagnosis.Some? && s.context.run in runs
      modifies this`runs
      ensures var run := old(runs)[s.context.run];
              && runs == old(runs)[s.context.run := run.(sequence := run.sequence + 1)]
              && c == if Valid(s.context.diagnosis.value, body) then Some(Stamp(s, body, run.sequence)) else None
    {
      var run := runs[s.context.run];
      runs := runs[s.context.run := run.(sequence := run.sequence + 1)];
      c := if Valid(s.context.diagnosis.value, body) then Some(Stamp(s, body, run.sequence)) else None;
    }

    /** The stage changed: completes the open stage and starts the new one. Internal stages are skipped. */
    method ShowStage(s: Session, stage: Stage) returns (built: Result<seq<Callback>, ()>)
      requires s.context.diagnosis.Some? && s.context.run in runs && s.context.run !in finished
      modifies this`runs
      ensures View() == Build(old(View()), StageChanged(s, stage), None).0
      ensures built == Returned(old(View()), StageChanged(s, stage), None)
    {
      var r := s.context.run;
      ReturnedMade(View(), StageChanged(s, stage), None);
      var open := runs[r].stage;
      var shown := PublicStage(Some(stage));
      if shown.None? || shown == open {
        return Ok([]);
      }
      if open.Some? {
        var completed := Next(s, Progress(open.value, StageCompleted));
        if completed.None? {
          return Err(());
        }
        var started := Next(s, Progress(shown.value, StageStarted));
        runs := runs[r := runs[r].(stage := shown)];
        built := Ok([completed.value, started.value]);
      } else {
        var started := Next(s, Progress(shown.value, StageStarted));
        if started.None? {
          return Err(());
        }
        runs := runs[r := runs[r].(stage := shown)];
        built := Ok([started.value]);
      }
    }

    /** A tool's progress is shown only while the tool stage is open. */
    method ShowTool(s: Session, tool: ToolName, progress: ToolProgress) returns (built: Result<seq<Callback>, ()>)
      requires s.context.diagnosis.Some? && s.context.run in runs && s.context.run !in finished
      modifies this`runs
      ensures View() == Build(old(View()), ToolProgressed(s, tool, progress), None).0
      ensures built == Returned(old(View()), ToolProgressed(s, tool, progress), None)
    {
      if runs[s.context.run].stage != Some(ToolExecution) {
        return Ok([]);
      }
      ReturnedMade(View(), ToolProgressed(s, tool, progress), None);
      var c := Next(s, Progress(ToolExecution, ToolReport(tool, progress)));
      if c.None? {
        return Err(());
      }
      built := Ok([c.value]);
    }

    /** The last callback of a run. A refused one leaves the run open. */
    method Finish(e: SessionEvent, content: Option<nat>) returns (built: Result<seq<Callback>, ()>)
      requires Ending(e) && e.session.context.diagnosis.Some?
      requires e.session.context.run in runs && e.session.context.run !in finished
      modifies this
      ensures View() == Build(old(View()), e, content).0
      ensures built == Returned(old(View()), e, content)
    {
      ReturnedMade(View(), e, content);
      var last := Next(e.session, LastBody(e, content));
      if last.None? {
        return Err(());
      }
      runs := runs - {e.session.context.run};
      finished := finished + {e.session.context.run};
      built := Ok([last.value]);
    }

    /** Callbacks for one session event; Err when a callback was refused. */
    method BuildCallbacks(e: SessionEvent, content: Option<nat>) returns (built: Result<seq<Callback>, ()>)
      modifies this
      ensures View() == Build(old(View()), e, content).0
      ensures built == Returned(old(View()), e, content)
    {
      var s := e.session;
      var r := s.context.run;
      if s.context.diagnosis.None? || r in finished {
        return Ok([]);
      }
      BuildPrimed(View(), e, content);
      if r !in runs {
        runs := runs[r := RunState(1, None)];
      }
      assert View() == old(View()).(runs := old(View()).runs[r := StateOf(old(View()), r)]);
      match e {
        case Started(_) =>
          built := Ok([]);
        case Resumed(_) =>
          built := Ok([]);
        case StageChanged(session, stage) =>
          built := ShowStage(session, stage);
        case ToolProgressed(session, tool, progress) =>
          built := ShowTool(session, tool, progress);
        case _ =>
          built := Finish(e, content);
      }
    }
  }
}
