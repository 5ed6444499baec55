/** Every stream of submissions, changes and purges, and the events it makes for each run. */
module SessionTraces {
  import opened Common
  import opened Domain
  import opened Sessions

  /**
   The sessions in the store, the log of events, the run ids ever used, and for each run that entered by a
   submission or a restore the status it entered with. Run ids are fresh: uuids made by the program.
   */
  datatype World = World(
    sessions: map<ProductId, Session>,
    events: seq<SessionEvent>,
    runs: set<RunId>,
    born: map<RunId, Status>)

  const EMPTY_WORLD := World(map[], [], {}, map[])

  datatype Step =
    | Add(session: Session)
    | Replace(context: Context, change: Change, now: int)
    | Purge(products: set<ProductId>)

  /** The program's own obligations: new run ids are fresh, and a resumed session keeps its product. */
  predicate Enabled(w: World, step: Step) {
    match step
    case Add(session) => session.context.run !in w.runs
    case Replace(context, change, _) =>
      change.Resume? ==> change.context.run !in w.runs && change.context.product == context.product
    case Purge(products) =>
      forall p :: p in products && p in w.sessions ==> RetentionOf(w.sessions[p].status).Some?
  }

  /** The session that a change by `context` may touch: the current one of its product, of the same run. */
  function Target(w: World, context: Context): Option<Session> {
    if context.product in w.sessions && w.sessions[context.product].context.run == context.run
    then Some(w.sessions[context.product]) else None
  }

  function Next(w: World, step: Step): World {
    match step
    case Add(s) =>
      w.(sessions := w.sessions[s.context.product := s], runs := w.runs + {s.context.run},
         born := w.born[s.context.run := s.status])
    case Replace(context, change, now) =>
      var target := Target(w, context);
      if target.None? then w
      else
        var applied := Apply(target.value, change, now);
        if applied.Err? then w
        else
          w.(sessions := w.sessions[context.product := applied.value.session],
             events := w.events + applied.value.events,
             runs := w.runs + {applied.value.session.context.run})
    case Purge(products) => w.(sessions := w.sessions - products)
  }

  function Run(steps: seq<Step>): Option<World> {
    if steps == [] then Some(EMPTY_WORLD)
    else
      var before := Run(steps[..|steps| - 1]);
      if before.Some? && Enabled(before.value, steps[|steps| - 1])
      then Some(Next(before.value, steps[|steps| - 1])) else None
  }

  // ---------- the events of one run ----------

  function EventsOf(events: seq<SessionEvent>, r: RunId): seq<SessionEvent> {
    if events == [] then []
    else
      var e := events[|events| - 1];
      if e.session.context.run == r then EventsOf(events[..|events| - 1], r) + [e] else EventsOf(events[..|events| - 1], r)
  }

  /** How far a run has come: Unborn runs start with Resumed, submitted ones wait. */
  datatype Phase = Unborn | Waiting | Active | Ended | Illegal

  function PhaseOf(status: Status): Phase {
    match status
    case Accepted => Waiting
    case Running => Active
    case _ => Ended
  }

  function Advance(phase: Phase, e: SessionEvent): Phase {
    match phase
    case Unborn => if e.Resumed? then Waiting else Illegal
    case Waiting => if e.Started? then Active else if e.Failed? then Ended else Illegal
    case Active => if Ending(e) then Ended else if e.StageChanged? || e.ToolProgressed? then Active else Illegal
    case _ => Illegal
  }

  function PhaseAfter(start: Phase, events: seq<SessionEvent>): Phase {
    if events == [] then start else Advance(PhaseAfter(start, events[..|events| - 1]), events[|events| - 1])
  }

  function StartPhase(born: map<RunId, Status>, r: RunId): Phase {
    if r in born then PhaseOf(born[r]) else Unborn
  }

  function RunPhase(w: World, r: RunId): Phase {
    PhaseAfter(StartPhase(w.born, r), EventsOf(w.events, r))
  }

  // ---------- the invariant ----------

  /** Each session sits under its product, and no two sessions share a run. */
  ghost predicate KeysOk(sessions: map<ProductId, Session>, runs: set<RunId>) {
    && (forall p :: p in sessions ==> sessions[p].context.product == p && sessions[p].context.run in runs)
    && (forall p, q :: p in sessions && q in sessions && p != q ==>
          sessions[p].context.run != sessions[q].context.run)
  }

  /** The events of r are legal, and a run id not yet used has none. */
  predicate RunOk(w: World, r: RunId) {
    && RunPhase(w, r) != Illegal
    && (r !in w.runs ==> r !in w.born && EventsOf(w.events, r) == [])
  }

  /** The run of the session of p has come exactly as far as its status says. */
  predicate StatusOk(w: World, p: ProductId) {
    p in w.sessions ==> RunPhase(w, w.sessions[p].context.run) == PhaseOf(w.sessions[p].status)
  }

  ghost predicate Inv(w: World) {
    && KeysOk(w.sessions, w.runs)
    && (forall p :: StatusOk(w, p))
    && (forall r :: RunOk(w, r))
  }

  lemma EventStep(events: seq<SessionEvent>, e: SessionEvent, r: RunId)
    ensures EventsOf(events + [e], r) == (if e.session.context.run == r then EventsOf(events, r) + [e] else EventsOf(events, r))
  {
    assert (events + [e])[..|events|] == events;
  }

  lemma PhaseStep(start: Phase, events: seq<SessionEvent>, e: SessionEvent)
    ensures PhaseAfter(start, events + [e]) == Advance(PhaseAfter(start, events), e)
  {
    assert (events + [e])[..|events|] == events;
  }

  /** An accepted change advances the phase of its run exactly as the transition table moves the status. */
  lemma ApplyAdvances(s: Session, change: Change, now: int)
    requires Apply(s, change, now).Ok?
    ensures var t := Apply(s, change, now).value;
            && |t.events| == 1 && t.events[0].session == t.session
            && t.session.context == (if change.Resume? then change.context else s.context)
            && Advance(if change.Resume? then Unborn else PhaseOf(s.status), t.events[0]) == PhaseOf(t.session.status)
            && PhaseOf(t.session.status) != Illegal
  {
  }

  /** One more event moves only the phase of its own run. */
  lemma EventAdvances(w: World, sessions: map<ProductId, Session>, e: SessionEvent, runs: set<RunId>, r: RunId)
    ensures RunPhase(World(sessions, w.events + [e], runs, w.born), r)
         == if r == e.session.context.run then Advance(RunPhase(w, r), e) else RunPhase(w, r)
  {
    EventStep(w.events, e, r);
    PhaseStep(StartPhase(w.born, r), EventsOf(w.events, r), e);
  }

  lemma KeysStay(sessions: map<ProductId, Session>, runs: set<RunId>, p: ProductId, t: Session)
    requires KeysOk(sessions, runs) && p in sessions && t.context.product == p
    requires t.context.run !in runs || t.context.run == sessions[p].context.run
    ensures KeysOk(sessions[p := t], runs + {t.context.run})
  {
  }

  /** How far the run of a change has come: the session's status, or nowhere for the new run of a resume. */
  lemma PhaseBefore(w: World, p: ProductId, change: Change, r: RunId)
    requires Inv(w) && p in w.sessions
    requires if change.Resume? then r !in w.runs else r == w.sessions[p].context.run
    ensures RunPhase(w, r) == if change.Resume? then Unborn else PhaseOf(w.sessions[p].status)
  {
    assert RunOk(w, r) && StatusOk(w, p);
  }

  lemma LegalStatus(s: Status)
    ensures PhaseOf(s) != Illegal
  {
  }

  lemma AcceptedPhase(w: World, p: ProductId, change: Change, t: Session, e: SessionEvent, r: RunId)
    requires Inv(w) && p in w.sessions && e.session == t
    requires if change.Resume? then t.context.run !in w.runs else t.context.run == w.sessions[p].context.run
    requires Advance(if change.Resume? then Unborn else PhaseOf(w.sessions[p].status), e) == PhaseOf(t.status)
    ensures var w' := World(w.sessions[p := t], w.events + [e], w.runs + {t.context.run}, w.born);
            && RunPhase(w', r) == (if r == t.context.run then PhaseOf(t.status) else RunPhase(w, r))
            && RunOk(w', r)
  {
    hide Advance, KeysOk, RunPhase;
    assert RunOk(w, r);
    PhaseBefore(w, p, change, t.context.run);
    LegalStatus(t.status);
    EventAdvances(w, w.sessions[p := t], e, w.runs + {t.context.run}, r);
    EventStep(w.events, e, r);
  }

  lemma AcceptedStatus(w: World, p: ProductId, change: Change, t: Session, e: SessionEvent, q: ProductId)
    requires Inv(w) && p in w.sessions && e.session == t
    requires if change.Resume? then t.context.run !in w.runs else t.context.run == w.sessions[p].context.run
    requires Advance(if change.Resume? then Unborn else PhaseOf(w.sessions[p].status), e) == PhaseOf(t.status)
    ensures StatusOk(World(w.sessions[p := t], w.events + [e], w.runs + {t.context.run}, w.born), q)
  {
    if q == p {
      AcceptedPhase(w, p, change, t, e, t.context.run);
    } else if q in w.sessions {
      assert StatusOk(w, q);
      AcceptedPhase(w, p, change, t, e, w.sessions[q].context.run);
    }
  }

  lemma AcceptedKeeps(w: World, p: ProductId, change: Change, t: Session, e: SessionEvent)
    requires Inv(w) && p in w.sessions && e.session == t && t.context.product == p
    requires if change.Resume? then t.context.run !in w.runs else t.context.run == w.sessions[p].context.run
    requires Advance(if change.Resume? then Unborn else PhaseOf(w.sessions[p].status), e) == PhaseOf(t.status)
    ensures Inv(World(w.sessions[p := t], w.events + [e], w.runs + {t.context.run}, w.born))
  {
    var w' := World(w.sessions[p := t], w.events + [e], w.runs + {t.context.run}, w.born);
    KeysStay(w.sessions, w.runs, p, t);
    forall r ensures RunOk(w', r) {
      AcceptedPhase(w, p, change, t, e, r);
    }
    forall q ensures StatusOk(w', q) {
      AcceptedStatus(w, p, change, t, e, q);
    }
  }

  lemma ReplaceKeeps(w: World, context: Context, change: Change, now: int)
    requires Inv(w) && Enabled(w, Replace(context, change, now))
    ensures Inv(Next(w, Replace(context, change, now)))
  {
    var target := Target(w, context);
    if target.Some? && Apply(target.value, change, now).Ok? {
      var t := Apply(target.value, change, now).value;
      ApplyAdvances(target.value, change, now);
      assert t.events == [t.events[0]];
      AcceptedKeeps(w, context.product, change, t.session, t.events[0]);
    }
  }

  lemma AddKeeps(w: World, s: Session)
    requires Inv(w) && Enabled(w, Add(s))
    ensures Inv(Next(w, Add(s)))
  {
    var w' := Next(w, Add(s));
    forall r ensures RunPhase(w', r) == (if r == s.context.run then PhaseOf(s.status) else RunPhase(w, r)) && RunOk(w', r) {
      assert RunOk(w, r);
    }
    forall p ensures StatusOk(w', p) {
      assert StatusOk(w, p);
    }
  }

  lemma PurgeKeeps(w: World, products: set<ProductId>)
    requires Inv(w)
    ensures Inv(Next(w, Purge(products)))
  {
    var w' := Next(w, Purge(products));
    forall r ensures RunPhase(w', r) == RunPhase(w, r) && RunOk(w', r) {
      assert RunOk(w, r);
    }
    forall p ensures StatusOk(w', p) {
      assert StatusOk(w, p);
    }
  }

  lemma {:induction false} EveryRun(steps: seq<Step>)
    requires Run(steps).Some?
    ensures Inv(Run(steps).value)
  {
    if steps != [] {
      EveryRun(steps[..|steps| - 1]);
      var w := Run(steps[..|steps| - 1]).value;
      match steps[|steps| - 1]
      case Add(s) => AddKeeps(w, s);
      case Replace(context, change, now) => ReplaceKeeps(w, context, change, now);
      case Purge(products) => PurgeKeeps(w, products);
    }
  }

  // ---------- main results ----------

  /** After the phase Ended no event is legal, so an ending event is the last of its run. */
  lemma {:induction false} LegalShape(start: Phase, events: seq<SessionEvent>)
    requires PhaseAfter(start, events) != Illegal
    ensures forall i :: 0 <= i < |events| && Ending(events[i]) ==> i == |events| - 1
    ensures forall i, j :: 0 <= i < j < |events| ==> !(events[i].Started? && events[j].Started?)
    ensures PhaseAfter(start, events).Active? || PhaseAfter(start, events).Ended? || start == PhaseAfter(start, events)
            || PhaseAfter(start, events).Waiting?
    ensures (exists i :: 0 <= i < |events| && events[i].Started?) ==>
              PhaseAfter(start, events).Active? || PhaseAfter(start, events).Ended?
    ensures events != [] && Ending(events[|events| - 1]) ==> PhaseAfter(start, events).Ended?
  {
    if events != [] {
      var init, last := events[..|events| - 1], events[|events| - 1];
      LegalShape(start, init);
      assert events == init + [last];
      assert PhaseAfter(start, events) == Advance(PhaseAfter(start, init), last);
    }
  }

  /** Whatever changes arrive, each run makes at most one Started event and at most one ending event, which is
      its last event. */
  lemma OneStartOneEnd(steps: seq<Step>, r: RunId)
    requires Run(steps).Some?
    ensures var es := EventsOf(Run(steps).value.events, r);
            && (forall i, j :: 0 <= i < j < |es| ==> !(es[i].Started? && es[j].Started?))
            && (forall i :: 0 <= i < |es| && Ending(es[i]) ==> i == |es| - 1)
  {
    EveryRun(steps);
    var w := Run(steps).value;
    assert RunOk(w, r);
    LegalShape(StartPhase(w.born, r), EventsOf(w.events, r));
  }

  // ---------- the context of a run ----------

  /** The context that a session of run r or an event of run r carries is always the same. */
  ghost predicate ContextOk(sessions: map<ProductId, Session>, events: seq<SessionEvent>) {
    && (forall e, p :: e in events && p in sessions && e.session.context.run == sessions[p].context.run ==>
          e.session.context == sessions[p].context)
    && (forall e, f :: e in events && f in events && e.session.context.run == f.session.context.run ==>
          e.session.context == f.session.context)
  }

  lemma {:induction false} NoEventsOf(events: seq<SessionEvent>, r: RunId)
    requires EventsOf(events, r) == []
    ensures forall e :: e in events ==> e.session.context.run != r
  {
    if events != [] {
      NoEventsOf(events[..|events| - 1], r);
      assert events == events[..|events| - 1] + [events[|events| - 1]];
    }
  }

  lemma FreshRun(w: World, r: RunId)
    requires Inv(w) && r !in w.runs
    ensures forall e :: e in w.events ==> e.session.context.run != r
    ensures forall p :: p in w.sessions ==> w.sessions[p].context.run != r
  {
    assert RunOk(w, r);
    NoEventsOf(w.events, r);
  }

  lemma AcceptedKeepsContext(w: World, p: ProductId, change: Change, t: Session, e: SessionEvent)
    requires Inv(w) && ContextOk(w.sessions, w.events) && p in w.sessions && e.session == t
    requires if change.Resume? then t.context.run !in w.runs else t.context == w.sessions[p].context
    ensures ContextOk(w.sessions[p := t], w.events + [e])
  {
    hide RunPhase, RunOk, StatusOk;
    if change.Resume? {
      FreshRun(w, t.context.run);
    }
  }

  lemma {:induction false} EveryContext(steps: seq<Step>)
    requires Run(steps).Some?
    ensures ContextOk(Run(steps).value.sessions, Run(steps).value.events)
  {
    hide Apply, Inv, RunPhase, RunOk, StatusOk;
    if steps != [] {
      EveryContext(steps[..|steps| - 1]);
      EveryRun(steps[..|steps| - 1]);
      var w := Run(steps[..|steps| - 1]).value;
      match steps[|steps| - 1]
      case Add(s) => FreshRun(w, s.context.run);
      case Replace(context, change, now) =>
        var target := Target(w, context);
        if target.Some? && Apply(target.value, change, now).Ok? {
          var t := Apply(target.value, change, now).value;
          ApplyAdvances(target.value, change, now);
          assert t.events == [t.events[0]];
          AcceptedKeepsContext(w, context.product, change, t.session, t.events[0]);
        }
      case Purge(products) =>
    }
  }

  // ---------- the history of the session of a product ----------

  /** A change by a run that is not the current one of its product changes nothing and makes no event. */
  lemma StaleRunsAreIgnored(w: World, context: Context, change: Change, now: int)
    requires context.product in w.sessions ==> w.sessions[context.product].context.run != context.run
    ensures Next(w, Replace(context, change, now)) == w
  {
  }

  /** The session last added for a product, the changes that reached it since, and how many events were made
      before it. */
  datatype Story = Story(added: Session, changes: seq<TimedChange>, mark: nat)

  function Current(story: Story): Session {
    Lineage(story.added, story.changes).0
  }

  /** The story of product p after the steps; None when no session was added or the last one was purged. */
  function StoryOf(steps: seq<Step>, p: ProductId): Option<Story>
    requires Run(steps).Some?
  {
    if steps == [] then None
    else
      var init := steps[..|steps| - 1];
      var before := StoryOf(init, p);
      match steps[|steps| - 1]
      case Add(s) => if s.context.product == p then Some(Story(s, [], |Run(init).value.events|)) else before
      case Replace(context, change, now) =>
        if context.product == p && before.Some? && Current(before.value).context.run == context.run
        then Some(before.value.(changes := before.value.changes + [TimedChange(change, now)])) else before
      case Purge(products) => if p in products then None else before
  }

  function OfProduct(events: seq<SessionEvent>, p: ProductId): seq<SessionEvent> {
    if events == [] then []
    else
      var e := events[|events| - 1];
      if e.session.context.product == p then OfProduct(events[..|events| - 1], p) + [e]
      else OfProduct(events[..|events| - 1], p)
  }

  /** The session of p and the events of p since it was added are those of its story. */
  ghost predicate Told(w: World, story: Option<Story>, p: ProductId) {
    && (p in w.sessions <==> story.Some?)
    && (story.Some? ==>
          && story.value.mark <= |w.events|
          && (w.sessions[p], OfProduct(w.events[story.value.mark..], p))
             == Lineage(story.value.added, story.value.changes))
  }

  lemma OneMoreEvent(events: seq<SessionEvent>, mark: nat, e: SessionEvent, p: ProductId)
    requires mark <= |events|
    ensures OfProduct((events + [e])[mark..], p)
         == if e.session.context.product == p then OfProduct(events[mark..], p) + [e] else OfProduct(events[mark..], p)
  {
    assert (events + [e])[mark..] == events[mark..] + [e];
    assert (events[mark..] + [e])[..|events[mark..]|] == events[mark..];
  }

  lemma OneMoreChange(s: Session, changes: seq<TimedChange>, c: TimedChange)
    ensures var (before, events) := Lineage(s, changes);
      Lineage(s, changes + [c]) ==
      match Apply(before, c.change, c.now)
      case Ok(t) => (t.session, events + t.events)
      case Err(_) => (before, events)
  {
    hide Apply;
    assert (changes + [c])[..|changes|] == changes;
  }

  lemma ReplaceTells(w: World, story: Option<Story>, p: ProductId, context: Context, change: Change, now: int)
    requires KeysOk(w.sessions, w.runs) && Enabled(w, Replace(context, change, now)) && Told(w, story, p)
    ensures var more := if context.product == p && story.Some? && Current(story.value).context.run == context.run
                        then Some(story.value.(changes := story.value.changes + [TimedChange(change, now)])) else story;
      Told(Next(w, Replace(context, change, now)), more, p)
  {
    hide Apply, Lineage, OfProduct;
    var target := Target(w, context);
    if target.None? {
      StaleRunsAreIgnored(w, context, change, now);
    } else {
      if story.Some? {
        OneMoreChange(story.value.added, story.value.changes, TimedChange(change, now));
      }
      if Apply(target.value, change, now).Ok? {
        var t := Apply(target.value, change, now).value;
        ApplyAdvances(target.value, change, now);
        assert t.events == [t.events[0]];
        if story.Some? {
          OneMoreEvent(w.events, story.value.mark, t.events[0], p);
        }
      }
    }
  }

  /** In every run of the store the session of a product is the one last added for it after the changes that reached
      it since, and the events of the product since then are the ones these changes made. */
  lemma {:induction false} EveryStory(steps: seq<Step>, p: ProductId)
    requires Run(steps).Some?
    ensures Told(Run(steps).value, StoryOf(steps, p), p)
  {
    hide Apply, Inv, KeysOk, RunPhase;
    if steps != [] {
      var init := steps[..|steps| - 1];
      EveryStory(init, p);
      var w := Run(init).value;
      match steps[|steps| - 1]
      case Add(s) => assert w.events[|w.events|..] == [];
      case Replace(context, change, now) =>
        KeysOfRun(init);
        ReplaceTells(w, StoryOf(init, p), p, context, change, now);
      case Purge(products) =>
    }
  }

  lemma KeysOfRun(steps: seq<Step>)
    requires Run(steps).Some?
    ensures KeysOk(Run(steps).value.sessions, Run(steps).value.runs)
  {
    EveryRun(steps);
  }

  /** The step adds a session for p or purges it. */
  predicate Ousts(step: Step, p: ProductId) {
    match step
    case Add(s) => s.context.product == p
    case Purge(products) => p in products
    case Replace(_, _, _) => false
  }

  lemma EndedIsKept(w: World, step: Step, p: ProductId)
    requires KeysOk(w.sessions, w.runs) && Enabled(w, step) && !Ousts(step, p)
    requires p in w.sessions && (w.sessions[p].status.Done? || w.sessions[p].status.Broken?)
    ensures var w' := Next(w, step);
      p in w'.sessions && w'.sessions[p] == w.sessions[p] && OfProduct(w'.events, p) == OfProduct(w.events, p)
  {
    hide OfProduct;
    match step
    case Replace(context, change, now) =>
      var target := Target(w, context);
      if target.Some? && Apply(target.value, change, now).Ok? {
        hide Apply;
        var t := Apply(target.value, change, now).value;
        ApplyAdvances(target.value, change, now);
        assert t.events == [t.events[0]];
        OneMoreEvent(w.events, 0, t.events[0], p);
        assert w.events[0..] == w.events && (w.events + t.events)[0..] == w.events + t.events;
      }
    case _ =>
  }

  /** A completed or failed session stays, and its product makes no further event, until a session is added for the
      product or it is purged. */
  lemma {:induction false} EndedStays(steps: seq<Step>, more: seq<Step>, p: ProductId)
    requires Run(steps + more).Some? && Run(steps).Some? && p in Run(steps).value.sessions
    requires var s := Run(steps).value.sessions[p]; s.status.Done? || s.status.Broken?
    requires forall step :: step in more ==> !Ousts(step, p)
    ensures var w, w' := Run(steps).value, Run(steps + more).value;
      p in w'.sessions && w'.sessions[p] == w.sessions[p] && OfProduct(w'.events, p) == OfProduct(w.events, p)
  {
    hide OfProduct, Next, KeysOk;
    if more == [] {
      assert steps + more == steps;
    } else {
      var init, last := more[..|more| - 1], more[|more| - 1];
      assert (steps + more)[..|steps + more| - 1] == steps + init;
      EndedStays(steps, init, p);
      KeysOfRun(steps + init);
      EndedIsKept(Run(steps + init).value, last, p);
    }
  }
}
