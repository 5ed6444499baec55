/**
 From session events to the backend: the lock that joins numbering and queueing (ai/app/callbacks/__init__.py),
 the builder and the outbox together.
 */
module Delivery {
  import opened Common
  import opened Domain
  import opened Callbacks
  import opened Sessions
  import B = EventBuilders
  import O = Outbox
  import I = OutboxInvariant
  import T = OutboxTheorems

  /** `held` is the batch a session thread has built and not yet put; holding one is holding the lock. */
  datatype System = System(builder: B.Builder, log: seq<B.Entry>, held: Option<seq<Callback>>, outbox: O.State)

  function Init(workers: nat): System {
    System(B.EMPTY_BUILDER, [], None, O.Init(workers))
  }

  datatype Step = Build(event: SessionEvent, content: Option<nat>) | Put | Outbox(step: O.Step)

  /** `home` gives the product of each run: run ids are unique across products. */
  type Home = RunId -> ProductId

  predicate Enabled(home: Home, s: System, step: Step) {
    match step
    case Build(e, _) => s.held.None? && e.session.context.product == home(e.session.context.run)
    case Put => s.held.Some?
    case Outbox(o) => !o.Put? && O.Enabled(s.outbox, o)
  }

  function Next(home: Home, max: nat, s: System, step: Step): System
    requires Enabled(home, s, step)
  {
    match step
    case Build(e, content) =>
      var (b, entries) := B.Build(s.builder, e, content);
      // a refused callback raises, and the lock is released without a put
      var raised := entries != [] && entries[0].Lost?;
      System(b, s.log + entries, if raised then None else Some(B.MadeOf(entries)), s.outbox)
    case Put => s.(held := None, outbox := O.Apply(max, s.outbox, O.Put(s.held.value)))
    case Outbox(o) => s.(outbox := O.Apply(max, s.outbox, o))
  }

  function Run(home: Home, max: nat, workers: nat, steps: seq<Step>): Option<System> {
    if steps == [] then Some(Init(workers))
    else
      var before := Run(home, max, workers, steps[..|steps| - 1]);
      if before.Some? && Enabled(home, before.value, steps[|steps| - 1])
      then Some(Next(home, max, before.value, steps[|steps| - 1])) else None
  }

  // ---------- the invariant ----------

  function Held(s: System): seq<Callback> {
    if s.held.Some? then s.held.value else []
  }

  predicate AtHome(home: Home, cs: seq<Callback>) {
    forall c :: c in cs ==> c.product == home(c.run)
  }

  ghost predicate Inv(home: Home, max: nat, s: System) {
    && B.Inv(s.builder, s.log)
    && I.Inv(max, s.outbox)
    && B.MadeOf(s.log) == s.outbox.box.given + Held(s)
    && AtHome(home, B.MadeOf(s.log))
    && AtHome(home, s.outbox.sent)
  }

  lemma {:induction false} PutGives(b: O.Box, es: seq<Callback>)
    ensures O.PutAll(b, es).given == b.given + es
  {
    if es != [] {
      PutGives(b, es[..|es| - 1]);
      assert es == es[..|es| - 1] + [es[|es| - 1]];
    }
  }

  lemma {:induction false} ClearGives(b: O.Box, order: seq<ProductId>)
    requires forall p :: p in order ==> p in b.lanes
    ensures O.ClearLanes(b, order).given == b.given
  {
    if order != [] {
      ClearGives(b, order[..|order| - 1]);
    }
  }

  lemma {:induction false} MemberOfProduct(cs: seq<Callback>, c: Callback)
    requires c in OfProduct(cs, c.product)
    ensures c in cs
  {
    if cs != [] && cs[|cs| - 1] != c {
      MemberOfProduct(cs[..|cs| - 1], c);
    }
  }

  /** A carried event was given to put(). */
  lemma CarriedWasGiven(max: nat, s: O.State, w: nat)
    requires I.Inv(max, s) && w < |s.workers| && s.workers[w].Delivering?
    ensures s.workers[w].event in s.box.given
  {
    var e, p := s.workers[w].event, s.workers[w].product;
    I.CarriedHere(s.workers, w);
    assert I.Balanced(OfProduct(s.box.accepted, p), I.Finished(s.box.records, O.ByWorker, p), I.Carried(s.workers, p),
                      I.Lane(s.box.lanes, p), I.Finished(s.box.records, O.ByClose, p));
    assert e in [e] && e in OfProduct(s.box.accepted, p);
    MemberOfProduct(s.box.accepted, e);
  }

  lemma OutboxKeeps(home: Home, max: nat, s: System, o: O.Step)
    requires Inv(home, max, s) && Enabled(home, s, Outbox(o))
    ensures Inv(home, max, Next(home, max, s, Outbox(o)))
  {
    hide B.Inv, I.Inv;
    I.StepKeeps(max, s.outbox, o);
    if o.CloseWake? {
      ClearGives(s.outbox.box, o.order);
    }
    if o.Send? {
      CarriedWasGiven(max, s.outbox, o.w);
    }
  }

  lemma LostAlone(b: B.Builder, e: SessionEvent, content: Option<nat>)
    ensures var entries := B.Build(b, e, content).1;
            entries != [] && entries[0].Lost? ==> entries == [entries[0]]
  {
  }

  lemma BuildKeeps(home: Home, max: nat, s: System, e: SessionEvent, content: Option<nat>)
    requires Inv(home, max, s) && Enabled(home, s, Build(e, content))
    ensures Inv(home, max, Next(home, max, s, Build(e, content)))
  {
    hide B.Build, B.Inv, I.Inv;
    var entries := B.Build(s.builder, e, content).1;
    B.BuildKeeps(s.builder, s.log, e, content);
    B.MadeSplit(s.log, entries);
    EntriesAtHome(home, s.builder, e, content);
    if entries != [] && entries[0].Lost? {
      LostAlone(s.builder, e, content);
      B.MadeOne(entries[0]);
    }
  }

  lemma {:induction false} MadeMember(entries: seq<B.Entry>, c: Callback)
    requires c in B.MadeOf(entries)
    ensures B.Made(c) in entries
  {
    if entries[|entries| - 1] != B.Made(c) {
      MadeMember(entries[..|entries| - 1], c);
    }
  }

  lemma MadeFromEvent(b: B.Builder, e: SessionEvent, content: Option<nat>, x: B.Entry)
    requires x in B.Build(b, e, content).1
    ensures x.Made? ==> x.callback.product == e.session.context.product && x.callback.run == e.session.context.run
  {
    hide B.Valid, B.Bodies, B.Heard, B.StateOf, B.PublicStage;
  }

  lemma EntriesAtHome(home: Home, b: B.Builder, e: SessionEvent, content: Option<nat>)
    requires e.session.context.product == home(e.session.context.run)
    ensures AtHome(home, B.MadeOf(B.Build(b, e, content).1))
  {
    hide B.Build;
    var entries := B.Build(b, e, content).1;
    forall c | c in B.MadeOf(entries) ensures c.product == home(c.run) {
      MadeMember(entries, c);
      MadeFromEvent(b, e, content, B.Made(c));
    }
  }

  lemma {:induction false} EveryRun(home: Home, max: nat, workers: nat, steps: seq<Step>)
    requires Run(home, max, workers, steps).Some?
    ensures Inv(home, max, Run(home, max, workers, steps).value)
  {
    if steps == [] {
      I.InitInv(max, workers);
      B.EveryStream([]);
    } else {
      EveryRun(home, max, workers, steps[..|steps| - 1]);
      var s := Run(home, max, workers, steps[..|steps| - 1]).value;
      match steps[|steps| - 1]
      case Build(e, content) => BuildKeeps(home, max, s, e, content);
      case Put =>
        I.PutKeeps(max, s.outbox, s.held.value);
        PutGives(s.outbox.box, s.held.value);
      case Outbox(o) => OutboxKeeps(home, max, s, o);
    }
  }

  // ---------- order of one run ----------

  /** Numbers increase strictly and only the last callback may be terminal. */
  predicate Ordered(cs: seq<Callback>) {
    && (forall i, j :: 0 <= i < j < |cs| ==> cs[i].sequence < cs[j].sequence)
    && (forall i :: 0 <= i < |cs| && Terminal(cs[i]) ==> i == |cs| - 1)
  }

  lemma {:induction false} RunOfProduct(cs: seq<Callback>, home: Home, r: RunId)
    requires AtHome(home, cs)
    ensures OfRun(OfProduct(cs, home(r)), r) == OfRun(cs, r)
  {
    if cs != [] {
      var init, c := cs[..|cs| - 1], cs[|cs| - 1];
      RunOfProduct(init, home, r);
      if c.product == home(r) {
        RunStep(OfProduct(init, home(r)), c, r);
      } else {
        assert OfProduct(cs, home(r)) == OfProduct(init, home(r));
      }
    }
  }

  lemma RunStep(cs: seq<Callback>, c: Callback, r: RunId)
    ensures OfRun(cs + [c], r) == if c.run == r then OfRun(cs, r) + [c] else OfRun(cs, r)
  {
    assert (cs + [c])[..|cs|] == cs;
  }

  lemma {:induction false} RunSplit(xs: seq<Callback>, ys: seq<Callback>, r: RunId)
    ensures OfRun(xs + ys, r) == OfRun(xs, r) + OfRun(ys, r)
  {
    if ys == [] {
      assert xs + ys == xs;
    } else {
      RunSplit(xs, ys[..|ys| - 1], r);
      assert (xs + ys)[..|xs + ys| - 1] == xs + ys[..|ys| - 1];
    }
  }

  lemma OrderedPrefix(xs: seq<Callback>, ys: seq<Callback>)
    requires Ordered(xs + ys)
    ensures Ordered(xs)
  {
    assert forall i :: 0 <= i < |xs| ==> (xs + ys)[i] == xs[i];
  }

  /** The events of run r that a worker has finished. */
  function Done(rs: seq<O.Record>, p: ProductId, r: RunId): seq<Callback> {
    OfRun(I.Finished(rs, O.ByWorker, p), r)
  }

  lemma DoneStep(rs: seq<O.Record>, x: O.Record, p: ProductId, r: RunId)
    ensures Done(rs + [x], p, r)
         == if x.origin.ByWorker? && x.event.product == p && x.event.run == r then Done(rs, p, r) + [x.event]
            else Done(rs, p, r)
  {
    I.LogStep(rs, x, p);
    if x.origin.ByWorker? && x.event.product == p {
      RunStep(I.Finished(rs, O.ByWorker, p), x.event, r);
    }
  }

  /** The events of run r whose sending has begun. */
  ghost function Begun(s: O.State, p: ProductId, r: RunId): seq<Callback> {
    Done(s.box.records, p, r) + OfRun(I.Carried(s.workers, p), r)
  }

  /** Some in-order rest completes what has begun for p to all that was accepted for it. */
  lemma AcceptedFromBegun(max: nat, s: O.State, p: ProductId) returns (rest: seq<Callback>)
    requires I.Inv(max, s)
    ensures OfProduct(s.box.accepted, p)
         == I.Finished(s.box.records, O.ByWorker, p) + I.Carried(s.workers, p) + rest
  {
    rest := I.Lane(s.box.lanes, p) + I.Finished(s.box.records, O.ByClose, p);
    assert I.Balanced(OfProduct(s.box.accepted, p), I.Finished(s.box.records, O.ByWorker, p), I.Carried(s.workers, p),
                      I.Lane(s.box.lanes, p), I.Finished(s.box.records, O.ByClose, p));
  }

  lemma BegunSplit(done: seq<Callback>, carried: seq<Callback>, rest: seq<Callback>, r: RunId)
    ensures OfRun(done + carried + rest, r) == OfRun(done, r) + OfRun(carried, r) + OfRun(rest, r)
  {
    RunSplit(done + carried, rest, r);
    RunSplit(done, carried, r);
  }

  /** The callbacks accepted of a run start with what has begun. */
  lemma AcceptedOfRun(home: Home, max: nat, s: O.State, r: RunId) returns (rest: seq<Callback>)
    requires I.Inv(max, s) && AtHome(home, s.box.accepted)
    ensures OfRun(s.box.accepted, r) == Begun(s, home(r), r) + rest
  {
    var p := home(r);
    var more := AcceptedFromBegun(max, s, p);
    RunOfProduct(s.box.accepted, home, r);
    BegunSplit(I.Finished(s.box.records, O.ByWorker, p), I.Carried(s.workers, p), more, r);
    rest := OfRun(more, r);
  }

  /** What was built is what the outbox accepted, followed by what came too late or is still held. */
  lemma BuiltIsAccepted(home: Home, max: nat, s: System)
    requires Inv(home, max, s)
    ensures B.MadeOf(s.log) == s.outbox.box.accepted + (I.Late(s.outbox.box.records) + Held(s))
    ensures AtHome(home, s.outbox.box.accepted)
  {
    hide I.Balanced;
    var accepted, later := s.outbox.box.accepted, I.Late(s.outbox.box.records) + Held(s);
    assert B.MadeOf(s.log) == accepted + later;
    assert forall c :: c in accepted ==> c in accepted + later;
  }

  /** The events of a run whose sending has begun are, in order, a prefix of the callbacks built for it. */
  lemma BegunIsPrefix(home: Home, max: nat, s: System, r: RunId)
    requires Inv(home, max, s)
    ensures Begun(s.outbox, home(r), r) <= OfRun(B.MadeOf(s.log), r)
    ensures Ordered(OfRun(B.MadeOf(s.log), r)) && Ordered(Begun(s.outbox, home(r), r))
  {
    hide I.Inv, Begun, Ordered;
    var accepted := s.outbox.box.accepted;
    var later := I.Late(s.outbox.box.records) + Held(s);
    BuiltIsAccepted(home, max, s);
    var rest := AcceptedOfRun(home, max, s.outbox, r);
    RunSplit(accepted, later, r);
    BuiltIsOrdered(home, max, s, r);
    var begun, all := Begun(s.outbox, home(r), r), OfRun(B.MadeOf(s.log), r);
    assert all == begun + (rest + OfRun(later, r));
    OrderedPrefix(begun, rest + OfRun(later, r));
  }

  lemma BuiltIsOrdered(home: Home, max: nat, s: System, r: RunId)
    requires Inv(home, max, s)
    ensures Ordered(OfRun(B.MadeOf(s.log), r))
  {
    assert B.RunOk(s.builder, s.log, r);
    B.EntriesCommute(s.log, r);
    B.MadeCount(B.EntriesOf(s.log, r));
    B.TerminalIsLast(OfRun(B.MadeOf(s.log), r));
  }

  // ---------- what reaches the sender, and what is delivered ----------

  /** The delivered events of one run, in record order. */
  function Delivered(rs: seq<O.Record>, r: RunId): seq<Callback> {
    if rs == [] then []
    else
      var last := rs[|rs| - 1];
      if last.origin.ByWorker? && last.dropped.None? && last.event.run == r
      then Delivered(rs[..|rs| - 1], r) + [last.event] else Delivered(rs[..|rs| - 1], r)
  }

  lemma {:induction false} DeliveredWasDone(rs: seq<O.Record>, home: Home, r: RunId, c: Callback)
    requires c in Delivered(rs, r)
    requires forall x :: x in rs ==> x.event.product == home(x.event.run)
    ensures c in Done(rs, home(r), r)
  {
    var init, last := rs[..|rs| - 1], rs[|rs| - 1];
    assert rs == init + [last];
    DoneStep(init, last, home(r), r);
    if c in Delivered(init, r) {
      DeliveredWasDone(init, home, r, c);
    }
  }

  lemma AppendOrdered(cs: seq<Callback>, done: seq<Callback>, e: Callback)
    requires Ordered(cs) && (forall c :: c in cs ==> c in done) && Ordered(done + [e])
    ensures Ordered(cs + [e])
  {
    forall i | 0 <= i < |cs| ensures cs[i].sequence < e.sequence && !Terminal(cs[i]) {
      assert cs[i] in done;
      var k :| 0 <= k < |done| && done[k] == cs[i];
      assert (done + [e])[k] == cs[i] && (done + [e])[|done|] == e;
    }
  }

  /** Deliveries of a run follow the order of its finished events. */
  lemma {:induction false} DeliveredOrdered(rs: seq<O.Record>, home: Home, r: RunId)
    requires forall x :: x in rs ==> x.event.product == home(x.event.run)
    requires Ordered(Done(rs, home(r), r))
    ensures Ordered(Delivered(rs, r))
  {
    if rs != [] {
      var init, last := rs[..|rs| - 1], rs[|rs| - 1];
      assert rs == init + [last];
      DoneStep(init, last, home(r), r);
      assert Ordered(Done(init, home(r), r)) by {
        if Done(rs, home(r), r) != Done(init, home(r), r) {
          OrderedPrefix(Done(init, home(r), r), [last.event]);
        }
      }
      DeliveredOrdered(init, home, r);
      if last.origin.ByWorker? && last.dropped.None? && last.event.run == r {
        forall c | c in Delivered(init, r) ensures c in Done(init, home(r), r) {
          DeliveredWasDone(init, home, r, c);
        }
        AppendOrdered(Delivered(init, r), Done(init, home(r), r), last.event);
      }
    }
  }

  /** The sends of a run never go back in number, and nothing else is sent after its terminal callback. */
  predicate NeverBack(cs: seq<Callback>) {
    && (forall i, j :: 0 <= i < j < |cs| ==> cs[i].sequence <= cs[j].sequence)
    && (forall i, j :: 0 <= i < j < |cs| && (Terminal(cs[i]) || cs[i].sequence == cs[j].sequence) ==> cs[i] == cs[j])
  }

  lemma {:induction false} RepeatOfRun(e: Callback, n: nat, r: RunId)
    ensures OfRun(I.Repeat(e, n), r) == if e.run == r then I.Repeat(e, n) else []
  {
    if n > 0 {
      RepeatOfRun(e, n - 1, r);
      assert I.Repeat(e, n) == I.Repeat(e, n - 1) + [e];
      RunStep(I.Repeat(e, n - 1), e, r);
    } else {
      assert I.Repeat(e, n) == [];
    }
  }

  lemma AppendRepeats(sent: seq<Callback>, begun: seq<Callback>, e: Callback, n: nat)
    requires NeverBack(sent) && (forall c :: c in sent ==> c in begun) && Ordered(begun + [e])
    ensures NeverBack(sent + I.Repeat(e, n))
    ensures forall c :: c in sent + I.Repeat(e, n) ==> c in begun + [e]
  {
    forall i | 0 <= i < |sent| ensures sent[i].sequence < e.sequence && !Terminal(sent[i]) {
      assert sent[i] in begun;
      var k :| 0 <= k < |begun| && begun[k] == sent[i];
      assert (begun + [e])[k] == sent[i] && (begun + [e])[|begun|] == e;
    }
  }

  lemma SentStep(rs: seq<O.Record>, x: O.Record, p: ProductId, r: RunId)
    ensures OfRun(I.Sends(rs + [x], p), r)
         == if x.origin.ByWorker? && x.event.product == p && x.event.run == r
            then OfRun(I.Sends(rs, p), r) + I.Repeat(x.event, x.retries + 1) else OfRun(I.Sends(rs, p), r)
  {
    I.LogStep(rs, x, p);
    if x.origin.ByWorker? && x.event.product == p {
      RunSplit(I.Sends(rs, p), I.Repeat(x.event, x.retries + 1), r);
      RepeatOfRun(x.event, x.retries + 1, r);
    }
  }

  lemma {:induction false} SendsNeverBack(rs: seq<O.Record>, p: ProductId, r: RunId)
    requires Ordered(Done(rs, p, r))
    ensures NeverBack(OfRun(I.Sends(rs, p), r))
    ensures forall c :: c in OfRun(I.Sends(rs, p), r) ==> c in Done(rs, p, r)
  {
    if rs != [] {
      var init, last := rs[..|rs| - 1], rs[|rs| - 1];
      assert rs == init + [last];
      DoneStep(init, last, p, r);
      SentStep(init, last, p, r);
      if Done(rs, p, r) != Done(init, p, r) {
        OrderedPrefix(Done(init, p, r), [last.event]);
        SendsNeverBack(init, p, r);
        AppendRepeats(OfRun(I.Sends(init, p), r), Done(init, p, r), last.event, last.retries + 1);
      } else {
        SendsNeverBack(init, p, r);
      }
    }
  }

  /** However session threads, workers and close() interleave: the calls of the sender for one run never go back
      in number, repeat only whole callbacks, and stop at its terminal callback. */
  lemma SenderSeesRunInOrder(home: Home, max: nat, workers: nat, steps: seq<Step>, r: RunId)
    requires Run(home, max, workers, steps).Some?
    ensures NeverBack(OfRun(Run(home, max, workers, steps).value.outbox.sent, r))
  {
    EveryRun(home, max, workers, steps);
    var s := Run(home, max, workers, steps).value;
    SentNeverBack(home, max, s, r);
  }

  lemma SentOfRun(home: Home, max: nat, s: System, r: RunId)
    requires Inv(home, max, s)
    ensures OfRun(s.outbox.sent, r) ==
            OfRun(I.Sends(s.outbox.box.records, home(r)), r) + OfRun(I.InFlight(s.outbox.workers, home(r)), r)
  {
    hide I.Balanced, B.Inv, I.Sends, I.InFlight;
    RunOfProduct(s.outbox.sent, home, r);
    RunSplit(I.Sends(s.outbox.box.records, home(r)), I.InFlight(s.outbox.workers, home(r)), r);
  }

  lemma InFlightOfRun(ws: seq<O.Worker>, p: ProductId, r: RunId) returns (n: nat)
    requires I.OneOwner(ws)
    ensures OfRun(I.Carried(ws, p), r) == [] ==> OfRun(I.InFlight(ws, p), r) == []
    ensures OfRun(I.Carried(ws, p), r) != [] ==>
      OfRun(I.Carried(ws, p), r) == [OfRun(I.Carried(ws, p), r)[0]]
      && OfRun(I.InFlight(ws, p), r) == I.Repeat(OfRun(I.Carried(ws, p), r)[0], n)
  {
    n := 0;
    if w: nat :| I.Delivers(ws, w, p) {
      n := ws[w].attempt + if ws[w].sending then 1 else 0;
      I.CarriedHere(ws, w);
      RunStep([], ws[w].event, r);
      RepeatOfRun(ws[w].event, n, r);
      assert [] + [ws[w].event] == [ws[w].event];
    }
  }

  lemma SentNeverBack(home: Home, max: nat, s: System, r: RunId)
    requires Inv(home, max, s)
    ensures NeverBack(OfRun(s.outbox.sent, r))
  {
    hide B.Inv, OfRun, I.Sends, I.InFlight, I.Carried, NeverBack, Ordered, I.Ledger, I.Wire, I.Shape, I.Closing;
    var p, ws, rs := home(r), s.outbox.workers, s.outbox.box.records;
    assert I.OneOwner(ws);
    BegunIsPrefix(home, max, s, r);
    SentOfRun(home, max, s, r);
    OrderedPrefix(Done(rs, p, r), OfRun(I.Carried(ws, p), r));
    SendsNeverBack(rs, p, r);
    var n := InFlightOfRun(ws, p, r);
    if OfRun(I.Carried(ws, p), r) != [] {
      AppendRepeats(OfRun(I.Sends(rs, p), r), Done(rs, p, r), OfRun(I.Carried(ws, p), r)[0], n);
    } else {
      assert OfRun(I.Sends(rs, p), r) + [] == OfRun(I.Sends(rs, p), r);
    }
  }

  lemma {:induction false} RecordsAtHome(home: Home, max: nat, workers: nat, steps: seq<Step>)
    requires Run(home, max, workers, steps).Some?
    ensures forall x :: x in Run(home, max, workers, steps).value.outbox.box.records ==> x.event.product == home(x.event.run)
  {
    EveryRun(home, max, workers, steps);
    var s := Run(home, max, workers, steps).value;
    forall x | x in s.outbox.box.records ensures x.event.product == home(x.event.run) {
      RecordWasGiven(max, s.outbox, x);
    }
  }

  lemma {:induction false} FinishedMember(rs: seq<O.Record>, x: O.Record)
    requires x in rs
    ensures x.event in I.Finished(rs, x.origin, x.event.product)
    ensures x.origin.ByLatePut? ==> x.event in I.Late(rs)
  {
    if rs[|rs| - 1] != x {
      FinishedMember(rs[..|rs| - 1], x);
    }
  }

  lemma RecordWasGiven(max: nat, s: O.State, x: O.Record)
    requires I.Inv(max, s) && x in s.box.records
    ensures x.event in s.box.given
  {
    var p := x.event.product;
    FinishedMember(s.box.records, x);
    assert I.Balanced(OfProduct(s.box.accepted, p), I.Finished(s.box.records, O.ByWorker, p), I.Carried(s.workers, p),
                      I.Lane(s.box.lanes, p), I.Finished(s.box.records, O.ByClose, p));
    if !x.origin.ByLatePut? {
      assert x.event in OfProduct(s.box.accepted, p);
      MemberOfProduct(s.box.accepted, x.event);
    }
  }

  /** And the delivered callbacks of one run increase strictly in number; at most one of them is terminal, after
      every other delivery of that run. */
  lemma DeliveriesAreOrdered(home: Home, max: nat, workers: nat, steps: seq<Step>, r: RunId)
    requires Run(home, max, workers, steps).Some?
    ensures Ordered(Delivered(Run(home, max, workers, steps).value.outbox.box.records, r))
  {
    EveryRun(home, max, workers, steps);
    RecordsAtHome(home, max, workers, steps);
    var s := Run(home, max, workers, steps).value;
    BegunIsPrefix(home, max, s, r);
    OrderedPrefix(Done(s.outbox.box.records, home(r), r), OfRun(I.Carried(s.outbox.workers, home(r)), r));
    DeliveredOrdered(s.outbox.box.records, home, r);
  }
}
