/** What the outbox promises about ownership, order, accounting and shutdown, over every run. */
module OutboxTheorems {
  import opened Common
  import opened Domain
  import opened Callbacks
  import opened Outbox
  import opened OutboxInvariant

  ghost predicate Reachable(max: nat, n: nat, s: State) {
    exists steps :: Run(max, Init(n), steps) == Some(s)
  }

  lemma ReachableInv(max: nat, n: nat, s: State)
    requires Reachable(max, n, s)
    ensures Inv(max, s)
  {
    var steps :| Run(max, Init(n), steps) == Some(s);
    EveryRun(max, n, steps);
  }

  lemma {:induction false} WorkersStay(max: nat, n: nat, steps: seq<Step>)
    requires Run(max, Init(n), steps).Some?
    ensures |Run(max, Init(n), steps).value.workers| == n
  {
    if steps != [] {
      WorkersStay(max, n, steps[..|steps| - 1]);
    }
  }

  // ---------- ownership ----------

  function TokenCount(ready: seq<Option<ProductId>>, p: ProductId): nat {
    if ready == [] then 0 else (if ready[0] == Some(p) then 1 else 0) + TokenCount(ready[1..], p)
  }

  function OwnerCount(ws: seq<Worker>, p: ProductId): nat {
    if ws == [] then 0 else (if Busy(ws[0]) && ws[0].product == p then 1 else 0) + OwnerCount(ws[1..], p)
  }

  lemma {:induction false} CountTokens(ready: seq<Option<ProductId>>, p: ProductId)
    requires forall i, j :: 0 <= i < j < |ready| && ready[i].Some? ==> ready[i] != ready[j]
    ensures TokenCount(ready, p) == if Some(p) in ready then 1 else 0
  {
    if ready != [] {
      CountTokens(ready[1..], p);
      assert Some(p) in ready <==> ready[0] == Some(p) || Some(p) in ready[1..];
    }
  }

  lemma {:induction false} CountOwners(ws: seq<Worker>, p: ProductId)
    requires OneOwner(ws)
    ensures OwnerCount(ws, p) == if exists w: nat :: OwnedBy(ws, w, p) then 1 else 0
  {
    if ws != [] {
      CountOwners(ws[1..], p);
      if w: nat :| OwnedBy(ws[1..], w, p) {
        assert OwnedBy(ws, w + 1, p);
      }
      if w: nat :| OwnedBy(ws, w, p) {
        assert w == 0 || OwnedBy(ws[1..], w - 1, p);
      }
      if Busy(ws[0]) && ws[0].product == p {
        assert OwnedBy(ws, 0, p);
      }
    }
  }

  /** A product has a lane exactly when it has one token or one owner, and never both or two. */
  lemma OneTokenOrOneOwner(max: nat, n: nat, s: State, p: ProductId)
    requires Reachable(max, n, s)
    ensures TokenCount(s.box.ready, p) + OwnerCount(s.workers, p) == if p in s.box.lanes then 1 else 0
  {
    ReachableInv(max, n, s);
    CountTokens(s.box.ready, p);
    CountOwners(s.workers, p);
    if w: nat :| OwnedBy(s.workers, w, p) {
      assert Some(p) !in s.box.ready;
    }
  }

  /** Two workers never carry, and so never send, events of the same product. */
  lemma OneSenderPerProduct(max: nat, n: nat, s: State, v: nat, w: nat)
    requires Reachable(max, n, s) && v < |s.workers| && w < |s.workers|
    requires s.workers[v].Delivering? && s.workers[w].Delivering?
    requires s.workers[v].event.product == s.workers[w].event.product
    ensures v == w
  {
    ReachableInv(max, n, s);
  }

  // ---------- order and accounting ----------

  lemma {:induction false} SplitProduct(xs: seq<Callback>, ys: seq<Callback>, p: ProductId)
    ensures OfProduct(xs + ys, p) == OfProduct(xs, p) + OfProduct(ys, p)
  {
    if ys == [] {
      assert xs + ys == xs;
    } else {
      SplitProduct(xs, ys[..|ys| - 1], p);
      assert (xs + ys)[..|xs + ys| - 1] == xs + ys[..|ys| - 1];
    }
  }

  lemma {:induction false} LateOfProduct(rs: seq<Record>, p: ProductId)
    ensures OfProduct(Late(rs), p) == Finished(rs, ByLatePut, p)
  {
    if rs != [] {
      LateOfProduct(rs[..|rs| - 1], p);
      var r := rs[|rs| - 1];
      if r.origin.ByLatePut? {
        EventStep(Late(rs[..|rs| - 1]), r.event, p);
      } else {
        assert Late(rs) == Late(rs[..|rs| - 1]);
      }
    }
  }

  /** Every event ever given to put() is, for each product and in the order given, in exactly one of:
      recorded by a worker, carried by the owner, waiting in the lane, recorded by close(),
      recorded by put() after close(). */
  lemma EveryEventIsInOnePlace(max: nat, n: nat, s: State, p: ProductId)
    requires Reachable(max, n, s)
    ensures OfProduct(s.box.given, p)
         == Finished(s.box.records, ByWorker, p) + Carried(s.workers, p) + Lane(s.box.lanes, p)
            + Finished(s.box.records, ByClose, p) + Finished(s.box.records, ByLatePut, p)
  {
    ReachableInv(max, n, s);
    SplitProduct(s.box.accepted, Late(s.box.records), p);
    LateOfProduct(s.box.records, p);
    assert Balanced(OfProduct(s.box.accepted, p), Finished(s.box.records, ByWorker, p), Carried(s.workers, p),
                    Lane(s.box.lanes, p), Finished(s.box.records, ByClose, p));
  }

  /** The events whose sending has begun are an in-order prefix of what was accepted for the product, and the
      calls of the sender are exactly these events, each repeated without interleaving: once plus once per
      recorded retry, never more than max retries. */
  lemma SendsFollowAcceptance(max: nat, n: nat, s: State, p: ProductId)
    requires Reachable(max, n, s)
    ensures Finished(s.box.records, ByWorker, p) + Carried(s.workers, p) <= OfProduct(s.box.accepted, p)
    ensures OfProduct(s.sent, p) == Sends(s.box.records, p) + InFlight(s.workers, p)
    ensures forall r :: r in s.box.records ==> r.retries <= max
  {
    ReachableInv(max, n, s);
    assert Balanced(OfProduct(s.box.accepted, p), Finished(s.box.records, ByWorker, p), Carried(s.workers, p),
                    Lane(s.box.lanes, p), Finished(s.box.records, ByClose, p));
  }

  // ---------- shutdown ----------

  /** When the lanes are empty nothing waits, nothing is carried, and every accepted event has its record. */
  lemma EmptyLanesMeanDone(max: nat, n: nat, s: State)
    requires Reachable(max, n, s) && s.box.lanes == map[]
    ensures forall w :: 0 <= w < |s.workers| ==> !Busy(s.workers[w])
    ensures forall p :: OfProduct(s.box.accepted, p)
              == Finished(s.box.records, ByWorker, p) + Finished(s.box.records, ByClose, p)
  {
    ReachableInv(max, n, s);
    AllFinished(s);
  }

  lemma AllFinished(s: State)
    requires Ledger(s.box.accepted, s.box.records, s.box.lanes, s.workers) && s.box.lanes == map[]
    requires forall w :: 0 <= w < |s.workers| ==> !Busy(s.workers[w])
    ensures forall p :: OfProduct(s.box.accepted, p)
              == Finished(s.box.records, ByWorker, p) + Finished(s.box.records, ByClose, p)
  {
    forall p ensures OfProduct(s.box.accepted, p)
      == Finished(s.box.records, ByWorker, p) + Finished(s.box.records, ByClose, p)
    {
      NothingCarried(s.workers, p);
      assert Balanced(OfProduct(s.box.accepted, p), Finished(s.box.records, ByWorker, p), [], [],
                      Finished(s.box.records, ByClose, p));
    }
  }

  lemma NoLaneLeft(lanes: Lanes, ready: seq<Option<ProductId>>, ws: seq<Worker>)
    requires Tokens(lanes, ready, ws)
    requires ready == [] && forall w :: 0 <= w < |ws| ==> !Busy(ws[w])
    ensures lanes == map[]
  {
    assert forall p :: p in lanes ==> p !in lanes;
  }

  /** What close() returns is the number of queued events it found, all of them recorded as dropped;
      it is zero when the lanes were empty. */
  lemma CloseReturnsDropped(max: nat, n: nat, s: State, order: seq<ProductId>)
    requires Reachable(max, n, s) && Enabled(s, CloseWake(order))
    ensures var t := Apply(max, s, CloseWake(order));
            && t.closer.dropped == Queued(s.box, order) == ClosedCount(t.box.records)
            && (s.box.lanes == map[] ==> t.closer.dropped == 0)
            && (forall p :: p in t.box.lanes ==> t.box.lanes[p] == [])
            && forall p :: Finished(t.box.records, ByClose, p) == Lane(s.box.lanes, p)
  {
    ReachableInv(max, n, s);
    CloseWakeKeeps(max, s, order);
    var t := Apply(max, s, CloseWake(order));
    if s.box.lanes == map[] {
      NothingToEnumerate(order);
    }
    ClearLanesClears(s.box, order);
    forall p ensures Finished(t.box.records, ByClose, p) == Lane(s.box.lanes, p) {
      NoneCloses(s.box.records, p);
      assert ClearedAt(s.box, order, ClearLanes(s.box, order), p);
      assert p in order <==> p in s.box.lanes;
    }
  }

  function WorkerWeight(max: nat, w: Worker): int {
    match w
    case Idle => 1
    case Owner(_) => 2
    case Delivering(_, _, attempt, sending) => 3 + 2 * (max - attempt) + if sending then 0 else 1
    case Exited => 0
  }

  function WorkersWeight(max: nat, ws: seq<Worker>): int {
    if ws == [] then 0 else WorkerWeight(max, ws[0]) + WorkersWeight(max, ws[1..])
  }

  function QueueWeight(ready: seq<Option<ProductId>>): nat {
    if ready == [] then 0 else (if ready[0].Some? then 2 else 1) + QueueWeight(ready[1..])
  }

  /** The work left after close() has stopped the outbox. */
  function Measure(max: nat, s: State): int
    requires s.closer.Stopping?
  {
    WorkersWeight(max, s.workers) + QueueWeight(s.box.ready) + 2 * (|s.workers| - s.closer.poisoned)
  }

  lemma {:induction false} WeightStep(max: nat, ws: seq<Worker>, w: nat, next: Worker)
    requires w < |ws|
    ensures WorkersWeight(max, ws[w := next])
         == WorkersWeight(max, ws) - WorkerWeight(max, ws[w]) + WorkerWeight(max, next)
  {
    if w == 0 {
      assert ws[w := next][1..] == ws[1..];
    } else {
      assert ws[w := next][1..] == ws[1..][w - 1 := next];
      WeightStep(max, ws[1..], w - 1, next);
    }
  }

  lemma {:induction false} QueueStep(ready: seq<Option<ProductId>>, t: Option<ProductId>)
    ensures QueueWeight(ready + [t]) == QueueWeight(ready) + if t.Some? then 2 else 1
  {
    if ready == [] {
      assert ready + [t] == [t];
    } else {
      assert (ready + [t])[1..] == ready[1..] + [t];
      QueueStep(ready[1..], t);
    }
  }

  lemma {:induction false} WeightNonNegative(max: nat, ws: seq<Worker>)
    requires forall w :: 0 <= w < |ws| && ws[w].Delivering? ==> ws[w].attempt <= max
    ensures WorkersWeight(max, ws) >= 0
  {
    if ws != [] {
      WeightNonNegative(max, ws[1..]);
    }
  }

  lemma {:induction false} LatePuts(b: Box, es: seq<Callback>)
    requires b.closed
    ensures PutAll(b, es) == b.(records := PutAll(b, es).records, given := PutAll(b, es).given)
  {
    if es != [] {
      LatePuts(b, es[..|es| - 1]);
    }
  }

  lemma WorkerProgress(max: nat, s: State, step: Step)
    requires s.closer.Stopping? && Enabled(s, step) && (forall p :: p in s.box.lanes ==> s.box.lanes[p] == [])
    requires step.Get? || step.Take? || step.StopWaiting? || step.Send? || step.Answer?
    requires forall w :: 0 <= w < |s.workers| && s.workers[w].Delivering? ==> s.workers[w].attempt <= max
    ensures var t := Apply(max, s, step);
            && t.closer == s.closer && |t.workers| == |s.workers|
            && Measure(max, t) < Measure(max, s)
  {
    var t := Apply(max, s, step);
    WeightStep(max, s.workers, step.w, t.workers[step.w]);
  }

  /** Once close() has stopped the outbox, late puts change no work, and every other step of any worker or
      of close() itself leaves strictly less. */
  lemma ShutdownProgress(max: nat, s: State, step: Step)
    requires Inv(max, s) && s.closer.Stopping? && Enabled(s, step)
    ensures var t := Apply(max, s, step);
            && t.closer.Stopping? && |t.workers| == |s.workers|
            && (if step.Put? then Measure(max, t) == Measure(max, s) else Measure(max, t) < Measure(max, s))
  {
    match step
    case Put(events) => LatePuts(s.box, events);
    case Poison => QueueStep(s.box.ready, None);
    case _ => WorkerProgress(max, s, step);
  }

  function WorkSteps(steps: seq<Step>): nat {
    if steps == [] then 0 else WorkSteps(steps[..|steps| - 1]) + if steps[|steps| - 1].Put? then 0 else 1
  }

  /** So no run makes more such steps than the measure allows: every worker stops. */
  lemma {:induction false} ShutdownTerminates(max: nat, s: State, steps: seq<Step>)
    requires Inv(max, s) && s.closer.Stopping? && Run(max, s, steps).Some?
    ensures var t := Run(max, s, steps).value;
            && Inv(max, t) && t.closer.Stopping? && |t.workers| == |s.workers|
            && 0 <= Measure(max, t) <= Measure(max, s) - WorkSteps(steps)
  {
    if steps == [] {
      WeightNonNegative(max, s.workers);
    } else {
      ShutdownTerminates(max, s, steps[..|steps| - 1]);
      var before := Run(max, s, steps[..|steps| - 1]).value;
      ShutdownProgress(max, before, steps[|steps| - 1]);
      StepKeeps(max, before, steps[|steps| - 1]);
      WeightNonNegative(max, Run(max, s, steps).value.workers);
    }
  }

  lemma {:induction false} ExitedAll(ws: seq<Worker>)
    requires ExitedCount(ws) == |ws|
    ensures forall w :: 0 <= w < |ws| ==> ws[w].Exited?
  {
    if ws != [] {
      ExitedBound(ws[1..]);
      ExitedAll(ws[1..]);
    }
  }

  lemma {:induction false} ExitedBound(ws: seq<Worker>)
    ensures ExitedCount(ws) <= |ws|
  {
    if ws != [] {
      ExitedBound(ws[1..]);
    }
  }

  lemma {:induction false} EndTokenCounted(ready: seq<Option<ProductId>>)
    requires None in ready
    ensures Nones(ready) > 0
  {
    if ready[0].Some? {
      EndTokenCounted(ready[1..]);
    }
  }

  lemma AtRest(max: nat, s: State)
    requires Inv(max, s) && s.closer.Stopping? && |s.workers| > 0
    requires forall step: Step :: !step.Put? ==> !Enabled(s, step)
    ensures s.closer.poisoned == |s.workers| && s.box.ready == []
    ensures forall w :: 0 <= w < |s.workers| ==> s.workers[w].Exited?
    ensures s.box.lanes == map[]
    ensures forall p :: OfProduct(s.box.accepted, p)
              == Finished(s.box.records, ByWorker, p) + Finished(s.box.records, ByClose, p)
  {
    assert !Enabled(s, Poison);
    forall w | 0 <= w < |s.workers| ensures !Busy(s.workers[w]) && (s.workers[w].Exited? || s.box.ready == []) {
      assert !Enabled(s, Get(w)) && !Enabled(s, Take(w)) && !Enabled(s, Send(w)) && !Enabled(s, Answer(w, TransportError));
    }
    if s.box.ready == [] {
      ExitedAll(s.workers);
    } else {
      assert s.workers[0].Exited?;
      assert s.box.ready[0] in s.box.ready;
      EndTokenCounted(s.box.ready);
      AllExited(s.workers);
    }
    NoLaneLeft(s.box.lanes, s.box.ready, s.workers);
    AllFinished(s);
  }

  /** And the n workers only stop when all is settled: n end tokens were put and each worker took one, no token or lane
      key is left, and every accepted event has its record. */
  lemma ShutdownComplete(max: nat, n: nat, s: State)
    requires Reachable(max, n, s) && s.closer.Stopping? && n > 0
    requires forall step: Step :: !step.Put? ==> !Enabled(s, step)
    ensures |s.workers| == n && s.closer.poisoned == n && s.box.ready == []
    ensures forall w :: 0 <= w < n ==> s.workers[w].Exited?
    ensures s.box.lanes == map[]
    ensures forall p :: OfProduct(s.box.accepted, p)
              == Finished(s.box.records, ByWorker, p) + Finished(s.box.records, ByClose, p)
  {
    hide Inv, Enabled, Finished;
    var steps :| Run(max, Init(n), steps) == Some(s);
    WorkersStay(max, n, steps);
    ReachableInv(max, n, s);
    AtRest(max, s);
  }

  lemma {:induction false} AllExited(ws: seq<Worker>)
    requires forall w :: 0 <= w < |ws| ==> ws[w].Exited?
    ensures ExitedCount(ws) == |ws|
  {
    if ws != [] {
      AllExited(ws[1..]);
    }
  }
}
