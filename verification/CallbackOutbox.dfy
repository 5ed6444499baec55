/**
 The outbox object: its lock-protected blocks as methods that update its fields, and the delivery loop,
 each tied to the step relation of module Outbox.
 */
module CallbackOutboxes {
  import opened Common
  import opened Domain
  import opened Callbacks
  import opened Outbox

  lemma {:induction false} QueuedWithout(b: Box, order: seq<ProductId>, k: nat)
    requires k < |order| && forall p :: p in order ==> p in b.lanes
    ensures Queued(b, order) == Queued(b, order[..k] + order[k + 1..]) + |b.lanes[order[k]]|
  {
    var n := |order| - 1;
    if k == n {
      assert order[..k] + order[k + 1..] == order[..n];
    } else {
      QueuedWithout(b, order[..n], k);
      assert (order[..k] + order[k + 1..])[..n - 1] == order[..n][..k] + order[..n][k + 1..];
    }
  }

  lemma WithoutOne(order: seq<ProductId>, k: nat, keys: set<ProductId>)
    requires Enumerates(order, keys) && k < |order|
    ensures Enumerates(order[..k] + order[k + 1..], keys - {order[k]})
  {
    var rest := order[..k] + order[k + 1..];
    forall i | 0 <= i < |rest| ensures rest[i] == order[if i < k then i else i + 1] && rest[i] in keys - {order[k]} {
      assert order[if i < k then i else i + 1] in order;
    }
    forall q | q in keys - {order[k]} ensures q in rest {
      var i :| 0 <= i < |order| && order[i] == q;
      assert rest[if i < k then i else i - 1] == q;
    }
  }

  /** Counting the queued events does not depend on the order of the lanes. */
  lemma {:induction false} QueuedAnyOrder(b: Box, order: seq<ProductId>, other: seq<ProductId>, keys: set<ProductId>)
    requires keys <= b.lanes.Keys && Enumerates(order, keys) && Enumerates(other, keys)
    ensures Queued(b, order) == Queued(b, other)
  {
    if order == [] {
      assert keys == {};
      NothingToEnumerate(other);
    } else {
      var n := |order| - 1;
      var p := order[n];
      assert p in order;
      var k :| 0 <= k < |other| && other[k] == p;
      QueuedWithout(b, other, k);
      var rest := other[..k] + other[k + 1..];
      assert Enumerates(order[..n], keys - {p});
      WithoutOne(other, k, keys);
      QueuedAnyOrder(b, order[..n], rest, keys - {p});
    }
  }

  /** The lanes of `order` are cleared, those of `left` are not, and all that changed is recorded and counted. */
  ghost predicate Clearing(was: Box, now: Box, order: seq<ProductId>, left: set<ProductId>, dropped: nat) {
    && left <= was.lanes.Keys == now.lanes.Keys
    && Enumerates(order, was.lanes.Keys - left)
    && now == ClearLanes(was, order).(stopping := true)
    && dropped == Queued(was, order)
    && forall p :: p in left ==> now.lanes[p] == was.lanes[p]
  }

  lemma ClearOneMore(was: Box, now: Box, order: seq<ProductId>, left: set<ProductId>, dropped: nat, p: ProductId)
    requires Clearing(was, now, order, left, dropped) && p in left
    ensures p in now.lanes
    ensures var cleared := now.(lanes := now.lanes[p := []], records := now.records + CloseRecords(now.lanes[p]));
      Clearing(was, cleared, order + [p], left - {p}, dropped + |now.lanes[p]|)
  {
    assert (order + [p])[..|order|] == order;
    assert was.lanes.Keys - (left - {p}) == was.lanes.Keys - left + {p};
  }

  class CallbackOutbox {
    var lanes: map<ProductId, seq<Callback>>
    var ready: seq<Option<ProductId>>
    var closed: bool
    var stopping: bool
    // the outcome records published so far
    var records: seq<Record>
    ghost var accepted: seq<Callback>
    ghost var given: seq<Callback>

    ghost function View(): Box
      reads this
    {
      Box(lanes, ready, closed, stopping, records, accepted, given)
    }

    constructor ()
      ensures View() == EMPTY_BOX
    {
      lanes, ready, closed, stopping, records := map[], [], false, false, [];
      accepted, given := [], [];
    }

    /** Queues the events, or only records them once the outbox is closed. */
    method Put(events: seq<Callback>)
      modifies this
      ensures View() == PutAll(old(View()), events)
    {
      for i := 0 to |events|
        invariant View() == PutAll(old(View()), events[..i])
      {
        var event := events[i];
        assert events[..i + 1][..i] == events[..i];
        given := given + [event];
        if closed {
          records := records + [Record(event, ByLatePut, 0, Some(Shutdown))];
          continue;
        }
        accepted := accepted + [event];
        if event.product !in lanes {
          lanes := lanes[event.product := [event]];
          ready := ready + [Some(event.product)];
        } else {
          lanes := lanes[event.product := lanes[event.product] + [event]];
        }
      }
      assert events[..|events|] == events;
    }

    /** The number of events whose sending has not begun, in whatever order the lanes are counted. */
    method Pending() returns (count: nat)
      ensures forall order :: Enumerates(order, lanes.Keys) ==> count == Queued(View(), order)
    {
      count := 0;
      ghost var order: seq<ProductId> := [];
      var left := lanes.Keys;
      while left != {}
        invariant left <= lanes.Keys
        invariant Enumerates(order, lanes.Keys - left) && count == Queued(View(), order)
        decreases left
      {
        var p :| p in left;
        count := count + |lanes[p]|;
        assert (order + [p])[..|order|] == order;
        order := order + [p];
        left := left - {p};
      }
      forall other | Enumerates(other, lanes.Keys) ensures count == Queued(View(), other) {
        QueuedAnyOrder(View(), order, other, lanes.Keys);
      }
    }

    /** The owner of the product takes its next event; with an empty lane it gives the lane up. */
    method TakeLane(p: ProductId) returns (next: Option<Callback>)
      modifies this`lanes
      ensures (View(), next) == TakeNext(old(View()), p)
    {
      if p !in lanes || lanes[p] == [] {
        lanes := lanes - {p};
        return None;
      }
      next := Some(lanes[p][0]);
      lanes := lanes[p := lanes[p][1..]];
    }

    method CloseStart()
      modifies this`closed
      ensures View() == old(View()).(closed := true)
    {
      closed := true;
    }

    /** Records every event of one lane as dropped. */
    method DropLane(lane: seq<Callback>)
      modifies this`records
      ensures records == old(records) + CloseRecords(lane)
    {
      for i := 0 to |lane|
        invariant records == old(records) + CloseRecords(lane[..i])
      {
        assert lane[..i + 1][..i] == lane[..i];
        records := records + [Record(lane[i], ByClose, 0, Some(Shutdown))];
      }
      assert lane[..|lane|] == lane;
    }

    /** The end of close() under the lock: drops and records every queued event, keeping the lane keys. */
    method Stop() returns (dropped: nat, ghost order: seq<ProductId>)
      modifies this`stopping, this`lanes, this`records
      ensures Enumerates(order, old(lanes).Keys)
      ensures View() == ClearLanes(old(View()), order).(stopping := true)
      ensures dropped == Queued(old(View()), order)
    {
      ghost var was := View();
      stopping := true;
      dropped, order := 0, [];
      var left := lanes.Keys;
      while left != {}
        invariant Clearing(was, View(), order, left, dropped)
        decreases left
      {
        hide Clearing;
        var p :| p in left;
        ClearOneMore(was, View(), order, left, dropped, p);
        DropLane(lanes[p]);
        dropped := dropped + |lanes[p]|;
        lanes := lanes[p := []];
        order := order + [p];
        left := left - {p};
      }
    }

    /** close() puts one end token per worker. */
    method PutEndTokens(workers: nat)
      modifies this`ready
      ensures ready == old(ready) + seq(workers, i => None)
    {
      for i := 0 to workers
        invariant ready == old(ready) + seq(i, j => None)
      {
        ready := ready + [None];
      }
    }
  }

  /** Putting k end tokens is k steps of close(). */
  lemma {:induction false} EndTokensArePoisonSteps(max: nat, s: State, k: nat)
    requires s.closer.Stopping? && s.closer.poisoned + k <= |s.workers|
    ensures Run(max, s, seq(k, i => Poison)) ==
            Some(s.(box := s.box.(ready := s.box.ready + seq(k, i => None)),
                    closer := s.closer.(poisoned := s.closer.poisoned + k)))
  {
    if k == 0 {
      assert s.box.ready + seq(0, i => None) == s.box.ready;
    } else {
      EndTokensArePoisonSteps(max, s, k - 1);
      var steps: seq<Step> := seq(k, i => Poison);
      assert steps[..k - 1] == seq(k - 1, i => Poison);
      assert s.box.ready + seq(k, i => None) == s.box.ready + seq(k - 1, i => None) + [None];
    }
  }

  // ---------- delivering one event ----------

  /** `answer(i)` is the outcome of the send of attempt i, `stopped(i)` whether the wait before it was stopped. */
  type Answers = nat -> SendResult
  type Stops = nat -> bool

  /** The record a worker makes for an event when it goes on from the given attempt. */
  function Outcome(event: Callback, max: nat, attempt: nat, answer: Answers, stopped: Stops): (r: Record)
    requires attempt <= max
    ensures attempt <= r.retries + 1 <= max + 1
    decreases max - attempt
  {
    if attempt > 0 && stopped(attempt) then Record(event, ByWorker, attempt - 1, Some(Shutdown))
    else if !AsksRetry(answer(attempt)) then Record(event, ByWorker, attempt, FinalReason(answer(attempt)))
    else if attempt < max then Outcome(event, max, attempt + 1, answer, stopped)
    else Record(event, ByWorker, max, Some(RetryExhausted))
  }

  /** The send failed on the way, or the receiver answered with a server error or asked to send again. */
  predicate Transient(result: SendResult) {
    || result.TransportError?
    || (result.Response? && (result.status >= 500 || (result.status == 409 && result.code == Some("COMMON-009"))))
  }

  /**
   Sends one event by the retry rules. With a negative retry limit the loop never runs and the program fails
   on an unset variable; otherwise exactly one outcome is recorded, and its retries are the sends minus one.
   */
  method Deliver(event: Callback, maxRetries: int, answer: Answers, stopped: Stops)
    returns (outcome: Option<Record>, sends: nat)
    ensures outcome.None? <==> maxRetries < 0
    ensures outcome.None? ==> sends == 0
    ensures outcome.Some? ==>
              var r := outcome.value;
              && r.event == event && r.origin.ByWorker? && sends == r.retries + 1 <= maxRetries + 1
              && (forall i: nat :: i < sends - 1 ==> Transient(answer(i)))
              && (forall i: nat :: 0 < i < sends ==> !stopped(i))
              && var last := answer(sends - 1);
                 && (r.dropped == None <==> last.Response? && 200 <= last.status <= 299)
                 && (r.dropped == Some(UnexpectedError) <==> last.OtherError?)
                 && (r.dropped == Some(NotRetryable) <==> last.Response? && !(200 <= last.status <= 299) && !Transient(last))
                 && (r.dropped == Some(RetryExhausted) <==> Transient(last) && sends == maxRetries + 1)
                 && (r.dropped == Some(Shutdown) <==> Transient(last) && sends <= maxRetries)
                 && (r.dropped == Some(Shutdown) ==> stopped(sends))
    ensures maxRetries >= 0 ==> outcome == Some(Outcome(event, maxRetries, 0, answer, stopped))
  {
    sends := 0;
    for attempt := 0 to if maxRetries < 0 then 0 else maxRetries + 1
      invariant sends == attempt
      invariant forall i: nat :: i < attempt ==> Transient(answer(i)) && AsksRetry(answer(i))
      invariant forall i: nat :: 0 < i < attempt ==> !stopped(i)
      invariant 0 <= maxRetries < attempt ==>
                  Outcome(event, maxRetries, 0, answer, stopped) == Record(event, ByWorker, maxRetries, Some(RetryExhausted))
      invariant attempt <= maxRetries ==>
                  Outcome(event, maxRetries, 0, answer, stopped) == Outcome(event, maxRetries, attempt, answer, stopped)
    {
      if attempt > 0 && stopped(attempt) {
        return Some(Record(event, ByWorker, attempt - 1, Some(Shutdown))), sends;
      }
      sends := sends + 1;
      match answer(attempt)
      case TransportError =>
      case OtherError =>
        return Some(Record(event, ByWorker, attempt, Some(UnexpectedError))), sends;
      case Response(status, code) =>
        if 200 <= status < 300 {
          return Some(Record(event, ByWorker, attempt, None)), sends;
        }
        if !Retryable(status, code) {
          return Some(Record(event, ByWorker, attempt, Some(NotRetryable))), sends;
        }
    }
    outcome := if maxRetries < 0 then None else Some(Record(event, ByWorker, maxRetries, Some(RetryExhausted)));
  }

  // ---------- the loop is the worker's steps ----------

  /** The steps worker w takes to deliver the event it carries, from the given attempt. */
  function DeliverSteps(w: nat, max: nat, attempt: nat, answer: Answers, stopped: Stops): seq<Step>
    requires attempt <= max
    decreases max - attempt
  {
    if attempt > 0 && stopped(attempt) then [StopWaiting(w)]
    else if AsksRetry(answer(attempt)) && attempt < max
    then [Send(w), Answer(w, answer(attempt))] + DeliverSteps(w, max, attempt + 1, answer, stopped)
    else [Send(w), Answer(w, answer(attempt))]
  }

  lemma {:induction false} RunSplit(max: nat, s: State, first: seq<Step>, rest: seq<Step>)
    requires Run(max, s, first).Some?
    ensures Run(max, s, first + rest) == Run(max, Run(max, s, first).value, rest)
  {
    if rest == [] {
      assert first + rest == first;
    } else {
      RunSplit(max, s, first, rest[..|rest| - 1]);
      assert (first + rest)[..|first + rest| - 1] == first + rest[..|rest| - 1];
    }
  }

  lemma RunTwo(max: nat, s: State, a: Step, b: Step)
    requires Enabled(s, a) && Enabled(Apply(max, s, a), b)
    ensures Run(max, s, [a, b]) == Some(Apply(max, Apply(max, s, a), b))
  {
    assert [a, b][..1] == [a];
    assert [a][..0] == [];
    assert Run(max, s, [a]) == Some(Apply(max, s, a));
  }

  lemma RunOne(max: nat, s: State, a: Step)
    requires Enabled(s, a)
    ensures Run(max, s, [a]) == Some(Apply(max, s, a))
  {
    assert [a][..0] == [];
  }

  /** The state in which worker w has settled its event with record r after `more` further sends. */
  function Settled(s: State, w: nat, r: Record, more: nat): State
    requires w < |s.workers| && s.workers[w].Delivering?
  {
    var d := s.workers[w];
    State(s.box.(records := s.box.records + [r]), s.workers[w := Owner(d.product)], s.closer,
          s.sent + seq(more, i => d.event))
  }

  lemma OneMoreSend(s: State, w: nat, next: Worker, r: Record, more: nat)
    requires w < |s.workers| && s.workers[w].Delivering? && next.Delivering?
    requires next.event == s.workers[w].event && next.product == s.workers[w].product
    ensures Settled(s.(workers := s.workers[w := next], sent := s.sent + [next.event]), w, r, more)
         == Settled(s, w, r, more + 1)
  {
    assert [next.event] + seq(more, i => next.event) == seq(more + 1, i => next.event);
  }

  lemma StopsWaiting(max: nat, s: State, w: nat)
    requires w < |s.workers| && s.workers[w].Delivering? && !s.workers[w].sending && s.workers[w].attempt > 0
    ensures var d := s.workers[w];
            Run(max, s, [StopWaiting(w)])
            == Some(Settled(s, w, Record(d.event, ByWorker, d.attempt - 1, Some(Shutdown)), 0))
  {
    RunOne(max, s, StopWaiting(w));
    assert s.sent + seq(0, i => s.workers[w].event) == s.sent;
  }

  /** Running the worker alone ends in the state that records the outcome of Deliver, after as many sends. */
  lemma {:induction false} DeliverIsWorkerSteps(max: nat, s: State, w: nat, answer: Answers, stopped: Stops)
    requires w < |s.workers| && s.workers[w].Delivering? && !s.workers[w].sending && s.workers[w].attempt <= max
    ensures var d := s.workers[w];
            var r := Outcome(d.event, max, d.attempt, answer, stopped);
            Run(max, s, DeliverSteps(w, max, d.attempt, answer, stopped))
            == Some(Settled(s, w, r, r.retries + 1 - d.attempt))
    decreases max - s.workers[w].attempt
  {
    hide Apply, Enabled;
    var d := s.workers[w];
    if d.attempt > 0 && stopped(d.attempt) {
      StopsWaiting(max, s, w);
    } else {
      SendAndAnswer(max, s, w, answer(d.attempt));
      if AsksRetry(answer(d.attempt)) && d.attempt < max {
        var next := Run(max, s, [Send(w), Answer(w, answer(d.attempt))]).value;
        DeliverIsWorkerSteps(max, next, w, answer, stopped);
        RunSplit(max, s, [Send(w), Answer(w, answer(d.attempt))], DeliverSteps(w, max, d.attempt + 1, answer, stopped));
        var r := Outcome(d.event, max, d.attempt, answer, stopped);
        OneMoreSend(s, w, next.workers[w], r, r.retries - d.attempt);
      }
    }
  }

  lemma SendAndAnswer(max: nat, s: State, w: nat, result: SendResult)
    requires w < |s.workers| && s.workers[w].Delivering? && !s.workers[w].sending && s.workers[w].attempt <= max
    ensures var d := s.workers[w];
            Run(max, s, [Send(w), Answer(w, result)])
            == Some(if AsksRetry(result) && d.attempt < max
                    then s.(workers := s.workers[w := d.(attempt := d.attempt + 1)], sent := s.sent + [d.event])
                    else Settled(s, w, Record(d.event, ByWorker, d.attempt,
                                              if AsksRetry(result) then Some(RetryExhausted) else FinalReason(result)), 1))
  {
    var d := s.workers[w];
    var sent := Apply(max, s, Send(w));
    RunTwo(max, s, Send(w), Answer(w, result));
    assert sent.workers[w := Owner(d.product)] == s.workers[w := Owner(d.product)];
    assert sent.workers[w := d.(attempt := d.attempt + 1)] == s.workers[w := d.(attempt := d.attempt + 1)];
    assert seq(1, i => d.event) == [d.event];
  }
}
