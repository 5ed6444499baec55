/**
 The callback outbox as a step relation (ai/app/callbacks/outbox.py).

 Every block that the program runs under the outbox lock, every queue operation and every
 send is one step; any number of workers, putters and the closer interleave freely.
 */
module Outbox {
  import opened Common
  import opened Domain
  import opened Callbacks

  // ---------- outcome records ----------

  datatype DropReason = Shutdown | NotRetryable | RetryExhausted | UnexpectedError

  /** Where a record was made: by a worker, by close() for a queued event, or by put() after close(). */
  datatype Origin = ByWorker | ByClose | ByLatePut

  datatype Record = Record(event: Callback, origin: Origin, retries: nat, dropped: Option<DropReason>)

  datatype SendResult = Response(status: int, code: Option<string>) | TransportError | OtherError

  predicate Retryable(status: int, code: Option<string>) {
    status >= 500 || (status == 409 && code == Some("COMMON-009"))
  }

  /** Whether the outcome of one send asks for another attempt. */
  predicate AsksRetry(result: SendResult) {
    match result
    case Response(status, code) => !(200 <= status < 300) && Retryable(status, code)
    case TransportError => true
    case OtherError => false
  }

  /** The drop reason of a send that asks for no other attempt; None is a delivery. */
  function FinalReason(result: SendResult): Option<DropReason>
    requires !AsksRetry(result)
  {
    match result
    case Response(status, _) => if 200 <= status < 300 then None else Some(NotRetryable)
    case OtherError => Some(UnexpectedError)
  }

  // ---------- shared state, and the blocks that run under the lock ----------

  /** `accepted` and `given` are logs of what put() queued and of everything put() was given. */
  datatype Box = Box(
    lanes: map<ProductId, seq<Callback>>,
    ready: seq<Option<ProductId>>,
    closed: bool,
    stopping: bool,
    records: seq<Record>,
    accepted: seq<Callback>,
    given: seq<Callback>)

  const EMPTY_BOX := Box(map[], [], false, false, [], [], [])

  function PutOne(b: Box, e: Callback): Box {
    if b.closed then
      b.(records := b.records + [Record(e, ByLatePut, 0, Some(Shutdown))], given := b.given + [e])
    else if e.product !in b.lanes then
      b.(lanes := b.lanes[e.product := [e]], ready := b.ready + [Some(e.product)],
         accepted := b.accepted + [e], given := b.given + [e])
    else
      b.(lanes := b.lanes[e.product := b.lanes[e.product] + [e]],
         accepted := b.accepted + [e], given := b.given + [e])
  }

  function PutAll(b: Box, es: seq<Callback>): Box {
    if es == [] then b else PutOne(PutAll(b, es[..|es| - 1]), es[|es| - 1])
  }

  /** The owner of p takes the next event of its lane, or gives the lane up. */
  function TakeNext(b: Box, p: ProductId): (Box, Option<Callback>) {
    if p !in b.lanes || b.lanes[p] == [] then (b.(lanes := b.lanes - {p}), None)
    else (b.(lanes := b.lanes[p := b.lanes[p][1..]]), Some(b.lanes[p][0]))
  }

  function CloseRecords(es: seq<Callback>): seq<Record> {
    if es == [] then [] else CloseRecords(es[..|es| - 1]) + [Record(es[|es| - 1], ByClose, 0, Some(Shutdown))]
  }

  /** close() empties the lanes in `order`, keeping their keys. */
  function ClearLanes(b: Box, order: seq<ProductId>): (c: Box)
    requires forall p :: p in order ==> p in b.lanes
    ensures c.lanes.Keys == b.lanes.Keys
  {
    if order == [] then b
    else
      var c := ClearLanes(b, order[..|order| - 1]);
      var p := order[|order| - 1];
      c.(lanes := c.lanes[p := []], records := c.records + CloseRecords(c.lanes[p]))
  }

  predicate Enumerates(order: seq<ProductId>, keys: set<ProductId>) {
    && (forall p :: p in order ==> p in keys)
    && (forall p :: p in keys ==> p in order)
    && forall i, j :: 0 <= i < j < |order| ==> order[i] != order[j]
  }

  lemma FirstIsMember(order: seq<ProductId>)
    ensures order == [] || exists p :: p in order
  {
    assert order == [] || order[0] in order;
  }

  lemma NothingToEnumerate(order: seq<ProductId>)
    requires Enumerates(order, {})
    ensures order == []
  {
    FirstIsMember(order);
  }

  /** The number of events waiting in the lanes of `order`. */
  function Queued(b: Box, order: seq<ProductId>): nat
    requires forall p :: p in order ==> p in b.lanes
  {
    if order == [] then 0 else Queued(b, order[..|order| - 1]) + |b.lanes[order[|order| - 1]]|
  }

  // ---------- workers, closer and steps ----------

  /** Idle waits on the ready queue; Owner is about to look at its lane; Delivering carries one event
      before (sending == false) or during (sending == true) the send of attempt number `attempt`. */
  datatype Worker =
    | Idle
    | Owner(product: ProductId)
    | Delivering(product: ProductId, event: Callback, attempt: nat, sending: bool)
    | Exited

  /** close(): not called, waiting for the lanes, or stopping with `poisoned` end tokens put so far. */
  datatype Closer = NotClosing | WaitingForLanes | Stopping(poisoned: nat, dropped: nat)

  /** `sent` logs every call of the sender. */
  datatype State = State(box: Box, workers: seq<Worker>, closer: Closer, sent: seq<Callback>)

  function Init(n: nat): State {
    State(EMPTY_BOX, seq(n, i => Idle), NotClosing, [])
  }

  datatype Step =
    | Put(events: seq<Callback>)
    | Get(w: nat)
    | Take(w: nat)
    | StopWaiting(w: nat)
    | Send(w: nat)
    | Answer(w: nat, result: SendResult)
    | CloseStart
    | CloseWake(order: seq<ProductId>)
    | Poison

  predicate Enabled(s: State, step: Step) {
    match step
    case Put(_) => true
    case Get(w) => w < |s.workers| && s.workers[w].Idle? && s.box.ready != []
    case Take(w) => w < |s.workers| && s.workers[w].Owner?
    case StopWaiting(w) =>
      w < |s.workers| && s.workers[w].Delivering? && !s.workers[w].sending && s.workers[w].attempt > 0
    case Send(w) => w < |s.workers| && s.workers[w].Delivering? && !s.workers[w].sending
    case Answer(w, _) => w < |s.workers| && s.workers[w].Delivering? && s.workers[w].sending
    case CloseStart => s.closer.NotClosing?
    // wait_for ends when the lanes are empty or when the time is over, so it may end at any moment
    case CloseWake(order) => s.closer.WaitingForLanes? && Enumerates(order, s.box.lanes.Keys)
    case Poison => s.closer.Stopping? && s.closer.poisoned < |s.workers|
  }

  function WithWorker(s: State, w: nat, worker: Worker): State
    requires w < |s.workers|
  {
    s.(workers := s.workers[w := worker])
  }

  function Recorded(s: State, w: nat, retries: nat, dropped: Option<DropReason>): State
    requires w < |s.workers| && s.workers[w].Delivering?
  {
    var d := s.workers[w];
    WithWorker(s, w, Owner(d.product)).(
      box := s.box.(records := s.box.records + [Record(d.event, ByWorker, retries, dropped)]))
  }

  function Apply(max: nat, s: State, step: Step): State
    requires Enabled(s, step)
  {
    match step
    case Put(events) => s.(box := PutAll(s.box, events))
    case Get(w) =>
      var token := s.box.ready[0];
      WithWorker(s, w, if token.Some? then Owner(token.value) else Exited).(box := s.box.(ready := s.box.ready[1..]))
    case Take(w) =>
      var p := s.workers[w].product;
      var (box, next) := TakeNext(s.box, p);
      WithWorker(s, w, if next.Some? then Delivering(p, next.value, 0, false) else Idle).(box := box)
    case StopWaiting(w) => Recorded(s, w, s.workers[w].attempt - 1, Some(Shutdown))
    case Send(w) =>
      WithWorker(s, w, s.workers[w].(sending := true)).(sent := s.sent + [s.workers[w].event])
    case Answer(w, result) =>
      var d := s.workers[w];
      if !AsksRetry(result) then Recorded(s, w, d.attempt, FinalReason(result))
      else if d.attempt < max then WithWorker(s, w, d.(attempt := d.attempt + 1, sending := false))
      else Recorded(s, w, max, Some(RetryExhausted))
    case CloseStart => s.(box := s.box.(closed := true), closer := WaitingForLanes)
    case CloseWake(order) =>
      s.(box := ClearLanes(s.box, order).(stopping := true), closer := Stopping(0, Queued(s.box, order)))
    case Poison =>
      s.(box := s.box.(ready := s.box.ready + [None]), closer := s.closer.(poisoned := s.closer.poisoned + 1))
  }

  /** The state after a run of steps; None when some step was not enabled. */
  function Run(max: nat, s: State, steps: seq<Step>): Option<State> {
    if steps == [] then Some(s)
    else
      var before := Run(max, s, steps[..|steps| - 1]);
      if before.Some? && Enabled(before.value, steps[|steps| - 1])
      then Some(Apply(max, before.value, steps[|steps| - 1])) else None
  }
}
