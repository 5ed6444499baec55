/** What every step of the outbox keeps, for any number of workers and any interleaving. */
module OutboxInvariant {
  import opened Common
  import opened Domain
  import opened Callbacks
  import opened Outbox

  // ---------- reading the logs ----------

  /** The events of product p that got their record from `origin`, in record order. */
  function Finished(rs: seq<Record>, origin: Origin, p: ProductId): seq<Callback> {
    if rs == [] then []
    else
      var r := rs[|rs| - 1];
      if r.origin == origin && r.event.product == p then Finished(rs[..|rs| - 1], origin, p) + [r.event]
      else Finished(rs[..|rs| - 1], origin, p)
  }

  /** The events that put() only recorded because the outbox was closed. */
  function Late(rs: seq<Record>): seq<Callback> {
    if rs == [] then []
    else if rs[|rs| - 1].origin.ByLatePut? then Late(rs[..|rs| - 1]) + [rs[|rs| - 1].event]
    else Late(rs[..|rs| - 1])
  }

  /** How many events close() dropped. */
  function ClosedCount(rs: seq<Record>): nat {
    if rs == [] then 0 else ClosedCount(rs[..|rs| - 1]) + (if rs[|rs| - 1].origin.ByClose? then 1 else 0)
  }

  function Repeat(e: Callback, n: nat): seq<Callback> {
    seq(n, i => e)
  }

  /** The sends that the worker records of p account for: each event once plus once per retry. */
  function Sends(rs: seq<Record>, p: ProductId): seq<Callback> {
    if rs == [] then []
    else
      var r := rs[|rs| - 1];
      if r.origin.ByWorker? && r.event.product == p then Sends(rs[..|rs| - 1], p) + Repeat(r.event, r.retries + 1)
      else Sends(rs[..|rs| - 1], p)
  }

  type Lanes = map<ProductId, seq<Callback>>

  function Lane(lanes: Lanes, p: ProductId): seq<Callback> {
    if p in lanes then lanes[p] else []
  }

  predicate Busy(w: Worker) {
    w.Owner? || w.Delivering?
  }

  ghost predicate OwnedBy(ws: seq<Worker>, w: nat, p: ProductId) {
    w < |ws| && Busy(ws[w]) && ws[w].product == p
  }

  ghost predicate Delivers(ws: seq<Worker>, w: nat, p: ProductId) {
    w < |ws| && ws[w].Delivering? && ws[w].product == p
  }

  /** The event of p that a worker carries. */
  ghost function Carried(ws: seq<Worker>, p: ProductId): seq<Callback> {
    if w: nat :| Delivers(ws, w, p) then [ws[w].event] else []
  }

  /** The sends so far of the event of p that a worker carries. */
  ghost function InFlight(ws: seq<Worker>, p: ProductId): seq<Callback> {
    if w: nat :| Delivers(ws, w, p)
    then Repeat(ws[w].event, ws[w].attempt + if ws[w].sending then 1 else 0) else []
  }

  // ---------- the invariant ----------

  /** No two workers own the same product. */
  ghost predicate OneOwner(ws: seq<Worker>) {
    forall v, w :: 0 <= v < w < |ws| && Busy(ws[v]) && Busy(ws[w]) ==> ws[v].product != ws[w].product
  }

  /** A product has a lane exactly when it has one token in the ready queue or one owner, never both. */
  ghost predicate Tokens(lanes: Lanes, ready: seq<Option<ProductId>>, ws: seq<Worker>) {
    && OneOwner(ws)
    && (forall i, j :: 0 <= i < j < |ready| && ready[i].Some? ==> ready[i] != ready[j])
    && (forall t, w :: t in ready && 0 <= w < |ws| && Busy(ws[w]) ==> t != Some(ws[w].product))
    && (forall p :: p in lanes ==> Some(p) in ready || exists w: nat :: OwnedBy(ws, w, p))
    && (forall t :: t in ready && t.Some? ==> t.value in lanes)
    && (forall w :: 0 <= w < |ws| && Busy(ws[w]) ==> ws[w].product in lanes)
  }

  /** Everything accepted for p is, in this order: finished by workers, carried, waiting, dropped by close(). */
  ghost predicate Ledger(accepted: seq<Callback>, rs: seq<Record>, lanes: Lanes, ws: seq<Worker>) {
    forall p :: Balanced(OfProduct(accepted, p), Finished(rs, ByWorker, p), Carried(ws, p), Lane(lanes, p),
                         Finished(rs, ByClose, p))
  }

  predicate Balanced(accepted: seq<Callback>, finished: seq<Callback>, carried: seq<Callback>, lane: seq<Callback>,
                     closed: seq<Callback>)
  {
    accepted == finished + carried + lane + closed
  }

  /** The sends of p are those its worker records account for, then those of the carried event. */
  ghost predicate Wire(sent: seq<Callback>, rs: seq<Record>, ws: seq<Worker>) {
    forall p :: OfProduct(sent, p) == Sends(rs, p) + InFlight(ws, p)
  }

  predicate RecordOk(max: nat, r: Record) {
    && r.retries <= max
    && (!r.origin.ByWorker? ==> r.retries == 0 && r.dropped == Some(Shutdown))
    && (r.dropped == Some(RetryExhausted) ==> r.retries == max)
  }

  ghost predicate Shape(max: nat, lanes: Lanes, rs: seq<Record>, ws: seq<Worker>) {
    && (forall w :: 0 <= w < |ws| && ws[w].Delivering? ==>
          ws[w].event.product == ws[w].product && ws[w].attempt <= max)
    && (forall p, e :: p in lanes && e in lanes[p] ==> e.product == p)
    && (forall r :: r in rs ==> RecordOk(max, r))
  }

  function Nones(ready: seq<Option<ProductId>>): nat {
    if ready == [] then 0 else (if ready[0].None? then 1 else 0) + Nones(ready[1..])
  }

  function ExitedCount(ws: seq<Worker>): nat {
    if ws == [] then 0 else (if ws[0].Exited? then 1 else 0) + ExitedCount(ws[1..])
  }

  /** Until close() has stopped the outbox no end token exists and no queued event was dropped. */
  ghost predicate Running(ready: seq<Option<ProductId>>, rs: seq<Record>, ws: seq<Worker>) {
    && None !in ready
    && ClosedCount(rs) == 0
    && forall w :: 0 <= w < |ws| ==> !ws[w].Exited?
  }

  /** After that the lanes stay empty, every end token is queued or was taken by one exited worker,
      and end tokens stand behind all product tokens. */
  ghost predicate Stopped(lanes: Lanes, ready: seq<Option<ProductId>>, ws: seq<Worker>, poisoned: nat) {
    && (forall p :: p in lanes ==> lanes[p] == [])
    && Nones(ready) + ExitedCount(ws) == poisoned <= |ws|
    && (forall i, j :: 0 <= i < j < |ready| && ready[i].None? ==> ready[j].None?)
    && ((exists w :: 0 <= w < |ws| && ws[w].Exited?) ==> forall t :: t in ready ==> t.None?)
  }

  ghost predicate Closing(s: State) {
    && s.box.closed == !s.closer.NotClosing?
    && s.box.stopping == s.closer.Stopping?
    && (!s.box.closed ==> Late(s.box.records) == [])
    && (!s.box.stopping ==> Running(s.box.ready, s.box.records, s.workers))
    && (s.box.stopping ==> Stopped(s.box.lanes, s.box.ready, s.workers, s.closer.poisoned)
                           && s.closer.dropped == ClosedCount(s.box.records))
  }

  ghost predicate Inv(max: nat, s: State) {
    && Tokens(s.box.lanes, s.box.ready, s.workers)
    && Ledger(s.box.accepted, s.box.records, s.box.lanes, s.workers)
    && Wire(s.sent, s.box.records, s.workers)
    && Shape(max, s.box.lanes, s.box.records, s.workers)
    && s.box.given == s.box.accepted + Late(s.box.records)
    && Closing(s)
  }

  // ---------- small facts ----------

  lemma CarriedHere(ws: seq<Worker>, w: nat)
    requires w < |ws| && ws[w].Delivering? && OneOwner(ws)
    ensures Carried(ws, ws[w].product) == [ws[w].event]
    ensures InFlight(ws, ws[w].product) == Repeat(ws[w].event, ws[w].attempt + if ws[w].sending then 1 else 0)
  {
    assert Delivers(ws, w, ws[w].product);
  }

  lemma CarriedElsewhere(ws: seq<Worker>, w: nat, next: Worker, p: ProductId)
    requires w < |ws| && OneOwner(ws)
    requires Busy(ws[w]) ==> ws[w].product != p
    requires Busy(next) ==> next.product != p
    ensures Carried(ws[w := next], p) == Carried(ws, p) && InFlight(ws[w := next], p) == InFlight(ws, p)
  {
    var ws' := ws[w := next];
    if v: nat :| Delivers(ws, v, p) {
      assert Delivers(ws', v, p);
    }
    if v: nat :| Delivers(ws', v, p) {
      assert Delivers(ws, v, p);
    }
  }

  lemma NothingCarried(ws: seq<Worker>, p: ProductId)
    requires forall w :: 0 <= w < |ws| && ws[w].Delivering? ==> ws[w].product != p
    ensures Carried(ws, p) == [] && InFlight(ws, p) == []
  {
  }

  lemma LogStep(rs: seq<Record>, r: Record, p: ProductId)
    ensures forall o :: Finished(rs + [r], o, p)
              == if r.origin == o && r.event.product == p then Finished(rs, o, p) + [r.event] else Finished(rs, o, p)
    ensures Sends(rs + [r], p)
         == if r.origin.ByWorker? && r.event.product == p then Sends(rs, p) + Repeat(r.event, r.retries + 1)
            else Sends(rs, p)
    ensures Late(rs + [r]) == if r.origin.ByLatePut? then Late(rs) + [r.event] else Late(rs)
    ensures ClosedCount(rs + [r]) == ClosedCount(rs) + if r.origin.ByClose? then 1 else 0
  {
    assert (rs + [r])[..|rs|] == rs;
  }

  lemma EventStep(es: seq<Callback>, e: Callback, p: ProductId)
    ensures OfProduct(es + [e], p) == if e.product == p then OfProduct(es, p) + [e] else OfProduct(es, p)
  {
    assert (es + [e])[..|es|] == es;
  }

  lemma {:induction false} NoneCloses(rs: seq<Record>, p: ProductId)
    requires ClosedCount(rs) == 0
    ensures Finished(rs, ByClose, p) == []
  {
    if rs != [] {
      NoneCloses(rs[..|rs| - 1], p);
    }
  }

  // ---------- put ----------

  lemma QueueTokens(lanes: Lanes, ready: seq<Option<ProductId>>, ws: seq<Worker>, e: Callback)
    requires Tokens(lanes, ready, ws) && e.product !in lanes
    ensures Tokens(lanes[e.product := [e]], ready + [Some(e.product)], ws)
  {
    var ready' := ready + [Some(e.product)];
    assert ready'[|ready|] == Some(e.product);
    forall q | q in ready ensures q in ready' {}
  }

  lemma Append(a: seq<Callback>, f: seq<Callback>, c: seq<Callback>, l: seq<Callback>, e: Callback)
    requires Balanced(a, f, c, l, [])
    ensures Balanced(a + [e], f, c, l + [e], [])
  {
  }

  lemma QueueLedger(accepted: seq<Callback>, rs: seq<Record>, lanes: Lanes, lanes': Lanes, ws: seq<Worker>, e: Callback)
    requires Ledger(accepted, rs, lanes, ws) && ClosedCount(rs) == 0
    requires lanes' == lanes[e.product := Lane(lanes, e.product) + [e]]
    ensures Ledger(accepted + [e], rs, lanes', ws)
  {
    forall p ensures Balanced(OfProduct(accepted + [e], p), Finished(rs, ByWorker, p), Carried(ws, p), Lane(lanes', p),
                              Finished(rs, ByClose, p))
    {
      EventStep(accepted, e, p);
      NoneCloses(rs, p);
      if p == e.product {
        Append(OfProduct(accepted, p), Finished(rs, ByWorker, p), Carried(ws, p), Lane(lanes, p), e);
      } else {
        assert OfProduct(accepted + [e], p) == OfProduct(accepted, p);
      }
    }
  }

  lemma QueueShape(max: nat, lanes: Lanes, rs: seq<Record>, ws: seq<Worker>, e: Callback)
    requires Shape(max, lanes, rs, ws)
    ensures Shape(max, lanes[e.product := Lane(lanes, e.product) + [e]], rs, ws)
  {
  }

  lemma LateRecord(s: State, r: Record)
    requires Ledger(s.box.accepted, s.box.records, s.box.lanes, s.workers)
    requires Wire(s.sent, s.box.records, s.workers) && r.origin.ByLatePut?
    ensures Ledger(s.box.accepted, s.box.records + [r], s.box.lanes, s.workers)
    ensures Wire(s.sent, s.box.records + [r], s.workers)
  {
    forall p ensures Finished(s.box.records + [r], ByWorker, p) == Finished(s.box.records, ByWorker, p)
      && Finished(s.box.records + [r], ByClose, p) == Finished(s.box.records, ByClose, p)
      && Sends(s.box.records + [r], p) == Sends(s.box.records, p)
    {
      LogStep(s.box.records, r, p);
    }
  }

  lemma LateShape(max: nat, lanes: Lanes, rs: seq<Record>, ws: seq<Worker>, r: Record)
    requires Shape(max, lanes, rs, ws) && RecordOk(max, r)
    ensures Shape(max, lanes, rs + [r], ws)
  {
  }

  lemma PutOneOpen(max: nat, s: State, e: Callback)
    requires Inv(max, s) && !s.box.closed
    ensures Inv(max, s.(box := PutOne(s.box, e)))
  {
    hide Ledger, Wire, Shape, Finished, Sends;
    var t := s.(box := PutOne(s.box, e));
    assert e.product !in s.box.lanes ==> Lane(s.box.lanes, e.product) + [e] == [e];
    QueueLedger(s.box.accepted, s.box.records, s.box.lanes, t.box.lanes, s.workers, e);
    QueueShape(max, s.box.lanes, s.box.records, s.workers, e);
    assert Tokens(t.box.lanes, t.box.ready, t.workers) by {
      if e.product !in s.box.lanes {
        QueueTokens(s.box.lanes, s.box.ready, s.workers, e);
      }
    }
    assert Late(s.box.records) == [];
  }

  lemma LateClosing(s: State, e: Callback, r: Record)
    requires Closing(s) && s.box.closed && r.origin.ByLatePut?
    ensures Closing(s.(box := s.box.(records := s.box.records + [r], given := s.box.given + [e])))
    ensures Late(s.box.records + [r]) == Late(s.box.records) + [r.event]
  {
    hide Stopped;
    LogStep(s.box.records, r, 0);
  }

  lemma PutOneLate(max: nat, s: State, e: Callback)
    requires Inv(max, s) && s.box.closed
    ensures Inv(max, s.(box := PutOne(s.box, e)))
  {
    hide Tokens, Ledger, Wire, Shape, Closing, Late;
    var r := Record(e, ByLatePut, 0, Some(Shutdown));
    LateRecord(s, r);
    LateShape(max, s.box.lanes, s.box.records, s.workers, r);
    LateClosing(s, e, r);
    assert s.box.accepted + Late(s.box.records) + [e] == s.box.accepted + (Late(s.box.records) + [e]);
  }

  lemma PutOneKeeps(max: nat, s: State, e: Callback)
    requires Inv(max, s)
    ensures Inv(max, s.(box := PutOne(s.box, e)))
  {
    hide Inv, PutOne;
    if s.box.closed {
      PutOneLate(max, s, e);
    } else {
      PutOneOpen(max, s, e);
    }
  }

  lemma {:induction false} PutKeeps(max: nat, s: State, es: seq<Callback>)
    requires Inv(max, s)
    ensures Inv(max, s.(box := PutAll(s.box, es)))
  {
    if es != [] {
      PutKeeps(max, s, es[..|es| - 1]);
      PutOneKeeps(max, s.(box := PutAll(s.box, es[..|es| - 1])), es[|es| - 1]);
    }
  }

  // ---------- worker steps ----------

  lemma ExitedStep(ws: seq<Worker>, w: nat, next: Worker)
    requires w < |ws|
    ensures ExitedCount(ws[w := next])
         == ExitedCount(ws) - (if ws[w].Exited? then 1 else 0) + (if next.Exited? then 1 else 0)
  {
    if w == 0 {
      assert ws[w := next][1..] == ws[1..];
    } else {
      assert ws[w := next][1..] == ws[1..][w - 1 := next];
      ExitedStep(ws[1..], w - 1, next);
    }
  }

  /** A worker step that does not change whose event is carried. */
  lemma SameCarried(s: State, w: nat, next: Worker)
    requires w < |s.workers| && OneOwner(s.workers)
    requires !s.workers[w].Delivering? && !next.Delivering?
    requires Busy(s.workers[w]) && Busy(next) ==> s.workers[w].product == next.product
    ensures forall p :: Carried(s.workers[w := next], p) == Carried(s.workers, p)
    ensures forall p :: InFlight(s.workers[w := next], p) == InFlight(s.workers, p)
  {
    var ws' := s.workers[w := next];
    forall p ensures Carried(ws', p) == Carried(s.workers, p) && InFlight(ws', p) == InFlight(s.workers, p) {
      if v: nat :| Delivers(s.workers, v, p) {
        assert Delivers(ws', v, p);
      }
      if v: nat :| Delivers(ws', v, p) {
        assert Delivers(s.workers, v, p);
      }
    }
  }

  lemma GetTokens(lanes: Lanes, ready: seq<Option<ProductId>>, ws: seq<Worker>, w: nat)
    requires Tokens(lanes, ready, ws) && w < |ws| && ws[w].Idle? && ready != []
    ensures Tokens(lanes, ready[1..], ws[w := if ready[0].Some? then Owner(ready[0].value) else Exited])
  {
    var ws' := ws[w := if ready[0].Some? then Owner(ready[0].value) else Exited];
    forall t | t in ready[1..] ensures t in ready {}
    forall p | p in lanes ensures Some(p) in ready[1..] || exists v: nat :: OwnedBy(ws', v, p) {
      if Some(p) in ready {
        if Some(p) == ready[0] {
          assert OwnedBy(ws', w, p);
        }
      } else {
        var v: nat :| OwnedBy(ws, v, p);
        assert OwnedBy(ws', v, p);
      }
    }
  }

  lemma GetStopped(lanes: Lanes, ready: seq<Option<ProductId>>, ws: seq<Worker>, w: nat, poisoned: nat)
    requires Stopped(lanes, ready, ws, poisoned) && w < |ws| && ws[w].Idle? && ready != []
    ensures Stopped(lanes, ready[1..], ws[w := if ready[0].Some? then Owner(ready[0].value) else Exited], poisoned)
  {
    var next := if ready[0].Some? then Owner(ready[0].value) else Exited;
    ExitedStep(ws, w, next);
    if ready[0].None? {
      forall t | t in ready ensures t.None? {}
    }
    var ws' := ws[w := next];
    if v :| 0 <= v < |ws'| && ws'[v].Exited? {
      forall t | t in ready[1..] ensures t.None? {}
    }
  }

  lemma GetKeeps(max: nat, s: State, w: nat)
    requires Inv(max, s) && Enabled(s, Get(w))
    ensures Inv(max, Apply(max, s, Get(w)))
  {
    var t := Apply(max, s, Get(w));
    GetTokens(s.box.lanes, s.box.ready, s.workers, w);
    SameCarried(s, w, t.workers[w]);
    if s.box.stopping {
      GetStopped(s.box.lanes, s.box.ready, s.workers, w, s.closer.poisoned);
    } else {
      assert s.box.ready[0] in s.box.ready;
    }
  }

  /** A step of worker w that stays busy with its product keeps the token discipline. */
  lemma StayBusy(lanes: Lanes, lanes': Lanes, ready: seq<Option<ProductId>>, ws: seq<Worker>, w: nat, next: Worker)
    requires Tokens(lanes, ready, ws) && w < |ws| && Busy(ws[w]) && Busy(next) && next.product == ws[w].product
    requires lanes'.Keys == lanes.Keys
    ensures Tokens(lanes', ready, ws[w := next])
  {
    var ws' := ws[w := next];
    forall p | p in lanes' ensures Some(p) in ready || exists v: nat :: OwnedBy(ws', v, p) {
      assert p in lanes.Keys;
      if Some(p) !in ready {
        var v: nat :| OwnedBy(ws, v, p);
        assert OwnedBy(ws', v, p);
      }
    }
    forall t | t in ready && t.Some? ensures t.value in lanes' {
      assert t.value in lanes.Keys;
    }
    forall v | 0 <= v < |ws'| && Busy(ws'[v]) ensures ws'[v].product in lanes' {
      assert ws'[v].product in lanes.Keys;
    }
  }

  lemma GiveUpTokens(lanes: Lanes, ready: seq<Option<ProductId>>, ws: seq<Worker>, w: nat)
    requires Tokens(lanes, ready, ws) && w < |ws| && Busy(ws[w])
    ensures Tokens(lanes - {ws[w].product}, ready, ws[w := Idle])
  {
    var ws' := ws[w := Idle];
    forall p | p in lanes && p != ws[w].product ensures Some(p) in ready || exists v: nat :: OwnedBy(ws', v, p) {
      if Some(p) !in ready {
        var v: nat :| OwnedBy(ws, v, p);
        assert OwnedBy(ws', v, p);
      }
    }
  }

  lemma TakeCarried(lanes: Lanes, lanes': Lanes, ready: seq<Option<ProductId>>, ws: seq<Worker>, w: nat, next: Worker,
                    p: ProductId)
    requires Tokens(lanes, ready, ws) && w < |ws| && ws[w].Owner?
    requires var q := ws[w].product;
             if Lane(lanes, q) == [] then next == Idle && lanes' == lanes - {q}
             else next == Delivering(q, lanes[q][0], 0, false) && lanes' == lanes[q := lanes[q][1..]]
    ensures Carried(ws[w := next], p) + Lane(lanes', p) == Carried(ws, p) + Lane(lanes, p)
    ensures InFlight(ws[w := next], p) == InFlight(ws, p)
  {
    if p == ws[w].product {
      NothingCarried(ws, p);
      if next.Delivering? {
        CarriedHere(ws[w := next], w);
      } else {
        NothingCarried(ws[w := next], p);
      }
    } else {
      CarriedElsewhere(ws, w, next, p);
    }
  }

  lemma Regroup(a: seq<Callback>, f: seq<Callback>, c: seq<Callback>, l: seq<Callback>, c': seq<Callback>,
                l': seq<Callback>, z: seq<Callback>)
    requires Balanced(a, f, c, l, z) && c' + l' == c + l
    ensures Balanced(a, f, c', l', z)
  {
    assert f + c + l + z == f + (c + l) + z == f + c' + l' + z;
  }

  lemma TakeLedger(s: State, w: nat)
    requires Enabled(s, Take(w))
    requires Tokens(s.box.lanes, s.box.ready, s.workers)
    requires Ledger(s.box.accepted, s.box.records, s.box.lanes, s.workers)
    requires Wire(s.sent, s.box.records, s.workers)
    ensures var t := Apply(0, s, Take(w));
            Ledger(s.box.accepted, s.box.records, t.box.lanes, t.workers) && Wire(s.sent, s.box.records, t.workers)
  {
    var t := Apply(0, s, Take(w));
    forall p ensures Balanced(OfProduct(s.box.accepted, p), Finished(s.box.records, ByWorker, p), Carried(t.workers, p),
                              Lane(t.box.lanes, p), Finished(s.box.records, ByClose, p))
      && InFlight(t.workers, p) == InFlight(s.workers, p)
    {
      TakeCarried(s.box.lanes, t.box.lanes, s.box.ready, s.workers, w, t.workers[w], p);
      Regroup(OfProduct(s.box.accepted, p), Finished(s.box.records, ByWorker, p), Carried(s.workers, p),
              Lane(s.box.lanes, p), Carried(t.workers, p), Lane(t.box.lanes, p), Finished(s.box.records, ByClose, p));
    }
  }

  /** A worker step between Idle, Owner and Delivering keeps the shutdown bookkeeping. */
  lemma StaysStopped(lanes: Lanes, lanes': Lanes, ready: seq<Option<ProductId>>, ws: seq<Worker>, w: nat, next: Worker,
                     poisoned: nat)
    requires Stopped(lanes, ready, ws, poisoned) && w < |ws| && !ws[w].Exited? && !next.Exited?
    requires forall p :: p in lanes' ==> p in lanes && lanes'[p] == lanes[p]
    ensures Stopped(lanes', ready, ws[w := next], poisoned)
  {
    ExitedStep(ws, w, next);
    var ws' := ws[w := next];
    if v :| 0 <= v < |ws'| && ws'[v].Exited? {
      assert ws[v].Exited?;
    }
  }

  lemma TakeKeeps(max: nat, s: State, w: nat)
    requires Inv(max, s) && Enabled(s, Take(w))
    ensures Inv(max, Apply(max, s, Take(w)))
  {
    var t := Apply(max, s, Take(w));
    var p := s.workers[w].product;
    TakeLedger(s, w);
    if t.workers[w].Delivering? {
      StayBusy(s.box.lanes, t.box.lanes, s.box.ready, s.workers, w, t.workers[w]);
      assert s.box.lanes[p][0] in s.box.lanes[p];
    } else {
      GiveUpTokens(s.box.lanes, s.box.ready, s.workers, w);
      if s.box.stopping {
        StaysStopped(s.box.lanes, t.box.lanes, s.box.ready, s.workers, w, Idle, s.closer.poisoned);
      }
    }
  }

  /** Send: the carried event is sent once more. */
  lemma SendWire(sent: seq<Callback>, rs: seq<Record>, ws: seq<Worker>, w: nat)
    requires OneOwner(ws) && w < |ws| && ws[w].Delivering? && !ws[w].sending && ws[w].event.product == ws[w].product
    requires Wire(sent, rs, ws)
    ensures Wire(sent + [ws[w].event], rs, ws[w := ws[w].(sending := true)])
  {
    hide InFlight, Carried, Delivers, Lane;
    var e := ws[w].event;
    var ws' := ws[w := ws[w].(sending := true)];
    forall p ensures OfProduct(sent + [e], p) == Sends(rs, p) + InFlight(ws', p) {
      EventStep(sent, e, p);
      if p == ws[w].product {
        CarriedHere(ws, w);
        CarriedHere(ws', w);
        assert Repeat(e, ws[w].attempt + 1) == Repeat(e, ws[w].attempt) + [e];
      } else {
        CarriedElsewhere(ws, w, ws'[w], p);
      }
    }
  }

  /** A step of the carrying worker that keeps its event. */
  lemma SameEvent(accepted: seq<Callback>, rs: seq<Record>, lanes: Lanes, ws: seq<Worker>, w: nat, next: Worker)
    requires OneOwner(ws) && w < |ws| && ws[w].Delivering? && next.Delivering?
    requires next.product == ws[w].product && next.event == ws[w].event
    requires Ledger(accepted, rs, lanes, ws)
    ensures Ledger(accepted, rs, lanes, ws[w := next])
  {
    forall p ensures Carried(ws[w := next], p) == Carried(ws, p) {
      if p == ws[w].product {
        CarriedHere(ws, w);
        CarriedHere(ws[w := next], w);
      } else {
        CarriedElsewhere(ws, w, next, p);
      }
    }
  }

  lemma SendKeeps(max: nat, s: State, w: nat)
    requires Inv(max, s) && Enabled(s, Send(w))
    ensures Inv(max, Apply(max, s, Send(w)))
  {
    var next := s.workers[w].(sending := true);
    StayBusy(s.box.lanes, s.box.lanes, s.box.ready, s.workers, w, next);
    SameEvent(s.box.accepted, s.box.records, s.box.lanes, s.workers, w, next);
    SendWire(s.sent, s.box.records, s.workers, w);
    if s.box.stopping {
      StaysStopped(s.box.lanes, s.box.lanes, s.box.ready, s.workers, w, next, s.closer.poisoned);
    }
  }

  lemma Settle(a: seq<Callback>, f: seq<Callback>, e: Callback, l: seq<Callback>, z: seq<Callback>)
    requires Balanced(a, f, [e], l, z)
    ensures Balanced(a, f + [e], [], l, z)
  {
  }

  /** The record of the carried event moves it from carried to finished. */
  lemma RecordLedger(accepted: seq<Callback>, rs: seq<Record>, lanes: Lanes, ws: seq<Worker>, w: nat, r: Record)
    requires OneOwner(ws) && w < |ws| && ws[w].Delivering? && ws[w].event.product == ws[w].product
    requires Ledger(accepted, rs, lanes, ws)
    requires r.event == ws[w].event && r.origin.ByWorker?
    ensures Ledger(accepted, rs + [r], lanes, ws[w := Owner(ws[w].product)])
  {
    var next := Owner(ws[w].product);
    forall p ensures Balanced(OfProduct(accepted, p), Finished(rs + [r], ByWorker, p), Carried(ws[w := next], p),
                              Lane(lanes, p), Finished(rs + [r], ByClose, p))
    {
      LogStep(rs, r, p);
      if p == ws[w].product {
        CarriedHere(ws, w);
        NothingCarried(ws[w := next], p);
        Settle(OfProduct(accepted, p), Finished(rs, ByWorker, p), r.event, Lane(lanes, p), Finished(rs, ByClose, p));
      } else {
        CarriedElsewhere(ws, w, next, p);
        assert Finished(rs + [r], ByWorker, p) == Finished(rs, ByWorker, p);
      }
    }
  }

  /** The retries of that record account for the sends of the event. */
  lemma RecordWire(sent: seq<Callback>, rs: seq<Record>, ws: seq<Worker>, w: nat, r: Record)
    requires OneOwner(ws) && w < |ws| && ws[w].Delivering? && ws[w].event.product == ws[w].product
    requires Wire(sent, rs, ws)
    requires r.event == ws[w].event && r.origin.ByWorker?
    requires r.retries + 1 == ws[w].attempt + if ws[w].sending then 1 else 0
    ensures Wire(sent, rs + [r], ws[w := Owner(ws[w].product)])
  {
    var next := Owner(ws[w].product);
    forall p ensures OfProduct(sent, p) == Sends(rs + [r], p) + InFlight(ws[w := next], p) {
      LogStep(rs, r, p);
      if p == ws[w].product {
        CarriedHere(ws, w);
        NothingCarried(ws[w := next], p);
      } else {
        CarriedElsewhere(ws, w, next, p);
      }
    }
  }

  lemma RecordedKeeps(max: nat, s: State, w: nat, retries: nat, dropped: Option<DropReason>)
    requires Inv(max, s) && w < |s.workers| && s.workers[w].Delivering?
    requires retries + 1 == s.workers[w].attempt + if s.workers[w].sending then 1 else 0
    requires dropped == Some(RetryExhausted) ==> retries == max
    ensures Inv(max, Recorded(s, w, retries, dropped))
  {
    var d := s.workers[w];
    var r := Record(d.event, ByWorker, retries, dropped);
    var t := Recorded(s, w, retries, dropped);
    StayBusy(s.box.lanes, s.box.lanes, s.box.ready, s.workers, w, Owner(d.product));
    RecordLedger(s.box.accepted, s.box.records, s.box.lanes, s.workers, w, r);
    RecordWire(s.sent, s.box.records, s.workers, w, r);
    RecordShape(max, s.box.lanes, s.box.records, s.workers, w, r);
    LogStep(s.box.records, r, 0);
    assert Closing(t) by {
      if s.box.stopping {
        StaysStopped(s.box.lanes, s.box.lanes, s.box.ready, s.workers, w, Owner(d.product), s.closer.poisoned);
      }
    }
  }

  lemma RecordShape(max: nat, lanes: Lanes, rs: seq<Record>, ws: seq<Worker>, w: nat, r: Record)
    requires Shape(max, lanes, rs, ws) && w < |ws| && ws[w].Delivering? && RecordOk(max, r)
    ensures Shape(max, lanes, rs + [r], ws[w := Owner(ws[w].product)])
  {
  }

  lemma WorkerShape(max: nat, lanes: Lanes, rs: seq<Record>, ws: seq<Worker>, w: nat, next: Worker)
    requires Shape(max, lanes, rs, ws) && w < |ws| && ws[w].Delivering? && next.Delivering?
    requires next.event == ws[w].event && next.product == ws[w].product && next.attempt <= max
    ensures Shape(max, lanes, rs, ws[w := next])
  {
  }

  lemma RetryKeeps(max: nat, s: State, w: nat)
    requires Inv(max, s) && w < |s.workers| && s.workers[w].Delivering? && s.workers[w].sending
    requires s.workers[w].attempt < max
    ensures Inv(max, WithWorker(s, w, s.workers[w].(attempt := s.workers[w].attempt + 1, sending := false)))
  {
    hide Ledger, Wire, Shape, Finished, Sends;
    var next := s.workers[w].(attempt := s.workers[w].attempt + 1, sending := false);
    StayBusy(s.box.lanes, s.box.lanes, s.box.ready, s.workers, w, next);
    SameEvent(s.box.accepted, s.box.records, s.box.lanes, s.workers, w, next);
    AgainWire(s.sent, s.box.records, s.workers, w);
    WorkerShape(max, s.box.lanes, s.box.records, s.workers, w, next);
    assert Closing(WithWorker(s, w, next)) by {
      if s.box.stopping {
        StaysStopped(s.box.lanes, s.box.lanes, s.box.ready, s.workers, w, next, s.closer.poisoned);
      }
    }
  }

  lemma AnswerKeeps(max: nat, s: State, w: nat, result: SendResult)
    requires Inv(max, s) && Enabled(s, Answer(w, result))
    ensures Inv(max, Apply(max, s, Answer(w, result)))
  {
    var d := s.workers[w];
    var t := Apply(max, s, Answer(w, result));
    if !AsksRetry(result) {
      assert t == Recorded(s, w, d.attempt, FinalReason(result));
      RecordedKeeps(max, s, w, d.attempt, FinalReason(result));
    } else if d.attempt < max {
      assert t == WithWorker(s, w, d.(attempt := d.attempt + 1, sending := false));
      RetryKeeps(max, s, w);
    } else {
      assert t == Recorded(s, w, max, Some(RetryExhausted));
      RecordedKeeps(max, s, w, max, Some(RetryExhausted));
    }
  }

  lemma AgainWire(sent: seq<Callback>, rs: seq<Record>, ws: seq<Worker>, w: nat)
    requires OneOwner(ws) && w < |ws| && ws[w].Delivering? && ws[w].sending
    requires Wire(sent, rs, ws)
    ensures Wire(sent, rs, ws[w := ws[w].(attempt := ws[w].attempt + 1, sending := false)])
  {
    var next := ws[w].(attempt := ws[w].attempt + 1, sending := false);
    forall p ensures InFlight(ws[w := next], p) == InFlight(ws, p) {
      if p == ws[w].product {
        CarriedHere(ws, w);
        CarriedHere(ws[w := next], w);
      } else {
        CarriedElsewhere(ws, w, next, p);
      }
    }
  }

  // ---------- close ----------

  lemma CloseStartKeeps(max: nat, s: State)
    requires Inv(max, s) && Enabled(s, CloseStart)
    ensures Inv(max, Apply(max, s, CloseStart))
  {
  }

  lemma CloseRecordStep(rs: seq<Record>, e: Callback, p: ProductId)
    ensures var rs' := rs + [Record(e, ByClose, 0, Some(Shutdown))];
            && Finished(rs', ByWorker, p) == Finished(rs, ByWorker, p)
            && Sends(rs', p) == Sends(rs, p)
            && Finished(rs', ByClose, p) == (if e.product == p then Finished(rs, ByClose, p) + [e] else Finished(rs, ByClose, p))
  {
    LogStep(rs, Record(e, ByClose, 0, Some(Shutdown)), p);
  }

  lemma {:induction false} CloseRecordsLog(es: seq<Callback>, rs: seq<Record>, q: ProductId, p: ProductId)
    requires forall e :: e in es ==> e.product == q
    ensures Finished(rs + CloseRecords(es), ByWorker, p) == Finished(rs, ByWorker, p)
    ensures Sends(rs + CloseRecords(es), p) == Sends(rs, p)
    ensures p != q ==> Finished(rs + CloseRecords(es), ByClose, p) == Finished(rs, ByClose, p)
    ensures p == q ==> Finished(rs + CloseRecords(es), ByClose, p) == Finished(rs, ByClose, p) + es
  {
    hide Finished, Sends;
    if es == [] {
      assert rs + CloseRecords(es) == rs;
    } else {
      var init, last := es[..|es| - 1], es[|es| - 1];
      CloseRecordsLog(init, rs, q, p);
      var before := rs + CloseRecords(init);
      CloseRecordStep(before, last, p);
      assert rs + CloseRecords(es) == before + [Record(last, ByClose, 0, Some(Shutdown))];
      assert es == init + [last];
      assert Finished(rs, ByClose, p) + es == (Finished(rs, ByClose, p) + init) + [last];
    }
  }

  lemma {:induction false} CloseRecordsCount(es: seq<Callback>, rs: seq<Record>)
    ensures Late(rs + CloseRecords(es)) == Late(rs)
    ensures ClosedCount(rs + CloseRecords(es)) == ClosedCount(rs) + |es|
    ensures forall r :: r in CloseRecords(es) ==> r.origin.ByClose? && r.retries == 0 && r.dropped == Some(Shutdown)
  {
    if es == [] {
      assert rs + CloseRecords(es) == rs;
    } else {
      var r := Record(es[|es| - 1], ByClose, 0, Some(Shutdown));
      CloseRecordsCount(es[..|es| - 1], rs);
      LogStep(rs + CloseRecords(es[..|es| - 1]), r, 0);
      assert rs + CloseRecords(es) == (rs + CloseRecords(es[..|es| - 1])) + [r];
    }
  }

  /** What clearing the lanes of `order` leaves and records for p. */
  predicate ClearedAt(b: Box, order: seq<ProductId>, c: Box, p: ProductId) {
    && Lane(c.lanes, p) == (if p in order then [] else Lane(b.lanes, p))
    && Finished(c.records, ByWorker, p) == Finished(b.records, ByWorker, p)
    && Sends(c.records, p) == Sends(b.records, p)
    && (p in order ==> Finished(c.records, ByClose, p) == Finished(b.records, ByClose, p) + Lane(b.lanes, p))
    && (p !in order ==> Finished(c.records, ByClose, p) == Finished(b.records, ByClose, p))
  }

  ghost predicate Cleared(b: Box, order: seq<ProductId>, c: Box)
    requires forall p :: p in order ==> p in b.lanes
  {
    && c == b.(lanes := c.lanes, records := c.records)
    && c.lanes.Keys == b.lanes.Keys
    && (forall p :: ClearedAt(b, order, c, p))
    && Late(c.records) == Late(b.records)
    && ClosedCount(c.records) == ClosedCount(b.records) + Queued(b, order)
  }

  lemma ClearOne(b: Box, q: ProductId, p: ProductId)
    requires q in b.lanes && forall e :: e in b.lanes[q] ==> e.product == q
    ensures ClearedAt(b, [q], b.(lanes := b.lanes[q := []], records := b.records + CloseRecords(b.lanes[q])), p)
  {
    CloseRecordsLog(b.lanes[q], b.records, q, p);
  }

  lemma ClearOneMore(b: Box, init: seq<ProductId>, c: Box, q: ProductId, d: Box, p: ProductId)
    requires ClearedAt(b, init, c, p) && ClearedAt(c, [q], d, p) && q !in init
    ensures ClearedAt(b, init + [q], d, p)
  {
  }

  lemma {:induction false} ClearLanesClears(b: Box, order: seq<ProductId>)
    requires (forall p :: p in order ==> p in b.lanes) && Distinct(order)
    requires forall p, e :: p in b.lanes && e in b.lanes[p] ==> e.product == p
    ensures Cleared(b, order, ClearLanes(b, order))
  {
    if order != [] {
      var init, q := order[..|order| - 1], order[|order| - 1];
      assert order == init + [q] && q !in init;
      ClearLanesClears(b, init);
      var c, d := ClearLanes(b, init), ClearLanes(b, order);
      assert ClearedAt(b, init, c, q);
      assert c.lanes[q] == b.lanes[q];
      CloseRecordsCount(b.lanes[q], c.records);
      forall p ensures ClearedAt(b, order, d, p) {
        ClearOne(c, q, p);
        ClearOneMore(b, init, c, q, d, p);
      }
    }
  }

  lemma {:induction false} ClearLanesRecords(b: Box, order: seq<ProductId>, max: nat)
    requires forall p :: p in order ==> p in b.lanes
    requires forall r :: r in b.records ==> RecordOk(max, r)
    ensures forall r :: r in ClearLanes(b, order).records ==> RecordOk(max, r)
  {
    if order != [] {
      ClearLanesRecords(b, order[..|order| - 1], max);
      var c := ClearLanes(b, order[..|order| - 1]);
      CloseRecordsCount(c.lanes[order[|order| - 1]], c.records);
    }
  }

  lemma ClearLedger(accepted: seq<Callback>, b: Box, order: seq<ProductId>, c: Box, ws: seq<Worker>)
    requires Enumerates(order, b.lanes.Keys) && Cleared(b, order, c) && ClosedCount(b.records) == 0
    requires Ledger(accepted, b.records, b.lanes, ws)
    ensures Ledger(accepted, c.records, c.lanes, ws)
  {
    hide Finished, Sends, Carried, Balanced, OfProduct;
    forall p ensures Balanced(OfProduct(accepted, p), Finished(c.records, ByWorker, p), Carried(ws, p), Lane(c.lanes, p),
                              Finished(c.records, ByClose, p))
    {
      NoneCloses(b.records, p);
      assert Balanced(OfProduct(accepted, p), Finished(b.records, ByWorker, p), Carried(ws, p), Lane(b.lanes, p), []);
      assert p in b.lanes <==> p in order;
      assert ClearedAt(b, order, c, p);
      MoveToClosed(OfProduct(accepted, p), Finished(b.records, ByWorker, p), Carried(ws, p), Lane(b.lanes, p));
    }
  }

  lemma MoveToClosed(accepted: seq<Callback>, finished: seq<Callback>, carried: seq<Callback>, lane: seq<Callback>)
    requires Balanced(accepted, finished, carried, lane, [])
    ensures Balanced(accepted, finished, carried, [], [] + lane)
  {
  }

  lemma ClearWire(sent: seq<Callback>, b: Box, order: seq<ProductId>, c: Box, ws: seq<Worker>)
    requires Enumerates(order, b.lanes.Keys) && Cleared(b, order, c)
    requires Wire(sent, b.records, ws)
    ensures Wire(sent, c.records, ws)
    ensures forall p :: p in c.lanes ==> c.lanes[p] == []
  {
    forall p ensures Sends(c.records, p) == Sends(b.records, p) && (p in c.lanes ==> c.lanes[p] == []) {
      assert ClearedAt(b, order, c, p);
    }
  }

  lemma CloseWakeKeeps(max: nat, s: State, order: seq<ProductId>)
    requires Inv(max, s) && Enabled(s, CloseWake(order))
    ensures Inv(max, Apply(max, s, CloseWake(order)))
  {
    var c := ClearLanes(s.box, order);
    ClearLanesClears(s.box, order);
    ClearLanesRecords(s.box, order, max);
    ClearLedger(s.box.accepted, s.box, order, c, s.workers);
    ClearWire(s.sent, s.box, order, c, s.workers);
    assert forall p :: p in c.lanes <==> p in s.box.lanes;
    NothingExited(s.workers);
    NoEndTokens(s.box.ready);
  }

  lemma {:induction false} NothingExited(ws: seq<Worker>)
    requires forall w :: 0 <= w < |ws| ==> !ws[w].Exited?
    ensures ExitedCount(ws) == 0
  {
    if ws != [] {
      NothingExited(ws[1..]);
    }
  }

  lemma {:induction false} NoEndTokens(ready: seq<Option<ProductId>>)
    requires None !in ready
    ensures Nones(ready) == 0
  {
    if ready != [] {
      assert ready[0] in ready;
      NoEndTokens(ready[1..]);
    }
  }

  lemma {:induction false} NonesStep(ready: seq<Option<ProductId>>, t: Option<ProductId>)
    ensures Nones(ready + [t]) == Nones(ready) + if t.None? then 1 else 0
  {
    if ready == [] {
      assert ready + [t] == [t];
    } else {
      assert (ready + [t])[1..] == ready[1..] + [t];
      NonesStep(ready[1..], t);
    }
  }

  lemma PoisonKeeps(max: nat, s: State)
    requires Inv(max, s) && Enabled(s, Poison)
    ensures Inv(max, Apply(max, s, Poison))
  {
    var ready' := s.box.ready + [None];
    NonesStep(s.box.ready, None);
    assert Tokens(s.box.lanes, ready', s.workers) by {
      forall t | t in s.box.ready ensures t in ready' {}
    }
    assert Stopped(s.box.lanes, ready', s.workers, s.closer.poisoned + 1);
  }

  // ---------- main results ----------

  lemma InitInv(max: nat, n: nat)
    ensures Inv(max, Init(n))
  {
    var s := Init(n);
    forall p ensures Carried(s.workers, p) == [] && InFlight(s.workers, p) == [] {
      NothingCarried(s.workers, p);
    }
  }

  lemma StepKeeps(max: nat, s: State, step: Step)
    requires Inv(max, s) && Enabled(s, step)
    ensures Inv(max, Apply(max, s, step))
  {
    hide Inv;
    match step
    case Put(events) => PutKeeps(max, s, events);
    case Get(w) => GetKeeps(max, s, w);
    case Take(w) => TakeKeeps(max, s, w);
    case StopWaiting(w) =>
      assert Apply(max, s, step) == Recorded(s, w, s.workers[w].attempt - 1, Some(Shutdown));
      RecordedKeeps(max, s, w, s.workers[w].attempt - 1, Some(Shutdown));
    case Send(w) => SendKeeps(max, s, w);
    case Answer(w, result) => AnswerKeeps(max, s, w, result);
    case CloseStart => CloseStartKeeps(max, s);
    case CloseWake(order) => CloseWakeKeeps(max, s, order);
    case Poison => PoisonKeeps(max, s);
  }

  /** Every state that n workers, any putters and the closer can reach satisfies the invariant. */
  lemma {:induction false} EveryRun(max: nat, n: nat, steps: seq<Step>)
    requires Run(max, Init(n), steps).Some?
    ensures Inv(max, Run(max, Init(n), steps).value)
  {
    if steps == [] {
      InitInv(max, n);
    } else {
      EveryRun(max, n, steps[..|steps| - 1]);
      StepKeeps(max, Run(max, Init(n), steps[..|steps| - 1]).value, steps[|steps| - 1]);
    }
  }
}
