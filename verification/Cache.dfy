/** Responses looked up in the database first (ai/app/db/fetchers.py). */
module Cache {
  import opened Common

  const RETRY_SECONDS := 60

  // Requests and responses are opaque; the key of a row stands for the request, as hashing keeps requests apart.
  type Request = nat
  type Response = nat

  datatype Row = Row(response: Response, expiresAt: Option<int>)

  /** Data that a scheduler keeps fresh, or data kept for a while after it was needed. */
  datatype Kind = Scheduled(recheckAfter: Option<int>) | OnDemand(ttl: int)

  /** A fetcher: its kind, whether it has a database, and which responses it accepts for storing. */
  datatype Fetcher = Fetcher(kind: Kind, hasDb: bool, accepts: Response -> bool)

  function ExpiresAt(kind: Kind, now: int): Option<int> {
    match kind
    case Scheduled(None) => None
    case Scheduled(Some(after)) => Some(now + after)
    case OnDemand(ttl) => Some(now + ttl)
  }

  datatype ClientAnswer = Answered(response: Response) | Refused

  /** A read finds a row readable by the present schema or not; a read or a write may fail, a failed write with or without
      effect. */
  datatype DbRead = ReadDone(readable: bool) | ReadFailed
  datatype DbWrite = WriteDone | WriteFailed(landed: bool)

  /** What the surroundings do during one call: the monotonic clock at each use of the database, the wall clock, the client
      and the database. */
  datatype Env = Env(readAt: int, read: DbRead, readFailedAt: int, now: int, client: ClientAnswer, writeAt: int,
    write: DbWrite, writeFailedAt: int)

  /** A response the client gave to a request, with the wall clock of the call. */
  datatype Given = Given(request: Request, response: Response, at: int)

  /** A use of the database, by the monotonic clock; a failed one with the time of its failure. */
  datatype Access = Access(at: int, failedAt: Option<int>)

  datatype State = State(rows: map<Request, Row>, skipUntil: int, given: seq<Given>, accesses: seq<Access>)

  const EMPTY := State(map[], 0, [], [])

  datatype FetchError = ClientFailed | NotAccepted

  // ---------- the specification of a call ----------

  predicate DbAvailable(f: Fetcher, s: State, at: int) {
    f.hasDb && at >= s.skipUntil
  }

  function AfterRead(f: Fetcher, s: State, env: Env): State {
    if !DbAvailable(f, s, env.readAt) then s
    else if env.read.ReadFailed? then
      s.(skipUntil := env.readFailedAt + RETRY_SECONDS, accesses := s.accesses + [Access(env.readAt, Some(env.readFailedAt))])
    else s.(accesses := s.accesses + [Access(env.readAt, None)])
  }

  function Cached(f: Fetcher, s: State, q: Request, env: Env): Option<Row> {
    if DbAvailable(f, s, env.readAt) && env.read == ReadDone(true) && q in s.rows then Some(s.rows[q]) else None
  }

  function AfterWrite(f: Fetcher, s: State, q: Request, row: Row, env: Env): State {
    if !DbAvailable(f, s, env.writeAt) then s
    else
      match env.write
      case WriteDone => s.(rows := s.rows[q := row], accesses := s.accesses + [Access(env.writeAt, None)])
      case WriteFailed(landed) =>
        s.(rows := if landed then s.rows[q := row] else s.rows,
           skipUntil := env.writeFailedAt + RETRY_SECONDS,
           accesses := s.accesses + [Access(env.writeAt, Some(env.writeFailedAt))])
  }

  predicate Fresh(row: Row, now: int) {
    row.expiresAt.None? || row.expiresAt.value > now
  }

  function AfterAnswer(s: State, q: Request, response: Response, now: int): State {
    s.(given := s.given + [Given(q, response, now)])
  }

  /** `fetch_parsed` */
  function Fetch(f: Fetcher, s: State, q: Request, env: Env): (State, Result<Response, FetchError>) {
    var cached, read := Cached(f, s, q, env), AfterRead(f, s, env);
    if cached.Some? && Fresh(cached.value, env.now) then (read, Ok(cached.value.response))
    else
      match env.client
      case Refused =>
        (read, if f.kind.Scheduled? && cached.Some? then Ok(cached.value.response) else Err(ClientFailed))
      case Answered(response) =>
        var answered := AfterAnswer(read, q, response, env.now);
        if !Accepts(f, response) then (answered, Ok(if cached.Some? then cached.value.response else response))
        else (AfterWrite(f, answered, q, Row(response, ExpiresAt(f.kind, env.now)), env), Ok(response))
  }

  /** Only scheduled data can be refused storing. */
  predicate Accepts(f: Fetcher, response: Response) {
    f.kind.OnDemand? || f.accepts(response)
  }

  /** `refresh`, with its own test of what may be stored. */
  function Refresh(f: Fetcher, s: State, q: Request, accept: Response -> bool, env: Env)
    : (State, Result<Response, FetchError>)
  {
    match env.client
    case Refused => (s, Err(ClientFailed))
    case Answered(response) =>
      var answered := AfterAnswer(s, q, response, env.now);
      if !accept(response) then (answered, Err(NotAccepted))
      else (AfterWrite(f, answered, q, Row(response, ExpiresAt(f.kind, env.now)), env), Ok(response))
  }

  // ---------- the fetcher as the program has it ----------

  class CachedFetcher {
    const fetcher: Fetcher
    var rows: map<Request, Row>
    var skipUntil: int
    ghost var given: seq<Given>
    ghost var accesses: seq<Access>

    constructor (fetcher: Fetcher)
      ensures View() == EMPTY && this.fetcher == fetcher
    {
      this.fetcher := fetcher;
      rows, skipUntil, given, accesses := map[], 0, [], [];
    }

    ghost function View(): State
      reads this
    {
      State(rows, skipUntil, given, accesses)
    }

    method Read(q: Request, env: Env) returns (cached: Option<Row>)
      modifies this
      ensures View() == AfterRead(fetcher, old(View()), env)
      ensures cached == Cached(fetcher, old(View()), q, env)
    {
      if !(fetcher.hasDb && env.readAt >= skipUntil) {
        return None;
      }
      match env.read
      case ReadFailed =>
        accesses := accesses + [Access(env.readAt, Some(env.readFailedAt))];
        skipUntil := env.readFailedAt + RETRY_SECONDS;
        return None;
      case ReadDone(readable) =>
        accesses := accesses + [Access(env.readAt, None)];
        if q !in rows || !readable {
          return None;
        }
        return Some(rows[q]);
    }

    method Write(q: Request, row: Row, env: Env)
      modifies this
      ensures View() == AfterWrite(fetcher, old(View()), q, row, env)
    {
      if !(fetcher.hasDb && env.writeAt >= skipUntil) {
        return;
      }
      match env.write
      case WriteDone =>
        accesses := accesses + [Access(env.writeAt, None)];
        rows := rows[q := row];
      case WriteFailed(landed) =>
        accesses := accesses + [Access(env.writeAt, Some(env.writeFailedAt))];
        if landed {
          rows := rows[q := row];
        }
        skipUntil := env.writeFailedAt + RETRY_SECONDS;
    }

    method FetchParsed(q: Request, env: Env) returns (result: Result<Response, FetchError>)
      modifies this
      ensures (View(), result) == Fetch(fetcher, old(View()), q, env)
    {
      var cached := Read(q, env);
      if cached.Some? && Fresh(cached.value, env.now) {
        return Ok(cached.value.response);
      }
      match env.client
      case Refused =>
        if fetcher.kind.Scheduled? && cached.Some? {
          return Ok(cached.value.response);
        }
        return Err(ClientFailed);
      case Answered(response) =>
        given := given + [Given(q, response, env.now)];
        if !Accepts(fetcher, response) {
          if cached.Some? {
            return Ok(cached.value.response);
          }
          return Ok(response);
        }
        Write(q, Row(response, ExpiresAt(fetcher.kind, env.now)), env);
        return Ok(response);
    }

    method RefreshParsed(q: Request, accept: Response -> bool, env: Env) returns (result: Result<Response, FetchError>)
      modifies this
      ensures (View(), result) == Refresh(fetcher, old(View()), q, accept, env)
    {
      match env.client
      case Refused => return Err(ClientFailed);
      case Answered(response) =>
        given := given + [Given(q, response, env.now)];
        if !accept(response) {
          return Err(NotAccepted);
        }
        Write(q, Row(response, ExpiresAt(fetcher.kind, env.now)), env);
        return Ok(response);
    }
  }

  // ---------- runs ----------

  datatype Operation = FetchOp(q: Request) | RefreshOp(q: Request, accept: Response -> bool)

  datatype Step = Step(op: Operation, env: Env)

  function Do(f: Fetcher, s: State, step: Step): (State, Result<Response, FetchError>) {
    match step.op
    case FetchOp(q) => Fetch(f, s, q, step.env)
    case RefreshOp(q, accept) => Refresh(f, s, q, accept, step.env)
  }

  /** The monotonic clock does not run backwards during a call. */
  predicate ClockRises(env: Env) {
    env.readAt <= env.readFailedAt <= env.writeAt <= env.writeFailedAt
  }

  /** The monotonic clock does not run backwards over a run that starts at time `start`. */
  predicate ClockRisesFrom(start: int, steps: seq<Step>) {
    && (forall i :: 0 <= i < |steps| ==> ClockRises(steps[i].env) && start <= steps[i].env.readAt)
    && forall i, j :: 0 <= i < j < |steps| ==> steps[i].env.writeFailedAt <= steps[j].env.readAt
  }

  function After(f: Fetcher, steps: seq<Step>): State {
    if steps == [] then EMPTY else Do(f, After(f, steps[..|steps| - 1]), steps[|steps| - 1]).0
  }

  // ---------- every value is the client's ----------

  /** The client gave this response to this request, and it stays valid until `expiresAt`. */
  ghost predicate WasGiven(f: Fetcher, given: seq<Given>, q: Request, row: Row) {
    exists i :: 0 <= i < |given| && given[i].request == q && given[i].response == row.response
      && row.expiresAt == ExpiresAt(f.kind, given[i].at)
  }

  ghost predicate RowsGiven(f: Fetcher, s: State) {
    forall q :: q in s.rows ==> WasGiven(f, s.given, q, s.rows[q])
  }

  lemma GivenMore(f: Fetcher, given: seq<Given>, more: seq<Given>, q: Request, row: Row)
    requires WasGiven(f, given, q, row) && given <= more
    ensures WasGiven(f, more, q, row)
  {
    var i :| 0 <= i < |given| && given[i].request == q && given[i].response == row.response
      && row.expiresAt == ExpiresAt(f.kind, given[i].at);
    assert more[i] == given[i];
  }

  lemma WriteKeeps(f: Fetcher, s: State, q: Request, response: Response, env: Env)
    requires RowsGiven(f, s)
    ensures var answered := AfterAnswer(s, q, response, env.now);
      RowsGiven(f, answered) && RowsGiven(f, AfterWrite(f, answered, q, Row(response, ExpiresAt(f.kind, env.now)), env))
  {
    var more := s.given + [Given(q, response, env.now)];
    assert more[|s.given|] == Given(q, response, env.now);
    forall p | p in s.rows ensures WasGiven(f, more, p, s.rows[p]) {
      GivenMore(f, s.given, more, p, s.rows[p]);
    }
  }

  lemma DoKeepsRows(f: Fetcher, s: State, step: Step)
    requires RowsGiven(f, s)
    ensures RowsGiven(f, Do(f, s, step).0)
  {
    match step.env.client
    case Refused =>
    case Answered(response) =>
      WriteKeeps(f, s, step.op.q, response, step.env);
      WriteKeeps(f, AfterRead(f, s, step.env), step.op.q, response, step.env);
  }

  lemma {:induction false} RowsAreGiven(f: Fetcher, steps: seq<Step>)
    ensures RowsGiven(f, After(f, steps))
  {
    if steps != [] {
      RowsAreGiven(f, steps[..|steps| - 1]);
      DoKeepsRows(f, After(f, steps[..|steps| - 1]), steps[|steps| - 1]);
    }
  }

  /** Over any run of fetches, refreshes, clock readings and database failures: a response returned for a request is one
      the client gave for that request; on-demand data was asked for less than `ttl` ago, or in this very call. */
  lemma ResponsesAreGiven(f: Fetcher, steps: seq<Step>, last: Step)
    requires Do(f, After(f, steps), last).1.Ok?
    ensures var (s, result) := Do(f, After(f, steps), last);
      exists i :: 0 <= i < |s.given| && s.given[i].request == last.op.q && s.given[i].response == result.value
        && (f.kind.OnDemand? ==> s.given[i].at == last.env.now || last.env.now - s.given[i].at < f.kind.ttl)
  {
    var before := After(f, steps);
    RowsAreGiven(f, steps);
    var (s, result) := Do(f, before, last);
    var cached := Cached(f, before, last.op.q, last.env);
    if last.op.FetchOp? && cached.Some? && (Fresh(cached.value, last.env.now) || f.kind.Scheduled?)
      && result.value == cached.value.response
    {
      var i :| 0 <= i < |before.given| && before.given[i].request == last.op.q
        && before.given[i].response == cached.value.response
        && cached.value.expiresAt == ExpiresAt(f.kind, before.given[i].at);
      assert s.given[i] == before.given[i];
    } else {
      var i := |before.given|;
      assert s.given[i] == Given(last.op.q, result.value, last.env.now);
    }
  }

  // ---------- the skip interval ----------

  /** Every use of the database comes at least the retry interval after every earlier failure. */
  ghost predicate Spaced(accesses: seq<Access>) {
    forall i, j :: 0 <= i < j < |accesses| && accesses[i].failedAt.Some? ==>
      accesses[i].failedAt.value + RETRY_SECONDS <= accesses[j].at
  }

  ghost predicate Skipping(s: State, time: int) {
    && Spaced(s.accesses)
    && forall i :: 0 <= i < |s.accesses| && s.accesses[i].failedAt.Some? ==>
      s.accesses[i].failedAt.value <= time && s.accesses[i].failedAt.value + RETRY_SECONDS <= s.skipUntil
  }

  lemma ReadSkips(f: Fetcher, s: State, env: Env, time: int)
    requires Skipping(s, time) && time <= env.readAt && ClockRises(env)
    ensures Skipping(AfterRead(f, s, env), env.readFailedAt)
  {
  }

  lemma WriteSkips(f: Fetcher, s: State, q: Request, row: Row, env: Env)
    requires Skipping(s, env.writeAt) && ClockRises(env)
    ensures Skipping(AfterWrite(f, s, q, row, env), env.writeFailedAt)
  {
  }

  lemma StillSkips(s: State, time: int, later: int, q: Request, response: Response, now: int)
    requires Skipping(s, time) && time <= later
    ensures Skipping(s, later) && Skipping(AfterAnswer(s, q, response, now), later)
  {
  }

  lemma DoSkips(f: Fetcher, s: State, step: Step, time: int)
    requires Skipping(s, time) && time <= step.env.readAt && ClockRises(step.env)
    ensures Skipping(Do(f, s, step).0, step.env.writeFailedAt)
  {
    hide Skipping, AfterRead, AfterWrite, AfterAnswer, Cached;
    var q, env := step.op.q, step.env;
    var read := AfterRead(f, s, env);
    ReadSkips(f, s, env, time);
    var response := if env.client.Answered? then env.client.response else 0;
    StillSkips(s, time, env.writeAt, q, response, env.now);
    StillSkips(s, time, env.writeFailedAt, q, response, env.now);
    StillSkips(read, env.readFailedAt, env.writeAt, q, response, env.now);
    StillSkips(read, env.readFailedAt, env.writeFailedAt, q, response, env.now);
    var row := Row(response, ExpiresAt(f.kind, env.now));
    WriteSkips(f, AfterAnswer(read, q, response, env.now), q, row, env);
    WriteSkips(f, AfterAnswer(s, q, response, env.now), q, row, env);
  }

  /** No use of the database within the retry interval after a failure, in any run. */
  lemma {:induction false} SkipIntervalHolds(f: Fetcher, steps: seq<Step>, start: int)
    requires ClockRisesFrom(start, steps)
    ensures Spaced(After(f, steps).accesses)
    ensures Skipping(After(f, steps), if steps == [] then start else steps[|steps| - 1].env.writeFailedAt)
  {
    if steps != [] {
      var n := |steps| - 1;
      SkipIntervalHolds(f, steps[..n], start);
      DoSkips(f, After(f, steps[..n]), steps[n], if n == 0 then start else steps[n - 1].env.writeFailedAt);
    }
  }

  /** The database may be used: there is one, and every failure so far is at least the retry interval ago. */
  ghost predicate Usable(f: Fetcher, accesses: seq<Access>, at: int) {
    f.hasDb && forall i :: 0 <= i < |accesses| && accesses[i].failedAt.Some? ==>
      accesses[i].failedAt.value + RETRY_SECONDS <= at
  }

  /** The skip time is that of a failure, or still the first one. */
  ghost predicate SkipsFrom(s: State) {
    || (s.skipUntil == 0 && forall i :: 0 <= i < |s.accesses| ==> s.accesses[i].failedAt.None?)
    || exists i :: 0 <= i < |s.accesses| && s.accesses[i].failedAt.Some?
                   && s.skipUntil == s.accesses[i].failedAt.value + RETRY_SECONDS
  }

  lemma AccessSkipsFrom(s: State, a: Access, skipUntil: int)
    requires SkipsFrom(s)
    requires skipUntil == if a.failedAt.Some? then a.failedAt.value + RETRY_SECONDS else s.skipUntil
    ensures SkipsFrom(s.(skipUntil := skipUntil, accesses := s.accesses + [a]))
  {
    var all := s.accesses + [a];
    assert all[|s.accesses|] == a;
    if i :| 0 <= i < |s.accesses| && s.accesses[i].failedAt.Some?
            && s.skipUntil == s.accesses[i].failedAt.value + RETRY_SECONDS {
      assert all[i].failedAt.Some?;
    }
  }

  lemma ReadSkipsFrom(f: Fetcher, s: State, env: Env)
    requires SkipsFrom(s)
    ensures SkipsFrom(AfterRead(f, s, env))
  {
    if DbAvailable(f, s, env.readAt) {
      if env.read.ReadFailed? {
        AccessSkipsFrom(s, Access(env.readAt, Some(env.readFailedAt)), env.readFailedAt + RETRY_SECONDS);
      } else {
        AccessSkipsFrom(s, Access(env.readAt, None), s.skipUntil);
      }
    }
  }

  lemma WriteSkipsFrom(f: Fetcher, s: State, q: Request, row: Row, env: Env)
    requires SkipsFrom(s)
    ensures SkipsFrom(AfterWrite(f, s, q, row, env))
  {
    if DbAvailable(f, s, env.writeAt) {
      match env.write
      case WriteDone => AccessSkipsFrom(s, Access(env.writeAt, None), s.skipUntil);
      case WriteFailed(landed) =>
        AccessSkipsFrom(s, Access(env.writeAt, Some(env.writeFailedAt)), env.writeFailedAt + RETRY_SECONDS);
    }
  }

  lemma {:induction false} EverySkipsFrom(f: Fetcher, steps: seq<Step>)
    ensures SkipsFrom(After(f, steps))
  {
    hide SkipsFrom, AfterRead, AfterWrite;
    if steps == [] {
      NothingSkipped();
    } else {
      var s, step := After(f, steps[..|steps| - 1]), steps[|steps| - 1];
      EverySkipsFrom(f, steps[..|steps| - 1]);
      var env := step.env;
      ReadSkipsFrom(f, s, env);
      var response := if env.client.Answered? then env.client.response else 0;
      var row := Row(response, ExpiresAt(f.kind, env.now));
      GivenSkipsFrom(s, step.op.q, response, env.now);
      GivenSkipsFrom(AfterRead(f, s, env), step.op.q, response, env.now);
      WriteSkipsFrom(f, AfterAnswer(s, step.op.q, response, env.now), step.op.q, row, env);
      WriteSkipsFrom(f, AfterAnswer(AfterRead(f, s, env), step.op.q, response, env.now), step.op.q, row, env);
    }
  }

  lemma GivenSkipsFrom(s: State, q: Request, response: Response, now: int)
    requires SkipsFrom(s)
    ensures SkipsFrom(AfterAnswer(s, q, response, now))
  {
  }

  lemma NothingSkipped()
    ensures SkipsFrom(EMPTY)
  {
  }

  /** In any run the database is used exactly when it may be. */
  lemma UsedExactly(f: Fetcher, steps: seq<Step>, start: int, at: int)
    requires ClockRisesFrom(start, steps) && 0 <= at
    ensures DbAvailable(f, After(f, steps), at) <==> Usable(f, After(f, steps).accesses, at)
  {
    hide After;
    SkipIntervalHolds(f, steps, start);
    EverySkipsFrom(f, steps);
  }

  // ---------- what a fetch returns, over any run ----------

  /** The row a fetch reads after the steps: the last stored one, if the database may be used and the row read. */
  ghost function RowRead(f: Fetcher, steps: seq<Step>, q: Request, env: Env): Option<Row>
    decreases |steps|, 1
  {
    if Usable(f, After(f, steps).accesses, env.readAt) && env.read == ReadDone(true) then LastStored(f, steps, q) else None
  }

  predicate Unexpired(row: Row, now: int) {
    row.expiresAt == None || now < row.expiresAt.value
  }

  /** The call after the steps stores the client's answer: it was needed and accepted, and the database may be used for the
      write after the read of the same call. */
  ghost predicate Stores(f: Fetcher, steps: seq<Step>, step: Step)
    decreases |steps|, 2
  {
    var q, env := step.op.q, step.env;
    && env.client.Answered? && env.write != WriteFailed(false) && Usable(f, After(f, steps).accesses, env.writeAt)
    && match step.op
       case FetchOp(_) =>
         var row := RowRead(f, steps, q, env);
         && (row == None || !Unexpired(row.value, env.now))
         && (f.kind.OnDemand? || f.accepts(env.client.response))
         && (Usable(f, After(f, steps).accesses, env.readAt) && env.read.ReadFailed? ==>
               env.readFailedAt + RETRY_SECONDS <= env.writeAt)
       case RefreshOp(_, accept) => accept(env.client.response)
  }

  /** The row the steps stored last for the request: the answer, and how long it holds. */
  ghost function LastStored(f: Fetcher, steps: seq<Step>, q: Request): Option<Row>
    decreases |steps|, 0
  {
    if steps == [] then None
    else
      var init, last := steps[..|steps| - 1], steps[|steps| - 1];
      if last.op.q == q && Stores(f, init, last) then
        Some(Row(last.env.client.response,
                 match f.kind
                 case OnDemand(ttl) => Some(last.env.now + ttl)
                 case Scheduled(None) => None
                 case Scheduled(Some(after)) => Some(last.env.now + after)))
      else LastStored(f, init, q)
  }

  function RowOf(rows: map<Request, Row>, q: Request): Option<Row> {
    if q in rows then Some(rows[q]) else None
  }

  lemma RowStep(f: Fetcher, s: State, step: Step, q: Request)
    ensures var env := step.env;
      RowOf(Do(f, s, step).0.rows, q) ==
      if step.op.q == q && env.client.Answered? && env.write != WriteFailed(false)
         && (match step.op
             case FetchOp(_) =>
               && (Cached(f, s, q, env).None? || !Fresh(Cached(f, s, q, env).value, env.now))
               && Accepts(f, env.client.response) && DbAvailable(f, AfterRead(f, s, env), env.writeAt)
             case RefreshOp(_, accept) => accept(env.client.response) && DbAvailable(f, s, env.writeAt))
      then Some(Row(env.client.response, ExpiresAt(f.kind, env.now))) else RowOf(s.rows, q)
  {
  }

  lemma WriteAfterRead(f: Fetcher, s: State, env: Env)
    requires ClockRises(env)
    ensures DbAvailable(f, AfterRead(f, s, env), env.writeAt) <==>
      && DbAvailable(f, s, env.writeAt)
      && (DbAvailable(f, s, env.readAt) && env.read.ReadFailed? ==> env.readFailedAt + RETRY_SECONDS <= env.writeAt)
  {
  }

  /** In any run the row of a request is the one stored last for it. */
  lemma {:induction false} RowsExactly(f: Fetcher, steps: seq<Step>, start: int, q: Request)
    requires ClockRisesFrom(start, steps) && 0 <= start
    ensures RowOf(After(f, steps).rows, q) == LastStored(f, steps, q)
  {
    hide Do, Usable, DbAvailable, Cached, AfterRead;
    if steps != [] {
      var init, last := steps[..|steps| - 1], steps[|steps| - 1];
      var s := After(f, init);
      RowsExactly(f, init, start, q);
      RowStep(f, s, last, q);
      UsedExactly(f, init, start, last.env.writeAt);
      UsedExactly(f, init, start, last.env.readAt);
      if last.op.q == q {
        ReadExactly(f, init, start, q, last.env);
      }
      WriteAfterRead(f, s, last.env);
    }
  }

  lemma ReadExactly(f: Fetcher, steps: seq<Step>, start: int, q: Request, env: Env)
    requires ClockRisesFrom(start, steps) && 0 <= env.readAt
    requires RowOf(After(f, steps).rows, q) == LastStored(f, steps, q)
    ensures Cached(f, After(f, steps), q, env) == RowRead(f, steps, q, env)
  {
    hide After, LastStored, Usable, DbAvailable;
    UsedExactly(f, steps, start, env.readAt);
  }

  /**
   What a fetch returns after any run. A row it reads that has not expired is the answer, whatever the client would say;
   otherwise the client's answer is, unless scheduled data does not accept it and a row was read; when the client fails,
   scheduled data falls back on the row it read, and the fetch fails without one.
   */
  lemma FetchExactly(f: Fetcher, steps: seq<Step>, start: int, q: Request, env: Env)
    requires ClockRisesFrom(start, steps) && 0 <= start && 0 <= env.readAt
    ensures var row, result := RowRead(f, steps, q, env), Fetch(f, After(f, steps), q, env).1;
      && (row.Some? && Unexpired(row.value, env.now) ==> result == Ok(row.value.response))
      && (row == None || !Unexpired(row.value, env.now) ==>
            match env.client
            case Refused =>
              result == if f.kind.Scheduled? && row.Some? then Ok(row.value.response) else Err(ClientFailed)
            case Answered(response) =>
              result == if f.kind.Scheduled? && !f.accepts(response) && row.Some? then Ok(row.value.response) else Ok(response))
  {
    hide After, RowRead;
    RowsExactly(f, steps, start, q);
    ReadExactly(f, steps, start, q, env);
  }

  lemma {:induction false} StoredStays(f: Fetcher, steps: seq<Step>, i: nat, q: Request)
    requires i < |steps| && forall j :: i < j < |steps| ==> steps[j].op.q != q
    ensures LastStored(f, steps, q) == LastStored(f, steps[..i + 1], q)
    decreases |steps|
  {
    if i == |steps| - 1 {
      assert steps[..i + 1] == steps;
    } else {
      StoredStays(f, steps[..|steps| - 1], i, q);
      assert steps[..|steps| - 1][..i + 1] == steps[..i + 1];
    }
  }

  /** A stored answer is returned again, whatever the client would say then and whatever happened to other requests, as
      long as it has not expired and the database may be used and the row read. */
  lemma AnswerIsReused(f: Fetcher, steps: seq<Step>, start: int, i: nat, q: Request, env: Env)
    requires ClockRisesFrom(start, steps) && 0 <= start && 0 <= env.readAt
    requires i < |steps| && steps[i].op.q == q && Stores(f, steps[..i], steps[i])
    requires forall j :: i < j < |steps| ==> steps[j].op.q != q
    requires Usable(f, After(f, steps).accesses, env.readAt) && env.read == ReadDone(true)
    requires match f.kind
             case OnDemand(ttl) => env.now - steps[i].env.now < ttl
             case Scheduled(None) => true
             case Scheduled(Some(after)) => env.now - steps[i].env.now < after
    ensures Fetch(f, After(f, steps), q, env).1 == Ok(steps[i].env.client.response)
  {
    hide After, Fetch, Stores, Usable;
    StoredStays(f, steps, i, q);
    assert steps[..i + 1][..i] == steps[..i];
    FetchExactly(f, steps, start, q, env);
  }
}
