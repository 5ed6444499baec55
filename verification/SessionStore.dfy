/** The in-memory session store and its archive mirror (ai/app/sessions/store.py). */
module SessionStores {
  import opened Common
  import opened Domain
  import opened Sessions
  import T = SessionTraces

  type SessionMap = map<ProductId, Session>

  // ---------- what the archive holds ----------

  /** Equal except for the stage, its start and the update time: what same-state changes may touch. */
  predicate SameButStage(a: Session, b: Session) {
    a.(stage := b.stage, stageStartedAt := b.stageStartedAt, updatedAt := b.updatedAt) == b
  }

  /** A change that keeps the run and its status is not written to the archive. */
  predicate SameState(previous: Option<Session>, s: Session) {
    previous.Some? && previous.value.status == s.status && previous.value.context.run == s.context.run
  }

  /** The archive after a session was stored in place of `previous`. */
  function ArchiveChange(archive: SessionMap, previous: Option<Session>, s: Session): SessionMap {
    if Archived(s) then (if SameState(previous, s) then archive else archive[s.context.product := s])
    else if previous.Some? && Archived(previous.value) then archive - {s.context.product}
    else archive
  }

  function Lookup(sessions: SessionMap, p: ProductId): Option<Session> {
    if p in sessions then Some(sessions[p]) else None
  }

  /** The archive holds exactly the archivable sessions, each up to its stage. */
  ghost predicate Mirror(sessions: SessionMap, archive: SessionMap) {
    && (forall p :: p in sessions ==> sessions[p].context.product == p)
    && (forall p :: p in archive <==> p in sessions && Archived(sessions[p]))
    && (forall p :: p in archive ==> SameButStage(archive[p], sessions[p]))
  }

  /** Storing a session keeps the mirror exactly when it does not slip changed content under an unchanged status
      of an unchanged run. */
  lemma StoringKeepsMirrorExactly(sessions: SessionMap, archive: SessionMap, s: Session)
    requires Mirror(sessions, archive)
    ensures var p := s.context.product;
            var previous := Lookup(sessions, p);
            Mirror(sessions[p := s], ArchiveChange(archive, previous, s))
            <==> (Archived(s) && SameState(previous, s) ==> Archived(previous.value) && SameButStage(previous.value, s))
  {
    var p := s.context.product;
    var previous := Lookup(sessions, p);
    var archive' := ArchiveChange(archive, previous, s);
    if Archived(s) && SameState(previous, s) {
      if Archived(previous.value) && SameButStage(previous.value, s) {
        assert SameButStage(archive[p], s);
      } else if Archived(previous.value) {
        assert SameButStage(archive'[p], previous.value);
        assert !SameButStage(archive'[p], sessions[p := s][p]);
      } else {
        assert p !in archive' && p in sessions[p := s] && Archived(sessions[p := s][p]);
      }
    }
  }

  /** A transition never slips content: with the status and the run unchanged it only moves the stage. */
  lemma TransitionsMoveOnlyTheStage(s: Session, change: Change, now: int)
    requires Apply(s, change, now).Ok? && SameState(Some(s), Apply(s, change, now).value.session)
    ensures SameButStage(s, Apply(s, change, now).value.session)
    ensures s.context == Apply(s, change, now).value.session.context
  {
  }

  // ---------- every run of the store ----------

  /** The archive that mirrors a run of submissions, changes and purges. */
  function ArchiveAfter(steps: seq<T.Step>): SessionMap
    requires T.Run(steps).Some?
  {
    if steps == [] then map[]
    else
      var before := T.Run(steps[..|steps| - 1]).value;
      var archive := ArchiveAfter(steps[..|steps| - 1]);
      match steps[|steps| - 1]
      case Add(s) => ArchiveChange(archive, Lookup(before.sessions, s.context.product), s)
      case Replace(context, change, now) =>
        var target := T.Target(before, context);
        if target.Some? && Apply(target.value, change, now).Ok?
        then ArchiveChange(archive, target, Apply(target.value, change, now).value.session) else archive
      case Purge(products) => archive - set p | p in products && p in before.sessions && Archived(before.sessions[p])
  }

  lemma AddMirrors(w: T.World, archive: SessionMap, s: Session)
    requires T.Inv(w) && Mirror(w.sessions, archive) && T.Enabled(w, T.Add(s))
    ensures Mirror(w.sessions[s.context.product := s], ArchiveChange(archive, Lookup(w.sessions, s.context.product), s))
  {
    StoringKeepsMirrorExactly(w.sessions, archive, s);
  }

  lemma ReplaceMirrors(w: T.World, archive: SessionMap, context: Context, change: Change, now: int)
    requires Mirror(w.sessions, archive) && T.Enabled(w, T.Replace(context, change, now))
    requires T.Target(w, context).Some? && Apply(T.Target(w, context).value, change, now).Ok?
    ensures var t := Apply(T.Target(w, context).value, change, now).value;
            Mirror(w.sessions[context.product := t.session], ArchiveChange(archive, T.Target(w, context), t.session))
  {
    var s := T.Target(w, context).value;
    var t := Apply(s, change, now).value;
    StoringKeepsMirrorExactly(w.sessions, archive, t.session);
    if SameState(Some(s), t.session) {
      TransitionsMoveOnlyTheStage(s, change, now);
    }
  }

  /** After any run the archive mirrors the live sessions, although same-state changes are never written: it holds those
      that have not ended, test runs left out. */
  lemma {:induction false} ArchiveMirrors(steps: seq<T.Step>)
    requires T.Run(steps).Some?
    ensures Mirror(T.Run(steps).value.sessions, ArchiveAfter(steps))
    ensures var sessions := T.Run(steps).value.sessions;
      forall p :: p in ArchiveAfter(steps) <==>
        p in sessions && !sessions[p].status.Done? && !sessions[p].status.Broken?
        && sessions[p].context.runType != RunType.Test
  {
    if steps != [] {
      ArchiveMirrors(steps[..|steps| - 1]);
      T.EveryRun(steps[..|steps| - 1]);
      var w := T.Run(steps[..|steps| - 1]).value;
      var archive := ArchiveAfter(steps[..|steps| - 1]);
      match steps[|steps| - 1]
      case Add(s) => AddMirrors(w, archive, s);
      case Replace(context, change, now) =>
        if T.Target(w, context).Some? && Apply(T.Target(w, context).value, change, now).Ok? {
          ReplaceMirrors(w, archive, context, change, now);
        }
      case Purge(products) =>
    }
  }

  // ---------- the store object ----------

  function AddAll(sessions: SessionMap, archive: SessionMap, archiving: bool, added: seq<Session>): (SessionMap, SessionMap) {
    if added == [] then (sessions, archive)
    else
      var (before, kept) := AddAll(sessions, archive, archiving, added[..|added| - 1]);
      var s := added[|added| - 1];
      (before[s.context.product := s],
       if archiving then ArchiveChange(kept, Lookup(before, s.context.product), s) else kept)
  }

  class SessionStore {
    var sessions: SessionMap
    // the archive outside the process, when there is one
    var archive: SessionMap
    const archiving: bool
    const endedRetention: int
    const awaitingRetention: int

    constructor (archiving: bool, endedRetention: int, awaitingRetention: int)
      ensures sessions == map[] && archive == map[] && this.archiving == archiving
      ensures this.endedRetention == endedRetention && this.awaitingRetention == awaitingRetention
    {
      this.archiving, this.endedRetention, this.awaitingRetention := archiving, endedRetention, awaitingRetention;
      sessions, archive := map[], map[];
    }

    /** Whether a session has outlived the retention time of its status. */
    predicate Expired(s: Session, now: int) {
      match RetentionOf(s.status)
      case None => false
      case Some(EndedRetention) => s.updatedAt <= now - endedRetention
      case Some(AwaitingRetention) => s.updatedAt <= now - awaitingRetention
    }

    /** An ended session expires by one retention time, a waiting one by the other, counted from its last update; accepted
        and running sessions never do. */
    lemma ExpiredExactly(s: Session, now: int)
      ensures Expired(s, now) <==>
        || ((s.status.Done? || s.status.Broken?) && s.updatedAt + endedRetention <= now)
        || (s.status.AwaitingAnswers? && s.updatedAt + awaitingRetention <= now)
    {
      match s.status
      case Accepted =>
      case _ =>
    }

    method ChangeArchive(previous: Option<Session>, s: Session)
      modifies this`archive
      ensures archive == if archiving then ArchiveChange(old(archive), previous, s) else old(archive)
    {
      if !archiving {
        return;
      }
      if Archived(s) {
        if !SameState(previous, s) {
          archive := archive[s.context.product := s];
        }
      } else if previous.Some? && Archived(previous.value) {
        archive := archive - {s.context.product};
      }
    }

    method Add(added: seq<Session>)
      modifies this
      ensures (sessions, archive) == AddAll(old(sessions), old(archive), archiving, added)
    {
      for i := 0 to |added|
        invariant (sessions, archive) == AddAll(old(sessions), old(archive), archiving, added[..i])
      {
        var s := added[i];
        assert added[..i + 1][..i] == added[..i];
        var previous := Lookup(sessions, s.context.product);
        sessions := sessions[s.context.product := s];
        ChangeArchive(previous, s);
      }
      assert added[..|added|] == added;
    }

    /** Applies `change` to the current session of this very run. Ok(None) when there is none; Err when the change
        was rejected, and then nothing changes. */
    method Replace(context: Context, change: Session -> Result<Transition, Rejection>)
      returns (r: Result<Option<Transition>, Rejection>)
      modifies this
      ensures var current := Lookup(old(sessions), context.product);
              if current.None? || current.value.context.run != context.run
              then r == Ok(None) && sessions == old(sessions) && archive == old(archive)
              else match change(current.value)
                case Err(e) => r == Err(e) && sessions == old(sessions) && archive == old(archive)
                case Ok(t) =>
                  && r == Ok(Some(t)) && sessions == old(sessions)[context.product := t.session]
                  && archive == if archiving then ArchiveChange(old(archive), current, t.session) else old(archive)
    {
      var current := Lookup(sessions, context.product);
      if current.None? || current.value.context.run != context.run {
        return Ok(None);
      }
      match change(current.value)
      case Err(e) =>
        return Err(e);
      case Ok(t) =>
        sessions := sessions[context.product := t.session];
        ChangeArchive(current, t.session);
        return Ok(Some(t));
    }

    /** Drops the sessions that outlived their retention, with their archived copies. Accepted and running
        sessions have no retention and stay. */
    method Purge(now: int) returns (count: nat)
      modifies this
      ensures sessions == map p | p in old(sessions) && !Expired(old(sessions)[p], now) :: old(sessions)[p]
      ensures archive == if archiving
                         then old(archive) - (set p | p in old(sessions) && Expired(old(sessions)[p], now)
                                                    && Archived(old(sessions)[p]))
                         else old(archive)
      ensures count == |old(sessions)| - |sessions|
      ensures forall p :: p in old(sessions) && (old(sessions)[p].status.Accepted? || old(sessions)[p].status.Running?) ==>
                p in sessions
    {
      var expired := set p | p in sessions && Expired(sessions[p], now);
      var gone := set p | p in expired && Archived(sessions[p]);
      count := |expired|;
      SizeAfterRemoval(sessions, expired);
      sessions := sessions - expired;
      if archiving && gone != {} {
        archive := archive - gone;
      }
      assert gone == set p | p in old(sessions) && Expired(old(sessions)[p], now) && Archived(old(sessions)[p]);
    }
  }

  lemma SizeAfterRemoval(m: SessionMap, gone: set<ProductId>)
    requires gone <= m.Keys
    ensures |m - gone| == |m| - |gone|
  {
    assert (m - gone).Keys == m.Keys - gone;
    assert |m.Keys - gone| == |m.Keys| - |gone|;
    assert |(m - gone).Keys| == |m - gone| && |m.Keys| == |m|;
  }
}
