// The inductive invariant of the step machine, and what carries it across steps of
// other threads: an entity's view stays quiet unless its lock holder moves.
module Invariants {
  import opened Decisions
  import opened Integrity
  import opened OpenBao
  import opened Options
  import opened Protocol
  import opened Store
  import opened Time

  // ------------------------------------------------------------------- access

  /** The store entitles the entity to a capability: an unrevoked grant expires later. */
  ghost predicate Entitled(db: Db, entity: string, now: int, path: string, capability: string) {
    exists id :: id in db.grants && GrantGives(db.grants[id], entity, now, path, capability)
  }

  predicate GrantGives(g: Grant, entity: string, now: int, path: string, capability: string) {
    g.entity == entity && g.revokedAt == 0 && now < g.expiresAt && g.path == path && capability in g.capabilities
  }

  /** From now on the entity's policy gives exactly the access the store entitles it to. */
  ghost predicate Sync(db: Db, bao: Bao, clock: int, entity: string) {
    forall t, path, capability :: t >= clock ==>
      (Access(bao, entity, t, path, capability) <==> Entitled(db, entity, t, path, capability))
  }

  // --------------------------------------------------------------- provenance

  predicate SameGrant(g: Grant, h: Grant) {
    && g.id == h.id && g.requestId == h.requestId && g.itemId == h.itemId && g.entity == h.entity
    && g.path == h.path && g.capabilities == h.capabilities && g.expiresAt == h.expiresAt
  }

  ghost predicate GrantTraced(approvals: set<Approval>, g: Grant) {
    exists a :: a in approvals && a.entity == g.entity && SameGrant(a.grant, g)
  }

  ghost predicate BlockTraced(approvals: set<Approval>, entity: string, b: Block) {
    exists a :: a in approvals && a.entity == entity && BlockOf(a.grant) == b
  }

  ghost predicate PolicyTraced(approvals: set<Approval>, bao: Bao, entity: string) {
    PolicyName(entity) in bao.policies ==>
      forall b :: b in bao.policies[PolicyName(entity)].blocks ==> BlockTraced(approvals, entity, b)
  }

  // ------------------------------------------------------------------ threads

  function Holds(th: Thread): Option<string> {
    match th
    case DecideLocked(_, _, _, entity) => Some(entity)
    case DecideLoaded(_, _, loaded) => Some(loaded.entity)
    case DecideJudged(b) => Some(b.loaded.entity)
    case DecideListed(b, _) => Some(b.loaded.entity)
    case DecideWritten(b, _) => Some(b.loaded.entity)
    case DecideEntityRead(b, _, _) => Some(b.loaded.entity)
    case DecideReady(b, _) => Some(b.loaded.entity)
    case RevokeLocked(_, grant) => Some(grant.entity)
    case RevokeTimed(_, grant, _) => Some(grant.entity)
    case RevokeListed(_, grant, _, _) => Some(grant.entity)
    case RevokeWritten(_, grant, _, _) => Some(grant.entity)
    case RestoreCall(entity, _) => Some(entity)
    case RestoreTimed(entity, _, _) => Some(entity)
    case RestoreListed(entity, _, _, _) => Some(entity)
    case Unlocking(entity, _) => Some(entity)
    case _ => None
  }

  /** What a loaded request still is: the stored row, unless the sweep emptied it past its deadline. */
  ghost predicate Snapshot(db: Db, clock: int, loaded: Request) {
    && loaded.id in db.requests
    && db.requests[loaded.id].request.entity == loaded.entity
    && db.requests[loaded.id].request.pendingUntil == loaded.pendingUntil
    && ItemIds(db.requests[loaded.id].request) == ItemIds(loaded)
    && (db.requests[loaded.id].request == loaded || (!db.requests[loaded.id].hasPending && loaded.pendingUntil <= clock))
    && LifetimesPositive(loaded.items) && DistinctIds(loaded)
  }

  ghost predicate BatchOk(s: Sys, b: Batch) {
    && b.approver.entity != b.loaded.entity
    && Snapshot(s.db, s.clock, b.loaded)
    && MILLISECOND <= b.now <= s.clock
    && Progress(b.approver, b.now, b.loaded, Tally(b.decided, b.grants, {}))
    && HasPending(b.loaded.items)
    && forall g :: g in b.grants ==> GrantTraced(s.approvals, g)
  }

  ghost predicate KnownGrant(db: Db, g: Grant) {
    g.id in db.grants && SameGrant(db.grants[g.id], g)
  }

  ghost predicate RevokeOk(s: Sys, grant: Grant, now: int) {
    KnownGrant(s.db, grant) && MILLISECOND <= now <= s.clock
  }

  ghost predicate Chosen(active: seq<Grant>, id: Id) {
    exists g :: g in active && g.id == id
  }

  ghost predicate ThreadOk(s: Sys, th: Thread) {
    match th
    case FileCall(entity, _, _) => entity != ""
    case FileResolved(filing) => FreshlyFiled(filing)
    case FileChecked(filing) => FreshlyFiled(filing)
    case DecideQueued(approver, rid, decisions, entity) => QueuedOk(s.db, approver, rid, decisions, entity)
    case DecideLocked(approver, rid, decisions, entity) => QueuedOk(s.db, approver, rid, decisions, entity)
    case DecideLoaded(approver, decisions, loaded) => approver.entity != loaded.entity && Snapshot(s.db, s.clock, loaded) && decisions != []
    case DecideJudged(b) => BatchOk(s, b) && b.grants != []
    case DecideListed(b, active) => BatchOk(s, b) && b.grants != [] && Lists(s.db, b.loaded.entity, b.now, active)
    case DecideWritten(b, active) => BatchOk(s, b) && b.grants != [] && Lists(s.db, b.loaded.entity, b.now, active)
    case DecideEntityRead(b, active, names) =>
      && BatchOk(s, b) && b.grants != [] && Lists(s.db, b.loaded.entity, b.now, active)
      && b.loaded.entity in s.bao.entities && s.bao.entities[b.loaded.entity] == names
    case DecideReady(b, active) =>
      && BatchOk(s, b)
      && (b.grants != [] ==> Lists(s.db, b.loaded.entity, b.now, active) && Attached(s.bao, b.loaded.entity))
    case RevokeQueued(_, grant) => KnownGrant(s.db, grant)
    case RevokeLocked(_, grant) => KnownGrant(s.db, grant)
    case RevokeTimed(_, grant, now) => RevokeOk(s, grant, now)
    case RevokeListed(_, grant, now, active) => RevokeOk(s, grant, now) && Lists(s.db, grant.entity, now, active) && Chosen(active, grant.id)
    case RevokeWritten(_, grant, now, active) => RevokeOk(s, grant, now) && Lists(s.db, grant.entity, now, active) && Chosen(active, grant.id)
    case RestoreTimed(_, _, now) => now <= s.clock
    case RestoreListed(entity, _, now, active) => now <= s.clock && Lists(s.db, entity, now, active)
    case _ => true
  }

  ghost predicate QueuedOk(db: Db, approver: Approver, rid: Id, decisions: seq<Decision>, entity: string) {
    decisions != [] && rid in db.requests && db.requests[rid].request.entity == entity && approver.entity != entity
  }

  // ----------------------------------------------------------------- entities

  /** Where the session policy stands while a thread holds the entity's lock. */
  datatype Phase = Settled | Replaced(grants: seq<Grant>) | Unknown

  function PhaseOf(th: Thread): Phase {
    match th
    case DecideWritten(b, active) => Replaced(active + b.grants)
    case DecideEntityRead(b, active, _) => Replaced(active + b.grants)
    case DecideReady(b, active) => if b.grants == [] then Settled else Replaced(active + b.grants)
    case RevokeWritten(_, grant, _, active) => Replaced(Remaining(active, grant.id))
    case RestoreCall(_, _) => Unknown
    case RestoreTimed(_, _, _) => Unknown
    case RestoreListed(_, _, _, _) => Unknown
    case _ => Settled
  }

  function EntityPhase(s: Sys, entity: string): Phase {
    if entity in s.locks && s.locks[entity] in s.threads then PhaseOf(s.threads[s.locks[entity]]) else Settled
  }

  /** The policy document is the rendering of gs. */
  ghost predicate PolicyIs(bao: Bao, entity: string, gs: seq<Grant>) {
    if gs == [] then PolicyName(entity) !in bao.policies
    else PolicyName(entity) in bao.policies && bao.policies[PolicyName(entity)] == SessionPolicy(gs)
  }

  ghost predicate PhaseOk(s: Sys, entity: string) {
    match EntityPhase(s, entity)
    case Settled => entity !in s.dirty ==> Sync(s.db, s.bao, s.clock, entity)
    case Replaced(gs) => PolicyIs(s.bao, entity, gs)
    case Unknown => true
  }

  ghost predicate GrantsImplyAttached(db: Db, bao: Bao, entity: string) {
    (exists id :: id in db.grants && db.grants[id].entity == entity) ==> Attached(bao, entity)
  }

  ghost predicate EntityOk(s: Sys, entity: string) {
    && PolicyTraced(s.approvals, s.bao, entity)
    && GrantsImplyAttached(s.db, s.bao, entity)
    && PhaseOk(s, entity)
  }

  // --------------------------------------------------------------- everything

  ghost predicate LocksOk(s: Sys) {
    && "" !in s.locks
    && (forall e :: e in s.locks ==> s.locks[e] in s.threads && Holds(s.threads[s.locks[e]]) == Some(e))
    && (forall tid :: tid in s.threads && Holds(s.threads[tid]).Some? ==>
          Holds(s.threads[tid]).value in s.locks && s.locks[Holds(s.threads[tid]).value] == tid)
  }

  ghost predicate HistoryOk(s: Sys) {
    forall id {:trigger GrantTraced(s.approvals, s.db.grants[id])} :: id in s.db.grants ==> GrantTraced(s.approvals, s.db.grants[id])
  }

  ghost predicate Inv(s: Sys) {
    && DbInv(s.db)
    && s.clock >= MILLISECOND
    && LocksOk(s)
    && HistoryOk(s)
    && (forall tid {:trigger ThreadOk(s, s.threads[tid])} :: tid in s.threads ==> ThreadOk(s, s.threads[tid]))
    && (forall e :: EntityOk(s, e))
  }

  // ------------------------------------------------------------------- frames

  /** Rows never vanish nor change what identifies them. */
  ghost predicate DbGrows(db: Db, db': Db) {
    && (forall id :: id in db.requests ==> id in db'.requests && SameRequest(db'.requests[id].request, db.requests[id].request))
    && (forall id :: id in db.grants ==> id in db'.grants && SameGrant(db'.grants[id], db.grants[id]))
  }

  ghost predicate SameRequest(r: Request, q: Request) {
    r.entity == q.entity && r.pendingUntil == q.pendingUntil && ItemIds(r) == ItemIds(q)
  }

  /** The entity's requests stay as they are, or the sweep empties them past their deadline. */
  ghost predicate RowsQuiet(db: Db, db': Db, clock: int, entity: string) {
    forall id :: id in db.requests && db.requests[id].request.entity == entity ==>
      && id in db'.requests
      && (|| db'.requests[id] == db.requests[id]
          || (!db'.requests[id].hasPending && db.requests[id].request.pendingUntil <= clock))
  }

  ghost predicate RowsKept(db: Db, db': Db, entity: string) {
    forall id :: id in db.requests && db.requests[id].request.entity == entity ==>
      id in db'.requests && db'.requests[id] == db.requests[id]
  }

  ghost predicate GrantsQuiet(db: Db, db': Db, entity: string) {
    && (forall id :: id in db.grants && db.grants[id].entity == entity ==> id in db'.grants && db'.grants[id] == db.grants[id])
    && (forall id :: id in db'.grants && db'.grants[id].entity == entity ==> id in db.grants && db'.grants[id] == db.grants[id])
  }

  ghost predicate BaoQuiet(bao: Bao, bao': Bao, entity: string) {
    && (PolicyName(entity) in bao.policies <==> PolicyName(entity) in bao'.policies)
    && (PolicyName(entity) in bao.policies ==> bao'.policies[PolicyName(entity)] == bao.policies[PolicyName(entity)])
    && (entity in bao.entities <==> entity in bao'.entities)
    && (entity in bao.entities ==> bao'.entities[entity] == bao.entities[entity])
  }

  ghost predicate Quiet(s: Sys, s': Sys, entity: string) {
    && s.clock <= s'.clock && s.approvals <= s'.approvals
    && (entity in s.dirty <==> entity in s'.dirty)
    && BaoQuiet(s.bao, s'.bao, entity)
    && RowsQuiet(s.db, s'.db, s'.clock, entity) && GrantsQuiet(s.db, s'.db, entity)
    && EntityPhase(s, entity) == EntityPhase(s', entity)
  }

  lemma {:induction false} GrantTracedGrows(approvals: set<Approval>, approvals': set<Approval>, g: Grant)
    requires GrantTraced(approvals, g) && approvals <= approvals'
    ensures GrantTraced(approvals', g)
  {
  }

  lemma {:induction false} SyncQuiet(s: Sys, s': Sys, entity: string)
    requires Sync(s.db, s.bao, s.clock, entity) && s.clock <= s'.clock
    requires BaoQuiet(s.bao, s'.bao, entity) && GrantsQuiet(s.db, s'.db, entity)
    ensures Sync(s'.db, s'.bao, s'.clock, entity)
  {
    forall t, path, capability | t >= s'.clock
      ensures Access(s'.bao, entity, t, path, capability) <==> Entitled(s'.db, entity, t, path, capability)
    {
      assert Access(s'.bao, entity, t, path, capability) <==> Access(s.bao, entity, t, path, capability);
      if Entitled(s.db, entity, t, path, capability) {
        var id :| id in s.db.grants && GrantGives(s.db.grants[id], entity, t, path, capability);
        assert GrantGives(s'.db.grants[id], entity, t, path, capability);
      }
      if Entitled(s'.db, entity, t, path, capability) {
        var id :| id in s'.db.grants && GrantGives(s'.db.grants[id], entity, t, path, capability);
        assert GrantGives(s.db.grants[id], entity, t, path, capability);
      }
    }
  }

  lemma {:induction false} EntityQuiet(s: Sys, s': Sys, entity: string)
    requires EntityOk(s, entity) && Quiet(s, s', entity)
    ensures EntityOk(s', entity)
  {
    if PolicyName(entity) in s'.bao.policies {
      forall b | b in s'.bao.policies[PolicyName(entity)].blocks ensures BlockTraced(s'.approvals, entity, b) {
        assert BlockTraced(s.approvals, entity, b);
      }
    }
    if EntityPhase(s, entity).Settled? && entity !in s.dirty {
      SyncQuiet(s, s', entity);
    }
  }

  lemma {:induction false} ListsQuiet(db: Db, db': Db, entity: string, now: int, gs: seq<Grant>)
    requires Lists(db, entity, now, gs) && GrantsQuiet(db, db', entity)
    ensures Lists(db', entity, now, gs)
  {
  }

  lemma {:induction false} SnapshotQuiet(db: Db, db': Db, clock: int, clock': int, loaded: Request)
    requires Snapshot(db, clock, loaded) && clock <= clock' && DbGrows(db, db') && RowsQuiet(db, db', clock', loaded.entity)
    ensures Snapshot(db', clock', loaded)
  {
  }

  lemma {:induction false} BatchQuiet(s: Sys, s': Sys, b: Batch)
    requires BatchOk(s, b) && DbGrows(s.db, s'.db) && Quiet(s, s', b.loaded.entity)
    ensures BatchOk(s', b)
  {
    SnapshotQuiet(s.db, s'.db, s.clock, s'.clock, b.loaded);
    forall g | g in b.grants ensures GrantTraced(s'.approvals, g) {
      GrantTracedGrows(s.approvals, s'.approvals, g);
    }
  }

  lemma {:induction false} DecidingQuiet(s: Sys, s': Sys, th: Thread)
    requires ThreadOk(s, th) && DbGrows(s.db, s'.db) && IsInstalling(th)
    requires Quiet(s, s', Holds(th).value)
    ensures ThreadOk(s', th)
  {
    BatchQuiet(s, s', th.batch);
    if !th.DecideJudged? && th.batch.grants != [] {
      ListsQuiet(s.db, s'.db, th.batch.loaded.entity, th.batch.now, th.active);
    }
  }

  lemma {:induction false} OthersQuiet(s: Sys, s': Sys, th: Thread)
    requires ThreadOk(s, th) && DbGrows(s.db, s'.db) && s.clock <= s'.clock && !IsInstalling(th)
    requires Holds(th).Some? ==> Quiet(s, s', Holds(th).value)
    ensures ThreadOk(s', th)
  {
    match th
    case DecideLoaded(_, _, loaded) => SnapshotQuiet(s.db, s'.db, s.clock, s'.clock, loaded);
    case RevokeListed(_, grant, now, active) => ListsQuiet(s.db, s'.db, grant.entity, now, active);
    case RevokeWritten(_, grant, now, active) => ListsQuiet(s.db, s'.db, grant.entity, now, active);
    case RestoreListed(entity, _, now, active) => ListsQuiet(s.db, s'.db, entity, now, active);
    case _ =>
  }

  /** A thread's facts survive any step that leaves the entity it has locked quiet. */
  lemma {:induction false} ThreadQuiet(s: Sys, s': Sys, th: Thread)
    requires ThreadOk(s, th) && DbGrows(s.db, s'.db) && s.clock <= s'.clock
    requires Holds(th).Some? ==> Quiet(s, s', Holds(th).value)
    ensures ThreadOk(s', th)
  {
    if IsInstalling(th) {
      DecidingQuiet(s, s', th);
    } else {
      OthersQuiet(s, s', th);
    }
  }

  // Two threads never hold the same entity.
  lemma {:induction false} HoldersDiffer(s: Sys, a: ThreadId, b: ThreadId)
    requires LocksOk(s) && a != b && a in s.threads && b in s.threads
    ensures Holds(s.threads[a]).Some? ==> Holds(s.threads[a]) != Holds(s.threads[b])
  {
  }

  /** s' differs from s by a step of one thread, which touches at most the entity it holds. */
  ghost predicate OwnStep(s: Sys, s': Sys, tid: ThreadId, touched: Option<string>) {
    && tid in s.threads && tid in s'.threads
    && s'.threads == s.threads[tid := s'.threads[tid]]
    && s'.policy == s.policy && s'.clock == s.clock
    && DbGrows(s.db, s'.db) && LocksOk(s) && LocksOk(s')
    && (Holds(s.threads[tid]).Some? ==> Holds(s.threads[tid]) == touched)
    && (Holds(s'.threads[tid]).Some? ==> Holds(s'.threads[tid]) == touched)
    && (touched.Some? ==> Holds(s.threads[tid]) == touched || Holds(s'.threads[tid]) == touched)
    && (forall e :: Some(e) != touched ==> Quiet(s, s', e))
  }

  lemma {:induction false} OtherThreads(s: Sys, s': Sys, tid: ThreadId, touched: Option<string>, other: ThreadId)
    requires OwnStep(s, s', tid, touched) && other != tid && other in s.threads
    requires ThreadOk(s, s.threads[other])
    ensures ThreadOk(s', s'.threads[other])
  {
    HoldersDiffer(s, other, tid);
    HoldersDiffer(s', other, tid);
    assert s'.threads[other] == s.threads[other];
    ThreadQuiet(s, s', s.threads[other]);
  }

  /**
    * One thread's step keeps the invariant when it establishes its own new facts and
    * leaves every entity but the one it touches quiet.
    */
  lemma {:induction false} Compose(s: Sys, s': Sys, tid: ThreadId, touched: Option<string>)
    requires Inv(s) && OwnStep(s, s', tid, touched)
    requires DbInv(s'.db) && HistoryOk(s')
    requires ThreadOk(s', s'.threads[tid])
    requires touched.Some? ==> EntityOk(s', touched.value)
    ensures Inv(s')
  {
    forall other | other in s'.threads && other != tid ensures ThreadOk(s', s'.threads[other]) {
      OtherThreads(s, s', tid, touched, other);
    }
    forall e | Some(e) != touched ensures EntityOk(s', e) {
      assert EntityOk(s, e) && Quiet(s, s', e);
      EntityQuiet(s, s', e);
    }
    assert forall e :: EntityOk(s', e) by {
      forall e ensures EntityOk(s', e) {
        assert Some(e) == touched || Some(e) != touched;
      }
    }
  }
}
