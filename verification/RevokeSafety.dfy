// The steps of a revocation, of restoring a policy, and of the environment keep the invariant.
module RevokeSafety {
  import opened Decisions
  import opened Integrity
  import opened Invariants
  import opened OpenBao
  import opened Options
  import opened Protocol
  import opened Safety
  import opened Store
  import opened Time

  lemma {:induction false} FindKeeps(s: Sys, tid: ThreadId, approver: Approver, grantId: Id, c: Choice)
    requires Inv(s) && tid in s.threads && s.threads[tid] == RevokeCall(approver, grantId)
    ensures Inv(FindStep(s, tid, approver, grantId, c))
  {
    if c == Fault {
      EndStep(s, tid, Failure(StoreFailure));
    } else if grantId !in s.db.grants {
      EndStep(s, tid, Failure(NotFound));
    } else {
      assert GrantOk(s.db.requests, grantId, s.db.grants[grantId]);
      FreeStep(s, tid, RevokeQueued(approver, s.db.grants[grantId]));
    }
  }

  lemma {:induction false} AdmitKeeps(s: Sys, tid: ThreadId, approver: Approver, grant: Grant)
    requires Inv(s) && tid in s.threads && s.threads[tid] == RevokeQueued(approver, grant) && grant.entity !in s.locks
    ensures Inv(Acquire(s, tid, grant.entity, RevokeLocked(approver, grant)))
  {
    assert ThreadOk(s, s.threads[tid]);
    GrantEntity(s.db, grant.id);
    assert RowOk(s.db.grants, s.db.grants[grant.id].requestId, s.db.requests[s.db.grants[grant.id].requestId]);
    Safety.AcquireStep(s, tid, grant.entity, RevokeLocked(approver, grant));
  }

  lemma {:induction false} TimeKeeps(s: Sys, tid: ThreadId, approver: Approver, grant: Grant)
    requires Inv(s) && tid in s.threads && s.threads[tid] == RevokeLocked(approver, grant)
    ensures Inv(Goto(s, tid, RevokeTimed(approver, grant, s.clock)))
  {
    assert ThreadOk(s, s.threads[tid]);
    HeldStep(s, tid, grant.entity, RevokeTimed(approver, grant, s.clock));
  }

  lemma {:induction false} ChooseKeeps(s: Sys, tid: ThreadId, approver: Approver, grant: Grant, now: int, c: Choice)
    requires Inv(s) && tid in s.threads && s.threads[tid] == RevokeTimed(approver, grant, now)
    requires c.Listing? ==> Lists(s.db, grant.entity, now, c.grants)
    ensures Inv(ChooseStep(s, tid, approver, grant, now, c))
  {
    FailStep(s, tid, grant.entity, StoreFailure);
    FailStep(s, tid, grant.entity, Conflict);
    if c.Listing? {
      RemainingExact(c.grants, grant.id);
    }
    if c.Listing? && |Remaining(c.grants, grant.id)| != |c.grants| {
      ChosenKeeps(s, tid, approver, grant, now, c.grants);
    }
  }

  lemma {:induction false} ChosenKeeps(s: Sys, tid: ThreadId, approver: Approver, grant: Grant, now: int, active: seq<Grant>)
    requires Inv(s) && tid in s.threads && s.threads[tid] == RevokeTimed(approver, grant, now)
    requires Lists(s.db, grant.entity, now, active) && Chosen(active, grant.id)
    ensures Inv(Goto(s, tid, RevokeListed(approver, grant, now, active)))
  {
    assert ThreadOk(s, s.threads[tid]);
    HeldStep(s, tid, grant.entity, RevokeListed(approver, grant, now, active));
  }

  lemma {:induction false} WriteRemainingKeeps(s: Sys, tid: ThreadId, approver: Approver, grant: Grant, now: int, active: seq<Grant>, c: Choice)
    requires Inv(s) && tid in s.threads && s.threads[tid] == RevokeListed(approver, grant, now, active)
    ensures Inv(WriteRemainingStep(s, tid, approver, grant, now, active, c))
  {
    if WriteSession(s.bao, grant.entity, Remaining(active, grant.id), s.clock, c).None? {
      FailStep(s, tid, grant.entity, BaoFailure);
    } else {
      WriteRenders(s.bao, grant.entity, Remaining(active, grant.id), s.clock, c);
      WroteRemaining(s, tid, approver, grant, now, active, WriteSession(s.bao, grant.entity, Remaining(active, grant.id), s.clock, c).value);
    }
  }

  lemma {:induction false} WroteRemaining(s: Sys, tid: ThreadId, approver: Approver, grant: Grant, now: int, active: seq<Grant>, bao: Bao)
    requires Inv(s) && tid in s.threads && s.threads[tid] == RevokeListed(approver, grant, now, active)
    requires Renders(s.bao, bao, grant.entity, Remaining(active, grant.id))
    ensures Inv(Wrote(s, tid, RevokeWritten(approver, grant, now, active), bao, s.dirty))
  {
    assert ThreadOk(s, s.threads[tid]);
    RemainingFits(s, approver, grant, now, active);
    WriteStep(s, tid, RevokeWritten(approver, grant, now, active), s.dirty, grant.entity, Remaining(active, grant.id), bao);
  }

  lemma {:induction false} RemainingFits(s: Sys, approver: Approver, grant: Grant, now: int, active: seq<Grant>)
    requires HistoryOk(s) && ThreadOk(s, RevokeListed(approver, grant, now, active))
    ensures ThreadOk(s, RevokeWritten(approver, grant, now, active))
    ensures forall g :: g in Remaining(active, grant.id) ==> g.entity == grant.entity && GrantTraced(s.approvals, g)
  {
    ListedTraced(s, grant.entity, now, active);
    RemainingExact(active, grant.id);
  }

  // ------------------------------------------------------------------- recording

  lemma {:induction false} RevokeFrames(db: Db, grantId: Id, approver: Approver, now: int)
    requires DbInv(db) && RevokeTx(db, grantId, approver, now).Committed?
    ensures DbGrows(db, RevokeTx(db, grantId, approver, now).db)
    ensures forall x :: x != db.grants[grantId].entity ==>
              RowsKept(db, RevokeTx(db, grantId, approver, now).db, x) && GrantsQuiet(db, RevokeTx(db, grantId, approver, now).db, x)
  {
    GrantEntity(db, grantId);
    var db', rid := RevokeTx(db, grantId, approver, now).db, db.grants[grantId].requestId;
    SameIds(db.requests[rid].request, db'.requests[rid].request);
    assert SameRequest(db'.requests[rid].request, db.requests[rid].request);
    forall x | x != db.grants[grantId].entity ensures RowsKept(db, db', x) && GrantsQuiet(db, db', x) {
      RevokeQuiet(db, grantId, approver, now, x);
    }
  }

  lemma {:induction false} RevokeQuiet(db: Db, grantId: Id, approver: Approver, now: int, x: string)
    requires RevokeTx(db, grantId, approver, now).Committed? && x != db.grants[grantId].entity
    requires db.requests[db.grants[grantId].requestId].request.entity == db.grants[grantId].entity
    ensures RowsKept(db, RevokeTx(db, grantId, approver, now).db, x)
    ensures GrantsQuiet(db, RevokeTx(db, grantId, approver, now).db, x)
  {
  }

  // A grant row belongs to the entity of its request.
  lemma {:induction false} GrantEntity(db: Db, id: Id)
    requires DbInv(db) && id in db.grants
    ensures db.grants[id].requestId in db.requests && db.requests[db.grants[id].requestId].request.entity == db.grants[id].entity
  {
    var g := db.grants[id];
    assert GrantOk(db.requests, id, g);
    var i: nat :| Owns(db.requests[g.requestId].request, i, g);
    assert RowOk(db.grants, g.requestId, db.requests[g.requestId]);
    assert ItemOk(db.grants, db.requests[g.requestId].request, db.requests[g.requestId].request.items[i]);
  }

  lemma {:induction false} RevokeHistory(s: Sys, s': Sys, grantId: Id, approver: Approver, now: int)
    requires DbInv(s.db) && HistoryOk(s) && now >= MILLISECOND && RevokeTx(s.db, grantId, approver, now).Committed?
    requires s'.db == RevokeTx(s.db, grantId, approver, now).db && s'.approvals == s.approvals
    ensures DbInv(s'.db) && HistoryOk(s')
  {
    RevokeKeeps(s.db, grantId, approver, now);
    RevokeFrames(s.db, grantId, approver, now);
    forall id | id in s'.db.grants ensures GrantTraced(s'.approvals, s'.db.grants[id]) {
      assert GrantTraced(s.approvals, s.db.grants[id]);
      var a :| a in s.approvals && a.entity == s.db.grants[id].entity && SameGrant(a.grant, s.db.grants[id]);
      assert SameGrant(a.grant, s'.db.grants[id]);
    }
  }

  /** After a revocation the stored grants in force are those listed before it, but the revoked one. */
  lemma {:induction false} RevokeEntitles(db: Db, e: string, grantId: Id, approver: Approver, now: int, active: seq<Grant>, t: int, path: string, capability: string)
    requires DbInv(db) && Lists(db, e, now, active) && MILLISECOND <= now <= t
    requires RevokeTx(db, grantId, approver, now).Committed?
    ensures InForce(Remaining(active, grantId), t, path, capability) <==>
            Entitled(RevokeTx(db, grantId, approver, now).db, e, t, path, capability)
  {
    var db' := RevokeTx(db, grantId, approver, now).db;
    assert StoredTime(now) != 0;
    RemainingExact(active, grantId);
    if InForce(Remaining(active, grantId), t, path, capability) {
      var g :| g in Remaining(active, grantId) && g.path == path && t < g.expiresAt && capability in g.capabilities;
      assert GrantGives(db'.grants[g.id], e, t, path, capability);
    }
    if Entitled(db', e, t, path, capability) {
      var id :| id in db'.grants && GrantGives(db'.grants[id], e, t, path, capability);
      assert id != grantId;
      assert GrantOk(db.requests, id, db.grants[id]);
      UnlistedIsOver(db.grants[id], e, now, t);
      assert db.grants[id] in Remaining(active, grantId);
    }
  }

  lemma {:induction false} RecordedEntityOk(s: Sys, s': Sys, approver: Approver, grant: Grant, now: int, active: seq<Grant>)
    requires DbInv(s.db) && ThreadOk(s, RevokeWritten(approver, grant, now, active)) && EntityOk(s, grant.entity)
    requires EntityPhase(s, grant.entity) == Replaced(Remaining(active, grant.id))
    requires RevokeTx(s.db, grant.id, approver, now).Committed? && s'.db == RevokeTx(s.db, grant.id, approver, now).db
    requires s'.bao == s.bao && s'.approvals == s.approvals && s'.clock == s.clock
    requires EntityPhase(s', grant.entity).Settled?
    ensures EntityOk(s', grant.entity)
    ensures Sync(s'.db, s'.bao, s'.clock, grant.entity)
  {
    var e, gs := grant.entity, Remaining(active, grant.id);
    assert s.db.grants[grant.id].entity == e;
    assert Attached(s.bao, e);
    ListedExpiries(s.db, e, now, active);
    RemainingExact(active, grant.id);
    forall t, path, capability | t >= s'.clock
      ensures Access(s'.bao, e, t, path, capability) <==> Entitled(s'.db, e, t, path, capability)
    {
      RenderedAccess(s.bao, e, gs, t, path, capability);
      RevokeEntitles(s.db, e, grant.id, approver, now, active, t, path, capability);
    }
  }

  lemma {:induction false} RecordedKeeps(s: Sys, s': Sys, tid: ThreadId, approver: Approver, grant: Grant, now: int, active: seq<Grant>)
    requires Inv(s) && tid in s.threads && s.threads[tid] == RevokeWritten(approver, grant, now, active)
    requires RevokeTx(s.db, grant.id, approver, now).Committed?
    requires s' == Goto(s, tid, Unlocking(grant.entity, Success)).(db := RevokeTx(s.db, grant.id, approver, now).db, dirty := s.dirty - {grant.entity})
    ensures Inv(s')
    ensures Sync(s'.db, s'.bao, s'.clock, grant.entity)
  {
    assert ThreadOk(s, s.threads[tid]) && EntityOk(s, grant.entity);
    RecordedFacts(s, s', tid, approver, grant, now, active);
    RecordedSettles(s, s', tid, approver, grant, now, active);
    Compose(s, s', tid, Some(grant.entity));
  }

  lemma {:induction false} RecordedFacts(s: Sys, s': Sys, tid: ThreadId, approver: Approver, grant: Grant, now: int, active: seq<Grant>)
    requires DbInv(s.db) && LocksOk(s) && HistoryOk(s) && tid in s.threads && s.threads[tid] == RevokeWritten(approver, grant, now, active)
    requires RevokeOk(s, grant, now) && RevokeTx(s.db, grant.id, approver, now).Committed?
    requires s' == Goto(s, tid, Unlocking(grant.entity, Success)).(db := RevokeTx(s.db, grant.id, approver, now).db, dirty := s.dirty - {grant.entity})
    ensures OwnStep(s, s', tid, Some(grant.entity)) && HistoryOk(s') && DbInv(s'.db)
  {
    assert OwnStep(s, s', tid, Some(grant.entity)) by {
      RevokeFrames(s.db, grant.id, approver, now);
      TxOwnStep(s, s', tid, grant.entity);
    }
    RevokeHistory(s, s', grant.id, approver, now);
  }

  lemma {:induction false} RecordedPhases(s: Sys, s': Sys, tid: ThreadId, approver: Approver, grant: Grant, now: int, active: seq<Grant>)
    requires LocksOk(s) && LocksOk(s') && tid in s.threads && s.threads[tid] == RevokeWritten(approver, grant, now, active)
    requires tid in s'.threads && s'.threads[tid] == Unlocking(grant.entity, Success)
    ensures EntityPhase(s, grant.entity) == Replaced(Remaining(active, grant.id)) && EntityPhase(s', grant.entity).Settled?
  {
    HolderPhase(s, tid, grant.entity);
    HolderPhase(s', tid, grant.entity);
  }

  lemma {:induction false} RecordedSettles(s: Sys, s': Sys, tid: ThreadId, approver: Approver, grant: Grant, now: int, active: seq<Grant>)
    requires DbInv(s.db) && LocksOk(s) && LocksOk(s') && tid in s.threads && s.threads[tid] == RevokeWritten(approver, grant, now, active)
    requires ThreadOk(s, s.threads[tid]) && EntityOk(s, grant.entity)
    requires RevokeTx(s.db, grant.id, approver, now).Committed?
    requires s' == Goto(s, tid, Unlocking(grant.entity, Success)).(db := RevokeTx(s.db, grant.id, approver, now).db, dirty := s.dirty - {grant.entity})
    ensures EntityOk(s', grant.entity)
    ensures Sync(s'.db, s'.bao, s'.clock, grant.entity)
  {
    RecordedPhases(s, s', tid, approver, grant, now, active);
    RecordedEntityOk(s, s', approver, grant, now, active);
  }

  lemma {:induction false} RecordKeeps(s: Sys, tid: ThreadId, approver: Approver, grant: Grant, now: int, active: seq<Grant>, c: Choice)
    requires Inv(s) && tid in s.threads && s.threads[tid] == RevokeWritten(approver, grant, now, active)
    ensures Inv(RecordStep(s, tid, approver, grant, now, c))
  {
    if c != Fault && RevokeTx(s.db, grant.id, approver, now).Committed? {
      RecordedKeeps(s, RecordStep(s, tid, approver, grant, now, c), tid, approver, grant, now, active);
    } else {
      RestoreEntry(s, tid, grant.entity, Conflict);
      RestoreEntry(s, tid, grant.entity, StoreFailure);
    }
  }

  // -------------------------------------------------------------------- restoring

  lemma {:induction false} RestoreTimeKeeps(s: Sys, tid: ThreadId, e: string, error: Error)
    requires Inv(s) && tid in s.threads && s.threads[tid] == RestoreCall(e, error)
    ensures Inv(Goto(s, tid, RestoreTimed(e, error, s.clock)))
  {
    HeldStep(s, tid, e, RestoreTimed(e, error, s.clock));
  }

  /** A restore that fails marks the entity dirty and changes nothing else. */
  lemma {:induction false} GivenUpOwnStep(s: Sys, tid: ThreadId, e: string, error: Error)
    requires LocksOk(s) && tid in s.threads && Holds(s.threads[tid]) == Some(e)
    ensures OwnStep(s, Fail(s, tid, e, error).(dirty := s.dirty + {e}), tid, Some(e))
  {
    HolderOwnStep(s, Fail(s, tid, e, error).(dirty := s.dirty + {e}), tid, e);
  }

  lemma {:induction false} GiveUpKeeps(s: Sys, tid: ThreadId, e: string, error: Error)
    requires Inv(s) && tid in s.threads && Holds(s.threads[tid]) == Some(e)
    ensures Inv(Fail(s, tid, e, error).(dirty := s.dirty + {e}))
  {
    var s' := Fail(s, tid, e, error).(dirty := s.dirty + {e});
    assert EntityOk(s, e);
    GivenUpOwnStep(s, tid, e, error);
    Compose(s, s', tid, Some(e));
  }

  lemma {:induction false} RelistKeeps(s: Sys, tid: ThreadId, e: string, error: Error, now: int, c: Choice)
    requires Inv(s) && tid in s.threads && s.threads[tid] == RestoreTimed(e, error, now)
    requires c.Listing? ==> Lists(s.db, e, now, c.grants)
    ensures Inv(RelistStep(s, tid, e, error, now, c))
  {
    if c.Listing? {
      assert ThreadOk(s, s.threads[tid]);
      HeldStep(s, tid, e, RestoreListed(e, error, now, c.grants));
    } else {
      GiveUpKeeps(s, tid, e, error);
    }
  }

  lemma {:induction false} RestoredSync(s: Sys, bao: Bao, e: string, now: int, active: seq<Grant>)
    requires DbInv(s.db) && Lists(s.db, e, now, active) && now <= s.clock
    requires PolicyIs(bao, e, active) && bao.entities == s.bao.entities && GrantsImplyAttached(s.db, s.bao, e)
    ensures Sync(s.db, bao, s.clock, e)
  {
    ListedExpiries(s.db, e, now, active);
    ListingAttached(s, e, now, active);
    forall t, path, capability | t >= s.clock
      ensures Access(bao, e, t, path, capability) <==> Entitled(s.db, e, t, path, capability)
    {
      RenderedAccess(bao, e, active, t, path, capability);
      ListingEntitles(s.db, e, now, active, t, path, capability);
    }
  }

  lemma {:induction false} RewriteKeeps(s: Sys, tid: ThreadId, e: string, error: Error, now: int, active: seq<Grant>, c: Choice)
    requires Inv(s) && tid in s.threads && s.threads[tid] == RestoreListed(e, error, now, active)
    ensures Inv(RewriteStep(s, tid, e, error, active, c))
  {
    if WriteSession(s.bao, e, active, s.clock, c).None? {
      GiveUpKeeps(s, tid, e, error);
    } else {
      WriteRenders(s.bao, e, active, s.clock, c);
      RewrittenKeeps(s, tid, e, error, now, active, WriteSession(s.bao, e, active, s.clock, c).value);
    }
  }

  lemma {:induction false} RewrittenKeeps(s: Sys, tid: ThreadId, e: string, error: Error, now: int, active: seq<Grant>, bao: Bao)
    requires Inv(s) && tid in s.threads && s.threads[tid] == RestoreListed(e, error, now, active)
    requires Renders(s.bao, bao, e, active)
    ensures Inv(Wrote(s, tid, Unlocking(e, Failure(error)), bao, s.dirty - {e}))
  {
    ListedFacts(s, tid, e, error, now, active);
    ListedTraced(s, e, now, active);
    RestoredSync(s, bao, e, now, active);
    WriteStep(s, tid, Unlocking(e, Failure(error)), s.dirty - {e}, e, active, bao);
  }

  lemma {:induction false} ListedFacts(s: Sys, tid: ThreadId, e: string, error: Error, now: int, active: seq<Grant>)
    requires Inv(s) && tid in s.threads && s.threads[tid] == RestoreListed(e, error, now, active)
    ensures Lists(s.db, e, now, active) && now <= s.clock && GrantsImplyAttached(s.db, s.bao, e)
  {
    assert ThreadOk(s, s.threads[tid]) && EntityOk(s, e);
  }

  // ------------------------------------------------------------------ environment

  lemma {:induction false} ExpireFrames(db: Db, now: int, clock: int, e: string)
    requires DbInv(db) && now <= clock
    ensures DbGrows(db, ExpireTx(db, now)) && RowsQuiet(db, ExpireTx(db, now), clock, e) && GrantsQuiet(db, ExpireTx(db, now), e)
  {
    var db' := ExpireTx(db, now);
    forall id | id in db.requests
      ensures SameRequest(db'.requests[id].request, db.requests[id].request)
      ensures db'.requests[id] == db.requests[id] || (!db'.requests[id].hasPending && db.requests[id].request.pendingUntil <= clock)
    {
      if Due(db.requests[id], now) {
        assert RowOk(db.grants, id, db.requests[id]);
        StoredComparison(db.requests[id].request.pendingUntil, now);
        ExpiredRowOk(db.grants, id, db.requests[id]);
      }
    }
  }

  /** A step of the environment: no thread moves, no policy and no grant changes. */
  lemma {:induction false} EnvironmentStep(s: Sys, s': Sys)
    requires Inv(s)
    requires s' == s.(db := s'.db, clock := s'.clock, policy := s'.policy)
    requires DbInv(s'.db) && s.clock <= s'.clock
    requires DbGrows(s.db, s'.db) && s'.db.grants == s.db.grants
    requires forall e :: RowsQuiet(s.db, s'.db, s'.clock, e)
    ensures Inv(s')
  {
    forall e ensures Quiet(s, s', e) && EntityOk(s', e) {
      assert RowsQuiet(s.db, s'.db, s'.clock, e);
      assert EntityOk(s, e);
      EntityQuiet(s, s', e);
    }
    forall tid | tid in s'.threads ensures ThreadOk(s', s'.threads[tid]) {
      ThreadQuiet(s, s', s.threads[tid]);
    }
  }

  lemma {:induction false} SweepKeeps(s: Sys, now: int)
    requires Inv(s) && now <= s.clock
    ensures Inv(s.(db := ExpireTx(s.db, now)))
  {
    ExpireKeeps(s.db, now);
    forall e ensures RowsQuiet(s.db, ExpireTx(s.db, now), s.clock, e) && DbGrows(s.db, ExpireTx(s.db, now)) {
      ExpireFrames(s.db, now, s.clock, e);
    }
    ExpireFrames(s.db, now, s.clock, "");
    EnvironmentStep(s, s.(db := ExpireTx(s.db, now)));
  }

  lemma {:induction false} StartKeeps(s: Sys, tid: ThreadId, call: Thread)
    requires Inv(s) && tid !in s.threads && StartsCall(call)
    ensures Inv(Goto(s, tid, call))
  {
    var s' := Goto(s, tid, call);
    forall e ensures EntityOk(s', e) {
      assert EntityOk(s, e);
      assert Quiet(s, s', e);
      EntityQuiet(s, s', e);
    }
    forall other | other in s'.threads ensures ThreadOk(s', s'.threads[other]) {
      if other != tid {
        assert ThreadOk(s, s.threads[other]);
        SameFacts(s, s', s.threads[other]);
      }
    }
  }
}
