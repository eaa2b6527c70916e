// The steps of a decision keep the invariant.
module DecideSafety {
  import opened Decisions
  import opened Integrity
  import opened Invariants
  import opened OpenBao
  import opened Options
  import opened Protocol
  import opened Rules
  import opened Safety
  import opened Store
  import opened Time

  lemma {:induction false} AskKeeps(s: Sys, tid: ThreadId, approver: Approver, requestId: Id, decisions: seq<Decision>, c: Choice)
    requires Inv(s) && tid in s.threads && s.threads[tid] == DecideCall(approver, requestId, decisions)
    ensures Inv(AskStep(s, tid, approver, requestId, decisions, c))
  {
    if decisions == [] {
      EndStep(s, tid, Failure(InvalidInput));
    } else if c == Fault {
      EndStep(s, tid, Failure(StoreFailure));
    } else if requestId !in s.db.requests {
      EndStep(s, tid, Failure(NotFound));
    } else if s.db.requests[requestId].request.entity == approver.entity {
      EndStep(s, tid, Failure(SelfApproval));
    } else {
      FreeStep(s, tid, DecideQueued(approver, requestId, decisions, s.db.requests[requestId].request.entity));
    }
  }

  lemma {:induction false} LoadedSnapshot(db: Db, clock: int, rid: Id)
    requires DbInv(db) && rid in db.requests
    ensures Snapshot(db, clock, db.requests[rid].request)
  {
    var r := db.requests[rid].request;
    assert RowOk(db.grants, rid, db.requests[rid]);
    forall i | 0 <= i < |r.items| && r.items[i].state == Pending ensures r.items[i].ttl >= SECOND {
      assert ItemOk(db.grants, r, r.items[i]);
    }
  }

  lemma {:induction false} AdmitKeeps(s: Sys, tid: ThreadId, approver: Approver, requestId: Id, decisions: seq<Decision>, entity: string)
    requires Inv(s) && tid in s.threads && s.threads[tid] == DecideQueued(approver, requestId, decisions, entity) && entity !in s.locks
    ensures Inv(Acquire(s, tid, entity, DecideLocked(approver, requestId, decisions, entity)))
  {
    assert ThreadOk(s, s.threads[tid]);
    assert RowOk(s.db.grants, requestId, s.db.requests[requestId]);
    Safety.AcquireStep(s, tid, entity, DecideLocked(approver, requestId, decisions, entity));
  }

  lemma {:induction false} LoadKeeps(s: Sys, tid: ThreadId, approver: Approver, requestId: Id, decisions: seq<Decision>, entity: string, c: Choice)
    requires Inv(s) && tid in s.threads && s.threads[tid] == DecideLocked(approver, requestId, decisions, entity)
    ensures Inv(LoadStep(s, tid, approver, requestId, decisions, entity, c))
  {
    if c == Fault || requestId !in s.db.requests {
      FailStep(s, tid, entity, StoreFailure);
    } else {
      assert ThreadOk(s, s.threads[tid]);
      LoadedSnapshot(s.db, s.clock, requestId);
      HeldStep(s, tid, entity, DecideLoaded(approver, decisions, s.db.requests[requestId].request));
    }
  }

  // ------------------------------------------------------------------ judging

  lemma {:induction false} BatchGrantTraced(b: Batch, g: Grant)
    requires g in b.grants
    requires Progress(b.approver, b.now, b.loaded, Tally(b.decided, b.grants, {}))
    ensures GrantTraced(BatchApprovals(b), g) && g.entity == b.loaded.entity
  {
    var i :| 0 <= i < |b.loaded.items| && GrantOrigin(b.loaded, b.approver, b.now, b.loaded.items[i], b.decided.items[i], g);
    assert ItemProgress(b.loaded, b.approver, b.now, b.loaded.items[i], b.decided.items[i], b.grants);
    var item := b.loaded.items[i];
    assert item in ItemsOf(b.loaded) && item.id == g.itemId;
    var a := Approval(b.loaded.entity, b.approver, b.loaded.id, item, b.now, b.loaded.pendingUntil, b.policy, g);
    assert a in BatchApprovals(b);
  }

  lemma {:induction false} BatchEntities(b: Batch)
    requires Progress(b.approver, b.now, b.loaded, Tally(b.decided, b.grants, {}))
    ensures forall g :: g in b.grants ==> g.entity == b.loaded.entity
  {
    forall g | g in b.grants ensures g.entity == b.loaded.entity {
      BatchGrantTraced(b, g);
    }
  }

  lemma {:induction false} JudgedHistory(s: Sys, b: Batch)
    requires HistoryOk(s)
    ensures HistoryOk(s.(approvals := s.approvals + BatchApprovals(b)))
  {
    var s' := s.(approvals := s.approvals + BatchApprovals(b));
    forall id | id in s'.db.grants ensures GrantTraced(s'.approvals, s'.db.grants[id]) {
      assert GrantTraced(s.approvals, s.db.grants[id]);
      GrantTracedGrows(s.approvals, s'.approvals, s.db.grants[id]);
    }
  }

  lemma {:induction false} JudgedBatchOk(s: Sys, s': Sys, b: Batch)
    requires b.approver.entity != b.loaded.entity && Snapshot(s.db, s.clock, b.loaded) && MILLISECOND <= b.now == s.clock && HasPending(b.loaded.items)
    requires Progress(b.approver, b.now, b.loaded, Tally(b.decided, b.grants, {}))
    requires s'.db == s.db && s'.clock == s.clock
    requires b.grants == [] || BatchApprovals(b) <= s'.approvals
    ensures BatchOk(s', b)
  {
    forall g | g in b.grants ensures GrantTraced(s'.approvals, g) {
      BatchGrantTraced(b, g);
      GrantTracedGrows(BatchApprovals(b), s'.approvals, g);
    }
  }

  lemma {:induction false} AfterJudgingKeeps(s: Sys, tid: ThreadId, b: Batch)
    requires Inv(s) && tid in s.threads && s.threads[tid].DecideLoaded? && s.threads[tid].loaded == b.loaded
    requires b.approver.entity != b.loaded.entity && Snapshot(s.db, s.clock, b.loaded) && b.now == s.clock && HasPending(b.loaded.items)
    requires Progress(b.approver, b.now, b.loaded, Tally(b.decided, b.grants, {}))
    ensures Inv(AfterJudging(s, tid, b))
  {
    if b.grants == [] {
      JudgedBatchOk(s, s, b);
      HeldStep(s, tid, b.loaded.entity, DecideReady(b, []));
    } else {
      ApprovedKeeps(s, Goto(s, tid, DecideJudged(b)).(approvals := s.approvals + BatchApprovals(b)), tid, b);
    }
  }

  lemma {:induction false} ApprovedKeeps(s: Sys, s': Sys, tid: ThreadId, b: Batch)
    requires Inv(s) && tid in s.threads && s.threads[tid].DecideLoaded? && s.threads[tid].loaded == b.loaded && b.grants != []
    requires b.approver.entity != b.loaded.entity && Snapshot(s.db, s.clock, b.loaded) && b.now == s.clock && HasPending(b.loaded.items)
    requires Progress(b.approver, b.now, b.loaded, Tally(b.decided, b.grants, {}))
    requires s' == Goto(s, tid, DecideJudged(b)).(approvals := s.approvals + BatchApprovals(b))
    ensures Inv(s')
  {
    assert EntityOk(s, b.loaded.entity);
    JudgedBatchOk(s, s', b);
    JudgedHistory(s, b);
    ApprovedFacts(s, s', tid, b);
    Compose(s, s', tid, Some(b.loaded.entity));
  }

  lemma {:induction false} ApprovedFacts(s: Sys, s': Sys, tid: ThreadId, b: Batch)
    requires LocksOk(s) && tid in s.threads && s.threads[tid].DecideLoaded? && s.threads[tid].loaded == b.loaded
    requires EntityOk(s, b.loaded.entity)
    requires s' == Goto(s, tid, DecideJudged(b)).(approvals := s'.approvals) && s.approvals <= s'.approvals
    ensures OwnStep(s, s', tid, Some(b.loaded.entity)) && EntityOk(s', b.loaded.entity)
  {
    JudgedOwnStep(s, s', tid, b);
    HolderPhase(s, tid, b.loaded.entity);
    HolderPhase(s', tid, b.loaded.entity);
    SettledStays(s, s', b.loaded.entity);
  }

  lemma {:induction false} JudgedOwnStep(s: Sys, s': Sys, tid: ThreadId, b: Batch)
    requires LocksOk(s) && tid in s.threads && Holds(s.threads[tid]) == Some(b.loaded.entity)
    requires s' == Goto(s, tid, DecideJudged(b)).(approvals := s'.approvals) && s.approvals <= s'.approvals
    ensures OwnStep(s, s', tid, Some(b.loaded.entity))
  {
    HolderOwnStep(s, s', tid, b.loaded.entity);
  }

  // The touched entity is as it was: only history grew.
  lemma {:induction false} SettledStays(s: Sys, s': Sys, e: string)
    requires EntityOk(s, e) && EntityPhase(s, e).Settled? && EntityPhase(s', e).Settled?
    requires s'.db == s.db && s'.bao == s.bao && s'.clock == s.clock && s'.dirty == s.dirty && s.approvals <= s'.approvals
    ensures EntityOk(s', e)
  {
    EntityQuiet(s, s', e);
  }

  lemma {:induction false} JudgeKeeps(s: Sys, tid: ThreadId, approver: Approver, decisions: seq<Decision>, loaded: Request, c: Choice)
    requires Inv(s) && ValidPolicy(s.policy) && tid in s.threads && s.threads[tid] == DecideLoaded(approver, decisions, loaded)
    ensures Inv(JudgeStep(s, tid, approver, decisions, loaded, c))
  {
    assert ThreadOk(s, s.threads[tid]);
    if !c.Ids? || |c.ids| != |decisions| {
      FailStep(s, tid, loaded.entity, StoreFailure);
    } else {
      match Judge(s.policy, approver, s.clock, c.ids, decisions, loaded)
      case Failed(error) => FailStep(s, tid, loaded.entity, error);
      case Decided(t) =>
        JudgeProgress(s.policy, approver, s.clock, c.ids, decisions, loaded);
        ProgressIgnoresSeen(approver, s.clock, loaded, t);
        AfterJudgingKeeps(s, tid, Batch(s.policy, approver, loaded, t.request, t.grants, s.clock));
    }
  }

  lemma {:induction false} ProgressIgnoresSeen(approver: Approver, now: int, orig: Request, t: Tally)
    requires Progress(approver, now, orig, t)
    ensures Progress(approver, now, orig, Tally(t.request, t.grants, {}))
  {
    var u := Tally(t.request, t.grants, {});
    forall i | 0 <= i < |orig.items| ensures ItemProgress(orig, approver, now, orig.items[i], u.request.items[i], u.grants) {
      assert ItemProgress(orig, approver, now, orig.items[i], t.request.items[i], t.grants);
    }
    forall g | g in u.grants
      ensures exists i :: 0 <= i < |orig.items| && GrantOrigin(orig, approver, now, orig.items[i], u.request.items[i], g)
    {
      var i :| 0 <= i < |orig.items| && GrantOrigin(orig, approver, now, orig.items[i], t.request.items[i], g);
      assert GrantOrigin(orig, approver, now, orig.items[i], u.request.items[i], g);
    }
  }

  lemma {:induction false} ListKeeps(s: Sys, tid: ThreadId, b: Batch, c: Choice)
    requires Inv(s) && tid in s.threads && s.threads[tid] == DecideJudged(b)
    requires c.Listing? ==> Lists(s.db, b.loaded.entity, b.now, c.grants)
    ensures Inv(ListStep(s, tid, b, c))
  {
    if c.Listing? {
      assert ThreadOk(s, s.threads[tid]);
      HeldStep(s, tid, b.loaded.entity, DecideListed(b, c.grants));
    } else {
      FailStep(s, tid, b.loaded.entity, StoreFailure);
    }
  }

  // ------------------------------------------------------------------ writing

  lemma {:induction false} BatchFacts(s: Sys, s': Sys, b: Batch)
    requires BatchOk(s, b) && s'.db == s.db && s'.clock == s.clock && s'.approvals == s.approvals
    ensures BatchOk(s', b)
  {
  }

  lemma {:induction false} WriteBatchKeeps(s: Sys, tid: ThreadId, b: Batch, active: seq<Grant>, c: Choice)
    requires Inv(s) && tid in s.threads && s.threads[tid] == DecideListed(b, active)
    ensures Inv(WriteBatchStep(s, tid, b, active, c))
  {
    var e, gs := b.loaded.entity, active + b.grants;
    assert ThreadOk(s, s.threads[tid]);
    if WriteSession(s.bao, e, gs, s.clock, c).None? {
      FailStep(s, tid, e, BaoFailure);
    } else {
      ListedTraced(s, e, b.now, active);
      BatchEntities(b);
      WriteRenders(s.bao, e, gs, s.clock, c);
      WriteStep(s, tid, DecideWritten(b, active), s.dirty, e, gs, WriteSession(s.bao, e, gs, s.clock, c).value);
    }
  }

  lemma {:induction false} ReadEntityKeeps(s: Sys, tid: ThreadId, b: Batch, active: seq<Grant>, c: Choice)
    requires Inv(s) && tid in s.threads && s.threads[tid] == DecideWritten(b, active)
    ensures Inv(ReadEntityStep(s, tid, b, active, c))
  {
    var e := b.loaded.entity;
    if c == Fault || e !in s.bao.entities {
      RestoreEntry(s, tid, e, BaoFailure);
    } else {
      assert ThreadOk(s, s.threads[tid]);
      ReadKeeps(s, tid, b, active);
    }
  }

  lemma {:induction false} ReadKeeps(s: Sys, tid: ThreadId, b: Batch, active: seq<Grant>)
    requires Inv(s) && tid in s.threads && s.threads[tid] == DecideWritten(b, active) && ThreadOk(s, DecideWritten(b, active))
    requires b.loaded.entity in s.bao.entities
    ensures PolicyName(b.loaded.entity) in s.bao.entities[b.loaded.entity] ==> Inv(Goto(s, tid, DecideReady(b, active)))
    ensures PolicyName(b.loaded.entity) !in s.bao.entities[b.loaded.entity] ==>
              Inv(Goto(s, tid, DecideEntityRead(b, active, s.bao.entities[b.loaded.entity])))
  {
    var e := b.loaded.entity;
    if PolicyName(e) in s.bao.entities[e] {
      HeldStep(s, tid, e, DecideReady(b, active));
    } else {
      HeldStep(s, tid, e, DecideEntityRead(b, active, s.bao.entities[e]));
    }
  }

  lemma {:induction false} AttachKeeps(s: Sys, tid: ThreadId, b: Batch, active: seq<Grant>, names: seq<string>, c: Choice)
    requires Inv(s) && tid in s.threads && s.threads[tid] == DecideEntityRead(b, active, names)
    ensures Inv(AttachStep(s, tid, b, active, names, c))
  {
    if c == Fault || b.loaded.entity !in s.bao.entities {
      RestoreEntry(s, tid, b.loaded.entity, BaoFailure);
    } else {
      AttachedKeeps(s, AttachStep(s, tid, b, active, names, c), tid, b, active, names);
    }
  }

  lemma {:induction false} AttachedKeeps(s: Sys, s': Sys, tid: ThreadId, b: Batch, active: seq<Grant>, names: seq<string>)
    requires Inv(s) && tid in s.threads && s.threads[tid] == DecideEntityRead(b, active, names)
    requires s' == Goto(s, tid, DecideReady(b, active)).(bao := WithEntityPolicies(s.bao, b.loaded.entity, names + [PolicyName(b.loaded.entity)]))
    ensures Inv(s')
  {
    assert ThreadOk(s, s.threads[tid]) && EntityOk(s, b.loaded.entity);
    HolderPhase(s, tid, b.loaded.entity);
    AttachedFacts(s, s', tid, b, active, names);
    Compose(s, s', tid, Some(b.loaded.entity));
  }

  lemma {:induction false} AttachedFacts(s: Sys, s': Sys, tid: ThreadId, b: Batch, active: seq<Grant>, names: seq<string>)
    requires LocksOk(s) && tid in s.threads && s.threads[tid] == DecideEntityRead(b, active, names)
    requires ThreadOk(s, s.threads[tid]) && EntityOk(s, b.loaded.entity)
    requires EntityPhase(s, b.loaded.entity) == Replaced(active + b.grants)
    requires s' == Goto(s, tid, DecideReady(b, active)).(bao := WithEntityPolicies(s.bao, b.loaded.entity, names + [PolicyName(b.loaded.entity)]))
    ensures OwnStep(s, s', tid, Some(b.loaded.entity))
    ensures ThreadOk(s', s'.threads[tid]) && EntityOk(s', b.loaded.entity)
  {
    AttachedThread(s, s', b, active, names);
    AttachedOwnStep(s, s', tid, b.loaded.entity);
    HolderPhase(s', tid, b.loaded.entity);
  }

  lemma {:induction false} AttachedThread(s: Sys, s': Sys, b: Batch, active: seq<Grant>, names: seq<string>)
    requires ThreadOk(s, DecideEntityRead(b, active, names))
    requires s'.db == s.db && s'.clock == s.clock && s'.approvals == s.approvals
    requires s'.bao == WithEntityPolicies(s.bao, b.loaded.entity, names + [PolicyName(b.loaded.entity)])
    ensures ThreadOk(s', DecideReady(b, active))
  {
    BatchFacts(s, s', b);
    assert s'.bao.entities[b.loaded.entity][|names|] == PolicyName(b.loaded.entity);
  }

  lemma {:induction false} AttachedOwnStep(s: Sys, s': Sys, tid: ThreadId, e: string)
    requires LocksOk(s) && tid in s.threads && tid in s'.threads && Holds(s.threads[tid]) == Some(e) == Holds(s'.threads[tid])
    requires s' == Goto(s, tid, s'.threads[tid]).(bao := s'.bao)
    requires forall x: string {:trigger BaoQuiet(s.bao, s'.bao, x)} :: x != e ==> BaoQuiet(s.bao, s'.bao, x)
    ensures OwnStep(s, s', tid, Some(e))
  {
    HolderOwnStep(s, s', tid, e);
  }

  // ------------------------------------------------------------------- commit

  lemma {:induction false} DecideGrows(db: Db, clock: int, b: Batch)
    requires DbInv(db) && Snapshot(db, clock, b.loaded)
    requires Progress(b.approver, b.now, b.loaded, Tally(b.decided, b.grants, {}))
    requires DecideTx(db, b.decided, b.grants).Committed?
    ensures db.requests[b.loaded.id].request == b.loaded
    ensures DbGrows(db, DecideTx(db, b.decided, b.grants).db)
  {
    InsertGrantsExact(db.grants, b.grants);
    forall i | 0 <= i < |b.loaded.items| ensures b.decided.items[i].id == b.loaded.items[i].id {
      assert ItemProgress(b.loaded, b.approver, b.now, b.loaded.items[i], b.decided.items[i], b.grants);
    }
    SameIds(b.loaded, b.decided);
  }

  lemma {:induction false} DecideQuiet(db: Db, clock: int, b: Batch, x: string)
    requires Snapshot(db, clock, b.loaded) && b.decided.id == b.loaded.id && x != b.loaded.entity
    requires forall g :: g in b.grants ==> g.entity == b.loaded.entity
    requires DecideTx(db, b.decided, b.grants).Committed?
    ensures RowsKept(db, DecideTx(db, b.decided, b.grants).db, x)
    ensures GrantsQuiet(db, DecideTx(db, b.decided, b.grants).db, x)
  {
    InsertGrantsExact(db.grants, b.grants);
  }

  lemma {:induction false} DecideHistory(s: Sys, s': Sys, b: Batch)
    requires HistoryOk(s) && s'.approvals == s.approvals && DbGrows(s.db, s'.db)
    requires DecideTx(s.db, b.decided, b.grants).Committed? && s'.db == DecideTx(s.db, b.decided, b.grants).db
    requires forall g :: g in b.grants ==> GrantTraced(s.approvals, g) && NewGrant(g, b.loaded.entity)
    ensures HistoryOk(s')
  {
    InsertGrantsExact(s.db.grants, b.grants);
    forall id | id in s'.db.grants && id !in s.db.grants ensures GrantTraced(s.approvals, s'.db.grants[id]) {
      var g :| g in b.grants && g.id == id && s'.db.grants[id] == StoredGrant(g);
      var a :| a in s.approvals && a.entity == g.entity && SameGrant(a.grant, g);
      assert SameGrant(a.grant, StoredGrant(g));
    }
    HistoryGrows(s, s');
  }

  predicate NewGrant(g: Grant, entity: string) {
    g.entity == entity && StoredTime(g.expiresAt) == g.expiresAt && g.expiresAt > 0 && WholeSeconds(g.expiresAt) == g.expiresAt && g.revokedAt == 0
  }

  lemma {:induction false} BatchGrants(b: Batch)
    requires Progress(b.approver, b.now, b.loaded, Tally(b.decided, b.grants, {})) && b.now >= 0
    ensures forall g :: g in b.grants ==> NewGrant(g, b.loaded.entity)
  {
    forall g | g in b.grants ensures NewGrant(g, b.loaded.entity) {
      var i :| 0 <= i < |b.loaded.items| && GrantOrigin(b.loaded, b.approver, b.now, b.loaded.items[i], b.decided.items[i], g);
      WholeSecondsAreStored(g.expiresAt);
    }
  }

  /** After a commit the stored grants in force are those listed before it plus the batch's. */
  lemma {:induction false} CommitEntitles(db: Db, b: Batch, active: seq<Grant>, t: int, path: string, capability: string)
    requires DbInv(db) && Lists(db, b.loaded.entity, b.now, active) && b.now <= t
    requires DecideTx(db, b.decided, b.grants).Committed?
    requires forall g :: g in b.grants ==> NewGrant(g, b.loaded.entity)
    ensures InForce(active + b.grants, t, path, capability) <==>
            Entitled(DecideTx(db, b.decided, b.grants).db, b.loaded.entity, t, path, capability)
  {
    var db', e := DecideTx(db, b.decided, b.grants).db, b.loaded.entity;
    InsertGrantsExact(db.grants, b.grants);
    ListingEntitles(db, e, b.now, active, t, path, capability);
    if InForce(active + b.grants, t, path, capability) {
      var g :| g in active + b.grants && g.path == path && t < g.expiresAt && capability in g.capabilities;
      if g in active {
        assert InForce(active, t, path, capability);
        var id :| id in db.grants && GrantGives(db.grants[id], e, t, path, capability);
        assert GrantGives(db'.grants[id], e, t, path, capability);
      } else {
        assert GrantGives(db'.grants[g.id], e, t, path, capability);
      }
    }
    if Entitled(db', e, t, path, capability) {
      var id :| id in db'.grants && GrantGives(db'.grants[id], e, t, path, capability);
      if id in db.grants {
        assert GrantGives(db.grants[id], e, t, path, capability);
        assert InForce(active, t, path, capability);
        var g :| g in active && g.path == path && t < g.expiresAt && capability in g.capabilities;
        assert g in active + b.grants;
      } else {
        var g :| g in b.grants && g.id == id && db'.grants[id] == StoredGrant(g);
        assert g in active + b.grants;
      }
    }
  }

  lemma {:induction false} CommitSync(s: Sys, b: Batch, active: seq<Grant>)
    requires DbInv(s.db) && BatchOk(s, b) && b.grants != []
    requires Lists(s.db, b.loaded.entity, b.now, active) && Attached(s.bao, b.loaded.entity)
    requires PolicyIs(s.bao, b.loaded.entity, active + b.grants)
    requires DecideTx(s.db, b.decided, b.grants).Committed?
    ensures Sync(DecideTx(s.db, b.decided, b.grants).db, s.bao, s.clock, b.loaded.entity)
  {
    var db', e, gs := DecideTx(s.db, b.decided, b.grants).db, b.loaded.entity, active + b.grants;
    BatchGrants(b);
    ListedExpiries(s.db, e, b.now, active);
    forall t, path, capability | t >= s.clock
      ensures Access(s.bao, e, t, path, capability) <==> Entitled(db', e, t, path, capability)
    {
      RenderedAccess(s.bao, e, gs, t, path, capability);
      CommitEntitles(s.db, b, active, t, path, capability);
    }
  }

  lemma {:induction false} CommittedEntityOk(s: Sys, s': Sys, tid: ThreadId, b: Batch, active: seq<Grant>)
    requires DbInv(s.db) && ThreadOk(s, DecideReady(b, active)) && EntityOk(s, b.loaded.entity)
    requires EntityPhase(s, b.loaded.entity) == PhaseOf(DecideReady(b, active))
    requires DecideTx(s.db, b.decided, b.grants).Committed?
    requires s' == Committing(s, tid, b, DecideTx(s.db, b.decided, b.grants).db)
    requires EntityPhase(s', b.loaded.entity).Settled?
    ensures EntityOk(s', b.loaded.entity)
    ensures b.grants != [] ==> Sync(s'.db, s'.bao, s'.clock, b.loaded.entity)
  {
    var e := b.loaded.entity;
    if b.grants == [] {
      assert s'.db.grants == s.db.grants;
      if e !in s.dirty {
        SyncQuiet(s, s', e);
      }
    } else {
      CommitSync(s, b, active);
    }
  }

  lemma {:induction false} CommittedFrames(db: Db, clock: int, b: Batch)
    requires DbInv(db) && Snapshot(db, clock, b.loaded)
    requires Progress(b.approver, b.now, b.loaded, Tally(b.decided, b.grants, {}))
    requires DecideTx(db, b.decided, b.grants).Committed?
    ensures DbGrows(db, DecideTx(db, b.decided, b.grants).db)
    ensures forall x :: x != b.loaded.entity ==>
              RowsKept(db, DecideTx(db, b.decided, b.grants).db, x) && GrantsQuiet(db, DecideTx(db, b.decided, b.grants).db, x)
  {
    DecideGrows(db, clock, b);
    BatchEntities(b);
    forall x | x != b.loaded.entity
      ensures RowsKept(db, DecideTx(db, b.decided, b.grants).db, x) && GrantsQuiet(db, DecideTx(db, b.decided, b.grants).db, x)
    {
      DecideQuiet(db, clock, b, x);
    }
  }

  lemma {:induction false} CommitKeeps(s: Sys, s': Sys, tid: ThreadId, b: Batch, active: seq<Grant>)
    requires Inv(s) && tid in s.threads && s.threads[tid] == DecideReady(b, active)
    requires DecideTx(s.db, b.decided, b.grants).Committed?
    requires s' == Committing(s, tid, b, DecideTx(s.db, b.decided, b.grants).db)
    ensures Inv(s')
    ensures b.grants != [] ==> Sync(s'.db, s'.bao, s'.clock, b.loaded.entity)
  {
    assert ThreadOk(s, s.threads[tid]) && EntityOk(s, b.loaded.entity);
    CommitFacts(s, s', tid, b, active);
    CommitSettles(s, s', tid, b, active);
    Compose(s, s', tid, Some(b.loaded.entity));
  }

  lemma {:induction false} CommitFacts(s: Sys, s': Sys, tid: ThreadId, b: Batch, active: seq<Grant>)
    requires DbInv(s.db) && LocksOk(s) && HistoryOk(s) && tid in s.threads && s.threads[tid] == DecideReady(b, active)
    requires BatchOk(s, b)
    requires DecideTx(s.db, b.decided, b.grants).Committed?
    requires s' == Committing(s, tid, b, DecideTx(s.db, b.decided, b.grants).db)
    ensures OwnStep(s, s', tid, Some(b.loaded.entity)) && HistoryOk(s') && DbInv(s'.db)
  {
    assert OwnStep(s, s', tid, Some(b.loaded.entity)) by {
      CommittedFrames(s.db, s.clock, b);
      CommittedOwnStep(s, s', tid, b, active);
    }
    CommittedHistory(s, s', b);
  }

  lemma {:induction false} CommitSettles(s: Sys, s': Sys, tid: ThreadId, b: Batch, active: seq<Grant>)
    requires DbInv(s.db) && LocksOk(s) && LocksOk(s') && tid in s.threads && s.threads[tid] == DecideReady(b, active)
    requires ThreadOk(s, s.threads[tid]) && EntityOk(s, b.loaded.entity)
    requires DecideTx(s.db, b.decided, b.grants).Committed?
    requires s' == Committing(s, tid, b, DecideTx(s.db, b.decided, b.grants).db)
    ensures EntityOk(s', b.loaded.entity)
    ensures b.grants != [] ==> Sync(s'.db, s'.bao, s'.clock, b.loaded.entity)
  {
    HolderPhase(s, tid, b.loaded.entity);
    HolderPhase(s', tid, b.loaded.entity);
    CommittedEntityOk(s, s', tid, b, active);
  }

  lemma {:induction false} CommittedOwnStep(s: Sys, s': Sys, tid: ThreadId, b: Batch, active: seq<Grant>)
    requires LocksOk(s) && tid in s.threads && s.threads[tid] == DecideReady(b, active)
    requires s' == Committing(s, tid, b, s'.db)
    requires DbGrows(s.db, s'.db)
    requires forall x :: x != b.loaded.entity ==> RowsKept(s.db, s'.db, x) && GrantsQuiet(s.db, s'.db, x)
    ensures OwnStep(s, s', tid, Some(b.loaded.entity))
  {
    assert s'.dirty == s.dirty || s'.dirty == s.dirty - {b.loaded.entity};
    TxOwnStep(s, s', tid, b.loaded.entity);
  }

  lemma {:induction false} CommittedHistory(s: Sys, s': Sys, b: Batch)
    requires DbInv(s.db) && HistoryOk(s) && BatchOk(s, b) && DecideTx(s.db, b.decided, b.grants).Committed?
    requires s'.db == DecideTx(s.db, b.decided, b.grants).db && s'.approvals == s.approvals
    ensures HistoryOk(s') && DbInv(s'.db)
  {
    BatchGrants(b);
    DecideGrows(s.db, s.clock, b);
    DecideKeeps(s.db, b.approver, b.now, b.loaded, Tally(b.decided, b.grants, {}));
    DecideHistory(s, s', b);
  }

  lemma {:induction false} FailedCommitKeeps(s: Sys, tid: ThreadId, b: Batch, active: seq<Grant>, error: Error)
    requires Inv(s) && tid in s.threads && s.threads[tid] == DecideReady(b, active)
    ensures Inv(AfterFailedCommit(s, tid, b, error))
  {
    if b.grants == [] {
      FailStep(s, tid, b.loaded.entity, error);
    } else {
      RestoreEntry(s, tid, b.loaded.entity, error);
    }
  }

  lemma {:induction false} ReadyKeeps(s: Sys, tid: ThreadId, b: Batch, active: seq<Grant>, c: Choice)
    requires Inv(s) && tid in s.threads && s.threads[tid] == DecideReady(b, active)
    ensures Inv(CommitStep(s, tid, b, c))
  {
    if c != Fault && DecideTx(s.db, b.decided, b.grants).Committed? {
      CommitKeeps(s, CommitStep(s, tid, b, c), tid, b, active);
    } else {
      FailedCommitKeeps(s, tid, b, active, Conflict);
      FailedCommitKeeps(s, tid, b, active, StoreFailure);
    }
  }
}
