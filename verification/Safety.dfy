// Every step keeps the invariant.
module Safety {
  import opened Decisions
  import opened Integrity
  import opened Invariants
  import opened OpenBao
  import opened Options
  import opened Protocol
  import opened Rules
  import opened Store
  import opened Time
  import Filing

  // ----------------------------------------------------------- shapes of steps

  lemma {:induction false} PhaseQuiet(s: Sys, s': Sys, tid: ThreadId, e: string)
    requires LocksOk(s) && tid in s.threads && tid in s'.threads && s'.threads == s.threads[tid := s'.threads[tid]]
    requires Holds(s.threads[tid]) != Some(e)
    requires e in s.locks <==> e in s'.locks
    requires e in s.locks ==> s'.locks[e] == s.locks[e]
    ensures EntityPhase(s', e) == EntityPhase(s, e)
  {
  }

  /** A step of the lock holder that leaves the store alone, and all of OpenBao but the entity's own part. */
  lemma {:induction false} HolderOwnStep(s: Sys, s': Sys, tid: ThreadId, e: string)
    requires LocksOk(s) && tid in s.threads && tid in s'.threads && Holds(s.threads[tid]) == Some(e) == Holds(s'.threads[tid])
    requires s'.threads == s.threads[tid := s'.threads[tid]] && s'.locks == s.locks && s'.policy == s.policy && s'.clock == s.clock
    requires s'.db == s.db && s.approvals <= s'.approvals
    requires forall x: string {:trigger BaoQuiet(s.bao, s'.bao, x)} :: x != e ==> BaoQuiet(s.bao, s'.bao, x)
    requires s'.dirty == s.dirty || s'.dirty == s.dirty + {e} || s'.dirty == s.dirty - {e}
    ensures OwnStep(s, s', tid, Some(e))
  {
    forall x | Some(x) != Some(e) ensures Quiet(s, s', x) {
      assert BaoQuiet(s.bao, s'.bao, x);
      PhaseQuiet(s, s', tid, x);
    }
  }

  // The lock holder's position is the entity's phase.
  lemma {:induction false} HolderPhase(s: Sys, tid: ThreadId, e: string)
    requires LocksOk(s) && tid in s.threads && Holds(s.threads[tid]) == Some(e)
    ensures EntityPhase(s, e) == PhaseOf(s.threads[tid])
  {
  }

  /** Only the thread itself moves, and keeps the lock it holds. */
  lemma {:induction false} LocalStep(s: Sys, s': Sys, tid: ThreadId)
    requires Inv(s) && tid in s.threads && tid in s'.threads
    requires s' == Goto(s, tid, s'.threads[tid])
    requires Holds(s'.threads[tid]) == Holds(s.threads[tid])
    requires ThreadOk(s', s'.threads[tid])
    requires Holds(s.threads[tid]).Some? ==> PhaseOk(s', Holds(s.threads[tid]).value)
    ensures Inv(s')
  {
    var touched := Holds(s.threads[tid]);
    forall e | Some(e) != touched ensures Quiet(s, s', e) {
      PhaseQuiet(s, s', tid, e);
    }
    if touched.Some? {
      assert EntityOk(s, touched.value);
    }
    Compose(s, s', tid, touched);
  }

  // The facts of a thread and of an entity do not mention locks or other threads.
  lemma {:induction false} SameFacts(s: Sys, s': Sys, th: Thread)
    requires s'.db == s.db && s'.bao == s.bao && s'.clock == s.clock && s'.approvals == s.approvals
    ensures ThreadOk(s', th) <==> ThreadOk(s, th)
  {
  }

  /** A step that only takes or releases the lock of e, in a settled phase on both sides. */
  lemma {:induction false} LockStep(s: Sys, s': Sys, tid: ThreadId, e: string)
    requires Inv(s) && tid in s.threads && tid in s'.threads && LocksOk(s')
    requires s' == Goto(s, tid, s'.threads[tid]).(locks := s'.locks)
    requires forall x :: x != e ==> (x in s'.locks <==> x in s.locks) && (x in s.locks ==> s'.locks[x] == s.locks[x])
    requires Holds(s.threads[tid]).Some? ==> Holds(s.threads[tid]) == Some(e)
    requires Holds(s'.threads[tid]).Some? ==> Holds(s'.threads[tid]) == Some(e)
    requires Holds(s.threads[tid]) == Some(e) || Holds(s'.threads[tid]) == Some(e)
    requires EntityPhase(s, e).Settled? && EntityPhase(s', e).Settled?
    requires ThreadOk(s, s'.threads[tid])
    ensures Inv(s')
  {
    forall x | Some(x) != Some(e) ensures Quiet(s, s', x) {
      PhaseQuiet(s, s', tid, x);
    }
    assert EntityOk(s, e);
    SameFacts(s, s', s'.threads[tid]);
    Compose(s, s', tid, Some(e));
  }

  /** A thread that holds nothing takes a free lock. */
  lemma {:induction false} AcquireStep(s: Sys, tid: ThreadId, e: string, th: Thread)
    requires Inv(s) && tid in s.threads && Holds(s.threads[tid]).None? && e !in s.locks && e != ""
    requires Holds(th) == Some(e) && PhaseOf(th).Settled? && ThreadOk(s, th)
    ensures Inv(Acquire(s, tid, e, th))
  {
    AcquireLocks(s, tid, e, th);
    LockStep(s, Acquire(s, tid, e, th), tid, e);
  }

  lemma {:induction false} AcquireLocks(s: Sys, tid: ThreadId, e: string, th: Thread)
    requires LocksOk(s) && tid in s.threads && Holds(s.threads[tid]).None? && e !in s.locks && e != "" && Holds(th) == Some(e)
    ensures LocksOk(Acquire(s, tid, e, th))
  {
  }

  /** The lock is released once the policy has settled. */
  lemma {:induction false} ReleaseStep(s: Sys, tid: ThreadId, e: string, outcome: Outcome)
    requires Inv(s) && tid in s.threads && s.threads[tid] == Unlocking(e, outcome)
    ensures Inv(Release(s, tid, e, outcome))
  {
    ReleaseLocks(s, tid, e, outcome);
    LockStep(s, Release(s, tid, e, outcome), tid, e);
  }

  lemma {:induction false} ReleaseLocks(s: Sys, tid: ThreadId, e: string, outcome: Outcome)
    requires LocksOk(s) && tid in s.threads && Holds(s.threads[tid]) == Some(e)
    ensures LocksOk(Release(s, tid, e, outcome))
  {
  }

  /** A failure before the policy was replaced: nothing changed but the thread. */
  lemma {:induction false} FailStep(s: Sys, tid: ThreadId, e: string, error: Error)
    requires Inv(s) && tid in s.threads && Holds(s.threads[tid]) == Some(e) && PhaseOf(s.threads[tid]).Settled?
    ensures Inv(Fail(s, tid, e, error))
  {
    assert EntityOk(s, e);
    HeldStep(s, tid, e, Unlocking(e, Failure(error)));
  }

  /** A call that ends without having taken a lock. */
  lemma {:induction false} EndStep(s: Sys, tid: ThreadId, outcome: Outcome)
    requires Inv(s) && tid in s.threads && Holds(s.threads[tid]).None?
    ensures Inv(Goto(s, tid, Done(outcome)))
  {
    LocalStep(s, Goto(s, tid, Done(outcome)), tid);
  }

  /** A thread that holds nothing moves on, holding nothing. */
  lemma {:induction false} FreeStep(s: Sys, tid: ThreadId, th: Thread)
    requires Inv(s) && tid in s.threads && Holds(s.threads[tid]).None? && Holds(th).None? && ThreadOk(s, th)
    ensures Inv(Goto(s, tid, th))
  {
    SameFacts(s, Goto(s, tid, th), th);
    LocalStep(s, Goto(s, tid, th), tid);
  }

  /** The lock holder moves on, in a phase its entity satisfies. */
  lemma {:induction false} HeldStep(s: Sys, tid: ThreadId, e: string, th: Thread)
    requires Inv(s) && tid in s.threads && Holds(s.threads[tid]) == Some(e) == Holds(th) && ThreadOk(s, th)
    requires PhaseOf(th) == PhaseOf(s.threads[tid]) || PhaseOf(th).Unknown?
    ensures Inv(Goto(s, tid, th))
  {
    SameFacts(s, Goto(s, tid, th), th);
    SamePhase(s, tid, e, th);
    LocalStep(s, Goto(s, tid, th), tid);
  }

  lemma {:induction false} SamePhase(s: Sys, tid: ThreadId, e: string, th: Thread)
    requires LocksOk(s) && EntityOk(s, e) && tid in s.threads && Holds(s.threads[tid]) == Some(e) == Holds(th)
    requires PhaseOf(th) == PhaseOf(s.threads[tid]) || PhaseOf(th).Unknown?
    ensures PhaseOk(Goto(s, tid, th), e)
  {
  }

  /** Turning to restore the policy, from any position. */
  lemma {:induction false} RestoreEntry(s: Sys, tid: ThreadId, e: string, error: Error)
    requires Inv(s) && tid in s.threads && Holds(s.threads[tid]) == Some(e)
    ensures Inv(Goto(s, tid, RestoreCall(e, error)))
  {
    assert EntityOk(s, e);
    HeldStep(s, tid, e, RestoreCall(e, error));
  }

  // -------------------------------------------------------------------- filing

  lemma {:induction false} FiledItemsFresh(p: Policy, inputs: seq<ItemInput>, ids: seq<Id>, r: Request)
    requires ValidPolicy(p) && |ids| == |inputs| && r.entity != "" && r.items == Filing.FiledItems(p, inputs, ids)
    ensures FreshlyFiled(r)
  {
    forall i | 0 <= i < |r.items|
      ensures r.items[i].state == Pending || r.items[i].state == Store.Refused
      ensures r.items[i].state == Pending ==> r.items[i].ttl >= SECOND && NormalCapabilities(r.items[i].capabilities)
    {
      Filing.FiledExact(p, inputs, ids, i);
      if r.items[i].state == Pending {
        AcceptedLifetime(p, inputs[i]);
      }
    }
  }

  lemma {:induction false} MarkedItemsFresh(s: Sys, r: Request)
    requires FreshlyFiled(r)
    ensures FreshlyFiled(r.(items := Filing.MarkedItems(s.bao, r.entity, s.clock, r.items)))
  {
  }

  lemma {:induction false} FileFrames(db: Db, r: Request, e: string)
    requires FileTx(db, r).Committed?
    ensures DbGrows(db, FileTx(db, r).db)
    ensures RowsKept(db, FileTx(db, r).db, e) && GrantsQuiet(db, FileTx(db, r).db, e)
  {
  }

  lemma {:induction false} FileCommit(s: Sys, s': Sys, tid: ThreadId, r: Request)
    requires Inv(s) && tid in s.threads && Holds(s.threads[tid]).None?
    requires FreshlyFiled(r) && FreshItems(s.db, r) && FileTx(s.db, r).Committed?
    requires s' == Goto(s, tid, Done(Success)).(db := FileTx(s.db, r).db)
    ensures Inv(s')
  {
    FileKeeps(s.db, r);
    FileFrames(s.db, r, "");
    forall e ensures Quiet(s, s', e) {
      PhaseQuiet(s, s', tid, e);
      FileFrames(s.db, r, e);
    }
    HistoryGrows(s, s');
    Compose(s, s', tid, None);
  }

  lemma {:induction false} ResolveKeeps(s: Sys, tid: ThreadId, entity: string, inputs: seq<ItemInput>, pendingTTL: int, c: Choice)
    requires Inv(s) && ValidPolicy(s.policy) && tid in s.threads && s.threads[tid] == FileCall(entity, inputs, pendingTTL)
    ensures Inv(ResolveStep(s, tid, entity, inputs, pendingTTL, c))
  {
    var th := ResolveStep(s, tid, entity, inputs, pendingTTL, c).threads[tid];
    if th.Done? {
      EndStep(s, tid, th.outcome);
    } else {
      assert ThreadOk(s, s.threads[tid]);
      ResolvedKeeps(s, tid, th.filing, inputs, c.ids[1..]);
    }
  }

  lemma {:induction false} ResolvedKeeps(s: Sys, tid: ThreadId, filed: Request, inputs: seq<ItemInput>, ids: seq<Id>)
    requires Inv(s) && ValidPolicy(s.policy) && tid in s.threads && Holds(s.threads[tid]).None?
    requires |ids| == |inputs| && filed.entity != "" && filed.items == Filing.FiledItems(s.policy, inputs, ids)
    ensures Inv(Goto(s, tid, FileResolved(filed)))
  {
    FiledItemsFresh(s.policy, inputs, ids, filed);
    FreeStep(s, tid, FileResolved(filed));
  }

  lemma {:induction false} CheckKeeps(s: Sys, tid: ThreadId, filing: Request, c: Choice)
    requires Inv(s) && tid in s.threads && s.threads[tid] == FileResolved(filing)
    ensures Inv(CheckStep(s, tid, filing, c))
  {
    assert ThreadOk(s, s.threads[tid]);
    MarkedItemsFresh(s, filing);
    if c == Fault || !HasPending(filing.items) {
      FreeStep(s, tid, FileChecked(filing));
    } else {
      FreeStep(s, tid, FileChecked(filing.(items := Filing.MarkedItems(s.bao, filing.entity, s.clock, filing.items))));
    }
  }

  lemma {:induction false} InsertKeeps(s: Sys, tid: ThreadId, filing: Request, c: Choice)
    requires Inv(s) && tid in s.threads && s.threads[tid] == FileChecked(filing) && FreshItems(s.db, filing)
    ensures Inv(InsertStep(s, tid, filing, c))
  {
    assert ThreadOk(s, s.threads[tid]);
    if c != Fault && FileTx(s.db, filing).Committed? {
      FileCommit(s, InsertStep(s, tid, filing, c), tid, filing);
    } else {
      EndStep(s, tid, Failure(StoreFailure));
    }
  }

  lemma {:induction false} FileStepKeeps(s: Sys, tid: ThreadId, c: Choice)
    requires Inv(s) && ValidPolicy(s.policy) && StepEnabled(s, tid, c) && IsFiling(s.threads[tid])
    ensures Inv(FileStep(s, tid, c))
  {
    match s.threads[tid]
    case FileCall(entity, inputs, pendingTTL) => ResolveKeeps(s, tid, entity, inputs, pendingTTL, c);
    case FileResolved(filing) => CheckKeeps(s, tid, filing, c);
    case FileChecked(filing) => InsertKeeps(s, tid, filing, c);
  }

  lemma {:induction false} HistoryGrows(s: Sys, s': Sys)
    requires HistoryOk(s) && DbGrows(s.db, s'.db) && s'.approvals == s.approvals
    requires forall id :: id in s'.db.grants ==> id in s.db.grants || GrantTraced(s.approvals, s'.db.grants[id])
    ensures HistoryOk(s')
  {
    forall id | id in s'.db.grants ensures GrantTraced(s'.approvals, s'.db.grants[id]) {
      if id in s.db.grants {
        assert GrantTraced(s.approvals, s.db.grants[id]);
      }
    }
  }

  // ------------------------------------------------------ access and listings

  lemma {:induction false} ListedExpiries(db: Db, e: string, now: int, gs: seq<Grant>)
    requires DbInv(db) && Lists(db, e, now, gs)
    ensures WholeSecondExpiries(gs)
  {
    forall g | g in gs ensures g.expiresAt > 0 && WholeSeconds(g.expiresAt) == g.expiresAt {
      assert GrantOk(db.requests, g.id, db.grants[g.id]);
    }
  }

  // A row left out of a listing at `now` gives nothing from then on, unless it is revoked.
  lemma {:induction false} UnlistedIsOver(g: Grant, e: string, now: int, t: int)
    requires g.entity == e && g.revokedAt == 0 && now <= t
    requires WholeSeconds(g.expiresAt) == g.expiresAt
    ensures t < g.expiresAt ==> ActiveFor(g, e, now)
  {
    WholeSecondsAreStored(g.expiresAt);
    StoredComparison(g.expiresAt, now);
  }

  /** Listing the active rows loses nothing that is still to come. */
  lemma {:induction false} ListingEntitles(db: Db, e: string, now: int, gs: seq<Grant>, t: int, path: string, capability: string)
    requires DbInv(db) && Lists(db, e, now, gs) && now <= t
    ensures InForce(gs, t, path, capability) <==> Entitled(db, e, t, path, capability)
  {
    if InForce(gs, t, path, capability) {
      var g :| g in gs && g.path == path && t < g.expiresAt && capability in g.capabilities;
      assert GrantGives(db.grants[g.id], e, t, path, capability);
    }
    if Entitled(db, e, t, path, capability) {
      var id :| id in db.grants && GrantGives(db.grants[id], e, t, path, capability);
      assert GrantOk(db.requests, id, db.grants[id]);
      UnlistedIsOver(db.grants[id], e, now, t);
    }
  }

  /** A policy rendered from gs, attached unless it is empty, gives exactly what gs holds in force. */
  lemma {:induction false} RenderedAccess(bao: Bao, e: string, gs: seq<Grant>, t: int, path: string, capability: string)
    requires PolicyIs(bao, e, gs) && WholeSecondExpiries(gs) && (gs != [] ==> Attached(bao, e))
    ensures Access(bao, e, t, path, capability) <==> InForce(gs, t, path, capability)
  {
    SessionPolicyMeaning(gs, t, path, capability);
  }

  lemma {:induction false} ListingAttached(s: Sys, e: string, now: int, gs: seq<Grant>)
    requires Lists(s.db, e, now, gs) && GrantsImplyAttached(s.db, s.bao, e)
    ensures gs != [] ==> Attached(s.bao, e)
  {
    if gs != [] {
      assert s.db.grants[gs[0].id].entity == e;
    }
  }

  /** A store transaction by the lock holder changes nothing for other entities. */
  lemma {:induction false} TxOwnStep(s: Sys, s': Sys, tid: ThreadId, e: string)
    requires LocksOk(s) && tid in s.threads && tid in s'.threads && Holds(s.threads[tid]) == Some(e) == Holds(s'.threads[tid])
    requires s' == Goto(s, tid, s'.threads[tid]).(db := s'.db, dirty := s'.dirty)
    requires s'.dirty == s.dirty || s'.dirty == s.dirty - {e}
    requires DbGrows(s.db, s'.db)
    requires forall x :: x != e ==> RowsKept(s.db, s'.db, x) && GrantsQuiet(s.db, s'.db, x)
    ensures OwnStep(s, s', tid, Some(e))
  {
    forall x | Some(x) != Some(e) ensures Quiet(s, s', x) {
      assert RowsKept(s.db, s'.db, x) && GrantsQuiet(s.db, s'.db, x);
      PhaseQuiet(s, s', tid, x);
    }
  }

  // ----------------------------------------------------------- writing policies

  lemma {:induction false} WriteQuiet(bao: Bao, e: string, gs: seq<Grant>, now: int, c: Choice, other: string)
    requires WriteSession(bao, e, gs, now, c).Some? && other != e
    ensures BaoQuiet(bao, WriteSession(bao, e, gs, now, c).value, other)
  {
    PolicyNameInjective(e, other);
  }

  /** `after` differs from `before` in e's session policy only, which is the rendering of gs. */
  ghost predicate Renders(before: Bao, after: Bao, e: string, gs: seq<Grant>) {
    && PolicyIs(after, e, gs) && after.entities == before.entities
    && forall x: string {:trigger BaoQuiet(before, after, x)} :: x != e ==> BaoQuiet(before, after, x)
  }

  lemma {:induction false} WriteRenders(bao: Bao, e: string, gs: seq<Grant>, now: int, c: Choice)
    requires WriteSession(bao, e, gs, now, c).Some?
    ensures Renders(bao, WriteSession(bao, e, gs, now, c).value, e, gs)
  {
    var bao' := WriteSession(bao, e, gs, now, c).value;
    forall x: string | x != e ensures BaoQuiet(bao, bao', x) {
      WriteQuiet(bao, e, gs, now, c, x);
    }
  }

  lemma {:induction false} RenderingTraced(approvals: set<Approval>, bao: Bao, e: string, gs: seq<Grant>)
    requires PolicyIs(bao, e, gs)
    requires forall g :: g in gs ==> g.entity == e && GrantTraced(approvals, g)
    ensures PolicyTraced(approvals, bao, e)
  {
    if gs != [] {
      forall b | b in Blocks(gs) ensures BlockTraced(approvals, e, b) {
        var i :| 0 <= i < |gs| && Blocks(gs)[i] == b;
        assert gs[i] in gs;
        var a :| a in approvals && a.entity == gs[i].entity && SameGrant(a.grant, gs[i]);
        assert BlockOf(a.grant) == b;
      }
    }
  }

  lemma {:induction false} ListedTraced(s: Sys, e: string, now: int, gs: seq<Grant>)
    requires HistoryOk(s) && Lists(s.db, e, now, gs)
    ensures forall g :: g in gs ==> g.entity == e && GrantTraced(s.approvals, g)
  {
    forall g | g in gs ensures g.entity == e && GrantTraced(s.approvals, g) {
      assert GrantTraced(s.approvals, s.db.grants[g.id]);
    }
  }

  /** What a position needs of a policy that was just rendered from gs. */
  ghost predicate FitsPhase(s: Sys, th: Thread, bao: Bao, e: string, gs: seq<Grant>) {
    match PhaseOf(th)
    case Settled => Sync(s.db, bao, s.clock, e)
    case Replaced(written) => written == gs
    case Unknown => true
  }

  lemma {:induction false} WrittenPhase(s: Sys, s': Sys, tid: ThreadId, th: Thread, e: string, gs: seq<Grant>)
    requires LocksOk(s) && tid in s.threads && Holds(s.threads[tid]) == Some(e)
    requires s'.threads == s.threads[tid := th] && s'.locks == s.locks && s'.db == s.db && s'.clock == s.clock
    requires Holds(th) == Some(e) && FitsPhase(s, th, s'.bao, e, gs) && PolicyIs(s'.bao, e, gs)
    ensures PhaseOk(s', e)
  {
  }

  /** A successful policy write by the lock holder, whatever position it leads to. */
  lemma {:induction false} WriteStep(s: Sys, tid: ThreadId, th: Thread, dirty: set<string>, e: string, gs: seq<Grant>, bao: Bao)
    requires Inv(s) && tid in s.threads && Holds(s.threads[tid]) == Some(e)
    requires Renders(s.bao, bao, e, gs)
    requires forall g :: g in gs ==> g.entity == e && GrantTraced(s.approvals, g)
    requires dirty == s.dirty || dirty == s.dirty - {e}
    requires Holds(th) == Some(e) && FitsPhase(s, th, bao, e, gs)
    requires ThreadOk(s, th) && !th.DecideEntityRead? && !th.DecideReady?
    ensures Inv(Wrote(s, tid, th, bao, dirty))
  {
    var s' := Wrote(s, tid, th, bao, dirty);
    WrittenOwnStep(s, tid, th, dirty, e, bao);
    assert EntityOk(s, e);
    WrittenEntity(s, s', tid, th, e, gs);
    WrittenThread(s, s', th);
    Compose(s, s', tid, Some(e));
  }

  lemma {:induction false} WrittenEntity(s: Sys, s': Sys, tid: ThreadId, th: Thread, e: string, gs: seq<Grant>)
    requires LocksOk(s) && EntityOk(s, e) && tid in s.threads && Holds(s.threads[tid]) == Some(e) == Holds(th)
    requires s'.threads == s.threads[tid := th] && s'.locks == s.locks && s'.db == s.db && s'.clock == s.clock && s'.approvals == s.approvals
    requires Renders(s.bao, s'.bao, e, gs) && FitsPhase(s, th, s'.bao, e, gs)
    requires forall g :: g in gs ==> g.entity == e && GrantTraced(s.approvals, g)
    ensures EntityOk(s', e)
  {
    RenderingTraced(s.approvals, s'.bao, e, gs);
    WrittenPhase(s, s', tid, th, e, gs);
  }

  lemma {:induction false} WrittenOwnStep(s: Sys, tid: ThreadId, th: Thread, dirty: set<string>, e: string, bao: Bao)
    requires LocksOk(s) && tid in s.threads && Holds(s.threads[tid]) == Some(e) == Holds(th)
    requires forall x: string {:trigger BaoQuiet(s.bao, bao, x)} :: x != e ==> BaoQuiet(s.bao, bao, x)
    requires dirty == s.dirty || dirty == s.dirty - {e}
    ensures OwnStep(s, Wrote(s, tid, th, bao, dirty), tid, Some(e))
  {
    HolderOwnStep(s, Wrote(s, tid, th, bao, dirty), tid, e);
  }

  lemma {:induction false} WrittenThread(s: Sys, s': Sys, th: Thread)
    requires ThreadOk(s, th) && !th.DecideEntityRead? && !th.DecideReady?
    requires s'.db == s.db && s'.clock == s.clock && s'.approvals == s.approvals
    ensures ThreadOk(s', th)
  {
  }
}
