// What holds in every reachable state and of every step, whatever the interleaving and
// whichever calls fail.
module Theorems {
  import opened Decisions
  import opened Integrity
  import opened Invariants
  import opened OpenBao
  import opened Options
  import opened Protocol
  import opened Rules
  import opened Store
  import opened Time
  import opened Frames
  import DecideSafety
  import RevokeSafety
  import Safety

  // ---------------------------------------------------------------- induction

  lemma {:induction false} AskingStepKeeps(s: Sys, tid: ThreadId, c: Choice)
    requires Inv(s) && ValidPolicy(s.policy) && StepEnabled(s, tid, c)
    ensures Inv(AskingStep(s, tid, c))
  {
    match s.threads[tid]
    case DecideCall(approver, requestId, decisions) => DecideSafety.AskKeeps(s, tid, approver, requestId, decisions, c);
    case DecideQueued(approver, requestId, decisions, entity) => DecideSafety.AdmitKeeps(s, tid, approver, requestId, decisions, entity);
    case DecideLocked(approver, requestId, decisions, entity) => DecideSafety.LoadKeeps(s, tid, approver, requestId, decisions, entity, c);
    case DecideLoaded(approver, decisions, loaded) => DecideSafety.JudgeKeeps(s, tid, approver, decisions, loaded, c);
    case _ =>
  }

  lemma {:induction false} WritingKeeps(s: Sys, tid: ThreadId, c: Choice)
    requires Inv(s) && StepEnabled(s, tid, c) && (s.threads[tid].DecideJudged? || s.threads[tid].DecideListed?)
    ensures Inv(InstallStep(s, tid, c))
  {
    var th := s.threads[tid];
    if th.DecideJudged? {
      DecideSafety.ListKeeps(s, tid, th.batch, c);
    } else {
      DecideSafety.WriteBatchKeeps(s, tid, th.batch, th.active, c);
    }
  }

  lemma {:induction false} AttachingKeeps(s: Sys, tid: ThreadId, c: Choice)
    requires Inv(s) && tid in s.threads && (s.threads[tid].DecideWritten? || s.threads[tid].DecideEntityRead? || s.threads[tid].DecideReady?)
    ensures Inv(InstallStep(s, tid, c))
  {
    match s.threads[tid]
    case DecideWritten(b, active) => DecideSafety.ReadEntityKeeps(s, tid, b, active, c);
    case DecideEntityRead(b, active, names) => DecideSafety.AttachKeeps(s, tid, b, active, names, c);
    case DecideReady(b, active) => DecideSafety.ReadyKeeps(s, tid, b, active, c);
  }

  lemma {:induction false} InstallStepKeeps(s: Sys, tid: ThreadId, c: Choice)
    requires Inv(s) && StepEnabled(s, tid, c) && IsInstalling(s.threads[tid])
    ensures Inv(InstallStep(s, tid, c))
  {
    if s.threads[tid].DecideJudged? || s.threads[tid].DecideListed? {
      WritingKeeps(s, tid, c);
    } else {
      AttachingKeeps(s, tid, c);
    }
  }

  lemma {:induction false} FindingKeeps(s: Sys, tid: ThreadId, c: Choice)
    requires Inv(s) && StepEnabled(s, tid, c)
    requires s.threads[tid].RevokeCall? || s.threads[tid].RevokeQueued? || s.threads[tid].RevokeLocked?
    ensures Inv(RevokeStep(s, tid, c))
  {
    match s.threads[tid]
    case RevokeCall(approver, grantId) => RevokeSafety.FindKeeps(s, tid, approver, grantId, c);
    case RevokeQueued(approver, grant) => RevokeSafety.AdmitKeeps(s, tid, approver, grant);
    case RevokeLocked(approver, grant) => RevokeSafety.TimeKeeps(s, tid, approver, grant);
  }

  lemma {:induction false} RemovingKeeps(s: Sys, tid: ThreadId, c: Choice)
    requires Inv(s) && StepEnabled(s, tid, c)
    requires s.threads[tid].RevokeTimed? || s.threads[tid].RevokeListed? || s.threads[tid].RevokeWritten?
    ensures Inv(RevokeStep(s, tid, c))
  {
    match s.threads[tid]
    case RevokeTimed(approver, grant, now) => RevokeSafety.ChooseKeeps(s, tid, approver, grant, now, c);
    case RevokeListed(approver, grant, now, active) => RevokeSafety.WriteRemainingKeeps(s, tid, approver, grant, now, active, c);
    case RevokeWritten(approver, grant, now, active) => RevokeSafety.RecordKeeps(s, tid, approver, grant, now, active, c);
  }

  lemma {:induction false} RevokeStepKeeps(s: Sys, tid: ThreadId, c: Choice)
    requires Inv(s) && StepEnabled(s, tid, c) && IsRevoking(s.threads[tid])
    ensures Inv(RevokeStep(s, tid, c))
  {
    var th := s.threads[tid];
    if th.RevokeCall? || th.RevokeQueued? || th.RevokeLocked? {
      FindingKeeps(s, tid, c);
    } else {
      RemovingKeeps(s, tid, c);
    }
  }

  lemma {:induction false} RestoreStepKeeps(s: Sys, tid: ThreadId, c: Choice)
    requires Inv(s) && StepEnabled(s, tid, c)
    ensures Inv(RestoreStep(s, tid, c))
  {
    match s.threads[tid]
    case RestoreCall(e, error) => RevokeSafety.RestoreTimeKeeps(s, tid, e, error);
    case RestoreTimed(e, error, now) => RevokeSafety.RelistKeeps(s, tid, e, error, now, c);
    case RestoreListed(e, error, now, active) => RevokeSafety.RewriteKeeps(s, tid, e, error, now, active, c);
    case Unlocking(e, outcome) => Safety.ReleaseStep(s, tid, e, outcome);
    case _ =>
  }

  lemma {:induction false} ThreadStepKeeps(s: Sys, tid: ThreadId, c: Choice)
    requires Inv(s) && ValidPolicy(s.policy) && StepEnabled(s, tid, c)
    ensures Inv(StepThread(s, tid, c))
  {
    var th := s.threads[tid];
    if IsFiling(th) {
      Safety.FileStepKeeps(s, tid, c);
    } else if IsRestoring(th) {
      RestoreStepKeeps(s, tid, c);
    } else if IsRevoking(th) {
      RevokeStepKeeps(s, tid, c);
    } else if IsInstalling(th) {
      InstallStepKeeps(s, tid, c);
    } else {
      AskingStepKeeps(s, tid, c);
    }
  }

  lemma {:induction false} StepKeeps(s: Sys, l: Label)
    requires Inv(s) && ValidPolicy(s.policy) && Enabled(s, l)
    ensures Inv(Next(s, l))
  {
    match l
    case Step(tid, c) => ThreadStepKeeps(s, tid, c);
    case Start(tid, call) => RevokeSafety.StartKeeps(s, tid, call);
    case Sweep(now) => RevokeSafety.SweepKeeps(s, now);
    case Tick(elapsed) => RevokeSafety.EnvironmentStep(s, Next(s, l));
    case Reconfigure(policy) => RevokeSafety.EnvironmentStep(s, Next(s, l));
  }

  lemma {:induction false} InitHolds(s: Sys)
    requires Init(s)
    ensures Inv(s)
  {
    forall e ensures EntityOk(s, e) {
      assert POLICY_PREFIX <= PolicyName(e);
    }
  }

  /** Every configuration a step leads to has been validated. */
  lemma {:induction false} PolicyStaysValid(s: Sys, l: Label)
    requires ValidPolicy(s.policy) && Enabled(s, l)
    ensures ValidPolicy(Next(s, l).policy)
  {
    if l.Step? {
      ThreadFrame(s, l.thread, l.choice);
    }
  }

  /** The invariant holds after every run. */
  lemma {:induction false} RunKeeps(s: Sys, labels: seq<Label>)
    requires Init(s) && IsRun(s, labels)
    ensures Inv(After(s, labels)) && ValidPolicy(After(s, labels).policy)
    decreases |labels|
  {
    if labels == [] {
      InitHolds(s);
    } else {
      RunKeeps(s, labels[..|labels| - 1]);
      PolicyStaysValid(After(s, labels[..|labels| - 1]), labels[|labels| - 1]);
      StepKeeps(After(s, labels[..|labels| - 1]), labels[|labels| - 1]);
    }
  }

  // ------------------------------------------------------- policy and store agree

  /**
    * Whenever nobody holds an entity's lock and its last restore, if any, succeeded, the
    * access its policy gives at every instant from now on is exactly the union of its
    * stored unrevoked grants that expire later.
    */
  lemma {:induction false} PolicyMatchesStore(s: Sys, labels: seq<Label>, entity: string, t: int, path: string, capability: string)
    requires Init(s) && IsRun(s, labels)
    requires entity !in After(s, labels).locks && entity !in After(s, labels).dirty
    requires t >= After(s, labels).clock
    ensures Access(After(s, labels).bao, entity, t, path, capability) <==> Entitled(After(s, labels).db, entity, t, path, capability)
  {
    RunKeeps(s, labels);
    assert EntityOk(After(s, labels), entity);
  }

  /** A thread about to succeed: its next fault-free step is the commit of an approval or a revocation. */
  ghost predicate Succeeds(s: Sys, tid: ThreadId, entity: string) {
    && tid in s.threads
    && (match s.threads[tid]
        case DecideReady(b, _) => b.grants != [] && b.loaded.entity == entity && DecideTx(s.db, b.decided, b.grants).Committed?
        case RevokeWritten(approver, grant, now, _) => grant.entity == entity && RevokeTx(s.db, grant.id, approver, now).Committed?
        case _ => false)
  }

  lemma {:induction false} CommitAgrees(s: Sys, tid: ThreadId, b: Batch, active: seq<Grant>)
    requires Inv(s) && tid in s.threads && s.threads[tid] == DecideReady(b, active)
    requires b.grants != [] && DecideTx(s.db, b.decided, b.grants).Committed?
    ensures Agrees(CommitStep(s, tid, b, Ok), tid, b.loaded.entity)
  {
    DecideSafety.CommitKeeps(s, CommitStep(s, tid, b, Ok), tid, b, active);
  }

  lemma {:induction false} RecordAgrees(s: Sys, tid: ThreadId, approver: Approver, grant: Grant, now: int, active: seq<Grant>)
    requires Inv(s) && tid in s.threads && s.threads[tid] == RevokeWritten(approver, grant, now, active)
    requires RevokeTx(s.db, grant.id, approver, now).Committed?
    ensures Agrees(RecordStep(s, tid, approver, grant, now, Ok), tid, grant.entity)
  {
    RevokeSafety.RecordedKeeps(s, RecordStep(s, tid, approver, grant, now, Ok), tid, approver, grant, now, active);
  }

  /** The call has succeeded, and the entity's policy and store agree. */
  ghost predicate Agrees(s: Sys, tid: ThreadId, entity: string) {
    && tid in s.threads && s.threads[tid] == Unlocking(entity, Success)
    && entity !in s.dirty
    && Sync(s.db, s.bao, s.clock, entity)
  }

  lemma {:induction false} ReadySteps(s: Sys, tid: ThreadId, b: Batch, active: seq<Grant>)
    requires tid in s.threads && s.threads[tid] == DecideReady(b, active)
    ensures StepThread(s, tid, Ok) == CommitStep(s, tid, b, Ok)
  {
  }

  lemma {:induction false} RecordSteps(s: Sys, tid: ThreadId, approver: Approver, grant: Grant, now: int, active: seq<Grant>)
    requires tid in s.threads && s.threads[tid] == RevokeWritten(approver, grant, now, active)
    ensures StepThread(s, tid, Ok) == RecordStep(s, tid, approver, grant, now, Ok)
  {
  }

  lemma {:induction false} SucceedsAgrees(s: Sys, tid: ThreadId, entity: string)
    requires Inv(s) && Succeeds(s, tid, entity)
    ensures Agrees(StepThread(s, tid, Ok), tid, entity)
  {
    var th := s.threads[tid];
    if th.DecideReady? {
      ReadySteps(s, tid, th.batch, th.active);
      CommitAgrees(s, tid, th.batch, th.active);
    } else {
      RecordSteps(s, tid, th.approver, th.grant, th.now, th.active);
      RecordAgrees(s, tid, th.approver, th.grant, th.now, th.active);
    }
  }

  /** A successful approval or revocation brings policy and store together, even after a failed restore. */
  lemma {:induction false} SuccessRestoresAgreement(s: Sys, labels: seq<Label>, tid: ThreadId, entity: string)
    requires Init(s) && IsRun(s, labels) && Succeeds(After(s, labels), tid, entity)
    ensures Agrees(Next(After(s, labels), Step(tid, Ok)), tid, entity)
  {
    RunKeeps(s, labels);
    SucceedsAgrees(After(s, labels), tid, entity);
  }

  // --------------------------------------------------------------- no lost update

  lemma {:induction false} LoadedStillStored(s: Sys, tid: ThreadId)
    requires Inv(s) && tid in s.threads && s.threads[tid].DecideReady?
    ensures var b := s.threads[tid].batch;
            && b.loaded.id in s.db.requests
            && (DecideTx(s.db, b.decided, b.grants).Committed? ==> s.db.requests[b.loaded.id].request == b.loaded)
            && (DecideTx(s.db, b.decided, b.grants).StatusChanged? <==> !s.db.requests[b.loaded.id].hasPending)
  {
    assert ThreadOk(s, s.threads[tid]);
  }

  /** When a decision commits its whole item list, the stored request is still the one it loaded. */
  lemma {:induction false} NoLostUpdate(s: Sys, labels: seq<Label>, tid: ThreadId)
    requires Init(s) && IsRun(s, labels)
    requires tid in After(s, labels).threads && After(s, labels).threads[tid].DecideReady?
    ensures var b := After(s, labels).threads[tid].batch;
            var db := After(s, labels).db;
            && b.loaded.id in db.requests
            && (DecideTx(db, b.decided, b.grants).Committed? ==> db.requests[b.loaded.id].request == b.loaded)
            && (DecideTx(db, b.decided, b.grants).StatusChanged? <==> !db.requests[b.loaded.id].hasPending)
  {
    RunKeeps(s, labels);
    LoadedStillStored(After(s, labels), tid);
  }

  // ------------------------------------------------------------- what is written

  /** The entity whose lock the stepping thread holds. */
  function Holder(s: Sys, l: Label): Option<string> {
    if l.Step? && l.thread in s.threads then Holds(s.threads[l.thread]) else None
  }

  /** Only the session policy of `own` is written, and only its policy list, to which the policy's name is appended. */
  ghost predicate OnlyTouches(before: Bao, after: Bao, own: Option<string>) {
    && (forall name :: (own == None || name != PolicyName(own.value)) ==> SamePolicy(before, after, name))
    && after.entities.Keys == before.entities.Keys
    && (forall e :: e in before.entities ==>
          || after.entities[e] == before.entities[e]
          || (own == Some(e) && after.entities[e] == before.entities[e] + [PolicyName(e)]))
  }

  ghost predicate SamePolicy(before: Bao, after: Bao, name: string) {
    && (name in before.policies <==> name in after.policies)
    && (name in before.policies ==> after.policies[name] == before.policies[name])
  }

  lemma {:induction false} NothingTouched(bao: Bao, own: Option<string>)
    ensures OnlyTouches(bao, bao, own)
  {
  }

  lemma {:induction false} SessionTouched(bao: Bao, e: string, gs: seq<Grant>, now: int, c: Choice)
    requires WriteSession(bao, e, gs, now, c).Some?
    ensures OnlyTouches(bao, WriteSession(bao, e, gs, now, c).value, Some(e))
  {
  }

  lemma {:induction false} ListTouched(bao: Bao, e: string)
    requires e in bao.entities
    ensures OnlyTouches(bao, WithEntityPolicies(bao, e, bao.entities[e] + [PolicyName(e)]), Some(e))
  {
  }

  lemma {:induction false} BatchTouches(s: Sys, tid: ThreadId, b: Batch, active: seq<Grant>, c: Choice)
    ensures OnlyTouches(s.bao, WriteBatchStep(s, tid, b, active, c).bao, Some(b.loaded.entity))
  {
    NothingTouched(s.bao, Some(b.loaded.entity));
    if WriteSession(s.bao, b.loaded.entity, active + b.grants, s.clock, c).Some? {
      SessionTouched(s.bao, b.loaded.entity, active + b.grants, s.clock, c);
    }
  }

  lemma {:induction false} AttachTouches(s: Sys, tid: ThreadId, b: Batch, active: seq<Grant>, names: seq<string>, c: Choice)
    requires b.loaded.entity in s.bao.entities && s.bao.entities[b.loaded.entity] == names
    ensures OnlyTouches(s.bao, AttachStep(s, tid, b, active, names, c).bao, Some(b.loaded.entity))
  {
    NothingTouched(s.bao, Some(b.loaded.entity));
    ListTouched(s.bao, b.loaded.entity);
  }

  lemma {:induction false} InstallTouches(s: Sys, tid: ThreadId, c: Choice)
    requires tid in s.threads && ThreadOk(s, s.threads[tid])
    ensures OnlyTouches(s.bao, InstallStep(s, tid, c).bao, Holds(s.threads[tid]))
  {
    var th := s.threads[tid];
    if th.DecideListed? {
      BatchTouches(s, tid, th.batch, th.active, c);
    } else if th.DecideEntityRead? {
      AttachTouches(s, tid, th.batch, th.active, th.names, c);
    } else {
      InstallSystems(s, tid, c);
      NothingTouched(s.bao, Holds(th));
    }
  }

  lemma {:induction false} RevokeTouches(s: Sys, tid: ThreadId, c: Choice)
    requires tid in s.threads
    ensures OnlyTouches(s.bao, RevokeStep(s, tid, c).bao, Holds(s.threads[tid]))
  {
    var th := s.threads[tid];
    if th.RevokeListed? {
      RemainderTouches(s, tid, th.approver, th.grant, th.now, th.active, c);
    } else {
      RevokeSystems(s, tid, c);
      NothingTouched(s.bao, Holds(th));
    }
  }

  lemma {:induction false} RemainderTouches(s: Sys, tid: ThreadId, approver: Approver, grant: Grant, now: int, active: seq<Grant>, c: Choice)
    ensures OnlyTouches(s.bao, WriteRemainingStep(s, tid, approver, grant, now, active, c).bao, Some(grant.entity))
  {
    NothingTouched(s.bao, Some(grant.entity));
    if WriteSession(s.bao, grant.entity, Remaining(active, grant.id), s.clock, c).Some? {
      SessionTouched(s.bao, grant.entity, Remaining(active, grant.id), s.clock, c);
    }
  }

  lemma {:induction false} RewriteTouches(s: Sys, tid: ThreadId, e: string, error: Error, active: seq<Grant>, c: Choice)
    ensures OnlyTouches(s.bao, RewriteStep(s, tid, e, error, active, c).bao, Some(e))
  {
    NothingTouched(s.bao, Some(e));
    if WriteSession(s.bao, e, active, s.clock, c).Some? {
      SessionTouched(s.bao, e, active, s.clock, c);
    }
  }

  lemma {:induction false} RestoreTouches(s: Sys, tid: ThreadId, c: Choice)
    requires tid in s.threads
    ensures OnlyTouches(s.bao, RestoreStep(s, tid, c).bao, Holds(s.threads[tid]))
  {
    var th := s.threads[tid];
    if th.RestoreListed? {
      RewriteTouches(s, tid, th.entity, th.error, th.active, c);
    } else {
      RestoreSystems(s, tid, c);
      NothingTouched(s.bao, Holds(th));
    }
  }

  lemma {:induction false} ThreadTouches(s: Sys, tid: ThreadId, c: Choice)
    requires tid in s.threads && ThreadOk(s, s.threads[tid])
    ensures OnlyTouches(s.bao, StepThread(s, tid, c).bao, Holds(s.threads[tid]))
  {
    var th := s.threads[tid];
    NothingTouched(s.bao, Holds(th));
    if IsFiling(th) {
      FileFrame(s, tid, c);
    } else if IsRestoring(th) {
      RestoreTouches(s, tid, c);
    } else if IsRevoking(th) {
      RevokeTouches(s, tid, c);
    } else if IsInstalling(th) {
      InstallTouches(s, tid, c);
    } else {
      AskingSystems(s, tid, c);
    }
  }

  lemma {:induction false} StepTouches(s: Sys, l: Label)
    requires Inv(s) && Enabled(s, l)
    ensures OnlyTouches(s.bao, Next(s, l).bao, Holder(s, l))
  {
    if l.Step? {
      assert ThreadOk(s, s.threads[l.thread]);
      ThreadTouches(s, l.thread, l.choice);
    } else {
      NothingTouched(s.bao, None);
    }
  }

  /**
    * A step writes no policy but the session policy of the entity whose lock it holds, and
    * no entity's policy list but that one, to which it only appends the session policy.
    */
  lemma {:induction false} OnlyOwnPolicyTouched(s: Sys, labels: seq<Label>, l: Label)
    requires Init(s) && IsRun(s, labels) && Enabled(After(s, labels), l)
    ensures OnlyTouches(After(s, labels).bao, Next(After(s, labels), l).bao, Holder(After(s, labels), l))
  {
    RunKeeps(s, labels);
    StepTouches(After(s, labels), l);
  }

  // ------------------------------------------------------------------ the store

  /** In every reachable store items and grant rows mirror each other, and has_pending is true exactly when some item is pending. */
  lemma {:induction false} StoreIsConsistent(s: Sys, labels: seq<Label>, rid: Id, i: nat)
    requires Init(s) && IsRun(s, labels)
    requires rid in After(s, labels).db.requests && i < |After(s, labels).db.requests[rid].request.items|
    ensures var db := After(s, labels).db;
            var row := db.requests[rid];
            var item := row.request.items[i];
            && row.hasPending == HasPending(row.request.items)
            && (HasGrant(item.state) <==> exists id :: id in db.grants && db.grants[id].itemId == item.id)
            && (forall id :: id in db.grants && db.grants[id].itemId == item.id ==> id == item.grantId && Carries(db.grants[id], row.request, item))
  {
    RunKeeps(s, labels);
    var db := After(s, labels).db;
    assert RowOk(db.grants, rid, db.requests[rid]);
    ItemsMirrorGrants(db, rid, i);
  }

  /** At any instant a stored request with pending items is decidable exactly when the sweep would leave it. */
  lemma {:induction false} DecidableExactlyUntilSwept(s: Sys, labels: seq<Label>, rid: Id, now: int)
    requires Init(s) && IsRun(s, labels)
    requires rid in After(s, labels).db.requests && HasPending(After(s, labels).db.requests[rid].request.items)
    ensures var row := After(s, labels).db.requests[rid];
            now < row.request.pendingUntil <==> !Due(row, now)
  {
    RunKeeps(s, labels);
    var db := After(s, labels).db;
    assert RowOk(db.grants, rid, db.requests[rid]);
    StoredComparison(db.requests[rid].request.pendingUntil, now);
  }

  /** What a step can do to items: the sweep, storing a judged batch, recording a revocation, or nothing. */
  datatype Cause = Sweeping | Deciding | Recording | Elsewhere

  function CauseOf(s: Sys, l: Label): Cause {
    match l
    case Sweep(_) => Sweeping
    case Step(tid, _) =>
      if tid in s.threads && s.threads[tid].DecideReady? then Deciding
      else if tid in s.threads && s.threads[tid].RevokeWritten? then Recording
      else Elsewhere
    case _ => Elsewhere
  }

  /** The edges of an item's life, by what moves it along. */
  predicate MayBecome(cause: Cause, before: ItemState, after: ItemState) {
    || before == after
    || match cause
       case Sweeping => before == Pending && after == Expired
       case Deciding => before == Pending && (after == Approved || after == Store.Rejected || after == Store.Refused)
       case Recording => before == Approved && after == Revoked
       case Elsewhere => false
  }

  /** An item keeps what was requested, its state only moves along an edge, and an item that does not move is untouched. */
  predicate ItemMoves(cause: Cause, before: Item, after: Item) {
    && after.id == before.id && after.path == before.path && after.capabilities == before.capabilities && after.ttl == before.ttl
    && MayBecome(cause, before.state, after.state)
    && (after.state == before.state ==> after == before)
  }

  ghost predicate RowMoves(cause: Cause, before: Row, after: Row) {
    && after.request.entity == before.request.entity && after.request.pendingUntil == before.request.pendingUntil
    && |after.request.items| == |before.request.items|
    && (forall i :: 0 <= i < |before.request.items| ==> ItemMoves(cause, before.request.items[i], after.request.items[i]))
    && (after.hasPending ==> before.hasPending)
  }

  ghost predicate DbMoves(cause: Cause, db: Db, db': Db) {
    forall id :: id in db.requests ==> id in db'.requests && RowMoves(cause, db.requests[id], db'.requests[id])
  }

  lemma {:induction false} SameDbMoves(cause: Cause, db: Db)
    ensures DbMoves(cause, db, db)
  {
  }

  lemma {:induction false} FileMoves(db: Db, r: Request)
    requires FileTx(db, r).Committed?
    ensures DbMoves(Elsewhere, db, FileTx(db, r).db)
  {
  }

  lemma {:induction false} DecideMoves(s: Sys, b: Batch)
    requires DbInv(s.db) && BatchOk(s, b) && DecideTx(s.db, b.decided, b.grants).Committed?
    ensures DbMoves(Deciding, s.db, DecideTx(s.db, b.decided, b.grants).db)
  {
    var before, after := s.db.requests[b.loaded.id], DecideTx(s.db, b.decided, b.grants).db.requests[b.loaded.id];
    forall i | 0 <= i < |b.loaded.items| ensures ItemMoves(Deciding, before.request.items[i], after.request.items[i]) {
      assert ItemProgress(b.loaded, b.approver, b.now, b.loaded.items[i], b.decided.items[i], b.grants);
    }
    assert RowMoves(Deciding, before, after);
  }

  lemma {:induction false} RevokeMoves(db: Db, grantId: Id, approver: Approver, now: int)
    requires DbInv(db) && RevokeTx(db, grantId, approver, now).Committed?
    ensures DbMoves(Recording, db, RevokeTx(db, grantId, approver, now).db)
  {
    var g := db.grants[grantId];
    var r := db.requests[g.requestId];
    var r' := RevokeTx(db, grantId, approver, now).db.requests[g.requestId];
    assert GrantOk(db.requests, grantId, g);
    assert RowOk(db.grants, g.requestId, r);
    forall i | 0 <= i < |r.request.items| ensures ItemMoves(Recording, r.request.items[i], r'.request.items[i]) {
      ItemsMirrorGrants(db, g.requestId, i);
      assert ItemOk(db.grants, r.request, r.request.items[i]);
    }
    assert RowMoves(Recording, r, r');
  }

  lemma {:induction false} ExpireMoves(db: Db, now: int)
    requires DbInv(db)
    ensures DbMoves(Sweeping, db, ExpireTx(db, now))
  {
    forall id | id in db.requests ensures RowMoves(Sweeping, db.requests[id], ExpireTx(db, now).requests[id]) {
      assert RowOk(db.grants, id, db.requests[id]);
      if Due(db.requests[id], now) {
        ExpiredRowOk(db.grants, id, db.requests[id]);
      }
    }
  }

  /**
    * Every step only moves items forward: the sweep from pending to expired, a stored batch
    * from pending to decided, a recorded revocation from approved to revoked, and no other
    * step any item at all.
    */
  lemma {:induction false} ItemsOnlyMoveForward(s: Sys, labels: seq<Label>, l: Label)
    requires Init(s) && IsRun(s, labels) && Enabled(After(s, labels), l)
    ensures DbMoves(CauseOf(After(s, labels), l), After(s, labels).db, Next(After(s, labels), l).db)
  {
    RunKeeps(s, labels);
    StepMoves(After(s, labels), l);
  }

  lemma {:induction false} CommitMoves(s: Sys, tid: ThreadId, b: Batch, c: Choice)
    requires DbInv(s.db) && BatchOk(s, b)
    ensures DbMoves(Deciding, s.db, CommitStep(s, tid, b, c).db)
  {
    SameDbMoves(Deciding, s.db);
    if DecideTx(s.db, b.decided, b.grants).Committed? {
      DecideMoves(s, b);
    }
  }

  lemma {:induction false} InstallStepMoves(s: Sys, tid: ThreadId, c: Choice)
    requires DbInv(s.db) && tid in s.threads && ThreadOk(s, s.threads[tid])
    ensures DbMoves(CauseOf(s, Step(tid, c)), s.db, InstallStep(s, tid, c).db)
  {
    if s.threads[tid].DecideReady? {
      CommitMoves(s, tid, s.threads[tid].batch, c);
    } else {
      InstallSystems(s, tid, c);
      SameDbMoves(CauseOf(s, Step(tid, c)), s.db);
    }
  }

  lemma {:induction false} RecordMoves(s: Sys, tid: ThreadId, approver: Approver, grant: Grant, now: int, c: Choice)
    requires DbInv(s.db)
    ensures DbMoves(Recording, s.db, RecordStep(s, tid, approver, grant, now, c).db)
  {
    SameDbMoves(Recording, s.db);
    if RevokeTx(s.db, grant.id, approver, now).Committed? {
      RevokeMoves(s.db, grant.id, approver, now);
    }
  }

  lemma {:induction false} RevokeStepMoves(s: Sys, tid: ThreadId, c: Choice)
    requires DbInv(s.db) && tid in s.threads
    ensures DbMoves(CauseOf(s, Step(tid, c)), s.db, RevokeStep(s, tid, c).db)
  {
    if s.threads[tid].RevokeWritten? {
      var th := s.threads[tid];
      RecordMoves(s, tid, th.approver, th.grant, th.now, c);
    } else {
      RevokeSystems(s, tid, c);
      SameDbMoves(CauseOf(s, Step(tid, c)), s.db);
    }
  }

  lemma {:induction false} FileStepMoves(s: Sys, tid: ThreadId, c: Choice)
    requires tid in s.threads && IsFiling(s.threads[tid])
    ensures DbMoves(Elsewhere, s.db, FileStep(s, tid, c).db)
  {
    SameDbMoves(Elsewhere, s.db);
    if s.threads[tid].FileChecked? {
      if FileTx(s.db, s.threads[tid].filing).Committed? {
        FileMoves(s.db, s.threads[tid].filing);
      }
    } else {
      FileDbFrame(s, tid, c);
    }
  }

  lemma {:induction false} ThreadMoves(s: Sys, tid: ThreadId, c: Choice)
    requires DbInv(s.db) && tid in s.threads && ThreadOk(s, s.threads[tid])
    ensures DbMoves(CauseOf(s, Step(tid, c)), s.db, StepThread(s, tid, c).db)
  {
    var th := s.threads[tid];
    SameDbMoves(CauseOf(s, Step(tid, c)), s.db);
    if IsFiling(th) {
      FileStepMoves(s, tid, c);
    } else if IsRestoring(th) {
      RestoreSystems(s, tid, c);
    } else if IsRevoking(th) {
      RevokeStepMoves(s, tid, c);
    } else if IsInstalling(th) {
      InstallStepMoves(s, tid, c);
    } else {
      AskingSystems(s, tid, c);
    }
  }

  lemma {:induction false} StepMoves(s: Sys, l: Label)
    requires Inv(s) && Enabled(s, l)
    ensures DbMoves(CauseOf(s, l), s.db, Next(s, l).db)
  {
    SameDbMoves(CauseOf(s, l), s.db);
    match l
    case Step(tid, c) =>
      assert ThreadOk(s, s.threads[tid]);
      ThreadMoves(s, tid, c);
    case Sweep(now) => ExpireMoves(s.db, now);
    case _ =>
  }
}
