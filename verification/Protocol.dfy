// The grant lifecycle as a step machine. Any number of threads decide, revoke and file
// requests; the sweep and the clock run beside them. One step is one store transaction,
// one OpenBao call, one lock operation or one stretch of local computation, and every
// store and OpenBao step may fail without effect.
module Protocol {
  import opened Decisions
  import opened OpenBao
  import opened Options
  import opened Rules
  import opened Store
  import opened Time
  import Filing

  type ThreadId = nat

  datatype Outcome = Success | Failure(error: Error)

  /** A judged batch: the request as it was loaded, as it is to be stored, and its grants. */
  datatype Batch = Batch(policy: Policy, approver: Approver, loaded: Request, decided: Request, grants: seq<Grant>, now: int)

  datatype Thread =
    | FileCall(entity: string, inputs: seq<ItemInput>, pendingTTL: int)
    | FileResolved(filing: Request)
    | FileChecked(filing: Request)
    | DecideCall(approver: Approver, requestId: Id, decisions: seq<Decision>)
    | DecideQueued(approver: Approver, requestId: Id, decisions: seq<Decision>, entity: string)
    | DecideLocked(approver: Approver, requestId: Id, decisions: seq<Decision>, entity: string)
    | DecideLoaded(approver: Approver, decisions: seq<Decision>, loaded: Request)
    | DecideJudged(batch: Batch)
    | DecideListed(batch: Batch, active: seq<Grant>)
    | DecideWritten(batch: Batch, active: seq<Grant>)
    | DecideEntityRead(batch: Batch, active: seq<Grant>, names: seq<string>)
    | DecideReady(batch: Batch, active: seq<Grant>)
    | RevokeCall(approver: Approver, grantId: Id)
    | RevokeQueued(approver: Approver, grant: Grant)
    | RevokeLocked(approver: Approver, grant: Grant)
    | RevokeTimed(approver: Approver, grant: Grant, now: int)
    | RevokeListed(approver: Approver, grant: Grant, now: int, active: seq<Grant>)
    | RevokeWritten(approver: Approver, grant: Grant, now: int, active: seq<Grant>)
    | RestoreCall(entity: string, error: Error)
    | RestoreTimed(entity: string, error: Error, now: int)
    | RestoreListed(entity: string, error: Error, now: int, active: seq<Grant>)
    | Unlocking(entity: string, outcome: Outcome)
    | Done(outcome: Outcome)

  /** The record of one approval: everything that justified the grant it made. */
  datatype Approval = Approval(entity: string, approver: Approver, requestId: Id, item: Item, at: int, deadline: int,
                               policy: Policy, grant: Grant)

  /**
    * The whole system. `approvals` and `dirty` are history: every approval ever made, and
    * the entities whose last restore failed with no success since.
    */
  datatype Sys = Sys(db: Db, bao: Bao, clock: int, policy: Policy, locks: map<string, ThreadId>,
                     threads: map<ThreadId, Thread>, approvals: set<Approval>, dirty: set<string>)

  /** How the environment resolves a step: whether it fails, the IDs drawn, the listing returned. */
  datatype Choice = Ok | Fault | Ids(ids: seq<Id>) | Listing(grants: seq<Grant>)

  datatype Label =
    | Step(thread: ThreadId, choice: Choice)
    | Start(thread: ThreadId, call: Thread)
    | Sweep(now: int)
    | Tick(elapsed: nat)
    | Reconfigure(policy: Policy)

  // ------------------------------------------------------------------- the steps

  function Goto(s: Sys, tid: ThreadId, th: Thread): Sys {
    s.(threads := s.threads[tid := th])
  }

  function Fail(s: Sys, tid: ThreadId, entity: string, error: Error): Sys {
    Goto(s, tid, Unlocking(entity, Failure(error)))
  }

  function Acquire(s: Sys, tid: ThreadId, entity: string, th: Thread): Sys {
    Goto(s, tid, th).(locks := s.locks[entity := tid])
  }

  function Release(s: Sys, tid: ThreadId, entity: string, outcome: Outcome): Sys {
    Goto(s, tid, Done(outcome)).(locks := s.locks - {entity})
  }

  /** writePolicy: replaces the session policy, or deletes it when no grant is left. */
  function WriteSession(bao: Bao, entity: string, gs: seq<Grant>, now: int, c: Choice): Option<Bao> {
    if c == Fault then None
    else if gs == [] then Some(WithoutPolicy(bao, PolicyName(entity)))
    else if !WriteAllowed(PolicyName(entity), SessionPolicy(gs), now) then None
    else Some(WithPolicy(bao, PolicyName(entity), SessionPolicy(gs)))
  }

  function Wrote(s: Sys, tid: ThreadId, th: Thread, bao: Bao, dirty: set<string>): Sys {
    s.(threads := s.threads[tid := th], bao := bao, dirty := dirty)
  }

  function ItemsOf(r: Request): set<Item> {
    set item | item in r.items
  }

  /** The approvals a judged batch records. */
  ghost function BatchApprovals(b: Batch): set<Approval> {
    set g, item | g in b.grants && item in ItemsOf(b.loaded) && item.id == g.itemId ::
      Approval(b.loaded.entity, b.approver, b.loaded.id, item, b.now, b.loaded.pendingUntil, b.policy, g)
  }

  // --------------------------------------------------------------------- filing

  function ResolveStep(s: Sys, tid: ThreadId, entity: string, inputs: seq<ItemInput>, pendingTTL: int, c: Choice): Sys {
    if !(1 <= |inputs| <= Filing.MAX_ITEMS) then Goto(s, tid, Done(Failure(InvalidInput)))
    else if !c.Ids? || |c.ids| != |inputs| + 1 then Goto(s, tid, Done(Failure(StoreFailure)))
    else
      var items := Filing.FiledItems(s.policy, inputs, c.ids[1..]);
      Goto(s, tid, FileResolved(Request(c.ids[0], entity, s.clock, s.clock + pendingTTL, items)))
  }

  function CheckStep(s: Sys, tid: ThreadId, filing: Request, c: Choice): Sys {
    if c == Fault || !HasPending(filing.items) then Goto(s, tid, FileChecked(filing))
    else
      var items := Filing.MarkedItems(s.bao, filing.entity, s.clock, filing.items);
      Goto(s, tid, FileChecked(filing.(items := items)))
  }

  function InsertStep(s: Sys, tid: ThreadId, filing: Request, c: Choice): Sys {
    match if c == Fault then TxFailed else FileTx(s.db, filing)
    case Committed(db) => Goto(s, tid, Done(Success)).(db := db)
    case _ => Goto(s, tid, Done(Failure(StoreFailure)))
  }

  function FileStep(s: Sys, tid: ThreadId, c: Choice): Sys
    requires tid in s.threads && IsFiling(s.threads[tid])
  {
    match s.threads[tid]
    case FileCall(entity, inputs, pendingTTL) => ResolveStep(s, tid, entity, inputs, pendingTTL, c)
    case FileResolved(filing) => CheckStep(s, tid, filing, c)
    case FileChecked(filing) => InsertStep(s, tid, filing, c)
  }

  // ------------------------------------------------------------ deciding, by position

  function AskStep(s: Sys, tid: ThreadId, approver: Approver, requestId: Id, decisions: seq<Decision>, c: Choice): Sys {
    if decisions == [] then Goto(s, tid, Done(Failure(InvalidInput)))
    else if c == Fault then Goto(s, tid, Done(Failure(StoreFailure)))
    else if requestId !in s.db.requests then Goto(s, tid, Done(Failure(NotFound)))
    else
      var entity := s.db.requests[requestId].request.entity;
      if entity == approver.entity then Goto(s, tid, Done(Failure(SelfApproval)))
      else Goto(s, tid, DecideQueued(approver, requestId, decisions, entity))
  }

  function LoadStep(s: Sys, tid: ThreadId, approver: Approver, requestId: Id, decisions: seq<Decision>, entity: string, c: Choice): Sys {
    if c == Fault || requestId !in s.db.requests then Fail(s, tid, entity, StoreFailure)
    else Goto(s, tid, DecideLoaded(approver, decisions, s.db.requests[requestId].request))
  }

  ghost function AfterJudging(s: Sys, tid: ThreadId, b: Batch): Sys {
    if b.grants == [] then Goto(s, tid, DecideReady(b, []))
    else Goto(s, tid, DecideJudged(b)).(approvals := s.approvals + BatchApprovals(b))
  }

  ghost function JudgeStep(s: Sys, tid: ThreadId, approver: Approver, decisions: seq<Decision>, loaded: Request, c: Choice): Sys {
    if !c.Ids? || |c.ids| != |decisions| then Fail(s, tid, loaded.entity, StoreFailure)
    else match Judge(s.policy, approver, s.clock, c.ids, decisions, loaded)
      case Failed(error) => Fail(s, tid, loaded.entity, error)
      case Decided(t) => AfterJudging(s, tid, Batch(s.policy, approver, loaded, t.request, t.grants, s.clock))
  }

  function ListStep(s: Sys, tid: ThreadId, b: Batch, c: Choice): Sys {
    if c.Listing? then Goto(s, tid, DecideListed(b, c.grants)) else Fail(s, tid, b.loaded.entity, StoreFailure)
  }

  function WriteBatchStep(s: Sys, tid: ThreadId, b: Batch, active: seq<Grant>, c: Choice): Sys {
    match WriteSession(s.bao, b.loaded.entity, active + b.grants, s.clock, c)
    case None => Fail(s, tid, b.loaded.entity, BaoFailure)
    case Some(bao) => Wrote(s, tid, DecideWritten(b, active), bao, s.dirty)
  }

  function ReadEntityStep(s: Sys, tid: ThreadId, b: Batch, active: seq<Grant>, c: Choice): Sys {
    var entity := b.loaded.entity;
    if c == Fault || entity !in s.bao.entities then Goto(s, tid, RestoreCall(entity, BaoFailure))
    else if PolicyName(entity) in s.bao.entities[entity] then Goto(s, tid, DecideReady(b, active))
    else Goto(s, tid, DecideEntityRead(b, active, s.bao.entities[entity]))
  }

  function AttachStep(s: Sys, tid: ThreadId, b: Batch, active: seq<Grant>, names: seq<string>, c: Choice): Sys {
    var entity := b.loaded.entity;
    if c == Fault || entity !in s.bao.entities then Goto(s, tid, RestoreCall(entity, BaoFailure))
    else Goto(s, tid, DecideReady(b, active)).(bao := WithEntityPolicies(s.bao, entity, names + [PolicyName(entity)]))
  }

  function Committing(s: Sys, tid: ThreadId, b: Batch, db: Db): Sys {
    Goto(s, tid, Unlocking(b.loaded.entity, Success)).(db := db, dirty := if b.grants == [] then s.dirty else s.dirty - {b.loaded.entity})
  }

  function CommitStep(s: Sys, tid: ThreadId, b: Batch, c: Choice): Sys {
    match if c == Fault then TxFailed else DecideTx(s.db, b.decided, b.grants)
    case Committed(db) => Committing(s, tid, b, db)
    case StatusChanged => AfterFailedCommit(s, tid, b, Conflict)
    case TxFailed => AfterFailedCommit(s, tid, b, StoreFailure)
  }

  function AfterFailedCommit(s: Sys, tid: ThreadId, b: Batch, error: Error): Sys {
    if b.grants == [] then Fail(s, tid, b.loaded.entity, error) else Goto(s, tid, RestoreCall(b.loaded.entity, error))
  }

  /** Deciding, up to the judgement. */
  ghost function AskingStep(s: Sys, tid: ThreadId, c: Choice): Sys
    requires tid in s.threads
  {
    match s.threads[tid]
    case DecideCall(approver, requestId, decisions) => AskStep(s, tid, approver, requestId, decisions, c)
    case DecideQueued(approver, requestId, decisions, entity) =>
      Acquire(s, tid, entity, DecideLocked(approver, requestId, decisions, entity))
    case DecideLocked(approver, requestId, decisions, entity) => LoadStep(s, tid, approver, requestId, decisions, entity, c)
    case DecideLoaded(approver, decisions, loaded) => JudgeStep(s, tid, approver, decisions, loaded, c)
    case _ => s
  }

  /** Installing and storing a judged batch. */
  function InstallStep(s: Sys, tid: ThreadId, c: Choice): Sys
    requires tid in s.threads
  {
    match s.threads[tid]
    case DecideJudged(b) => ListStep(s, tid, b, c)
    case DecideListed(b, active) => WriteBatchStep(s, tid, b, active, c)
    case DecideWritten(b, active) => ReadEntityStep(s, tid, b, active, c)
    case DecideEntityRead(b, active, names) => AttachStep(s, tid, b, active, names, c)
    case DecideReady(b, _) => CommitStep(s, tid, b, c)
    case _ => s
  }

  // ------------------------------------------------------------ revoking and restoring

  function FindStep(s: Sys, tid: ThreadId, approver: Approver, grantId: Id, c: Choice): Sys {
    if c == Fault then Goto(s, tid, Done(Failure(StoreFailure)))
    else if grantId !in s.db.grants then Goto(s, tid, Done(Failure(NotFound)))
    else Goto(s, tid, RevokeQueued(approver, s.db.grants[grantId]))
  }

  function ChooseStep(s: Sys, tid: ThreadId, approver: Approver, grant: Grant, now: int, c: Choice): Sys {
    if !c.Listing? then Fail(s, tid, grant.entity, StoreFailure)
    else if |Remaining(c.grants, grant.id)| == |c.grants| then Fail(s, tid, grant.entity, Conflict)
    else Goto(s, tid, RevokeListed(approver, grant, now, c.grants))
  }

  function WriteRemainingStep(s: Sys, tid: ThreadId, approver: Approver, grant: Grant, now: int, active: seq<Grant>, c: Choice): Sys {
    match WriteSession(s.bao, grant.entity, Remaining(active, grant.id), s.clock, c)
    case None => Fail(s, tid, grant.entity, BaoFailure)
    case Some(bao) => Wrote(s, tid, RevokeWritten(approver, grant, now, active), bao, s.dirty)
  }

  function RecordStep(s: Sys, tid: ThreadId, approver: Approver, grant: Grant, now: int, c: Choice): Sys {
    match if c == Fault then TxFailed else RevokeTx(s.db, grant.id, approver, now)
    case Committed(db) => Goto(s, tid, Unlocking(grant.entity, Success)).(db := db, dirty := s.dirty - {grant.entity})
    case StatusChanged => Goto(s, tid, RestoreCall(grant.entity, Conflict))
    case TxFailed => Goto(s, tid, RestoreCall(grant.entity, StoreFailure))
  }

  function RevokeStep(s: Sys, tid: ThreadId, c: Choice): Sys
    requires tid in s.threads
  {
    match s.threads[tid]
    case RevokeCall(approver, grantId) => FindStep(s, tid, approver, grantId, c)
    case RevokeQueued(approver, grant) => Acquire(s, tid, grant.entity, RevokeLocked(approver, grant))
    case RevokeLocked(approver, grant) => Goto(s, tid, RevokeTimed(approver, grant, s.clock))
    case RevokeTimed(approver, grant, now) => ChooseStep(s, tid, approver, grant, now, c)
    case RevokeListed(approver, grant, now, active) => WriteRemainingStep(s, tid, approver, grant, now, active, c)
    case RevokeWritten(approver, grant, now, _) => RecordStep(s, tid, approver, grant, now, c)
    case _ => s
  }

  function RelistStep(s: Sys, tid: ThreadId, entity: string, error: Error, now: int, c: Choice): Sys {
    if c.Listing? then Goto(s, tid, RestoreListed(entity, error, now, c.grants))
    else Fail(s, tid, entity, error).(dirty := s.dirty + {entity})
  }

  function RewriteStep(s: Sys, tid: ThreadId, entity: string, error: Error, active: seq<Grant>, c: Choice): Sys {
    match WriteSession(s.bao, entity, active, s.clock, c)
    case None => Fail(s, tid, entity, error).(dirty := s.dirty + {entity})
    case Some(bao) => Wrote(s, tid, Unlocking(entity, Failure(error)), bao, s.dirty - {entity})
  }

  function RestoreStep(s: Sys, tid: ThreadId, c: Choice): Sys
    requires tid in s.threads
  {
    match s.threads[tid]
    case RestoreCall(entity, error) => Goto(s, tid, RestoreTimed(entity, error, s.clock))
    case RestoreTimed(entity, error, now) => RelistStep(s, tid, entity, error, now, c)
    case RestoreListed(entity, error, _, active) => RewriteStep(s, tid, entity, error, active, c)
    case Unlocking(entity, outcome) => Release(s, tid, entity, outcome)
    case _ => s
  }

  /** The listing a query returns, and the freshness of the random item IDs of a new request. */
  ghost predicate StepEnabled(s: Sys, tid: ThreadId, c: Choice) {
    tid in s.threads &&
    match s.threads[tid]
    case DecideQueued(_, _, _, entity) => entity !in s.locks
    case RevokeQueued(_, grant) => grant.entity !in s.locks
    case DecideJudged(b) => c.Listing? ==> Lists(s.db, b.loaded.entity, b.now, c.grants)
    case RevokeTimed(_, grant, now) => c.Listing? ==> Lists(s.db, grant.entity, now, c.grants)
    case RestoreTimed(entity, _, now) => c.Listing? ==> Lists(s.db, entity, now, c.grants)
    case FileChecked(filing) => FreshItems(s.db, filing)
    case Done(_) => false
    case _ => true
  }

  function ItemIds(r: Request): set<Id> {
    set item | item in r.items :: item.id
  }

  ghost predicate DistinctIds(r: Request) {
    forall i, j :: 0 <= i < j < |r.items| ==> r.items[i].id != r.items[j].id
  }

  /** IDs are random: those of a new request collide neither with each other nor with stored ones. */
  ghost predicate FreshItems(db: Db, r: Request) {
    DistinctIds(r) && forall id :: id in db.requests ==> ItemIds(db.requests[id].request) !! ItemIds(r)
  }

  predicate IsFiling(th: Thread) {
    th.FileCall? || th.FileResolved? || th.FileChecked?
  }

  predicate IsRestoring(th: Thread) {
    th.RestoreCall? || th.RestoreTimed? || th.RestoreListed? || th.Unlocking?
  }

  predicate IsRevoking(th: Thread) {
    th.RevokeCall? || th.RevokeQueued? || th.RevokeLocked? || th.RevokeTimed? || th.RevokeListed? || th.RevokeWritten?
  }

  predicate IsInstalling(th: Thread) {
    th.DecideJudged? || th.DecideListed? || th.DecideWritten? || th.DecideEntityRead? || th.DecideReady?
  }

  ghost function StepThread(s: Sys, tid: ThreadId, c: Choice): Sys
    requires tid in s.threads
  {
    var th := s.threads[tid];
    if IsFiling(th) then FileStep(s, tid, c)
    else if IsRestoring(th) then RestoreStep(s, tid, c)
    else if IsRevoking(th) then RevokeStep(s, tid, c)
    else if IsInstalling(th) then InstallStep(s, tid, c)
    else AskingStep(s, tid, c)
  }

  /** The calls a thread begins with; a Requester always has an entity. */
  predicate StartsCall(call: Thread) {
    (call.FileCall? && call.entity != "") || call.DecideCall? || call.RevokeCall?
  }

  ghost predicate Enabled(s: Sys, l: Label) {
    match l
    case Step(tid, c) => StepEnabled(s, tid, c)
    case Start(tid, call) => tid !in s.threads && StartsCall(call)
    case Sweep(now) => now <= s.clock
    case Tick(_) => true
    case Reconfigure(policy) => ValidPolicy(policy)
  }

  ghost function Next(s: Sys, l: Label): Sys
    requires Enabled(s, l)
  {
    match l
    case Step(tid, c) => StepThread(s, tid, c)
    case Start(tid, call) => Goto(s, tid, call)
    case Sweep(now) => s.(db := ExpireTx(s.db, now))
    case Tick(elapsed) => s.(clock := s.clock + elapsed)
    case Reconfigure(policy) => s.(policy := policy)
  }

  // -------------------------------------------------------------------- the runs

  ghost predicate IsRun(s: Sys, labels: seq<Label>)
    decreases |labels|, 0
  {
    labels == [] || (IsRun(s, labels[..|labels| - 1]) && Enabled(After(s, labels[..|labels| - 1]), labels[|labels| - 1]))
  }

  ghost function After(s: Sys, labels: seq<Label>): Sys
    requires IsRun(s, labels)
    decreases |labels|, 1
  {
    if labels == [] then s else Next(After(s, labels[..|labels| - 1]), labels[|labels| - 1])
  }

  /** An empty database, no session policies, nobody calling; entities carry any policies. */
  ghost predicate Init(s: Sys) {
    && s.db == Db(map[], map[])
    && (forall name :: name in s.bao.policies ==> !(POLICY_PREFIX <= name))
    && s.clock >= MILLISECOND
    && ValidPolicy(s.policy)
    && s.locks == map[] && s.threads == map[] && s.approvals == {} && s.dirty == {}
  }
}
