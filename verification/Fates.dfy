// How a call ends when nothing goes wrong around it: the outcome and what is stored follow
// from the call and the state it began in.
module Fates {
  import opened Calm
  import opened Decisions
  import opened Integrity
  import opened Invariants
  import opened OpenBao
  import opened Options
  import opened Protocol
  import opened Rules
  import opened Store
  import opened Time
  import opened Traces
  import Filing
  import Judgements

  ghost predicate Distinct(ids: seq<Id>) {
    forall i, j :: 0 <= i < j < |ids| ==> ids[i] != ids[j]
  }

  /** The IDs drawn for grants are distinct and not in use. */
  ghost predicate FreshGrantIds(grants: map<Id, Grant>, ids: seq<Id>) {
    Distinct(ids) && forall k :: 0 <= k < |ids| ==> ids[k] !in grants
  }

  // --------------------------------------------------------------- a decision

  /** The call reaches the session lock: something is decided, and the request is another entity's. */
  predicate Reaches(db: Db, approver: Approver, rid: Id, ds: seq<Decision>) {
    ds != [] && rid in db.requests && db.requests[rid].request.entity != approver.entity
  }

  /** OpenBao knows the request's entity. */
  predicate Known(s: Sys, rid: Id) {
    rid in s.db.requests && s.db.requests[rid].request.entity in s.bao.entities
  }

  /** How the call ends, given the verdict on its batch. */
  predicate Ended(s: Sys, approver: Approver, rid: Id, ds: seq<Decision>, v: Verdict, db': Db, outcome: Outcome) {
    match outcome
    case Success =>
      && Reaches(s.db, approver, rid, ds) && v.Decided? && (v.tally.grants == [] || Known(s, rid))
      && DecideTx(s.db, v.tally.request, v.tally.grants) == Committed(db')
    case Failure(error) =>
      db' == s.db &&
      if ds == [] then error == InvalidInput
      else if rid !in s.db.requests then error == NotFound
      else if s.db.requests[rid].request.entity == approver.entity then error == SelfApproval
      else if v.Failed? then v.error == error
      else if v.tally.grants != [] && !Known(s, rid) then error == BaoFailure
      else error == StoreFailure && DecideTx(s.db, v.tally.request, v.tally.grants).TxFailed?
  }

  /** The batch a verdict sends on. */
  predicate BatchOf(s: Sys, approver: Approver, rid: Id, v: Verdict, b: Batch) {
    && v.Decided? && rid in s.db.requests
    && b == Batch(s.policy, approver, s.db.requests[rid].request, v.tally.request, v.tally.grants, s.clock)
  }

  /** The call is where it should be on its way from s to its end. */
  ghost predicate OnCourse(s: Sys, s': Sys, tid: ThreadId, approver: Approver, rid: Id, ds: seq<Decision>, v: Verdict) {
    && s'.clock == s.clock && s'.policy == s.policy && tid in s'.threads
    && s'.bao.entities.Keys == s.bao.entities.Keys
    && match s'.threads[tid]
       case DecideCall(a, r, decisions) => s'.db == s.db && a == approver && r == rid && decisions == ds
       case DecideQueued(a, r, decisions, entity) =>
         s'.db == s.db && a == approver && r == rid && decisions == ds && Reaches(s.db, approver, rid, ds) && entity == s.db.requests[rid].request.entity
       case DecideLocked(a, r, decisions, entity) =>
         s'.db == s.db && a == approver && r == rid && decisions == ds && Reaches(s.db, approver, rid, ds) && entity == s.db.requests[rid].request.entity
       case DecideLoaded(a, decisions, loaded) =>
         s'.db == s.db && a == approver && decisions == ds && Reaches(s.db, approver, rid, ds) && loaded == s.db.requests[rid].request
       case DecideJudged(b) => s'.db == s.db && Reaches(s.db, approver, rid, ds) && BatchOf(s, approver, rid, v, b) && b.grants != []
       case DecideListed(b, _) => s'.db == s.db && Reaches(s.db, approver, rid, ds) && BatchOf(s, approver, rid, v, b) && b.grants != []
       case DecideWritten(b, _) => s'.db == s.db && Reaches(s.db, approver, rid, ds) && BatchOf(s, approver, rid, v, b) && b.grants != []
       case DecideEntityRead(b, _, _) => s'.db == s.db && Reaches(s.db, approver, rid, ds) && BatchOf(s, approver, rid, v, b) && Known(s, rid)
       case DecideReady(b, _) =>
         s'.db == s.db && Reaches(s.db, approver, rid, ds) && BatchOf(s, approver, rid, v, b) && (b.grants != [] ==> Known(s, rid))
       case RestoreCall(_, error) => Ended(s, approver, rid, ds, v, s'.db, Failure(error))
       case RestoreTimed(_, error, _) => Ended(s, approver, rid, ds, v, s'.db, Failure(error))
       case RestoreListed(_, error, _, _) => Ended(s, approver, rid, ds, v, s'.db, Failure(error))
       case Unlocking(_, outcome) => Ended(s, approver, rid, ds, v, s'.db, outcome)
       case Done(outcome) => Ended(s, approver, rid, ds, v, s'.db, outcome)
       case _ => false
  }

  /** What the verdict of a call that reaches the lock must be for its batch to be installed and stored. */
  ghost predicate Fitting(s: Sys, approver: Approver, rid: Id, ds: seq<Decision>, ids: seq<Id>, v: Verdict)
    requires |ids| == |ds|
  {
    Reaches(s.db, approver, rid, ds) ==>
      && v == Judge(s.policy, approver, s.clock, ids, ds, s.db.requests[rid].request)
      && Storable(s, v)
  }

  ghost predicate Storable(s: Sys, v: Verdict) {
    v.Decided? ==> !DecideTx(s.db, v.tally.request, v.tally.grants).StatusChanged? && forall g :: g in v.tally.grants ==> s.clock < g.expiresAt
  }

  lemma {:induction false} AskCourse(s: Sys, s': Sys, tid: ThreadId, approver: Approver, rid: Id, ds: seq<Decision>, v: Verdict)
    requires OnCourse(s, s', tid, approver, rid, ds, v) && s'.threads[tid] == DecideCall(approver, rid, ds)
    ensures OnCourse(s, AskStep(s', tid, approver, rid, ds, Ok), tid, approver, rid, ds, v)
  {
  }

  lemma {:induction false} LoadCourse(s: Sys, s': Sys, tid: ThreadId, approver: Approver, rid: Id, ds: seq<Decision>, v: Verdict, entity: string)
    requires OnCourse(s, s', tid, approver, rid, ds, v) && s'.threads[tid] == DecideLocked(approver, rid, ds, entity)
    ensures OnCourse(s, LoadStep(s', tid, approver, rid, ds, entity, Ok), tid, approver, rid, ds, v)
  {
  }

  lemma {:induction false} JudgeCourse(s: Sys, s': Sys, tid: ThreadId, approver: Approver, rid: Id, ds: seq<Decision>, v: Verdict, ids: seq<Id>)
    requires |ids| == |ds| && Reaches(s.db, approver, rid, ds)
    requires OnCourse(s, s', tid, approver, rid, ds, v) && s'.threads[tid] == DecideLoaded(approver, ds, s.db.requests[rid].request)
    requires v == Judge(s.policy, approver, s.clock, ids, ds, s.db.requests[rid].request)
    ensures OnCourse(s, JudgeStep(s', tid, approver, ds, s.db.requests[rid].request, Ids(ids)), tid, approver, rid, ds, v)
  {
    var loaded := s.db.requests[rid].request;
    if v.Decided? {
      var b := Batch(s.policy, approver, loaded, v.tally.request, v.tally.grants, s.clock);
      assert JudgeStep(s', tid, approver, ds, loaded, Ids(ids)) == AfterJudging(s', tid, b);
    }
  }

  lemma {:induction false} ListCourse(s: Sys, s': Sys, tid: ThreadId, approver: Approver, rid: Id, ds: seq<Decision>, v: Verdict, b: Batch, c: Choice)
    requires OnCourse(s, s', tid, approver, rid, ds, v) && s'.threads[tid] == DecideJudged(b) && c.Listing?
    ensures OnCourse(s, ListStep(s', tid, b, c), tid, approver, rid, ds, v)
  {
  }

  lemma {:induction false} WriteCourse(s: Sys, s': Sys, tid: ThreadId, approver: Approver, rid: Id, ds: seq<Decision>, v: Verdict, b: Batch, active: seq<Grant>)
    requires OnCourse(s, s', tid, approver, rid, ds, v) && s'.threads[tid] == DecideListed(b, active) && Storable(s, v)
    ensures OnCourse(s, WriteBatchStep(s', tid, b, active, Ok), tid, approver, rid, ds, v)
  {
    var all := active + b.grants;
    assert all[|active|] == b.grants[0] && b.grants[0] in all;
    WriteSucceeds(s'.bao, b.loaded.entity, all, s'.clock);
  }

  lemma {:induction false} ReadCourse(s: Sys, s': Sys, tid: ThreadId, approver: Approver, rid: Id, ds: seq<Decision>, v: Verdict, b: Batch, active: seq<Grant>)
    requires OnCourse(s, s', tid, approver, rid, ds, v) && s'.threads[tid] == DecideWritten(b, active)
    ensures OnCourse(s, ReadEntityStep(s', tid, b, active, Ok), tid, approver, rid, ds, v)
  {
  }

  lemma {:induction false} AttachCourse(s: Sys, s': Sys, tid: ThreadId, approver: Approver, rid: Id, ds: seq<Decision>, v: Verdict, b: Batch, active: seq<Grant>, names: seq<string>)
    requires OnCourse(s, s', tid, approver, rid, ds, v) && s'.threads[tid] == DecideEntityRead(b, active, names)
    ensures OnCourse(s, AttachStep(s', tid, b, active, names, Ok), tid, approver, rid, ds, v)
  {
  }

  lemma {:induction false} CommitCourse(s: Sys, s': Sys, tid: ThreadId, approver: Approver, rid: Id, ds: seq<Decision>, v: Verdict, b: Batch, active: seq<Grant>)
    requires OnCourse(s, s', tid, approver, rid, ds, v) && s'.threads[tid] == DecideReady(b, active) && Storable(s, v)
    ensures OnCourse(s, CommitStep(s', tid, b, Ok), tid, approver, rid, ds, v)
  {
  }

  // A calm step of the call keeps it on course.
  lemma {:induction false} AskingCourse(s: Sys, s': Sys, tid: ThreadId, approver: Approver, rid: Id, ds: seq<Decision>, v: Verdict, ids: seq<Id>, c: Choice)
    requires |ids| == |ds| && Fitting(s, approver, rid, ds, ids, v) && OnCourse(s, s', tid, approver, rid, ds, v)
    requires StepEnabled(s', tid, c) && CalmChoice(s'.threads[tid], c, ids)
    requires !IsFiling(s'.threads[tid]) && !IsRestoring(s'.threads[tid]) && !IsRevoking(s'.threads[tid]) && !IsInstalling(s'.threads[tid])
    ensures OnCourse(s, AskingStep(s', tid, c), tid, approver, rid, ds, v)
  {
    match s'.threads[tid]
    case DecideCall(_, _, _) => AskCourse(s, s', tid, approver, rid, ds, v);
    case DecideQueued(_, _, _, entity) =>
    case DecideLocked(_, _, _, entity) => LoadCourse(s, s', tid, approver, rid, ds, v, entity);
    case DecideLoaded(_, _, loaded) => JudgeCourse(s, s', tid, approver, rid, ds, v, ids);
    case _ =>
  }

  lemma {:induction false} InstallCourse(s: Sys, s': Sys, tid: ThreadId, approver: Approver, rid: Id, ds: seq<Decision>, v: Verdict, c: Choice)
    requires Storable(s, v) && OnCourse(s, s', tid, approver, rid, ds, v) && IsInstalling(s'.threads[tid])
    requires CalmChoice(s'.threads[tid], c, [])
    ensures OnCourse(s, InstallStep(s', tid, c), tid, approver, rid, ds, v)
  {
    match s'.threads[tid]
    case DecideJudged(b) => ListCourse(s, s', tid, approver, rid, ds, v, b, c);
    case DecideListed(b, active) => WriteCourse(s, s', tid, approver, rid, ds, v, b, active);
    case DecideWritten(b, active) => ReadCourse(s, s', tid, approver, rid, ds, v, b, active);
    case DecideEntityRead(b, active, names) => AttachCourse(s, s', tid, approver, rid, ds, v, b, active, names);
    case DecideReady(b, active) => CommitCourse(s, s', tid, approver, rid, ds, v, b, active);
    case _ =>
  }

  lemma {:induction false} RestoreCourse(s: Sys, s': Sys, tid: ThreadId, approver: Approver, rid: Id, ds: seq<Decision>, v: Verdict, c: Choice)
    requires OnCourse(s, s', tid, approver, rid, ds, v) && IsRestoring(s'.threads[tid])
    ensures OnCourse(s, RestoreStep(s', tid, c), tid, approver, rid, ds, v)
  {
    if s'.threads[tid].RestoreListed? {
      RewriteCourse(s'.bao, s'.threads[tid].entity, s'.threads[tid].active, s'.clock, c);
    }
  }

  lemma {:induction false} RewriteCourse(bao: Bao, entity: string, gs: seq<Grant>, now: int, c: Choice)
    ensures WriteSession(bao, entity, gs, now, c).Some? ==> WriteSession(bao, entity, gs, now, c).value.entities == bao.entities
  {
  }

  lemma {:induction false} StepCourse(s: Sys, s': Sys, tid: ThreadId, approver: Approver, rid: Id, ds: seq<Decision>, v: Verdict, ids: seq<Id>, c: Choice)
    requires |ids| == |ds| && Fitting(s, approver, rid, ds, ids, v) && OnCourse(s, s', tid, approver, rid, ds, v)
    requires StepEnabled(s', tid, c) && CalmChoice(s'.threads[tid], c, ids)
    ensures OnCourse(s, StepThread(s', tid, c), tid, approver, rid, ds, v)
  {
    var th := s'.threads[tid];
    if IsInstalling(th) {
      InstallCourse(s, s', tid, approver, rid, ds, v, c);
    } else if IsRestoring(th) {
      RestoreCourse(s, s', tid, approver, rid, ds, v, c);
    } else {
      AskingCourse(s, s', tid, approver, rid, ds, v, ids, c);
    }
  }

  lemma {:induction false} LabelCourse(s: Sys, s': Sys, l: Label, next: Sys, tid: ThreadId, approver: Approver, rid: Id, ds: seq<Decision>, v: Verdict, ids: seq<Id>)
    requires |ids| == |ds| && Fitting(s, approver, rid, ds, ids, v) && OnCourse(s, s', tid, approver, rid, ds, v)
    requires Leads(s', l, next) && CalmLabel(s', l, tid, ids)
    ensures OnCourse(s, next, tid, approver, rid, ds, v)
  {
    if l.Step? {
      StepCourse(s, s', tid, approver, rid, ds, v, ids, l.choice);
    }
  }

  // Along calm steps the call stays on course.
  lemma {:induction false} ChainCourse(states: seq<Sys>, labels: seq<Label>, n: nat, m: nat, tid: ThreadId, approver: Approver, rid: Id, ds: seq<Decision>, v: Verdict, ids: seq<Id>)
    requires CalmFrom(states, labels, n, tid, ids) && n <= m <= |labels|
    requires |ids| == |ds| && Fitting(states[n], approver, rid, ds, ids, v) && OnCourse(states[n], states[n], tid, approver, rid, ds, v)
    ensures OnCourse(states[n], states[m], tid, approver, rid, ds, v)
    decreases m - n
  {
    if n < m {
      ChainCourse(states, labels, n, m - 1, tid, approver, rid, ds, v, ids);
      assert StepAt(states, labels, m - 1);
      LabelCourse(states[n], states[m - 1], labels[m - 1], states[m], tid, approver, rid, ds, v, ids);
    }
  }

  // ------------------------------------------------------ the verdict of a call

  // The batch of an accepted verdict can be written, and the request has something pending.
  lemma {:induction false} VerdictStorable(s: Sys, approver: Approver, rid: Id, ds: seq<Decision>, ids: seq<Id>, v: Verdict)
    requires DbInv(s.db) && ValidPolicy(s.policy) && |ids| == |ds|
    requires Reaches(s.db, approver, rid, ds) && v == Judge(s.policy, approver, s.clock, ids, ds, s.db.requests[rid].request)
    ensures Storable(s, v)
  {
    if v.Decided? {
      var loaded := s.db.requests[rid].request;
      assert RowOk(s.db.grants, rid, s.db.requests[rid]);
      LoadedLifetimes(s.db, rid);
      JudgeProgress(s.policy, approver, s.clock, ids, ds, loaded);
      DecideExact(s.db, v.tally.request, v.tally.grants);
    }
  }

  lemma {:induction false} LoadedLifetimes(db: Db, rid: Id)
    requires DbInv(db) && rid in db.requests
    ensures LifetimesPositive(db.requests[rid].request.items)
  {
    var row := db.requests[rid];
    assert RowOk(db.grants, rid, row);
    forall i | 0 <= i < |row.request.items| && row.request.items[i].state == Pending ensures row.request.items[i].ttl >= SECOND {
      assert ItemOk(db.grants, row.request, row.request.items[i]);
    }
  }

  // --------------------------------------------------------------- how a decision ends

  /**
    * The outcome of a decision and what it stores: nothing to decide, no such request and
    * one's own request are refused; then either every decision can be applied and the batch
    * is, or the first one that cannot be gives the error and nothing is stored.
    */
  ghost predicate DecideFate(db: Db, bao: Bao, p: Policy, now: int, approver: Approver, rid: Id, ds: seq<Decision>, ids: seq<Id>, db': Db, outcome: Outcome)
    requires |ids| == |ds|
  {
    if ds == [] then outcome == Failure(InvalidInput) && db' == db
    else if rid !in db.requests then outcome == Failure(NotFound) && db' == db
    else if db.requests[rid].request.entity == approver.entity then outcome == Failure(SelfApproval) && db' == db
    else
      var loaded, rs := db.requests[rid].request, Judgements.Standings(p, db.requests[rid].request.items);
      if Judgements.AllFine(now, loaded, rs, ds, |ds|) then
        exists items, gs :: Judgements.BatchDecided(approver, now, ids, ds, loaded, rs, items, gs) && BatchFate(db, bao, loaded, items, gs, db', outcome)
      else
        outcome.Failure? && db' == db && exists k: nat :: Judgements.AtFault(now, loaded, rs, ds, k, outcome.error)
  }

  /** An accepted batch is stored, unless it grants something to an entity OpenBao does not know, or an ID is in use. */
  ghost predicate BatchFate(db: Db, bao: Bao, loaded: Request, items: seq<Item>, gs: seq<Grant>, db': Db, outcome: Outcome) {
    if gs != [] && loaded.entity !in bao.entities then outcome == Failure(BaoFailure) && db' == db
    else if !Unused(db.grants, gs) then outcome == Failure(StoreFailure) && db' == db
    else outcome == Success && BatchStored(db, db', loaded.(items := items), gs)
  }

  // The end of the call in terms of its verdict, and in its own terms.
  lemma {:induction false} EndedExact(s: Sys, approver: Approver, rid: Id, ds: seq<Decision>, ids: seq<Id>, v: Verdict, db': Db, outcome: Outcome)
    requires |ids| == |ds| && Ended(s, approver, rid, ds, v, db', outcome)
    requires Reaches(s.db, approver, rid, ds) ==>
               && s.db.requests[rid].request.id == rid
               && Judgements.Explained(approver, s.clock, ids, ds, s.db.requests[rid].request, Judgements.Standings(s.policy, s.db.requests[rid].request.items), v)
               && Storable(s, v)
    ensures DecideFate(s.db, s.bao, s.policy, s.clock, approver, rid, ds, ids, db', outcome)
  {
    if Reaches(s.db, approver, rid, ds) {
      var loaded, rs := s.db.requests[rid].request, Judgements.Standings(s.policy, s.db.requests[rid].request.items);
      if v.Decided? {
        DecideExact(s.db, v.tally.request, v.tally.grants);
        assert BatchFate(s.db, s.bao, loaded, v.tally.request.items, v.tally.grants, db', outcome);
      } else {
        NotAllFine(approver, s.clock, ids, ds, loaded, rs, v);
      }
    }
  }

  lemma {:induction false} NotAllFine(approver: Approver, now: int, ids: seq<Id>, ds: seq<Decision>, orig: Request, rs: seq<Resolution>, v: Verdict)
    requires |ids| == |ds| && |rs| == |orig.items| && v.Failed? && Judgements.Explained(approver, now, ids, ds, orig, rs, v)
    ensures !Judgements.AllFine(now, orig, rs, ds, |ds|)
  {
    var k: nat :| Judgements.AtFault(now, orig, rs, ds, k, v.error);
  }

  // The verdict of the call, its batch storable and its meaning known.
  lemma {:induction false} CallVerdict(s: Sys, approver: Approver, rid: Id, ds: seq<Decision>, ids: seq<Id>) returns (v: Verdict)
    requires Inv(s) && ValidPolicy(s.policy) && |ids| == |ds|
    ensures Fitting(s, approver, rid, ds, ids, v)
    ensures Reaches(s.db, approver, rid, ds) ==>
              && s.db.requests[rid].request.id == rid
              && Judgements.Explained(approver, s.clock, ids, ds, s.db.requests[rid].request, Judgements.Standings(s.policy, s.db.requests[rid].request.items), v)
  {
    v := Failed(InvalidInput);
    if Reaches(s.db, approver, rid, ds) {
      var loaded := s.db.requests[rid].request;
      v := Judge(s.policy, approver, s.clock, ids, ds, loaded);
      assert RowOk(s.db.grants, rid, s.db.requests[rid]);
      VerdictStorable(s, approver, rid, ds, ids, v);
      Judgements.JudgementExact(s.policy, approver, s.clock, ids, ds, loaded);
    }
  }

  /**
    * A decision around which nothing fails ends as the request, the decisions and the rules
    * have it: with every decision applied, or with the error that was the first's.
    */
  lemma {:induction false} DecideEnds(states: seq<Sys>, labels: seq<Label>, n: nat, tid: ThreadId, approver: Approver, rid: Id, ds: seq<Decision>, ids: seq<Id>)
    requires CalmFrom(states, labels, n, tid, ids) && |ids| == |ds|
    requires Inv(states[n]) && ValidPolicy(states[n].policy)
    requires tid in states[n].threads && states[n].threads[tid] == DecideCall(approver, rid, ds)
    requires tid in states[|labels|].threads && states[|labels|].threads[tid].Done?
    ensures var s, s' := states[n], states[|labels|];
            DecideFate(s.db, s.bao, s.policy, s.clock, approver, rid, ds, ids, s'.db, s'.threads[tid].outcome)
  {
    var s, s' := states[n], states[|labels|];
    var v := CallVerdict(s, approver, rid, ds, ids);
    ChainCourse(states, labels, n, |labels|, tid, approver, rid, ds, v, ids);
    EndedExact(s, approver, rid, ds, ids, v, s'.db, s'.threads[tid].outcome);
  }

  // Grants of pending items under fresh IDs are unused.
  lemma {:induction false} FreshUnused(db: Db, now: int, approver: Approver, rid: Id, ds: seq<Decision>, ids: seq<Id>, rs: seq<Resolution>, items: seq<Item>, gs: seq<Grant>)
    requires DbInv(db) && rid in db.requests && |ids| == |ds| && FreshGrantIds(db.grants, ids)
    requires var loaded := db.requests[rid].request;
             && |rs| == |loaded.items| && Judgements.AllFine(now, loaded, rs, ds, |ds|)
             && Judgements.BatchDecided(approver, now, ids, ds, loaded, rs, items, gs)
    ensures Unused(db.grants, gs)
  {
    var loaded := db.requests[rid].request;
    forall i | 0 <= i < |gs| ensures gs[i].id !in db.grants && forall id :: id in db.grants ==> db.grants[id].itemId != gs[i].itemId {
      assert gs[i] in gs;
      var k, j := MadeBy(db, now, approver, rid, ds, ids, rs, gs[i]);
    }
    forall i, j | 0 <= i < j < |gs| ensures gs[i].id != gs[j].id {
      assert gs[i] in gs && gs[j] in gs;
      var k, x := MadeBy(db, now, approver, rid, ds, ids, rs, gs[i]);
      var l, y := MadeBy(db, now, approver, rid, ds, ids, rs, gs[j]);
      assert ds[k].itemId != ds[l].itemId;
    }
  }

  // The decision a grant comes from, and the pending item it names.
  lemma {:induction false} MadeBy(db: Db, now: int, approver: Approver, rid: Id, ds: seq<Decision>, ids: seq<Id>, rs: seq<Resolution>, g: Grant) returns (k: nat, i: nat)
    requires DbInv(db) && rid in db.requests && |ids| == |ds|
    requires var loaded := db.requests[rid].request;
             && |rs| == |loaded.items| && Judgements.AllFine(now, loaded, rs, ds, |ds|)
             && Judgements.Made(approver, now, ids, ds, loaded, rs, |ds|, g)
    ensures k < |ds| && g.id == ids[k] && g.itemId == ds[k].itemId
    ensures forall id :: id in db.grants ==> db.grants[id].itemId != g.itemId
  {
    var loaded := db.requests[rid].request;
    k, i :| k < |ds| && Judgements.Names(ds, k, loaded.items, i)
            && Judgements.GrantMade(rs[i], approver, now, loaded, ids[k], ds[k], loaded.items[i], g);
    assert Judgements.Fine(now, loaded, rs, ds, k);
    var j: nat :| Judgements.Names(ds, k, loaded.items, j) && Judgements.Fits(now, loaded.pendingUntil, ds[k], loaded.items[j], rs[j]);
    ItemsMirrorGrants(db, rid, j);
  }

  /**
    * With fresh IDs and a known entity a decision of another entity's request ends in
    * success exactly when every decision can be applied.
    */
  lemma {:induction false} DecideSucceeds(db: Db, bao: Bao, p: Policy, now: int, approver: Approver, rid: Id, ds: seq<Decision>, ids: seq<Id>, db': Db, outcome: Outcome)
    requires |ids| == |ds| && DecideFate(db, bao, p, now, approver, rid, ds, ids, db', outcome) && DbInv(db)
    requires Reaches(db, approver, rid, ds) && db.requests[rid].request.entity in bao.entities && FreshGrantIds(db.grants, ids)
    ensures var loaded := db.requests[rid].request;
            outcome.Success? <==> Judgements.AllFine(now, loaded, Judgements.Standings(p, loaded.items), ds, |ds|)
  {
    var loaded, rs := db.requests[rid].request, Judgements.Standings(p, db.requests[rid].request.items);
    if Judgements.AllFine(now, loaded, rs, ds, |ds|) {
      var items, gs :| Judgements.BatchDecided(approver, now, ids, ds, loaded, rs, items, gs) && BatchFate(db, bao, loaded, items, gs, db', outcome);
      FreshUnused(db, now, approver, rid, ds, ids, rs, items, gs);
    }
  }

  // ------------------------------------------------------------- how a revocation ends

  /** Unknown grants and those no longer active are refused; any other is revoked. */
  ghost predicate RevokeFate(db: Db, now: int, approver: Approver, grantId: Id, db': Db, outcome: Outcome) {
    if grantId !in db.grants then outcome == Failure(NotFound) && db' == db
    else if db.grants[grantId].revokedAt != 0 || UnixMilli(db.grants[grantId].expiresAt) <= UnixMilli(now) then outcome == Failure(Conflict) && db' == db
    else outcome == Success && GrantRevoked(db, db', grantId, approver, now)
  }

  /** The grant being revoked is the stored one, with its request. */
  predicate Stored(db: Db, grantId: Id, grant: Grant) {
    grantId in db.grants && db.grants[grantId] == grant && grant.id == grantId && grant.requestId in db.requests
  }

  /** The revocation is where it should be on its way from s to its end. */
  ghost predicate Revoking(s: Sys, s': Sys, tid: ThreadId, approver: Approver, grantId: Id) {
    && s'.clock == s.clock && tid in s'.threads
    && match s'.threads[tid]
       case RevokeCall(a, id) => s'.db == s.db && a == approver && id == grantId
       case RevokeQueued(a, grant) => s'.db == s.db && a == approver && Stored(s.db, grantId, grant)
       case RevokeLocked(a, grant) => s'.db == s.db && a == approver && Stored(s.db, grantId, grant)
       case RevokeTimed(a, grant, now) => s'.db == s.db && a == approver && now == s.clock && Stored(s.db, grantId, grant)
       case RevokeListed(a, grant, now, active) =>
         && s'.db == s.db && a == approver && now == s.clock && Stored(s.db, grantId, grant) && Active(grant, s.clock)
         && Lists(s.db, grant.entity, now, active)
       case RevokeWritten(a, grant, now, _) => s'.db == s.db && a == approver && now == s.clock && Stored(s.db, grantId, grant) && Active(grant, s.clock)
       case Unlocking(_, outcome) => RevokeFate(s.db, s.clock, approver, grantId, s'.db, outcome)
       case Done(outcome) => RevokeFate(s.db, s.clock, approver, grantId, s'.db, outcome)
       case _ => false
  }

  lemma {:induction false} ChooseFate(s: Sys, s': Sys, tid: ThreadId, approver: Approver, grantId: Id, grant: Grant, c: Choice)
    requires Revoking(s, s', tid, approver, grantId) && s'.threads[tid] == RevokeTimed(approver, grant, s.clock)
    requires c.Listing? && Lists(s'.db, grant.entity, s.clock, c.grants)
    ensures Revoking(s, ChooseStep(s', tid, approver, grant, s.clock, c), tid, approver, grantId)
  {
    RemainingExact(c.grants, grantId);
    forall g | g in c.grants && g.id == grantId ensures Active(grant, s.clock) {
      assert s.db.grants[g.id] == g;
    }
    assert ActiveFor(grant, grant.entity, s.clock) ==> grant in c.grants;
  }

  lemma {:induction false} RemoveFate(s: Sys, s': Sys, tid: ThreadId, approver: Approver, grantId: Id, grant: Grant, active: seq<Grant>)
    requires Revoking(s, s', tid, approver, grantId) && s'.threads[tid] == RevokeListed(approver, grant, s.clock, active)
    ensures Revoking(s, WriteRemainingStep(s', tid, approver, grant, s.clock, active, Ok), tid, approver, grantId)
  {
    var left := Remaining(active, grantId);
    RemainingExact(active, grantId);
    ListedUnexpired(s.db, grant.entity, s.clock, active);
    if left != [] {
      assert left[0] in left && left[0] in active;
    }
    WriteSucceeds(s'.bao, grant.entity, left, s.clock);
  }

  lemma {:induction false} RecordFate(s: Sys, s': Sys, tid: ThreadId, approver: Approver, grantId: Id, grant: Grant, active: seq<Grant>)
    requires Revoking(s, s', tid, approver, grantId) && s'.threads[tid] == RevokeWritten(approver, grant, s.clock, active)
    ensures Revoking(s, RecordStep(s', tid, approver, grant, s.clock, Ok), tid, approver, grantId)
  {
    RevokeExact(s.db, grantId, approver, s.clock);
  }

  lemma {:induction false} FindFate(s: Sys, s': Sys, tid: ThreadId, approver: Approver, grantId: Id)
    requires Revoking(s, s', tid, approver, grantId) && s'.threads[tid] == RevokeCall(approver, grantId)
    requires grantId in s.db.grants ==> Stored(s.db, grantId, s.db.grants[grantId])
    ensures Revoking(s, FindStep(s', tid, approver, grantId, Ok), tid, approver, grantId)
  {
  }

  lemma {:induction false} RevokeStepFate(s: Sys, s': Sys, tid: ThreadId, approver: Approver, grantId: Id, c: Choice, drawn: seq<Id>)
    requires Revoking(s, s', tid, approver, grantId) && IsRevoking(s'.threads[tid])
    requires grantId in s.db.grants ==> Stored(s.db, grantId, s.db.grants[grantId])
    requires StepEnabled(s', tid, c) && CalmChoice(s'.threads[tid], c, drawn)
    ensures Revoking(s, RevokeStep(s', tid, c), tid, approver, grantId)
  {
    match s'.threads[tid]
    case RevokeCall(_, _) => FindFate(s, s', tid, approver, grantId);
    case RevokeTimed(_, grant, _) => ChooseFate(s, s', tid, approver, grantId, grant, c);
    case RevokeListed(_, grant, _, active) => RemoveFate(s, s', tid, approver, grantId, grant, active);
    case RevokeWritten(_, grant, _, active) => RecordFate(s, s', tid, approver, grantId, grant, active);
    case _ =>
  }

  lemma {:induction false} RevokeLabelFate(s: Sys, s': Sys, l: Label, next: Sys, tid: ThreadId, approver: Approver, grantId: Id, drawn: seq<Id>)
    requires Revoking(s, s', tid, approver, grantId)
    requires grantId in s.db.grants ==> Stored(s.db, grantId, s.db.grants[grantId])
    requires Leads(s', l, next) && CalmLabel(s', l, tid, drawn)
    ensures Revoking(s, next, tid, approver, grantId)
  {
    if l.Step? && IsRevoking(s'.threads[tid]) {
      RevokeStepFate(s, s', tid, approver, grantId, l.choice, drawn);
    }
  }

  lemma {:induction false} RevokeChainFate(states: seq<Sys>, labels: seq<Label>, n: nat, m: nat, tid: ThreadId, approver: Approver, grantId: Id, drawn: seq<Id>)
    requires CalmFrom(states, labels, n, tid, drawn) && n <= m <= |labels|
    requires Revoking(states[n], states[n], tid, approver, grantId)
    requires grantId in states[n].db.grants ==> Stored(states[n].db, grantId, states[n].db.grants[grantId])
    ensures Revoking(states[n], states[m], tid, approver, grantId)
    decreases m - n
  {
    if n < m {
      RevokeChainFate(states, labels, n, m - 1, tid, approver, grantId, drawn);
      assert StepAt(states, labels, m - 1);
      RevokeLabelFate(states[n], states[m - 1], labels[m - 1], states[m], tid, approver, grantId, drawn);
    }
  }

  /** A revocation around which nothing fails ends as the stored grant has it. */
  lemma {:induction false} RevokeEnds(states: seq<Sys>, labels: seq<Label>, n: nat, tid: ThreadId, approver: Approver, grantId: Id, drawn: seq<Id>)
    requires CalmFrom(states, labels, n, tid, drawn) && Inv(states[n])
    requires tid in states[n].threads && states[n].threads[tid] == RevokeCall(approver, grantId)
    requires tid in states[|labels|].threads && states[|labels|].threads[tid].Done?
    ensures var s, s' := states[n], states[|labels|];
            RevokeFate(s.db, s.clock, approver, grantId, s'.db, s'.threads[tid].outcome)
  {
    if grantId in states[n].db.grants {
      assert GrantOk(states[n].db.requests, grantId, states[n].db.grants[grantId]);
    }
    RevokeChainFate(states, labels, n, |labels|, tid, approver, grantId, drawn);
  }

  // ---------------------------------------------------------------- how a filing ends

  /** The session has every requested capability already: as root, or undenied and by name. */
  predicate Reported(found: seq<string>, requested: seq<string>) {
    "root" in found || ("deny" !in found && forall i :: 0 <= i < |requested| ==> requested[i] in found)
  }

  /** Item i as it is stored: as the static steps have it, unless the reported capabilities already cover it. */
  ghost predicate StoredAs(p: Policy, bao: Bao, now: int, entity: string, inputs: seq<ItemInput>, i: nat, id: Id, item: Item)
    requires i < |inputs|
  {
    exists filed: Item :: Filing.FiledFrom(p, inputs, i, id, filed) &&
      item == if filed.state == Pending && Reported(SelfCapabilities(bao, entity, filed.path, now), filed.capabilities)
              then filed.(state := Store.AlreadyGranted, reason := HasAlready) else filed
  }

  /** Between 1 and 64 items are stored, each as its input and the reported capabilities have it; any other number, and an ID in use, is refused. */
  ghost predicate FileFate(db: Db, bao: Bao, p: Policy, now: int, entity: string, inputs: seq<ItemInput>, ttl: int, ids: seq<Id>, db': Db, outcome: Outcome)
    requires |ids| == |inputs| + 1
  {
    if |inputs| < 1 || |inputs| > 64 then outcome == Failure(InvalidInput) && db' == db
    else if ids[0] in db.requests then outcome == Failure(StoreFailure) && db' == db
    else
      && outcome == Success
      && exists items :: RequestInserted(db, db', Request(ids[0], entity, now, now + ttl, items)) && |items| == |inputs|
           && forall i :: 0 <= i < |inputs| ==> StoredAs(p, bao, now, entity, inputs, i, ids[i + 1], items[i])
  }

  /** The filing is where it should be on its way from s to its end; `filed` and `marked` are its items before and after the lookup. */
  ghost predicate FilingOn(s: Sys, s': Sys, tid: ThreadId, entity: string, inputs: seq<ItemInput>, ttl: int, id: Id, filed: seq<Item>, marked: seq<Item>) {
    && s'.clock == s.clock && s'.policy == s.policy && s'.bao == s.bao && tid in s'.threads
    && match s'.threads[tid]
       case FileCall(e, given, t) => s'.db == s.db && e == entity && given == inputs && t == ttl
       case FileResolved(filing) => s'.db == s.db && 1 <= |inputs| <= 64 && filing == Request(id, entity, s.clock, s.clock + ttl, filed)
       case FileChecked(filing) => s'.db == s.db && 1 <= |inputs| <= 64 && filing == Request(id, entity, s.clock, s.clock + ttl, marked)
       case Done(outcome) =>
         if |inputs| < 1 || |inputs| > 64 then outcome == Failure(InvalidInput) && s'.db == s.db
         else if id in s.db.requests then outcome == Failure(StoreFailure) && s'.db == s.db
         else outcome == Success && RequestInserted(s.db, s'.db, Request(id, entity, s.clock, s.clock + ttl, marked))
       case _ => false
  }

  lemma {:induction false} ResolveFate(s: Sys, s': Sys, tid: ThreadId, entity: string, inputs: seq<ItemInput>, ttl: int, ids: seq<Id>, filed: seq<Item>, marked: seq<Item>)
    requires |ids| == |inputs| + 1 && filed == Filing.FiledItems(s.policy, inputs, ids[1..])
    requires FilingOn(s, s', tid, entity, inputs, ttl, ids[0], filed, marked) && s'.threads[tid] == FileCall(entity, inputs, ttl)
    ensures FilingOn(s, ResolveStep(s', tid, entity, inputs, ttl, Ids(ids)), tid, entity, inputs, ttl, ids[0], filed, marked)
  {
  }

  lemma {:induction false} NothingMarked(bao: Bao, entity: string, now: int, items: seq<Item>)
    requires !HasPending(items)
    ensures Filing.MarkedItems(bao, entity, now, items) == items
  {
  }

  lemma {:induction false} CheckFate(s: Sys, s': Sys, tid: ThreadId, entity: string, inputs: seq<ItemInput>, ttl: int, id: Id, filing: Request, marked: seq<Item>)
    requires marked == Filing.MarkedItems(s.bao, entity, s.clock, filing.items)
    requires FilingOn(s, s', tid, entity, inputs, ttl, id, filing.items, marked) && s'.threads[tid] == FileResolved(filing)
    ensures FilingOn(s, CheckStep(s', tid, filing, Ok), tid, entity, inputs, ttl, id, filing.items, marked)
  {
    if !HasPending(filing.items) {
      NothingMarked(s.bao, entity, s.clock, filing.items);
    }
  }

  lemma {:induction false} InsertFate(s: Sys, s': Sys, tid: ThreadId, entity: string, inputs: seq<ItemInput>, ttl: int, filing: Request, filed: seq<Item>, marked: seq<Item>)
    requires FilingOn(s, s', tid, entity, inputs, ttl, filing.id, filed, marked) && s'.threads[tid] == FileChecked(filing)
    ensures FilingOn(s, InsertStep(s', tid, filing, Ok), tid, entity, inputs, ttl, filing.id, filed, marked)
  {
    FileExact(s.db, filing);
  }

  lemma {:induction false} FileLabelFate(s: Sys, s': Sys, l: Label, next: Sys, tid: ThreadId, entity: string, inputs: seq<ItemInput>, ttl: int, ids: seq<Id>, filed: seq<Item>, marked: seq<Item>)
    requires |ids| == |inputs| + 1
    requires filed == Filing.FiledItems(s.policy, inputs, ids[1..]) && marked == Filing.MarkedItems(s.bao, entity, s.clock, filed)
    requires FilingOn(s, s', tid, entity, inputs, ttl, ids[0], filed, marked)
    requires Leads(s', l, next) && CalmLabel(s', l, tid, ids)
    ensures FilingOn(s, next, tid, entity, inputs, ttl, ids[0], filed, marked)
  {
    if l.Step? {
      match s'.threads[tid]
      case FileCall(_, _, _) => ResolveFate(s, s', tid, entity, inputs, ttl, ids, filed, marked);
      case FileResolved(filing) => CheckFate(s, s', tid, entity, inputs, ttl, ids[0], filing, marked);
      case FileChecked(filing) => InsertFate(s, s', tid, entity, inputs, ttl, filing, filed, marked);
      case _ =>
    }
  }

  lemma {:induction false} FileChainFate(states: seq<Sys>, labels: seq<Label>, n: nat, m: nat, tid: ThreadId, entity: string, inputs: seq<ItemInput>, ttl: int, ids: seq<Id>, filed: seq<Item>, marked: seq<Item>)
    requires CalmFrom(states, labels, n, tid, ids) && n <= m <= |labels|
    requires |ids| == |inputs| + 1
    requires filed == Filing.FiledItems(states[n].policy, inputs, ids[1..])
    requires marked == Filing.MarkedItems(states[n].bao, entity, states[n].clock, filed)
    requires FilingOn(states[n], states[n], tid, entity, inputs, ttl, ids[0], filed, marked)
    ensures FilingOn(states[n], states[m], tid, entity, inputs, ttl, ids[0], filed, marked)
    decreases m - n
  {
    if n < m {
      FileChainFate(states, labels, n, m - 1, tid, entity, inputs, ttl, ids, filed, marked);
      assert StepAt(states, labels, m - 1);
      FileLabelFate(states[n], states[m - 1], labels[m - 1], states[m], tid, entity, inputs, ttl, ids, filed, marked);
    }
  }

  lemma {:induction false} MarkedStoredAs(p: Policy, bao: Bao, now: int, entity: string, inputs: seq<ItemInput>, i: nat, id: Id, filed: Item)
    requires i < |inputs| && Filing.FiledFrom(p, inputs, i, id, filed)
    ensures StoredAs(p, bao, now, entity, inputs, i, id, Filing.Marked(bao, entity, now, filed))
  {
  }

  lemma {:induction false} AllStoredAs(p: Policy, bao: Bao, now: int, entity: string, inputs: seq<ItemInput>, ids: seq<Id>, items: seq<Item>)
    requires |ids| == |inputs| + 1 && items == Filing.MarkedItems(bao, entity, now, Filing.FiledItems(p, inputs, ids[1..]))
    ensures forall i :: 0 <= i < |inputs| ==> StoredAs(p, bao, now, entity, inputs, i, ids[i + 1], items[i])
  {
    forall i | 0 <= i < |inputs| ensures StoredAs(p, bao, now, entity, inputs, i, ids[i + 1], items[i]) {
      Filing.FiledItemExact(p, inputs, ids[1..], i);
      MarkedStoredAs(p, bao, now, entity, inputs, i, ids[i + 1], Filing.FiledItems(p, inputs, ids[1..])[i]);
    }
  }

  /** A filing around which nothing fails ends as the number of its items has it. */
  lemma {:induction false} FileEnds(states: seq<Sys>, labels: seq<Label>, n: nat, tid: ThreadId, entity: string, inputs: seq<ItemInput>, ttl: int, ids: seq<Id>)
    requires CalmFrom(states, labels, n, tid, ids) && |ids| == |inputs| + 1
    requires tid in states[n].threads && states[n].threads[tid] == FileCall(entity, inputs, ttl)
    requires tid in states[|labels|].threads && states[|labels|].threads[tid].Done?
    ensures var s, s' := states[n], states[|labels|];
            FileFate(s.db, s.bao, s.policy, s.clock, entity, inputs, ttl, ids, s'.db, s'.threads[tid].outcome)
  {
    var s := states[n];
    var filed := Filing.FiledItems(s.policy, inputs, ids[1..]);
    var marked := Filing.MarkedItems(s.bao, entity, s.clock, filed);
    FileChainFate(states, labels, n, |labels|, tid, entity, inputs, ttl, ids, filed, marked);
    AllStoredAs(s.policy, s.bao, s.clock, entity, inputs, ids, marked);
  }

  // --------------------------------------------------------------- how a restore ends

  /** The restore is on its way, and its error is the call's. */
  ghost predicate Restoring(s: Sys, s': Sys, tid: ThreadId, entity: string, error: Error) {
    && s'.clock == s.clock && s'.db == s.db && tid in s'.threads
    && match s'.threads[tid]
       case RestoreCall(e, err) => e == entity && err == error
       case RestoreTimed(e, err, now) => e == entity && err == error && now == s.clock
       case RestoreListed(e, err, now, active) => e == entity && err == error && Lists(s.db, entity, s.clock, active)
       case Unlocking(e, outcome) => e == entity && outcome == Failure(error) && entity !in s'.dirty
       case Done(outcome) => outcome == Failure(error) && entity !in s'.dirty && entity !in s'.locks
       case _ => false
  }

  lemma {:induction false} RewriteFate(s: Sys, s': Sys, tid: ThreadId, entity: string, error: Error, now: int, active: seq<Grant>)
    requires Restoring(s, s', tid, entity, error) && s'.threads[tid] == RestoreListed(entity, error, now, active)
    ensures Restoring(s, RewriteStep(s', tid, entity, error, active, Ok), tid, entity, error)
  {
    ListedUnexpired(s.db, entity, s.clock, active);
    if active != [] {
      assert active[0] in active;
    }
    WriteSucceeds(s'.bao, entity, active, s.clock);
  }

  lemma {:induction false} RestoreLabelFate(s: Sys, s': Sys, l: Label, next: Sys, tid: ThreadId, entity: string, error: Error, drawn: seq<Id>)
    requires Restoring(s, s', tid, entity, error)
    requires Leads(s', l, next) && CalmLabel(s', l, tid, drawn)
    ensures Restoring(s, next, tid, entity, error)
  {
    if l.Step? && s'.threads[tid].RestoreListed? {
      var th := s'.threads[tid];
      RewriteFate(s, s', tid, entity, error, th.now, th.active);
    }
  }

  /** A restore in which nothing fails leaves the entity with nothing outstanding and its lock free. */
  lemma {:induction false} RestoreEnds(states: seq<Sys>, labels: seq<Label>, n: nat, m: nat, tid: ThreadId, entity: string, error: Error, drawn: seq<Id>)
    requires CalmFrom(states, labels, n, tid, drawn) && n <= m <= |labels|
    requires tid in states[n].threads && states[n].threads[tid] == RestoreCall(entity, error)
    ensures Restoring(states[n], states[m], tid, entity, error)
    ensures tid in states[m].threads && states[m].threads[tid].Done? ==>
              states[m].threads[tid] == Done(Failure(error)) && entity !in states[m].dirty && entity !in states[m].locks
    decreases m - n
  {
    if n < m {
      RestoreEnds(states, labels, n, m - 1, tid, entity, error, drawn);
      assert StepAt(states, labels, m - 1);
      RestoreLabelFate(states[n], states[m - 1], labels[m - 1], states[m], tid, entity, error, drawn);
    }
  }

  // ------------------------------------------------------------- how a failing call ends

  /** The error a call is going to end with. */
  function PendingError(th: Thread): Option<Error> {
    match th
    case Done(Failure(error)) => Some(error)
    case Unlocking(_, Failure(error)) => Some(error)
    case RestoreCall(_, error) => Some(error)
    case RestoreTimed(_, error, _) => Some(error)
    case RestoreListed(_, error, _, _) => Some(error)
    case _ => None
  }

  predicate AwaitsStore(th: Thread) {
    || th.FileCall? || th.FileChecked? || th.DecideCall? || th.DecideLocked? || th.DecideLoaded? || th.DecideJudged? || th.DecideReady?
    || th.RevokeCall? || th.RevokeTimed? || th.RevokeWritten?
  }

  predicate AwaitsBao(th: Thread) {
    th.DecideListed? || th.DecideWritten? || th.DecideEntityRead? || th.RevokeListed?
  }

  /** The call is well enough put that its first look at the store comes. */
  predicate Starts(th: Thread) {
    (th.FileCall? ==> 1 <= |th.inputs| <= 64) && (th.DecideCall? ==> th.decisions != [])
  }

  lemma {:induction false} FilingFault(s: Sys, tid: ThreadId)
    requires StepEnabled(s, tid, Choice.Fault) && IsFiling(s.threads[tid]) && Starts(s.threads[tid])
    ensures var th, s' := s.threads[tid], FileStep(s, tid, Choice.Fault);
            && tid in s'.threads && s'.db == s.db && s'.bao == s.bao
            && if th.FileResolved? then s'.threads[tid] == FileChecked(th.filing) else s'.threads[tid] == Done(Failure(StoreFailure))
  {
  }

  lemma {:induction false} InstallFault(s: Sys, tid: ThreadId)
    requires StepEnabled(s, tid, Choice.Fault) && IsInstalling(s.threads[tid])
    ensures var th, s' := s.threads[tid], InstallStep(s, tid, Choice.Fault);
            && tid in s'.threads && s'.db == s.db && s'.bao == s.bao
            && PendingError(s'.threads[tid]) == Some(if AwaitsStore(th) then StoreFailure else BaoFailure)
  {
  }

  lemma {:induction false} RevokeFault(s: Sys, tid: ThreadId)
    requires StepEnabled(s, tid, Choice.Fault) && IsRevoking(s.threads[tid])
    ensures var th, s' := s.threads[tid], RevokeStep(s, tid, Choice.Fault);
            && tid in s'.threads && s'.db == s.db && s'.bao == s.bao
            && (AwaitsStore(th) ==> PendingError(s'.threads[tid]) == Some(StoreFailure))
            && (AwaitsBao(th) ==> PendingError(s'.threads[tid]) == Some(BaoFailure))
  {
  }

  lemma {:induction false} AskingFault(s: Sys, tid: ThreadId)
    requires StepEnabled(s, tid, Choice.Fault) && AwaitsStore(s.threads[tid]) && Starts(s.threads[tid])
    requires s.threads[tid].DecideCall? || s.threads[tid].DecideLocked? || s.threads[tid].DecideLoaded?
    ensures var s' := AskingStep(s, tid, Choice.Fault);
            tid in s'.threads && s'.db == s.db && s'.bao == s.bao && PendingError(s'.threads[tid]) == Some(StoreFailure)
  {
  }

  /**
    * A call to the store or to OpenBao that fails changes nothing, and the call it was made
    * for goes on to end with that error, except that a failing lookup leaves the request as it is.
    */
  lemma {:induction false} FaultReported(s: Sys, tid: ThreadId)
    requires StepEnabled(s, tid, Choice.Fault) && Starts(s.threads[tid])
    ensures var th, s' := s.threads[tid], StepThread(s, tid, Choice.Fault);
            && tid in s'.threads
            && (AwaitsStore(th) || AwaitsBao(th) || th.FileResolved? ==> s'.db == s.db && s'.bao == s.bao)
            && (AwaitsStore(th) ==> PendingError(s'.threads[tid]) == Some(StoreFailure))
            && (AwaitsBao(th) ==> PendingError(s'.threads[tid]) == Some(BaoFailure))
            && (th.FileResolved? ==> s'.threads[tid] == FileChecked(th.filing))
  {
    var th := s.threads[tid];
    StepRanks(s, tid, Choice.Fault);
    if IsFiling(th) {
      FilingFault(s, tid);
    } else if IsInstalling(th) {
      InstallFault(s, tid);
    } else if IsRevoking(th) {
      RevokeFault(s, tid);
    } else if !IsRestoring(th) && !th.DecideQueued? {
      AskingFault(s, tid);
    }
  }

  lemma {:induction false} RestoreError(s: Sys, tid: ThreadId, c: Choice)
    requires tid in s.threads && IsRestoring(s.threads[tid]) && PendingError(s.threads[tid]).Some?
    ensures var s' := RestoreStep(s, tid, c);
            tid in s'.threads && PendingError(s'.threads[tid]) == PendingError(s.threads[tid]) && s'.db == s.db
  {
    if s.threads[tid].RestoreListed? {
      RewriteError(s, tid, s.threads[tid].entity, s.threads[tid].error, s.threads[tid].active, c);
    }
  }

  lemma {:induction false} RewriteError(s: Sys, tid: ThreadId, entity: string, error: Error, active: seq<Grant>, c: Choice)
    ensures var s' := RewriteStep(s, tid, entity, error, active, c);
            tid in s'.threads && PendingError(s'.threads[tid]) == Some(error) && s'.db == s.db
  {
    match WriteSession(s.bao, entity, active, s.clock, c)
    case None => assert RewriteStep(s, tid, entity, error, active, c).threads == s.threads[tid := Unlocking(entity, Failure(error))];
    case Some(_) => assert RewriteStep(s, tid, entity, error, active, c).threads == s.threads[tid := Unlocking(entity, Failure(error))];
  }

  /** From then on no step changes the error, nor does a restore end without it. */
  lemma {:induction false} ErrorStands(s: Sys, tid: ThreadId, c: Choice)
    requires StepEnabled(s, tid, c) && PendingError(s.threads[tid]).Some?
    ensures var s' := StepThread(s, tid, c);
            tid in s'.threads && PendingError(s'.threads[tid]) == PendingError(s.threads[tid]) && s'.db == s.db
  {
    assert IsRestoring(s.threads[tid]);
    RestoreError(s, tid, c);
  }
}
