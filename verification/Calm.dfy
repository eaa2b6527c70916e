// Runs in which nothing goes wrong around a call: no call to the store or to OpenBao fails,
// and nobody else moves. Every call that nothing hinders has one, and it ends.
module Calm {
  import opened Decisions
  import opened Integrity
  import opened Invariants
  import opened OpenBao
  import opened Protocol
  import opened Rules
  import opened Store
  import opened Time
  import opened Traces
  import Filing
  import Theorems

  /** What a position of a thread meets when nothing fails: its IDs, the listing it asks for, or no fault. */
  predicate CalmChoice(th: Thread, c: Choice, drawn: seq<Id>) {
    match th
    case FileCall(_, _, _) => c == Ids(drawn)
    case DecideLoaded(_, _, _) => c == Ids(drawn)
    case DecideJudged(_) => c.Listing?
    case RevokeTimed(_, _, _) => c.Listing?
    case RestoreTimed(_, _, _) => c.Listing?
    case _ => c == Ok
  }

  predicate CalmLabel(s: Sys, l: Label, tid: ThreadId, drawn: seq<Id>) {
    || l == Tick(0)
    || (l.Step? && l.thread == tid && tid in s.threads && CalmChoice(s.threads[tid], l.choice, drawn))
  }

  /** From state n on, only the thread moves, and nothing fails. */
  ghost predicate CalmFrom(states: seq<Sys>, labels: seq<Label>, n: nat, tid: ThreadId, drawn: seq<Id>) {
    && IsChain(states, labels) && n <= |labels|
    && forall i: nat {:trigger StepAt(states, labels, i)} :: n <= i < |labels| ==> CalmLabel(states[i], labels[i], tid, drawn)
  }

  // ------------------------------------------------------------- what cannot fail

  /** Every entity has a listing. */
  lemma {:induction false} ListingExists(db: Db, entity: string, now: int, ids: set<Id>) returns (gs: seq<Grant>)
    requires Keyed(db) && ids <= db.grants.Keys
    ensures NewestFirst(gs)
    ensures forall g :: g in gs <==> g.id in ids && db.grants[g.id] == g && ActiveFor(g, entity, now)
    decreases ids
  {
    gs := [];
    if ids != {} {
      var id :| id in ids;
      gs := ListingExists(db, entity, now, ids - {id});
      if ActiveFor(db.grants[id], entity, now) {
        InsertNewestShape(db.grants[id], gs);
        gs := InsertNewest(db.grants[id], gs);
      }
    }
  }

  lemma {:induction false} FullListing(db: Db, entity: string, now: int) returns (gs: seq<Grant>)
    requires Keyed(db)
    ensures Lists(db, entity, now, gs)
  {
    gs := ListingExists(db, entity, now, db.grants.Keys);
    forall i | 0 <= i < |gs| ensures gs[i].id in db.grants && db.grants[gs[i].id] == gs[i] && ActiveFor(gs[i], entity, now) {
      assert gs[i] in gs;
    }
  }

  /** A policy with a grant still to lapse can be written. */
  lemma {:induction false} WriteSucceeds(bao: Bao, entity: string, gs: seq<Grant>, now: int)
    requires gs != [] ==> exists g :: g in gs && now < g.expiresAt
    ensures WriteSession(bao, entity, gs, now, Ok).Some?
    ensures WriteSession(bao, entity, gs, now, Ok).value.entities == bao.entities
  {
    if gs != [] {
      var g :| g in gs && now < g.expiresAt;
      var i :| 0 <= i < |gs| && gs[i] == g;
      LastExpiryBounds(gs, |gs|);
      assert PolicyName(entity)[..|POLICY_PREFIX|] == POLICY_PREFIX;
    }
  }

  // A grant listed as active at an instant has still to lapse.
  lemma {:induction false} ListedUnexpired(db: Db, entity: string, now: int, gs: seq<Grant>)
    requires Lists(db, entity, now, gs)
    ensures forall g :: g in gs ==> now < g.expiresAt
  {
    forall g | g in gs ensures now < g.expiresAt {
      assert UnixMilli(g.expiresAt) > UnixMilli(now);
    }
  }

  // -------------------------------------------------------------------- every call ends

  /** How many steps of its own a call can still take. */
  function Rank(th: Thread): nat {
    match th
    case FileCall(_, _, _) => 3
    case FileResolved(_) => 2
    case FileChecked(_) => 1
    case DecideCall(_, _, _) => 13
    case DecideQueued(_, _, _, _) => 12
    case DecideLocked(_, _, _, _) => 11
    case DecideLoaded(_, _, _) => 10
    case DecideJudged(_) => 9
    case DecideListed(_, _) => 8
    case DecideWritten(_, _) => 7
    case DecideEntityRead(_, _, _) => 6
    case DecideReady(_, _) => 5
    case RevokeCall(_, _) => 10
    case RevokeQueued(_, _) => 9
    case RevokeLocked(_, _) => 8
    case RevokeTimed(_, _, _) => 7
    case RevokeListed(_, _, _, _) => 6
    case RevokeWritten(_, _, _, _) => 5
    case RestoreCall(_, _) => 4
    case RestoreTimed(_, _, _) => 3
    case RestoreListed(_, _, _, _) => 2
    case Unlocking(_, _) => 1
    case Done(_) => 0
  }

  predicate Lower(s: Sys, tid: ThreadId, th: Thread) {
    tid in s.threads && Rank(s.threads[tid]) < Rank(th)
  }

  lemma {:induction false} AskingRanks(s: Sys, tid: ThreadId, c: Choice)
    requires tid in s.threads && (s.threads[tid].DecideCall? || s.threads[tid].DecideQueued? || s.threads[tid].DecideLocked? || s.threads[tid].DecideLoaded?)
    ensures Lower(AskingStep(s, tid, c), tid, s.threads[tid])
  {
    match s.threads[tid]
    case DecideLoaded(approver, decisions, loaded) => JudgeRanks(s, tid, approver, decisions, loaded, c);
    case _ => QueueRanks(s, tid, c);
  }

  lemma {:induction false} QueueRanks(s: Sys, tid: ThreadId, c: Choice)
    requires tid in s.threads && (s.threads[tid].DecideCall? || s.threads[tid].DecideQueued? || s.threads[tid].DecideLocked?)
    ensures Lower(AskingStep(s, tid, c), tid, s.threads[tid])
  {
  }

  lemma {:induction false} JudgeRanks(s: Sys, tid: ThreadId, approver: Approver, decisions: seq<Decision>, loaded: Request, c: Choice)
    ensures var s' := JudgeStep(s, tid, approver, decisions, loaded, c);
            tid in s'.threads && (s'.threads[tid].DecideReady? || s'.threads[tid].DecideJudged? || s'.threads[tid].Unlocking?)
  {
  }

  lemma {:induction false} InstallRanks(s: Sys, tid: ThreadId, c: Choice)
    requires tid in s.threads && IsInstalling(s.threads[tid])
    ensures Lower(InstallStep(s, tid, c), tid, s.threads[tid])
  {
    match s.threads[tid]
    case DecideListed(b, active) => WriteBatchRanks(s, tid, b, active, c);
    case DecideReady(b, _) => CommitRanks(s, tid, b, c);
    case _ => OpenBaoRanks(s, tid, c);
  }

  lemma {:induction false} WriteBatchRanks(s: Sys, tid: ThreadId, b: Batch, active: seq<Grant>, c: Choice)
    requires tid in s.threads && s.threads[tid] == DecideListed(b, active)
    ensures Lower(InstallStep(s, tid, c), tid, s.threads[tid])
  {
  }

  lemma {:induction false} CommitRanks(s: Sys, tid: ThreadId, b: Batch, c: Choice)
    requires tid in s.threads && s.threads[tid].DecideReady?
    ensures Lower(InstallStep(s, tid, c), tid, s.threads[tid])
  {
  }

  lemma {:induction false} OpenBaoRanks(s: Sys, tid: ThreadId, c: Choice)
    requires tid in s.threads && (s.threads[tid].DecideJudged? || s.threads[tid].DecideWritten? || s.threads[tid].DecideEntityRead?)
    ensures Lower(InstallStep(s, tid, c), tid, s.threads[tid])
  {
  }

  lemma {:induction false} RevokeRanks(s: Sys, tid: ThreadId, c: Choice)
    requires tid in s.threads && IsRevoking(s.threads[tid])
    ensures Lower(RevokeStep(s, tid, c), tid, s.threads[tid])
  {
    if s.threads[tid].RevokeListed? || s.threads[tid].RevokeWritten? {
      RemovalRanks(s, tid, c);
    } else {
      FindRanks(s, tid, c);
    }
  }

  lemma {:induction false} RemovalRanks(s: Sys, tid: ThreadId, c: Choice)
    requires tid in s.threads && (s.threads[tid].RevokeListed? || s.threads[tid].RevokeWritten?)
    ensures Lower(RevokeStep(s, tid, c), tid, s.threads[tid])
  {
  }

  lemma {:induction false} FindRanks(s: Sys, tid: ThreadId, c: Choice)
    requires tid in s.threads
    requires s.threads[tid].RevokeCall? || s.threads[tid].RevokeQueued? || s.threads[tid].RevokeLocked? || s.threads[tid].RevokeTimed?
    ensures Lower(RevokeStep(s, tid, c), tid, s.threads[tid])
  {
  }

  lemma {:induction false} RestoreRanks(s: Sys, tid: ThreadId, c: Choice)
    requires tid in s.threads && IsRestoring(s.threads[tid])
    ensures Lower(RestoreStep(s, tid, c), tid, s.threads[tid])
  {
  }

  lemma {:induction false} FileRanks(s: Sys, tid: ThreadId, c: Choice)
    requires tid in s.threads && IsFiling(s.threads[tid])
    ensures Lower(FileStep(s, tid, c), tid, s.threads[tid])
  {
  }

  /** Every step of a call, whatever fails in it, brings the call nearer to its end. */
  lemma {:induction false} StepRanks(s: Sys, tid: ThreadId, c: Choice)
    requires StepEnabled(s, tid, c)
    ensures Lower(StepThread(s, tid, c), tid, s.threads[tid])
  {
    var th := s.threads[tid];
    if IsFiling(th) {
      FileRanks(s, tid, c);
    } else if IsRestoring(th) {
      RestoreRanks(s, tid, c);
    } else if IsRevoking(th) {
      RevokeRanks(s, tid, c);
    } else if IsInstalling(th) {
      InstallRanks(s, tid, c);
    } else {
      AskingRanks(s, tid, c);
    }
  }

  /** The given random IDs are distinct and none of them is in use by a stored item. */
  ghost predicate UnusedIds(requests: map<Id, Row>, ids: seq<Id>) {
    && (forall i, j :: 0 <= i < j < |ids| ==> ids[i] != ids[j])
    && (forall id :: id in requests ==> ItemIds(requests[id].request) !! set x | x in ids)
  }

  /** The request holds what filing makes of the inputs, under unused IDs. */
  ghost predicate FiledWith(db: Db, p: Policy, filed: Request, inputs: seq<ItemInput>, ids: seq<Id>) {
    |ids| == |inputs| + 1 && UnusedIds(db.requests, ids) && filed.id == ids[0] && filed.items == Filing.FiledItems(p, inputs, ids[1..])
  }

  // The IDs drawn for the items are the IDs they are stored with.
  lemma {:induction false} FiledFresh(db: Db, p: Policy, filed: Request, request: Request, inputs: seq<ItemInput>, ids: seq<Id>)
    requires FiledWith(db, p, filed, inputs, ids)
    requires |request.items| == |filed.items| && forall i :: 0 <= i < |filed.items| ==> request.items[i].id == filed.items[i].id
    ensures FreshItems(db, request)
    ensures |request.items| == |inputs| && forall i :: 0 <= i < |inputs| ==> request.items[i].id == ids[i + 1]
  {
    forall i | 0 <= i < |inputs| ensures request.items[i].id == ids[i + 1] {
      Filing.FiledExact(p, inputs, ids[1..], i);
    }
    forall item | item in request.items ensures item.id in ids {
      var i :| 0 <= i < |request.items| && request.items[i] == item;
    }
  }

  /** Nobody holds the lock the call will want, and the IDs drawn for a new request are unused. */
  ghost predicate Unhindered(s: Sys, tid: ThreadId, drawn: seq<Id>) {
    tid in s.threads &&
    match s.threads[tid]
    case FileCall(_, inputs, _) => |drawn| == |inputs| + 1 && UnusedIds(s.db.requests, drawn)
    case FileResolved(filing) => FreshItems(s.db, filing)
    case FileChecked(filing) => FreshItems(s.db, filing)
    case DecideCall(_, rid, _) => rid in s.db.requests ==> s.db.requests[rid].request.entity !in s.locks
    case DecideQueued(_, _, _, entity) => entity !in s.locks
    case RevokeCall(_, grantId) => grantId in s.db.grants ==> s.db.grants[grantId].entity !in s.locks
    case RevokeQueued(_, grant) => grant.entity !in s.locks
    case _ => true
  }

  lemma {:induction false} TablesKeyed(db: Db)
    requires DbInv(db)
    ensures Keyed(db)
  {
    forall id | id in db.requests ensures db.requests[id].request.id == id {
      assert RowOk(db.grants, id, db.requests[id]);
    }
    forall id | id in db.grants ensures db.grants[id].id == id {
      assert GrantOk(db.requests, id, db.grants[id]);
    }
  }

  lemma {:induction false} CalmChoiceExists(s: Sys, tid: ThreadId, drawn: seq<Id>) returns (c: Choice)
    requires DbInv(s.db) && Unhindered(s, tid, drawn) && !s.threads[tid].Done?
    ensures StepEnabled(s, tid, c) && CalmChoice(s.threads[tid], c, drawn)
  {
    TablesKeyed(s.db);
    match s.threads[tid]
    case FileCall(_, _, _) => c := Ids(drawn);
    case DecideLoaded(_, _, _) => c := Ids(drawn);
    case DecideJudged(b) => c := ListingChoice(s.db, b.loaded.entity, b.now);
    case RevokeTimed(_, grant, now) => c := ListingChoice(s.db, grant.entity, now);
    case RestoreTimed(entity, _, now) => c := ListingChoice(s.db, entity, now);
    case _ => c := Ok;
  }

  lemma {:induction false} ListingChoice(db: Db, entity: string, now: int) returns (c: Choice)
    requires Keyed(db)
    ensures c.Listing? && Lists(db, entity, now, c.grants)
  {
    var gs := FullListing(db, entity, now);
    c := Listing(gs);
  }

  lemma {:induction false} ResolvedUnhindered(s: Sys, tid: ThreadId, entity: string, inputs: seq<ItemInput>, ttl: int, drawn: seq<Id>)
    requires Unhindered(s, tid, drawn) && s.threads[tid] == FileCall(entity, inputs, ttl)
    ensures Unhindered(ResolveStep(s, tid, entity, inputs, ttl, Ids(drawn)), tid, drawn)
  {
    if 1 <= |inputs| <= Filing.MAX_ITEMS {
      var filed := Request(drawn[0], entity, s.clock, s.clock + ttl, Filing.FiledItems(s.policy, inputs, drawn[1..]));
      FiledFresh(s.db, s.policy, filed, filed, inputs, drawn);
    }
  }

  lemma {:induction false} MarkedFresh(db: Db, bao: Bao, now: int, filing: Request)
    requires FreshItems(db, filing)
    ensures FreshItems(db, filing.(items := Filing.MarkedItems(bao, filing.entity, now, filing.items)))
  {
    SameIds(filing, filing.(items := Filing.MarkedItems(bao, filing.entity, now, filing.items)));
  }

  lemma {:induction false} FileUnhindered(s: Sys, tid: ThreadId, c: Choice, drawn: seq<Id>)
    requires Unhindered(s, tid, drawn) && IsFiling(s.threads[tid]) && CalmChoice(s.threads[tid], c, drawn)
    ensures Unhindered(FileStep(s, tid, c), tid, drawn)
  {
    match s.threads[tid]
    case FileCall(entity, inputs, ttl) => ResolvedUnhindered(s, tid, entity, inputs, ttl, drawn);
    case FileResolved(filing) => MarkedFresh(s.db, s.bao, s.clock, filing);
    case FileChecked(_) =>
  }

  // Past the lock, nothing hinders a call.
  lemma {:induction false} LowUnhindered(s: Sys, tid: ThreadId, drawn: seq<Id>)
    requires tid in s.threads && !IsFiling(s.threads[tid])
    requires !s.threads[tid].DecideCall? && !s.threads[tid].DecideQueued? && !s.threads[tid].RevokeCall? && !s.threads[tid].RevokeQueued?
    ensures Unhindered(s, tid, drawn)
  {
  }

  lemma {:induction false} CallUnhindered(s: Sys, tid: ThreadId, c: Choice, drawn: seq<Id>)
    requires Unhindered(s, tid, drawn) && (s.threads[tid].DecideCall? || s.threads[tid].RevokeCall?) && CalmChoice(s.threads[tid], c, drawn)
    ensures Unhindered(StepThread(s, tid, c), tid, drawn)
  {
  }

  lemma {:induction false} StaysUnhindered(s: Sys, tid: ThreadId, c: Choice, drawn: seq<Id>)
    requires StepEnabled(s, tid, c) && Unhindered(s, tid, drawn) && CalmChoice(s.threads[tid], c, drawn)
    ensures Unhindered(StepThread(s, tid, c), tid, drawn)
  {
    var th := s.threads[tid];
    if IsFiling(th) {
      FileUnhindered(s, tid, c, drawn);
    } else if th.DecideCall? || th.RevokeCall? {
      CallUnhindered(s, tid, c, drawn);
    } else {
      StepRanks(s, tid, c);
      Further(s, tid, c);
      LowUnhindered(StepThread(s, tid, c), tid, drawn);
    }
  }

  /** The call holds its lock, or has ended. */
  predicate PastQueue(s: Sys, tid: ThreadId) {
    tid in s.threads && (Holds(s.threads[tid]).Some? || s.threads[tid].Done?)
  }

  lemma {:induction false} AskingPast(s: Sys, tid: ThreadId, c: Choice)
    requires tid in s.threads && (s.threads[tid].DecideQueued? || s.threads[tid].DecideLocked? || s.threads[tid].DecideLoaded?)
    ensures PastQueue(AskingStep(s, tid, c), tid)
  {
    if s.threads[tid].DecideLoaded? {
      var th := s.threads[tid];
      JudgeRanks(s, tid, th.approver, th.decisions, th.loaded, c);
    }
  }

  lemma {:induction false} InstallPast(s: Sys, tid: ThreadId, c: Choice)
    requires tid in s.threads && IsInstalling(s.threads[tid])
    ensures PastQueue(InstallStep(s, tid, c), tid)
  {
    if s.threads[tid].DecideListed? {
      var th := s.threads[tid];
      WriteBatchPast(s, tid, th.batch, th.active, c);
    }
  }

  lemma {:induction false} WriteBatchPast(s: Sys, tid: ThreadId, b: Batch, active: seq<Grant>, c: Choice)
    ensures PastQueue(WriteBatchStep(s, tid, b, active, c), tid)
  {
  }

  lemma {:induction false} RevokePast(s: Sys, tid: ThreadId, c: Choice)
    requires tid in s.threads && IsRevoking(s.threads[tid]) && !s.threads[tid].RevokeCall?
    ensures PastQueue(RevokeStep(s, tid, c), tid)
  {
  }

  lemma {:induction false} RestorePast(s: Sys, tid: ThreadId, c: Choice)
    requires tid in s.threads && IsRestoring(s.threads[tid])
    ensures PastQueue(RestoreStep(s, tid, c), tid)
  {
  }

  // From the lock on a call is no longer queued.
  lemma {:induction false} Further(s: Sys, tid: ThreadId, c: Choice)
    requires StepEnabled(s, tid, c) && !IsFiling(s.threads[tid]) && !s.threads[tid].DecideCall? && !s.threads[tid].RevokeCall?
    ensures PastQueue(StepThread(s, tid, c), tid)
  {
    var th := s.threads[tid];
    if IsRestoring(th) {
      RestorePast(s, tid, c);
    } else if IsRevoking(th) {
      RevokePast(s, tid, c);
    } else if IsInstalling(th) {
      InstallPast(s, tid, c);
    } else {
      AskingPast(s, tid, c);
    }
  }

  // A calm step at the end of a calm chain.
  lemma {:induction false} CalmExtends(states: seq<Sys>, labels: seq<Label>, n: nat, tid: ThreadId, drawn: seq<Id>, l: Label, next: Sys)
    requires CalmFrom(states, labels, n, tid, drawn) && Leads(states[|labels|], l, next) && CalmLabel(states[|labels|], l, tid, drawn)
    ensures CalmFrom(states + [next], labels + [l], n, tid, drawn)
  {
    var states', labels' := states + [next], labels + [l];
    ExtendChain(states, labels, l, next);
    forall i: nat | n <= i < |labels'| ensures StepAt(states', labels', i) && CalmLabel(states'[i], labels'[i], tid, drawn) {
      if i < |labels| {
        assert StepAt(states, labels, i);
      }
    }
  }

  // A calm step in front of a calm chain.
  lemma {:induction false} CalmBefore(s: Sys, tid: ThreadId, c: Choice, drawn: seq<Id>, states: seq<Sys>, labels: seq<Label>)
    requires tid in s.threads && CalmChoice(s.threads[tid], c, drawn)
    requires CalmFrom(states, labels, 0, tid, drawn) && Leads(s, Step(tid, c), states[0])
    ensures CalmFrom([s] + states, [Step(tid, c)] + labels, 0, tid, drawn)
  {
    var all, steps := [s] + states, [Step(tid, c)] + labels;
    forall i: nat | i < |steps| ensures StepAt(all, steps, i) && CalmLabel(all[i], steps[i], tid, drawn) {
      if i > 0 {
        assert StepAt(states, labels, i - 1);
      }
    }
  }

  /** A call that nothing hinders ends: it has a run of its own, without a failing call, to its outcome. */
  lemma {:induction false} CallEnds(s: Sys, tid: ThreadId, drawn: seq<Id>) returns (states: seq<Sys>, labels: seq<Label>)
    requires Inv(s) && ValidPolicy(s.policy) && Unhindered(s, tid, drawn)
    ensures CalmFrom(states, labels, 0, tid, drawn) && states[0] == s
    ensures tid in states[|labels|].threads && states[|labels|].threads[tid].Done?
    decreases Rank(s.threads[tid])
  {
    states, labels := [s], [];
    if !s.threads[tid].Done? {
      var c := CalmChoiceExists(s, tid, drawn);
      var next := StepThread(s, tid, c);
      StepRanks(s, tid, c);
      Theorems.StepKeeps(s, Step(tid, c));
      Theorems.PolicyStaysValid(s, Step(tid, c));
      StaysUnhindered(s, tid, c, drawn);
      var rest, more := CallEnds(next, tid, drawn);
      CalmBefore(s, tid, c, drawn, rest, more);
      states, labels := [s] + rest, [Step(tid, c)] + more;
    }
  }
}
