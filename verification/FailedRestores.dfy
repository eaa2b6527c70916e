// Why agreement of policy and store is promised only after a successful restore: what is
// left when a call fails after its policy write and the restore then fails too, and
// exactly when that leaves policy and store apart.
module FailedRestores {
  import opened Decisions
  import opened Integrity
  import opened Invariants
  import opened OpenBao
  import opened Protocol
  import opened Safety
  import opened Store
  import opened Traces
  import DecideSafety
  import Theorems

  /** A batch that has been written to the policy and not been stored. */
  predicate Installs(th: Thread, b: Batch, active: seq<Grant>) {
    && b.grants != []
    && (th == DecideWritten(b, active) || th == DecideReady(b, active)
        || (th.DecideEntityRead? && th == DecideEntityRead(b, active, th.names)))
  }

  predicate Removes(th: Thread, grant: Grant) {
    th.RevokeWritten? && th.grant == grant
  }

  /** The call under way fails at this step, and turns to restoring the policy. */
  ghost predicate FailsAt(s: Sys, tid: ThreadId, c: Choice, e: string, error: Error) {
    StepEnabled(s, tid, c) && StepThread(s, tid, c) == Goto(s, tid, RestoreCall(e, error))
  }

  /** Where the restore fails: at the listing, or at the policy write. */
  datatype Failing = AtListing | AtRewrite(listed: seq<Grant>, write: Choice)

  ghost predicate CanFail(s: Sys, e: string, how: Failing) {
    how.AtRewrite? ==> Lists(s.db, e, s.clock, how.listed) && WriteSession(s.bao, e, how.listed, s.clock, how.write).None?
  }


  function VainSteps(tid: ThreadId, how: Failing): seq<Label> {
    match how
    case AtListing => [Step(tid, Fault)]
    case AtRewrite(listed, write) => [Step(tid, Listing(listed)), Step(tid, write)]
  }

  /** The steps of a call that fails, restores in vain and frees its lock. */
  function GivingUp(tid: ThreadId, c: Choice, how: Failing): seq<Label> {
    [Step(tid, c), Step(tid, Ok)] + VainSteps(tid, how) + [Step(tid, Ok)]
  }

  lemma {:induction false} TimesRestore(s: Sys, tid: ThreadId, e: string, error: Error)
    requires tid in s.threads && s.threads[tid] == RestoreCall(e, error)
    ensures Leads(s, Step(tid, Ok), Goto(s, tid, RestoreTimed(e, error, s.clock)))
  {
  }

  lemma {:induction false} FailsListing(s: Sys, tid: ThreadId, e: string, error: Error, now: int)
    requires tid in s.threads && s.threads[tid] == RestoreTimed(e, error, now)
    ensures Leads(s, Step(tid, Fault), Fail(s, tid, e, error).(dirty := s.dirty + {e}))
  {
  }

  lemma {:induction false} ListsAgain(s: Sys, tid: ThreadId, e: string, error: Error, now: int, gs: seq<Grant>)
    requires tid in s.threads && s.threads[tid] == RestoreTimed(e, error, now) && Lists(s.db, e, now, gs)
    ensures Leads(s, Step(tid, Listing(gs)), Goto(s, tid, RestoreListed(e, error, now, gs)))
  {
  }

  lemma {:induction false} FailsRewrite(s: Sys, tid: ThreadId, e: string, error: Error, now: int, gs: seq<Grant>, c: Choice)
    requires tid in s.threads && s.threads[tid] == RestoreListed(e, error, now, gs) && WriteSession(s.bao, e, gs, s.clock, c).None?
    ensures Leads(s, Step(tid, c), Fail(s, tid, e, error).(dirty := s.dirty + {e}))
  {
  }

  lemma {:induction false} Frees(s: Sys, tid: ThreadId, e: string, outcome: Outcome)
    requires tid in s.threads && s.threads[tid] == Unlocking(e, outcome)
    ensures Leads(s, Step(tid, Ok), Release(s, tid, e, outcome))
  {
  }

  /** Where giving up leads: the lock is free, the entity marked, and neither system touched. */
  function GivenUp(s: Sys, tid: ThreadId, e: string, error: Error): Sys {
    Release(Vain(s, tid, e, error), tid, e, Failure(error))
  }

  /** A restore about to list for the instant it read from the clock. */
  function Timed(s: Sys, tid: ThreadId, e: string, error: Error): Sys {
    Goto(s, tid, RestoreTimed(e, error, s.clock))
  }

  /** A restore that has failed. */
  function Vain(s: Sys, tid: ThreadId, e: string, error: Error): Sys {
    Fail(s, tid, e, error).(dirty := s.dirty + {e})
  }

  lemma {:induction false} VainListing(s: Sys, tid: ThreadId, e: string, error: Error)
    ensures IsChain([Timed(s, tid, e, error), Vain(s, tid, e, error)], [Step(tid, Fault)])
  {
    FailsListing(Timed(s, tid, e, error), tid, e, error, s.clock);
    OneStep(Timed(s, tid, e, error), Step(tid, Fault), Vain(s, tid, e, error));
  }

  lemma {:induction false} ListedChain(s: Sys, tid: ThreadId, e: string, error: Error, listed: seq<Grant>)
    requires Lists(s.db, e, s.clock, listed)
    ensures IsChain([Timed(s, tid, e, error), Goto(s, tid, RestoreListed(e, error, s.clock, listed))], [Step(tid, Listing(listed))])
  {
    var s1 := Timed(s, tid, e, error);
    ListsAgain(s1, tid, e, error, s.clock, listed);
    assert Goto(s1, tid, RestoreListed(e, error, s.clock, listed)) == Goto(s, tid, RestoreListed(e, error, s.clock, listed));
    OneStep(s1, Step(tid, Listing(listed)), Goto(s, tid, RestoreListed(e, error, s.clock, listed)));
  }

  lemma {:induction false} RewriteChain(s: Sys, tid: ThreadId, e: string, error: Error, listed: seq<Grant>, write: Choice)
    requires WriteSession(s.bao, e, listed, s.clock, write).None?
    ensures IsChain([Goto(s, tid, RestoreListed(e, error, s.clock, listed)), Vain(s, tid, e, error)], [Step(tid, write)])
  {
    var s2 := Goto(s, tid, RestoreListed(e, error, s.clock, listed));
    FailsRewrite(s2, tid, e, error, s.clock, listed, write);
    OneStep(s2, Step(tid, write), Vain(s, tid, e, error));
  }

  /** The restore in vain, from the instant its listing is for. */
  lemma {:induction false} VainRestore(s: Sys, tid: ThreadId, e: string, error: Error, how: Failing) returns (states: seq<Sys>)
    requires CanFail(s, e, how)
    ensures IsChain(states, VainSteps(tid, how))
    ensures states[0] == Timed(s, tid, e, error) && states[|VainSteps(tid, how)|] == Vain(s, tid, e, error)
  {
    match how
    case AtListing =>
      VainListing(s, tid, e, error);
      states := [Timed(s, tid, e, error), Vain(s, tid, e, error)];
    case AtRewrite(listed, write) =>
      var listing := Goto(s, tid, RestoreListed(e, error, s.clock, listed));
      ListedChain(s, tid, e, error, listed);
      RewriteChain(s, tid, e, error, listed, write);
      JoinChains([Timed(s, tid, e, error), listing], [Step(tid, Listing(listed))], [listing, Vain(s, tid, e, error)], [Step(tid, write)]);
      states := [Timed(s, tid, e, error), listing] + [listing, Vain(s, tid, e, error)][1..];
      assert [Step(tid, Listing(listed))] + [Step(tid, write)] == VainSteps(tid, how);
  }

  lemma {:induction false} FailingStep(s: Sys, tid: ThreadId, c: Choice, e: string, error: Error)
    requires FailsAt(s, tid, c, e, error)
    ensures IsChain([s, Goto(s, tid, RestoreCall(e, error))], [Step(tid, c)])
  {
    OneStep(s, Step(tid, c), Goto(s, tid, RestoreCall(e, error)));
  }

  lemma {:induction false} TimingStep(s: Sys, tid: ThreadId, e: string, error: Error)
    ensures IsChain([Goto(s, tid, RestoreCall(e, error)), Timed(s, tid, e, error)], [Step(tid, Ok)])
  {
    var s1 := Goto(s, tid, RestoreCall(e, error));
    TimesRestore(s1, tid, e, error);
    assert Goto(s1, tid, RestoreTimed(e, error, s1.clock)) == Timed(s, tid, e, error);
    OneStep(s1, Step(tid, Ok), Timed(s, tid, e, error));
  }

  lemma {:induction false} FreeingStep(s: Sys, tid: ThreadId, e: string, error: Error)
    ensures IsChain([Vain(s, tid, e, error), GivenUp(s, tid, e, error)], [Step(tid, Ok)])
  {
    Frees(Vain(s, tid, e, error), tid, e, Failure(error));
    OneStep(Vain(s, tid, e, error), Step(tid, Ok), GivenUp(s, tid, e, error));
  }

  /** A call that has failed gives up: its steps free the lock and touch neither system. */
  lemma {:induction false} GiveUpChain(s: Sys, call: Sys, tid: ThreadId, c: Choice, e: string, error: Error, how: Failing) returns (states: seq<Sys>)
    requires CanFail(s, e, how) && call == Goto(s, tid, RestoreCall(e, error)) && IsChain([s, call], [Step(tid, c)])
    ensures IsChain(states, GivingUp(tid, c, how))
    ensures states[0] == s && states[|GivingUp(tid, c, how)|] == GivenUp(s, tid, e, error)
  {
    var timed, vain, last := Timed(s, tid, e, error), Vain(s, tid, e, error), GivenUp(s, tid, e, error);
    TimingStep(s, tid, e, error);
    JoinChains([s, call], [Step(tid, c)], [call, timed], [Step(tid, Ok)]);
    var states1, labels1 := [s, call] + [call, timed][1..], [Step(tid, c)] + [Step(tid, Ok)];
    var states2 := VainRestore(s, tid, e, error, how);
    JoinChains(states1, labels1, states2, VainSteps(tid, how));
    FreeingStep(s, tid, e, error);
    JoinChains(states1 + states2[1..], labels1 + VainSteps(tid, how), [vain, last], [Step(tid, Ok)]);
    states := states1 + states2[1..] + [vain, last][1..];
    assert labels1 + VainSteps(tid, how) + [Step(tid, Ok)] == GivingUp(tid, c, how);
  }

  /** From any reachable state in which a call can fail past its policy write, giving up is a run. */
  lemma {:induction false} GivingUpIsRun(s: Sys, labels: seq<Label>, tid: ThreadId, c: Choice, e: string, error: Error, how: Failing)
    requires IsRun(s, labels) && FailsAt(After(s, labels), tid, c, e, error) && CanFail(After(s, labels), e, how)
    ensures IsRun(s, labels + GivingUp(tid, c, how))
    ensures After(s, labels + GivingUp(tid, c, how)) == GivenUp(After(s, labels), tid, e, error)
  {
    var now := After(s, labels);
    FailingStep(now, tid, c, e, error);
    var states := GiveUpChain(now, Goto(now, tid, RestoreCall(e, error)), tid, c, e, error, how);
    FollowChain(s, labels, states, GivingUp(tid, c, how));
  }

  // ------------------------------------------------------------------ a failed approval

  lemma {:induction false} EitherInForce(a: seq<Grant>, b: seq<Grant>, t: int, path: string, c: string)
    ensures InForce(a + b, t, path, c) <==> InForce(a, t, path, c) || InForce(b, t, path, c)
  {
    assert forall g :: g in a + b <==> g in a || g in b;
  }

  /** While a batch is written and not stored, an attached policy gives what the store does, and the batch besides. */
  lemma {:induction false} UnstoredAccess(s: Sys, b: Batch, active: seq<Grant>, t: int, path: string, c: string)
    requires DbInv(s.db) && BatchOk(s, b) && Lists(s.db, b.loaded.entity, b.now, active) && t >= s.clock
    requires PolicyIs(s.bao, b.loaded.entity, active + b.grants) && Attached(s.bao, b.loaded.entity)
    ensures Access(s.bao, b.loaded.entity, t, path, c) <==>
            Entitled(s.db, b.loaded.entity, t, path, c) || InForce(b.grants, t, path, c)
  {
    var e := b.loaded.entity;
    ListedExpiries(s.db, e, b.now, active);
    DecideSafety.BatchGrants(b);
    RenderedAccess(s.bao, e, active + b.grants, t, path, c);
    EitherInForce(active, b.grants, t, path, c);
    ListingEntitles(s.db, e, b.now, active, t, path, c);
  }

  lemma {:induction false} WrittenBatch(s: Sys, tid: ThreadId, b: Batch, active: seq<Grant>)
    requires Inv(s) && tid in s.threads && Installs(s.threads[tid], b, active)
    ensures BatchOk(s, b) && Lists(s.db, b.loaded.entity, b.now, active)
    ensures PolicyIs(s.bao, b.loaded.entity, active + b.grants) && GrantsImplyAttached(s.db, s.bao, b.loaded.entity)
  {
    assert ThreadOk(s, s.threads[tid]) && EntityOk(s, b.loaded.entity);
    HolderPhase(s, tid, b.loaded.entity);
  }

  /** Everything the batch would give is given by stored grants anyway. */
  ghost predicate Redundant(db: Db, clock: int, entity: string, gs: seq<Grant>) {
    forall t, path, c :: t >= clock && InForce(gs, t, path, c) ==> Entitled(db, entity, t, path, c)
  }

  lemma {:induction false} UnstoredSync(s: Sys, b: Batch, active: seq<Grant>)
    requires DbInv(s.db) && BatchOk(s, b) && Lists(s.db, b.loaded.entity, b.now, active)
    requires PolicyIs(s.bao, b.loaded.entity, active + b.grants) && GrantsImplyAttached(s.db, s.bao, b.loaded.entity)
    ensures Sync(s.db, s.bao, s.clock, b.loaded.entity) <==>
            !Attached(s.bao, b.loaded.entity) || Redundant(s.db, s.clock, b.loaded.entity, b.grants)
  {
    if Attached(s.bao, b.loaded.entity) {
      forall t, path, c | t >= s.clock
        ensures Access(s.bao, b.loaded.entity, t, path, c) <==>
                Entitled(s.db, b.loaded.entity, t, path, c) || InForce(b.grants, t, path, c)
      {
        UnstoredAccess(s, b, active, t, path, c);
      }
    } else {
      assert forall id :: id in s.db.grants ==> s.db.grants[id].entity != b.loaded.entity;
    }
  }

  /**
    * An approval that fails anywhere past its policy write, and whose restore fails too, at
    * the listing or at the rewrite, leaves its entity unlocked with policy and store apart,
    * unless the policy is not attached or the store already gives all that the batch does.
    */
  lemma {:induction false} FailedApprovalExact(s: Sys, labels: seq<Label>, tid: ThreadId, c: Choice, error: Error, how: Failing, b: Batch, active: seq<Grant>)
    requires Init(s) && IsRun(s, labels) && tid in After(s, labels).threads && Installs(After(s, labels).threads[tid], b, active)
    requires FailsAt(After(s, labels), tid, c, b.loaded.entity, error) && CanFail(After(s, labels), b.loaded.entity, how)
    ensures IsRun(s, labels + GivingUp(tid, c, how))
    ensures var last, e := After(s, labels + GivingUp(tid, c, how)), b.loaded.entity;
            && e !in last.locks && e in last.dirty
            && (Sync(last.db, last.bao, last.clock, e) <==> !Attached(last.bao, e) || Redundant(last.db, last.clock, e, b.grants))
  {
    Theorems.RunKeeps(s, labels);
    GivingUpIsRun(s, labels, tid, c, b.loaded.entity, error, how);
    WrittenBatch(After(s, labels), tid, b, active);
    UnstoredSync(After(s, labels), b, active);
  }

  // ---------------------------------------------------------------- a failed revocation

  /** A stored grant other than the given one entitles the entity. */
  ghost predicate EntitledBesides(db: Db, id: Id, entity: string, t: int, path: string, c: string) {
    exists other :: other in db.grants && other != id && GrantGives(db.grants[other], entity, t, path, c)
  }

  lemma {:induction false} RemainingEntitles(db: Db, e: string, now: int, active: seq<Grant>, id: Id, t: int, path: string, c: string)
    requires DbInv(db) && Lists(db, e, now, active) && now <= t
    ensures InForce(Remaining(active, id), t, path, c) <==> EntitledBesides(db, id, e, t, path, c)
  {
    RemainingExact(active, id);
    if InForce(Remaining(active, id), t, path, c) {
      var g :| g in Remaining(active, id) && g.path == path && t < g.expiresAt && c in g.capabilities;
      assert GrantGives(db.grants[g.id], e, t, path, c);
    }
    if EntitledBesides(db, id, e, t, path, c) {
      var other :| other in db.grants && other != id && GrantGives(db.grants[other], e, t, path, c);
      assert GrantOk(db.requests, other, db.grants[other]);
      UnlistedIsOver(db.grants[other], e, now, t);
    }
  }

  /** While a revocation is written and not recorded, the policy gives what the other stored grants do. */
  lemma {:induction false} UnrecordedAccess(s: Sys, grant: Grant, now: int, active: seq<Grant>, t: int, path: string, c: string)
    requires DbInv(s.db) && Lists(s.db, grant.entity, now, active) && now <= s.clock <= t
    requires PolicyIs(s.bao, grant.entity, Remaining(active, grant.id)) && GrantsImplyAttached(s.db, s.bao, grant.entity)
    ensures Access(s.bao, grant.entity, t, path, c) <==> EntitledBesides(s.db, grant.id, grant.entity, t, path, c)
  {
    ListedExpiries(s.db, grant.entity, now, active);
    ListingAttached(s, grant.entity, now, active);
    RemainingExact(active, grant.id);
    RenderedAccess(s.bao, grant.entity, Remaining(active, grant.id), t, path, c);
    RemainingEntitles(s.db, grant.entity, now, active, grant.id, t, path, c);
  }

  lemma {:induction false} WrittenRemainder(s: Sys, tid: ThreadId, grant: Grant)
    requires Inv(s) && tid in s.threads && Removes(s.threads[tid], grant)
    ensures var th := s.threads[tid];
            && Lists(s.db, grant.entity, th.now, th.active) && th.now <= s.clock
            && PolicyIs(s.bao, grant.entity, Remaining(th.active, grant.id)) && GrantsImplyAttached(s.db, s.bao, grant.entity)
  {
    assert ThreadOk(s, s.threads[tid]) && EntityOk(s, grant.entity);
    HolderPhase(s, tid, grant.entity);
  }

  /** Everything the entity is entitled to is given by its other stored grants. */
  ghost predicate Superseded(db: Db, clock: int, entity: string, id: Id) {
    forall t, path, c :: t >= clock && Entitled(db, entity, t, path, c) ==> EntitledBesides(db, id, entity, t, path, c)
  }

  lemma {:induction false} UnrecordedSync(s: Sys, grant: Grant, now: int, active: seq<Grant>)
    requires DbInv(s.db) && Lists(s.db, grant.entity, now, active) && now <= s.clock
    requires PolicyIs(s.bao, grant.entity, Remaining(active, grant.id)) && GrantsImplyAttached(s.db, s.bao, grant.entity)
    ensures Sync(s.db, s.bao, s.clock, grant.entity) <==> Superseded(s.db, s.clock, grant.entity, grant.id)
  {
    forall t, path, c | t >= s.clock
      ensures Access(s.bao, grant.entity, t, path, c) <==> EntitledBesides(s.db, grant.id, grant.entity, t, path, c)
    {
      UnrecordedAccess(s, grant, now, active, t, path, c);
    }
  }

  /**
    * A revocation that fails past its policy write, and whose restore fails too, leaves its
    * entity unlocked with policy and store apart, unless other stored grants give all that
    * the grant still gives.
    */
  lemma {:induction false} FailedRevocationExact(s: Sys, labels: seq<Label>, tid: ThreadId, c: Choice, error: Error, how: Failing, grant: Grant)
    requires Init(s) && IsRun(s, labels) && tid in After(s, labels).threads && Removes(After(s, labels).threads[tid], grant)
    requires FailsAt(After(s, labels), tid, c, grant.entity, error) && CanFail(After(s, labels), grant.entity, how)
    ensures IsRun(s, labels + GivingUp(tid, c, how))
    ensures var last, e := After(s, labels + GivingUp(tid, c, how)), grant.entity;
            && e !in last.locks && e in last.dirty
            && (Sync(last.db, last.bao, last.clock, e) <==> Superseded(last.db, last.clock, e, grant.id))
  {
    Theorems.RunKeeps(s, labels);
    GivingUpIsRun(s, labels, tid, c, grant.entity, error, how);
    var before := After(s, labels);
    WrittenRemainder(before, tid, grant);
    UnrecordedSync(before, grant, before.threads[tid].now, before.threads[tid].active);
  }

  // ---------------------------------------------------------- when a call can fail so

  /** Every position past the policy write can fail by a failing call. */
  lemma {:induction false} WritingCanFail(s: Sys, tid: ThreadId, b: Batch, active: seq<Grant>)
    requires tid in s.threads && Installs(s.threads[tid], b, active)
    ensures exists error :: FailsAt(s, tid, Fault, b.loaded.entity, error)
  {
    if s.threads[tid].DecideReady? {
      assert FailsAt(s, tid, Fault, b.loaded.entity, StoreFailure);
    } else {
      assert FailsAt(s, tid, Fault, b.loaded.entity, BaoFailure);
    }
  }

  lemma {:induction false} RemovingCanFail(s: Sys, tid: ThreadId, grant: Grant)
    requires tid in s.threads && Removes(s.threads[tid], grant)
    ensures FailsAt(s, tid, Fault, grant.entity, StoreFailure)
  {
  }
}
