// The service as the program runs it: methods over the live store and the live OpenBao.
// Each keeps a ghost log of the steps it takes, so that every call is a run of the step
// machine and what is proved of all runs holds of it.
module Service {
  import opened Calm
  import opened Decisions
  import opened Fates
  import opened Integrity
  import opened Invariants
  import opened OpenBao
  import opened Options
  import opened Protocol
  import opened Rules
  import opened Store
  import opened Time
  import opened Traces
  import Filing
  import LockTable
  import Theorems
  import Verdicts

  datatype Search = Found(grant: Grant) | Missing(error: Error)

  datatype Judged = Fit(batch: Batch) | Unfit(error: Error)

  lemma {:induction false} NextIsResolve(s: Sys, tid: ThreadId, entity: string, inputs: seq<ItemInput>, ttl: int, c: Choice)
    requires tid in s.threads && s.threads[tid] == FileCall(entity, inputs, ttl)
    ensures Enabled(s, Step(tid, c)) && Next(s, Step(tid, c)) == ResolveStep(s, tid, entity, inputs, ttl, c)
  {
  }

  lemma {:induction false} NextIsWriteBatch(s: Sys, tid: ThreadId, b: Batch, active: seq<Grant>, c: Choice)
    requires tid in s.threads && s.threads[tid] == DecideListed(b, active)
    ensures Enabled(s, Step(tid, c)) && Next(s, Step(tid, c)) == WriteBatchStep(s, tid, b, active, c)
  {
  }

  lemma {:induction false} NextIsWriteRemaining(s: Sys, tid: ThreadId, approver: Approver, grant: Grant, now: int, active: seq<Grant>, c: Choice)
    requires tid in s.threads && s.threads[tid] == RevokeListed(approver, grant, now, active)
    ensures Enabled(s, Step(tid, c)) && Next(s, Step(tid, c)) == WriteRemainingStep(s, tid, approver, grant, now, active, c)
  {
  }

  lemma {:induction false} NextIsRewrite(s: Sys, tid: ThreadId, entity: string, error: Error, now: int, active: seq<Grant>, c: Choice)
    requires tid in s.threads && s.threads[tid] == RestoreListed(entity, error, now, active)
    ensures Enabled(s, Step(tid, c)) && Next(s, Step(tid, c)) == RewriteStep(s, tid, entity, error, active, c)
  {
  }

  lemma {:induction false} ResolvesTo(s: Sys, tid: ThreadId, entity: string, inputs: seq<ItemInput>, ttl: int, ids: seq<Id>, filed: Request)
    requires 1 <= |inputs| <= Filing.MAX_ITEMS && |ids| == |inputs| + 1
    requires filed == Request(ids[0], entity, s.clock, s.clock + ttl, Filing.FiledItems(s.policy, inputs, ids[1..]))
    ensures ResolveStep(s, tid, entity, inputs, ttl, Ids(ids)) == Goto(s, tid, FileResolved(filed))
  {
  }

  class GrantService {
    const store: Database
    const bao: Server
    const sessions: LockTable.Table
    var policy: Policy
    var clock: int
    const pendingTTL: int

    /** Whether the store and OpenBao never fail, and calls take no time. */
    const calm: bool

    ghost var trace: seq<Sys>
    ghost var log: seq<Label>
    ghost var sys: Sys

    // The call under way: its thread, the IDs it draws, and where and how it began.
    ghost var caller: ThreadId
    ghost var drawn: seq<Id>
    ghost var start: nat
    ghost var begun: Sys

    constructor (baseline: map<string, AclPolicy>, entities: map<string, seq<string>>, policy: Policy, pendingTTL: int, clock: int, calm: bool)
      requires ValidPolicy(policy) && clock >= MILLISECOND
      requires forall name :: name in baseline ==> !(POLICY_PREFIX <= name)
      ensures Valid() && Unlocked() && fresh(store) && fresh(bao) && fresh(sessions)
    {
      this.store := new Database();
      this.sessions := new LockTable.Table();
      this.bao := new Server(baseline, entities);
      this.policy, this.pendingTTL, this.clock, this.calm := policy, pendingTTL, clock, calm;
      this.log := [];
      this.sys := Sys(Db(map[], map[]), Bao(baseline, entities), clock, policy, map[], map[], {}, {});
      this.trace := [Sys(Db(map[], map[]), Bao(baseline, entities), clock, policy, map[], map[], {}, {})];
      this.caller, this.drawn, this.start := 0, [], 0;
      this.begun := Sys(Db(map[], map[]), Bao(baseline, entities), clock, policy, map[], map[], {}, {});
    }

    /** The log is a run of the step machine that ends in `sys`; in calm surroundings the call under way is too. */
    ghost predicate Traced()
      reads this
    {
      && IsTrace(trace, log) && sys == trace[|log|]
      && start <= |log| && trace[start] == begun
      && (calm ==> CalmFrom(trace, log, start, caller, drawn))
    }

    /** The live store, OpenBao, configuration and clock are those of `sys`. */
    ghost predicate Valid()
      reads this, store, bao
    {
      Traced() && sys.db == store.Contents() && sys.bao == bao.Contents() && sys.policy == policy && sys.clock == clock
    }

    /** Nobody holds a lock, in the table as in the machine. */
    ghost predicate Unlocked()
      reads this, sessions
    {
      sessions.Idle() && sys.locks == map[]
    }

    /** The thread, and nobody else, holds the entity's lock, in the table as in the machine. */
    ghost predicate Locked(tid: ThreadId, entity: string, lock: LockTable.LockId)
      reads this, sessions
    {
      sessions.HeldBy(tid, entity, lock) && sys.locks == map[entity := tid]
    }

    ghost predicate At(tid: ThreadId, th: Thread)
      reads this
    {
      tid == caller && tid in sys.threads && sys.threads[tid] == th
    }

    /** Every reachable state satisfies the invariant. */
    lemma {:induction false} Reachable()
      requires Traced()
      ensures Inv(sys) && ValidPolicy(sys.policy)
    {
      TraceIsRun(trace, log);
      Theorems.RunKeeps(trace[0], log);
    }

    /**
      * Between calls the live OpenBao gives an entity, now and from now on, exactly what the
      * live store entitles it to, unless its last restore failed.
      */
    lemma {:induction false} LiveAgreement(entity: string, t: int, path: string, capability: string)
      requires Valid() && entity !in sys.locks && entity !in sys.dirty && t >= clock
      ensures Access(bao.Contents(), entity, t, path, capability) <==> Entitled(store.Contents(), entity, t, path, capability)
    {
      TraceIsRun(trace, log);
      Theorems.PolicyMatchesStore(trace[0], log, entity, t, path, capability);
    }

    lemma {:induction false} TablesKeyed()
      requires Traced()
      ensures Keyed(sys.db)
    {
      Reachable();
      forall id | id in sys.db.requests ensures sys.db.requests[id].request.id == id {
        assert RowOk(sys.db.grants, id, sys.db.requests[id]);
      }
      forall id | id in sys.db.grants ensures sys.db.grants[id].id == id {
        assert GrantOk(sys.db.requests, id, sys.db.grants[id]);
      }
    }

    // A lock is held only for a named entity.
    lemma {:induction false} HolderNamed(tid: ThreadId)
      requires Traced() && tid in sys.threads && Holds(sys.threads[tid]).Some?
      ensures Holds(sys.threads[tid]).value != ""
    {
      Reachable();
    }

    lemma {:induction false} RequestKeyed(id: Id)
      requires Traced()
      ensures id in sys.db.requests ==> sys.db.requests[id].request.id == id
    {
      TablesKeyed();
    }

    lemma {:induction false} GrantKeyed(id: Id)
      requires Traced()
      ensures id in sys.db.grants ==> sys.db.grants[id].id == id
    {
      TablesKeyed();
    }

    // The grant being revoked is the stored one, and the time is past the epoch.
    lemma {:induction false} RevokingKnown(tid: ThreadId, approver: Approver, grant: Grant, now: int, active: seq<Grant>)
      requires Traced() && At(tid, RevokeWritten(approver, grant, now, active))
      ensures KnownGrant(sys.db, grant) && StoredTime(now) != 0
    {
      Reachable();
      assert ThreadOk(sys, sys.threads[tid]);
    }

    /** A step of somebody else, or the beginning of a call. */
    ghost method Restart(l: Label, tid: ThreadId, ids: seq<Id>)
      requires Traced() && Enabled(sys, l)
      modifies this`trace, this`log, this`sys, this`caller, this`drawn, this`start, this`begun
      ensures Traced() && old(log) <= log && sys == Next(old(sys), l)
      ensures start == |log| && begun == sys && caller == tid && drawn == ids
    {
      ExtendChain(trace, log, l, Next(sys, l));
      trace, log, sys := trace + [Next(sys, l)], log + [l], Next(sys, l);
      caller, drawn, start, begun := tid, ids, |log|, sys;
    }

    ghost method Record(l: Label)
      requires Traced() && Enabled(sys, l) && (calm ==> CalmLabel(sys, l, caller, drawn))
      modifies this`trace, this`log, this`sys
      ensures Traced() && log == old(log) + [l] && sys == Next(old(sys), l)
    {
      ExtendChain(trace, log, l, Next(sys, l));
      if calm {
        CalmExtends(trace, log, start, caller, drawn, l, Next(sys, l));
      }
      trace, log, sys := trace + [Next(sys, l)], log + [l], Next(sys, l);
    }

    ghost method RecordTo(l: Label, next: Sys)
      requires Traced() && Enabled(sys, l) && Next(sys, l) == next && (calm ==> CalmLabel(sys, l, caller, drawn))
      modifies this`trace, this`log, this`sys
      ensures Traced() && old(log) <= log && sys == next
    {
      Record(l);
    }

    // One ghost method a position, so that callers see only that position's step.

    ghost method Begin(tid: ThreadId, call: Thread, ids: seq<Id>)
      requires Traced() && tid !in sys.threads && StartsCall(call)
      modifies this`trace, this`log, this`sys, this`caller, this`drawn, this`start, this`begun
      ensures Traced() && old(log) <= log && sys == Goto(old(sys), tid, call)
      ensures begun == sys && caller == tid && drawn == ids
    {
      Restart(Start(tid, call), tid, ids);
    }

    ghost method FilingRejected(tid: ThreadId, entity: string, inputs: seq<ItemInput>, ttl: int)
      requires Traced() && At(tid, FileCall(entity, inputs, ttl)) && !(1 <= |inputs| <= Filing.MAX_ITEMS)
      modifies this`trace, this`log, this`sys
      ensures Traced() && old(log) <= log && sys == Goto(old(sys), tid, Done(Failure(InvalidInput)))
    {
      Record(Step(tid, Ids(drawn)));
    }

    ghost method FilingResolved(tid: ThreadId, entity: string, inputs: seq<ItemInput>, ttl: int, ids: seq<Id>, filed: Request)
      requires Traced() && At(tid, FileCall(entity, inputs, ttl)) && 1 <= |inputs| <= Filing.MAX_ITEMS && |ids| == |inputs| + 1 && ids == drawn
      requires filed == Request(ids[0], entity, sys.clock, sys.clock + ttl, Filing.FiledItems(sys.policy, inputs, ids[1..]))
      modifies this`trace, this`log, this`sys
      ensures Traced() && old(log) <= log && sys == Goto(old(sys), tid, FileResolved(filed))
    {
      NextIsResolve(sys, tid, entity, inputs, ttl, Ids(ids));
      ResolvesTo(sys, tid, entity, inputs, ttl, ids, filed);
      RecordTo(Step(tid, Ids(ids)), Goto(sys, tid, FileResolved(filed)));
    }

    ghost method FilingChecked(tid: ThreadId, filing: Request, c: Choice)
      requires Traced() && At(tid, FileResolved(filing))
      requires calm ==> c == Ok
      modifies this`trace, this`log, this`sys
      ensures Traced() && old(log) <= log && sys == CheckStep(old(sys), tid, filing, c)
    {
      Record(Step(tid, c));
    }

    ghost method FilingStored(tid: ThreadId, filing: Request, c: Choice)
      requires Traced() && At(tid, FileChecked(filing)) && FreshItems(sys.db, filing)
      requires calm ==> c == Ok
      modifies this`trace, this`log, this`sys
      ensures Traced() && old(log) <= log && sys == InsertStep(old(sys), tid, filing, c)
    {
      Record(Step(tid, c));
    }

    ghost method DecideAsked(tid: ThreadId, approver: Approver, requestId: Id, decisions: seq<Decision>, c: Choice)
      requires Traced() && At(tid, DecideCall(approver, requestId, decisions))
      requires calm ==> c == Ok
      modifies this`trace, this`log, this`sys
      ensures Traced() && old(log) <= log && sys == AskStep(old(sys), tid, approver, requestId, decisions, c)
    {
      Record(Step(tid, c));
    }

    ghost method DecideAdmitted(tid: ThreadId, approver: Approver, requestId: Id, decisions: seq<Decision>, entity: string)
      requires Traced() && At(tid, DecideQueued(approver, requestId, decisions, entity)) && entity !in sys.locks
      modifies this`trace, this`log, this`sys
      ensures Traced() && old(log) <= log && sys == Acquire(old(sys), tid, entity, DecideLocked(approver, requestId, decisions, entity))
    {
      Record(Step(tid, Ok));
    }

    ghost method RequestLoaded(tid: ThreadId, approver: Approver, requestId: Id, decisions: seq<Decision>, entity: string, c: Choice)
      requires Traced() && At(tid, DecideLocked(approver, requestId, decisions, entity))
      requires calm ==> c == Ok
      modifies this`trace, this`log, this`sys
      ensures Traced() && old(log) <= log && sys == LoadStep(old(sys), tid, approver, requestId, decisions, entity, c)
    {
      Record(Step(tid, c));
    }

    ghost method BatchJudged(tid: ThreadId, approver: Approver, decisions: seq<Decision>, loaded: Request, c: Choice)
      requires Traced() && At(tid, DecideLoaded(approver, decisions, loaded))
      requires calm ==> c == Ids(drawn)
      modifies this`trace, this`log, this`sys
      ensures Traced() && old(log) <= log && sys == JudgeStep(old(sys), tid, approver, decisions, loaded, c)
    {
      Record(Step(tid, c));
    }

    ghost method BatchListed(tid: ThreadId, b: Batch, c: Choice)
      requires Traced() && At(tid, DecideJudged(b)) && (c.Listing? ==> Lists(sys.db, b.loaded.entity, b.now, c.grants))
      requires calm ==> c.Listing?
      modifies this`trace, this`log, this`sys
      ensures Traced() && old(log) <= log && sys == ListStep(old(sys), tid, b, c)
    {
      Record(Step(tid, c));
    }

    ghost method BatchWritten(tid: ThreadId, b: Batch, active: seq<Grant>, c: Choice)
      requires Traced() && At(tid, DecideListed(b, active))
      requires calm ==> c == Ok
      modifies this`trace, this`log, this`sys
      ensures Traced() && old(log) <= log && sys == WriteBatchStep(old(sys), tid, b, active, c)
    {
      NextIsWriteBatch(sys, tid, b, active, c);
      RecordTo(Step(tid, c), WriteBatchStep(sys, tid, b, active, c));
    }

    ghost method EntityRead(tid: ThreadId, b: Batch, active: seq<Grant>, c: Choice)
      requires Traced() && At(tid, DecideWritten(b, active))
      requires calm ==> c == Ok
      modifies this`trace, this`log, this`sys
      ensures Traced() && old(log) <= log && sys == ReadEntityStep(old(sys), tid, b, active, c)
    {
      Record(Step(tid, c));
    }

    ghost method PolicyAttached(tid: ThreadId, b: Batch, active: seq<Grant>, names: seq<string>, c: Choice)
      requires Traced() && At(tid, DecideEntityRead(b, active, names))
      requires calm ==> c == Ok
      modifies this`trace, this`log, this`sys
      ensures Traced() && old(log) <= log && sys == AttachStep(old(sys), tid, b, active, names, c)
    {
      Record(Step(tid, c));
    }

    ghost method BatchCommitted(tid: ThreadId, b: Batch, active: seq<Grant>, c: Choice)
      requires Traced() && At(tid, DecideReady(b, active))
      requires calm ==> c == Ok
      modifies this`trace, this`log, this`sys
      ensures Traced() && old(log) <= log && sys == CommitStep(old(sys), tid, b, c)
    {
      Record(Step(tid, c));
    }

    ghost method GrantFound(tid: ThreadId, approver: Approver, grantId: Id, c: Choice)
      requires Traced() && At(tid, RevokeCall(approver, grantId))
      requires calm ==> c == Ok
      modifies this`trace, this`log, this`sys
      ensures Traced() && old(log) <= log && sys == FindStep(old(sys), tid, approver, grantId, c)
    {
      Record(Step(tid, c));
    }

    ghost method RevokeAdmitted(tid: ThreadId, approver: Approver, grant: Grant)
      requires Traced() && At(tid, RevokeQueued(approver, grant)) && grant.entity !in sys.locks
      modifies this`trace, this`log, this`sys
      ensures Traced() && old(log) <= log && sys == Acquire(old(sys), tid, grant.entity, RevokeLocked(approver, grant))
    {
      Record(Step(tid, Ok));
    }

    ghost method RevokeClocked(tid: ThreadId, approver: Approver, grant: Grant)
      requires Traced() && At(tid, RevokeLocked(approver, grant))
      modifies this`trace, this`log, this`sys
      ensures Traced() && old(log) <= log && sys == Goto(old(sys), tid, RevokeTimed(approver, grant, old(sys).clock))
    {
      Record(Step(tid, Ok));
    }

    ghost method GrantChosen(tid: ThreadId, approver: Approver, grant: Grant, now: int, c: Choice)
      requires Traced() && At(tid, RevokeTimed(approver, grant, now)) && (c.Listing? ==> Lists(sys.db, grant.entity, now, c.grants))
      requires calm ==> c.Listing?
      modifies this`trace, this`log, this`sys
      ensures Traced() && old(log) <= log && sys == ChooseStep(old(sys), tid, approver, grant, now, c)
    {
      Record(Step(tid, c));
    }

    ghost method RemainderWritten(tid: ThreadId, approver: Approver, grant: Grant, now: int, active: seq<Grant>, c: Choice)
      requires Traced() && At(tid, RevokeListed(approver, grant, now, active))
      requires calm ==> c == Ok
      modifies this`trace, this`log, this`sys
      ensures Traced() && old(log) <= log && sys == WriteRemainingStep(old(sys), tid, approver, grant, now, active, c)
    {
      NextIsWriteRemaining(sys, tid, approver, grant, now, active, c);
      RecordTo(Step(tid, c), WriteRemainingStep(sys, tid, approver, grant, now, active, c));
    }

    ghost method RevocationRecorded(tid: ThreadId, approver: Approver, grant: Grant, now: int, active: seq<Grant>, c: Choice)
      requires Traced() && At(tid, RevokeWritten(approver, grant, now, active))
      requires calm ==> c == Ok
      modifies this`trace, this`log, this`sys
      ensures Traced() && old(log) <= log && sys == RecordStep(old(sys), tid, approver, grant, now, c)
    {
      Record(Step(tid, c));
    }

    ghost method RestoreClocked(tid: ThreadId, entity: string, error: Error)
      requires Traced() && At(tid, RestoreCall(entity, error))
      modifies this`trace, this`log, this`sys
      ensures Traced() && old(log) <= log && sys == Goto(old(sys), tid, RestoreTimed(entity, error, old(sys).clock))
    {
      Record(Step(tid, Ok));
    }

    ghost method RestoreRelisted(tid: ThreadId, entity: string, error: Error, now: int, c: Choice)
      requires Traced() && At(tid, RestoreTimed(entity, error, now)) && (c.Listing? ==> Lists(sys.db, entity, now, c.grants))
      requires calm ==> c.Listing?
      modifies this`trace, this`log, this`sys
      ensures Traced() && old(log) <= log && sys == RelistStep(old(sys), tid, entity, error, now, c)
    {
      Record(Step(tid, c));
    }

    ghost method RestoreWritten(tid: ThreadId, entity: string, error: Error, now: int, active: seq<Grant>, c: Choice)
      requires Traced() && At(tid, RestoreListed(entity, error, now, active))
      requires calm ==> c == Ok
      modifies this`trace, this`log, this`sys
      ensures Traced() && old(log) <= log && sys == RewriteStep(old(sys), tid, entity, error, active, c)
    {
      NextIsRewrite(sys, tid, entity, error, now, active, c);
      RecordTo(Step(tid, c), RewriteStep(sys, tid, entity, error, active, c));
    }

    ghost method Freed(tid: ThreadId, entity: string, outcome: Outcome)
      requires Traced() && At(tid, Unlocking(entity, outcome))
      modifies this`trace, this`log, this`sys
      ensures Traced() && old(log) <= log && sys == Release(old(sys), tid, entity, outcome)
    {
      Record(Step(tid, Ok));
    }

    /** s.now(): time has passed since the last look at the clock. */
    method Now() returns (now: int)
      requires Valid()
      modifies this`clock, this`trace, this`log, this`sys
      ensures Valid() && now == clock && old(clock) <= clock && old(log) <= log
      ensures sys == old(sys).(clock := clock)
      ensures calm ==> clock == old(clock)
    {
      var later: int := *;
      if later < clock || calm {
        later := clock;
      }
      Record(Tick(later - clock));
      clock := later;
      return later;
    }

    /** Whether the call that comes next fails. */
    method Fault() returns (fault: bool)
      ensures calm ==> !fault
    {
      fault := *;
      if calm {
        fault := false;
      }
    }

    // ---------------------------------------------------------------- policies

    method WritePolicy(entity: string, gs: seq<Grant>) returns (err: bool, ghost c: Choice)
      modifies bao
      ensures c == Ok || c == Choice.Fault
      ensures calm ==> c == Ok
      ensures err <==> WriteSession(old(bao.Contents()), entity, gs, clock, c).None?
      ensures bao.Contents() == if err then old(bao.Contents()) else WriteSession(old(bao.Contents()), entity, gs, clock, c).value
    {
      var fault := Fault();
      c := if fault then Choice.Fault else Ok;
      if gs == [] {
        err := bao.DeletePolicy(PolicyName(entity), fault);
        return;
      }
      var document := RenderSessionPolicy(gs);
      err := bao.WritePolicy(PolicyName(entity), document, clock, fault);
    }

    /** The stored active grants of the entity whose lock the thread holds. */
    method ListHeld(entity: string, now: int, ghost tid: ThreadId) returns (active: seq<Grant>)
      requires Valid() && tid in sys.threads && Holds(sys.threads[tid]) == Some(entity)
      ensures Lists(sys.db, entity, now, active)
    {
      TablesKeyed();
      HolderNamed(tid);
      active := store.ActiveGrants(entity, now);
    }

    /** Rewrites the session policy from the stored active grants. */
    method RestorePolicy(entity: string, error: Error, ghost tid: ThreadId)
      requires Valid() && At(tid, RestoreCall(entity, error))
      modifies this`clock, this`trace, this`log, this`sys, bao
      ensures Valid() && old(log) <= log && At(tid, Unlocking(entity, Failure(error)))
      ensures sys.locks == old(sys.locks) && sys.db == old(sys.db)
    {
      var now := TimeRestore(entity, error, tid);
      RestoreListing(entity, error, now, tid);
    }

    method TimeRestore(ghost entity: string, ghost error: Error, ghost tid: ThreadId) returns (now: int)
      requires Valid() && At(tid, RestoreCall(entity, error))
      modifies this`clock, this`trace, this`log, this`sys
      ensures Valid() && old(log) <= log && At(tid, RestoreTimed(entity, error, now))
      ensures sys.locks == old(sys.locks) && sys.db == old(sys.db)
    {
      now := Now();
      RestoreClocked(tid, entity, error);
    }

    method RestoreListing(entity: string, error: Error, now: int, ghost tid: ThreadId)
      requires Valid() && At(tid, RestoreTimed(entity, error, now))
      modifies this`clock, this`trace, this`log, this`sys, bao
      ensures Valid() && old(log) <= log && At(tid, Unlocking(entity, Failure(error)))
      ensures sys.locks == old(sys.locks) && sys.db == old(sys.db)
    {
      var fault := Fault();
      if fault {
        RestoreRelisted(tid, entity, error, now, Choice.Fault);
        return;
      }
      var active := ListHeld(entity, now, tid);
      RestoreRelisted(tid, entity, error, now, Listing(active));
      RewriteActive(entity, error, now, active, tid);
    }

    method RewriteActive(entity: string, error: Error, ghost now: int, active: seq<Grant>, ghost tid: ThreadId)
      requires Valid() && At(tid, RestoreListed(entity, error, now, active))
      modifies this`clock, this`trace, this`log, this`sys, bao
      ensures Valid() && old(log) <= log && At(tid, Unlocking(entity, Failure(error)))
      ensures sys.locks == old(sys.locks) && sys.db == old(sys.db)
    {
      var _ := Now();
      var err;
      ghost var c;
      err, c := WritePolicy(entity, active);
      RestoreWritten(tid, entity, error, now, active, c);
    }

    /** Adds the session policy to the entity's list, keeping what an operator attached. */
    method AttachPolicy(b: Batch, ghost active: seq<Grant>, ghost tid: ThreadId) returns (err: bool)
      requires Valid() && At(tid, DecideWritten(b, active))
      modifies this`trace, this`log, this`sys, bao
      ensures Valid() && old(log) <= log
      ensures At(tid, if err then RestoreCall(b.loaded.entity, BaoFailure) else DecideReady(b, active))
      ensures sys.locks == old(sys.locks) && sys.db == old(sys.db)
    {
      var names := ReadNames(b, active, tid);
      if names == None {
        return true;
      }
      if PolicyName(b.loaded.entity) in names.value {
        return false;
      }
      err := SetNames(b, active, names.value, tid);
    }

    method ReadNames(b: Batch, ghost active: seq<Grant>, ghost tid: ThreadId) returns (names: Option<seq<string>>)
      requires Valid() && At(tid, DecideWritten(b, active))
      modifies this`trace, this`log, this`sys
      ensures Valid() && old(log) <= log && sys.locks == old(sys.locks) && sys.db == old(sys.db)
      ensures At(tid, if names == None then RestoreCall(b.loaded.entity, BaoFailure)
                      else if PolicyName(b.loaded.entity) in names.value then DecideReady(b, active)
                      else DecideEntityRead(b, active, names.value))
    {
      var fault := Fault();
      names := bao.ReadEntity(b.loaded.entity, fault);
      EntityRead(tid, b, active, if fault then Choice.Fault else Ok);
    }

    method SetNames(b: Batch, ghost active: seq<Grant>, names: seq<string>, ghost tid: ThreadId) returns (err: bool)
      requires Valid() && At(tid, DecideEntityRead(b, active, names))
      modifies this`trace, this`log, this`sys, bao
      ensures Valid() && old(log) <= log && sys.locks == old(sys.locks) && sys.db == old(sys.db)
      ensures At(tid, if err then RestoreCall(b.loaded.entity, BaoFailure) else DecideReady(b, active))
    {
      var fault := Fault();
      err := bao.SetEntityPolicies(b.loaded.entity, names + [PolicyName(b.loaded.entity)], fault);
      PolicyAttached(tid, b, active, names, if fault then Choice.Fault else Ok);
    }

    // ---------------------------------------------------------------- deciding

    /**
      * Applies an Approver's decisions to items of one request, all or nothing. The grant IDs
      * it may draw are given, one a decision.
      */
    method Decide(approver: Approver, requestId: Id, decisions: seq<Decision>, ids: seq<Id>, ghost tid: ThreadId) returns (outcome: Outcome)
      requires Valid() && tid !in sys.threads && Unlocked() && |ids| == |decisions|
      modifies this`clock, this`trace, this`log, this`sys, this`caller, this`drawn, this`start, this`begun, store, bao, sessions
      ensures Valid() && old(log) <= log && Unlocked()
      ensures At(tid, Done(outcome))
      ensures outcome.Success? ==> DecisionsStored(store.Contents(), requestId, approver, decisions)
      ensures calm ==>
                DecideFate(old(store.Contents()), old(bao.Contents()), policy, old(clock), approver, requestId, decisions, ids, store.Contents(), outcome)
    {
      Begin(tid, DecideCall(approver, requestId, decisions), ids);
      Reachable();
      outcome := DecideCalled(approver, requestId, decisions, ids, tid);
    }

    method DecideCalled(approver: Approver, requestId: Id, decisions: seq<Decision>, ids: seq<Id>, ghost tid: ThreadId) returns (outcome: Outcome)
      requires Valid() && At(tid, DecideCall(approver, requestId, decisions)) && Unlocked() && |ids| == |decisions| && ids == drawn
      requires begun == sys && Inv(begun) && ValidPolicy(begun.policy)
      modifies this`clock, this`trace, this`log, this`sys, store, bao, sessions
      ensures Valid() && old(log) <= log && Unlocked()
      ensures At(tid, Done(outcome))
      ensures outcome.Success? ==> DecisionsStored(sys.db, requestId, approver, decisions)
      ensures calm ==>
                DecideFate(begun.db, begun.bao, begun.policy, begun.clock, approver, requestId, decisions, ids, sys.db, outcome)
    {
      outcome := DecideBegun(approver, requestId, decisions, ids, tid);
      DecideEnded(approver, requestId, decisions, tid, outcome);
    }

    lemma {:induction false} DecideEnded(approver: Approver, requestId: Id, decisions: seq<Decision>, tid: ThreadId, outcome: Outcome)
      requires Traced() && At(tid, Done(outcome)) && |drawn| == |decisions|
      requires tid in begun.threads && begun.threads[tid] == DecideCall(approver, requestId, decisions)
      requires Inv(begun) && ValidPolicy(begun.policy)
      ensures calm ==>
                DecideFate(begun.db, begun.bao, begun.policy, begun.clock, approver, requestId, decisions, drawn, sys.db, outcome)
    {
      if calm {
        DecideEnds(trace, log, start, tid, approver, requestId, decisions, drawn);
      }
    }

    method DecideBegun(approver: Approver, requestId: Id, decisions: seq<Decision>, ids: seq<Id>, ghost tid: ThreadId) returns (outcome: Outcome)
      requires Valid() && At(tid, DecideCall(approver, requestId, decisions)) && Unlocked() && |ids| == |decisions| && ids == drawn
      modifies this`clock, this`trace, this`log, this`sys, store, bao, sessions
      ensures Valid() && old(log) <= log && Unlocked()
      ensures At(tid, Done(outcome))
      ensures outcome.Success? ==> DecisionsStored(sys.db, requestId, approver, decisions)
    {
      if decisions == [] {
        DecideAsked(tid, approver, requestId, decisions, Ok);
        return Failure(InvalidInput);
      }
      outcome := DecideAsking(approver, requestId, decisions, ids, tid);
    }

    method DecideAsking(approver: Approver, requestId: Id, decisions: seq<Decision>, ids: seq<Id>, ghost tid: ThreadId) returns (outcome: Outcome)
      requires Valid() && At(tid, DecideCall(approver, requestId, decisions)) && decisions != [] && Unlocked()
      requires |ids| == |decisions| && ids == drawn
      modifies this`clock, this`trace, this`log, this`sys, store, bao, sessions
      ensures Valid() && old(log) <= log && Unlocked()
      ensures At(tid, Done(outcome))
      ensures outcome.Success? ==> DecisionsStored(sys.db, requestId, approver, decisions)
    {
      var error, entity := FindToDecide(approver, requestId, decisions, tid);
      if error.Some? {
        return Failure(error.value);
      }
      outcome := DecideUnderLock(approver, requestId, decisions, ids, entity, tid);
    }

    /** The entity whose request it is, unless the request cannot be read or decided by the Approver. */
    method FindToDecide(approver: Approver, requestId: Id, decisions: seq<Decision>, ghost tid: ThreadId) returns (error: Option<Error>, entity: string)
      requires Valid() && At(tid, DecideCall(approver, requestId, decisions)) && decisions != []
      modifies this`trace, this`log, this`sys
      ensures Valid() && old(log) <= log && sys.locks == old(sys.locks)
      ensures At(tid, if error.Some? then Done(Failure(error.value)) else DecideQueued(approver, requestId, decisions, entity))
    {
      entity := "";
      var fault := Fault();
      var found := store.GrantRequest(requestId);
      DecideAsked(tid, approver, requestId, decisions, if fault then Choice.Fault else Ok);
      if fault {
        return Some(StoreFailure), entity;
      }
      if found == None {
        return Some(NotFound), entity;
      }
      entity := found.value.entity;
      error := if entity == approver.entity then Some(SelfApproval) else None;
    }

    method DecideUnderLock(approver: Approver, requestId: Id, decisions: seq<Decision>, ids: seq<Id>, entity: string, ghost tid: ThreadId)
      returns (outcome: Outcome)
      requires Valid() && At(tid, DecideQueued(approver, requestId, decisions, entity)) && Unlocked()
      requires |ids| == |decisions| && ids == drawn
      modifies this`clock, this`trace, this`log, this`sys, store, bao, sessions
      ensures Valid() && old(log) <= log && Unlocked()
      ensures At(tid, Done(outcome))
      ensures outcome.Success? ==> DecisionsStored(sys.db, requestId, approver, decisions)
    {
      var lock;
      outcome, lock := DecideHolding(approver, requestId, decisions, ids, entity, tid);
      GiveBack(entity, lock, outcome, tid);
    }

    method DecideHolding(approver: Approver, requestId: Id, decisions: seq<Decision>, ids: seq<Id>, entity: string, ghost tid: ThreadId)
      returns (outcome: Outcome, lock: LockTable.LockId)
      requires Valid() && At(tid, DecideQueued(approver, requestId, decisions, entity)) && Unlocked()
      requires |ids| == |decisions| && ids == drawn
      modifies this`clock, this`trace, this`log, this`sys, store, bao, sessions
      ensures Valid() && old(log) <= log && Locked(tid, entity, lock)
      ensures At(tid, Unlocking(entity, outcome))
      ensures outcome.Success? ==> DecisionsStored(sys.db, requestId, approver, decisions)
    {
      lock := TakeToDecide(approver, requestId, decisions, entity, tid);
      outcome := DecideLockedRequest(approver, requestId, decisions, ids, entity, tid);
    }

    method TakeToDecide(ghost approver: Approver, ghost requestId: Id, ghost decisions: seq<Decision>, entity: string, ghost tid: ThreadId)
      returns (lock: LockTable.LockId)
      requires Valid() && At(tid, DecideQueued(approver, requestId, decisions, entity)) && Unlocked()
      modifies this`trace, this`log, this`sys, sessions
      ensures Valid() && old(log) <= log && Locked(tid, entity, lock)
      ensures At(tid, DecideLocked(approver, requestId, decisions, entity)) && sys.db == old(sys.db)
    {
      lock := sessions.Lock(tid, entity);
      DecideAdmitted(tid, approver, requestId, decisions, entity);
    }

    method TakeToRevoke(ghost approver: Approver, grant: Grant, ghost tid: ThreadId) returns (lock: LockTable.LockId)
      requires Valid() && At(tid, RevokeQueued(approver, grant)) && Unlocked()
      modifies this`trace, this`log, this`sys, sessions
      ensures Valid() && old(log) <= log && Locked(tid, grant.entity, lock)
      ensures At(tid, RevokeLocked(approver, grant)) && sys.db == old(sys.db)
    {
      lock := sessions.Lock(tid, grant.entity);
      RevokeAdmitted(tid, approver, grant);
    }

    method GiveBack(entity: string, lock: LockTable.LockId, ghost outcome: Outcome, ghost tid: ThreadId)
      requires Valid() && At(tid, Unlocking(entity, outcome)) && Locked(tid, entity, lock)
      modifies this`trace, this`log, this`sys, sessions
      ensures Valid() && old(log) <= log && Unlocked()
      ensures At(tid, Done(outcome)) && sys.db == old(sys.db) && sys.dirty == old(sys.dirty)
    {
      sessions.Unlock(tid, entity, lock);
      Freed(tid, entity, outcome);
    }

    /** The part of Decide that runs under the session lock. */
    method DecideLockedRequest(approver: Approver, requestId: Id, decisions: seq<Decision>, ids: seq<Id>, ghost entity: string, ghost tid: ThreadId)
      returns (outcome: Outcome)
      requires Valid() && At(tid, DecideLocked(approver, requestId, decisions, entity)) && sys.locks == map[entity := tid]
      requires |ids| == |decisions| && ids == drawn
      modifies this`clock, this`trace, this`log, this`sys, store, bao
      ensures Valid() && old(log) <= log && sys.locks == map[entity := tid]
      ensures At(tid, Unlocking(entity, outcome))
      ensures outcome.Success? ==> DecisionsStored(sys.db, requestId, approver, decisions)
    {
      var loaded := LoadRequest(approver, requestId, decisions, entity, tid);
      if loaded == None {
        return Failure(StoreFailure);
      }
      outcome := DecideLoadedRequest(approver, decisions, ids, loaded.value, tid);
    }

    /** Reads the request again, now that nobody else decides it. */
    method LoadRequest(ghost approver: Approver, requestId: Id, ghost decisions: seq<Decision>, ghost entity: string, ghost tid: ThreadId)
      returns (loaded: Option<Request>)
      requires Valid() && At(tid, DecideLocked(approver, requestId, decisions, entity)) && sys.locks == map[entity := tid]
      modifies this`trace, this`log, this`sys
      ensures Valid() && old(log) <= log && sys.locks == old(sys.locks)
      ensures At(tid, if loaded == None then Unlocking(entity, Failure(StoreFailure)) else DecideLoaded(approver, decisions, loaded.value))
      ensures loaded.Some? ==> loaded.value.entity == entity && loaded.value.id == requestId
    {
      var fault := Fault();
      loaded := store.GrantRequest(requestId);
      RequestLoaded(tid, approver, requestId, decisions, entity, if fault then Choice.Fault else Ok);
      if fault {
        loaded := None;
      }
      if loaded.Some? {
        LoadedEntity(tid);
        RequestKeyed(requestId);
      }
    }

    // The request loaded under the lock belongs to the locked entity.
    lemma {:induction false} LoadedEntity(tid: ThreadId)
      requires Traced() && tid in sys.threads && sys.threads[tid].DecideLoaded?
      ensures sys.threads[tid].loaded.entity in sys.locks && sys.locks[sys.threads[tid].loaded.entity] == tid
    {
      Reachable();
    }

    method DecideLoadedRequest(approver: Approver, decisions: seq<Decision>, ids: seq<Id>, loaded: Request, ghost tid: ThreadId)
      returns (outcome: Outcome)
      requires Valid() && At(tid, DecideLoaded(approver, decisions, loaded))
      requires |ids| == |decisions| && ids == drawn
      modifies this`clock, this`trace, this`log, this`sys, store, bao
      ensures Valid() && old(log) <= log && sys.locks == old(sys.locks)
      ensures At(tid, Unlocking(loaded.entity, outcome))
      ensures outcome.Success? ==> DecisionsStored(sys.db, loaded.id, approver, decisions)
    {
      var judged := JudgeLoaded(approver, decisions, ids, loaded, tid);
      match judged {
        case Unfit(error) => return Failure(error);
        case Fit(b) => outcome := ApplyBatch(b, tid);
      }
    }

    method JudgeLoaded(approver: Approver, decisions: seq<Decision>, ids: seq<Id>, loaded: Request, ghost tid: ThreadId) returns (judged: Judged)
      requires Valid() && At(tid, DecideLoaded(approver, decisions, loaded))
      requires |ids| == |decisions| && ids == drawn
      modifies this`clock, this`trace, this`log, this`sys
      ensures Valid() && old(log) <= log && sys.locks == old(sys.locks) && sys.db == old(sys.db)
      ensures match judged
              case Unfit(error) => At(tid, Unlocking(loaded.entity, Failure(error)))
              case Fit(b) =>
                && At(tid, if b.grants == [] then DecideReady(b, []) else DecideJudged(b))
                && b.loaded == loaded && b.decided.id == loaded.id && Verdicts.AllStand(b.decided.items, approver, decisions)
    {
      var now := Now();
      var verdict := Verdicts.JudgeItems(policy, approver, now, ids, decisions, loaded);
      BatchJudged(tid, approver, decisions, loaded, Ids(ids));
      if verdict.Failed? {
        return Unfit(verdict.error);
      }
      Verdicts.AcceptedStand(policy, approver, now, ids, decisions, loaded);
      return Fit(Batch(policy, approver, loaded, verdict.tally.request, verdict.tally.grants, now));
    }

    /** A batch without approvals makes no OpenBao call. */
    method ApplyBatch(b: Batch, ghost tid: ThreadId) returns (outcome: Outcome)
      requires Valid() && At(tid, if b.grants == [] then DecideReady(b, []) else DecideJudged(b))
      modifies this`clock, this`trace, this`log, this`sys, store, bao
      ensures Valid() && old(log) <= log && sys.locks == old(sys.locks)
      ensures At(tid, Unlocking(b.loaded.entity, outcome))
      ensures b.grants == [] ==> bao.Contents() == old(bao.Contents())
      ensures outcome.Success? ==> ItemsStored(sys.db, b.decided)
    {
      ghost var active: seq<Grant> := [];
      if b.grants != [] {
        var failed;
        failed, active := InstallGrants(b, tid);
        if failed.Some? {
          return Failure(failed.value);
        }
      }
      outcome := StoreDecisions(b, active, tid);
    }

    /** Writes the policy with the batch's grants and attaches it; on a failure past the write it is restored. */
    method InstallGrants(b: Batch, ghost tid: ThreadId) returns (failed: Option<Error>, ghost active: seq<Grant>)
      requires Valid() && At(tid, DecideJudged(b))
      modifies this`clock, this`trace, this`log, this`sys, bao
      ensures Valid() && old(log) <= log && sys.locks == old(sys.locks) && sys.db == old(sys.db)
      ensures At(tid, if failed.Some? then Unlocking(b.loaded.entity, Failure(failed.value)) else DecideReady(b, active))
    {
      var fault := Fault();
      if fault {
        BatchListed(tid, b, Choice.Fault);
        return Some(StoreFailure), [];
      }
      var listed := ListHeld(b.loaded.entity, b.now, tid);
      BatchListed(tid, b, Listing(listed));
      active := listed;
      failed := InstallListed(b, listed, tid);
    }

    method InstallListed(b: Batch, listed: seq<Grant>, ghost tid: ThreadId) returns (failed: Option<Error>)
      requires Valid() && At(tid, DecideListed(b, listed))
      modifies this`clock, this`trace, this`log, this`sys, bao
      ensures Valid() && old(log) <= log && sys.locks == old(sys.locks) && sys.db == old(sys.db)
      ensures At(tid, if failed.Some? then Unlocking(b.loaded.entity, Failure(failed.value)) else DecideReady(b, listed))
    {
      var err := WriteBatch(b, listed, tid);
      if err {
        return Some(BaoFailure);
      }
      failed := AttachOrRestore(b, listed, tid);
    }

    method AttachOrRestore(b: Batch, ghost listed: seq<Grant>, ghost tid: ThreadId) returns (failed: Option<Error>)
      requires Valid() && At(tid, DecideWritten(b, listed))
      modifies this`clock, this`trace, this`log, this`sys, bao
      ensures Valid() && old(log) <= log && sys.locks == old(sys.locks) && sys.db == old(sys.db)
      ensures At(tid, if failed.Some? then Unlocking(b.loaded.entity, Failure(failed.value)) else DecideReady(b, listed))
    {
      var err := AttachPolicy(b, listed, tid);
      if err {
        RestorePolicy(b.loaded.entity, BaoFailure, tid);
        return Some(BaoFailure);
      }
      return None;
    }

    method WriteBatch(b: Batch, listed: seq<Grant>, ghost tid: ThreadId) returns (err: bool)
      requires Valid() && At(tid, DecideListed(b, listed))
      modifies this`clock, this`trace, this`log, this`sys, bao
      ensures Valid() && old(log) <= log && sys.locks == old(sys.locks) && sys.db == old(sys.db)
      ensures At(tid, if err then Unlocking(b.loaded.entity, Failure(BaoFailure)) else DecideWritten(b, listed))
    {
      var _ := Now();
      ghost var c;
      err, c := WritePolicy(b.loaded.entity, listed + b.grants);
      BatchWritten(tid, b, listed, c);
    }

    /** Stores the batch in one transaction; when that fails after a policy write, the policy is restored. */
    method StoreDecisions(b: Batch, ghost active: seq<Grant>, ghost tid: ThreadId) returns (outcome: Outcome)
      requires Valid() && At(tid, DecideReady(b, active))
      modifies this`clock, this`trace, this`log, this`sys, store, bao
      ensures Valid() && old(log) <= log && sys.locks == old(sys.locks)
      ensures At(tid, Unlocking(b.loaded.entity, outcome))
      ensures b.grants == [] ==> bao.Contents() == old(bao.Contents())
      ensures outcome.Success? ==> ItemsStored(sys.db, b.decided)
    {
      var fault := Fault();
      var result := store.DecideItems(b.decided, b.grants, fault);
      BatchCommitted(tid, b, active, if fault then Choice.Fault else Ok);
      if result.Committed? {
        return Success;
      }
      var error := if result.StatusChanged? then Conflict else StoreFailure;
      if b.grants != [] {
        RestorePolicy(b.loaded.entity, error, tid);
      }
      return Failure(error);
    }

    // ---------------------------------------------------------------- revoking

    /** Removes a grant's block from the session policy, then records the revocation. */
    method Revoke(approver: Approver, grantId: Id, ghost tid: ThreadId) returns (outcome: Outcome)
      requires Valid() && tid !in sys.threads && Unlocked()
      modifies this`clock, this`trace, this`log, this`sys, this`caller, this`drawn, this`start, this`begun, store, bao, sessions
      ensures Valid() && old(log) <= log && Unlocked()
      ensures At(tid, Done(outcome))
      ensures outcome.Success? ==> RevocationStored(sys, grantId, approver)
      ensures calm ==> RevokeFate(old(store.Contents()), old(clock), approver, grantId, store.Contents(), outcome)
    {
      Begin(tid, RevokeCall(approver, grantId), []);
      Reachable();
      outcome := RevokeBegun(approver, grantId, tid);
      if calm {
        RevokeEnded(approver, grantId, tid, outcome);
      }
    }

    lemma {:induction false} RevokeEnded(approver: Approver, grantId: Id, tid: ThreadId, outcome: Outcome)
      requires Traced() && calm && At(tid, Done(outcome))
      requires tid in begun.threads && begun.threads[tid] == RevokeCall(approver, grantId) && Inv(begun)
      ensures RevokeFate(begun.db, begun.clock, approver, grantId, sys.db, outcome)
    {
      RevokeEnds(trace, log, start, tid, approver, grantId, drawn);
    }

    method RevokeBegun(approver: Approver, grantId: Id, ghost tid: ThreadId) returns (outcome: Outcome)
      requires Valid() && At(tid, RevokeCall(approver, grantId)) && Unlocked()
      modifies this`clock, this`trace, this`log, this`sys, store, bao, sessions
      ensures Valid() && old(log) <= log && Unlocked()
      ensures At(tid, Done(outcome))
      ensures outcome.Success? ==> RevocationStored(sys, grantId, approver)
    {
      var found := FindToRevoke(approver, grantId, tid);
      match found {
        case Missing(error) => return Failure(error);
        case Found(grant) => outcome := RevokeFound(approver, grantId, grant, tid);
      }
    }

    method FindToRevoke(ghost approver: Approver, grantId: Id, ghost tid: ThreadId) returns (found: Search)
      requires Valid() && At(tid, RevokeCall(approver, grantId))
      modifies this`trace, this`log, this`sys
      ensures Valid() && old(log) <= log && sys.locks == old(sys.locks)
      ensures match found
              case Missing(error) => At(tid, Done(Failure(error)))
              case Found(grant) => At(tid, RevokeQueued(approver, grant)) && grantId in sys.db.grants && sys.db.grants[grantId] == grant
    {
      var fault := Fault();
      var grant := store.FindGrant(grantId);
      GrantFound(tid, approver, grantId, if fault then Choice.Fault else Ok);
      if fault {
        return Missing(StoreFailure);
      }
      if grant == None {
        return Missing(NotFound);
      }
      return Found(grant.value);
    }

    method RevokeFound(approver: Approver, ghost grantId: Id, grant: Grant, ghost tid: ThreadId) returns (outcome: Outcome)
      requires Valid() && At(tid, RevokeQueued(approver, grant)) && Unlocked()
      requires grantId in sys.db.grants && sys.db.grants[grantId] == grant
      modifies this`clock, this`trace, this`log, this`sys, store, bao, sessions
      ensures Valid() && old(log) <= log && Unlocked()
      ensures At(tid, Done(outcome))
      ensures outcome.Success? ==> RevocationStored(sys, grantId, approver)
    {
      GrantKeyed(grantId);
      outcome := RevokeUnderLock(approver, grant, tid);
    }

    method RevokeUnderLock(approver: Approver, grant: Grant, ghost tid: ThreadId) returns (outcome: Outcome)
      requires Valid() && At(tid, RevokeQueued(approver, grant)) && Unlocked()
      modifies this`clock, this`trace, this`log, this`sys, store, bao, sessions
      ensures Valid() && old(log) <= log && Unlocked()
      ensures At(tid, Done(outcome))
      ensures outcome.Success? ==> RevocationStored(sys, grant.id, approver)
    {
      var lock;
      outcome, lock := RevokeHolding(approver, grant, tid);
      GiveBack(grant.entity, lock, outcome, tid);
    }

    method RevokeHolding(approver: Approver, grant: Grant, ghost tid: ThreadId) returns (outcome: Outcome, lock: LockTable.LockId)
      requires Valid() && At(tid, RevokeQueued(approver, grant)) && Unlocked()
      modifies this`clock, this`trace, this`log, this`sys, store, bao, sessions
      ensures Valid() && old(log) <= log && Locked(tid, grant.entity, lock)
      ensures At(tid, Unlocking(grant.entity, outcome))
      ensures outcome.Success? ==> RevocationStored(sys, grant.id, approver)
    {
      lock := TakeToRevoke(approver, grant, tid);
      outcome := RevokeLockedGrant(approver, grant, tid);
    }

    /** The part of Revoke that runs under the session lock. */
    method RevokeLockedGrant(approver: Approver, grant: Grant, ghost tid: ThreadId) returns (outcome: Outcome)
      requires Valid() && At(tid, RevokeLocked(approver, grant))
      modifies this`clock, this`trace, this`log, this`sys, store, bao
      ensures Valid() && old(log) <= log && sys.locks == old(sys.locks)
      ensures At(tid, Unlocking(grant.entity, outcome))
      ensures outcome.Success? ==> RevocationStored(sys, grant.id, approver)
    {
      var now := TimeRevocation(approver, grant, tid);
      outcome := RevokeListedGrant(approver, grant, now, tid);
    }

    method TimeRevocation(ghost approver: Approver, ghost grant: Grant, ghost tid: ThreadId) returns (now: int)
      requires Valid() && At(tid, RevokeLocked(approver, grant))
      modifies this`clock, this`trace, this`log, this`sys
      ensures Valid() && old(log) <= log && sys.locks == old(sys.locks) && At(tid, RevokeTimed(approver, grant, now))
    {
      now := Now();
      RevokeClocked(tid, approver, grant);
    }

    method RevokeListedGrant(approver: Approver, grant: Grant, now: int, ghost tid: ThreadId) returns (outcome: Outcome)
      requires Valid() && At(tid, RevokeTimed(approver, grant, now))
      modifies this`clock, this`trace, this`log, this`sys, store, bao
      ensures Valid() && old(log) <= log && sys.locks == old(sys.locks)
      ensures At(tid, Unlocking(grant.entity, outcome))
      ensures outcome.Success? ==> RevocationStored(sys, grant.id, approver)
    {
      var fault := Fault();
      if fault {
        GrantChosen(tid, approver, grant, now, Choice.Fault);
        return Failure(StoreFailure);
      }
      var active := ListHeld(grant.entity, now, tid);
      GrantChosen(tid, approver, grant, now, Listing(active));
      if |Remaining(active, grant.id)| == |active| {
        return Failure(Conflict);
      }
      outcome := RemoveGrant(approver, grant, now, active, tid);
    }

    method RemoveGrant(approver: Approver, grant: Grant, now: int, active: seq<Grant>, ghost tid: ThreadId) returns (outcome: Outcome)
      requires Valid() && At(tid, RevokeListed(approver, grant, now, active))
      modifies this`clock, this`trace, this`log, this`sys, store, bao
      ensures Valid() && old(log) <= log && sys.locks == old(sys.locks)
      ensures At(tid, Unlocking(grant.entity, outcome))
      ensures outcome.Success? ==> RevocationStored(sys, grant.id, approver)
    {
      var err := WriteRemainder(approver, grant, now, active, tid);
      if err {
        return Failure(BaoFailure);
      }
      outcome := RecordRevocation(approver, grant, now, active, tid);
    }

    method WriteRemainder(approver: Approver, grant: Grant, now: int, active: seq<Grant>, ghost tid: ThreadId) returns (err: bool)
      requires Valid() && At(tid, RevokeListed(approver, grant, now, active))
      modifies this`clock, this`trace, this`log, this`sys, bao
      ensures Valid() && old(log) <= log && sys.locks == old(sys.locks) && sys.db == old(sys.db)
      ensures At(tid, if err then Unlocking(grant.entity, Failure(BaoFailure)) else RevokeWritten(approver, grant, now, active))
    {
      var _ := Now();
      ghost var c;
      err, c := WritePolicy(grant.entity, Remaining(active, grant.id));
      RemainderWritten(tid, approver, grant, now, active, c);
    }

    method RecordRevocation(approver: Approver, grant: Grant, now: int, ghost active: seq<Grant>, ghost tid: ThreadId)
      returns (outcome: Outcome)
      requires Valid() && At(tid, RevokeWritten(approver, grant, now, active))
      modifies this`clock, this`trace, this`log, this`sys, store, bao
      ensures Valid() && old(log) <= log && sys.locks == old(sys.locks)
      ensures At(tid, Unlocking(grant.entity, outcome))
      ensures outcome.Success? ==> RevocationStored(sys, grant.id, approver)
    {
      var fault := Fault();
      RevokingKnown(tid, approver, grant, now, active);
      var result := store.RevokeGrant(grant.id, approver, now, fault);
      RevocationRecorded(tid, approver, grant, now, active, if fault then Choice.Fault else Ok);
      if result.Committed? {
        return Success;
      }
      var error := if result.StatusChanged? then Conflict else StoreFailure;
      RestorePolicy(grant.entity, error, tid);
      return Failure(error);
    }

    // ---------------------------------------------------------------- filing

    /**
      * Validates items and stores a Grant Request; a failing capability lookup leaves items
      * pending. The random IDs are given; no two of them are equal or already in use.
      */
    method CreateRequest(entity: string, inputs: seq<ItemInput>, ids: seq<Id>, ghost tid: ThreadId) returns (outcome: Outcome)
      requires Valid() && tid !in sys.threads && entity != ""
      requires |ids| == |inputs| + 1 && UnusedIds(store.requests, ids)
      modifies this`clock, this`trace, this`log, this`sys, this`caller, this`drawn, this`start, this`begun, store
      ensures Valid() && old(log) <= log && sys.locks == old(sys.locks)
      ensures At(tid, Done(outcome))
      ensures outcome.Success? ==> RequestStored(store.Contents(), policy, ids, entity, inputs)
      ensures calm ==>
                FileFate(old(store.Contents()), bao.Contents(), policy, old(clock), entity, inputs, pendingTTL, ids, store.Contents(), outcome)
    {
      Begin(tid, FileCall(entity, inputs, pendingTTL), ids);
      outcome := FileCalled(entity, inputs, ids, tid);
    }

    method FileCalled(entity: string, inputs: seq<ItemInput>, ids: seq<Id>, ghost tid: ThreadId) returns (outcome: Outcome)
      requires Valid() && At(tid, FileCall(entity, inputs, pendingTTL)) && begun == sys
      requires |ids| == |inputs| + 1 && UnusedIds(sys.db.requests, ids) && ids == drawn
      modifies this`clock, this`trace, this`log, this`sys, store
      ensures Valid() && old(log) <= log && sys.locks == old(sys.locks)
      ensures At(tid, Done(outcome))
      ensures outcome.Success? ==> RequestStored(sys.db, policy, ids, entity, inputs)
      ensures calm ==>
                FileFate(begun.db, begun.bao, begun.policy, begun.clock, entity, inputs, pendingTTL, ids, sys.db, outcome)
    {
      outcome := FileBegun(entity, inputs, ids, tid);
      if calm {
        FileEnded(entity, inputs, tid, outcome);
      }
    }

    lemma {:induction false} FileEnded(entity: string, inputs: seq<ItemInput>, tid: ThreadId, outcome: Outcome)
      requires Traced() && calm && At(tid, Done(outcome)) && |drawn| == |inputs| + 1
      requires tid in begun.threads && begun.threads[tid] == FileCall(entity, inputs, pendingTTL)
      ensures FileFate(begun.db, begun.bao, begun.policy, begun.clock, entity, inputs, pendingTTL, drawn, sys.db, outcome)
    {
      FileEnds(trace, log, start, tid, entity, inputs, pendingTTL, drawn);
    }

    method FileBegun(entity: string, inputs: seq<ItemInput>, ids: seq<Id>, ghost tid: ThreadId) returns (outcome: Outcome)
      requires Valid() && At(tid, FileCall(entity, inputs, pendingTTL))
      requires |ids| == |inputs| + 1 && UnusedIds(sys.db.requests, ids) && ids == drawn
      modifies this`clock, this`trace, this`log, this`sys, store
      ensures Valid() && old(log) <= log && sys.locks == old(sys.locks)
      ensures At(tid, Done(outcome))
      ensures outcome.Success? ==> RequestStored(sys.db, policy, ids, entity, inputs)
    {
      if |inputs| == 0 || |inputs| > Filing.MAX_ITEMS {
        FilingRejected(tid, entity, inputs, pendingTTL);
        return Failure(InvalidInput);
      }
      outcome := ResolveAndStore(entity, inputs, ids, tid);
    }

    method ResolveAndStore(entity: string, inputs: seq<ItemInput>, ids: seq<Id>, ghost tid: ThreadId) returns (outcome: Outcome)
      requires Valid() && At(tid, FileCall(entity, inputs, pendingTTL))
      requires |ids| == |inputs| + 1 && 1 <= |inputs| <= Filing.MAX_ITEMS && UnusedIds(sys.db.requests, ids)
      requires ids == drawn
      modifies this`clock, this`trace, this`log, this`sys, store
      ensures Valid() && old(log) <= log && sys.locks == old(sys.locks)
      ensures At(tid, Done(outcome))
      ensures outcome.Success? ==> RequestStored(sys.db, policy, ids, entity, inputs)
    {
      var request, checkPaths := ResolveInputs(entity, inputs, ids, tid);
      outcome := CheckAndStore(entity, request, checkPaths, inputs, ids, tid);
    }

    method CheckAndStore(entity: string, filed: Request, checkPaths: seq<string>, ghost inputs: seq<ItemInput>, ghost ids: seq<Id>, ghost tid: ThreadId)
      returns (outcome: Outcome)
      requires Valid() && At(tid, FileResolved(filed)) && filed.entity == entity && Filing.ChecksAll(checkPaths, filed.items)
      requires FiledWith(sys.db, policy, filed, inputs, ids)
      modifies this`clock, this`trace, this`log, this`sys, store
      ensures Valid() && old(log) <= log && sys.locks == old(sys.locks)
      ensures At(tid, Done(outcome))
      ensures outcome.Success? ==> RequestStored(sys.db, policy, ids, entity, inputs)
    {
      var items := CheckCovered(entity, filed, filed.items, checkPaths, tid);
      var request := filed.(items := items);
      FiledFresh(sys.db, policy, filed, request, inputs, ids);
      FiledStored(sys.db, policy, filed, items, inputs, ids);
      outcome := StoreRequest(request, tid);
    }

    method ResolveInputs(entity: string, inputs: seq<ItemInput>, ids: seq<Id>, ghost tid: ThreadId)
      returns (request: Request, checkPaths: seq<string>)
      requires Valid() && At(tid, FileCall(entity, inputs, pendingTTL))
      requires |ids| == |inputs| + 1 && 1 <= |inputs| <= Filing.MAX_ITEMS && UnusedIds(sys.db.requests, ids)
      requires ids == drawn
      modifies this`clock, this`trace, this`log, this`sys
      ensures Valid() && old(log) <= log && sys.locks == old(sys.locks) && sys.db == old(sys.db) && At(tid, FileResolved(request))
      ensures request.entity == entity && FiledWith(sys.db, policy, request, inputs, ids)
      ensures Filing.ChecksAll(checkPaths, request.items)
    {
      var now := Now();
      var items;
      items, checkPaths := Filing.FileItems(policy, inputs, ids[1..]);
      request := Request(ids[0], entity, now, now + pendingTTL, items);
      FilingResolved(tid, entity, inputs, pendingTTL, ids, request);
    }

    /** The capability lookup, made only when some item is pending. */
    method CheckCovered(entity: string, ghost filed: Request, given: seq<Item>, checkPaths: seq<string>, ghost tid: ThreadId) returns (items: seq<Item>)
      requires Valid() && At(tid, FileResolved(filed)) && filed.items == given && filed.entity == entity
      requires Filing.ChecksAll(checkPaths, given)
      modifies this`clock, this`trace, this`log, this`sys
      ensures Valid() && old(log) <= log && sys.locks == old(sys.locks) && sys.db == old(sys.db) && At(tid, FileChecked(filed.(items := items)))
      ensures |items| == |given| && forall i :: 0 <= i < |given| ==> LookedUp(given[i], items[i])
    {
      Filing.CheckedWhenPending(given, checkPaths);
      items := given;
      if checkPaths == [] {
        FilingChecked(tid, filed, Ok);
      } else {
        var _ := Now();
        items := LookUp(entity, filed, given, checkPaths, tid);
      }
    }

    method LookUp(entity: string, ghost filed: Request, given: seq<Item>, checkPaths: seq<string>, ghost tid: ThreadId) returns (items: seq<Item>)
      requires Valid() && At(tid, FileResolved(filed)) && filed.items == given && filed.entity == entity
      requires Filing.ChecksAll(checkPaths, given) && HasPending(given)
      modifies this`trace, this`log, this`sys
      ensures Valid() && old(log) <= log && sys.locks == old(sys.locks) && sys.db == old(sys.db) && At(tid, FileChecked(filed.(items := items)))
      ensures |items| == |given| && forall i :: 0 <= i < |given| ==> LookedUp(given[i], items[i])
    {
      var fault := Fault();
      items := MarkCovered(entity, given, checkPaths, fault);
      FilingChecked(tid, filed, if fault then Choice.Fault else Ok);
    }

    method StoreRequest(request: Request, ghost tid: ThreadId) returns (outcome: Outcome)
      requires Valid() && At(tid, FileChecked(request)) && FreshItems(sys.db, request)
      modifies this`trace, this`log, this`sys, store
      ensures Valid() && old(log) <= log && sys.locks == old(sys.locks) && At(tid, Done(outcome))
      ensures outcome.Success? ==> request.id in sys.db.requests && sys.db.requests[request.id].request.entity == request.entity
      ensures outcome.Success? ==> sys.db.requests[request.id].request.items == request.items
    {
      var fault := Fault();
      var err := store.CreateGrantRequest(request, fault);
      FilingStored(tid, request, if fault then Choice.Fault else Ok);
      return if err then Failure(StoreFailure) else Success;
    }

    method MarkCovered(entity: string, given: seq<Item>, checkPaths: seq<string>, fault: bool) returns (items: seq<Item>)
      requires Filing.ChecksAll(checkPaths, given)
      ensures items == if fault then given else Filing.MarkedItems(bao.Contents(), entity, clock, given)
    {
      items := given;
      var found := bao.CapabilitiesSelf(entity, checkPaths, clock, fault);
      if found.Some? {
        forall i | 0 <= i < |items| && items[i].state == Pending
          ensures items[i].path in found.value && found.value[items[i].path] == SelfCapabilities(bao.Contents(), entity, items[i].path, clock)
        {
          assert Filing.AsksFor(given, items[i].path);
        }
        items := Filing.MarkItems(items, found.value, bao.Contents(), entity, clock);
      }
    }

    // ---------------------------------------------------------------- sweeping

    /** Expires undecided items past their deadline; takes no lock. */
    method ExpirePending() returns (err: bool, ids: seq<Id>)
      requires Valid()
      modifies this`clock, this`trace, this`log, this`sys, this`caller, this`drawn, this`start, this`begun, store
      ensures Valid() && old(log) <= log && sys.locks == old(sys.locks) && sys.threads == old(sys.threads)
      ensures !err ==> Swept(old(store.Contents()), store.Contents(), clock)
      ensures calm ==> !err
      ensures !err ==> forall id :: id in sys.db.requests && HasPending(sys.db.requests[id].request.items) ==>
                clock < sys.db.requests[id].request.pendingUntil
    {
      var now := Now();
      var fault := Fault();
      err, ids := store.ExpirePendingItems(now, fault);
      if err {
        return;
      }
      Restart(Sweep(now), caller, drawn);
      SweptClean(now);
    }

    // A sweep that expired every due row leaves only pending requests before their deadline.
    lemma {:induction false} SweptClean(now: int)
      requires Traced() && now <= sys.clock
      requires forall id :: id in sys.db.requests && HasPending(sys.db.requests[id].request.items) ==> !Due(sys.db.requests[id], now)
      ensures forall id :: id in sys.db.requests && HasPending(sys.db.requests[id].request.items) ==>
                now < sys.db.requests[id].request.pendingUntil
    {
      Reachable();
      forall id | id in sys.db.requests && HasPending(sys.db.requests[id].request.items)
        ensures now < sys.db.requests[id].request.pendingUntil
      {
        assert RowOk(sys.db.grants, id, sys.db.requests[id]);
        StoredComparison(sys.db.requests[id].request.pendingUntil, now);
      }
    }
  }

  /** What the capability lookup may make of an item. */
  predicate LookedUp(before: Item, after: Item) {
    after == before || (before.state == Pending && after == before.(state := Store.AlreadyGranted, reason := HasAlready))
  }

  /** The request is stored under its ID, with an item for each input, in order, filed as the rules have it. */
  ghost predicate RequestStored(db: Db, p: Policy, ids: seq<Id>, entity: string, inputs: seq<ItemInput>)
    requires |ids| == |inputs| + 1
  {
    && ids[0] in db.requests && db.requests[ids[0]].request.entity == entity
    && var items := db.requests[ids[0]].request.items;
       |items| == |inputs| && forall i :: 0 <= i < |inputs| ==> StoredFrom(p, inputs, i, ids[i + 1], items[i])
  }

  ghost predicate StoredFrom(p: Policy, inputs: seq<ItemInput>, i: nat, id: Id, item: Item)
    requires i < |inputs|
  {
    exists filed: Item :: Filing.FiledFrom(p, inputs, i, id, filed) && LookedUp(filed, item)
  }

  ghost predicate ItemsStored(db: Db, decided: Request) {
    decided.id in db.requests && db.requests[decided.id].request.items == decided.items
  }

  /** Every decision stands in the stored request. */
  ghost predicate DecisionsStored(db: Db, requestId: Id, approver: Approver, decisions: seq<Decision>) {
    requestId in db.requests && Verdicts.AllStand(db.requests[requestId].request.items, approver, decisions)
  }

  /** The grant's row is revoked by the Approver, and its entity's policy and store agree again. */
  ghost predicate RevocationStored(s: Sys, grantId: Id, approver: Approver) {
    && grantId in s.db.grants && s.db.grants[grantId].revokedAt != 0 && s.db.grants[grantId].revokedBy == approver.name
    && s.db.grants[grantId].entity !in s.dirty
  }

  lemma {:induction false} FiledStored(db: Db, p: Policy, filed: Request, items: seq<Item>, inputs: seq<ItemInput>, ids: seq<Id>)
    requires FiledWith(db, p, filed, inputs, ids)
    requires |items| == |filed.items| && forall i :: 0 <= i < |items| ==> LookedUp(filed.items[i], items[i])
    ensures |items| == |inputs| && forall i :: 0 <= i < |inputs| ==> StoredFrom(p, inputs, i, ids[i + 1], items[i])
  {
    forall i | 0 <= i < |inputs| ensures StoredFrom(p, inputs, i, ids[i + 1], items[i]) {
      Filing.FiledItemExact(p, inputs, ids[1..], i);
      assert Filing.FiledFrom(p, inputs, i, ids[i + 1], filed.items[i]) && LookedUp(filed.items[i], items[i]);
    }
  }
}
