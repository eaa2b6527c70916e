// The step machine with the lock table in place of its one-step locks: a thread counts
// itself in, takes the lock object when it is free, frees it and counts itself out, and
// any number of threads interleave these sub-steps with everything else. Every such run
// is a run of the step machine, so what holds of those holds with the real locks.
module LockRefinement {
  import opened Invariants
  import opened Options
  import opened Protocol
  import opened Traces
  import Frames
  import LockTable
  import Theorems

  datatype Both = Both(sys: Sys, table: LockTable.State)

  /** The entity whose lock a thread is about to take. */
  function Queued(th: Thread): Option<string> {
    match th
    case DecideQueued(_, _, _, entity) => Some(entity)
    case RevokeQueued(_, grant) => Some(grant.entity)
    case _ => None
  }

  /** A step of the machine that takes or frees a lock. */
  predicate Locking(s: Sys, l: Label) {
    l.Step? && l.thread in s.threads && (Queued(s.threads[l.thread]).Some? || s.threads[l.thread].Unlocking?)
  }

  datatype Move =
    | Solo(step: Label)
    | Enter(thread: ThreadId, made: LockTable.LockId)
    | Take(thread: ThreadId)
    | Free(thread: ThreadId)
    | Leave(thread: ThreadId)

  /** A thread takes its lock when the lock object lets it; the machine's own guard is not asked. */
  ghost predicate Allowed(b: Both, m: Move) {
    match m
    case Solo(l) => Enabled(b.sys, l) && !Locking(b.sys, l)
    case Enter(tid, made) =>
      && tid in b.sys.threads && Queued(b.sys.threads[tid]).Some?
      && LockTable.MayEnter(b.table, tid, Queued(b.sys.threads[tid]).value, made)
    case Take(tid) =>
      && tid in b.sys.threads && Queued(b.sys.threads[tid]).Some?
      && LockTable.Allowed(b.table, LockTable.Acquire(tid)) && b.table.uses[tid].entity == Queued(b.sys.threads[tid]).value
    case Free(tid) => tid in b.sys.threads && b.sys.threads[tid].Unlocking?
    case Leave(tid) => LockTable.Allowed(b.table, LockTable.Leave(tid))
  }

  ghost function Moved(b: Both, m: Move): Both
    requires Allowed(b, m)
  {
    match m
    case Solo(l) => b.(sys := Next(b.sys, l))
    case Enter(tid, made) => b.(table := LockTable.Entered(b.table, tid, Queued(b.sys.threads[tid]).value, made))
    case Take(tid) => Both(StepThread(b.sys, tid, Ok), LockTable.Acquired(b.table, tid))
    case Free(tid) => Both(StepThread(b.sys, tid, Ok), if LockTable.Using(b.table, tid, LockTable.Holding) then LockTable.Released(b.table, tid) else b.table)
    case Leave(tid) => b.(table := LockTable.Left(b.table, tid))
  }

  ghost predicate Legal(s: Sys, moves: seq<Move>)
    decreases |moves|, 0
  {
    moves == [] || (Legal(s, moves[..|moves| - 1]) && Allowed(Reached(s, moves[..|moves| - 1]), moves[|moves| - 1]))
  }

  ghost function Reached(s: Sys, moves: seq<Move>): Both
    requires Legal(s, moves)
    decreases |moves|, 1
  {
    if moves == [] then Both(s, LockTable.State(map[], map[], map[], map[]))
    else Moved(Reached(s, moves[..|moves| - 1]), moves[|moves| - 1])
  }

  /** The holders of lock objects are the holders of the machine's locks. */
  ghost predicate Coupled(b: Both) {
    LockTable.Inv(b.table) && b.table.holders == b.sys.locks
  }

  lemma {:induction false} SoloCoupled(s: Sys, l: Label)
    requires Enabled(s, l) && !Locking(s, l)
    ensures Next(s, l).locks == s.locks
  {
    if l.Step? {
      Frames.ThreadLocks(s, l.thread, l.choice);
    }
  }

  /** The lock object is free exactly when the machine's lock is. */
  lemma {:induction false} TakeEnabled(b: Both, tid: ThreadId)
    requires Coupled(b) && Allowed(b, Take(tid))
    ensures Enabled(b.sys, Step(tid, Ok))
  {
    LockTable.AcquireKeeps(b.table, tid);
  }

  lemma {:induction false} TakesLock(s: Sys, tid: ThreadId)
    requires tid in s.threads && Queued(s.threads[tid]).Some?
    ensures StepThread(s, tid, Ok).locks == s.locks[Queued(s.threads[tid]).value := tid]
  {
  }

  lemma {:induction false} TakeCoupled(b: Both, tid: ThreadId)
    requires Coupled(b) && Allowed(b, Take(tid))
    ensures Coupled(Moved(b, Take(tid)))
  {
    LockTable.AcquireKeeps(b.table, tid);
    TakesLock(b.sys, tid);
  }

  lemma {:induction false} HolderUses(b: Both, tid: ThreadId, e: string)
    requires Coupled(b) && e in b.sys.locks && b.sys.locks[e] == tid
    ensures LockTable.Using(b.table, tid, LockTable.Holding) && b.table.uses[tid].entity == e
  {
    LockTable.EntryInUse(b.table, tid);
  }

  lemma {:induction false} FreeCoupled(b: Both, tid: ThreadId)
    requires Coupled(b) && LocksOk(b.sys) && Allowed(b, Free(tid))
    ensures Enabled(b.sys, Step(tid, Ok)) && LockTable.Using(b.table, tid, LockTable.Holding) && Coupled(Moved(b, Free(tid)))
  {
    HolderUses(b, tid, b.sys.threads[tid].entity);
    LockTable.ReleaseKeeps(b.table, tid);
  }

  /** What a combined move does to the machine: one of its enabled steps, or nothing. */
  lemma {:induction false} MoveRefines(b: Both, m: Move)
    requires Coupled(b) && LocksOk(b.sys) && Allowed(b, m)
    ensures Coupled(Moved(b, m))
    ensures match m
            case Solo(l) => Leads(b.sys, l, Moved(b, m).sys)
            case Take(tid) => Leads(b.sys, Step(tid, Ok), Moved(b, m).sys)
            case Free(tid) => Leads(b.sys, Step(tid, Ok), Moved(b, m).sys)
            case _ => Moved(b, m).sys == b.sys
  {
    match m
    case Solo(l) => SoloCoupled(b.sys, l);
    case Enter(tid, made) => LockTable.EnterKeeps(b.table, tid, Queued(b.sys.threads[tid]).value, made);
    case Take(tid) => TakeEnabled(b, tid); TakeCoupled(b, tid);
    case Free(tid) => FreeCoupled(b, tid);
    case Leave(tid) => LockTable.LeaveKeeps(b.table, tid);
  }

  function LabelOf(m: Move): seq<Label> {
    match m
    case Solo(l) => [l]
    case Take(tid) => [Step(tid, Ok)]
    case Free(tid) => [Step(tid, Ok)]
    case _ => []
  }

  function Labels(moves: seq<Move>): seq<Label> {
    if moves == [] then [] else Labels(moves[..|moves| - 1]) + LabelOf(moves[|moves| - 1])
  }

  /** Every run with the real lock table is a run of the step machine, with the same holders. */
  lemma {:induction false} TableRefinesMachine(s: Sys, moves: seq<Move>)
    requires Init(s) && Legal(s, moves)
    ensures IsRun(s, Labels(moves)) && After(s, Labels(moves)) == Reached(s, moves).sys
    ensures Coupled(Reached(s, moves))
    decreases |moves|
  {
    if moves != [] {
      var before, m := moves[..|moves| - 1], moves[|moves| - 1];
      TableRefinesMachine(s, before);
      Theorems.RunKeeps(s, Labels(before));
      MoveRefines(Reached(s, before), m);
      OneMoreLabel(s, Labels(before), LabelOf(m), Reached(s, before).sys, Reached(s, moves).sys);
    }
  }

  lemma {:induction false} OneMoreLabel(s: Sys, labels: seq<Label>, more: seq<Label>, now: Sys, next: Sys)
    requires IsRun(s, labels) && After(s, labels) == now
    requires if more == [] then next == now else |more| == 1 && Leads(now, more[0], next)
    ensures IsRun(s, labels + more) && After(s, labels + more) == next
  {
    if more == [] {
      assert labels + more == labels;
    } else {
      ExtendRun(s, labels, more[0], next);
      assert labels + more == labels + [more[0]];
    }
  }
}
