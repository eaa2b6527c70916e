// What the steps of each kind of thread leave as it is.
module Frames {
  import opened Protocol

  /** Only threads, locks, history and the two systems move. */
  predicate SameEnvironment(s: Sys, s': Sys) {
    s'.policy == s.policy && s'.clock == s.clock
  }

  lemma {:induction false} FileFrame(s: Sys, tid: ThreadId, c: Choice)
    requires tid in s.threads && IsFiling(s.threads[tid])
    ensures var s' := FileStep(s, tid, c);
            SameEnvironment(s, s') && s'.locks == s.locks && s'.bao == s.bao && s'.approvals == s.approvals
  {
  }

  lemma {:induction false} FileDbFrame(s: Sys, tid: ThreadId, c: Choice)
    requires tid in s.threads && (s.threads[tid].FileCall? || s.threads[tid].FileResolved?)
    ensures FileStep(s, tid, c).db == s.db
  {
  }

  lemma {:induction false} AskingFrame(s: Sys, tid: ThreadId, c: Choice)
    requires tid in s.threads
    ensures SameEnvironment(s, AskingStep(s, tid, c))
  {
  }

  lemma {:induction false} AskingSystems(s: Sys, tid: ThreadId, c: Choice)
    requires tid in s.threads
    ensures AskingStep(s, tid, c).db == s.db && AskingStep(s, tid, c).bao == s.bao
  {
  }

  lemma {:induction false} AskingLocks(s: Sys, tid: ThreadId, c: Choice)
    requires tid in s.threads && !s.threads[tid].DecideQueued?
    ensures AskingStep(s, tid, c).locks == s.locks
  {
  }

  lemma {:induction false} AskingHistory(s: Sys, tid: ThreadId, c: Choice)
    requires tid in s.threads && !s.threads[tid].DecideLoaded?
    ensures AskingStep(s, tid, c).approvals == s.approvals
  {
  }

  lemma {:induction false} InstallFrame(s: Sys, tid: ThreadId, c: Choice)
    requires tid in s.threads
    ensures var s' := InstallStep(s, tid, c);
            SameEnvironment(s, s') && s'.locks == s.locks && s'.approvals == s.approvals
  {
  }

  lemma {:induction false} InstallSystems(s: Sys, tid: ThreadId, c: Choice)
    requires tid in s.threads
    ensures !s.threads[tid].DecideReady? ==> InstallStep(s, tid, c).db == s.db
    ensures !s.threads[tid].DecideListed? && !s.threads[tid].DecideEntityRead? ==> InstallStep(s, tid, c).bao == s.bao
  {
  }

  lemma {:induction false} RevokeFrame(s: Sys, tid: ThreadId, c: Choice)
    requires tid in s.threads
    ensures var s' := RevokeStep(s, tid, c);
            && SameEnvironment(s, s') && s'.approvals == s.approvals
            && (!s.threads[tid].RevokeQueued? ==> s'.locks == s.locks)
  {
  }

  lemma {:induction false} RevokeSystems(s: Sys, tid: ThreadId, c: Choice)
    requires tid in s.threads
    ensures !s.threads[tid].RevokeWritten? ==> RevokeStep(s, tid, c).db == s.db
    ensures !s.threads[tid].RevokeListed? ==> RevokeStep(s, tid, c).bao == s.bao
  {
  }

  lemma {:induction false} RestoreFrame(s: Sys, tid: ThreadId, c: Choice)
    requires tid in s.threads
    ensures var s' := RestoreStep(s, tid, c);
            && SameEnvironment(s, s') && s'.approvals == s.approvals
            && (!s.threads[tid].Unlocking? ==> s'.locks == s.locks)
  {
  }

  lemma {:induction false} RestoreSystems(s: Sys, tid: ThreadId, c: Choice)
    requires tid in s.threads
    ensures RestoreStep(s, tid, c).db == s.db
    ensures !s.threads[tid].RestoreListed? ==> RestoreStep(s, tid, c).bao == s.bao
  {
  }

  /** A thread's step never changes the configuration or the clock. */
  lemma {:induction false} ThreadFrame(s: Sys, tid: ThreadId, c: Choice)
    requires tid in s.threads
    ensures SameEnvironment(s, StepThread(s, tid, c))
  {
    if IsFiling(s.threads[tid]) {
      FileFrame(s, tid, c);
    } else if IsRestoring(s.threads[tid]) {
      RestoreFrame(s, tid, c);
    } else if IsRevoking(s.threads[tid]) {
      RevokeFrame(s, tid, c);
    } else if IsInstalling(s.threads[tid]) {
      InstallFrame(s, tid, c);
    } else {
      AskingFrame(s, tid, c);
    }
  }

  /** Only judging adds to history. */
  lemma {:induction false} ThreadHistory(s: Sys, tid: ThreadId, c: Choice)
    requires tid in s.threads && !s.threads[tid].DecideLoaded?
    ensures StepThread(s, tid, c).approvals == s.approvals
  {
    if IsFiling(s.threads[tid]) {
      FileFrame(s, tid, c);
    } else if IsRestoring(s.threads[tid]) {
      RestoreFrame(s, tid, c);
    } else if IsRevoking(s.threads[tid]) {
      RevokeFrame(s, tid, c);
    } else if IsInstalling(s.threads[tid]) {
      InstallFrame(s, tid, c);
    } else {
      AskingHistory(s, tid, c);
    }
  }

  /** Only the steps that take or free a lock touch the locks. */
  lemma {:induction false} ThreadLocks(s: Sys, tid: ThreadId, c: Choice)
    requires tid in s.threads && !s.threads[tid].DecideQueued? && !s.threads[tid].RevokeQueued? && !s.threads[tid].Unlocking?
    ensures StepThread(s, tid, c).locks == s.locks
  {
    if IsFiling(s.threads[tid]) {
      FileFrame(s, tid, c);
    } else if IsRestoring(s.threads[tid]) {
      RestoreFrame(s, tid, c);
    } else if IsRevoking(s.threads[tid]) {
      RevokeFrame(s, tid, c);
    } else if IsInstalling(s.threads[tid]) {
      InstallFrame(s, tid, c);
    } else {
      AskingLocks(s, tid, c);
    }
  }
}
