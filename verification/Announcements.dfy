// Announcing expired grants: each sweep asks for the grants that expired since the last
// successful one, so the windows tile time. Grants are committed and revoked between and
// during sweeps, time passes, and queries may fail.
module Announcements {
  import opened Options
  import opened Store
  import opened Time

  /**
    * `sweeping` is the instant a sweep in progress read from the clock. The rest is
    * history: the first sweep's instant, the announcements in order, the grants committed
    * before their expiry, and those a successful sweep passed over because they were revoked.
    */
  datatype State = State(grants: map<Id, Grant>, clock: int, sweepAt: Option<int>, sweeping: Option<int>,
                         first: int, announced: seq<Id>, timely: set<Id>, passed: set<Id>)

  datatype Move =
    | Tick(elapsed: nat)
    | Commit(grant: Grant)
    | Revoke(id: Id, at: int)
    | BeginSweep
    | Query(ids: seq<Id>)
    | QueryFails

  ghost predicate Allowed(s: State, m: Move) {
    match m
    case Tick(_) => true
    case Commit(g) => g.id !in s.grants && g.revokedAt == 0 && StoredTime(g.expiresAt) == g.expiresAt
    case Revoke(id, at) => id in s.grants && at != 0
    case BeginSweep => s.sweeping == None
    case Query(ids) => s.sweeping.Some? && s.sweepAt.Some? && ListsExpired(s.grants, s.sweepAt.value, s.sweeping.value, ids)
    case QueryFails => s.sweeping.Some?
  }

  predicate Within(g: Grant, after: int, until: int) {
    UnixMilli(after) < UnixMilli(g.expiresAt) <= UnixMilli(until)
  }

  function Passed(grants: map<Id, Grant>, after: int, until: int): set<Id> {
    set id | id in grants && Within(grants[id], after, until) && grants[id].revokedAt != 0
  }

  /** The first sweep only sets the starting point; a failed query leaves the window open. */
  function Moved(s: State, m: Move): State {
    match m
    case Tick(elapsed) => s.(clock := s.clock + elapsed)
    case Commit(g) => s.(grants := s.grants[g.id := g], timely := if s.clock < g.expiresAt then s.timely + {g.id} else s.timely)
    case Revoke(id, at) => if id in s.grants then s.(grants := s.grants[id := s.grants[id].(revokedAt := at)]) else s
    case BeginSweep =>
      if s.sweepAt == None then s.(sweepAt := Some(s.clock), first := s.clock) else s.(sweeping := Some(s.clock))
    case Query(ids) =>
      if s.sweeping == None || s.sweepAt == None then s
      else s.(sweepAt := s.sweeping, sweeping := None, announced := s.announced + ids,
              passed := s.passed + Passed(s.grants, s.sweepAt.value, s.sweeping.value))
    case QueryFails => s.(sweeping := None)
  }

  predicate Start(s: State) {
    s.grants == map[] && s.sweepAt == None && s.sweeping == None && s.announced == [] && s.timely == {} && s.passed == {}
  }

  ghost predicate IsRun(s: State, moves: seq<Move>)
    decreases |moves|, 0
  {
    moves == [] || (IsRun(s, moves[..|moves| - 1]) && Allowed(After(s, moves[..|moves| - 1]), moves[|moves| - 1]))
  }

  ghost function After(s: State, moves: seq<Move>): State
    requires IsRun(s, moves)
    decreases |moves|, 1
  {
    if moves == [] then s else Moved(After(s, moves[..|moves| - 1]), moves[|moves| - 1])
  }

  /** The grant expired after the first sweep and no later than the last successful one. */
  predicate Swept(s: State, g: Grant) {
    s.sweepAt.Some? && Within(g, s.first, s.sweepAt.value)
  }

  predicate Dealt(s: State, id: Id) {
    id in s.announced || id in s.passed
  }

  ghost predicate Inv(s: State) {
    && (s.sweepAt.Some? ==> s.first <= s.sweepAt.value <= s.clock)
    && (s.sweeping.Some? ==> s.sweepAt.Some? && s.sweepAt.value <= s.sweeping.value <= s.clock)
    && (s.sweepAt == None ==> s.announced == [] && s.passed == {})
    && (forall id :: id in s.grants ==> s.grants[id].id == id && StoredTime(s.grants[id].expiresAt) == s.grants[id].expiresAt)
    && (forall i, j :: 0 <= i < j < |s.announced| ==> s.announced[i] != s.announced[j])
    && (forall id :: Dealt(s, id) ==> id in s.grants && Swept(s, s.grants[id]) && !(id in s.announced && id in s.passed))
    && (forall id :: id in s.timely ==> id in s.grants && (Swept(s, s.grants[id]) ==> Dealt(s, id)))
  }

  lemma {:induction false} QueryKeeps(s: State, ids: seq<Id>)
    requires Inv(s) && Allowed(s, Query(ids))
    ensures Inv(Moved(s, Query(ids)))
  {
    var s' := Moved(s, Query(ids));
    forall id | id in ids ensures id !in s.announced && id !in s.passed {
      assert Dealt(s, id) ==> Swept(s, s.grants[id]);
    }
    DistinctAppend(s.announced, ids);
    forall id | Dealt(s', id) ensures id in s'.grants && Swept(s', s'.grants[id]) && !(id in s'.announced && id in s'.passed) {
      assert Dealt(s, id) || id in ids || id in Passed(s.grants, s.sweepAt.value, s.sweeping.value);
    }
    forall id | id in s'.timely && Swept(s', s'.grants[id]) ensures Dealt(s', id) {
      if !Swept(s, s.grants[id]) && s.grants[id].revokedAt == 0 {
        assert ExpiredWithin(s.grants[id], s.sweepAt.value, s.sweeping.value);
        assert id in ids;
      }
    }
  }

  lemma {:induction false} DistinctAppend(a: seq<Id>, b: seq<Id>)
    requires forall i, j :: 0 <= i < j < |a| ==> a[i] != a[j]
    requires forall i, j :: 0 <= i < j < |b| ==> b[i] != b[j]
    requires forall x :: x in b ==> x !in a
    ensures forall i, j :: 0 <= i < j < |a + b| ==> (a + b)[i] != (a + b)[j]
  {
    forall i, j | 0 <= i < j < |a + b| ensures (a + b)[i] != (a + b)[j] {
      if i < |a| <= j {
        assert a[i] in a && b[j - |a|] in b;
      }
    }
  }

  lemma {:induction false} CommitKeeps(s: State, g: Grant)
    requires Inv(s) && Allowed(s, Commit(g))
    ensures Inv(Moved(s, Commit(g)))
  {
    var s' := Moved(s, Commit(g));
    forall id | Dealt(s', id) ensures id in s'.grants && Swept(s', s'.grants[id]) && !(id in s'.announced && id in s'.passed) {
      assert Dealt(s, id);
    }
    if s.clock < g.expiresAt && s.sweepAt.Some? {
      StoredComparison(g.expiresAt, s.sweepAt.value);
    }
    forall id | id in s'.timely && Swept(s', s'.grants[id]) ensures Dealt(s', id) {
      if id in s.timely {
        assert Dealt(s, id);
      }
    }
  }

  lemma {:induction false} OtherKeeps(s: State, m: Move)
    requires Inv(s) && Allowed(s, m) && !m.Query? && !m.Commit?
    ensures Inv(Moved(s, m))
  {
    var s' := Moved(s, m);
    assert forall id :: Dealt(s', id) <==> Dealt(s, id);
  }

  lemma {:induction false} RunKeeps(s: State, moves: seq<Move>)
    requires Start(s) && IsRun(s, moves)
    ensures Inv(After(s, moves))
    decreases |moves|
  {
    if moves != [] {
      var before, m := After(s, moves[..|moves| - 1]), moves[|moves| - 1];
      RunKeeps(s, moves[..|moves| - 1]);
      match m
      case Query(ids) => QueryKeeps(before, ids);
      case Commit(g) => CommitKeeps(before, g);
      case _ => OtherKeeps(before, m);
    }
  }

  /**
    * The windows tile time: no grant is announced twice. A grant committed before its
    * expiry, expiring after the first sweep, has been announced, exactly once, as soon as a
    * sweep at or after its expiry succeeds, unless it was revoked when that sweep asked.
    */
  lemma {:induction false} AnnouncedExactlyOnce(s: State, moves: seq<Move>, id: Id)
    requires Start(s) && IsRun(s, moves)
    ensures var now := After(s, moves);
            && multiset(now.announced)[id] <= 1
            && (id in now.timely ==> id in now.grants)
            && (id in now.timely && Swept(now, now.grants[id]) ==> (multiset(now.announced)[id] == 1 <==> id !in now.passed))
            && (id in now.announced ==> id in now.grants && Swept(now, now.grants[id]))
  {
    RunKeeps(s, moves);
    var now := After(s, moves);
    CountDistinct(now.announced, id);
    assert id in now.timely && Swept(now, now.grants[id]) ==> Dealt(now, id);
    assert id in now.announced ==> Dealt(now, id);
  }

  lemma {:induction false} CountDistinct(ids: seq<Id>, id: Id)
    requires forall i, j :: 0 <= i < j < |ids| ==> ids[i] != ids[j]
    ensures multiset(ids)[id] == if id in ids then 1 else 0
  {
    if ids != [] {
      CountDistinct(ids[1..], id);
      assert ids == [ids[0]] + ids[1..];
    }
  }

  // --------------------------------------------------------------- the live sweep

  class Announcer {
    var grantSweepAt: Option<int>

    constructor ()
      ensures grantSweepAt == None
    {
      grantSweepAt := None;
    }

    method AnnounceExpiredGrants(store: Database, now: int, fault: bool) returns (err: bool, announced: seq<Id>)
      modifies this
      ensures err <==> fault && old(grantSweepAt).Some?
      ensures grantSweepAt == if err then old(grantSweepAt) else Some(now)
      ensures if err || old(grantSweepAt) == None then announced == []
              else ListsExpired(store.grants, old(grantSweepAt).value, now, announced)
    {
      if grantSweepAt == None {
        grantSweepAt := Some(now);
        return false, [];
      }
      if fault {
        return true, [];
      }
      announced := store.ExpiredGrants(grantSweepAt.value, now);
      grantSweepAt := Some(now);
      return false, announced;
    }
  }
}
