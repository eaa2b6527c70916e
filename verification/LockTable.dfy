// The reference-counted lock of each entity. Taking it is two atomic steps (find or make
// the lock and count oneself in; acquire it), and so is giving it back (release it; count
// oneself out, dropping the lock when nobody is left). Any sequence of these steps is an
// interleaving of any number of clients.
module LockTable {
  type Client = nat
  /** The identity of a lock object. */
  type LockId = nat

  /** A lock object: its mutex and its reference count. */
  datatype Cell = Cell(held: bool, refs: int)

  datatype Stage = Waiting | Holding | Leaving

  /** Where a client stands between asking for a lock and having counted itself out. */
  datatype Use = Use(entity: string, lock: LockId, stage: Stage)

  /** `holders` records who holds which entity: the lock map of the step machine. */
  datatype State = State(table: map<string, LockId>, cells: map<LockId, Cell>, uses: map<Client, Use>, holders: map<string, Client>)

  function Users(uses: map<Client, Use>, entity: string): set<Client> {
    set c | c in uses && uses[c].entity == entity
  }

  // ------------------------------------------------------------------- the steps

  /** The first half of lockSession, under the table's own mutex; `made` is the object a missing lock becomes. */
  function Entered(s: State, c: Client, entity: string, made: LockId): State {
    var lock := if entity in s.table then s.table[entity] else made;
    var cell := if lock in s.cells then s.cells[lock] else Cell(false, 0);
    State(s.table[entity := lock], s.cells[lock := cell.(refs := cell.refs + 1)], s.uses[c := Use(entity, lock, Waiting)], s.holders)
  }

  predicate MayEnter(s: State, c: Client, entity: string, made: LockId) {
    c !in s.uses && (entity !in s.table ==> made !in s.cells)
  }

  predicate Using(s: State, c: Client, stage: Stage) {
    c in s.uses && s.uses[c].stage == stage && s.uses[c].lock in s.cells
  }

  /** lock.mu.Lock() returns, once nobody holds the lock. */
  function Acquired(s: State, c: Client): State
    requires Using(s, c, Waiting)
  {
    var u := s.uses[c];
    s.(cells := s.cells[u.lock := s.cells[u.lock].(held := true)], uses := s.uses[c := u.(stage := Holding)],
       holders := s.holders[u.entity := c])
  }

  /** The first half of unlocking: lock.mu.Unlock(). */
  function Released(s: State, c: Client): State
    requires Using(s, c, Holding)
  {
    var u := s.uses[c];
    s.(cells := s.cells[u.lock := s.cells[u.lock].(held := false)], uses := s.uses[c := u.(stage := Leaving)],
       holders := s.holders - {u.entity})
  }

  /** The second half of unlocking, under the table's own mutex; an uncounted object is garbage. */
  function Left(s: State, c: Client): State
    requires Using(s, c, Leaving)
  {
    var u := s.uses[c];
    var refs := s.cells[u.lock].refs - 1;
    if refs == 0 then s.(table := s.table - {u.entity}, cells := s.cells - {u.lock}, uses := s.uses - {c})
    else s.(cells := s.cells[u.lock := s.cells[u.lock].(refs := refs)], uses := s.uses - {c})
  }

  // --------------------------------------------------------------- the invariant

  /** A client uses the lock in the table. */
  predicate UseOk(s: State, c: Client) {
    c in s.uses && s.uses[c].entity in s.table && s.uses[c].lock == s.table[s.uses[c].entity]
  }

  /** A lock in the table counts its users, of which there are some. */
  predicate EntryOk(s: State, e: string) {
    e in s.table && s.table[e] in s.cells && s.cells[s.table[e]].refs == |Users(s.uses, e)| && Users(s.uses, e) != {}
  }

  ghost predicate OwnLocks(table: map<string, LockId>) {
    forall e, f :: e in table && f in table && table[e] == table[f] ==> e == f
  }

  ghost predicate Counted(s: State) {
    && (forall c :: c in s.uses ==> UseOk(s, c))
    && (forall e {:trigger EntryOk(s, e)} :: e in s.table ==> EntryOk(s, e))
    && OwnLocks(s.table)
  }

  ghost predicate Exclusive(s: State) {
    && (forall e :: e in s.table && s.table[e] in s.cells ==> (e in s.holders <==> s.cells[s.table[e]].held))
    && (forall e :: e in s.holders ==> s.holders[e] in s.uses && s.uses[s.holders[e]].entity == e && s.uses[s.holders[e]].stage == Holding)
    && (forall c :: c in s.uses && s.uses[c].stage == Holding ==> s.uses[c].entity in s.holders && s.holders[s.uses[c].entity] == c)
  }

  ghost predicate Inv(s: State) {
    Counted(s) && Exclusive(s)
  }

  lemma {:induction false} UsersAdded(uses: map<Client, Use>, c: Client, use: Use)
    requires c !in uses
    ensures forall e :: Users(uses[c := use], e) == if e == use.entity then Users(uses, e) + {c} else Users(uses, e)
  {
  }

  lemma {:induction false} UsersMoved(uses: map<Client, Use>, c: Client, stage: Stage)
    requires c in uses
    ensures forall e :: Users(uses[c := uses[c].(stage := stage)], e) == Users(uses, e)
  {
  }

  lemma {:induction false} UsersRemoved(uses: map<Client, Use>, c: Client)
    requires c in uses
    ensures forall e :: Users(uses - {c}, e) == Users(uses, e) - {c}
    ensures |Users(uses, uses[c].entity)| == |Users(uses - {c}, uses[c].entity)| + 1
  {
    assert Users(uses, uses[c].entity) == Users(uses - {c}, uses[c].entity) + {c};
  }

  lemma {:induction false} UnlistedUnused(s: State, entity: string)
    requires Counted(s) && entity !in s.table
    ensures Users(s.uses, entity) == {} && (Exclusive(s) ==> entity !in s.holders)
  {
    forall c | c in s.uses ensures s.uses[c].entity != entity {
      assert UseOk(s, c);
    }
  }

  lemma {:induction false} EntryInUse(s: State, c: Client)
    requires Counted(s) && c in s.uses
    ensures UseOk(s, c) && EntryOk(s, s.uses[c].entity)
  {
  }

  lemma {:induction false} LocksPresent(s: State)
    requires Counted(s)
    ensures forall e :: e in s.table ==> s.table[e] in s.cells
  {
    forall e | e in s.table ensures s.table[e] in s.cells {
      assert EntryOk(s, e);
    }
  }

  lemma {:induction false} SameEntries(s: State, s': State)
    requires Counted(s) && s'.table == s.table
    requires forall e :: e in s.table && s.table[e] in s.cells ==>
               s.table[e] in s'.cells && s'.cells[s.table[e]].refs == s.cells[s.table[e]].refs && Users(s'.uses, e) == Users(s.uses, e)
    ensures forall e {:trigger EntryOk(s', e)} :: e in s'.table ==> EntryOk(s', e)
  {
    forall e | e in s'.table ensures EntryOk(s', e) {
      assert EntryOk(s, e);
    }
  }

  lemma {:induction false} EnterExclusive(s: State, s': State, c: Client, entity: string, made: LockId)
    requires Exclusive(s) && MayEnter(s, c, entity, made) && s' == Entered(s, c, entity, made)
    requires entity !in s.table ==> entity !in s.holders
    requires forall e :: e in s.table ==> s.table[e] in s.cells
    ensures Exclusive(s')
  {
  }

  lemma {:induction false} EnterKeeps(s: State, c: Client, entity: string, made: LockId)
    requires Inv(s) && MayEnter(s, c, entity, made)
    ensures Inv(Entered(s, c, entity, made))
  {
    if entity !in s.table {
      UnlistedUnused(s, entity);
    }
    EnterCounts(s, Entered(s, c, entity, made), c, entity, made);
    LocksPresent(s);
    EnterExclusive(s, Entered(s, c, entity, made), c, entity, made);
  }

  // Entering, as finding or making the lock and then counting oneself in.
  lemma {:induction false} CountedIn(s: State, c: Client, entity: string, made: LockId, lock: LockId, cells: map<LockId, Cell>)
    requires lock == if entity in s.table then s.table[entity] else made
    requires entity in s.table ==> lock in s.cells
    requires entity !in s.table ==> lock !in s.cells
    requires cells == if entity in s.table then s.cells else s.cells[lock := Cell(false, 0)]
    ensures lock in cells
    ensures Entered(s, c, entity, made) ==
            State(s.table[entity := lock], cells[lock := cells[lock].(refs := cells[lock].refs + 1)], s.uses[c := Use(entity, lock, Waiting)], s.holders)
  {
  }

  lemma {:induction false} EnterCounts(s: State, s': State, c: Client, entity: string, made: LockId)
    requires Counted(s) && MayEnter(s, c, entity, made) && s' == Entered(s, c, entity, made)
    requires entity !in s.table ==> Users(s.uses, entity) == {}
    ensures Counted(s')
  {
    MadeIsNew(s, entity, made);
    EnterEntries(s, s', c, entity, made);
    forall d | d in s'.uses ensures UseOk(s', d) {
      if d != c {
        assert UseOk(s, d);
      }
    }
  }

  lemma {:induction false} EnterEntries(s: State, s': State, c: Client, entity: string, made: LockId)
    requires Counted(s) && MayEnter(s, c, entity, made) && s' == Entered(s, c, entity, made) && OwnLocks(s'.table)
    requires entity !in s.table ==> Users(s.uses, entity) == {}
    ensures forall e {:trigger EntryOk(s', e)} :: e in s'.table ==> EntryOk(s', e)
  {
    UsersAdded(s.uses, c, s'.uses[c]);
    assert c !in Users(s.uses, entity);
    assert entity in s.table ==> EntryOk(s, entity);
    forall e | e in s'.table ensures EntryOk(s', e) {
      if e != entity {
        assert EntryOk(s, e) && s'.table[e] != s'.table[entity];
      }
    }
  }

  lemma {:induction false} MadeIsNew(s: State, entity: string, made: LockId)
    requires Counted(s) && (entity !in s.table ==> made !in s.cells)
    ensures entity !in s.table ==> OwnLocks(s.table[entity := made])
  {
    if entity !in s.table {
      forall e | e in s.table ensures s.table[e] != made {
        assert EntryOk(s, e);
      }
    }
  }

  lemma {:induction false} AcquireExclusive(s: State, c: Client)
    requires Exclusive(s) && OwnLocks(s.table) && Using(s, c, Waiting) && UseOk(s, c) && !s.cells[s.uses[c].lock].held
    requires forall e :: e in s.table ==> s.table[e] in s.cells
    ensures Exclusive(Acquired(s, c)) && s.uses[c].entity !in s.holders
  {
  }

  lemma {:induction false} AcquireCounts(s: State, c: Client)
    requires Counted(s) && Using(s, c, Waiting)
    ensures Counted(Acquired(s, c))
  {
    UsersMoved(s.uses, c, Holding);
    SameEntries(s, Acquired(s, c));
    forall d | d in s.uses ensures UseOk(Acquired(s, c), d) {
      assert UseOk(s, d);
    }
  }

  lemma {:induction false} AcquireKeeps(s: State, c: Client)
    requires Inv(s) && Using(s, c, Waiting) && !s.cells[s.uses[c].lock].held
    ensures Inv(Acquired(s, c)) && s.uses[c].entity !in s.holders
  {
    EntryInUse(s, c);
    LocksPresent(s);
    AcquireCounts(s, c);
    AcquireExclusive(s, c);
  }

  lemma {:induction false} ReleaseKeeps(s: State, c: Client)
    requires Inv(s) && Using(s, c, Holding)
    ensures Inv(Released(s, c)) && s.uses[c].entity in s.holders && s.holders[s.uses[c].entity] == c
  {
    EntryInUse(s, c);
    UsersMoved(s.uses, c, Leaving);
    LocksPresent(s);
    SameEntries(s, Released(s, c));
  }

  /** The entry deleted by key is the client's own lock, and nobody else is using it. */
  lemma {:induction false} LeaveKeeps(s: State, c: Client)
    requires Inv(s) && Using(s, c, Leaving)
    ensures Inv(Left(s, c))
    ensures s.uses[c].entity in s.table && s.table[s.uses[c].entity] == s.uses[c].lock
    ensures s.uses[c].entity !in Left(s, c).table <==> Users(s.uses, s.uses[c].entity) == {c}
  {
    EntryInUse(s, c);
    var u := s.uses[c];
    var rest := Users(s.uses - {c}, u.entity);
    UsersRemoved(s.uses, c);
    assert c in Users(s.uses, u.entity) && Users(s.uses, u.entity) == rest + {c};
    assert u.entity in s.holders ==> s.holders[u.entity] in rest;
    if s.cells[u.lock].refs == 1 {
      LastLeaves(s, c, u);
    } else {
      OneLeaves(s, c, u);
    }
  }

  lemma {:induction false} LastLeaves(s: State, c: Client, u: Use)
    requires Inv(s) && Using(s, c, Leaving) && s.uses[c] == u && s.cells[u.lock].refs == 1
    requires Users(s.uses - {c}, u.entity) == {} && u.entity !in s.holders
    ensures Inv(Left(s, c))
  {
    LastLeavesCounts(s, c, u);
    LastLeavesExclusive(s, c, u);
  }

  lemma {:induction false} LastLeavesCounts(s: State, c: Client, u: Use)
    requires Counted(s) && Using(s, c, Leaving) && s.uses[c] == u && s.cells[u.lock].refs == 1
    requires Users(s.uses - {c}, u.entity) == {}
    ensures Counted(Left(s, c))
  {
    var s' := Left(s, c);
    UsersRemoved(s.uses, c);
    assert UseOk(s, c);
    forall d | d in s'.uses ensures UseOk(s', d) {
      assert UseOk(s, d);
      NotAmong(s'.uses, d, u.entity);
    }
    forall e | e in s'.table ensures EntryOk(s', e) {
      assert EntryOk(s, e) && s.table[e] != s.table[u.entity];
      assert c !in Users(s.uses, e);
    }
  }

  lemma {:induction false} LastLeavesExclusive(s: State, c: Client, u: Use)
    requires Exclusive(s) && Using(s, c, Leaving) && s.uses[c] == u && s.cells[u.lock].refs == 1 && u.entity !in s.holders
    ensures Exclusive(Left(s, c))
  {
  }

  lemma {:induction false} NotAmong(uses: map<Client, Use>, d: Client, entity: string)
    requires d in uses && Users(uses, entity) == {}
    ensures uses[d].entity != entity
  {
    assert d in Users(uses, entity) <==> uses[d].entity == entity;
  }

  lemma {:induction false} OneLeaves(s: State, c: Client, u: Use)
    requires Inv(s) && Using(s, c, Leaving) && s.uses[c] == u && s.cells[u.lock].refs != 1
    requires Users(s.uses - {c}, u.entity) != {}
    ensures Inv(Left(s, c))
  {
    OneLeavesCounts(s, c, u);
    OneLeavesExclusive(s, c, u);
  }

  lemma {:induction false} OneLeavesCounts(s: State, c: Client, u: Use)
    requires Counted(s) && Using(s, c, Leaving) && s.uses[c] == u && s.cells[u.lock].refs != 1
    requires Users(s.uses - {c}, u.entity) != {}
    ensures Counted(Left(s, c))
  {
    var s' := Left(s, c);
    UsersRemoved(s.uses, c);
    assert UseOk(s, c);
    forall e | e in s'.table ensures EntryOk(s', e) {
      assert EntryOk(s, e);
      if e != u.entity {
        assert s.table[e] != s.table[u.entity];
        assert c !in Users(s.uses, e);
      }
    }
    forall d | d in s'.uses ensures UseOk(s', d) {
      assert UseOk(s, d);
    }
  }

  lemma {:induction false} OneLeavesExclusive(s: State, c: Client, u: Use)
    requires Exclusive(s) && Using(s, c, Leaving) && s.uses[c] == u && s.cells[u.lock].refs != 1
    ensures Exclusive(Left(s, c))
  {
  }

  // ---------------------------------------------------------------- interleavings

  datatype Move = Enter(client: Client, entity: string, made: LockId) | Acquire(client: Client) | Release(client: Client) | Leave(client: Client)

  predicate Allowed(s: State, m: Move) {
    match m
    case Enter(c, entity, made) => MayEnter(s, c, entity, made)
    case Acquire(c) => Using(s, c, Waiting) && !s.cells[s.uses[c].lock].held
    case Release(c) => Using(s, c, Holding)
    case Leave(c) => Using(s, c, Leaving)
  }

  function Moved(s: State, m: Move): State
    requires Allowed(s, m)
  {
    match m
    case Enter(c, entity, made) => Entered(s, c, entity, made)
    case Acquire(c) => Acquired(s, c)
    case Release(c) => Released(s, c)
    case Leave(c) => Left(s, c)
  }

  /** An interleaving that starts from the empty table. */
  predicate Legal(moves: seq<Move>)
    decreases |moves|, 0
  {
    moves == [] || (Legal(moves[..|moves| - 1]) && Allowed(After(moves[..|moves| - 1]), moves[|moves| - 1]))
  }

  function After(moves: seq<Move>): State
    requires Legal(moves)
    decreases |moves|, 1
  {
    if moves == [] then State(map[], map[], map[], map[]) else Moved(After(moves[..|moves| - 1]), moves[|moves| - 1])
  }

  lemma {:induction false} MoveKeeps(s: State, m: Move)
    requires Inv(s) && Allowed(s, m)
    ensures Inv(Moved(s, m))
  {
    match m
    case Enter(c, entity, made) => EnterKeeps(s, c, entity, made);
    case Acquire(c) => AcquireKeeps(s, c);
    case Release(c) => ReleaseKeeps(s, c);
    case Leave(c) => LeaveKeeps(s, c);
  }

  lemma {:induction false} InterleavingKeeps(moves: seq<Move>)
    requires Legal(moves)
    ensures Inv(After(moves))
    decreases |moves|
  {
    if moves != [] {
      InterleavingKeeps(moves[..|moves| - 1]);
      MoveKeeps(After(moves[..|moves| - 1]), moves[|moves| - 1]);
    }
  }

  /**
    * In every interleaving: one client at most holds an entity; the clients of an entity,
    * and only they, share one lock; an entry exists exactly while its count is positive,
    * which is exactly while somebody uses it; and an idle table is empty.
    */
  lemma {:induction false} MutualExclusion(moves: seq<Move>, c: Client, d: Client, entity: string)
    requires Legal(moves)
    ensures var s := After(moves);
            && (c in s.uses && d in s.uses && s.uses[c].stage == Holding == s.uses[d].stage && s.uses[c].entity == s.uses[d].entity ==> c == d)
            && (c in s.uses && d in s.uses ==> (s.uses[c].entity == s.uses[d].entity <==> s.uses[c].lock == s.uses[d].lock))
            && (entity in s.table <==> Users(s.uses, entity) != {})
            && (entity in s.table ==> s.table[entity] in s.cells && s.cells[s.table[entity]].refs == |Users(s.uses, entity)| > 0)
            && (s.uses == map[] ==> s.table == map[])
  {
    InterleavingKeeps(moves);
    InvariantMeans(After(moves), c, d, entity);
  }

  lemma {:induction false} InvariantMeans(s: State, c: Client, d: Client, entity: string)
    requires Inv(s)
    ensures c in s.uses && d in s.uses && s.uses[c].stage == Holding == s.uses[d].stage && s.uses[c].entity == s.uses[d].entity ==> c == d
    ensures c in s.uses && d in s.uses ==> (s.uses[c].entity == s.uses[d].entity <==> s.uses[c].lock == s.uses[d].lock)
    ensures entity in s.table <==> Users(s.uses, entity) != {}
    ensures entity in s.table ==> s.table[entity] in s.cells && s.cells[s.table[entity]].refs == |Users(s.uses, entity)| > 0
    ensures s.uses == map[] ==> s.table == map[]
  {
    if entity !in s.table {
      UnlistedUnused(s, entity);
    } else {
      assert EntryOk(s, entity);
    }
    assert c in s.uses ==> UseOk(s, c);
    assert d in s.uses ==> UseOk(s, d);
    if s.uses == map[] {
      forall e ensures e !in s.table {
        assert e in s.table ==> EntryOk(s, e);
        assert Users(s.uses, e) == {};
      }
    }
  }

  /** The table takes and frees locks as the step machine does: only free ones, only by their holder. */
  lemma {:induction false} RefinesAtomicLock(moves: seq<Move>, m: Move)
    requires Legal(moves) && Allowed(After(moves), m)
    ensures var s := After(moves);
            match m
            case Acquire(c) => s.uses[c].entity !in s.holders && Moved(s, m).holders == s.holders[s.uses[c].entity := c]
            case Release(c) =>
              && s.uses[c].entity in s.holders && s.holders[s.uses[c].entity] == c
              && Moved(s, m).holders == s.holders - {s.uses[c].entity}
            case _ => Moved(s, m).holders == s.holders
  {
    InterleavingKeeps(moves);
    match m
    case Acquire(c) => AcquireKeeps(After(moves), c);
    case Release(c) => ReleaseKeeps(After(moves), c);
    case _ =>
  }

  // -------------------------------------------------------------- the live table

  /** The table as the program keeps it; `cells` stands for the lock objects. */
  class Table {
    var sessionLocks: map<string, LockId>
    var cells: map<LockId, Cell>
    var unused: LockId
    ghost var uses: map<Client, Use>
    ghost var holders: map<string, Client>

    constructor ()
      ensures Valid() && Contents() == State(map[], map[], map[], map[])
    {
      sessionLocks, cells, unused, uses, holders := map[], map[], 0, map[], map[];
    }

    ghost function Contents(): State
      reads this
    {
      State(sessionLocks, cells, uses, holders)
    }

    ghost predicate Valid()
      reads this
    {
      Inv(Contents()) && forall lock :: lock in cells ==> lock < unused
    }

    /** The client, and nobody else, uses the table: it holds the entity's lock. */
    ghost predicate HeldBy(c: Client, entity: string, lock: LockId)
      reads this
    {
      Valid() && holders == map[entity := c] && uses == map[c := Use(entity, lock, Holding)]
    }

    /** Nobody uses the table. */
    ghost predicate Idle()
      reads this
    {
      Valid() && holders == map[] && uses == map[]
    }

    /** Finds the entity's lock, or makes one that nobody has counted himself in for yet. */
    method FindOrMake(entity: string) returns (lock: LockId)
      requires Valid()
      modifies this`sessionLocks, this`cells, this`unused
      ensures lock == if entity in old(sessionLocks) then old(sessionLocks)[entity] else old(unused)
      ensures sessionLocks == old(sessionLocks)[entity := lock]
      ensures cells == if entity in old(sessionLocks) then old(cells) else old(cells)[lock := Cell(false, 0)]
      ensures lock in cells && forall l :: l in cells ==> l < unused
    {
      LocksPresent(Contents());
      if entity !in sessionLocks {
        cells := cells[unused := Cell(false, 0)];
        sessionLocks := sessionLocks[entity := unused];
        unused := unused + 1;
      }
      lock := sessionLocks[entity];
    }

    /** Counts the client in for the entity's lock. */
    method Enter(ghost c: Client, entity: string) returns (lock: LockId)
      requires Valid() && c !in uses
      modifies this
      ensures Valid() && Contents() == Entered(old(Contents()), c, entity, old(unused))
      ensures holders == old(holders) && uses == old(uses)[c := Use(entity, lock, Waiting)]
    {
      ghost var before, made := Contents(), unused;
      LocksPresent(before);
      lock := FindOrMake(entity);
      CountedIn(before, c, entity, made, lock, cells);
      CountIn(c, entity, lock);
      EnterKeeps(before, c, entity, made);
    }

    method CountIn(ghost c: Client, entity: string, lock: LockId)
      requires lock in cells && forall l :: l in cells ==> l < unused
      modifies this`cells, this`uses
      ensures cells == old(cells)[lock := old(cells)[lock].(refs := old(cells)[lock].refs + 1)]
      ensures uses == old(uses)[c := Use(entity, lock, Waiting)]
      ensures forall l :: l in cells ==> l < unused
    {
      cells := cells[lock := cells[lock].(refs := cells[lock].refs + 1)];
      uses := uses[c := Use(entity, lock, Waiting)];
    }

    method Acquire(ghost c: Client, lock: LockId)
      requires Valid() && Using(Contents(), c, Waiting) && uses[c].lock == lock && !cells[lock].held
      modifies this
      ensures Valid() && Contents() == Acquired(old(Contents()), c)
    {
      AcquireKeeps(Contents(), c);
      cells := cells[lock := cells[lock].(held := true)];
      holders := holders[uses[c].entity := c];
      uses := uses[c := uses[c].(stage := Holding)];
    }

    method Release(ghost c: Client, lock: LockId)
      requires Valid() && Using(Contents(), c, Holding) && uses[c].lock == lock
      modifies this
      ensures Valid() && Contents() == Released(old(Contents()), c)
    {
      ReleaseKeeps(Contents(), c);
      cells := cells[lock := cells[lock].(held := false)];
      holders := holders - {uses[c].entity};
      uses := uses[c := uses[c].(stage := Leaving)];
    }

    /** Counts the client out, and drops a lock nobody uses. */
    method Leave(ghost c: Client, entity: string, lock: LockId)
      requires Valid() && Using(Contents(), c, Leaving) && uses[c].lock == lock && uses[c].entity == entity
      modifies this
      ensures Valid() && Contents() == Left(old(Contents()), c)
    {
      LeaveKeeps(Contents(), c);
      var refs := cells[lock].refs - 1;
      if refs == 0 {
        sessionLocks := sessionLocks - {entity};
        cells := cells - {lock};
      } else {
        cells := cells[lock := cells[lock].(refs := refs)];
      }
      uses := uses - {c};
    }

    /** lockSession: takes the lock of an entity nobody holds. */
    method Lock(ghost c: Client, entity: string) returns (lock: LockId)
      requires Idle()
      modifies this
      ensures HeldBy(c, entity, lock)
    {
      lock := Enter(c, entity);
      EntryInUse(Contents(), c);
      Acquire(c, lock);
    }

    /** The function lockSession returns: gives the lock back. */
    method Unlock(ghost c: Client, entity: string, lock: LockId)
      requires HeldBy(c, entity, lock)
      modifies this
      ensures Idle()
    {
      EntryInUse(Contents(), c);
      Release(c, lock);
      EntryInUse(Contents(), c);
      Leave(c, entity, lock);
    }
  }
}
