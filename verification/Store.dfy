// The two tables of the grant database and the transactions on them. One connection
// makes transactions serial, so each is a function from one database value to the next.
module Store {
  import opened Options
  import opened Rules
  import opened Strings
  import opened Time

  type Id = string
  const NO_ID: Id := ""

  datatype Approver = Approver(entity: string, name: string)
  const NOBODY := Approver("", "")

  datatype ItemState = Pending | AlreadyGranted | Approved | Rejected | Refused | Expired | Revoked

  /** Why the system, rather than an Approver, put an item in its state. */
  datatype Reason = NoReason | Refusal(refusal: Rules.Refusal) | NoLongerGrantable(refusal: Rules.Refusal)
                  | HasAlready | DeadlinePassed

  datatype Item = Item(id: Id, path: string, capabilities: seq<string>, ttl: int, state: ItemState, reason: Reason,
                       decidedAt: int, decidedBy: Approver, grantId: Id, grantExpires: int)

  datatype Request = Request(id: Id, entity: string, createdAt: int, pendingUntil: int, items: seq<Item>)

  /** A row of grant_requests. */
  datatype Row = Row(request: Request, hasPending: bool)

  /** A row of grants; revokedAt 0 means not revoked. */
  datatype Grant = Grant(id: Id, requestId: Id, itemId: Id, entity: string, path: string, capabilities: seq<string>,
                         createdAt: int, expiresAt: int, approvedBy: string, revokedAt: int, revokedBy: string)

  datatype Db = Db(requests: map<Id, Row>, grants: map<Id, Grant>)

  datatype TxResult = Committed(db: Db) | StatusChanged | TxFailed

  predicate HasPending(items: seq<Item>) {
    exists i :: 0 <= i < |items| && items[i].state == Pending
  }

  // ------------------------------------------------------------- transactions

  /** CreateGrantRequest: the request ID is the primary key. */
  function FileTx(db: Db, request: Request): TxResult {
    if request.id in db.requests then TxFailed
    else
      var stored := request.(createdAt := StoredTime(request.createdAt), pendingUntil := StoredTime(request.pendingUntil));
      Committed(db.(requests := db.requests[request.id := Row(stored, HasPending(request.items))]))
  }

  function StoredGrant(g: Grant): Grant {
    g.(createdAt := StoredTime(g.createdAt), expiresAt := StoredTime(g.expiresAt), revokedAt := 0, revokedBy := "")
  }

  /** The grants table refuses a second row with the same ID or the same item ID. */
  predicate Collides(table: map<Id, Grant>, g: Grant) {
    g.id in table || exists id :: id in table && table[id].itemId == g.itemId
  }

  function InsertGrants(table: map<Id, Grant>, gs: seq<Grant>): Option<map<Id, Grant>>
    decreases |gs|
  {
    if gs == [] then Some(table)
    else if Collides(table, gs[0]) then None
    else InsertGrants(table[gs[0].id := StoredGrant(gs[0])], gs[1..])
  }

  /** DecideItems: replaces the whole item list, guarded by has_pending, and inserts the grants. */
  function DecideTx(db: Db, request: Request, gs: seq<Grant>): TxResult {
    if request.id !in db.requests || !db.requests[request.id].hasPending then StatusChanged
    else match InsertGrants(db.grants, gs)
      case None => TxFailed
      case Some(table) =>
        var row := Row(db.requests[request.id].request.(items := request.items), HasPending(request.items));
        Committed(Db(db.requests[request.id := row], table))
  }

  predicate Due(row: Row, now: int) {
    row.hasPending && UnixMilli(row.request.pendingUntil) <= UnixMilli(now)
  }

  function ExpiredItem(item: Item): Item {
    if item.state == Pending then item.(state := Expired, reason := DeadlinePassed) else item
  }

  function ExpiredItems(items: seq<Item>): (r: seq<Item>)
    ensures |r| == |items|
  {
    seq(|items|, i requires 0 <= i < |items| => ExpiredItem(items[i]))
  }

  function ExpiredRow(row: Row): Row {
    var items := ExpiredItems(row.request.items);
    Row(row.request.(items := items), HasPending(items))
  }

  /** ExpirePendingItems: the sweep, which takes no lock. */
  function ExpireTx(db: Db, now: int): Db {
    db.(requests := map id | id in db.requests :: if Due(db.requests[id], now) then ExpiredRow(db.requests[id]) else db.requests[id])
  }

  function RevokedItems(items: seq<Item>, itemId: Id): (r: seq<Item>)
    ensures |r| == |items|
  {
    seq(|items|, i requires 0 <= i < |items| => if items[i].id == itemId then items[i].(state := Revoked) else items[i])
  }

  /** RevokeGrant: marks the grant row and its item. */
  function RevokeTx(db: Db, grantId: Id, approver: Approver, now: int): TxResult {
    if grantId !in db.grants || db.grants[grantId].revokedAt != 0 then StatusChanged
    else
      var g := db.grants[grantId];
      if g.requestId !in db.requests then TxFailed
      else
        var request := db.requests[g.requestId].request;
        var items := RevokedItems(request.items, g.itemId);
        Committed(Db(db.requests[g.requestId := Row(request.(items := items), HasPending(items))],
                     db.grants[grantId := g.(revokedAt := StoredTime(now), revokedBy := approver.name)]))
  }

  // ------------------------------------------ what the transactions store, row by row

  /** A row's items are replaced, nothing else of it changes, and its flag tells of the new items. */
  ghost predicate ItemsReplaced(row: Row, row': Row, items: seq<Item>) {
    && row'.request == Request(row.request.id, row.request.entity, row.request.createdAt, row.request.pendingUntil, items)
    && (row'.hasPending <==> exists i :: 0 <= i < |items| && items[i].state == Pending)
  }

  /** The expired form of an item: a pending one is marked, and any other is left as it is. */
  predicate ItemSwept(before: Item, after: Item) {
    if before.state == Pending then after == before.(state := Expired, reason := DeadlinePassed) else after == before
  }

  /** Rows whose deadline has passed have their pending items expired; all others stay as they are. */
  ghost predicate Swept(db: Db, db': Db, now: int) {
    && db'.grants == db.grants && db'.requests.Keys == db.requests.Keys
    && forall id :: id in db.requests ==>
         var row, row' := db.requests[id], db'.requests[id];
         if row.hasPending && UnixMilli(row.request.pendingUntil) <= UnixMilli(now) then
           && !row'.hasPending && ItemsReplaced(row, row', row'.request.items)
           && |row'.request.items| == |row.request.items|
           && forall i :: 0 <= i < |row.request.items| ==> ItemSwept(row.request.items[i], row'.request.items[i])
         else row' == row
  }

  lemma {:induction false} SweepExact(db: Db, now: int)
    ensures Swept(db, ExpireTx(db, now), now)
  {
  }

  /** The grant is marked with its revoker and the time, its item is marked, and nothing else changes. */
  ghost predicate GrantRevoked(db: Db, db': Db, grantId: Id, approver: Approver, now: int) {
    && grantId in db.grants && db.grants[grantId].revokedAt == 0 && db.grants[grantId].requestId in db.requests
    && var g := db.grants[grantId];
       && db'.grants == db.grants[grantId := g.(revokedAt := StoredTime(now), revokedBy := approver.name)]
       && db'.requests.Keys == db.requests.Keys
       && (forall id :: id in db.requests && id != g.requestId ==> db'.requests[id] == db.requests[id])
       && var row, row' := db.requests[g.requestId], db'.requests[g.requestId];
          && ItemsReplaced(row, row', row'.request.items)
          && |row'.request.items| == |row.request.items|
          && forall i :: 0 <= i < |row.request.items| ==>
               row'.request.items[i] == if row.request.items[i].id == g.itemId then row.request.items[i].(state := Revoked)
                                        else row.request.items[i]
  }

  lemma {:induction false} RevokeExact(db: Db, grantId: Id, approver: Approver, now: int)
    ensures match RevokeTx(db, grantId, approver, now)
            case Committed(db') => GrantRevoked(db, db', grantId, approver, now)
            case StatusChanged => grantId !in db.grants || db.grants[grantId].revokedAt != 0
            case TxFailed => grantId in db.grants && db.grants[grantId].revokedAt == 0 && db.grants[grantId].requestId !in db.requests
  {
  }

  /** The request stands under its ID with its instants rounded down; nothing else changes. */
  ghost predicate RequestInserted(db: Db, db': Db, request: Request) {
    && request.id !in db.requests
    && db'.grants == db.grants && db'.requests.Keys == db.requests.Keys + {request.id}
    && (forall id :: id in db.requests ==> db'.requests[id] == db.requests[id])
    && db'.requests[request.id].request ==
         Request(request.id, request.entity, StoredTime(request.createdAt), StoredTime(request.pendingUntil), request.items)
    && (db'.requests[request.id].hasPending <==> exists i :: 0 <= i < |request.items| && request.items[i].state == Pending)
  }

  lemma {:induction false} FileExact(db: Db, request: Request)
    ensures match FileTx(db, request)
            case Committed(db') => RequestInserted(db, db', request)
            case StatusChanged => false
            case TxFailed => request.id in db.requests
  {
  }

  /** No grant's ID or item ID is in the table already, or occurs twice. */
  ghost predicate Unused(table: map<Id, Grant>, gs: seq<Grant>) {
    && (forall i :: 0 <= i < |gs| ==> gs[i].id !in table && forall id :: id in table ==> table[id].itemId != gs[i].itemId)
    && (forall i, j :: 0 <= i < j < |gs| ==> gs[i].id != gs[j].id && gs[i].itemId != gs[j].itemId)
  }

  predicate NewRow(g: Grant, row: Grant) {
    row == Grant(g.id, g.requestId, g.itemId, g.entity, g.path, g.capabilities,
                 StoredTime(g.createdAt), StoredTime(g.expiresAt), g.approvedBy, 0, "")
  }

  /** The grants stand in the table, with their instants rounded down and not revoked, beside what stood there. */
  ghost predicate GrantsInserted(table: map<Id, Grant>, table': map<Id, Grant>, gs: seq<Grant>) {
    && (forall id :: id in table' <==> id in table || exists i :: 0 <= i < |gs| && gs[i].id == id)
    && (forall id :: id in table ==> table'[id] == table[id])
    && (forall i :: 0 <= i < |gs| ==> NewRow(gs[i], table'[gs[i].id]))
  }

  // What is unused before the first insertion, and after it.
  lemma {:induction false} UnusedRest(table: map<Id, Grant>, g: Grant, rest: seq<Grant>, row: Grant)
    requires row.itemId == g.itemId
    ensures Unused(table, [g] + rest) <==> !Collides(table, g) && Unused(table[g.id := row], rest)
  {
    var gs, longer := [g] + rest, table[g.id := row];
    if Unused(table, gs) {
      assert gs[0] == g;
      forall i | 0 <= i < |rest| ensures rest[i].id !in longer && forall id :: id in longer ==> longer[id].itemId != rest[i].itemId {
        assert gs[i + 1] == rest[i];
      }
      forall i, j | 0 <= i < j < |rest| ensures rest[i].id != rest[j].id && rest[i].itemId != rest[j].itemId {
        assert gs[i + 1] == rest[i] && gs[j + 1] == rest[j];
      }
    }
    if !Collides(table, g) && Unused(table[g.id := row], rest) {
      RestUnused(table, g, rest, row);
    }
  }

  lemma {:induction false} RestUnused(table: map<Id, Grant>, g: Grant, rest: seq<Grant>, row: Grant)
    requires row.itemId == g.itemId && !Collides(table, g) && Unused(table[g.id := row], rest)
    ensures Unused(table, [g] + rest)
  {
    var gs, longer := [g] + rest, table[g.id := row];
    assert longer[g.id].itemId == g.itemId;
    forall i | 0 <= i < |rest|
      ensures rest[i].id !in table && rest[i].id != g.id && rest[i].itemId != g.itemId && forall id :: id in table ==> table[id].itemId != rest[i].itemId
    {
      forall id | id in table ensures table[id].itemId != rest[i].itemId {
        assert longer[id] == table[id];
      }
    }
  }

  /** The grants are inserted exactly when all of them are unused, and then all of them are. */
  lemma {:induction false} InsertExact(table: map<Id, Grant>, gs: seq<Grant>)
    ensures InsertGrants(table, gs).Some? <==> Unused(table, gs)
    ensures InsertGrants(table, gs).Some? ==> GrantsInserted(table, InsertGrants(table, gs).value, gs)
    decreases |gs|
  {
    if gs != [] {
      var g, rest := gs[0], gs[1..];
      var longer := table[g.id := StoredGrant(g)];
      assert gs == [g] + rest;
      UnusedRest(table, g, rest, StoredGrant(g));
      InsertExact(longer, rest);
      if InsertGrants(table, gs).Some? {
        InsertedRest(table, g, rest, InsertGrants(table, gs).value);
      }
    }
  }

  lemma {:induction false} InsertedRest(table: map<Id, Grant>, g: Grant, rest: seq<Grant>, table': map<Id, Grant>)
    requires g.id !in table && GrantsInserted(table[g.id := StoredGrant(g)], table', rest)
    ensures GrantsInserted(table, table', [g] + rest)
  {
    var gs := [g] + rest;
    assert gs[0] == g && forall i :: 0 <= i < |rest| ==> gs[i + 1] == rest[i];
    forall id ensures id in table' <==> id in table || exists i :: 0 <= i < |gs| && gs[i].id == id {
      if exists i :: 0 <= i < |rest| && rest[i].id == id {
        var i :| 0 <= i < |rest| && rest[i].id == id;
        assert gs[i + 1].id == id;
      }
    }
    forall i | 0 <= i < |gs| ensures NewRow(gs[i], table'[gs[i].id]) {
      if i > 0 {
        assert gs[i] == rest[i - 1];
      }
    }
  }

  /** The stored request has the decided items, the grants have their rows, and nothing else changes. */
  ghost predicate BatchStored(db: Db, db': Db, request: Request, gs: seq<Grant>) {
    && request.id in db.requests
    && db'.requests.Keys == db.requests.Keys
    && (forall id :: id in db.requests && id != request.id ==> db'.requests[id] == db.requests[id])
    && ItemsReplaced(db.requests[request.id], db'.requests[request.id], request.items)
    && GrantsInserted(db.grants, db'.grants, gs)
  }

  lemma {:induction false} DecideExact(db: Db, request: Request, gs: seq<Grant>)
    ensures match DecideTx(db, request, gs)
            case Committed(db') =>
              && request.id in db.requests && db.requests[request.id].hasPending && Unused(db.grants, gs)
              && BatchStored(db, db', request, gs)
            case StatusChanged => request.id !in db.requests || !db.requests[request.id].hasPending
            case TxFailed => request.id in db.requests && db.requests[request.id].hasPending && !Unused(db.grants, gs)
  {
    InsertExact(db.grants, gs);
  }

  // ------------------------------------------------------------------ queries

  predicate Active(g: Grant, now: int) {
    g.revokedAt == 0 && UnixMilli(g.expiresAt) > UnixMilli(now)
  }

  predicate ActiveFor(g: Grant, entity: string, now: int) {
    g.entity == entity && Active(g, now)
  }

  /** gs lists the entity's active rows, each once, newest first. */
  ghost predicate Lists(db: Db, entity: string, now: int, gs: seq<Grant>) {
    && (forall i :: 0 <= i < |gs| ==> gs[i].id in db.grants && db.grants[gs[i].id] == gs[i] && ActiveFor(gs[i], entity, now))
    && (forall id :: id in db.grants && ActiveFor(db.grants[id], entity, now) ==> db.grants[id] in gs)
    && NewestFirst(gs)
  }

  predicate ExpiredWithin(g: Grant, after: int, until: int) {
    g.revokedAt == 0 && UnixMilli(after) < UnixMilli(g.expiresAt) <= UnixMilli(until)
  }

  /** The rows stand in the order in which they expired, each once. */
  ghost predicate ByExpiry(grants: map<Id, Grant>, ids: seq<Id>) {
    && (forall i, j :: 0 <= i < j < |ids| ==> ids[i] != ids[j])
    && (forall i, j :: 0 <= i < j < |ids| && ids[i] in grants && ids[j] in grants ==> grants[ids[i]].expiresAt <= grants[ids[j]].expiresAt)
  }

  /** ids are the rows that expired unrevoked in (after, until], each once, the earliest first. */
  ghost predicate ListsExpired(grants: map<Id, Grant>, after: int, until: int, ids: seq<Id>) {
    && ByExpiry(grants, ids)
    && (forall id :: id in ids <==> id in grants && ExpiredWithin(grants[id], after, until))
  }

  // ------------------------------------------------------------ the live tables

  class Database {
    var requests: map<Id, Row>
    var grants: map<Id, Grant>

    constructor ()
      ensures Contents() == Db(map[], map[])
    {
      requests, grants := map[], map[];
    }

    function Contents(): Db
      reads this
    {
      Db(requests, grants)
    }

    // Every method takes whether the database fails; a failure has no effect.

    method CreateGrantRequest(request: Request, fault: bool) returns (err: bool)
      modifies this
      ensures var tx := FileTx(old(Contents()), request);
              if !fault && tx.Committed? then !err && Contents() == tx.db else err && Contents() == old(Contents())
      ensures !err ==> RequestInserted(old(Contents()), Contents(), request)
      ensures err <==> fault || request.id in old(requests)
    {
      if fault || request.id in requests {
        return true;
      }
      var stored := request.(createdAt := StoredTime(request.createdAt), pendingUntil := StoredTime(request.pendingUntil));
      requests := requests[request.id := Row(stored, HasPending(request.items))];
      return false;
    }

    method GrantRequest(id: Id) returns (request: Option<Request>)
      ensures request == if id in requests then Some(requests[id].request) else None
    {
      return if id in requests then Some(requests[id].request) else None;
    }

    method FindGrant(id: Id) returns (grant: Option<Grant>)
      ensures grant == if id in grants then Some(grants[id]) else None
    {
      return if id in grants then Some(grants[id]) else None;
    }

    method DecideItems(request: Request, gs: seq<Grant>, fault: bool) returns (result: TxResult)
      modifies this
      ensures result == if fault then TxFailed else DecideTx(old(Contents()), request, gs)
      ensures Contents() == if result.Committed? then result.db else old(Contents())
      ensures result.Committed? ==> BatchStored(old(Contents()), Contents(), request, gs)
    {
      DecideExact(Contents(), request, gs);
      if fault {
        return TxFailed;
      }
      if request.id !in requests || !requests[request.id].hasPending {
        return StatusChanged;
      }
      var table := grants;
      for index := 0 to |gs|
        invariant InsertGrants(grants, gs) == InsertGrants(table, gs[index..])
      {
        assert gs[index..][0] == gs[index] && gs[index..][1..] == gs[index + 1..];
        if Collides(table, gs[index]) {
          return TxFailed;
        }
        table := table[gs[index].id := StoredGrant(gs[index])];
      }
      var row := Row(requests[request.id].request.(items := request.items), HasPending(request.items));
      requests := requests[request.id := row];
      grants := table;
      return Committed(Contents());
    }

    method ExpirePendingItems(now: int, fault: bool) returns (err: bool, ids: seq<Id>)
      modifies this
      ensures err == fault
      ensures Contents() == if fault then old(Contents()) else ExpireTx(old(Contents()), now)
      ensures !err ==> Swept(old(Contents()), Contents(), now)
      ensures Ascending(ids)
      ensures forall id :: id in ids <==> !fault && id in old(requests) && Due(old(requests)[id], now)
    {
      if fault {
        return true, [];
      }
      var expired := DueItems(now);
      ids := StoreExpired(expired, now);
      assert requests == ExpireTx(old(Contents()), now).requests;
      SweepExact(old(Contents()), now);
      var sorted := Sort(ids);
      assert forall id :: id in sorted <==> id in multiset(sorted);
      assert forall id :: id in ids <==> id in multiset(ids);
      ids := sorted;
      err := false;
    }

    /** The items of every row that is due. */
    method DueItems(now: int) returns (expired: map<Id, seq<Item>>)
      ensures expired == map id | id in requests && Due(requests[id], now) :: requests[id].request.items
    {
      expired := map[];
      var rows := requests.Keys;
      while rows != {}
        invariant rows <= requests.Keys
        invariant expired == map id | id in requests && id !in rows && Due(requests[id], now) :: requests[id].request.items
      {
        var id :| id in rows;
        rows := rows - {id};
        if Due(requests[id], now) {
          expired := expired[id := requests[id].request.items];
        }
      }
    }

    /** Stores the expired items of the given rows. */
    method StoreExpired(expired: map<Id, seq<Item>>, ghost now: int) returns (ids: seq<Id>)
      requires expired == map id | id in requests && Due(requests[id], now) :: requests[id].request.items
      modifies this`requests
      ensures requests == map id | id in old(requests) :: if Due(old(requests)[id], now) then ExpiredRow(old(requests)[id]) else old(requests)[id]
      ensures forall id :: id in ids <==> id in expired
    {
      ghost var before := requests;
      var due := expired.Keys;
      ids := [];
      while due != {}
        invariant due <= expired.Keys && requests.Keys == before.Keys
        invariant forall id :: id in ids <==> id in expired && id !in due
        invariant forall id :: id in before ==>
          requests[id] == if id in expired && id !in due then ExpiredRow(before[id]) else before[id]
      {
        var id :| id in due;
        due := due - {id};
        var items := MarkExpired(expired[id]);
        requests := requests[id := Row(requests[id].request.(items := items), HasPending(items))];
        ids := ids + [id];
      }
    }

    static method MarkExpired(given: seq<Item>) returns (items: seq<Item>)
      ensures items == ExpiredItems(given)
    {
      items := given;
      for index := 0 to |items|
        invariant |items| == |given|
        invariant forall k :: 0 <= k < |given| ==> items[k] == if k < index then ExpiredItem(given[k]) else given[k]
      {
        if items[index].state == Pending {
          items := items[index := items[index].(state := Expired, reason := DeadlinePassed)];
        }
      }
    }

    /** Without an entity, everybody's active grants. */
    method ActiveGrants(entity: string, now: int) returns (active: seq<Grant>)
      requires Keyed(Contents())
      ensures entity != "" ==> Lists(Contents(), entity, now, active)
      ensures entity == "" ==> ListsAll(Contents(), now, active)
    {
      active := [];
      var ids := grants.Keys;
      while ids != {}
        invariant ids <= grants.Keys
        invariant NewestFirst(active)
        invariant forall g :: g in active <==>
          g.id in grants && g.id !in ids && grants[g.id] == g && Active(g, now) && (entity == "" || g.entity == entity)
      {
        var id :| id in ids;
        ids := ids - {id};
        if Active(grants[id], now) && (entity == "" || grants[id].entity == entity) {
          InsertNewestShape(grants[id], active);
          active := InsertNewest(grants[id], active);
        }
      }
      assert forall i :: 0 <= i < |active| ==> active[i] in active;
    }

    method ExpiredGrants(after: int, until: int) returns (ids: seq<Id>)
      ensures ListsExpired(grants, after, until, ids)
    {
      ids := [];
      var rows := grants.Keys;
      while rows != {}
        invariant rows <= grants.Keys
        invariant ByExpiry(grants, ids)
        invariant forall id :: id in ids <==> id in grants && id !in rows && ExpiredWithin(grants[id], after, until)
      {
        var id :| id in rows;
        rows := rows - {id};
        if ExpiredWithin(grants[id], after, until) {
          InsertByExpiryShape(grants, id, ids);
          ids := InsertByExpiry(grants, id, ids);
        }
      }
    }

    method RevokeGrant(grantId: Id, approver: Approver, now: int, fault: bool) returns (result: TxResult)
      modifies this
      ensures result == if fault then TxFailed else RevokeTx(old(Contents()), grantId, approver, now)
      ensures Contents() == if result.Committed? then result.db else old(Contents())
      ensures result.Committed? ==> GrantRevoked(old(Contents()), Contents(), grantId, approver, now)
    {
      RevokeExact(Contents(), grantId, approver, now);
      if fault {
        return TxFailed;
      }
      if grantId !in grants || grants[grantId].revokedAt != 0 {
        return StatusChanged;
      }
      var g := grants[grantId];
      if g.requestId !in requests {
        return TxFailed;
      }
      var request := requests[g.requestId].request;
      var items := request.items;
      for index := 0 to |items|
        invariant |items| == |request.items|
        invariant forall k :: 0 <= k < |items| ==>
          items[k] == if k < index && request.items[k].id == g.itemId then request.items[k].(state := Revoked) else request.items[k]
      {
        if items[index].id == g.itemId {
          items := items[index := items[index].(state := Revoked)];
        }
      }
      assert items == RevokedItems(request.items, g.itemId);
      requests := requests[g.requestId := Row(request.(items := items), HasPending(items))];
      grants := grants[grantId := g.(revokedAt := StoredTime(now), revokedBy := approver.name)];
      return Committed(Contents());
    }
  }

  ghost predicate Keyed(db: Db) {
    && (forall id :: id in db.requests ==> db.requests[id].request.id == id)
    && (forall id :: id in db.grants ==> db.grants[id].id == id)
  }

  ghost predicate NewestFirst(gs: seq<Grant>) {
    forall i, j :: 0 <= i < j < |gs| ==> gs[i] != gs[j] && gs[i].createdAt >= gs[j].createdAt
  }

  function InsertNewest(g: Grant, gs: seq<Grant>): seq<Grant> {
    if gs == [] || g.createdAt >= gs[0].createdAt then [g] + gs else [gs[0]] + InsertNewest(g, gs[1..])
  }

  lemma {:induction false} InsertNewestShape(g: Grant, gs: seq<Grant>)
    requires NewestFirst(gs) && g !in gs
    ensures NewestFirst(InsertNewest(g, gs))
    ensures forall h :: h in InsertNewest(g, gs) <==> h == g || h in gs
  {
    if gs == [] || g.createdAt >= gs[0].createdAt {
      assert forall h :: h in [g] + gs <==> h == g || h in gs;
    } else {
      InsertNewestShape(g, gs[1..]);
      assert forall h :: h in gs <==> h == gs[0] || h in gs[1..];
      var rest := InsertNewest(g, gs[1..]);
      forall j | 0 <= j < |rest| ensures gs[0] != rest[j] && gs[0].createdAt >= rest[j].createdAt {
        assert rest[j] in rest;
        if rest[j] != g {
          var k :| 0 <= k < |gs[1..]| && gs[1..][k] == rest[j];
          assert gs[k + 1] == rest[j];
        }
      }
    }
  }

  function InsertByExpiry(grants: map<Id, Grant>, id: Id, ids: seq<Id>): seq<Id>
    requires id in grants && forall x :: x in ids ==> x in grants
  {
    if ids == [] || grants[id].expiresAt <= grants[ids[0]].expiresAt then [id] + ids
    else [ids[0]] + InsertByExpiry(grants, id, ids[1..])
  }

  lemma {:induction false} InsertByExpiryShape(grants: map<Id, Grant>, id: Id, ids: seq<Id>)
    requires id in grants && (forall x :: x in ids ==> x in grants) && ByExpiry(grants, ids) && id !in ids
    ensures ByExpiry(grants, InsertByExpiry(grants, id, ids))
    ensures forall x :: x in InsertByExpiry(grants, id, ids) <==> x == id || x in ids
  {
    if ids == [] || grants[id].expiresAt <= grants[ids[0]].expiresAt {
      assert forall x :: x in [id] + ids <==> x == id || x in ids;
    } else {
      InsertByExpiryShape(grants, id, ids[1..]);
      assert forall x :: x in ids <==> x == ids[0] || x in ids[1..];
      HeadFirst(grants, ids[0], id, ids, InsertByExpiry(grants, id, ids[1..]));
    }
  }

  lemma {:induction false} HeadFirst(grants: map<Id, Grant>, head: Id, id: Id, ids: seq<Id>, rest: seq<Id>)
    requires ids != [] && head == ids[0] && ByExpiry(grants, ids) && ByExpiry(grants, rest)
    requires head in grants && id in grants && head != id && grants[head].expiresAt <= grants[id].expiresAt
    requires forall x :: x in rest <==> x == id || x in ids[1..]
    ensures ByExpiry(grants, [head] + rest)
  {
    forall j | 0 <= j < |rest| ensures rest[j] != head && (rest[j] in grants ==> grants[head].expiresAt <= grants[rest[j]].expiresAt) {
      assert rest[j] in rest;
      if rest[j] != id {
        var k :| 0 <= k < |ids[1..]| && ids[1..][k] == rest[j];
        assert ids[k + 1] == rest[j];
      }
    }
  }

  // ------------------------------------------------------ listing everybody's grants

  /** gs lists all active rows, each once, newest first. */
  ghost predicate ListsAll(db: Db, now: int, gs: seq<Grant>) {
    && (forall i :: 0 <= i < |gs| ==> gs[i].id in db.grants && db.grants[gs[i].id] == gs[i] && Active(gs[i], now))
    && (forall id :: id in db.grants && Active(db.grants[id], now) ==> db.grants[id] in gs)
    && NewestFirst(gs)
  }
}
