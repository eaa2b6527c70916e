// What every reachable database satisfies: items and grant rows mirror each other, and
// has_pending tells the truth. Each transaction keeps it.
module Integrity {
  import opened Decisions
  import opened Rules
  import opened Store
  import opened Time
  import opened Protocol

  predicate HasGrant(state: ItemState) {
    state == Approved || state == Revoked
  }

  /** The grant row of a granted item. */
  predicate Carries(g: Grant, r: Request, item: Item) {
    && g.id == item.grantId && g.itemId == item.id && g.requestId == r.id && g.entity == r.entity
    && g.path == item.path && g.capabilities == item.capabilities && g.expiresAt == item.grantExpires
    && (g.revokedAt != 0 <==> item.state == Revoked)
  }

  predicate ItemOk(grants: map<Id, Grant>, r: Request, item: Item) {
    && (item.state == Pending ==> item.ttl >= SECOND && NormalCapabilities(item.capabilities))
    && (HasGrant(item.state) ==> item.grantId in grants && Carries(grants[item.grantId], r, item))
  }

  predicate ItemsOk(grants: map<Id, Grant>, r: Request) {
    forall i :: 0 <= i < |r.items| ==> ItemOk(grants, r, r.items[i])
  }

  ghost predicate RowOk(grants: map<Id, Grant>, id: Id, row: Row) {
    && row.request.id == id && row.request.entity != ""
    && row.hasPending == HasPending(row.request.items)
    && StoredTime(row.request.pendingUntil) == row.request.pendingUntil
    && DistinctIds(row.request)
    && ItemsOk(grants, row.request)
  }

  predicate Owns(r: Request, i: nat, g: Grant) {
    i < |r.items| && r.items[i].id == g.itemId && r.items[i].grantId == g.id && HasGrant(r.items[i].state)
  }

  ghost predicate GrantOk(requests: map<Id, Row>, id: Id, g: Grant) {
    && g.id == id
    && g.expiresAt > 0 && WholeSeconds(g.expiresAt) == g.expiresAt
    && NormalCapabilities(g.capabilities)
    && g.requestId in requests
    && exists i: nat :: Owns(requests[g.requestId].request, i, g)
  }

  ghost predicate DbInv(db: Db) {
    && (forall id {:trigger RowOk(db.grants, id, db.requests[id])} :: id in db.requests ==> RowOk(db.grants, id, db.requests[id]))
    && (forall id {:trigger GrantOk(db.requests, id, db.grants[id])} :: id in db.grants ==> GrantOk(db.requests, id, db.grants[id]))
    && (forall a, b :: a in db.requests && b in db.requests && a != b ==> ItemIds(db.requests[a].request) !! ItemIds(db.requests[b].request))
  }

  // ------------------------------------------------------------------- filing

  ghost predicate FreshlyFiled(r: Request) {
    r.entity != "" && forall i :: 0 <= i < |r.items| ==>
      && (r.items[i].state == Pending || r.items[i].state == Store.Refused || r.items[i].state == AlreadyGranted)
      && (r.items[i].state == Pending ==> r.items[i].ttl >= SECOND && NormalCapabilities(r.items[i].capabilities))
  }

  lemma {:induction false} FileKeeps(db: Db, r: Request)
    requires DbInv(db) && FreshlyFiled(r) && FreshItems(db, r)
    requires FileTx(db, r).Committed?
    ensures DbInv(FileTx(db, r).db)
  {
    var db' := FileTx(db, r).db;
    MultipleOfMillisecond(UnixMilli(r.pendingUntil));
    assert ItemIds(db'.requests[r.id].request) == ItemIds(r);
    forall id | id in db'.requests ensures RowOk(db'.grants, id, db'.requests[id]) {
      if id == r.id {
        assert ItemsOk(db'.grants, db'.requests[id].request);
      } else {
        assert RowOk(db.grants, id, db.requests[id]);
      }
    }
    forall id | id in db'.grants ensures GrantOk(db'.requests, id, db'.grants[id]) {
      assert GrantOk(db.requests, id, db.grants[id]);
    }
  }

  // -------------------------------------------------------------------- sweep

  lemma {:induction false} ExpiredRowOk(grants: map<Id, Grant>, id: Id, row: Row)
    requires RowOk(grants, id, row)
    ensures RowOk(grants, id, ExpiredRow(row))
    ensures !ExpiredRow(row).hasPending
    ensures ItemIds(ExpiredRow(row).request) == ItemIds(row.request)
  {
    var before, after := row.request, ExpiredRow(row).request;
    forall i | 0 <= i < |after.items| ensures ItemOk(grants, after, after.items[i]) && after.items[i].state != Pending {
      assert ItemOk(grants, before, before.items[i]);
    }
    SameIds(before, after);
  }

  lemma {:induction false} SameIds(before: Request, after: Request)
    requires |before.items| == |after.items| && forall i :: 0 <= i < |before.items| ==> after.items[i].id == before.items[i].id
    ensures ItemIds(after) == ItemIds(before)
    ensures DistinctIds(before) ==> DistinctIds(after)
  {
    forall id ensures id in ItemIds(after) <==> id in ItemIds(before) {
      if id in ItemIds(after) {
        var item :| item in after.items && item.id == id;
        var i :| 0 <= i < |after.items| && after.items[i] == item;
        assert before.items[i] in before.items;
      }
      if id in ItemIds(before) {
        var item :| item in before.items && item.id == id;
        var i :| 0 <= i < |before.items| && before.items[i] == item;
        assert after.items[i] in after.items;
      }
    }
  }

  lemma {:induction false} ExpireKeeps(db: Db, now: int)
    requires DbInv(db)
    ensures DbInv(ExpireTx(db, now))
  {
    var db' := ExpireTx(db, now);
    forall id | id in db.requests
      ensures RowOk(db'.grants, id, db'.requests[id]) && ItemIds(db'.requests[id].request) == ItemIds(db.requests[id].request)
    {
      assert RowOk(db.grants, id, db.requests[id]);
      if Due(db.requests[id], now) {
        ExpiredRowOk(db.grants, id, db.requests[id]);
      }
    }
    forall id | id in db'.grants ensures GrantOk(db'.requests, id, db'.grants[id]) {
      var g := db.grants[id];
      assert GrantOk(db.requests, id, g);
      var i: nat :| Owns(db.requests[g.requestId].request, i, g);
      assert Owns(db'.requests[g.requestId].request, i, g);
    }
  }

  // ------------------------------------------------------------------ revocation

  lemma {:induction false} RevokeKeeps(db: Db, grantId: Id, approver: Approver, now: int)
    requires DbInv(db) && now >= MILLISECOND
    requires RevokeTx(db, grantId, approver, now).Committed?
    ensures DbInv(RevokeTx(db, grantId, approver, now).db)
  {
    var db' := RevokeTx(db, grantId, approver, now).db;
    var g, g' := db.grants[grantId], db'.grants[grantId];
    var r, r' := db.requests[g.requestId].request, db'.requests[g.requestId].request;
    assert GrantOk(db.requests, grantId, g);
    assert RowOk(db.grants, g.requestId, db.requests[g.requestId]);
    assert StoredTime(now) > 0;
    SameIds(r, r');
    RevokedItemsOk(db.grants, db'.grants, r, g, g');
    assert RowOk(db'.grants, g.requestId, db'.requests[g.requestId]);
    forall id | id in db'.requests && id != g.requestId ensures RowOk(db'.grants, id, db'.requests[id]) {
      OtherRowKept(db.grants, db'.grants, id, db.requests[id], grantId);
    }
    forall id | id in db'.grants ensures GrantOk(db'.requests, id, db'.grants[id]) {
      RevokedGrantOk(db, db', g.requestId, id);
    }
  }

  lemma {:induction false} RevokedItemsOk(grants: map<Id, Grant>, grants': map<Id, Grant>, r: Request, g: Grant, g': Grant)
    requires ItemsOk(grants, r) && DistinctIds(r)
    requires g.id in grants && grants[g.id] == g && grants' == grants[g.id := g'] && g' == g.(revokedAt := g'.revokedAt, revokedBy := g'.revokedBy)
    requires g'.revokedAt != 0
    requires exists own: nat :: Owns(r, own, g)
    ensures ItemsOk(grants', r.(items := RevokedItems(r.items, g.itemId)))
  {
    var own: nat :| Owns(r, own, g);
    var r' := r.(items := RevokedItems(r.items, g.itemId));
    forall i | 0 <= i < |r.items| ensures ItemOk(grants', r', r'.items[i]) {
      assert ItemOk(grants, r, r.items[i]);
      assert i != own ==> r.items[i].id != r.items[own].id;
    }
  }

  lemma {:induction false} RevokedGrantOk(db: Db, db': Db, rid: Id, id: Id)
    requires id in db.grants && GrantOk(db.requests, id, db.grants[id])
    requires id in db'.grants && db'.grants[id] == db.grants[id].(revokedAt := db'.grants[id].revokedAt, revokedBy := db'.grants[id].revokedBy)
    requires rid in db.requests
    requires exists itemId, pending :: db'.requests ==
               db.requests[rid := Row(db.requests[rid].request.(items := RevokedItems(db.requests[rid].request.items, itemId)), pending)]
    ensures GrantOk(db'.requests, id, db'.grants[id])
  {
    var g := db.grants[id];
    var i: nat :| Owns(db.requests[g.requestId].request, i, g);
    assert Owns(db'.requests[g.requestId].request, i, db'.grants[id]);
  }

  // A row is untouched by changes to grants of other requests.
  lemma {:induction false} OtherRowKept(grants: map<Id, Grant>, grants': map<Id, Grant>, id: Id, row: Row, changed: Id)
    requires RowOk(grants, id, row)
    requires changed in grants && grants[changed].requestId != id
    requires forall g :: g in grants && g != changed ==> g in grants' && grants'[g] == grants[g]
    ensures RowOk(grants', id, row)
  {
    forall i | 0 <= i < |row.request.items| ensures ItemOk(grants', row.request, row.request.items[i]) {
      assert ItemOk(grants, row.request, row.request.items[i]);
    }
  }

  // ------------------------------------------------------------------- decisions

  lemma {:induction false} InsertGrantsExact(table: map<Id, Grant>, gs: seq<Grant>)
    requires InsertGrants(table, gs).Some?
    ensures var table' := InsertGrants(table, gs).value;
            && (forall id :: id in table ==> id in table' && table'[id] == table[id])
            && (forall g :: g in gs ==> g.id !in table && g.id in table' && table'[g.id] == StoredGrant(g))
            && (forall id :: id in table' ==> id in table || exists g :: g in gs && g.id == id && table'[id] == StoredGrant(g))
    decreases |gs|
  {
    if gs != [] {
      InsertGrantsExact(table[gs[0].id := StoredGrant(gs[0])], gs[1..]);
      assert forall g :: g in gs <==> g == gs[0] || g in gs[1..];
    }
  }

  lemma {:induction false} DecideKeeps(db: Db, approver: Approver, now: int, loaded: Request, t: Tally)
    requires DbInv(db) && now >= 0
    requires loaded.id in db.requests && db.requests[loaded.id].request == loaded
    requires Progress(approver, now, loaded, t)
    requires DecideTx(db, t.request, t.grants).Committed?
    ensures DbInv(DecideTx(db, t.request, t.grants).db)
  {
    var db' := DecideTx(db, t.request, t.grants).db;
    InsertGrantsExact(db.grants, t.grants);
    assert RowOk(db.grants, loaded.id, db.requests[loaded.id]);
    assert db'.requests[loaded.id].request == t.request;
    forall i | 0 <= i < |loaded.items| ensures t.request.items[i].id == loaded.items[i].id {
      assert ItemProgress(loaded, approver, now, loaded.items[i], t.request.items[i], t.grants);
    }
    SameIds(loaded, t.request);
    forall i | 0 <= i < |loaded.items| ensures ItemOk(db'.grants, t.request, t.request.items[i]) {
      DecidedItemOk(db, db'.grants, approver, now, loaded, t, i);
    }
    forall id | id in db'.requests ensures RowOk(db'.grants, id, db'.requests[id]) {
      if id != loaded.id {
        assert RowOk(db.grants, id, db.requests[id]);
        forall i | 0 <= i < |db.requests[id].request.items|
          ensures ItemOk(db'.grants, db.requests[id].request, db.requests[id].request.items[i])
        {
          assert ItemOk(db.grants, db.requests[id].request, db.requests[id].request.items[i]);
        }
      }
    }
    forall id | id in db'.grants ensures GrantOk(db'.requests, id, db'.grants[id]) {
      if id in db.grants {
        OldGrantOk(db, approver, now, loaded, t, id);
      } else {
        var g :| g in t.grants && g.id == id && db'.grants[id] == StoredGrant(g);
        NewGrantOk(db, approver, now, loaded, t, g);
      }
    }
  }

  lemma {:induction false} DecidedItemOk(db: Db, grants': map<Id, Grant>, approver: Approver, now: int, loaded: Request, t: Tally, i: nat)
    requires ItemsOk(db.grants, loaded) && Progress(approver, now, loaded, t) && i < |loaded.items|
    requires forall id :: id in db.grants ==> id in grants' && grants'[id] == db.grants[id]
    requires forall g :: g in t.grants ==> g.id in grants' && grants'[g.id] == StoredGrant(g)
    ensures ItemOk(grants', t.request, t.request.items[i])
  {
    var before, after := loaded.items[i], t.request.items[i];
    assert ItemOk(db.grants, loaded, before);
    assert ItemProgress(loaded, approver, now, before, after, t.grants);
    if after != before && after.state == Approved {
      var g := GrantFor(loaded, after, approver, now);
      var k :| 0 <= k < |loaded.items| && GrantOrigin(loaded, approver, now, loaded.items[k], t.request.items[k], g);
      WholeSecondsAreStored(g.expiresAt);
      assert StoredGrant(g).expiresAt == g.expiresAt;
    }
  }

  lemma {:induction false} OldGrantOk(db: Db, approver: Approver, now: int, loaded: Request, t: Tally, id: Id)
    requires DbInv(db) && id in db.grants && Progress(approver, now, loaded, t)
    requires loaded.id in db.requests && db.requests[loaded.id].request == loaded
    requires DecideTx(db, t.request, t.grants).Committed?
    ensures GrantOk(DecideTx(db, t.request, t.grants).db.requests, id, db.grants[id])
  {
    var db' := DecideTx(db, t.request, t.grants).db;
    var g := db.grants[id];
    assert GrantOk(db.requests, id, g);
    var i: nat :| Owns(db.requests[g.requestId].request, i, g);
    if g.requestId == loaded.id {
      assert ItemProgress(loaded, approver, now, loaded.items[i], t.request.items[i], t.grants);
    }
    assert Owns(db'.requests[g.requestId].request, i, g);
  }

  lemma {:induction false} NewGrantOk(db: Db, approver: Approver, now: int, loaded: Request, t: Tally, g: Grant)
    requires DbInv(db) && g in t.grants && Progress(approver, now, loaded, t) && now >= 0
    requires loaded.id in db.requests && db.requests[loaded.id].request == loaded
    requires DecideTx(db, t.request, t.grants).Committed?
    ensures GrantOk(DecideTx(db, t.request, t.grants).db.requests, g.id, StoredGrant(g))
  {
    var i :| 0 <= i < |loaded.items| && GrantOrigin(loaded, approver, now, loaded.items[i], t.request.items[i], g);
    assert ItemProgress(loaded, approver, now, loaded.items[i], t.request.items[i], t.grants);
    assert RowOk(db.grants, loaded.id, db.requests[loaded.id]);
    assert ItemOk(db.grants, loaded, loaded.items[i]);
    WholeSecondsAreStored(g.expiresAt);
    assert Owns(t.request, i, StoredGrant(g));
  }

  // -------------------------------------------------------------- consequences

  /**
    * An item is approved or revoked exactly when a grant row carries its ID; there is then
    * only one, with the item's grant ID, entity, path, capabilities and expiry, and it has
    * a revocation time exactly when the item is revoked.
    */
  lemma {:induction false} ItemsMirrorGrants(db: Db, rid: Id, i: nat)
    requires DbInv(db) && rid in db.requests && i < |db.requests[rid].request.items|
    ensures var r := db.requests[rid].request;
            var item := r.items[i];
            && (HasGrant(item.state) <==> exists id :: id in db.grants && db.grants[id].itemId == item.id)
            && (forall id :: id in db.grants && db.grants[id].itemId == item.id ==> id == item.grantId && Carries(db.grants[id], r, item))
  {
    var r := db.requests[rid].request;
    var item := r.items[i];
    assert RowOk(db.grants, rid, db.requests[rid]);
    assert ItemOk(db.grants, r, item);
    forall id | id in db.grants && db.grants[id].itemId == item.id
      ensures HasGrant(item.state) && id == item.grantId
    {
      var g := db.grants[id];
      assert GrantOk(db.requests, id, g);
      var j: nat :| Owns(db.requests[g.requestId].request, j, g);
      assert item in r.items && db.requests[g.requestId].request.items[j] in db.requests[g.requestId].request.items;
      assert item.id in ItemIds(r) && item.id in ItemIds(db.requests[g.requestId].request);
      assert g.requestId == rid;
      assert i == j;
    }
  }
}
