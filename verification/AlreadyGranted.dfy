// Filing skips the approval of items the Requester's live grants already cover, and of
// no others.
module AlreadyGranted {
  import opened Filing
  import opened Integrity
  import opened Invariants
  import opened OpenBao
  import opened Protocol
  import opened Rules
  import opened Store
  import opened Traces
  import Theorems

  /** No policy of the entity but its session policy gives anything on the path now. */
  ghost predicate BaselineSilent(bao: Bao, entity: string, now: int, path: string) {
    entity in bao.entities ==>
      forall name :: name in bao.entities[entity] && name != PolicyName(entity) && name in bao.policies ==>
        forall c :: !Gives(bao.policies[name], now, path, c)
  }

  /** The session policy is among the first n names, is in force, and gives the capability. */
  ghost predicate SessionGives(bao: Bao, entity: string, names: seq<string>, n: nat, path: string, now: int, c: string)
    requires n <= |names|
  {
    && PolicyName(entity) in names[..n] && PolicyName(entity) in bao.policies
    && Gives(bao.policies[PolicyName(entity)], now, path, c)
  }

  // What one policy of the list adds to the report of a capability other than deny.
  lemma {:induction false} OnePolicy(before: seq<string>, p: AclPolicy, path: string, now: int, c: string)
    requires PolicyLive(p, now) && c != "deny"
    ensures c in AfterBlocks(before, p.blocks, |p.blocks|, path, now) <==> c in before || Gives(p, now, path, c)
  {
    AfterBlocksExact(before, p.blocks, |p.blocks|, path, now, c);
    GivesIsBlocksGive(p, now, path, c);
  }

  /** With a silent baseline, what is reported besides deny is what the session policy gives. */
  lemma {:induction false} LookupExact(bao: Bao, entity: string, names: seq<string>, n: nat, path: string, now: int, c: string)
    requires n <= |names| && entity in bao.entities && bao.entities[entity] == names && BaselineSilent(bao, entity, now, path)
    requires c != "deny"
    ensures c in AfterPolicies(bao, names, n, path, now) <==> SessionGives(bao, entity, names, n, path, now, c)
  {
    if n > 0 {
      LookupExact(bao, entity, names, n - 1, path, now, c);
      assert names[..n] == names[..n - 1] + [names[n - 1]];
      assert names[n - 1] in names;
      if names[n - 1] in bao.policies && PolicyLive(bao.policies[names[n - 1]], now) {
        OnePolicy(AfterPolicies(bao, names, n - 1, path, now), bao.policies[names[n - 1]], path, now, c);
      }
    }
  }

  // While no policy gives deny, it is reported only when nothing else can be.
  lemma {:induction false} OnePolicyDeny(before: seq<string>, p: AclPolicy, path: string, now: int, c: string)
    requires PolicyLive(p, now) && !Gives(p, now, path, "deny")
    requires "deny" in AfterBlocks(before, p.blocks, |p.blocks|, path, now)
    ensures "deny" in before && !Gives(p, now, path, c)
  {
    AfterBlocksExact(before, p.blocks, |p.blocks|, path, now, "deny");
    GivesIsBlocksGive(p, now, path, "deny");
    GivesIsBlocksGive(p, now, path, c);
  }

  lemma {:induction false} DenyMeansNothing(bao: Bao, entity: string, names: seq<string>, n: nat, path: string, now: int, c: string)
    requires n <= |names| && entity in bao.entities && bao.entities[entity] == names && BaselineSilent(bao, entity, now, path)
    requires !Access(bao, entity, now, path, "deny") && "deny" in AfterPolicies(bao, names, n, path, now)
    ensures !SessionGives(bao, entity, names, n, path, now, c)
  {
    if n > 0 {
      assert names[..n] == names[..n - 1] + [names[n - 1]];
      assert names[n - 1] in names;
      if names[n - 1] in bao.policies && PolicyLive(bao.policies[names[n - 1]], now) {
        OnePolicyDeny(AfterPolicies(bao, names, n - 1, path, now), bao.policies[names[n - 1]], path, now, c);
      }
      DenyMeansNothing(bao, entity, names, n - 1, path, now, c);
    }
  }

  lemma {:induction false} AccessIsSession(bao: Bao, entity: string, path: string, now: int, c: string)
    requires entity in bao.entities
    ensures Access(bao, entity, now, path, c) <==> SessionGives(bao, entity, bao.entities[entity], |bao.entities[entity]|, path, now, c)
  {
    var names := bao.entities[entity];
    assert names[..|names|] == names;
  }

  /** The entity's live stored grants on the exact path together include every requested capability. */
  ghost predicate GrantsCover(db: Db, entity: string, now: int, path: string, capabilities: seq<string>) {
    forall c :: c in capabilities ==> Entitled(db, entity, now, path, c)
  }

  lemma {:induction false} OnlyGrantableEntitled(db: Db, entity: string, now: int, path: string, c: string)
    requires DbInv(db) && Entitled(db, entity, now, path, c)
    ensures c in GRANTABLE
  {
    var id :| id in db.grants && GrantGives(db.grants[id], entity, now, path, c);
    assert GrantOk(db.requests, id, db.grants[id]);
  }

  /** What is reported besides deny is what the store entitles to. */
  lemma {:induction false} ReportedExact(db: Db, bao: Bao, now: int, entity: string, path: string, c: string)
    requires Sync(db, bao, now, entity) && BaselineSilent(bao, entity, now, path) && entity in bao.entities && c != "deny"
    ensures c in SelfCapabilities(bao, entity, path, now) <==> Entitled(db, entity, now, path, c)
  {
    AccessIsSession(bao, entity, path, now, c);
    LookupExact(bao, entity, bao.entities[entity], |bao.entities[entity]|, path, now, c);
  }

  lemma {:induction false} DenyReported(db: Db, bao: Bao, now: int, entity: string, path: string, c: string)
    requires DbInv(db) && Sync(db, bao, now, entity) && BaselineSilent(bao, entity, now, path) && entity in bao.entities
    requires "deny" in SelfCapabilities(bao, entity, path, now)
    ensures !Entitled(db, entity, now, path, c)
  {
    if Entitled(db, entity, now, path, "deny") {
      OnlyGrantableEntitled(db, entity, now, path, "deny");
    }
    AccessIsSession(bao, entity, path, now, c);
    DenyMeansNothing(bao, entity, bao.entities[entity], |bao.entities[entity]|, path, now, c);
  }

  /** The reported capabilities cover a request exactly when the live stored grants do. */
  lemma {:induction false} CoverExact(db: Db, bao: Bao, now: int, entity: string, path: string, capabilities: seq<string>)
    requires DbInv(db) && Sync(db, bao, now, entity) && BaselineSilent(bao, entity, now, path) && NormalCapabilities(capabilities)
    ensures Covers(SelfCapabilities(bao, entity, path, now), capabilities) <==> GrantsCover(db, entity, now, path, capabilities)
  {
    var reported := SelfCapabilities(bao, entity, path, now);
    assert capabilities[0] in capabilities;
    if entity !in bao.entities {
      assert !Access(bao, entity, now, path, capabilities[0]);
    } else {
      forall c | c != "deny" ensures c in reported <==> Entitled(db, entity, now, path, c) {
        ReportedExact(db, bao, now, entity, path, c);
      }
      if "root" in reported {
        OnlyGrantableEntitled(db, entity, now, path, "root");
      }
      if "deny" in reported {
        DenyReported(db, bao, now, entity, path, capabilities[0]);
      }
      assert "deny" !in capabilities;
    }
  }

  /**
    * When policy and store agree, the baseline gives nothing on the path and the lookup
    * succeeds, a pending item is filed as already granted exactly when the Requester's live
    * grants on that path include every capability it asks for.
    */
  lemma {:induction false} AlreadyGrantedExact(s: Sys, labels: seq<Label>, entity: string, item: Item)
    requires Init(s) && IsRun(s, labels)
    requires entity !in After(s, labels).locks && entity !in After(s, labels).dirty
    requires item.state == Pending && NormalCapabilities(item.capabilities)
    requires BaselineSilent(After(s, labels).bao, entity, After(s, labels).clock, item.path)
    ensures var now := After(s, labels);
            Marked(now.bao, entity, now.clock, item).state == Store.AlreadyGranted <==>
            GrantsCover(now.db, entity, now.clock, item.path, item.capabilities)
  {
    Theorems.RunKeeps(s, labels);
    MarkedExact(After(s, labels), entity, item);
  }

  lemma {:induction false} MarkedExact(s: Sys, entity: string, item: Item)
    requires Inv(s) && entity !in s.locks && entity !in s.dirty
    requires item.state == Pending && NormalCapabilities(item.capabilities) && BaselineSilent(s.bao, entity, s.clock, item.path)
    ensures Marked(s.bao, entity, s.clock, item).state == Store.AlreadyGranted <==>
            GrantsCover(s.db, entity, s.clock, item.path, item.capabilities)
  {
    assert EntityOk(s, entity);
    CoverExact(s.db, s.bao, s.clock, entity, item.path, item.capabilities);
  }

  // --------------------------------------------------------------- from call to store

  /**
    * How item i of a filed request is stored: as the static steps have it, except that a
    * pending item is already granted when the Requester's live grants cover it.
    */
  ghost predicate FiledAs(s: Sys, entity: string, inputs: seq<ItemInput>, i: nat, id: Id, item: Item)
    requires i < |inputs|
  {
    exists filed: Item :: FiledFrom(s.policy, inputs, i, id, filed) &&
      item == if filed.state == Pending && GrantsCover(s.db, entity, s.clock, filed.path, filed.capabilities)
              then filed.(state := Store.AlreadyGranted, reason := HasAlready) else filed
  }

  lemma {:induction false} MarkedFiledAs(s: Sys, entity: string, inputs: seq<ItemInput>, ids: seq<Id>, i: nat)
    requires Inv(s) && entity !in s.locks && entity !in s.dirty && |inputs| == |ids| && i < |inputs|
    requires Resolve(s.policy, inputs[i]).Accepted? ==> BaselineSilent(s.bao, entity, s.clock, Resolve(s.policy, inputs[i]).item.path)
    ensures FiledAs(s, entity, inputs, i, ids[i], Marked(s.bao, entity, s.clock, FiledItems(s.policy, inputs, ids)[i]))
  {
    FiledExact(s.policy, inputs, ids, i);
    FiledItemExact(s.policy, inputs, ids, i);
    var item := FiledItems(s.policy, inputs, ids)[i];
    if item.state == Pending {
      MarkedExact(s, entity, item);
    }
  }

  /** The request as it is stored when the lookup succeeds. */
  function Checked(s: Sys, entity: string, inputs: seq<ItemInput>, ttl: int, ids: seq<Id>): Request
    requires |ids| == |inputs| + 1
  {
    Request(ids[0], entity, s.clock, s.clock + ttl, MarkedItems(s.bao, entity, s.clock, FiledItems(s.policy, inputs, ids[1..])))
  }

  lemma {:induction false} ResolvesAll(s: Sys, tid: ThreadId, entity: string, inputs: seq<ItemInput>, ttl: int, ids: seq<Id>, filed: Request)
    requires tid in s.threads && s.threads[tid] == FileCall(entity, inputs, ttl)
    requires 1 <= |inputs| <= MAX_ITEMS && |ids| == |inputs| + 1
    requires filed == Request(ids[0], entity, s.clock, s.clock + ttl, FiledItems(s.policy, inputs, ids[1..]))
    ensures Leads(s, Step(tid, Ids(ids)), Goto(s, tid, FileResolved(filed)))
  {
  }

  lemma {:induction false} LooksUp(s: Sys, tid: ThreadId, filed: Request)
    requires tid in s.threads && s.threads[tid] == FileResolved(filed)
    ensures Leads(s, Step(tid, Ok), Goto(s, tid, FileChecked(filed.(items := MarkedItems(s.bao, filed.entity, s.clock, filed.items)))))
  {
    if !HasPending(filed.items) {
      assert MarkedItems(s.bao, filed.entity, s.clock, filed.items) == filed.items;
    }
  }

  lemma {:induction false} Stores(s: Sys, tid: ThreadId, filing: Request)
    requires tid in s.threads && s.threads[tid] == FileChecked(filing) && FreshItems(s.db, filing) && filing.id !in s.db.requests
    ensures Leads(s, Step(tid, Ok), Goto(s, tid, Done(Success)).(db := FileTx(s.db, filing).db))
  {
  }

  /**
    * From the call to the store: a request filed while policy and store agree is stored
    * with each item refused, already granted or pending, exactly as the rules, the earlier
    * items and the Requester's live grants of that moment have it.
    */
  lemma {:induction false} FiledFromCallToStore(s: Sys, labels: seq<Label>, tid: ThreadId, entity: string, inputs: seq<ItemInput>, ttl: int, ids: seq<Id>)
    requires Init(s) && IsRun(s, labels)
    requires tid in After(s, labels).threads && After(s, labels).threads[tid] == FileCall(entity, inputs, ttl)
    requires 1 <= |inputs| <= MAX_ITEMS && |ids| == |inputs| + 1 && ids[0] !in After(s, labels).db.requests
    requires FreshItems(After(s, labels).db, Checked(After(s, labels), entity, inputs, ttl, ids))
    requires entity !in After(s, labels).locks && entity !in After(s, labels).dirty
    requires forall i :: 0 <= i < |inputs| && Resolve(After(s, labels).policy, inputs[i]).Accepted? ==>
               BaselineSilent(After(s, labels).bao, entity, After(s, labels).clock, Resolve(After(s, labels).policy, inputs[i]).item.path)
    ensures var steps, now := labels + [Step(tid, Ids(ids)), Step(tid, Ok), Step(tid, Ok)], After(s, labels);
            && IsRun(s, steps) && ids[0] in After(s, steps).db.requests
            && var items := After(s, steps).db.requests[ids[0]].request.items;
               && RequestInserted(now.db, After(s, steps).db, Request(ids[0], entity, now.clock, now.clock + ttl, items))
               && |items| == |inputs| && forall i :: 0 <= i < |inputs| ==> FiledAs(now, entity, inputs, i, ids[i + 1], items[i])
  {
    Theorems.RunKeeps(s, labels);
    var now := After(s, labels);
    var filed := Request(ids[0], entity, now.clock, now.clock + ttl, FiledItems(now.policy, inputs, ids[1..]));
    ResolvesAll(now, tid, entity, inputs, ttl, ids, filed);
    FileSteps(s, labels, tid, ids, filed, Checked(now, entity, inputs, ttl, ids));
    FileExact(now.db, Checked(now, entity, inputs, ttl, ids));
    AllFiledAs(now, entity, inputs, ttl, ids);
  }

  lemma {:induction false} FileSteps(s: Sys, labels: seq<Label>, tid: ThreadId, ids: seq<Id>, filed: Request, checked: Request)
    requires IsRun(s, labels) && Leads(After(s, labels), Step(tid, Ids(ids)), Goto(After(s, labels), tid, FileResolved(filed)))
    requires checked == filed.(items := MarkedItems(After(s, labels).bao, filed.entity, After(s, labels).clock, filed.items))
    requires FreshItems(After(s, labels).db, checked) && checked.id !in After(s, labels).db.requests
    ensures var steps := labels + [Step(tid, Ids(ids)), Step(tid, Ok), Step(tid, Ok)];
            IsRun(s, steps) && After(s, steps).db == FileTx(After(s, labels).db, checked).db
  {
    var now := After(s, labels);
    var l, s1 := Step(tid, Ids(ids)), Goto(now, tid, FileResolved(filed));
    OneState(now);
    ExtendChain([now], [], l, s1);
    var last := FilingChain(now, tid, l, filed, checked);
    var steps := [] + [l] + [Step(tid, Ok)] + [Step(tid, Ok)];
    FollowChain(s, labels, [now] + [s1] + [Goto(now, tid, FileChecked(checked))] + [last], steps);
    assert steps == [Step(tid, Ids(ids)), Step(tid, Ok), Step(tid, Ok)];
  }

  // The two steps after a request is resolved.
  lemma {:induction false} FilingChain(s: Sys, tid: ThreadId, l: Label, filed: Request, checked: Request) returns (last: Sys)
    requires IsChain([s] + [Goto(s, tid, FileResolved(filed))], [] + [l])
    requires checked == filed.(items := MarkedItems(s.bao, filed.entity, s.clock, filed.items))
    requires FreshItems(s.db, checked) && checked.id !in s.db.requests
    ensures last.db == FileTx(s.db, checked).db
    ensures IsChain([s] + [Goto(s, tid, FileResolved(filed))] + [Goto(s, tid, FileChecked(checked))] + [last], [] + [l] + [Step(tid, Ok)] + [Step(tid, Ok)])
  {
    var s1, s2 := Goto(s, tid, FileResolved(filed)), Goto(s, tid, FileChecked(checked));
    last := Goto(s2, tid, Done(Success)).(db := FileTx(s.db, checked).db);
    LooksUp(s1, tid, filed);
    assert Goto(s1, tid, FileChecked(checked)) == s2;
    ExtendChain([s] + [s1], [] + [l], Step(tid, Ok), s2);
    Stores(s2, tid, checked);
    ExtendChain([s] + [s1] + [s2], [] + [l] + [Step(tid, Ok)], Step(tid, Ok), last);
  }

  lemma {:induction false} AllFiledAs(s: Sys, entity: string, inputs: seq<ItemInput>, ttl: int, ids: seq<Id>)
    requires Inv(s) && entity !in s.locks && entity !in s.dirty && |ids| == |inputs| + 1
    requires forall i :: 0 <= i < |inputs| && Resolve(s.policy, inputs[i]).Accepted? ==>
               BaselineSilent(s.bao, entity, s.clock, Resolve(s.policy, inputs[i]).item.path)
    ensures var items := Checked(s, entity, inputs, ttl, ids).items;
            |items| == |inputs| && forall i :: 0 <= i < |inputs| ==> FiledAs(s, entity, inputs, i, ids[i + 1], items[i])
  {
    forall i | 0 <= i < |inputs| ensures FiledAs(s, entity, inputs, i, ids[i + 1], Checked(s, entity, inputs, ttl, ids).items[i]) {
      MarkedFiledAs(s, entity, inputs, ids[1..], i);
    }
  }
}
