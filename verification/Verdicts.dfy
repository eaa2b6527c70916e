// What a batch of decisions comes to, said without the loop: when it is accepted as a
// whole, what becomes of every item, and which grants it makes.
module Verdicts {
  import opened Decisions
  import opened Rules
  import opened Store

  predicate Named(ds: seq<Decision>, n: nat, id: Id)
    requires n <= |ds|
  {
    exists k :: 0 <= k < n && ds[k].itemId == id
  }

  /** A decision that can be applied to the request as it was loaded. */
  predicate Acceptable(now: int, orig: Request, d: Decision, life: Lifetime) {
    var index := IndexOf(orig.items, d.itemId);
    && index < |orig.items|
    && orig.items[index].state == Pending && now < orig.pendingUntil
    && (d.ttl != NoTtl ==> d.approve)
    && (d.approve ==> !life.InvalidTtl?)
  }

  /** What one acceptable decision makes of its item. */
  function DecidedItem(approver: Approver, now: int, grantId: Id, d: Decision, life: Lifetime, item: Item): Item {
    if !d.approve then RejectedItem(item, approver, now)
    else match life
      case InvalidTtl => item
      case NotGrantable(refusal) => RefusedItem(item, refusal, now)
      case Granted(ttl) => ApprovedItem(item, approver, now, grantId, ttl)
  }

  /** Every decision is acceptable by itself, and no two of them name the same item. */
  ghost predicate BatchAcceptable(now: int, orig: Request, ds: seq<Decision>, lives: seq<Lifetime>, n: nat)
    requires n <= |ds| == |lives|
  {
    && (forall k {:trigger Acceptable(now, orig, ds[k], lives[k])} :: 0 <= k < n ==> Acceptable(now, orig, ds[k], lives[k]))
    && (forall k :: 0 <= k < n ==> !Named(ds, k, ds[k].itemId))
  }

  /** Decision k was applied to its item as it was loaded. */
  ghost predicate Applied(approver: Approver, now: int, ids: seq<Id>, ds: seq<Decision>, lives: seq<Lifetime>, orig: Request, items: seq<Item>, k: nat)
    requires k < |ds| == |ids| == |lives|
  {
    var index := IndexOf(orig.items, ds[k].itemId);
    index < |orig.items| == |items| && items[index] == DecidedItem(approver, now, ids[k], ds[k], lives[k], orig.items[index])
  }

  /** An item no decision names stays as it was. */
  ghost predicate Kept(ds: seq<Decision>, n: nat, before: Item, after: Item)
    requires n <= |ds|
  {
    after.id == before.id && (Named(ds, n, before.id) || after == before)
  }

  function GrantOf(approver: Approver, now: int, grantId: Id, d: Decision, life: Lifetime, orig: Request): seq<Grant> {
    var index := IndexOf(orig.items, d.itemId);
    if index == |orig.items| then []
    else
      var after := DecidedItem(approver, now, grantId, d, life, orig.items[index]);
      if after.state == Approved then [GrantFor(orig, after, approver, now)] else []
  }

  /** One grant for each approval that stands, in the order of the decisions. */
  function BatchGrants(approver: Approver, now: int, ids: seq<Id>, ds: seq<Decision>, lives: seq<Lifetime>, orig: Request, n: nat): seq<Grant>
    requires n <= |ds| == |ids| == |lives|
  {
    if n == 0 then []
    else BatchGrants(approver, now, ids, ds, lives, orig, n - 1) + GrantOf(approver, now, ids[n - 1], ds[n - 1], lives[n - 1], orig)
  }

  ghost predicate Items(approver: Approver, now: int, ids: seq<Id>, ds: seq<Decision>, lives: seq<Lifetime>, orig: Request, items: seq<Item>, n: nat)
    requires n <= |ds| == |ids| == |lives|
  {
    && |items| == |orig.items|
    && (forall k: nat {:trigger Applied(approver, now, ids, ds, lives, orig, items, k)} :: k < n ==>
          Applied(approver, now, ids, ds, lives, orig, items, k))
    && (forall i :: 0 <= i < |items| ==> Kept(ds, n, orig.items[i], items[i]))
  }

  ghost predicate Outcome(approver: Approver, now: int, ids: seq<Id>, ds: seq<Decision>, lives: seq<Lifetime>, orig: Request, n: nat, t: Tally)
    requires n <= |ds| == |ids| == |lives|
  {
    && t.request == orig.(items := t.request.items)
    && Items(approver, now, ids, ds, lives, orig, t.request.items, n)
    && t.grants == BatchGrants(approver, now, ids, ds, lives, orig, n)
    && (forall id :: id in t.seen <==> Named(ds, n, id))
  }

  lemma {:induction false} NamedNext(ds: seq<Decision>, n: nat)
    requires n < |ds|
    ensures forall id {:trigger Named(ds, n + 1, id)} :: Named(ds, n + 1, id) <==> Named(ds, n, id) || id == ds[n].itemId
  {
    forall id ensures Named(ds, n + 1, id) <==> Named(ds, n, id) || id == ds[n].itemId {
      if Named(ds, n, id) {
        var k :| 0 <= k < n && ds[k].itemId == id;
      }
    }
  }

  /** After n decisions of an acceptable batch, the item the next one names is still as it was loaded. */
  lemma {:induction false} StillLoaded(approver: Approver, now: int, ids: seq<Id>, ds: seq<Decision>, lives: seq<Lifetime>, orig: Request, n: nat, t: Tally)
    requires n < |ds| == |ids| == |lives| && Outcome(approver, now, ids, ds, lives, orig, n, t)
    ensures IndexOf(t.request.items, ds[n].itemId) == IndexOf(orig.items, ds[n].itemId)
    ensures ds[n].itemId in t.seen <==> Named(ds, n, ds[n].itemId)
    ensures !Named(ds, n, ds[n].itemId) && IndexOf(orig.items, ds[n].itemId) < |orig.items| ==>
              t.request.items[IndexOf(orig.items, ds[n].itemId)] == orig.items[IndexOf(orig.items, ds[n].itemId)]
  {
    forall i | 0 <= i < |orig.items| ensures orig.items[i].id == t.request.items[i].id {
      assert Kept(ds, n, orig.items[i], t.request.items[i]);
    }
    SameIndex(orig.items, t.request.items, ds[n].itemId);
    var index := IndexOf(orig.items, ds[n].itemId);
    if index < |orig.items| {
      assert Kept(ds, n, orig.items[index], t.request.items[index]);
    }
  }

  /** One more decision, judged against the request as it was loaded. */
  lemma {:induction false} NextAccepted(approver: Approver, now: int, ids: seq<Id>, ds: seq<Decision>, lives: seq<Lifetime>, orig: Request, n: nat, t: Tally)
    requires n < |ds| == |ids| == |lives| && Outcome(approver, now, ids, ds, lives, orig, n, t)
    ensures JudgeWith(approver, now, ids[n], ds[n], t, lives[n]).Decided? <==>
              Acceptable(now, orig, ds[n], lives[n]) && !Named(ds, n, ds[n].itemId)
  {
    StillLoaded(approver, now, ids, ds, lives, orig, n, t);
  }

  lemma {:induction false} NextTally(approver: Approver, now: int, ids: seq<Id>, ds: seq<Decision>, lives: seq<Lifetime>, orig: Request, n: nat, t: Tally)
    requires n < |ds| == |ids| == |lives| && Outcome(approver, now, ids, ds, lives, orig, n, t)
    requires JudgeWith(approver, now, ids[n], ds[n], t, lives[n]).Decided?
    ensures var u := JudgeWith(approver, now, ids[n], ds[n], t, lives[n]).tally;
            var index := IndexOf(orig.items, ds[n].itemId);
            && index < |orig.items|
            && u.request == t.request.(items := t.request.items[index := DecidedItem(approver, now, ids[n], ds[n], lives[n], orig.items[index])])
            && u.grants == t.grants + GrantOf(approver, now, ids[n], ds[n], lives[n], orig)
            && u.seen == t.seen + {ds[n].itemId}
  {
    StillLoaded(approver, now, ids, ds, lives, orig, n, t);
  }

  lemma {:induction false} NextItems(approver: Approver, now: int, ids: seq<Id>, ds: seq<Decision>, lives: seq<Lifetime>, orig: Request, items: seq<Item>, n: nat)
    requires n < |ds| == |ids| == |lives| && Items(approver, now, ids, ds, lives, orig, items, n) && !Named(ds, n, ds[n].itemId)
    requires IndexOf(orig.items, ds[n].itemId) < |orig.items|
    ensures var index := IndexOf(orig.items, ds[n].itemId);
            Items(approver, now, ids, ds, lives, orig, items[index := DecidedItem(approver, now, ids[n], ds[n], lives[n], orig.items[index])], n + 1)
  {
    var index := IndexOf(orig.items, ds[n].itemId);
    var items' := items[index := DecidedItem(approver, now, ids[n], ds[n], lives[n], orig.items[index])];
    forall k: nat | k < n + 1 ensures Applied(approver, now, ids, ds, lives, orig, items', k) {
      if k < n {
        assert Applied(approver, now, ids, ds, lives, orig, items, k);
        assert ds[k].itemId != ds[n].itemId;
      }
    }
    NamedNext(ds, n);
    forall i | 0 <= i < |items'| ensures Kept(ds, n + 1, orig.items[i], items'[i]) {
      assert Kept(ds, n, orig.items[i], items[i]);
    }
  }

  lemma {:induction false} NextOutcome(approver: Approver, now: int, ids: seq<Id>, ds: seq<Decision>, lives: seq<Lifetime>, orig: Request, n: nat, t: Tally)
    requires n < |ds| == |ids| == |lives| && Outcome(approver, now, ids, ds, lives, orig, n, t) && !Named(ds, n, ds[n].itemId)
    requires JudgeWith(approver, now, ids[n], ds[n], t, lives[n]).Decided?
    ensures Outcome(approver, now, ids, ds, lives, orig, n + 1, JudgeWith(approver, now, ids[n], ds[n], t, lives[n]).tally)
  {
    NextTally(approver, now, ids, ds, lives, orig, n, t);
    NextItems(approver, now, ids, ds, lives, orig, t.request.items, n);
    NamedNext(ds, n);
  }

  lemma {:induction false} NextAcceptable(now: int, orig: Request, ds: seq<Decision>, lives: seq<Lifetime>, n: nat)
    requires n < |ds| == |lives|
    ensures BatchAcceptable(now, orig, ds, lives, n + 1) <==>
              BatchAcceptable(now, orig, ds, lives, n) && Acceptable(now, orig, ds[n], lives[n]) && !Named(ds, n, ds[n].itemId)
  {
  }

  /** v is the verdict on the first n decisions, by what they are rather than by their turn. */
  ghost predicate Exact(approver: Approver, now: int, ids: seq<Id>, ds: seq<Decision>, lives: seq<Lifetime>, orig: Request, n: nat, v: Verdict)
    requires n <= |ds| == |ids| == |lives|
  {
    && (v.Decided? <==> BatchAcceptable(now, orig, ds, lives, n))
    && (v.Decided? ==> Outcome(approver, now, ids, ds, lives, orig, n, v.tally))
  }

  lemma {:induction false} FailedExact(approver: Approver, now: int, ids: seq<Id>, ds: seq<Decision>, lives: seq<Lifetime>, orig: Request, n: nat, v: Verdict)
    requires n < |ds| == |ids| == |lives| && v.Failed? && Exact(approver, now, ids, ds, lives, orig, n, v)
    ensures Exact(approver, now, ids, ds, lives, orig, n + 1, v)
  {
    NextAcceptable(now, orig, ds, lives, n);
  }

  lemma {:induction false} DecidedExact(approver: Approver, now: int, ids: seq<Id>, ds: seq<Decision>, lives: seq<Lifetime>, orig: Request, n: nat, t: Tally)
    requires n < |ds| == |ids| == |lives| && Exact(approver, now, ids, ds, lives, orig, n, Decided(t))
    ensures Exact(approver, now, ids, ds, lives, orig, n + 1, JudgeWith(approver, now, ids[n], ds[n], t, lives[n]))
  {
    NextAcceptable(now, orig, ds, lives, n);
    NextAccepted(approver, now, ids, ds, lives, orig, n, t);
    if JudgeWith(approver, now, ids[n], ds[n], t, lives[n]).Decided? {
      NextOutcome(approver, now, ids, ds, lives, orig, n, t);
    }
  }

  lemma {:induction false} NextExact(approver: Approver, now: int, ids: seq<Id>, ds: seq<Decision>, lives: seq<Lifetime>, orig: Request, n: nat, v: Verdict)
    requires 0 < n <= |ds| == |ids| == |lives| && Exact(approver, now, ids, ds, lives, orig, n - 1, v)
    ensures Exact(approver, now, ids, ds, lives, orig, n, NextWith(approver, now, ids[n - 1], ds[n - 1], v, lives[n - 1]))
  {
    if v.Failed? {
      FailedExact(approver, now, ids, ds, lives, orig, n - 1, v);
    } else {
      DecidedExact(approver, now, ids, ds, lives, orig, n - 1, v.tally);
    }
  }

  /**
    * A batch is accepted exactly when every decision is acceptable against the request as
    * it was loaded and no item is named twice, whatever their order. Then each named item
    * becomes what its decision makes of it, every other item is unchanged, and there is one
    * grant for each approval that stands.
    */
  lemma {:induction false} JudgeAllExact(approver: Approver, now: int, ids: seq<Id>, ds: seq<Decision>, lives: seq<Lifetime>, orig: Request, n: nat)
    requires n <= |ds| == |ids| == |lives|
    ensures Exact(approver, now, ids, ds, lives, orig, n, JudgeAll(approver, now, ids, ds, lives, orig, n))
  {
    if n > 0 {
      JudgeAllExact(approver, now, ids, ds, lives, orig, n - 1);
      NextExact(approver, now, ids, ds, lives, orig, n, JudgeAll(approver, now, ids, ds, lives, orig, n - 1));
    }
  }

  /** The verdict on a batch, with the lifetimes its items are left under the rules. */
  lemma {:induction false} JudgeExact(p: Policy, approver: Approver, now: int, ids: seq<Id>, ds: seq<Decision>, orig: Request)
    requires |ds| == |ids|
    ensures Exact(approver, now, ids, ds, Lives(p, ds, orig.items), orig, |ds|, Judge(p, approver, now, ids, ds, orig))
  {
    JudgeAllExact(approver, now, ids, ds, Lives(p, ds, orig.items), orig, |ds|);
  }

  // A failure after n decisions is the failure of the whole batch.
  lemma {:induction false} FailureStands(approver: Approver, now: int, ids: seq<Id>, ds: seq<Decision>, lives: seq<Lifetime>, request: Request, n: nat)
    requires n <= |ds| == |ids| == |lives|
    ensures JudgeAll(approver, now, ids, ds, lives, request, n).Failed? ==>
              JudgeAll(approver, now, ids, ds, lives, request, |ds|) == JudgeAll(approver, now, ids, ds, lives, request, n)
    decreases |ds| - n
  {
    if n < |ds| {
      FailureStands(approver, now, ids, ds, lives, request, n + 1);
    }
  }

  // While no decision has failed, the next item is as it was loaded, unless it has been seen.
  lemma {:induction false} NextLoaded(approver: Approver, now: int, ids: seq<Id>, ds: seq<Decision>, lives: seq<Lifetime>, given: Request, n: nat, t: Tally)
    requires n < |ds| == |ids| == |lives| && JudgeAll(approver, now, ids, ds, lives, given, n) == Decided(t)
    ensures IndexOf(t.request.items, ds[n].itemId) == IndexOf(given.items, ds[n].itemId)
    ensures var index := IndexOf(given.items, ds[n].itemId);
            |t.request.items| == |given.items| && (index < |given.items| && ds[n].itemId !in t.seen ==> t.request.items[index] == given.items[index])
  {
    JudgeAllExact(approver, now, ids, ds, lives, given, n);
    StillLoaded(approver, now, ids, ds, lives, given, n, t);
  }

  ghost predicate LifeAt(p: Policy, ds: seq<Decision>, lives: seq<Lifetime>, items: seq<Item>, k: nat)
    requires k < |ds| == |lives|
  {
    lives[k] == LifetimeFor(p, ds[k], items)
  }

  /** The lifetime computed for an item not seen before is the one it was loaded with. */
  predicate LifeMatches(p: Policy, d: Decision, t: Tally, life: Lifetime) {
    var index := IndexOf(t.request.items, d.itemId);
    index < |t.request.items| && d.itemId !in t.seen ==> life == ApprovalTTL(p, t.request.items[index], d.ttl)
  }

  lemma {:induction false} LoadedLife(p: Policy, d: Decision, items: seq<Item>, t: Tally, life: Lifetime)
    requires IndexOf(t.request.items, d.itemId) == IndexOf(items, d.itemId) && |t.request.items| == |items|
    requires var index := IndexOf(items, d.itemId);
             index < |items| && d.itemId !in t.seen ==> t.request.items[index] == items[index]
    requires life == LifetimeFor(p, d, items)
    ensures LifeMatches(p, d, t, life)
  {
  }

  lemma {:induction false} NextLife(p: Policy, approver: Approver, now: int, ids: seq<Id>, ds: seq<Decision>, lives: seq<Lifetime>, given: Request, n: nat, t: Tally)
    requires n < |ds| == |ids| == |lives| && JudgeAll(approver, now, ids, ds, lives, given, n) == Decided(t)
    requires LifeAt(p, ds, lives, given.items, n)
    ensures LifeMatches(p, ds[n], t, lives[n])
  {
    NextLoaded(approver, now, ids, ds, lives, given, n, t);
    LoadedLife(p, ds[n], given.items, t, lives[n]);
  }

  /** The body of the decision loop; `life` is the lifetime it computes for an item not seen before. */
  method JudgeItem(p: Policy, approver: Approver, now: int, id: Id, d: Decision, t: Tally, ghost life: Lifetime) returns (v: Verdict)
    requires LifeMatches(p, d, t, life)
    ensures v == JudgeWith(approver, now, id, d, t, life)
  {
    var request := t.request;
    var index := IndexOf(request.items, d.itemId);
    if index == |request.items| || d.itemId in t.seen {
      return Failed(InvalidInput);
    }
    var seen := t.seen + {d.itemId};
    var item := request.items[index];
    if item.state != Pending || !(now < request.pendingUntil) {
      return Failed(Conflict);
    }
    if d.ttl != NoTtl && !d.approve {
      return Failed(InvalidInput);
    }
    if !d.approve {
      request := request.(items := request.items[index := RejectedItem(item, approver, now)]);
      return Decided(Tally(request, t.grants, seen));
    }
    var left := ComputeApprovalTTL(p, item, d.ttl);
    match left {
      case InvalidTtl =>
        return Failed(InvalidInput);
      case NotGrantable(refusal) =>
        request := request.(items := request.items[index := RefusedItem(item, refusal, now)]);
        return Decided(Tally(request, t.grants, seen));
      case Granted(ttl) =>
        item := ApprovedItem(item, approver, now, id, ttl);
        var grant := GrantFor(request, item, approver, now);
        request := request.(items := request.items[index := item]);
        return Decided(Tally(request, t.grants + [grant], seen));
    }
  }

  /** The decision loop, which stops at the first decision that fails. */
  method JudgeItems(p: Policy, approver: Approver, now: int, ids: seq<Id>, ds: seq<Decision>, given: Request) returns (result: Verdict)
    requires |ds| == |ids|
    ensures result == Judge(p, approver, now, ids, ds, given)
  {
    result := JudgeEach(p, approver, now, ids, ds, given, Lives(p, ds, given.items));
  }

  method JudgeNext(p: Policy, approver: Approver, now: int, ids: seq<Id>, ds: seq<Decision>, n: nat, t: Tally, ghost lives: seq<Lifetime>, ghost given: Request)
    returns (v: Verdict)
    requires n < |ds| == |ids| == |lives| && JudgeAll(approver, now, ids, ds, lives, given, n) == Decided(t)
    requires LifeAt(p, ds, lives, given.items, n)
    ensures v == JudgeAll(approver, now, ids, ds, lives, given, n + 1)
    ensures v.Failed? ==> v == JudgeAll(approver, now, ids, ds, lives, given, |ds|)
  {
    NextLife(p, approver, now, ids, ds, lives, given, n, t);
    v := JudgeItem(p, approver, now, ids[n], ds[n], t, lives[n]);
    FailureStands(approver, now, ids, ds, lives, given, n + 1);
  }

  method JudgeEach(p: Policy, approver: Approver, now: int, ids: seq<Id>, ds: seq<Decision>, given: Request, ghost lives: seq<Lifetime>)
    returns (result: Verdict)
    requires |ds| == |ids| == |lives|
    requires forall k: nat {:trigger LifeAt(p, ds, lives, given.items, k)} :: k < |ds| ==> LifeAt(p, ds, lives, given.items, k)
    ensures result == JudgeAll(approver, now, ids, ds, lives, given, |ds|)
  {
    var t := Tally(given, [], {});
    for n := 0 to |ds|
      invariant JudgeAll(approver, now, ids, ds, lives, given, n) == Decided(t)
    {
      result := JudgeNext(p, approver, now, ids, ds, n, t, lives, given);
      if result.Failed? {
        return;
      }
      t := result.tally;
    }
    result := Decided(t);
  }

  /** The item a decision names is no longer pending, and is what the decision asked for or refused by the rules. */
  predicate Stands(items: seq<Item>, approver: Approver, d: Decision) {
    var index := IndexOf(items, d.itemId);
    && index < |items|
    && (if d.approve then items[index].state == Approved || items[index].state == Store.Refused
        else items[index].state == Store.Rejected)
    && (items[index].state != Store.Refused ==> items[index].decidedBy == approver)
  }

  ghost predicate AllStand(items: seq<Item>, approver: Approver, ds: seq<Decision>) {
    forall k {:trigger Stands(items, approver, ds[k])} :: 0 <= k < |ds| ==> Stands(items, approver, ds[k])
  }

  lemma {:induction false} AppliedStands(approver: Approver, now: int, ids: seq<Id>, ds: seq<Decision>, lives: seq<Lifetime>, orig: Request, items: seq<Item>, k: nat)
    requires k < |ds| == |ids| == |lives| && Acceptable(now, orig, ds[k], lives[k])
    requires Applied(approver, now, ids, ds, lives, orig, items, k)
    requires |items| == |orig.items| && forall i :: 0 <= i < |items| ==> orig.items[i].id == items[i].id
    ensures Stands(items, approver, ds[k])
  {
    SameIndex(orig.items, items, ds[k].itemId);
  }

  lemma {:induction false} OutcomeStands(approver: Approver, now: int, ids: seq<Id>, ds: seq<Decision>, lives: seq<Lifetime>, orig: Request, t: Tally)
    requires |ds| == |ids| == |lives|
    requires Outcome(approver, now, ids, ds, lives, orig, |ds|, t) && BatchAcceptable(now, orig, ds, lives, |ds|)
    ensures t.request.id == orig.id && AllStand(t.request.items, approver, ds)
  {
    forall i | 0 <= i < |orig.items| ensures orig.items[i].id == t.request.items[i].id {
      assert Kept(ds, |ds|, orig.items[i], t.request.items[i]);
    }
    forall k: nat | k < |ds| ensures Stands(t.request.items, approver, ds[k]) {
      assert Applied(approver, now, ids, ds, lives, orig, t.request.items, k) && Acceptable(now, orig, ds[k], lives[k]);
      AppliedStands(approver, now, ids, ds, lives, orig, t.request.items, k);
    }
  }

  /** In an accepted batch every decision stands. */
  lemma {:induction false} AcceptedStand(p: Policy, approver: Approver, now: int, ids: seq<Id>, ds: seq<Decision>, orig: Request)
    requires |ds| == |ids| && Judge(p, approver, now, ids, ds, orig).Decided?
    ensures var decided := Judge(p, approver, now, ids, ds, orig).tally.request;
            decided.id == orig.id && AllStand(decided.items, approver, ds)
  {
    JudgeExact(p, approver, now, ids, ds, orig);
    OutcomeStands(approver, now, ids, ds, Lives(p, ds, orig.items), orig, Judge(p, approver, now, ids, ds, orig).tally);
  }

  /** g follows from a decision that approves a pending item in time, leaving it a lifetime. */
  ghost predicate Justified(approver: Approver, now: int, id: Id, d: Decision, life: Lifetime, orig: Request, item: Item, g: Grant) {
    && d.approve && d.itemId == item.id
    && item in orig.items && item.state == Pending && now < orig.pendingUntil
    && life.Granted?
    && g == GrantFor(orig, ApprovedItem(item, approver, now, id, life.ttl), approver, now)
  }

  lemma {:induction false} GrantOfJustified(approver: Approver, now: int, id: Id, d: Decision, life: Lifetime, orig: Request, g: Grant)
    requires Acceptable(now, orig, d, life) && g in GrantOf(approver, now, id, d, life, orig)
    ensures Justified(approver, now, id, d, life, orig, orig.items[IndexOf(orig.items, d.itemId)], g)
  {
  }

  lemma {:induction false} BatchGrantsJustified(approver: Approver, now: int, ids: seq<Id>, ds: seq<Decision>, lives: seq<Lifetime>, orig: Request, n: nat, g: Grant)
    returns (k: nat)
    requires n <= |ds| == |ids| == |lives| && BatchAcceptable(now, orig, ds, lives, n)
    requires g in BatchGrants(approver, now, ids, ds, lives, orig, n)
    ensures k < n && Acceptable(now, orig, ds[k], lives[k])
    ensures Justified(approver, now, ids[k], ds[k], lives[k], orig, orig.items[IndexOf(orig.items, ds[k].itemId)], g)
  {
    if g in GrantOf(approver, now, ids[n - 1], ds[n - 1], lives[n - 1], orig) {
      k := n - 1;
      assert Acceptable(now, orig, ds[k], lives[k]);
      GrantOfJustified(approver, now, ids[k], ds[k], lives[k], orig, g);
    } else {
      k := BatchGrantsJustified(approver, now, ids, ds, lives, orig, n - 1, g);
    }
  }

  /** Every grant of an accepted batch follows from one of its approvals, of an item the current rules resolve. */
  lemma {:induction false} GrantsJustified(p: Policy, approver: Approver, now: int, ids: seq<Id>, ds: seq<Decision>, orig: Request, g: Grant)
    returns (k: nat, item: Item)
    requires |ds| == |ids| && Judge(p, approver, now, ids, ds, orig).Decided?
    requires g in Judge(p, approver, now, ids, ds, orig).tally.grants
    ensures k < |ds| && Justified(approver, now, ids[k], ds[k], ApprovalTTL(p, item, ds[k].ttl), orig, item, g)
  {
    JudgeExact(p, approver, now, ids, ds, orig);
    k := BatchGrantsJustified(approver, now, ids, ds, Lives(p, ds, orig.items), orig, |ds|, g);
    item := orig.items[IndexOf(orig.items, ds[k].itemId)];
    assert Lives(p, ds, orig.items)[k] == LifetimeFor(p, ds[k], orig.items);
  }
}
