// What a batch of decisions comes to, written out on the request, the decisions and what
// the rules now make of each item: which decision is at fault and how, and every field of
// every item and grant.
module Judgements {
  import opened Decisions
  import opened Rules
  import opened Store
  import opened Time
  import opened Verdicts
  import Protocol

  /** What the rules make of each stored item now. */
  function Standings(p: Policy, items: seq<Item>): (rs: seq<Resolution>)
    ensures |rs| == |items|
    ensures forall i :: 0 <= i < |items| ==> rs[i] == Resolve(p, ItemInput(items[i].path, items[i].capabilities, NoTtl))
  {
    seq(|items|, i requires 0 <= i < |items| => Resolve(p, ItemInput(items[i].path, items[i].capabilities, NoTtl)))
  }

  // ------------------------------------------------------------ one decision

  /** The Approver's lifetime is allowed for an item the rules still resolve. */
  predicate LifetimeFits(r: Resolution, item: Item, requested: TtlInput) {
    match r
    case Refused(_) => true
    case Accepted(current) =>
      requested.NoTtl? || (requested.Ttl? && 1_000_000_000 <= requested.duration <= item.ttl && requested.duration <= current.maxTTL)
  }

  /** Decision k names item i. */
  predicate Names(ds: seq<Decision>, k: nat, items: seq<Item>, i: nat) {
    k < |ds| && i < |items| && items[i].id == ds[k].itemId
  }

  /** The decision can be applied to the item it names. */
  predicate Fits(now: int, deadline: int, d: Decision, item: Item, r: Resolution) {
    && item.state == Pending && now < deadline
    && (d.ttl != NoTtl ==> d.approve)
    && (d.approve ==> LifetimeFits(r, item, d.ttl))
  }

  ghost predicate Fine(now: int, orig: Request, rs: seq<Resolution>, ds: seq<Decision>, k: nat)
    requires |rs| == |orig.items|
  {
    exists i: nat :: Names(ds, k, orig.items, i) && Fits(now, orig.pendingUntil, ds[k], orig.items[i], rs[i])
  }

  /** Decision k names an item that an earlier one names too. */
  predicate Repeats(ds: seq<Decision>, k: nat)
    requires k < |ds|
  {
    exists j :: 0 <= j < k && ds[j].itemId == ds[k].itemId
  }

  /** The first n decisions can be applied, and no two of them name the same item. */
  ghost predicate AllFine(now: int, orig: Request, rs: seq<Resolution>, ds: seq<Decision>, n: nat)
    requires n <= |ds| && |rs| == |orig.items|
  {
    forall k: nat {:trigger Fine(now, orig, rs, ds, k)} :: k < n ==> Fine(now, orig, rs, ds, k) && !Repeats(ds, k)
  }

  /** Decision k names an item for the first time that is no longer pending, or whose deadline has passed. */
  ghost predicate TooLate(now: int, orig: Request, ds: seq<Decision>, k: nat)
    requires k < |ds|
  {
    && !Repeats(ds, k)
    && exists i: nat :: Names(ds, k, orig.items, i) && (orig.items[i].state != Pending || now >= orig.pendingUntil)
  }

  /** Decision k is the first that cannot be applied; error says why. */
  ghost predicate AtFault(now: int, orig: Request, rs: seq<Resolution>, ds: seq<Decision>, k: nat, error: Error)
    requires |rs| == |orig.items|
  {
    && k < |ds| && AllFine(now, orig, rs, ds, k)
    && (!Fine(now, orig, rs, ds, k) || Repeats(ds, k))
    && error == if TooLate(now, orig, ds, k) then Conflict else InvalidInput
  }

  /** A grant of the item by this decision lapses at t: whole seconds, the lifetime asked for or the largest allowed. */
  predicate LapsesAt(r: Resolution, now: int, d: Decision, item: Item, t: int) {
    match r
    case Refused(_) => false
    case Accepted(current) =>
      t == WholeSeconds(now + if d.ttl.Ttl? then WholeSeconds(d.ttl.duration) else if item.ttl < current.maxTTL then item.ttl else current.maxTTL)
  }

  /** What a decision makes of the item it names. */
  predicate DecidedTo(r: Resolution, approver: Approver, now: int, grantId: Id, d: Decision, before: Item, after: Item) {
    if !d.approve then after == before.(state := Store.Rejected, decidedAt := now, decidedBy := approver)
    else match r
      case Refused(refusal) => after == before.(state := Store.Refused, decidedAt := now, reason := NoLongerGrantable(refusal))
      case Accepted(_) =>
        && LapsesAt(r, now, d, before, after.grantExpires)
        && after == before.(state := Approved, decidedAt := now, decidedBy := approver, grantId := grantId, grantExpires := after.grantExpires)
  }

  /** The grant an approval makes. */
  predicate GrantMade(r: Resolution, approver: Approver, now: int, orig: Request, grantId: Id, d: Decision, item: Item, g: Grant) {
    && d.approve && LapsesAt(r, now, d, item, g.expiresAt)
    && g == Grant(grantId, orig.id, item.id, orig.entity, item.path, item.capabilities, now, g.expiresAt, approver.name, 0, "")
  }

  /** One of the first n decisions makes the grant. */
  ghost predicate Made(approver: Approver, now: int, ids: seq<Id>, ds: seq<Decision>, orig: Request, rs: seq<Resolution>, n: nat, g: Grant)
    requires n <= |ids| == |ds| && |rs| == |orig.items|
  {
    exists k: nat, i: nat :: k < n && Names(ds, k, orig.items, i) && GrantMade(rs[i], approver, now, orig, ids[k], ds[k], orig.items[i], g)
  }

  /** Every named item becomes what its decision makes of it, the others stay, and each approval that stands makes its grant. */
  ghost predicate BatchDecided(approver: Approver, now: int, ids: seq<Id>, ds: seq<Decision>, orig: Request, rs: seq<Resolution>, items: seq<Item>, gs: seq<Grant>)
    requires |ids| == |ds| && |rs| == |orig.items|
  {
    && |items| == |orig.items|
    && (forall k: nat, i: nat :: Names(ds, k, orig.items, i) ==> DecidedTo(rs[i], approver, now, ids[k], ds[k], orig.items[i], items[i]))
    && (forall i: nat :: i < |items| && (forall k: nat :: !Names(ds, k, orig.items, i)) ==> items[i] == orig.items[i])
    && (forall g :: g in gs <==> Made(approver, now, ids, ds, orig, rs, |ds|, g))
    && OnceEach(gs)
  }

  /** No two grants are of the same item. */
  predicate OnceEach(gs: seq<Grant>) {
    forall i, j :: 0 <= i < j < |gs| ==> gs[i].itemId != gs[j].itemId
  }

  // --------------------------------------------------------- from the verdict to that

  /** The lifetime left an item, from what the rules make of it. */
  predicate LifeFrom(r: Resolution, item: Item, requested: TtlInput, life: Lifetime) {
    match r
    case Refused(refusal) => life == NotGrantable(refusal)
    case Accepted(current) =>
      if requested.NoTtl? then life == Granted(if item.ttl < current.maxTTL then item.ttl else current.maxTTL)
      else if LifetimeFits(r, item, requested) then life == Granted(WholeSeconds(requested.duration))
      else life == InvalidTtl
  }

  lemma {:induction false} LifeExact(p: Policy, item: Item, requested: TtlInput)
    ensures LifeFrom(Resolve(p, ItemInput(item.path, item.capabilities, NoTtl)), item, requested, ApprovalTTL(p, item, requested))
  {
  }

  /** The lifetimes are those left the items the decisions name. */
  ghost predicate LivesFrom(ds: seq<Decision>, items: seq<Item>, rs: seq<Resolution>, lives: seq<Lifetime>)
    requires |ds| == |lives| && |rs| == |items|
  {
    forall k: nat, i: nat :: Names(ds, k, items, i) ==> LifeFrom(rs[i], items[i], ds[k].ttl, lives[k])
  }

  lemma {:induction false} NamedIndex(ds: seq<Decision>, k: nat, orig: Request, i: nat)
    requires Protocol.DistinctIds(orig) && Names(ds, k, orig.items, i)
    ensures i == IndexOf(orig.items, ds[k].itemId)
  {
    var index := IndexOf(orig.items, ds[k].itemId);
    assert index <= i;
  }

  lemma {:induction false} LivesExact(p: Policy, ds: seq<Decision>, orig: Request)
    requires Protocol.DistinctIds(orig)
    ensures LivesFrom(ds, orig.items, Standings(p, orig.items), Lives(p, ds, orig.items))
  {
    var rs, lives := Standings(p, orig.items), Lives(p, ds, orig.items);
    forall k: nat, i: nat | Names(ds, k, orig.items, i) ensures LifeFrom(rs[i], orig.items[i], ds[k].ttl, lives[k]) {
      NamedIndex(ds, k, orig, i);
      NamedLife(p, ds, orig.items, k, i, rs[i], lives[k]);
    }
  }

  lemma {:induction false} NamedLife(p: Policy, ds: seq<Decision>, items: seq<Item>, k: nat, i: nat, r: Resolution, life: Lifetime)
    requires Names(ds, k, items, i) && i == IndexOf(items, ds[k].itemId)
    requires r == Resolve(p, ItemInput(items[i].path, items[i].capabilities, NoTtl)) && life == LifetimeFor(p, ds[k], items)
    ensures LifeFrom(r, items[i], ds[k].ttl, life)
  {
    LifeExact(p, items[i], ds[k].ttl);
  }

  lemma {:induction false} FineExact(now: int, orig: Request, rs: seq<Resolution>, ds: seq<Decision>, lives: seq<Lifetime>, k: nat)
    requires Protocol.DistinctIds(orig) && k < |ds| == |lives| && |rs| == |orig.items| && LivesFrom(ds, orig.items, rs, lives)
    ensures Acceptable(now, orig, ds[k], lives[k]) <==> Fine(now, orig, rs, ds, k)
  {
    var index := IndexOf(orig.items, ds[k].itemId);
    assert index < |orig.items| ==> Names(ds, k, orig.items, index);
    forall i: nat | Names(ds, k, orig.items, i) ensures i == index {
      NamedIndex(ds, k, orig, i);
    }
  }

  lemma {:induction false} AllFineExact(now: int, orig: Request, rs: seq<Resolution>, ds: seq<Decision>, lives: seq<Lifetime>, n: nat)
    requires Protocol.DistinctIds(orig) && n <= |ds| == |lives| && |rs| == |orig.items| && LivesFrom(ds, orig.items, rs, lives)
    ensures BatchAcceptable(now, orig, ds, lives, n) <==> AllFine(now, orig, rs, ds, n)
  {
    forall k: nat | k < n ensures Acceptable(now, orig, ds[k], lives[k]) <==> Fine(now, orig, rs, ds, k) {
      FineExact(now, orig, rs, ds, lives, k);
    }
    forall k: nat | k < n ensures Named(ds, k, ds[k].itemId) <==> Repeats(ds, k) {
    }
  }

  // ------------------------------------------------------------- the decision at fault

  // The error of a rejected batch is that of the first decision that cannot be applied.
  lemma {:induction false} FirstFailure(approver: Approver, now: int, ids: seq<Id>, ds: seq<Decision>, lives: seq<Lifetime>, orig: Request, n: nat) returns (k: nat)
    requires n <= |ds| == |ids| == |lives| && JudgeAll(approver, now, ids, ds, lives, orig, n).Failed?
    ensures k < n && BatchAcceptable(now, orig, ds, lives, k)
    ensures !Acceptable(now, orig, ds[k], lives[k]) || Named(ds, k, ds[k].itemId)
    ensures var index := IndexOf(orig.items, ds[k].itemId);
            JudgeAll(approver, now, ids, ds, lives, orig, n).error ==
              if index < |orig.items| && !Named(ds, k, ds[k].itemId) && (orig.items[index].state != Pending || now >= orig.pendingUntil)
              then Conflict else InvalidInput
  {
    var before := JudgeAll(approver, now, ids, ds, lives, orig, n - 1);
    JudgeAllExact(approver, now, ids, ds, lives, orig, n - 1);
    if before.Failed? {
      k := FirstFailure(approver, now, ids, ds, lives, orig, n - 1);
    } else {
      k := n - 1;
      NextAccepted(approver, now, ids, ds, lives, orig, k, before.tally);
      NextFailure(approver, now, ids, ds, lives, orig, k, before.tally);
    }
  }

  lemma {:induction false} NextFailure(approver: Approver, now: int, ids: seq<Id>, ds: seq<Decision>, lives: seq<Lifetime>, orig: Request, k: nat, t: Tally)
    requires k < |ds| == |ids| == |lives| && Verdicts.Outcome(approver, now, ids, ds, lives, orig, k, t)
    requires JudgeWith(approver, now, ids[k], ds[k], t, lives[k]).Failed?
    ensures var index := IndexOf(orig.items, ds[k].itemId);
            JudgeWith(approver, now, ids[k], ds[k], t, lives[k]).error ==
              if index < |orig.items| && !Named(ds, k, ds[k].itemId) && (orig.items[index].state != Pending || now >= orig.pendingUntil)
              then Conflict else InvalidInput
  {
    StillLoaded(approver, now, ids, ds, lives, orig, k, t);
  }

  lemma {:induction false} TooLateExact(now: int, orig: Request, ds: seq<Decision>, k: nat)
    requires Protocol.DistinctIds(orig) && k < |ds|
    ensures var index := IndexOf(orig.items, ds[k].itemId);
            TooLate(now, orig, ds, k) <==>
            index < |orig.items| && !Named(ds, k, ds[k].itemId) && (orig.items[index].state != Pending || now >= orig.pendingUntil)
  {
    var index := IndexOf(orig.items, ds[k].itemId);
    assert index < |orig.items| ==> Names(ds, k, orig.items, index);
    forall i: nat | Names(ds, k, orig.items, i) ensures i == index {
      NamedIndex(ds, k, orig, i);
    }
  }

  lemma {:induction false} FaultExact(approver: Approver, now: int, ids: seq<Id>, ds: seq<Decision>, lives: seq<Lifetime>, orig: Request, rs: seq<Resolution>)
    returns (k: nat)
    requires |ds| == |ids| == |lives| && |rs| == |orig.items| && Protocol.DistinctIds(orig) && LivesFrom(ds, orig.items, rs, lives)
    requires JudgeAll(approver, now, ids, ds, lives, orig, |ds|).Failed?
    ensures AtFault(now, orig, rs, ds, k, JudgeAll(approver, now, ids, ds, lives, orig, |ds|).error)
  {
    k := FirstFailure(approver, now, ids, ds, lives, orig, |ds|);
    AllFineExact(now, orig, rs, ds, lives, k);
    FineExact(now, orig, rs, ds, lives, k);
    TooLateExact(now, orig, ds, k);
    assert Named(ds, k, ds[k].itemId) <==> Repeats(ds, k);
  }

  // --------------------------------------------------------------- the accepted batch

  lemma {:induction false} DecidedItemExact(r: Resolution, approver: Approver, now: int, grantId: Id, d: Decision, item: Item, life: Lifetime)
    requires LifeFrom(r, item, d.ttl, life) && (d.approve ==> !life.InvalidTtl?)
    ensures DecidedTo(r, approver, now, grantId, d, item, DecidedItem(approver, now, grantId, d, life, item))
  {
  }

  lemma {:induction false} GrantOfExact(r: Resolution, approver: Approver, now: int, grantId: Id, d: Decision, orig: Request, i: nat, life: Lifetime, g: Grant)
    requires i < |orig.items| && i == IndexOf(orig.items, d.itemId) && orig.items[i].state == Pending
    requires LifeFrom(r, orig.items[i], d.ttl, life) && (d.approve ==> !life.InvalidTtl?)
    ensures g in GrantOf(approver, now, grantId, d, life, orig) <==> GrantMade(r, approver, now, orig, grantId, d, orig.items[i], g)
  {
  }

  lemma {:induction false} GrantsMade(approver: Approver, now: int, ids: seq<Id>, ds: seq<Decision>, lives: seq<Lifetime>, orig: Request, rs: seq<Resolution>, n: nat, g: Grant)
    requires n <= |ds| == |ids| == |lives| && |rs| == |orig.items| && Protocol.DistinctIds(orig) && LivesFrom(ds, orig.items, rs, lives)
    requires BatchAcceptable(now, orig, ds, lives, n)
    ensures g in BatchGrants(approver, now, ids, ds, lives, orig, n) <==> Made(approver, now, ids, ds, orig, rs, n, g)
  {
    if n > 0 {
      var k := n - 1;
      GrantsMade(approver, now, ids, ds, lives, orig, rs, k, g);
      assert Acceptable(now, orig, ds[k], lives[k]);
      var i := IndexOf(orig.items, ds[k].itemId);
      assert Names(ds, k, orig.items, i);
      GrantOfExact(rs[i], approver, now, ids[k], ds[k], orig, i, lives[k], g);
      MadeNext(approver, now, ids, ds, orig, rs, k, i, g);
    }
  }

  lemma {:induction false} OneGrant(approver: Approver, now: int, id: Id, d: Decision, life: Lifetime, orig: Request)
    requires Acceptable(now, orig, d, life)
    ensures var gs := GrantOf(approver, now, id, d, life, orig);
            gs == [] || (gs == [gs[0]] && gs[0].itemId == d.itemId)
  {
  }

  lemma {:induction false} GrantsOnce(approver: Approver, now: int, ids: seq<Id>, ds: seq<Decision>, lives: seq<Lifetime>, orig: Request, n: nat)
    requires n <= |ds| == |ids| == |lives| && BatchAcceptable(now, orig, ds, lives, n)
    ensures var gs := BatchGrants(approver, now, ids, ds, lives, orig, n);
            OnceEach(gs) && forall g :: g in gs ==> Named(ds, n, g.itemId)
  {
    if n > 0 {
      var k := n - 1;
      GrantsOnce(approver, now, ids, ds, lives, orig, k);
      NextAcceptable(now, orig, ds, lives, k);
      OneGrant(approver, now, ids[k], ds[k], lives[k], orig);
      NamedNext(ds, k);
      OneMore(ds, k, BatchGrants(approver, now, ids, ds, lives, orig, k), GrantOf(approver, now, ids[k], ds[k], lives[k], orig));
    }
  }

  lemma {:induction false} OneMore(ds: seq<Decision>, k: nat, before: seq<Grant>, more: seq<Grant>)
    requires k < |ds| && !Named(ds, k, ds[k].itemId)
    requires OnceEach(before) && forall g :: g in before ==> Named(ds, k, g.itemId)
    requires more == [] || (more == [more[0]] && more[0].itemId == ds[k].itemId)
    ensures OnceEach(before + more)
    ensures forall g :: g in before + more ==> Named(ds, k, g.itemId) || g.itemId == ds[k].itemId
  {
    assert forall i :: 0 <= i < |before| ==> before[i] in before;
  }

  lemma {:induction false} MadeNext(approver: Approver, now: int, ids: seq<Id>, ds: seq<Decision>, orig: Request, rs: seq<Resolution>, k: nat, i: nat, g: Grant)
    requires k < |ds| == |ids| && |rs| == |orig.items| && Protocol.DistinctIds(orig) && Names(ds, k, orig.items, i)
    ensures Made(approver, now, ids, ds, orig, rs, k + 1, g) <==>
            Made(approver, now, ids, ds, orig, rs, k, g) || GrantMade(rs[i], approver, now, orig, ids[k], ds[k], orig.items[i], g)
  {
    forall j: nat | Names(ds, k, orig.items, j) ensures j == i {
      NamedIndex(ds, k, orig, i);
      NamedIndex(ds, k, orig, j);
    }
  }

  lemma {:induction false} ItemDecided(approver: Approver, now: int, ids: seq<Id>, ds: seq<Decision>, lives: seq<Lifetime>, orig: Request, rs: seq<Resolution>, items: seq<Item>, k: nat, i: nat)
    requires |ds| == |ids| == |lives| && |rs| == |orig.items| && Protocol.DistinctIds(orig) && LivesFrom(ds, orig.items, rs, lives)
    requires Names(ds, k, orig.items, i) && Acceptable(now, orig, ds[k], lives[k])
    requires Applied(approver, now, ids, ds, lives, orig, items, k)
    ensures DecidedTo(rs[i], approver, now, ids[k], ds[k], orig.items[i], items[i])
  {
    NamedIndex(ds, k, orig, i);
    DecidedItemExact(rs[i], approver, now, ids[k], ds[k], orig.items[i], lives[k]);
  }

  lemma {:induction false} AcceptedExact(approver: Approver, now: int, ids: seq<Id>, ds: seq<Decision>, lives: seq<Lifetime>, orig: Request, rs: seq<Resolution>, t: Tally)
    requires |ds| == |ids| == |lives| && |rs| == |orig.items| && Protocol.DistinctIds(orig) && LivesFrom(ds, orig.items, rs, lives)
    requires BatchAcceptable(now, orig, ds, lives, |ds|) && Verdicts.Outcome(approver, now, ids, ds, lives, orig, |ds|, t)
    ensures t.request == orig.(items := t.request.items)
    ensures BatchDecided(approver, now, ids, ds, orig, rs, t.request.items, t.grants)
  {
    var items := t.request.items;
    forall k: nat, i: nat | Names(ds, k, orig.items, i) ensures DecidedTo(rs[i], approver, now, ids[k], ds[k], orig.items[i], items[i]) {
      assert Applied(approver, now, ids, ds, lives, orig, items, k) && Acceptable(now, orig, ds[k], lives[k]);
      ItemDecided(approver, now, ids, ds, lives, orig, rs, items, k, i);
    }
    forall i: nat | i < |items| && forall k: nat :: !Names(ds, k, orig.items, i) ensures items[i] == orig.items[i] {
      assert Kept(ds, |ds|, orig.items[i], items[i]);
      assert forall k: nat :: k < |ds| ==> !Names(ds, k, orig.items, i);
    }
    GrantsOnce(approver, now, ids, ds, lives, orig, |ds|);
    forall g ensures g in t.grants <==> Made(approver, now, ids, ds, orig, rs, |ds|, g) {
      GrantsMade(approver, now, ids, ds, lives, orig, rs, |ds|, g);
    }
  }

  /** The verdict on a batch of an accepted or a rejected kind, against what the rules make of the items. */
  ghost predicate Explained(approver: Approver, now: int, ids: seq<Id>, ds: seq<Decision>, orig: Request, rs: seq<Resolution>, v: Verdict)
    requires |ds| == |ids| && |rs| == |orig.items|
  {
    match v
    case Decided(t) =>
      && AllFine(now, orig, rs, ds, |ds|) && t.request == orig.(items := t.request.items)
      && BatchDecided(approver, now, ids, ds, orig, rs, t.request.items, t.grants)
    case Failed(error) => exists k: nat :: AtFault(now, orig, rs, ds, k, error)
  }

  /**
    * A batch is accepted exactly when every decision can be applied and none repeats an item,
    * with these items and grants; otherwise the first decision at fault gives the error.
    */
  lemma {:induction false} JudgementExact(p: Policy, approver: Approver, now: int, ids: seq<Id>, ds: seq<Decision>, orig: Request)
    requires |ds| == |ids| && Protocol.DistinctIds(orig)
    ensures Explained(approver, now, ids, ds, orig, Standings(p, orig.items), Judge(p, approver, now, ids, ds, orig))
  {
    LivesExact(p, ds, orig);
    AllExplained(approver, now, ids, ds, Lives(p, ds, orig.items), orig, Standings(p, orig.items));
  }

  lemma {:induction false} AllExplained(approver: Approver, now: int, ids: seq<Id>, ds: seq<Decision>, lives: seq<Lifetime>, orig: Request, rs: seq<Resolution>)
    requires |ds| == |ids| == |lives| && |rs| == |orig.items| && Protocol.DistinctIds(orig) && LivesFrom(ds, orig.items, rs, lives)
    ensures Explained(approver, now, ids, ds, orig, rs, JudgeAll(approver, now, ids, ds, lives, orig, |ds|))
  {
    JudgeAllExact(approver, now, ids, ds, lives, orig, |ds|);
    AllFineExact(now, orig, rs, ds, lives, |ds|);
    match JudgeAll(approver, now, ids, ds, lives, orig, |ds|)
    case Decided(t) => AcceptedExact(approver, now, ids, ds, lives, orig, rs, t);
    case Failed(_) => var k := FaultExact(approver, now, ids, ds, lives, orig, rs);
  }
}
