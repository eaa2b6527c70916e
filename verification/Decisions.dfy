// The local part of a decision: from a request and an Approver's verdicts to the
// decided items and their grants, and from grants to the session policy.
module Decisions {
  import opened Options
  import opened OpenBao
  import opened Rules
  import opened Store
  import opened Time

  datatype Decision = Decision(itemId: Id, approve: bool, ttl: TtlInput)

  datatype Error = InvalidInput | NotFound | SelfApproval | Conflict | StoreFailure | BaoFailure

  // ------------------------------------------------------------ approval lifetime

  datatype Lifetime = Granted(ttl: int) | NotGrantable(refusal: Rules.Refusal) | InvalidTtl

  function ReResolved(p: Policy, item: Item): Resolution {
    Resolve(p, ItemInput(item.path, item.capabilities, NoTtl))
  }

  /** Re-runs rule resolution for a stored item and applies the Approver's lifetime. */
  function ApprovalTTL(p: Policy, item: Item, requested: TtlInput): Lifetime {
    match ReResolved(p, item)
    case Refused(refusal) => NotGrantable(refusal)
    case Accepted(current) =>
      var ttl := Min(item.ttl, current.maxTTL);
      match requested
      case NoTtl => Granted(ttl)
      case BadTtl => InvalidTtl
      case Ttl(duration) =>
        if duration < SECOND || duration > ttl then InvalidTtl else Granted(WholeSeconds(duration))
  }

  /** An item as CreateRequest leaves it pending under policy p. */
  predicate FiledUnder(p: Policy, input: ItemInput, item: Item) {
    match Resolve(p, input)
    case Refused(_) => false
    case Accepted(r) => item.path == r.path && item.capabilities == r.capabilities && item.ttl == r.ttl
  }

  /** Under an unchanged policy re-resolution never refuses, and gives exactly the stored lifetime. */
  lemma {:induction false} ReResolutionStable(p: Policy, input: ItemInput, item: Item)
    requires ValidPolicy(p) && FiledUnder(p, input, item)
    ensures ApprovalTTL(p, item, NoTtl) == Granted(item.ttl)
  {
    ResolveExact(p, input);
    var first := Resolve(p, input).item;
    CapsAtLeastSecond(p);
    LargestCapResolves(p, item.path, item.capabilities, first.maxTTL);
  }

  lemma {:induction false} CapsAtLeastSecond(p: Policy)
    requires ValidPolicy(p)
    ensures forall rule :: rule in p.rules ==> CapOf(p, rule) >= SECOND
  {
  }

  // An admissible path with stored capabilities resolves to the largest cap again.
  lemma {:induction false} LargestCapResolves(p: Policy, path: string, capabilities: seq<string>, cap: int)
    requires forall rule :: rule in p.rules ==> CapOf(p, rule) >= SECOND
    requires ConcretePath(path, p.hidden) == None && DeniedIn(path) == None && NormalCapabilities(capabilities)
    requires LargestCap(p, path, capabilities, cap)
    ensures Resolve(p, ItemInput(path, capabilities, NoTtl)).Accepted?
    ensures Resolve(p, ItemInput(path, capabilities, NoTtl)).item.maxTTL == cap
  {
    NormalizationIdempotent(capabilities);
    var again := ItemInput(path, capabilities, NoTtl);
    ResolveExact(p, again);
    var rule :| rule in p.rules && CoversItem(rule, path, capabilities) && CapOf(p, rule) == cap;
    var second := Resolve(p, again).item.maxTTL;
    LargestCapUnique(p, p, path, capabilities, cap, second);
    LargestCapUnique(p, p, path, capabilities, second, cap);
  }

  /**
    * Under any policy: an approval is refused exactly when the item no longer resolves;
    * otherwise an Approver's lifetime is accepted exactly when it lies between one second
    * and the smaller of the stored lifetime and the new cap, which bounds the result.
    */
  lemma {:induction false} ApprovalTTLExact(p: Policy, item: Item, requested: TtlInput)
    requires ValidPolicy(p) && item.ttl >= SECOND
    ensures var life := ApprovalTTL(p, item, requested);
            match ReResolved(p, item)
            case Refused(refusal) => life == NotGrantable(refusal)
            case Accepted(current) =>
              var bound := Min(item.ttl, current.maxTTL);
              && bound >= SECOND
              && (requested.NoTtl? ==> life == Granted(bound))
              && (life.Granted? <==> requested.NoTtl? || (requested.Ttl? && SECOND <= requested.duration <= bound))
              && (life.Granted? ==> SECOND <= life.ttl <= bound)
              && (life.Granted? && requested.Ttl? ==> requested.duration - SECOND < life.ttl <= requested.duration)
  {
    if ReResolved(p, item).Accepted? {
      AcceptedLifetime(p, ItemInput(item.path, item.capabilities, NoTtl));
      if requested.Ttl? {
        WholeSecondsAtLeastOne(requested.duration);
        WholeSecondsAreStored(requested.duration);
      }
    }
  }

  method ComputeApprovalTTL(p: Policy, item: Item, requested: TtlInput) returns (life: Lifetime)
    ensures life == ApprovalTTL(p, item, requested)
  {
    var current := ResolveItem(p, ItemInput(item.path, item.capabilities, NoTtl));
    if current.Refused? {
      return NotGrantable(current.refusal);
    }
    var ttl := Min(item.ttl, current.item.maxTTL);
    if requested == NoTtl {
      return Granted(ttl);
    }
    if requested.BadTtl? || requested.duration < SECOND {
      return InvalidTtl;
    }
    if requested.duration > ttl {
      return InvalidTtl;
    }
    return Granted(WholeSeconds(requested.duration));
  }

  /** A grant approved at `now` is active at once and lapses within the last second of its lifetime. */
  lemma {:induction false} GrantWindow(now: int, ttl: int, g: Grant)
    requires ttl >= SECOND && g.revokedAt == 0
    requires g.expiresAt == WholeSeconds(now + ttl)
    ensures now < g.expiresAt && now + ttl - SECOND < g.expiresAt <= now + ttl
    ensures ActiveFor(StoredGrant(g), g.entity, now)
  {
    WholeSecondsAreStored(now + ttl);
    StoredComparison(g.expiresAt, now);
  }

  /** At any instant a stored pending item is decidable exactly when the sweep would not expire it. */
  lemma {:induction false} DecidableXorDue(db: Db, request: Request, now: int, i: nat)
    requires FileTx(db, request).Committed? && i < |request.items| && request.items[i].state == Pending
    ensures var row := FileTx(db, request).db.requests[request.id];
            now < row.request.pendingUntil <==> !Due(row, now)
  {
    var row := FileTx(db, request).db.requests[request.id];
    var k := UnixMilli(request.pendingUntil);
    MultipleOfMillisecond(k);
    StoredComparison(row.request.pendingUntil, now);
  }

  // ------------------------------------------------------------------- the verdict

  /** The running state of the decision loop. */
  datatype Tally = Tally(request: Request, grants: seq<Grant>, seen: set<Id>)

  datatype Verdict = Decided(tally: Tally) | Failed(error: Error)

  function IndexOf(items: seq<Item>, id: Id): (index: nat)
    ensures index <= |items|
    ensures index < |items| ==> items[index].id == id
    ensures forall k :: 0 <= k < index ==> items[k].id != id
  {
    if items == [] || items[0].id == id then 0 else 1 + IndexOf(items[1..], id)
  }

  function GrantFor(request: Request, item: Item, approver: Approver, now: int): Grant {
    Grant(item.grantId, request.id, item.id, request.entity, item.path, item.capabilities, now, item.grantExpires, approver.name, 0, "")
  }

  function RejectedItem(item: Item, approver: Approver, now: int): Item {
    item.(state := Store.Rejected, decidedAt := now, decidedBy := approver)
  }

  function RefusedItem(item: Item, refusal: Rules.Refusal, now: int): Item {
    item.(state := Store.Refused, decidedAt := now, reason := NoLongerGrantable(refusal))
  }

  function ApprovedItem(item: Item, approver: Approver, now: int, grantId: Id, ttl: int): Item {
    item.(state := Approved, decidedAt := now, decidedBy := approver, grantId := grantId, grantExpires := WholeSeconds(now + ttl))
  }

  /** The lifetime the rules and the Approver leave the item a decision names. */
  function LifetimeFor(p: Policy, d: Decision, items: seq<Item>): Lifetime {
    var index := IndexOf(items, d.itemId);
    if index == |items| then InvalidTtl else ApprovalTTL(p, items[index], d.ttl)
  }

  function JudgeWith(approver: Approver, now: int, grantId: Id, d: Decision, t: Tally, life: Lifetime): Verdict {
    var index := IndexOf(t.request.items, d.itemId);
    if index == |t.request.items| || d.itemId in t.seen then Failed(InvalidInput)
    else
      var item := t.request.items[index];
      var seen := t.seen + {d.itemId};
      if item.state != Pending || !(now < t.request.pendingUntil) then Failed(Conflict)
      else if d.ttl != NoTtl && !d.approve then Failed(InvalidInput)
      else if !d.approve then
        Decided(Tally(t.request.(items := t.request.items[index := RejectedItem(item, approver, now)]), t.grants, seen))
      else match life
        case InvalidTtl => Failed(InvalidInput)
        case NotGrantable(refusal) =>
          Decided(Tally(t.request.(items := t.request.items[index := RefusedItem(item, refusal, now)]), t.grants, seen))
        case Granted(ttl) =>
          var approved := ApprovedItem(item, approver, now, grantId, ttl);
          Decided(Tally(t.request.(items := t.request.items[index := approved]),
                        t.grants + [GrantFor(t.request, approved, approver, now)], seen))
  }

  /** One more decision; the first failure stands. */
  function NextWith(approver: Approver, now: int, grantId: Id, d: Decision, v: Verdict, life: Lifetime): Verdict {
    match v
    case Failed(error) => Failed(error)
    case Decided(t) => JudgeWith(approver, now, grantId, d, t, life)
  }

  /** The first n decisions, with the lifetimes they leave; `ids` are the grant IDs drawn along the way. */
  function JudgeAll(approver: Approver, now: int, ids: seq<Id>, ds: seq<Decision>, lives: seq<Lifetime>, request: Request, n: nat): Verdict
    requires n <= |ds| == |ids| == |lives|
  {
    if n == 0 then Decided(Tally(request, [], {}))
    else NextWith(approver, now, ids[n - 1], ds[n - 1], JudgeAll(approver, now, ids, ds, lives, request, n - 1), lives[n - 1])
  }

  /** The lifetimes the rules and the Approver leave the named items, as they were loaded. */
  function Lives(p: Policy, ds: seq<Decision>, items: seq<Item>): (lives: seq<Lifetime>)
    ensures |lives| == |ds|
  {
    seq(|ds|, k requires 0 <= k < |ds| => LifetimeFor(p, ds[k], items))
  }

  /** The verdict on a batch. */
  function Judge(p: Policy, approver: Approver, now: int, ids: seq<Id>, ds: seq<Decision>, request: Request): Verdict
    requires |ds| == |ids|
  {
    JudgeAll(approver, now, ids, ds, Lives(p, ds, request.items), request, |ds|)
  }

  // --------------------------------------------------------------- what a verdict is

  /** The decided form of an item: unchanged, or a pending item moved to its new state. */
  ghost predicate ItemProgress(orig: Request, approver: Approver, now: int, before: Item, after: Item, grants: seq<Grant>) {
    || after == before
    || (&& before.state == Pending
        && after.id == before.id && after.path == before.path && after.capabilities == before.capabilities && after.ttl == before.ttl
        && (|| (after.state == Store.Rejected && after.grantId == before.grantId && after.decidedBy == approver)
            || (after.state == Store.Refused && after.grantId == before.grantId)
            || (after.state == Approved && GrantFor(orig, after, approver, now) in grants)))
  }

  /** A grant of the batch: a pending item, decided in time, with a lifetime within its own. */
  ghost predicate GrantOrigin(orig: Request, approver: Approver, now: int, before: Item, after: Item, g: Grant) {
    && before.state == Pending && after.state == Approved
    && g == GrantFor(orig, after, approver, now)
    && now < orig.pendingUntil
    && now < g.expiresAt <= now + before.ttl
    && WholeSeconds(g.expiresAt) == g.expiresAt
  }

  ghost predicate Progress(approver: Approver, now: int, orig: Request, t: Tally) {
    && |t.request.items| == |orig.items|
    && t.request == orig.(items := t.request.items)
    && (forall i :: 0 <= i < |orig.items| ==> ItemProgress(orig, approver, now, orig.items[i], t.request.items[i], t.grants))
    && (forall g :: g in t.grants ==> exists i :: 0 <= i < |orig.items| && GrantOrigin(orig, approver, now, orig.items[i], t.request.items[i], g))
  }

  ghost predicate LifetimesPositive(items: seq<Item>) {
    forall i :: 0 <= i < |items| && items[i].state == Pending ==> items[i].ttl >= SECOND
  }

  // Moving one still pending item keeps the progress made on the others.
  lemma {:induction false} MoveItem(approver: Approver, now: int, orig: Request, t: Tally, index: nat, after: Item, grants: seq<Grant>, seen: set<Id>)
    requires Progress(approver, now, orig, t)
    requires index < |orig.items| && t.request.items[index].state == Pending
    requires ItemProgress(orig, approver, now, t.request.items[index], after, grants)
    requires forall g :: g in t.grants ==> g in grants
    requires forall g :: g in grants ==> g in t.grants || GrantOrigin(orig, approver, now, t.request.items[index], after, g)
    ensures t.request.items[index] == orig.items[index]
    ensures Progress(approver, now, orig, Tally(t.request.(items := t.request.items[index := after]), grants, seen))
  {
    var items := t.request.items[index := after];
    assert ItemProgress(orig, approver, now, orig.items[index], t.request.items[index], t.grants);
    forall i | 0 <= i < |orig.items| ensures ItemProgress(orig, approver, now, orig.items[i], items[i], grants) {
      assert ItemProgress(orig, approver, now, orig.items[i], t.request.items[i], t.grants);
    }
    forall g | g in grants
      ensures exists i :: 0 <= i < |orig.items| && GrantOrigin(orig, approver, now, orig.items[i], items[i], g)
    {
      if g in t.grants {
        var i :| 0 <= i < |orig.items| && GrantOrigin(orig, approver, now, orig.items[i], t.request.items[i], g);
        assert items[i] == t.request.items[i];
      } else {
        assert GrantOrigin(orig, approver, now, orig.items[index], items[index], g);
      }
    }
  }

  lemma {:induction false} ApprovalOrigin(approver: Approver, now: int, grantId: Id, orig: Request, item: Item, ttl: int)
    requires item.state == Pending && now < orig.pendingUntil
    requires SECOND <= ttl <= item.ttl
    ensures var after := ApprovedItem(item, approver, now, grantId, ttl);
            GrantOrigin(orig, approver, now, item, after, GrantFor(orig, after, approver, now))
  {
    var after := ApprovedItem(item, approver, now, grantId, ttl);
    var g := GrantFor(orig, after, approver, now);
    WholeSecondsAreStored(now + ttl);
    assert now < g.expiresAt <= now + ttl;
  }

  lemma {:induction false} SameIndex(items: seq<Item>, items': seq<Item>, id: Id)
    requires |items| == |items'| && forall i :: 0 <= i < |items| ==> items[i].id == items'[i].id
    ensures IndexOf(items, id) == IndexOf(items', id)
  {
  }

  // An item still pending after some decisions is the one that was loaded.
  lemma {:induction false} PendingIsLoaded(approver: Approver, now: int, orig: Request, t: Tally, id: Id)
    requires Progress(approver, now, orig, t)
    ensures IndexOf(t.request.items, id) == IndexOf(orig.items, id)
    ensures var index := IndexOf(orig.items, id);
            index < |orig.items| && t.request.items[index].state == Pending ==> t.request.items[index] == orig.items[index]
  {
    forall i | 0 <= i < |orig.items| ensures orig.items[i].id == t.request.items[i].id {
      assert ItemProgress(orig, approver, now, orig.items[i], t.request.items[i], t.grants);
    }
    SameIndex(orig.items, t.request.items, id);
    var index := IndexOf(orig.items, id);
    assert index < |orig.items| ==> ItemProgress(orig, approver, now, orig.items[index], t.request.items[index], t.grants);
  }

  /** A lifetime for a pending item lies between one second and the item's own. */
  predicate Bounded(d: Decision, life: Lifetime, items: seq<Item>) {
    var index := IndexOf(items, d.itemId);
    life.Granted? && index < |items| && items[index].state == Pending ==> SECOND <= life.ttl <= items[index].ttl
  }

  lemma {:induction false} JudgeWithProgress(approver: Approver, now: int, grantId: Id, d: Decision, orig: Request, t: Tally, life: Lifetime)
    requires Progress(approver, now, orig, t) && Bounded(d, life, orig.items)
    requires JudgeWith(approver, now, grantId, d, t, life).Decided?
    ensures Progress(approver, now, orig, JudgeWith(approver, now, grantId, d, t, life).tally)
    ensures HasPending(orig.items)
  {
    var index := IndexOf(t.request.items, d.itemId);
    var item := t.request.items[index];
    PendingIsLoaded(approver, now, orig, t, d.itemId);
    var u := JudgeWith(approver, now, grantId, d, t, life).tally;
    if d.approve && life.Granted? {
      ApprovalOrigin(approver, now, grantId, orig, item, life.ttl);
      var after := u.request.items[index];
      assert GrantFor(t.request, after, approver, now) == GrantFor(orig, after, approver, now);
    }
    MoveItem(approver, now, orig, t, index, u.request.items[index], u.grants, u.seen);
  }

  lemma {:induction false} JudgeAllProgress(approver: Approver, now: int, ids: seq<Id>, ds: seq<Decision>, lives: seq<Lifetime>, orig: Request, n: nat)
    requires n <= |ds| == |ids| == |lives|
    requires forall k :: 0 <= k < |ds| ==> Bounded(ds[k], lives[k], orig.items)
    requires JudgeAll(approver, now, ids, ds, lives, orig, n).Decided?
    ensures Progress(approver, now, orig, JudgeAll(approver, now, ids, ds, lives, orig, n).tally)
    ensures n > 0 ==> HasPending(orig.items)
  {
    if n > 0 {
      var t := JudgeAll(approver, now, ids, ds, lives, orig, n - 1).tally;
      JudgeAllProgress(approver, now, ids, ds, lives, orig, n - 1);
      JudgeWithProgress(approver, now, ids[n - 1], ds[n - 1], orig, t, lives[n - 1]);
    }
  }

  lemma {:induction false} LifetimeBounded(p: Policy, d: Decision, items: seq<Item>)
    requires ValidPolicy(p) && LifetimesPositive(items)
    ensures Bounded(d, LifetimeFor(p, d, items), items)
  {
    var index := IndexOf(items, d.itemId);
    if index < |items| && items[index].state == Pending {
      ApprovalTTLExact(p, items[index], d.ttl);
    }
  }

  /** An accepted batch moves only pending items, and grants only what it approves, in time and within their lifetimes. */
  lemma {:induction false} JudgeProgress(p: Policy, approver: Approver, now: int, ids: seq<Id>, ds: seq<Decision>, orig: Request)
    requires |ds| == |ids|
    requires ValidPolicy(p) && LifetimesPositive(orig.items)
    requires Judge(p, approver, now, ids, ds, orig).Decided?
    ensures Progress(approver, now, orig, Judge(p, approver, now, ids, ds, orig).tally)
    ensures ds != [] ==> HasPending(orig.items)
  {
    var lives := Lives(p, ds, orig.items);
    forall k | 0 <= k < |ds| ensures Bounded(ds[k], lives[k], orig.items) {
      LifetimeBounded(p, ds[k], orig.items);
    }
    JudgeAllProgress(approver, now, ids, ds, lives, orig, |ds|);
  }

  // ----------------------------------------------------------------- session policy

  function BlockOf(g: Grant): Block {
    Block(g.path, g.capabilities, At(WholeSeconds(g.expiresAt)))
  }

  function Blocks(gs: seq<Grant>): (blocks: seq<Block>)
    ensures |blocks| == |gs|
  {
    seq(|gs|, i requires 0 <= i < |gs| => BlockOf(gs[i]))
  }

  function LastExpiry(gs: seq<Grant>, n: nat): int
    requires n <= |gs|
  {
    if n == 0 then 0
    else if gs[n - 1].expiresAt > LastExpiry(gs, n - 1) then gs[n - 1].expiresAt
    else LastExpiry(gs, n - 1)
  }

  /** One block per grant; the policy lapses with its last block. */
  function SessionPolicy(gs: seq<Grant>): AclPolicy {
    AclPolicy(Blocks(gs), LastExpiry(gs, |gs|))
  }

  method RenderSessionPolicy(gs: seq<Grant>) returns (policy: AclPolicy)
    ensures policy == SessionPolicy(gs)
  {
    var blocks: seq<Block> := [];
    var expiresAt := 0;
    for index := 0 to |gs|
      invariant |blocks| == index && forall k :: 0 <= k < index ==> blocks[k] == BlockOf(gs[k])
      invariant expiresAt == LastExpiry(gs, index)
    {
      blocks := blocks + [Block(gs[index].path, gs[index].capabilities, At(WholeSeconds(gs[index].expiresAt)))];
      if gs[index].expiresAt > expiresAt {
        expiresAt := gs[index].expiresAt;
      }
    }
    assert blocks == Blocks(gs);
    return AclPolicy(blocks, expiresAt);
  }

  ghost predicate WholeSecondExpiries(gs: seq<Grant>) {
    forall g :: g in gs ==> g.expiresAt > 0 && WholeSeconds(g.expiresAt) == g.expiresAt
  }

  ghost predicate InForce(gs: seq<Grant>, now: int, path: string, capability: string) {
    exists g :: g in gs && g.path == path && now < g.expiresAt && capability in g.capabilities
  }

  lemma {:induction false} LastExpiryBounds(gs: seq<Grant>, n: nat)
    requires n <= |gs|
    ensures LastExpiry(gs, n) >= 0
    ensures forall i :: 0 <= i < n ==> gs[i].expiresAt <= LastExpiry(gs, n)
  {
    if n > 0 {
      LastExpiryBounds(gs, n - 1);
    }
  }

  lemma {:induction false} InForceGiven(gs: seq<Grant>, now: int, path: string, capability: string)
    requires WholeSecondExpiries(gs) && InForce(gs, now, path, capability)
    ensures Gives(SessionPolicy(gs), now, path, capability)
  {
    LastExpiryBounds(gs, |gs|);
    var g :| g in gs && g.path == path && now < g.expiresAt && capability in g.capabilities;
    var i :| 0 <= i < |gs| && gs[i] == g;
    var blocks := Blocks(gs);
    assert blocks[i] in blocks && BlockApplies(blocks[i], path, now);
  }

  lemma {:induction false} GivenInForce(gs: seq<Grant>, now: int, path: string, capability: string)
    requires WholeSecondExpiries(gs) && Gives(SessionPolicy(gs), now, path, capability)
    ensures InForce(gs, now, path, capability)
  {
    var blocks := Blocks(gs);
    var b :| b in blocks && BlockApplies(b, path, now) && capability in b.capabilities;
    var i :| 0 <= i < |blocks| && blocks[i] == b;
    assert gs[i] in gs;
  }

  /** The two levels of expiry together give, at every instant, exactly the unexpired grants. */
  lemma {:induction false} SessionPolicyMeaning(gs: seq<Grant>, now: int, path: string, capability: string)
    requires WholeSecondExpiries(gs)
    ensures Gives(SessionPolicy(gs), now, path, capability) <==> InForce(gs, now, path, capability)
  {
    if InForce(gs, now, path, capability) {
      InForceGiven(gs, now, path, capability);
    }
    if Gives(SessionPolicy(gs), now, path, capability) {
      GivenInForce(gs, now, path, capability);
    }
  }

  lemma {:induction false} LastExpiryReached(gs: seq<Grant>, n: nat)
    requires n <= |gs|
    ensures LastExpiry(gs, n) == 0 || exists i :: 0 <= i < n && gs[i].expiresAt == LastExpiry(gs, n)
  {
    if n > 0 {
      LastExpiryReached(gs, n - 1);
    }
  }

  /** The document has a block for each grant, in order, and lapses as a whole exactly when the last of them does. */
  lemma {:induction false} SessionPolicyExact(gs: seq<Grant>, now: int)
    requires WholeSecondExpiries(gs)
    ensures |SessionPolicy(gs).blocks| == |gs|
    ensures forall i :: 0 <= i < |gs| ==> SessionPolicy(gs).blocks[i] == Block(gs[i].path, gs[i].capabilities, At(gs[i].expiresAt))
    ensures gs != [] ==> (PolicyLive(SessionPolicy(gs), now) <==> exists i :: 0 <= i < |gs| && now < gs[i].expiresAt)
  {
    forall i | 0 <= i < |gs| ensures gs[i].expiresAt > 0 && WholeSeconds(gs[i].expiresAt) == gs[i].expiresAt {
      assert gs[i] in gs;
    }
    LastExpiryBounds(gs, |gs|);
    LastExpiryReached(gs, |gs|);
    assert gs != [] ==> LastExpiry(gs, |gs|) >= gs[0].expiresAt > 0;
  }

  function Remaining(gs: seq<Grant>, id: Id): seq<Grant> {
    if gs == [] then []
    else (if gs[0].id == id then [] else [gs[0]]) + Remaining(gs[1..], id)
  }

  lemma {:induction false} RemainingExact(gs: seq<Grant>, id: Id)
    ensures forall g :: g in Remaining(gs, id) <==> g in gs && g.id != id
    ensures |Remaining(gs, id)| <= |gs|
    ensures |Remaining(gs, id)| == |gs| <==> forall g :: g in gs ==> g.id != id
  {
    if gs != [] {
      RemainingExact(gs[1..], id);
      assert forall g :: g in gs <==> g == gs[0] || g in gs[1..];
    }
  }
}
