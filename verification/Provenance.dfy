// Where access comes from: every block of every session policy goes back to one step of
// the run, in which an Approver approved an item that was pending in the store.
module Provenance {
  import opened Decisions
  import opened Invariants
  import opened OpenBao
  import opened Protocol
  import opened Rules
  import opened Store
  import opened Time
  import Frames
  import Theorems
  import Verdicts

  /** The stored request holds the item, still pending, and its deadline has not passed. */
  ghost predicate StillPending(s: Sys, a: Approval) {
    && a.requestId in s.db.requests
    && var r := s.db.requests[a.requestId].request;
       r.entity == a.entity && a.item in r.items && a.item.state == Pending && s.clock < r.pendingUntil
  }

  /** A verdict in ds approves the item with a lifetime the rules allow, and g is its grant. */
  ghost predicate ApprovedAmong(p: Policy, approver: Approver, now: int, requestId: Id, entity: string, ds: seq<Decision>, item: Item, g: Grant) {
    exists k :: 0 <= k < |ds| && Approves(p, approver, now, requestId, entity, ds[k], item, g)
  }

  ghost predicate Approves(p: Policy, approver: Approver, now: int, requestId: Id, entity: string, d: Decision, item: Item, g: Grant) {
    && d.approve && d.itemId == item.id
    && ReResolved(p, item).Accepted? && ApprovalTTL(p, item, d.ttl).Granted?
    && g.expiresAt == WholeSeconds(now + ApprovalTTL(p, item, d.ttl).ttl)
    && g.path == item.path && g.capabilities == item.capabilities
    && g.entity == entity && g.requestId == requestId && g.itemId == item.id && g.approvedBy == approver.name
  }

  /** Step l, taken in state s, is the approval a. */
  ghost predicate Approving(s: Sys, l: Label, a: Approval) {
    && l.Step? && l.thread in s.threads && s.threads[l.thread].DecideLoaded?
    && s.threads[l.thread].approver == a.approver && s.threads[l.thread].loaded.id == a.requestId
    && a.approver.entity != a.entity
    && a.policy == s.policy && a.at == s.clock
    && StillPending(s, a)
    && ApprovedAmong(s.policy, a.approver, s.clock, a.requestId, a.entity, s.threads[l.thread].decisions, a.item, a.grant)
  }

  /** Step n of the run is the approval a. */
  ghost predicate ApprovedAt(s: Sys, labels: seq<Label>, n: nat, a: Approval) {
    n < |labels| && IsRun(s, labels[..n]) && Approving(After(s, labels[..n]), labels[n], a)
  }

  // A loaded request whose deadline is still to come is the stored one.
  lemma {:induction false} FreshSnapshot(db: Db, clock: int, loaded: Request)
    requires Snapshot(db, clock, loaded) && clock < loaded.pendingUntil
    ensures loaded.id in db.requests && db.requests[loaded.id].request == loaded
  {
  }

  lemma {:induction false} SameItem(r: Request, a: Item, b: Item)
    requires DistinctIds(r) && a in r.items && b in r.items && a.id == b.id
    ensures a == b
  {
    var i :| 0 <= i < |r.items| && r.items[i] == a;
    var j :| 0 <= j < |r.items| && r.items[j] == b;
    assert i == j;
  }

  /** What judging adds to history is approved by that step. */
  lemma {:induction false} JudgedApproval(s: Sys, tid: ThreadId, c: Choice, approver: Approver, decisions: seq<Decision>, loaded: Request, b: Batch, a: Approval)
    requires tid in s.threads && s.threads[tid] == DecideLoaded(approver, decisions, loaded)
    requires approver.entity != loaded.entity && Snapshot(s.db, s.clock, loaded)
    requires c.Ids? && |c.ids| == |decisions| && Judge(s.policy, approver, s.clock, c.ids, decisions, loaded).Decided?
    requires var t := Judge(s.policy, approver, s.clock, c.ids, decisions, loaded).tally;
             b == Batch(s.policy, approver, loaded, t.request, t.grants, s.clock)
    requires a in BatchApprovals(b)
    ensures Approving(s, Step(tid, c), a)
  {
    var k, item := Verdicts.GrantsJustified(s.policy, approver, s.clock, c.ids, decisions, loaded, a.grant);
    JustifiedApproves(s.policy, approver, s.clock, c.ids[k], decisions[k], loaded, item, a.grant);
    SameItem(loaded, item, a.item);
    StoredPending(s, loaded, a);
  }

  lemma {:induction false} StoredPending(s: Sys, loaded: Request, a: Approval)
    requires Snapshot(s.db, s.clock, loaded) && s.clock < loaded.pendingUntil
    requires a.item in loaded.items && a.item.state == Pending && a.requestId == loaded.id && a.entity == loaded.entity
    ensures StillPending(s, a)
  {
    FreshSnapshot(s.db, s.clock, loaded);
  }

  lemma {:induction false} JustifiedApproves(p: Policy, approver: Approver, now: int, id: Id, d: Decision, loaded: Request, item: Item, g: Grant)
    requires Verdicts.Justified(approver, now, id, d, ApprovalTTL(p, item, d.ttl), loaded, item, g)
    ensures Approves(p, approver, now, loaded.id, loaded.entity, d, item, g)
    ensures item in loaded.items && item.state == Pending && now < loaded.pendingUntil
  {
  }

  lemma {:induction false} JudgeApproves(s: Sys, tid: ThreadId, c: Choice, a: Approval)
    requires tid in s.threads && s.threads[tid].DecideLoaded? && ThreadOk(s, s.threads[tid])
    requires a !in s.approvals
    requires var th := s.threads[tid]; a in JudgeStep(s, tid, th.approver, th.decisions, th.loaded, c).approvals
    ensures Approving(s, Step(tid, c), a)
  {
    var th := s.threads[tid];
    var t := Judge(s.policy, th.approver, s.clock, c.ids, th.decisions, th.loaded).tally;
    JudgedApproval(s, tid, c, th.approver, th.decisions, th.loaded, Batch(s.policy, th.approver, th.loaded, t.request, t.grants, s.clock), a);
  }

  lemma {:induction false} NewApproval(s: Sys, l: Label, a: Approval)
    requires Inv(s) && Enabled(s, l) && a !in s.approvals && a in Next(s, l).approvals
    ensures Approving(s, l, a)
  {
    if l.Step? {
      if s.threads[l.thread].DecideLoaded? {
        assert ThreadOk(s, s.threads[l.thread]);
        JudgeApproves(s, l.thread, l.choice, a);
      } else {
        Frames.ThreadHistory(s, l.thread, l.choice);
      }
    }
  }

  lemma {:induction false} ApprovedInRun(s: Sys, labels: seq<Label>, a: Approval) returns (n: nat)
    requires Init(s) && IsRun(s, labels) && a in After(s, labels).approvals
    ensures ApprovedAt(s, labels, n, a)
    decreases |labels|
  {
    var last := |labels| - 1;
    var shorter := labels[..last];
    if a in After(s, shorter).approvals {
      n := ApprovedInRun(s, shorter, a);
      assert shorter[..n] == labels[..n];
    } else {
      Theorems.RunKeeps(s, shorter);
      NewApproval(After(s, shorter), labels[last], a);
      n := last;
    }
  }

  /**
    * At every single step, failed restores included, each block of an entity's session
    * policy renders a grant that one step of the run approved: in that step's state the
    * item was pending in the store, in a request that entity filed, before the deadline;
    * its rules allowed it; and the deciding Approver belonged to another entity.
    */
  lemma {:induction false} EveryBlockWasApproved(s: Sys, labels: seq<Label>, entity: string, b: Block) returns (n: nat, a: Approval)
    requires Init(s) && IsRun(s, labels)
    requires PolicyName(entity) in After(s, labels).bao.policies && b in After(s, labels).bao.policies[PolicyName(entity)].blocks
    ensures ApprovedAt(s, labels, n, a) && a.entity == entity && BlockOf(a.grant) == b
  {
    Theorems.RunKeeps(s, labels);
    var now := After(s, labels);
    assert EntityOk(now, entity);
    assert BlockTraced(now.approvals, entity, b);
    a :| a in now.approvals && a.entity == entity && BlockOf(a.grant) == b;
    n := ApprovedInRun(s, labels, a);
  }

  /** So does every stored grant, revoked or not. */
  lemma {:induction false} EveryGrantWasApproved(s: Sys, labels: seq<Label>, id: Id) returns (n: nat, a: Approval)
    requires Init(s) && IsRun(s, labels) && id in After(s, labels).db.grants
    ensures ApprovedAt(s, labels, n, a) && a.entity == After(s, labels).db.grants[id].entity && SameGrant(a.grant, After(s, labels).db.grants[id])
  {
    Theorems.RunKeeps(s, labels);
    var now := After(s, labels);
    assert GrantTraced(now.approvals, now.db.grants[id]);
    a :| a in now.approvals && a.entity == now.db.grants[id].entity && SameGrant(a.grant, now.db.grants[id]);
    n := ApprovedInRun(s, labels, a);
  }
}
