// A run that ends with an unlocked entity whose policy gives what no stored grant does:
// one request is filed and approved, the policy is written and attached, and then the
// commit and the restore both fail. It is why agreement is promised only of entities
// whose last restore succeeded.
module Counterexample {
  import opened Decisions
  import opened FailedRestores
  import opened Invariants
  import opened OpenBao
  import opened Options
  import opened Patterns
  import opened Protocol
  import opened Rules
  import opened Store
  import opened Strings
  import opened Time
  import opened Traces
  import Filing

  const LIFETIME := 3600 * SECOND
  const RULE := Rule("reader", "kv", ["read"], 0, "")
  const RULES := Policy([RULE], LIFETIME, {})
  const INPUT := ItemInput("kv", ["read"], NoTtl)
  const APPROVER := Approver("boss", "Boss")
  const DECISION := Decision("item", true, NoTtl)

  const ITEM := Item("item", "kv", ["read"], LIFETIME, Pending, NoReason, 0, NOBODY, NO_ID, 0)
  const REQUEST := Request("request", "agent", SECOND, SECOND + LIFETIME, [ITEM])
  const APPROVED := ITEM.(state := Approved, decidedAt := SECOND, decidedBy := APPROVER, grantId := "grant", grantExpires := SECOND + LIFETIME)
  const GRANT := Grant("grant", "request", "item", "agent", "kv", ["read"], SECOND, SECOND + LIFETIME, "Boss", 0, "")
  const BATCH := Batch(RULES, APPROVER, REQUEST, REQUEST.(items := [APPROVED]), [GRANT], SECOND)

  lemma {:induction false} PathConcrete()
    ensures ConcretePath("kv", {}) == None && DeniedIn("kv") == None
  {
    SplitWithout("kv");
    LowerStays("kv");
    assert TrimSlash("kv") == "kv";
    assert ByteLen("kv") == 1 + ByteLen("v");
    assert ByteLen("v") == 1 + ByteLen("");
  }

  lemma {:induction false} ReadNormal()
    ensures Normalization(["read"]) == Capabilities(["read"])
  {
    assert GRANTABLE[1] == "read";
    NormalizationIdempotent(["read"]);
  }

  lemma {:induction false} RuleCovers()
    ensures CoversItem(RULE, "kv", ["read"]) && BestRule(RULES, "kv", ["read"], 1) == Some(0)
  {
    assert BestRule(RULES, "kv", ["read"], 0) == None;
  }

  lemma {:induction false} RuleResolves()
    ensures Resolve(RULES, INPUT) == Accepted(Resolved("kv", ["read"], LIFETIME, "reader", LIFETIME))
  {
    PathConcrete();
    ReadNormal();
    RuleCovers();
  }

  lemma {:induction false} RulesValid()
    ensures ValidPolicy(RULES)
  {
  }
  lemma {:induction false} Files()
    ensures Filing.FiledItems(RULES, [INPUT], ["item"]) == [ITEM]
  {
    RuleResolves();
  }
  lemma {:induction false} LifetimeStays()
    ensures ApprovalTTL(RULES, ITEM, NoTtl) == Granted(LIFETIME)
  {
    RuleResolves();
  }

  // The verdict on the approval of the only item of a request.
  lemma {:induction false} ApprovesOnly(approver: Approver, now: int, id: Id, d: Decision, request: Request, item: Item, ttl: int)
    requires request.items == [item] && item.id == d.itemId && item.state == Pending && now < request.pendingUntil && d.approve
    ensures var after := ApprovedItem(item, approver, now, id, ttl);
            JudgeWith(approver, now, id, d, Tally(request, [], {}), Granted(ttl)) ==
            Decided(Tally(request.(items := [after]), [GrantFor(request, after, approver, now)], {d.itemId}))
  {
    var items := request.items;
    assert IndexOf(items, d.itemId) == 0;
    assert items[0 := ApprovedItem(item, approver, now, id, ttl)] == [ApprovedItem(item, approver, now, id, ttl)];
  }

  lemma {:induction false} WithLifetime()
    ensures JudgeWith(APPROVER, SECOND, "grant", DECISION, Tally(REQUEST, [], {}), Granted(LIFETIME)) == Decided(Tally(BATCH.decided, [GRANT], {"item"}))
  {
    ApprovesOnly(APPROVER, SECOND, "grant", DECISION, REQUEST, ITEM, LIFETIME);
    assert WholeSeconds(SECOND + LIFETIME) == SECOND + LIFETIME;
  }

  lemma {:induction false} Judges()
    ensures Judge(RULES, APPROVER, SECOND, ["grant"], [DECISION], REQUEST) == Decided(Tally(BATCH.decided, [GRANT], {"item"}))
  {
    LifetimeStays();
    assert IndexOf([ITEM], "item") == 0;
    var lives := Lives(RULES, [DECISION], [ITEM]);
    assert lives[0] == Granted(LIFETIME);
    assert JudgeAll(APPROVER, SECOND, ["grant"], [DECISION], lives, REQUEST, 0) == Decided(Tally(REQUEST, [], {}));
    WithLifetime();
  }

  // ------------------------------------------------------------------- the steps

  lemma {:induction false} FilesCall(s: Sys)
    requires s.policy == RULES && s.clock == SECOND && 0 in s.threads && s.threads[0] == FileCall("agent", [INPUT], LIFETIME)
    ensures Leads(s, Step(0, Ids(["request", "item"])), Goto(s, 0, FileResolved(REQUEST)))
  {
    var ids := ["request", "item"];
    assert ids[1..] == ["item"];
    Files();
  }

  lemma {:induction false} LookupFails(s: Sys)
    requires 0 in s.threads && s.threads[0] == FileResolved(REQUEST)
    ensures Leads(s, Step(0, Fault), Goto(s, 0, FileChecked(REQUEST)))
  {
  }

  lemma {:induction false} Inserts(s: Sys)
    requires s.db == Db(map[], map[]) && 0 in s.threads && s.threads[0] == FileChecked(REQUEST)
    ensures Leads(s, Step(0, Ok), Goto(s, 0, Done(Success)).(db := Db(map["request" := Row(REQUEST, true)], map[])))
  {
    assert StoredTime(SECOND) == SECOND && StoredTime(SECOND + LIFETIME) == SECOND + LIFETIME;
    assert REQUEST.items[0].state == Pending;
  }

  lemma {:induction false} Asks(s: Sys)
    requires "request" in s.db.requests && s.db.requests["request"].request == REQUEST
    requires 1 in s.threads && s.threads[1] == DecideCall(APPROVER, "request", [DECISION])
    ensures Leads(s, Step(1, Ok), Goto(s, 1, DecideQueued(APPROVER, "request", [DECISION], "agent")))
  {
  }

  lemma {:induction false} Takes(s: Sys)
    requires s.locks == map[] && 1 in s.threads && s.threads[1] == DecideQueued(APPROVER, "request", [DECISION], "agent")
    ensures Leads(s, Step(1, Ok), Acquire(s, 1, "agent", DecideLocked(APPROVER, "request", [DECISION], "agent")))
  {
  }

  lemma {:induction false} Loads(s: Sys)
    requires "request" in s.db.requests && s.db.requests["request"].request == REQUEST
    requires 1 in s.threads && s.threads[1] == DecideLocked(APPROVER, "request", [DECISION], "agent")
    ensures Leads(s, Step(1, Ok), Goto(s, 1, DecideLoaded(APPROVER, [DECISION], REQUEST)))
  {
  }

  lemma {:induction false} JudgeLeads(s: Sys, tid: ThreadId, approver: Approver, ds: seq<Decision>, loaded: Request, ids: seq<Id>, b: Batch)
    requires tid in s.threads && s.threads[tid] == DecideLoaded(approver, ds, loaded) && |ids| == |ds|
    requires b.grants != [] && b == Batch(s.policy, approver, loaded, b.decided, b.grants, s.clock)
    requires exists seen :: Judge(s.policy, approver, s.clock, ids, ds, loaded) == Decided(Tally(b.decided, b.grants, seen))
    ensures Leads(s, Step(tid, Ids(ids)), Goto(s, tid, DecideJudged(b)).(approvals := s.approvals + BatchApprovals(b)))
  {
  }

  lemma {:induction false} JudgesBatch(s: Sys)
    requires s.policy == RULES && s.clock == SECOND && 1 in s.threads && s.threads[1] == DecideLoaded(APPROVER, [DECISION], REQUEST)
    ensures Leads(s, Step(1, Ids(["grant"])), Goto(s, 1, DecideJudged(BATCH)).(approvals := s.approvals + BatchApprovals(BATCH)))
  {
    Judges();
    JudgeLeads(s, 1, APPROVER, [DECISION], REQUEST, ["grant"], BATCH);
  }

  lemma {:induction false} ListsNone(s: Sys)
    requires s.db.grants == map[] && 1 in s.threads && s.threads[1] == DecideJudged(BATCH)
    ensures Leads(s, Step(1, Listing([])), Goto(s, 1, DecideListed(BATCH, [])))
  {
  }

  lemma {:induction false} Writes(s: Sys)
    requires s.clock == SECOND && 1 in s.threads && s.threads[1] == DecideListed(BATCH, [])
    ensures Leads(s, Step(1, Ok), Wrote(s, 1, DecideWritten(BATCH, []), WithPolicy(s.bao, PolicyName("agent"), SessionPolicy([GRANT])), s.dirty))
  {
    assert [] + BATCH.grants == [GRANT];
    assert LastExpiry([GRANT], 0) == 0;
    assert LastExpiry([GRANT], 1) == SECOND + LIFETIME;
  }

  lemma {:induction false} ReadsEntity(s: Sys)
    requires "agent" in s.bao.entities && s.bao.entities["agent"] == [] && 1 in s.threads && s.threads[1] == DecideWritten(BATCH, [])
    ensures Leads(s, Step(1, Ok), Goto(s, 1, DecideEntityRead(BATCH, [], [])))
  {
  }

  lemma {:induction false} Attaches(s: Sys)
    requires "agent" in s.bao.entities && 1 in s.threads && s.threads[1] == DecideEntityRead(BATCH, [], [])
    ensures Leads(s, Step(1, Ok), Goto(s, 1, DecideReady(BATCH, [])).(bao := WithEntityPolicies(s.bao, "agent", [] + [PolicyName("agent")])))
  {
  }

  // --------------------------------------------------------------------- the run

  ghost function Start0(): Sys {
    Sys(Db(map[], map[]), Bao(map[], map["agent" := []]), SECOND, RULES, map[], map[], {}, {})
  }

  const CALL := FileCall("agent", [INPUT], LIFETIME)
  const DECIDE := DecideCall(APPROVER, "request", [DECISION])
  const STORED := Db(map["request" := Row(REQUEST, true)], map[])

  lemma {:induction false} Then(states: seq<Sys>, labels: seq<Label>, s: Sys, l: Label, next: Sys)
    returns (states': seq<Sys>, labels': seq<Label>, s': Sys)
    requires IsTrace(states, labels) && s == states[|labels|] && Leads(s, l, next)
    ensures IsTrace(states', labels') && s' == states'[|labels'|] && s' == next
  {
    ExtendChain(states, labels, l, next);
    states', labels', s' := states + [next], labels + [l], next;
  }

  lemma {:induction false} Starts(s: Sys, tid: ThreadId, call: Thread)
    requires tid !in s.threads && StartsCall(call)
    ensures Leads(s, Start(tid, call), Goto(s, tid, call))
  {
  }

  /** The request is filed. */
  lemma {:induction false} Filed() returns (states: seq<Sys>, labels: seq<Label>, s: Sys)
    ensures IsTrace(states, labels) && s == states[|labels|]
    ensures s.db == STORED && s.bao == Start0().bao && s.clock == SECOND && s.policy == RULES && s.locks == map[]
    ensures 1 !in s.threads
  {
    RulesValid();
    OneState(Start0());
    states, labels, s := [Start0()], [], Start0();
    Starts(s, 0, CALL);
    states, labels, s := Then(states, labels, s, Start(0, CALL), Goto(s, 0, CALL));
    FilesCall(s);
    states, labels, s := Then(states, labels, s, Step(0, Ids(["request", "item"])), Goto(s, 0, FileResolved(REQUEST)));
    LookupFails(s);
    states, labels, s := Then(states, labels, s, Step(0, Fault), Goto(s, 0, FileChecked(REQUEST)));
    Inserts(s);
    states, labels, s := Then(states, labels, s, Step(0, Ok), Goto(s, 0, Done(Success)).(db := STORED));
  }

  /** The item is approved under the lock. */
  lemma {:induction false} ItemApproved() returns (states: seq<Sys>, labels: seq<Label>, s: Sys)
    ensures IsTrace(states, labels) && s == states[|labels|]
    ensures s.db == STORED && s.bao == Start0().bao && s.clock == SECOND
    ensures 1 in s.threads && s.threads[1] == DecideJudged(BATCH)
  {
    states, labels, s := Filed();
    Starts(s, 1, DECIDE);
    states, labels, s := Then(states, labels, s, Start(1, DECIDE), Goto(s, 1, DECIDE));
    Asks(s);
    states, labels, s := Then(states, labels, s, Step(1, Ok), Goto(s, 1, DecideQueued(APPROVER, "request", [DECISION], "agent")));
    Takes(s);
    states, labels, s := Then(states, labels, s, Step(1, Ok), Acquire(s, 1, "agent", DecideLocked(APPROVER, "request", [DECISION], "agent")));
    Loads(s);
    states, labels, s := Then(states, labels, s, Step(1, Ok), Goto(s, 1, DecideLoaded(APPROVER, [DECISION], REQUEST)));
    JudgesBatch(s);
    states, labels, s := Then(states, labels, s, Step(1, Ids(["grant"])),
                              Goto(s, 1, DecideJudged(BATCH)).(approvals := s.approvals + BatchApprovals(BATCH)));
  }

  /** The policy is written and attached, and nothing is stored yet. */
  lemma {:induction false} Installed() returns (states: seq<Sys>, labels: seq<Label>, s: Sys)
    ensures IsTrace(states, labels) && s == states[|labels|]
    ensures s.db == STORED && s.clock == SECOND && Attached(s.bao, "agent")
    ensures 1 in s.threads && s.threads[1] == DecideReady(BATCH, [])
  {
    states, labels, s := ItemApproved();
    ListsNone(s);
    states, labels, s := Then(states, labels, s, Step(1, Listing([])), Goto(s, 1, DecideListed(BATCH, [])));
    Writes(s);
    states, labels, s := Then(states, labels, s, Step(1, Ok),
                              Wrote(s, 1, DecideWritten(BATCH, []), WithPolicy(s.bao, PolicyName("agent"), SessionPolicy([GRANT])), s.dirty));
    ReadsEntity(s);
    states, labels, s := Then(states, labels, s, Step(1, Ok), Goto(s, 1, DecideEntityRead(BATCH, [], [])));
    Attaches(s);
    states, labels, s := Then(states, labels, s, Step(1, Ok),
                              Goto(s, 1, DecideReady(BATCH, [])).(bao := WithEntityPolicies(s.bao, "agent", [] + [PolicyName("agent")])));
  }

  lemma {:induction false} NotRedundant()
    ensures !Redundant(STORED, SECOND, "agent", [GRANT])
  {
    assert GRANT in [GRANT] && "read" in GRANT.capabilities;
    assert InForce([GRANT], SECOND, "kv", "read");
    assert !Entitled(STORED, "agent", SECOND, "kv", "read");
  }

  /** Agreement fails without a successful restore: a run that ends with the entity unlocked and policy and store apart. */
  lemma {:induction false} PolicyAndStoreApart() returns (s: Sys, labels: seq<Label>)
    ensures Init(s) && IsRun(s, labels)
    ensures var last := After(s, labels);
            "agent" !in last.locks && !Sync(last.db, last.bao, last.clock, "agent")
  {
    var states, before, now := Installed();
    TraceIsRun(states, before);
    s := states[0];
    FailedApprovalExact(s, before, 1, Fault, StoreFailure, AtListing, BATCH, []);
    NotRedundant();
    labels := before + GivingUp(1, Fault, AtListing);
    GivingUpIsRun(s, before, 1, Fault, "agent", StoreFailure, AtListing);
  }
}
