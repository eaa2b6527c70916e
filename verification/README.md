# Grant authorizer: a model and its proofs

The authorizer lets an agent ask for short-lived access to OpenBao paths. An agent
(the *Requester*) files a Grant Request of several items; an *Approver* decides the items;
every approval becomes a row of the grants table and a block of the ACL policy
`agent-grant-<entity>` that the authorizer keeps for the Requester's entity. A grant ends
by expiry or by revocation. The database and OpenBao are two systems without a common
transaction: they are kept in step by writing the whole policy anew from the stored
grants, by a reference-counted lock per entity, by a `has_pending` guard against the one
writer that takes no lock (the expiry sweep), and by restoring the policy when a later
step fails. This project models that machinery and proves what it is for.

## How the model is built

- **`Store`, `OpenBao`** are the two systems: classes with mutable tables whose methods
  are proved against transaction functions (`DecideTx`, `RevokeTx`, `ExpireTx`,
  `WithPolicy`, ...). The access a policy gives (`OpenBao.Access`) has two levels of expiry,
  the policy's and each block's.
- **`Patterns`, `Rules`** are the rule engine, **`Decisions`, `Verdicts`, `Filing`** the
  local computations of a decision and of filing. Loops are methods proved against
  functions; the lemmas are about the functions. **`Refusals`** and **`Judgements`** say
  what those functions come to on the text and the fields themselves.
- **`Protocol`** is the step machine. Any number of threads file, decide and revoke; the
  sweep, the clock and policy changes happen at any moment between their steps. One step
  is one store transaction, one OpenBao call, one lock operation or one stretch of local
  computation. Every store and OpenBao step may fail, without effect. Two history
  variables record every approval ever made (`approvals`) and the entities whose last
  restore failed with no success since (`dirty`).
- **`Integrity`, `Invariants`, `Safety`, `DecideSafety`, `RevokeSafety`** hold the
  inductive invariant and the proof that each step keeps it (`Frames`: what each kind of
  step leaves alone). **`Theorems`** states what follows for every run, every interleaving
  and every choice of failing calls. **`Provenance`** traces every policy block and every
  grant back to the step of the run that approved it.
- **`FailedRestores`** says when exactly a call that fails past its policy write, and whose
  restore fails too, leaves policy and store apart; **`Counterexample`** is a run that ends
  so. `Traces` puts runs together from chains of states.
- **`Calm`** and **`Fates`** are about calls around which nothing fails: every call whose
  lock is free ends, and its outcome and what it stores follow from the state it began in.
- **`Service`** is the service itself: methods over a live `Database`, `Server` and lock
  table, with the control flow of the program. Each keeps a ghost log of the machine's
  steps it takes, and `Valid()` says the log is a run whose last state is the live state;
  so everything proved of runs holds of the live service
  (`Service.GrantService.LiveAgreement`).
- **`LockTable`** is the table of reference-counted locks, and **`LockRefinement`** the step
  machine with that table in place of its one-step locks: each of its runs is a run of the
  step machine. **`Wakeups`**, **`Announcements`**, **`Discovery`**, **`AlreadyGranted`**,
  **`Printers`** and **`Durations`** are the smaller cores.

Time is an integer number of nanoseconds. The database floors times to milliseconds and
policies carry whole seconds; both floors are explicit (`Time`). Strings are sequences of
characters.

Where documentation and code disagree, the model follows the code: the last section of
the repository's `README.md` (line 597) says the Hard Denylist checks the first path segment;
`deniedSegment` (`internal/grants/rules.go:328-336`) and line 24 of the same file say every
segment.

## Model

| member | source | states |
|---|---|---|
| Theorems.PolicyMatchesStore | internal/grants/service.go:489-522 | In every run, whatever the interleaving and the failing calls: whenever nobody holds an entity's lock and its last restore, if any, succeeded, the access its attached policy gives at every instant from now on is exactly the union of its stored unrevoked grants that expire later |
| Theorems.SuccessRestoresAgreement | internal/grants/service.go:505-522 | A decision with approvals or a revocation that commits brings policy and store of its entity together again, even after a failed restore |
| Counterexample.PolicyAndStoreApart | internal/grants/service.go:489-522 | The condition on restores is needed: a run that files and approves one item and then fails to store it and to restore the policy ends with the entity unlocked and its policy giving what no stored grant does |
| FailedRestores.FailedApprovalExact | internal/grants/service.go:494-510 | For an approval that fails anywhere past its policy write (reading the entity, attaching, or committing, whatever the error) and whose restore fails at its listing or at its rewrite: giving up is a run that frees the lock, and policy and store then agree exactly when the policy is not attached or the store already gives all that the batch does |
| FailedRestores.FailedRevocationExact | internal/grants/service.go:576-635 | The same of a revocation whose record fails and whose restore fails at its listing or at its rewrite: policy and store still agree exactly when the entity's other stored grants give all that the grant still gives |
| FailedRestores.WritingCanFail | internal/grants/service.go:499-510 | Every position of an approval past its policy write can fail so, by a failing call |
| FailedRestores.RemovingCanFail | internal/grants/service.go:590-600 | So can the position of a revocation past its policy write |
| Theorems.NoLostUpdate | internal/store/grants.go:211-236 | When a decision commits its whole item list, the stored request is still the one it loaded; the commit reports a changed status exactly when the row has nothing pending any more |
| Provenance.EveryBlockWasApproved | internal/grants/service.go:427-487 | In every reachable state, in the middle of calls and after failed restores too, each block of an entity's session policy renders a grant approved by one step of the run: in that step's state the item was pending in the store, in a request that entity filed, before its deadline; the rules in force resolved it; the deciding Approver belonged to another entity; and the grant's path, capabilities and expiry are those of the item and the lifetime allowed |
| Provenance.EveryGrantWasApproved | internal/grants/service.go:427-487 | The same of every stored grant, revoked or not |
| Provenance.ApprovedInRun | internal/grants/service.go:433-487 | Every approval in the machine's history happened at a step of the run, with that step's policy, instant, stored request and decision |
| Theorems.OnlyOwnPolicyTouched | internal/grants/service.go:606-657 | No step writes any policy but the session policy of the entity whose lock it holds, nor any entity's policy list but that one, to which it only appends the session policy's name |
| Theorems.StoreIsConsistent | internal/store/grants.go:211-256 | In every reachable store an item is approved or revoked exactly when a grant row carries its ID, and that row has the item's grant ID, entity, path, capabilities, expiry and revocation; has_pending is true exactly when some item is pending |
| Theorems.ItemsOnlyMoveForward | internal/store/grants.go:211-316 | Every step moves items only along the edges of its own kind: the sweep from pending to expired, a stored batch from pending to approved, rejected or refused, a recorded revocation from approved to revoked, any other step nothing; what was requested never changes, an item that keeps its state is untouched, and has_pending is never set again |
| Theorems.DecidableExactlyUntilSwept | internal/store/grants.go:266-268 | In every reachable store, at any instant a request with pending items is decidable exactly when the sweep would leave it, in spite of millisecond truncation |
| Theorems.RunKeeps | internal/grants/service.go:391-522 | The invariant that ties store, policies, locks, history and the position of every thread holds after every run from an empty system |
| Theorems.StepKeeps | internal/grants/service.go:576-635 | Every step of every thread, of the sweep, of the clock and of a configuration change keeps that invariant |
| Invariants.Compose | internal/grants/service.go:402-404 | A step that touches at most the entity its thread has locked keeps the whole invariant once it establishes that thread's and that entity's own part |
| Safety.WriteStep | internal/grants/service.go:606-621 | A policy write by the lock holder, whatever position it leads to, keeps the invariant when what it renders is traced to approvals |
| DecideSafety.CommitSettles | internal/grants/service.go:505-522 | Once the batch's grants are stored, the policy written before from the listed grants plus the batch agrees with the store at every later instant |
| RevokeSafety.RecordedSettles | internal/grants/service.go:576-600 | Once the revocation is recorded, the policy written before without that grant agrees with the store at every later instant |
| RevokeSafety.RestoredSync | internal/grants/service.go:625-635 | A policy rendered from a listing of active grants taken earlier agrees with the store at every instant from now on |
| Integrity.DecideKeeps | internal/store/grants.go:211-256 | Storing a judged batch keeps the mirror between items and grant rows |
| Integrity.RevokeKeeps | internal/store/grants.go:405-447 | Recording a revocation keeps the mirror between items and grant rows |
| Integrity.ExpireKeeps | internal/store/grants.go:260-316 | The sweep keeps the mirror between items and grant rows |
| Integrity.ItemsMirrorGrants | internal/store/grants.go:450-470 | In a consistent store an item has a grant state exactly when a row carries its ID, and that row mirrors it |
| Store.Database.CreateGrantRequest | internal/store/grants.go:109-132 | The row is inserted with its instants floored and a flag that tells whether an item is pending, everything else unchanged; or, exactly when the database fails or the ID is in use, nothing changes |
| Store.Database.DecideItems | internal/store/grants.go:211-256 | All or nothing: under has_pending the item list is replaced, each grant gets its row with floored instants, and nothing else changes; a colliding grant or item ID rolls everything back |
| Store.Database.ExpirePendingItems | internal/store/grants.go:260-316 | In each row whose deadline has passed every pending item becomes expired for that reason and every other item stays; all other rows and all grants stay; the IDs of the due rows are returned in order |
| Store.Database.ActiveGrants | internal/store/grants.go:333-339 | Returns exactly the entity's unrevoked rows that expire after now, or everybody's when no entity is given, each once, newest first |
| Store.Database.ExpiredGrants | internal/store/grants.go:379-402 | Returns exactly the rows that expired unrevoked in the window, each once, the earliest first |
| Store.Database.RevokeGrant | internal/store/grants.go:405-447 | Marks the grant with the revoking Approver and the floored instant, marks its item revoked, and changes no other field, row or item; refuses a row already revoked |
| Store.SweepExact | internal/store/grants.go:260-316 | The sweep, item by item and row by row |
| Store.RevokeExact | internal/store/grants.go:405-447 | What a committed revocation stores, field by field, and exactly when it is refused or fails |
| Store.FileExact | internal/store/grants.go:109-132 | What filing stores, field by field, and that it fails exactly on an ID in use |
| Store.DecideExact | internal/store/grants.go:211-256 | A batch commits exactly when the row has something pending and the grants' IDs and item IDs are pairwise distinct and unused; then exactly its items and grant rows are stored |
| Store.InsertExact | internal/store/grants.go:234-250 | Grants are inserted one by one exactly when all of them are unused, each as its own unrevoked row beside those already there |
| Time.StoredComparison | internal/store/grants.go:494-508 | Against a stored time, comparing nanoseconds and comparing milliseconds give the same answer |
| Time.FloorsExact | internal/store/grants.go:494-508 | Columns hold the last whole millisecond before an instant, policies the last whole second |
| Decisions.GrantWindow | internal/grants/service.go:480-486 | A grant approved now is active at once and lapses within the last second of its lifetime |
| Decisions.DecidableXorDue | internal/grants/service.go:433-448 | An item as filed and stored is decidable at an instant exactly when the sweep would not expire it then |
| Verdicts.JudgeItems | internal/grants/service.go:433-487 | The loop that changes items in place, computes lifetimes as it goes and collects grants computes the verdict function, first error included |
| Verdicts.JudgeExact | internal/grants/service.go:433-487 | A batch is accepted exactly when each decision is acceptable against the request as loaded and no item is named twice; then each named item becomes what its decision says, every other item is unchanged, and there is one grant per standing approval, in order |
| Judgements.JudgementExact | internal/grants/service.go:433-487 | Written out on the request, the decisions and what the rules now make of each item: which decision is the first at fault and whether it is a conflict or invalid input; else every field of every decided item, and exactly which grants are made |
| Judgements.LifeExact | internal/grants/service.go:528-549 | An approval's lifetime or its refusal, from what the rules make of the stored item |
| Verdicts.AcceptedStand | internal/grants/service.go:455-479 | After an accepted batch each named item is approved or refused by the rules, or rejected, by the approver who decided |
| Decisions.JudgeProgress | internal/grants/service.go:433-487 | An accepted batch changes only pending items, and each of its grants is of a pending item, decided in time, with a whole-second expiry within the item's lifetime |
| Verdicts.GrantsJustified | internal/grants/service.go:455-485 | Each grant of an accepted batch follows from one of its approvals, of a pending item of the request, with the lifetime the current rules leave it |
| Decisions.ComputeApprovalTTL | internal/grants/service.go:528-549 | Computes the approval lifetime, refusals and invalid lifetimes included |
| Decisions.ApprovalTTLExact | internal/grants/service.go:528-549 | An approval is refused exactly when the item no longer resolves; an Approver's lifetime is accepted exactly between one second and the smaller of the stored lifetime and the new cap, which bounds every result |
| Decisions.ReResolutionStable | internal/grants/service.go:528-538 | Under an unchanged policy an item left pending is never refused at approval and gets exactly its stored lifetime |
| Decisions.SessionPolicyMeaning | internal/grants/service.go:662-675 | The rendered policy with its two levels of expiry gives, at every instant, exactly the unexpired grants it was rendered from |
| Decisions.RenderSessionPolicy | internal/grants/service.go:662-675 | The rendering loop yields one block per grant and the last expiry |
| Decisions.SessionPolicyExact | internal/grants/service.go:662-675 | The document has a block for each grant in order, and is in force exactly as long as one of the grants |
| OpenBao.Server.WritePolicy | internal/openbao/openbaotest/fake.go:240-257 | Replaces one policy, or refuses and changes nothing |
| OpenBao.Server.SetEntityPolicies | internal/openbao/openbaotest/fake.go:223-237 | Replaces one entity's list, or refuses and changes nothing |
| OpenBao.Server.CapabilitiesSelf | internal/openbao/openbaotest/fake.go:284-338 | The nested loops report, for exactly the asked paths, the capabilities computed from live policies and blocks that have not lapsed, blocks without expiration and with an unreadable one included |
| OpenBao.AfterBlocksExact | internal/openbao/openbaotest/fake.go:306-334 | What a list of blocks makes of the reported capabilities: the union of what was there and of the blocks that apply, where deny stays only if no block applies, or is listed by the last one that does |
| OpenBao.SelfCapabilitiesExact | internal/openbao/openbaotest/fake.go:284-338 | A session is told exactly what some policy on its list gives on the path now, and deny exactly when none of them speaks of the path or the last one that does denies it |
| Service.GrantService.Decide | internal/grants/service.go:391-487 | A call takes and gives back the entity's lock in the table and is a run of the step machine, whatever calls fail; when it succeeds, every decision stands in the live store. When nothing fails around it, its outcome and the live store are exactly those of `Fates.DecideFate` |
| Service.GrantService.Revoke | internal/grants/service.go:553-603 | A call takes and gives back the entity's lock in the table and is a run of the step machine; when it succeeds, the grant's row is revoked by the Approver and its entity's policy and store agree again. When nothing fails around it, it is refused exactly for an unknown or inactive grant, and otherwise revokes it |
| Service.GrantService.RestorePolicy | internal/grants/service.go:625-635 | Takes exactly the machine's restore steps, changing neither locks nor store |
| Service.GrantService.AttachPolicy | internal/grants/service.go:640-657 | Reads the list and appends the policy's name unless it is there, as the machine does |
| Service.GrantService.StoreDecisions | internal/grants/service.go:505-519 | Success means the decided items are in the store; a batch without approvals leaves OpenBao alone |
| Service.GrantService.CreateRequest | internal/grants/service.go:223-317 | Resolving, looking capabilities up and storing are the machine's filing steps; a failing lookup leaves items pending; when the call succeeds, the request is stored under its ID with each input filed as the rules and the earlier inputs have it, but for those found already granted. When nothing fails around it, its outcome and the live store are exactly those of `Fates.FileFate` |
| Service.GrantService.ExpirePending | internal/grants/service.go:678-695 | A sweep expires exactly the pending items of the rows past their deadline and changes nothing else, so that no stored request with pending items is past its deadline |
| Service.GrantService.LiveAgreement | internal/grants/service.go:606-635 | Between calls the live OpenBao gives an entity, now and at every later instant, exactly what the live store entitles it to, unless its last restore failed |
| Fates.DecideEnds | internal/grants/service.go:391-522 | A decision around which no call fails: no decisions, an unknown request and one's own request are refused as such; if every decision can be applied and none repeats an item, all are stored, with the items and grants written out, unless something is granted to an entity OpenBao does not know or an ID is in use; else the first decision at fault gives InvalidInput or Conflict, and nothing is stored |
| Fates.DecideSucceeds | internal/grants/service.go:391-522 | With fresh IDs and an entity OpenBao knows, deciding another entity's request ends in success exactly when every decision can be applied and none repeats an item |
| Fates.RevokeEnds | internal/grants/service.go:553-603 | A revocation around which no call fails: NotFound exactly for an unknown grant, Conflict exactly for one revoked or expired, otherwise it is revoked |
| Fates.FileEnds | internal/grants/service.go:223-317 | A filing around which no call fails: InvalidInput exactly unless there are 1 to 64 items; otherwise, unless its ID is in use, they are stored, each as its input, the earlier inputs and the reported capabilities have it, with the deadline counted from now |
| Fates.RestoreEnds | internal/grants/service.go:625-635 | A restore in which no call fails leaves nothing outstanding, frees the lock and reports the error it was made for |
| Fates.FaultReported | internal/grants/service.go:391-522 | A failing call changes neither store nor OpenBao, and the call it was made for goes on to end with that system's error; a failing lookup leaves the request as it is |
| Fates.ErrorStands | internal/grants/service.go:494-519 | Once a call has failed, no later step changes its error or the store |
| Calm.CallEnds | internal/grants/service.go:391-418 | From any reachable state every call whose lock is free has a run of its own without failing calls, and it ends |
| Calm.StepRanks | internal/grants/service.go:391-522 | Every step of a call, whatever fails in it, brings it nearer to its end, at most thirteen steps away |
| Traces.TraceIsRun | internal/grants/service.go:391-522 | A chain of states logged by the live service, each leading to the next, is a run of the step machine that ends in the last of them |
| LockTable.MutualExclusion | internal/grants/service.go:754-775 | In every interleaving of the lock's sub-steps one client at most holds an entity, all clients of an entity and only they share one lock object, an entry exists exactly while somebody uses it and counts its users, and an idle table is empty |
| LockRefinement.TableRefinesMachine | internal/grants/service.go:754-775 | Every run of the step machine in which threads take and free their locks through the table's sub-steps, interleaved with everything else and asking only the lock object, is a run of the step machine, with the same holders at every moment |
| LockTable.RefinesAtomicLock | internal/grants/service.go:754-775 | In every interleaving of the sub-steps alone, the table takes only free locks and frees them only by their holder |
| LockTable.LeaveKeeps | internal/grants/service.go:763-774 | Counting out keeps the invariant; the entry deleted by key is the client's own lock, and it is deleted exactly when nobody else uses it |
| LockTable.Table.Enter | internal/grants/service.go:754-762 | The live table finds or makes the entity's lock and counts the client in |
| LockTable.Table.Lock | internal/grants/service.go:754-764 | Taking a lock of an idle table leaves its client alone holding exactly that entity's lock |
| LockTable.Table.Leave | internal/grants/service.go:763-774 | The live table counts the client out and drops a lock nobody uses |
| LockTable.Table.Unlock | internal/grants/service.go:764-774 | Giving the lock back leaves the table idle |
| Filing.FileItems | internal/grants/service.go:246-290 | The filing loop files each input as `FiledItemExact` has it and collects exactly the paths some pending item asks for |
| Filing.FiledExact | internal/grants/service.go:252-290 | An item is left pending exactly when it resolves and no earlier item asks for the same path and capabilities; it then carries what resolution gave it |
| Filing.FiledItemExact | internal/grants/service.go:252-290 | Every filed item, field by field: the rules' refusal, or Duplicate exactly when an earlier input that resolves asks for the same, with the shown path and the normalized capabilities or none; else pending as it resolved |
| Filing.SanitizedExact | internal/grants/rules.go:361-380 | The path shown for a refused item has no hidden character and at most 512 bytes; one without hidden characters is cut as late as possible, and not at all when it fits |
| Filing.KeyExact | internal/grants/service.go:264-272 | The duplicate key of two resolved items is equal exactly when path and capabilities are |
| Filing.MarkItems | internal/grants/service.go:292-305 | Marks exactly the pending items whose reported capabilities cover what was asked |
| AlreadyGranted.AlreadyGrantedExact | internal/grants/service.go:292-305 | When policy and store agree and no other policy of the entity gives anything on the path now, an item is marked already granted exactly when the entity's live stored grants on that path together include every requested capability, also for entities OpenBao does not know |
| AlreadyGranted.FiledFromCallToStore | internal/grants/service.go:246-317 | From the call to the store: exactly one row is inserted, with its instants; each item is refused, already granted or pending exactly as the rules, the earlier items and the live stored grants of that moment have it, reasons and all other fields included |
| AlreadyGranted.CoverExact | internal/grants/rules.go:393-403 | The reported capabilities cover a request exactly when the live stored grants do |
| Patterns.MatchPattern | internal/grants/rules.go:171-197 | Fast path and segment loop together match a path exactly when the pattern denotes it |
| Patterns.MatchesIsDenotes | internal/grants/rules.go:171-197 | For valid patterns, matching is replacing each plus by a slash-free string and a trailing star by any string |
| Patterns.SegmentsDenote | internal/grants/rules.go:176-196 | The segment-by-segment comparison alone decides denotation, with and without a trailing star |
| Patterns.AcceptedPatternsAvoidDenylist | internal/grants/rules.go:153-167 | A path matched by a pattern the configuration check accepts has no denied name, in any letter case, at a literal or named-prefix position; the first position is always one |
| Patterns.ValidPatternExact | internal/grants/rules.go:127-147 | The check by segments accepts exactly the patterns in which, character by character, a star stands only at the end and a plus only between slashes |
| Patterns.OverlapsExact | internal/grants/rules.go:153-167 | The check refuses exactly the valid patterns that open with a wildcard or match some path with a denied name, in any letter case, where they name a segment |
| Patterns.CheckDenylist | internal/grants/rules.go:153-167 | The loop over lower-cased segments finds an overlap exactly when there is one |
| Rules.ValidateRule | internal/grants/rules.go:61-99 | Accepts exactly the valid rules |
| Refusals.ValidRuleExact | internal/grants/rules.go:61-147 | A rule is valid exactly when it has a visible name, a well-formed pattern that opens with no wildcard and reaches no denied name, only grantable capabilities and at least one, no negative cap, and discovers a concrete directory whose one wildcard is in the pattern's last segment |
| Rules.CheckConcretePath | internal/grants/rules.go:274-301 | Returns the first of the path's defects, in the order they are checked |
| Refusals.ConcretePathExact | internal/grants/rules.go:274-301 | A path is concrete exactly when it has none of six written-out defects, and is refused for the first it has |
| Rules.NormalizeCapabilities | internal/grants/rules.go:303-324 | Returns the normalized list, or the first capability that cannot be granted |
| Rules.NormalizationExact | internal/grants/rules.go:303-324 | The normalized list has no repetition, only grantable names, and exactly the trimmed lower-case forms of the input |
| Rules.NormalizationIdempotent | internal/grants/rules.go:303-324 | A stored list normalizes to itself |
| Refusals.CapabilitiesExact | internal/grants/rules.go:303-324 | Normalizing yields exactly the capabilities whose names the texts are, in any letter case between white space; or names the first text that is none of them |
| Refusals.ColumnRoundTrip | internal/store/grants.go:245-246 | A normalized list joined by commas and split again is itself |
| Rules.ResolveItem | internal/grants/rules.go:201-262 | The resolution method computes the resolution function, which `Refusals.ResolutionExact` writes out |
| Rules.ResolveExact | internal/grants/rules.go:201-262 | An input is accepted exactly when it is concrete, undenied, has valid capabilities and an acceptable lifetime, and some matching rule covers it with a cap of at least that lifetime; the cap returned is the largest |
| Refusals.ResolutionExact | internal/grants/rules.go:201-272 | Under a valid policy an input is accepted, with all fields of the answer, or refused for exactly the first reason that applies: path defect, capability, denied segment, lifetime, no rule denoting the path, none naming every capability, or a lifetime over the largest cap |
| Refusals.DeniedExact | internal/grants/rules.go:328-336 | A path is denied exactly when some segment is, up to letter case, sys, auth, identity or cubbyhole; the first such segment is reported |
| Refusals.AcceptedPathsUndenied | internal/grants/rules.go:213-215 | No accepted path has a segment of a denied name, in any letter case |
| Rules.MoreRulesNeverHurt | internal/grants/rules.go:236-262 | Adding rules never turns an acceptance into a refusal nor shortens a lifetime or a cap |
| Rules.OrderIndependent | internal/grants/rules.go:236-262 | Refusal, lifetime and cap do not depend on the order or repetition of rules |
| Rules.AcceptedLifetime | internal/grants/rules.go:252-272 | Under a validated policy every accepted item lives at least one second and at most its cap |
| Wakeups.NoLostWakeUp | internal/grants/service.go:778-794 | In every interleaving, a long poll parked on an open channel, or a stream parked on an empty one-slot buffer, has read a state with every change whose notification has completed |
| Wakeups.ChangeSignal.Notify | internal/grants/service.go:789-794 | Every channel handed out before is closed, and a new open one takes its place |
| Wakeups.EventBus.Publish | internal/api/events.go:28-37 | Fills every subscriber's one-slot buffer, full ones staying full |
| Wakeups.LongPoll | internal/grants/service.go:323-351 | Answers at once when nothing is pending; else with the first snapshot in which some item has another state than at first, or with the last one when the wait ends |
| Wakeups.WatchGrantRequest | internal/api/grant.go:49-94 | Sends the snapshots without consecutive repetitions, ends normally exactly after dealing with a state with nothing pending, and breaks only on a failed read, send or wait |
| Wakeups.DistinctEnds | internal/api/grant.go:66-80 | Two consecutive messages differ, the last one sent is the last one read, and each read adds at most one message to those sent before |
| Wakeups.ViewExact | internal/api/convert.go:58-93 | What is shown of each item, field by field, the deadline or the expiry included |
| Wakeups.DifferenceIsShown | internal/api/grant.go:76-85 | A change of any item's state changes what is shown, so that it is sent |
| Announcements.AnnouncedExactlyOnce | internal/grants/service.go:699-719 | Over any run of sweeps with failing queries: no grant is announced twice, and one committed before its expiry whose expiry is swept is announced exactly once, unless it was revoked at the sweep that passed it |
| Announcements.Announcer.AnnounceExpiredGrants | internal/grants/service.go:699-719 | Announces exactly the window since the last successful sweep, and moves the window only on success |
| Discovery.DiscoveredPaths | internal/grants/discover.go:114-128 | Returns a strictly ascending list of exactly the expansions of keys not ending in a slash that match, are concrete and undenied; only the directory itself, from an empty key, can end in a slash |
| Discovery.FolderOfferedExact | internal/grants/discover.go:114-128 | The catalog has a path ending in a slash exactly when an empty key is listed and the directory itself is requestable |
| Discovery.EmptyKeyOffersFolder | internal/grants/discover.go:119-121 | That happens: an empty key under `kv/+` offers `kv/` |
| Discovery.OfferedIsAccepted | internal/grants/discover.go:114-128 | Every offered path, asked for with the rule's capabilities and no lifetime, is accepted under any policy holding that validated rule |
| Discovery.UnofferedIsRefused | internal/grants/discover.go:114-128 | Under that rule alone, an expansion that is no folder and is not offered is refused |
| Printers.ResolveMappings | cmd/bao-cred/utils.go:54-81 | Succeeds exactly when names are distinct and every path looks up a NUL-free scalar, and then pairs each name with its value |
| Printers.RenderShell | cmd/bao-cred/utils.go:192-200 | The loop writes one export line per value |
| Printers.ShellRoundTrip | cmd/bao-cred/utils.go:192-200 | Reading the exports by the quoting rules of sections 2.2.2 and 2.2.3 of POSIX.1-2017 Shell Command Language gives back names and values |
| Printers.RenderDotenv | cmd/bao-cred/utils.go:181-190 | The loop writes one line per value |
| Printers.DotenvRoundTrip | cmd/bao-cred/utils.go:181-190 | Reading the lines one by one and undoing the escapes gives back names and values |
| Printers.SplitPath | cmd/bao-cred/utils.go:262-304 | The scanner over flags and builders computes the segments of an escaped path, or its error |
| Printers.SplitPathExact | cmd/bao-cred/utils.go:262-304 | Splitting succeeds exactly on paths that spell a non-empty list of non-empty segments, a backslash making any character literal, and gives that list |
| Printers.SplitPathRoundTrip | cmd/bao-cred/utils.go:262-304 | Splitting undoes the escaping of dots and backslashes for every non-empty list of non-empty segments |
| Durations.FormatDuration | web/src/utils.ts:7-16 | The loop that decrements the remainder yields the nonzero hours, minutes and seconds |
| Durations.ParseDuration | web/src/utils.ts:19-28 | Accepts exactly texts that, trimmed, are digit-and-unit groups whose sum is positive and a safe integer |
| Durations.ParsedExact | web/src/utils.ts:19-28 | A text is parsed exactly when it spells counts with units between white space with a positive safe sum, and to that sum |
| Durations.FormattedExact | web/src/utils.ts:7-16 | A positive duration is written as its hours, minutes under sixty and seconds under sixty, zero ones omitted |
| Durations.DurationRoundTrip | web/src/utils.ts:7-28 | Parsing a formatted duration gives its seconds back, up to the safe-integer bound |

## Left out

- HTTP, Connect handlers, cookies, sign-in, push delivery, the notifier, the React app, the plugin and the mint CLI: plumbing over libraries.
- Encryption, fingerprints, SQL text and the JSON encoding of items: a stored value comes back unchanged but for the millisecond floor; the foreign key of the grants table is not stated, since every grant's request exists in every reachable store.
- The HCL text of a policy: the document is its list of blocks and its expiry.
- Random IDs are given: the item IDs of a new request are taken as fresh when it is inserted; request and grant IDs are arbitrary, and the tables' uniqueness constraints decide. An ID that cannot be drawn is a failing call of the store.
- The reason text of a request, the Requester's display data, error wording and logging.
- Unicode tables: hidden characters are an arbitrary set; lower-casing maps the letters whose lower-case form is an ASCII letter and fixes all others, which only shows in the text of a refusal; invalid UTF-8 does not occur in a sequence of characters.
- `time.ParseDuration`: a lifetime text arrives as absent, unparsable, or a number of nanoseconds.
- Outside edits of policies by operators while the service runs, several processes on one database, and crashes; the repository states the single-process assumption.
- Calls that fail and yet take effect: a failing call changes nothing, as in the repository's fake.
- Service.GrantService.Decide: the live methods are called one after another, so a lock is never waited for; their interleavings are the step machine's and LockRefinement's. `calm` stands for surroundings in which no call fails and the clock stands still during a call. The notifications after a success are not modelled.
- Service.GrantService.Revoke: the same.
- OpenBao.Server.CapabilitiesSelf: a token stands for its entity; an unknown token is a failing call.
- Service.GrantService.CreateRequest: the contract asks for IDs not in use, which stands for random IDs.
- Wakeups.LongPoll: the snapshots read and the outcomes of waiting are given; that the channel is taken before the read, and when a wait ends, is the subject of NoLostWakeUp.
- Wakeups.WatchGrantRequest: heartbeats, and what ends a wait, are given as the outcomes of waiting.
- Discovery.DiscoveredPaths: listing OpenBao, its errors and the catalog's cache are not modelled.
- Printers.ResolveMappings: the traversal of the credential data and the text of scalars are a lookup function.
- Printers.ShellRoundTrip: only quoting is read back, not the shell's expansions, which single quotes switch off.
