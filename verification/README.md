# Grant reconciliation of the Zitadel RBAC mapper, verified

The service watches logins and runs batch syncs. For each it asks an org's directory for a user's groups, maps them
through the org's rules to the project roles the user should hold, and changes the user grants stored in Zitadel until
they match. This project models that engine in Dafny and proves what it promises, for every order in which Go ranges
over a map, every way an API call can end, every number of pages, and every interleaving of the syncs of one process.

## How the model is laid out

| file | contents |
|---|---|
| `Wrappers.dfy`, `FreshIds.dfy` | options, and ids outside any finite set |
| `Strings.dfy`, `Roles.dfy` | Go's string order, sorting, `rolesEqual` |
| `Mapper.dfy`, `MapperLaws.dfy` | the rule engine: its loops against a set specification, and the laws of that specification |
| `Paging.dfy` | limit/offset page loops against a stable list |
| `Store.dfy` | the grant table, one user's grants by project, the target of a Sync, disagreement |
| `SyncMachine.dfy`, `SyncProof.dfy`, `SyncTheorems.dfy` | `Sync` one API call at a time, its invariant, its theorems |
| `AnyStore.dfy` | what `Sync` does from any grants, also with two grants on one project |
| `Syncer.dfy` | `Sync` as code over a mutable table; its contract places each run of the code in the machine |
| `UserLocks.dfy`, `Serialisability.dfy` | any number of Syncs interleaved at single calls under the per-user locks |
| `Repeats.dfy`, `Liveness.dfy` | concurrent Syncs that want the same; that every activation can still return |
| `Planner.dfy` | `Desired`, `RoleEntries`, `mergeClaimEntries` and the claim |
| `Entitlement.dfy` | what a user is entitled to, said once from rules, groups and catalog answers; plan, claim and synced grants are exactly that |
| `Pruning.dfy` | exactly which grants a planned Sync removes |
| `Webhook.dfy` | the login handler's sync decision and answer |
| `Batch.dfy`, `BatchLaws.dfy` | the two-phase batch run, its counters, order independence, isolation of a failing org |
| `Outcomes.dfy` | what a login and a batch run come to, from their inputs alone |
| `Runs.dfy` | whole histories and whole interleavings of logins and batch runs |
| `Catalog.dfy`, `CatalogLayers.dfy`, `CatalogLaws.dfy` | the two-layer catalog cache, its refinement by one cell per layer, and its laws |
| `KeySet.dfy` | the JWK Set cache |
| `Bulkhead.dfy` | the resolver registry and its concurrency bound |

**Uncontrolled inputs are inputs.** An action of `SyncMachine` names the next call together with the key the map
iteration yields, the id the server picks and the outcome: done, rejected, or *lost* (an error although the server
applied the write). A catalog lookup or a key-set call carries its clock readings and the answers of its fetches. A
statement about all action sequences, lookups or calls is therefore a statement about all environments. The order in
which the server lists a user's grants is an arbitrary enumeration (`SyncMachine.ListersExist` shows there are such).

**Loops stay loops.** Methods keep the source's control flow and are proved equal to a specification function; the
lemmas are about that function. `Syncer.Syncer.Sync`, `Batch.All` and `Webhook.HandleLogin` return a ghost trace and
prove that the table they leave is the one the machine reaches by that trace, so the theorems about the machine hold
of the methods.

**One reference definition.** `Entitlement.Entitled` says what a user is entitled to in terms of the rules' groups and
users, their roles and patterns and the catalog's answers; no modelled operation uses it. The rule engine, the plan, the
claim, a returned Sync, a login and a batch run are each proved to come to exactly that.

**At most one grant per project.** `Sync` indexes the listed grants by project and the last one wins, so a second grant
on a project is invisible to it. Where a statement needs uniqueness it is a precondition on the initial table, and the
steps preserve it. `SyncTheorems.CleanExactlyWhenUnique` shows that it is exactly the condition under which one Sync
suffices, and `SyncTheorems.DuplicatesSurvive` that from every other store a Sync returns and leaves wrong grants.
Termination, the authority and rule theorems, the write discipline and the size account need no uniqueness.

## Where the code departs from its documentation

The model follows the code; each departure is a lemma.

- The runbook says that a failed resolution prunes nothing (`docs/operations/runbook.md:57-59`) and that the webhook
  never prunes on a zero-group resolution (`docs/operations/runbook.md:90-93`). The handler turns a failure into an
  empty list (`pkg/server/zitadel_handler.go:499-508`), and a user whom a rule names passes the gate with that list. A
  zero-group login leaves grants alone exactly when no rule names the user: `Webhook.ZeroGroupsInertExactly`, with a
  concrete login in `Webhook.FailedResolutionCanPrune`.
- The batch run has the same exception to "zero groups: user skipped" (`docs/operations/runbook.md:115-118`,
  `pkg/reconcile/reconcile.go:249-251`): unforced, it leaves such a user alone exactly when no rule names the user, and
  otherwise prunes to what the naming rules give: `BatchLaws.EmptyUserInertExactly`.
- The JWT package promises one unknown-key refetch per minimal interval (`pkg/zitadeljwt/jwt.go:10-12`). A failed fetch
  does not move the time stamp, so a refetch is limited exactly when the previous one succeeded:
  `KeySet.RefetchLimitedExactly`, `KeySet.FailuresAreNotSpaced`, with a concrete run in `KeySet.HammeredWhileDown`.
- The failure backoff is meant to keep a failing API from being asked by every request
  (`pkg/catalog/catalog.go:56-65`). A layer that has never been filled, an org's listing or one owned project, is asked
  every time: `CatalogLaws.BackoffExactlyWhenWarm`, `CatalogLaws.ColdAttemptsUnbounded`.
- A failing catalog is meant to serve the last known truth (`docs/architecture/role-catalog.md:57-59`). A failed name lookup
  does not count as a failure: it replaces a known name by the empty one for a whole TTL. Roles keep their bound whatever
  the name lookups do (`CatalogLaws.RolesShowWithinTtl`); a known name is lost exactly when the name lookup of a successful
  roles fetch fails: `CatalogLaws.NameLostExactly`, with a concrete run in `CatalogLaws.NameLost`.
- Pruning is said to need rule matches that no longer cover the grant (`docs/operations/runbook.md:109-111`). A matching rule
  that lists patterns only covers nothing while its project's lookup fails, and the grant goes:
  `Pruning.RemovesExactlyUncovered`, with a concrete user in `Pruning.CoveredGrantRemoved`.
- `rolesEqual` joins sorted keys with commas; keys that contain a comma can collide. It is right for all lists over an
  alphabet exactly when the comma is not in it: `Roles.RolesEqualExact`, `Roles.CommaCollision`.
- The isolation design bounds the resolver calls in flight per org (`docs/architecture/isolation.md:34`). The bound holds
  per resolver instance; a configuration change replaces the instance while its calls run on. An org stays within its
  bound exactly when no call is in flight on a replaced instance: `Bulkhead.OrgBoundExactly`, with a concrete run in
  `Bulkhead.RebuildExceedsOrgBound`.

## Model

| member | source | states |
|---|---|---|
| `SyncTheorems.Convergence` | pkg/grantsync/syncer.go:153-248 | From at most one grant per project, a Sync that returns leaves exactly one grant per desired project (last entry wins) with the desired roles and none elsewhere; survivors keep id and project grant, new grants carry the desired one; other users and orgs are untouched; the counters are the numbers of missing, differing and unwanted projects |
| `SyncTheorems.EveryWriteSettlesOne` | pkg/grantsync/syncer.go:176-247 | At every moment of every run, writes made plus projects still wrong equals projects wrong at the start; on return Added+Updated+Removed is the initial disagreement; the table grows and shrinks by the adds and removals |
| `SyncTheorems.OldOrWanted` | pkg/grantsync/syncer.go:176-247 | Stopped anywhere by any failure, each project is at its old or its desired value, uniqueness holds, and nothing else changed |
| `SyncTheorems.Resumption` | pkg/grantsync/syncer.go:146-153 | A Sync stopped anywhere followed by one that returns ends where the first was headed, and both together make exactly the writes one would have made |
| `SyncTheorems.SecondSyncWritesNothing` | pkg/grantsync/syncer.go:146-153 | After a returned Sync the same Sync makes no write, wherever it stops |
| `AnyStore.ErrorsComeFromCalls` | pkg/grantsync/syncer.go:153-248 | A Sync all of whose calls are served does not fail, whatever the store |
| `AnyStore.ActionsAdvance` | pkg/grantsync/syncer.go:326-350 | From any store, each call or visited key strictly decreases pages plus keys still to come |
| `AnyStore.ServedSyncReturns` | pkg/grantsync/syncer.go:153-248 | From any store and any point reached without an error there is a continuation of served calls that returns |
| `AnyStore.WritesAreWanted` | pkg/grantsync/syncer.go:179-245 | From any store, wherever the run stops: each write adds a wanted grant, sets the wanted roles on a grant of a wanted project or removes one of an unwanted project; the table's size follows the writes; on return the counters are the writes |
| `SyncTheorems.CleanExactlyWhenUnique` | pkg/grantsync/syncer.go:164-168 | A returned Sync leaves exactly the desired grants if and only if the user started with at most one grant per project |
| `SyncTheorems.DuplicatesSurvive` | pkg/grantsync/syncer.go:164-168 | From every store with two grants of the user on one project there is a fully served Sync that returns and leaves wrong grants |
| `SyncTheorems.SecondGrantSurvives` | pkg/grantsync/syncer.go:226-245 | Of a concrete user with two grants on one project and nothing desired, a served Sync returns and leaves a grant |
| `SyncProof.StepInv` | pkg/grantsync/syncer.go:179-245 | Every single call, served or failed, keeps the Sync invariant: settled and pending projects, listed ids, counters, other users' grants |
| `Store.WantOfLastWins` | pkg/grantsync/syncer.go:170-174 | The desired index holds the last entry of each project |
| `Syncer.Syncer.Sync` | pkg/grantsync/syncer.go:153-248 | The code's run is a complete run of the machine with the same table, counters and error; if it returns on unique grants they are exactly the desired ones and all others are as before |
| `Syncer.Syncer.ListUserGrants` | pkg/grantsync/syncer.go:319-353 | Returns the user's whole list in order, through full pages to the first short one, or fails with the page that failed |
| `Syncer.Syncer.IndexExisting` | pkg/grantsync/syncer.go:164-168 | The index of listed grants, last one per project winning |
| `SyncMachine.IndexIsLast` | pkg/grantsync/syncer.go:164-168 | The index holds for each project the grant listed last |
| `Syncer.Syncer.IndexDesired` | pkg/grantsync/syncer.go:170-174 | The index of desired grants, last one per project winning |
| `Syncer.Syncer.WriteDesired` | pkg/grantsync/syncer.go:178-224 | The add-or-update loop, in any key order, advances the machine from nothing visited to every desired project visited, or to the failure it returns |
| `Syncer.Syncer.RemoveUnwanted` | pkg/grantsync/syncer.go:226-245 | The removal loop takes the machine to its return with the counters it reports, or to the failure |
| `Roles.RolesEqualIsMultisetEquality` | pkg/grantsync/syncer.go:356-369 | If either list is comma-free, the comparison holds exactly for equal multisets |
| `Roles.RolesEqualExact` | pkg/grantsync/syncer.go:356-369 | Over an alphabet the comparison decides multiset equality for all lists if and only if the comma is not in the alphabet |
| `Roles.CommaCollision` | pkg/grantsync/syncer.go:368 | Two different strictly sorted lists without empty keys that compare as equal |
| `Serialisability.Serialisable` | pkg/server/server.go:60-76 | In every interleaving, while a user's lock is free the user's grants are those of its Syncs run one after another in lock order |
| `Serialisability.MutualExclusion` | pkg/server/server.go:64-76 | No two activations are ever inside the lock of the same user, although mutexes are created lazily and looked up again on unlock |
| `Serialisability.IdentityKept` | pkg/server/zitadel_handler.go:217-221 | An activation stays about the user and org it arrived for, and its Sync wants what it set out to want |
| `Serialisability.StepLocal` | pkg/grantsync/syncer.go:179-245 | A call of a Sync reads and changes its own user's grants only |
| `Serialisability.WorldStep` | pkg/server/zitadel_handler.go:217-221 | Every step of every thread keeps the lock invariant and each user's serial account |
| `Serialisability.AtMostOneAlways` | pkg/reconcile/reconcile.go:393-397 | Every step of every interleaving keeps at most one grant per org, user and project |
| `Serialisability.EveryTurnRunning` | pkg/server/zitadel_handler.go:217-221 | Each activation, finished or not, is an uninterrupted run from the grants its predecessors left |
| `Liveness.NoDeadlock` | pkg/server/server.go:64-76 | In every reachable world with an activation that has not returned, some activation can go on, with a served call if it makes one |
| `Liveness.EveryoneReturns` | pkg/server/server.go:64-76 | From every reachable world, whatever failed and whatever the waiting activations will want, a continuation without arrivals and failing calls lets every activation return |
| `Repeats.RepeatsAddNothing` | pkg/grantsync/syncer.go:146-153 | Serial repetitions of one Sync, with Syncs of the same user in other orgs in between, together make the writes of the first |
| `Repeats.ConcurrentRepeatsConverge` | pkg/grantsync/syncer.go:146-153 | Concurrent Syncs with the same desired grants, failed and unfinished ones too, and any Syncs of the user in other orgs: at every moment their writes plus the projects still wrong equal the projects wrong at first, and the target has not moved |
| `Repeats.ConcurrentIdenticalSyncs` | tests/integration/concurrency_test.go:12-97 | Any number of concurrent identical Syncs that return, with any Syncs of the user in other orgs in between, make together the adds, updates and removals of exactly one, and the grants end at its target |
| `Strings.SortedKeys` | pkg/mapper/rules.go:150-159 | The strictly sorted list of the key set, whatever order the map yields |
| `Strings.LessIsLexicographic` | pkg/mapper/rules.go:156 | The order of the sorts is lexicographic: at the first difference the smaller character decides, and a proper prefix comes first |
| `Mapper.MapIdentity` | pkg/mapper/rules.go:63-106 | The nested accumulation, the walk in arbitrary order and the sort compute the aggregate of the matching rules' grants |
| `Mapper.AddGrants` | pkg/mapper/rules.go:78-91 | The inner loops add one rule's grants to the per-project role and pattern sets |
| `Mapper.Collect` | pkg/mapper/rules.go:94-105 | The walk over the accumulated map in any order yields, after the sort, one entry per project |
| `Mapper.ExpandRoles` | pkg/mapper/rules.go:123-148 | The sorted union of the explicit roles and the available unprotected roles matching some pattern |
| `MapperLaws.AnswerMeaning` | pkg/mapper/rules.go:59-106 | The answer has, strictly sorted, exactly the projects of matching rules, each with exactly the roles and patterns those rules list for it |
| `MapperLaws.AnswerSpelledOut` | pkg/mapper/match.go:7-20 | A project, role or pattern is in the answer if and only if a rule's grant lists it and that rule's own non-empty group is among the user's or the non-empty email folds to one of its users |
| `MapperLaws.UnnamedGroupsIrrelevant` | pkg/mapper/match.go:8-12 | Groups no rule names make no difference |
| `MapperLaws.OrderIrrelevant` | pkg/mapper/rules.go:59-62 | Permuting or repeating rules or groups, or changing the email's case, leaves the answer unchanged |
| `MapperLaws.Monotone` | pkg/mapper/rules.go:63-106 | More rules or groups never remove a project, role or pattern |
| `MapperLaws.ConcatenationIsUnion` | pkg/mapper/rules.go:63-106 | Concatenated rule lists answer the project-wise union |
| `MapperLaws.ClosedGateGrantsNothing` | pkg/server/zitadel_handler.go:592-597 | Where the gate is closed the rule engine answers nothing, so skipping withholds no grant |
| `MapperLaws.NamedIffMatches` | pkg/mapper/match.go:7-36 | For a non-empty email, being named is the same as some rule matching without groups; an empty email matches no rule |
| `MapperLaws.ProtectedOnlyExplicit` | pkg/mapper/rules.go:117-120 | A protected role in an expansion is listed explicitly by a matching rule for that project |
| `Planner.DesiredGrants` | pkg/reconcile/reconcile.go:59-105 | The planning loop computes the plan and drops grants without roles |
| `Planner.DesiredGrant` | pkg/reconcile/reconcile.go:73-94 | A failed lookup keeps explicit roles only, a successful one expands and sets the project grant, no catalog expands against nothing |
| `Planner.RoleEntries` | pkg/reconcile/reconcile.go:113-154 | The entry loop computes the entries of the projects with a successful lookup and a name |
| `Planner.ProjectEntries` | pkg/reconcile/reconcile.go:131-151 | One project's entries, none without an answer or a name |
| `Planner.ClaimAgreesWithGrants` | pkg/reconcile/reconcile.go:107-112 | With the same catalog answers the claim entries are the flattening of the desired grants as name:role over projects with a known name; without a catalog there are none |
| `Planner.PlanDiscipline` | pkg/reconcile/reconcile.go:52-102 | A desired grant is never empty, is for a project a matching rule mentions, and holds a protected role only if a matching rule lists it for that project |
| `Entitlement.PlannedGrantExactly` | pkg/reconcile/reconcile.go:73-102 | A planned grant has exactly the roles the user is entitled to on its project, each once and sorted, and the project grant the catalog answered, none without an answer |
| `Entitlement.PlannedProjectsExactly` | pkg/reconcile/reconcile.go:96-101 | A project is planned if and only if the user is entitled to some role on it |
| `Entitlement.PlanByProject` | pkg/reconcile/reconcile.go:69-104 | One planned grant per project, sorted by project |
| `Entitlement.EntriesExactly` | pkg/reconcile/reconcile.go:131-151 | The computed claim entries are exactly name:role for the entitled roles of projects the catalog can name |
| `Entitlement.SyncGivesEntitlement` | pkg/reconcile/reconcile.go:156-169 | A planned Sync that returns from unique grants leaves a grant exactly on the entitled projects with exactly the entitled roles, new ones under the catalog's project grant, old ones under their own |
| `Planner.ClosedGatePlansNothing` | pkg/server/zitadel_handler.go:592-597 | A closed gate means no desired grant and no claim entry |
| `Pruning.RemovesExactlyUncovered` | pkg/grantsync/syncer.go:226-245 | A planned Sync that returns removes the user's grant on a project if and only if the user is entitled to no role there |
| `Pruning.CoveredGrantRemoved` | pkg/reconcile/reconcile.go:79-99 | A concrete user whose groups match a pattern-only rule loses the grant while the catalog is cold and failing |
| `Planner.MergeClaimEntries` | pkg/server/zitadel_handler.go:422-451 | The sorted duplicate-free union; added is its size minus the number of distinct base groups |
| `Planner.AssembleClaim` | pkg/server/zitadel_handler.go:223-262 | The one or two merges of groups, payload entries, computed entries and employee entry equal one sorted duplicate-free union; without flags the claim is the group list itself |
| `Webhook.HandleLogin` | pkg/server/zitadel_handler.go:155-294 | The handler runs exactly the Sync the login calls for, or touches nothing; it answers the assembled claim, the enrichment of an opted-in machine user, or nothing when fail-closed or suspended |
| `Webhook.MachineAnswer` | pkg/server/zitadel_handler.go:344-397 | The synthetic email and the sorted entries of the payload, or of the API when the payload has none, or none when that lookup fails |
| `Outcomes.LoginSyncsExactly` | pkg/server/zitadel_handler.go:155-221 | A login syncs if and only if it is a person's with a user id in a configured resolver org with rules, of whom the directory said suspended or gave groups, or whom a rule names |
| `Outcomes.LoginOutcome` | pkg/server/zitadel_handler.go:199-221 | When the login's Sync returns from unique grants, a suspended user holds nothing in the org and everyone else exactly the entitlement of the address and the directory's groups |
| `Outcomes.AnswerExactly` | pkg/server/zitadel_handler.go:223-294 | The answer by membership: groups unless only roles are asked for, payload entries and one entry per entitled role if asked for, the employee entry; the machine enrichment; nothing for everyone else |
| `Webhook.GateIsAuthority` | pkg/server/zitadel_handler.go:205-221 | A login syncs if and only if it reaches the resolver, has a user id, and the directory said suspended, gave groups, or a rule names the user |
| `Webhook.ZeroGroupsInertExactly` | pkg/server/zitadel_handler.go:487-515 | A zero-group login leaves grants alone, for every table and every outcome of its calls, if and only if no rule names the user |
| `Webhook.FailedResolutionCanPrune` | pkg/server/zitadel_handler.go:499-508 | A concrete login with a failed resolution that changes grants |
| `Webhook.FailedResolutionSyncsNamedUsers` | pkg/server/zitadel_handler.go:212-221 | After a failed resolution exactly the users a rule names are synced, and to what they get without groups |
| `Webhook.FailedResolutionPrunes` | pkg/server/zitadel_handler.go:492-508 | After such a Sync every remaining grant is on a project that a rule naming the user grants |
| `Batch.All` | pkg/reconcile/reconcile.go:258-427 | The code aborts exactly above the ratio of empty answers, writing and counting nothing; otherwise it reconciles every pending user and leaves the table and counters of the specification |
| `Batch.AbortsExactly` | pkg/reconcile/reconcile.go:316-335 | A run aborts if and only if it is unforced, someone is pending, and the users with no groups and no suspension exceed the configured share of the pending ones |
| `Batch.ResolveAll` | pkg/reconcile/reconcile.go:263-314 | Phase 1 collects exactly the resolved users of configured, listable orgs with rules, and counts the empty ones |
| `Batch.ResolveOrg` | pkg/reconcile/reconcile.go:288-313 | One org's users with an address and a successful resolution, in order, with the count of empty ones |
| `Batch.ReconcileAll` | pkg/reconcile/reconcile.go:337-414 | Phase 2 leaves the table and counters of the pending users reconciled in order |
| `Batch.ReconcileUser` | pkg/reconcile/reconcile.go:340-414 | One pending user: prune, skip or sync, with each exit's counters |
| `BatchLaws.EveryUserCounted` | pkg/reconcile/reconcile.go:373-413 | Processed, skipped, pruned and failed add up to the pending users; skipped ones are among the empty ones; force skips none |
| `BatchLaws.CountersExactly` | pkg/reconcile/reconcile.go:347-413 | Whatever fails, the counters are the sum over the pending users of a failure, a skip, or the adds, updates and removals their grants before the run call for |
| `Outcomes.PendingExactly` | pkg/reconcile/reconcile.go:269-313 | Pending are exactly the users with an address and an answer in configured listable orgs with rules, with the org's rules and the directory's answer |
| `Outcomes.PendingNumber` | pkg/reconcile/reconcile.go:288-313 | Each such line of an org is pending once |
| `Outcomes.RunGoesAheadExactly` | pkg/reconcile/reconcile.go:316-340 | At or below the share, or forced, a run reconciles and counts every pending user; above it writes and counts nothing |
| `Outcomes.BatchOutcome` | pkg/reconcile/reconcile.go:340-414 | A pending user whose turn was skipped or returned holds nothing if suspended, the old grants if unforced without groups and unnamed, and otherwise exactly the entitlement |
| `BatchLaws.RunAccounting` | pkg/reconcile/reconcile.go:316-335 | A completed run accounts for every pending user and, unforced, skips at most the configured share; an aborted run leaves the grants as they were |
| `BatchLaws.SizeAccounting` | pkg/reconcile/reconcile.go:410-413 | From any store, when no Sync fails, size after plus removed equals size before plus added |
| `BatchLaws.RunKeepsAtMostOne` | pkg/reconcile/reconcile.go:340-414 | A batch run keeps at most one grant per org, user and project, whatever fails |
| `BatchLaws.Phase2IsSerial` | pkg/reconcile/reconcile.go:340-414 | Phase 2 is a serial run of Syncs each called for by a pending user |
| `BatchLaws.FailuresAreIsolated` | pkg/reconcile/reconcile.go:347-414 | Whatever fails, each pending user ends between the grants held before the run and that user's target, at the target if the user's own Sync returned; the grants of users who are not pending stay |
| `BatchLaws.RunReachesTargets` | pkg/reconcile/reconcile.go:340-414 | The corollary for a run without failures: every pending user ends at the target |
| `BatchLaws.TotalsAreShares` | pkg/reconcile/reconcile.go:410-413 | Without failures the counters are the sum of each pending user's own share, computed from the grants before the run |
| `BatchLaws.OrderIndependent` | pkg/reconcile/reconcile.go:264-414 | Visiting the orgs in another order and each org's users in another order gives the same abort decision, the same counters and the same grants of every user |
| `BatchLaws.SamePendingUsers` | pkg/reconcile/reconcile.go:337-414 | Two runs over the same pending users in any two orders agree in the same way |
| `BatchLaws.PermutedOrgs` | pkg/reconcile/reconcile.go:269-314 | Permuting the orgs permutes the pending users |
| `BatchLaws.PermutedUsers` | pkg/reconcile/reconcile.go:288-313 | Permuting an org's users permutes its pending users |
| `BatchLaws.DeadOrgIsAbsent` | pkg/reconcile/reconcile.go:256-303 | A run where one org cannot be listed, is unconfigured, or has every resolution fail equals the run without that org |
| `BatchLaws.SkippedPlansNothing` | pkg/reconcile/reconcile.go:379-391 | A skipped user has no desired grant and no claim entry, whatever the catalog answers |
| `BatchLaws.EmptyUserInertExactly` | pkg/reconcile/reconcile.go:379-391 | An unforced run leaves a zero-group user alone, for every table and every outcome of its calls, if and only if no rule names the user |
| `Runs.EventsAreTheCode` | pkg/reconcile/reconcile.go:258-427 | An event of a history does to the grants what the login handler or the batch run does |
| `Runs.EventNeedsAuthority` | pkg/server/zitadel_handler.go:205-221 | One event changes a user's grants in an org only if in that event the directory reported the user suspended, gave groups, or a rule names the email, or a forced run had any answer for the user |
| `Runs.GrantsChangeOnlyOnAuthority` | pkg/reconcile/reconcile.go:340-414 | Across any logins and batch runs, grants change only if some event had that authority |
| `Runs.ConcurrentAuthority` | pkg/reconcile/reconcile.go:340-414 | The same at every moment of every interleaving of the events' Syncs at single calls |
| `Runs.NoRulesNoChange` | pkg/reconcile/reconcile.go:269-273 | Grants in an org that is unconfigured or has no rules never change, in forced runs neither |
| `Runs.ConcurrentNoRules` | pkg/server/zitadel_handler.go:212-217 | The same at every moment of every interleaving |
| `Runs.SyncIsDisciplined` | pkg/grantsync/syncer.go:179-245 | From any store, each write of an issued Sync is as the event calls for: adds and updates set exactly the entitled roles, adds the catalog's project grant, removals only without entitlement or for a suspended account |
| `Runs.WritesAreDisciplined` | pkg/reconcile/reconcile.go:79-102 | The same for every write of every login or batch run, forced or not, anywhere in a history |
| `Runs.ConcurrentDiscipline` | pkg/reconcile/reconcile.go:79-102 | The same for every activation, finished or not, of every interleaving |
| `Runs.HistoryAtMostOne` | pkg/grantsync/syncer.go:164-168 | Histories keep at most one grant per org, user and project |
| `Paging.ListUsers` | pkg/grantsync/syncer.go:257-308 | Returns the whole list in order with the user name standing in for a missing email, or fails exactly when a needed page does, including the empty page after an exact multiple of 100 |
| `Paging.FetchGranted` | pkg/catalog/catalog.go:234-268 | Returns the last-wins map over the whole list, or fails exactly when a needed page does |
| `Paging.GrantedMapIsLast` | pkg/catalog/catalog.go:251-258 | The map holds the listed projects, each with the id, name, grant id and roles it was listed with last |
| `Paging.FetchOwnedRoles` | pkg/catalog/catalog.go:294-325 | Returns the whole list in order, or fails exactly when a needed page does |
| `Catalog.Catalog.Project` | pkg/catalog/catalog.go:148-217 | One lookup changes the cache by one step of the specification and answers or fails as it says |
| `CatalogLaws.RetryBound` | pkg/catalog/catalog.go:56-65 | However many lookups arrive and however fetches fail, n attempts on a filled layer span at least (n-1) times the smaller of TTL and 30 s |
| `CatalogLaws.AttemptsSpread` | pkg/catalog/catalog.go:163-214 | Consecutive attempts on a filled layer are at least that far apart |
| `CatalogLaws.BackoffExactlyWhenWarm` | pkg/catalog/catalog.go:160-214 | For either layer: after a failed refresh and any lookups that make no attempt on the layer, the next one that comes to it within 30 s leaves it alone if and only if it had been filled |
| `CatalogLaws.ColdLayerHasNoBackoff` | pkg/catalog/catalog.go:163-199 | For either layer: a failing lookup that comes to an empty layer attempts the fetch and leaves the layer empty |
| `CatalogLaws.ColdAttemptsUnbounded` | pkg/catalog/catalog.go:163-199 | For either layer: any number of lookups at one instant make as many attempts |
| `CatalogLayers.OneCell` | pkg/catalog/catalog.go:160-214 | To each layer a lookup does what it would do to a single cell: which attempt it makes, and what it leaves |
| `CatalogLayers.AnswerIsCombined` | pkg/catalog/catalog.go:186-216 | The answer is the one the two layers' contents give, and the owned layer is consulted exactly when the listing lacks the project |
| `CatalogLaws.CacheIsLatest` | pkg/catalog/catalog.go:178-213 | Content and both time stamps of each cached layer are those of the run's latest fetches of that very org and project |
| `CatalogLaws.AnswersAreLatest` | pkg/catalog/catalog.go:146-217 | The answer is made of the latest successful fetches; each layer it uses was refreshed or failed just now, or its latest fetch ended at most one TTL ago, or its latest attempt in the run failed within 30 s; an error means an empty layer whose fetch failed; other orgs' entries stay |
| `CatalogLaws.CacheIsInvisible` | pkg/catalog/catalog.go:146-217 | Against an API that neither changes nor fails, the answer is that of the uncached lookup |
| `CatalogLaws.BoundedStaleness` | pkg/catalog/catalog.go:160-214 | Under arbitrary failures, for either layer and any property of its content: once successful fetches have found the property for one TTL and one fetch, a lookup that comes to the layer uses content with it, or its own refresh just failed, or the latest refresh in the run failed less than 30 s before |
| `CatalogLaws.ChangeShowsWithinTtl` | pkg/catalog/catalog.go:160-216 | So the answer of every such lookup that neither fails its refresh nor skips it because of a failure within 30 s is made of content with the property |
| `CatalogLaws.RolesShowWithinTtl` | pkg/catalog/catalog.go:190-216 | An owned project's changed roles show in time whatever becomes of the name lookups |
| `CatalogLaws.NameShowsWithinTtl` | pkg/catalog/catalog.go:190-216 | Its roles and name show in time when the name lookups of successful fetches succeed too |
| `CatalogLaws.NameIsLatest` | pkg/catalog/catalog.go:209-216 | The name held is the one looked up with the latest successful roles fetch, and empty if that lookup failed |
| `CatalogLaws.NameLostExactly` | pkg/catalog/catalog.go:209-213 | A lookup leaves a project whose name was known without one if and only if it refreshed the roles and its name lookup failed |
| `CatalogLaws.NameLost` | pkg/catalog/catalog.go:270-288 | A concrete run: the known name is replaced by the empty one without a failure stamp and served for the next TTL |
| `KeySet.Verifier.KeySetFor` | pkg/zitadeljwt/jwt.go:180-205 | One call changes the cache by one step of the specification and returns the cached set |
| `KeySet.Verifier.HoldsAll` | pkg/zitadeljwt/jwt.go:207-222 | True exactly when every signature has a non-empty key id that the set holds |
| `KeySet.CallExactly` | pkg/zitadeljwt/jwt.go:182-235 | One call spelled out: when it fetches, when a missing, empty or unknown key id makes it fetch again, and what successful and failed fetches leave |
| `KeySet.CachedIsLatest` | pkg/zitadeljwt/jwt.go:180-235 | The cached set is the latest successful fetch and never becomes empty again |
| `KeySet.NewKeyIsFound` | pkg/zitadeljwt/jwt.go:197-202 | A key published at R is in the result of a call that names it, starts at R plus the minimal refetch interval plus one fetch, and whose fetches succeed |
| `KeySet.OldKeyIsGone` | pkg/zitadeljwt/jwt.go:186-195 | A key withdrawn at R is in no result of a call that starts at R plus the refresh interval plus one fetch and whose fetches succeed |
| `KeySet.SuccessesSpread` | pkg/zitadeljwt/jwt.go:186-202 | Successful fetches are at least the smaller of both intervals apart |
| `KeySet.RefetchLimitedExactly` | pkg/zitadeljwt/jwt.go:8-12 | Within the minimal interval after a refetch and after any further calls, a call still missing a key id refetches if and only if no fetch has succeeded from that refetch on, its own periodic one included |
| `KeySet.FailuresAreNotSpaced` | pkg/zitadeljwt/jwt.go:197-202 | Once the minimal interval has passed since the last successful fetch, each of any number of failing calls at one instant that name an unknown key id makes a fetch |
| `KeySet.FailuresLeaveCache` | pkg/zitadeljwt/jwt.go:224-235 | Failing calls leave the cache as it was |
| `KeySet.HammeredWhileDown` | pkg/zitadeljwt/jwt.go:197-202 | A concrete run in which any number of calls at one instant all fetch |
| `Bulkhead.Bulkhead` | pkg/resolver/registry.go:120-155 | In every reachable state calls in flight on an instance equal its tokens and stay within its bound, and a rejected call never reaches the breaker |
| `Bulkhead.AdmittedExactly` | pkg/resolver/registry.go:127-134 | A call is admitted if and only if fewer calls than the bound are in flight on its instance |
| `Bulkhead.TokenGoesBack` | pkg/resolver/registry.go:127-130 | A returning call frees one slot of the instance that admitted it and of no other, even after a rebuild |
| `Bulkhead.OrgBoundExactly` | docs/architecture/isolation.md:34 | Whatever calls an org's present instance gets, the org stays within its bound if and only if no call is in flight on a replaced instance |
| `Bulkhead.RebuildExceedsOrgBound` | pkg/resolver/registry.go:54-68 | A concrete run with a rebuild: two calls in flight for an org whose bound is one before and after |
| `Bulkhead.Registry.For` | pkg/resolver/registry.go:48-69 | Returns the org's instance, kept exactly when the configuration is the same and otherwise a new one; other orgs keep theirs |

## Left out

- HTTP, gRPC and Fiber plumbing, request parsing, problem responses, metrics and logs: no decisions of interest.
- JWS parsing, signature and `exp` checks (section 4.1.4 of RFC 7519): library code and one comparison. Key ids of signatures (section 4.1.4 of RFC 7515) and of the key set (section 5 of RFC 7517) are plain strings.
- The circuit breaker's states: its library is not part of this model; a resolution is an arbitrary answer or failure.
- `path.Match` and case folding: parameters of every statement (`Mapper.Lib`); folding is a function to class representatives, so it is an equivalence by construction.
- Configuration parsing and refresh: configurations are inputs and stay fixed within one login or run.
- `UserOrg`, `ListUsersInOrg` beyond its page loop, `LookupProjectID`, `UserRoleEntries`, `payloadRoleEntries`: short lookups and flattenings; their results are inputs. The machine-user name pattern is a predicate of the org's configuration.
- An empty org id in `Sync`: both callers pass a configured org, so the default organisation of the service account never applies.
- An absent syncer (a nil dependency): the webhook then only answers claims.
- Cross-process races: the command-line sync has no lock and replicas share none, so serialisability is about one process and no other writer.
- UserLocks is a step model, not a class: `Lock` blocks, and a sequential method cannot express waiting. Lock order is the order of the Acquire steps; fairness is not modelled.
- Stability of listings across pages rests on the user's lock: the server's order is an arbitrary function of the user's grants, not of time.
- Catalog answers are fixed during one planning call: `Planner` takes them as a function, while the cache is proved separately in `CatalogLaws`.
- Org and owned-project entries of the catalog are values in the cache map, not heap objects; sharing by reference is not modelled, and all access is under one mutex.
- Refresh deadlines: a fetch that exceeds its deadline is a failed fetch.
- The empty ratio is a real number, not a float64: rounding at the threshold is not modelled.
