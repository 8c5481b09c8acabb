# Verification of the Kloigos control plane

Kloigos hands out *compute units* (a CPU set, memory and storage of a host) to *allocations* (a login
user with a durable address). Four tables - servers, compute units, allocations, IP pool - are changed by
API handlers and queued jobs. No transaction spans a handler: each issues single SQL statements and
compensates by hand. This project models those handlers statement by statement and proves what they keep
over whole runs.

| files | what they hold |
|---|---|
| `Tables`, `Repository` | the tables with their keys, partial indexes and ON DELETE rules; one method for each SQL statement |
| `Allocations`, `Workers`, `Administration` | the services and jobs as methods over the repository, each with its net outcome |
| `Answers`, `LoginNames` | the same operations over the tables alone: each reply with its condition, each stored value; the rule for login users written out |
| `Protocol` | the state machine, the invariant, and the guards that the code leaves to its callers |
| `ProtocolLocal` ... `ProtocolAllocate` | each step keeps the invariant: a frame for steps on one allocation, another for steps on servers and pool |
| `ProtocolRuns`, `ScaleRequests`, `Lifecycle`, `ServerLifecycle`, `LoginRuns`, `Recovery`, `Constraints` | results over runs: isolation, migration, what a scale request ends in, conservation, the lives of allocations and hosts, login users, recoverability, no constraint hit |
| `Rollback`, `Guards`, `Scenario`, `Claims`, `LateClaims` | exact conditions for rollback and guards, a concrete run, the locks taken apart |
| `ControlPlane` | the methods composed: any allowed sequence of calls is a run of the state machine |
| `CpuRange`, `RangeTexts`, `ServerSpecs`, `ServerRows`, `ComputeIds` | CPU ranges and what their texts mean, the request validator, unit rows and their ids |
| `JsRange`, `CpuPicker` | the web client's parser and its CPU picker |
| `Extents`, `Health`, `Memory` | the volume-splitting loop, the alert table, the memory limits |

**Steps.** One step is one handler or job, delivered once; the scale worker takes two, around its playbook,
with its local variables kept in the state (`inFlight`). `run_playbook` is an oracle: success, failure or
exception. Any one call of `allocate`, and the enqueue of `scale`, may fail, before or after its effect.

**Guards.** A run takes a deallocation only of an allocation that is not SCALING (the web client asks this,
kloigos/webapp/extension.js:583-585, the service does not), an init only of a host without unit rows or
server job, and a decommission only without server job or running scale towards the host. `Guards` proves
that each of these is exactly what the invariant needs and `Scenario` reaches a state in which each matters.

**Findings.** The code does not have these properties in full; for each the exact condition is proved.

- A lost reply to the address claim, the row insert or the enqueue defeats the compensation of `allocate` (`Rollback.RollbackIsExact`), and a lost reply to the enqueue that of `scale` (`Rollback.ScaleUndoIsExact`).
- The update half of a lock does not look at the host again: a late claim is good exactly while the host still qualifies (`Claims.LateClaimIsGoodExactly`), and keeps the invariant exactly while it is ready (`LateClaims`).
- Ordinals that share their two leading digits silently lose rows (`ServerRows.InitAddsOneRowPerSpec`).
- A login user is lost for good exactly when a failed request left its row behind (`Recovery.LoginIsLostExactly`); a unit gives its name to one allocation ever (`Lifecycle.UnitNameIsUsedUp`).
- The client trims a byte order mark that the server does not (`JsRange.ClientAgreesWithValidator`).

The documentation's promise that only the placement changes when a workload moves (README.md:46-47) holds, as
`ProtocolRuns.RunEndures`.

## Model

| member | source | states |
|---|---|---|
| ProtocolRuns.StepKeepsInv | kloigos/services/allocation.py:135-404 | every allowed step of any handler or job keeps the invariant that ties the four tables, the queue and the running scales together, and reaches nowhere, into the one allocation it names, or only into rows that are not in use |
| ProtocolRuns.ReachableIsValid | kloigos/services/allocation.py:135-404 | every state that any run from the empty database reaches satisfies that invariant |
| ProtocolRuns.StepIsolates | kloigos/workers/remote/allocation.py:88-396 | a step that does not name an allocation changes nothing of it: row, unit, address, running scale and locked target stay equal |
| ProtocolRuns.RunningScaleIsUndisturbed | kloigos/workers/remote/allocation.py:253-347 | between the two halves of a scale, whatever other steps run, the allocation keeps its placement, the target stays locked, and the worker's local variables stay right |
| ProtocolRuns.ScaleMigratesOrReturns | kloigos/workers/remote/allocation.py:253-396 | a whole scale with arbitrary steps in between: target differs from source and is eligible to nobody, the source is kept until commit, afterwards exactly one of the two is free and the other is the allocation's, all three tables name its host, and login user and address are the old ones |
| ProtocolRuns.ScaleMeetsRequest | kloigos/workers/remote/allocation.py:266-273 | the second half on its own: a successful playbook leaves the allocation on the target that its job's filter chose |
| ScaleRequests.ScaleLocksWhatWasAsked | kloigos/services/allocation.py:377-404 | from an accepted scale request, over any run up to the start of its worker: the worker locks a free unit of the size, region and zone of the request, on a ready and healthy host, if and only if there is one then, and otherwise the scale fails |
| ScaleRequests.ScaledAsRequested | kloigos/workers/remote/allocation.py:259-394 | from an accepted scale request, over any run to its start and any run while its playbook is under way: success leaves the allocation ALLOCATED on a unit of the size asked for, whose host is still ready and in the region and zone asked for |
| ScaleRequests.QueuedScaleStays | kloigos/workers/remote/allocation.py:253-265 | over any run a scale job stays in the queue until its own worker starts |
| ScaleRequests.TargetHostStaysOverRun | kloigos/services/admin/servers.py:30-100 | over any run the host of a locked target stays ready and keeps its region and zone |
| ServerLifecycle.StepMovesHost | kloigos/workers/remote/server.py:53-140 | every allowed step leaves a host's row as it is or changes it along the one edge of its event; no other host is touched and no unknown host appears but by an init request |
| ServerLifecycle.LeavingHostStaysOut | kloigos/workers/remote/server.py:98-140 | a host that began to leave, or is gone, is never READY again in any run without a new init request for it, and none of its units is ever eligible |
| ServerLifecycle.InitJobDecides | kloigos/workers/remote/server.py:53-95 | READY and healthy after success, INIT_FAIL and no unit changed after failure, nothing after an exception |
| ServerLifecycle.DecommJobDecides | kloigos/workers/remote/server.py:98-140 | DECOMMISSIONED and exactly the units of the host gone after success, DECOMMISSION_FAIL and every unit kept after failure, nothing after an exception |
| LoginRuns.ReachableLoginsAreProper | kloigos/services/allocation.py:60-102 | in every reachable state each login user has 1 to 32 lower-case letters, digits, dashes and underscores, starts with a letter or digit, is no system account, and does not start like those of systemd |
| LoginRuns.RefusedForLogin | kloigos/services/allocation.py:152-164 | a request is refused for its login user if and only if a unit was free, its id is new, the lookup of that id did not fail and the login user breaks that rule; it then changes nothing |
| LoginRuns.OnlyAllocateAddsRows | kloigos/services/allocation.py:135-290 | no step but an allocation request adds an allocation row |
| ProtocolRuns.RunEndures | README.md:46-47 | over any run an allocation's login user and address never change, and a deallocated or abandoned allocation never changes again |
| ProtocolRuns.Conservation | kloigos/repos/postgres.py:433-478 | units in use = placed allocations + running scales; addresses in use = placed allocations |
| ProtocolRuns.UnitsInUseSplit | kloigos/repos/postgres.py:604-631 | the units in use are exactly the held ones and the locked targets, and no unit is both |
| ProtocolRuns.StatusMatchesJobs | kloigos/workers/remote/allocation.py:134-243 | ALLOCATING, DEALLOCATING and SCALING hold exactly while one matching job is queued (or the scale is running), never two, and no job is queued twice |
| ProtocolRuns.PlacedAllocationsShareNothing | kloigos/resources/database/ddl.sql:84-94 | two placed allocations differ in unit, address and login user, and on one host share no CPU |
| ProtocolRuns.LeasedAddressStays | kloigos/services/admin/ip_pool.py:68-95 | a placed allocation's address is in the pool, owned by it, and its removal is refused without change |
| ProtocolRuns.OnlyReadyHostsAreUsed | kloigos/services/admin/servers.py:56-100 | on a host that is not READY nothing is placed and no scale aims at it, so deleting its units or the host nulls no reference |
| Lifecycle.StepAdvances | kloigos/models.py:121-130 | every step leaves an allocation's status alone or moves it along one edge of the lifecycle graph |
| Lifecycle.LeavingIsForever | kloigos/services/allocation.py:365-369 | after a failed creation or scale, or once deallocation has begun, no run makes the allocation ALLOCATED, ALLOCATING or SCALING again |
| Lifecycle.IdentitySources | kloigos/services/allocation.py:85-93 | the allocation id comes from the first of request, tag `allocation_id`, tag `deployment_id` and unit id that is given and not empty; the login user from the request, or else it is that id |
| Lifecycle.NamesAreNormal | kloigos/services/allocation.py:85-93 | no blank surrounds an allocation id or login user; an id is empty exactly when the place that names it gives only blanks, and then a valid login user comes from the request |
| Lifecycle.UnitNameIsUsedUp | kloigos/services/allocation.py:156-160 | a request that names nothing is refused for its name exactly when an allocation was ever named after the unit it gets, changes nothing then, and the name stays taken in every run |
| Lifecycle.AbandonedLoginIsLost | kloigos/services/allocation.py:162-169 | the login user of an abandoned allocation is refused to every later request of every run |
| Recovery.LoginIsLostExactly | kloigos/services/allocation.py:162-169 | a login user stays in use in every run if and only if an abandoned row holds it; otherwise some allowed run frees it |
| Recovery.EveryPlacementCanEnd | kloigos/workers/remote/allocation.py:88-396 | from every valid state each placed allocation has an allowed run of its own steps after which it is DEALLOCATED and its unit and address are free |
| Answers.AllocateAnswers | kloigos/services/allocation.py:141-220 | a request that meets no fault: refused for want of a unit if and only if no unit is usable, otherwise judged on the first usable one in the order id known, login invalid, login in use, no free address; a refusal changes nothing |
| Answers.FaultAnswers | kloigos/services/allocation.py:222-285 | with a fault the answer is the one without it or PreparationFailed, and a request that would have been accepted gets the latter if and only if one of the calls it makes fails |
| Answers.DeallocateAnswers | kloigos/services/allocation.py:292-350 | in a valid state the reply follows from the allocation's status alone; a refusal changes nothing, and otherwise these columns of three rows and one job are all that changes |
| Answers.ScaleAnswers | kloigos/services/allocation.py:352-404 | each refusal with its condition and no change; otherwise SCALING, and a job with the size, region and zone of the request |
| Answers.CreateDecides | kloigos/workers/remote/allocation.py:134-169 | which statuses and owners a create job leaves in the three rows, for success and for anything else |
| Answers.DeleteDecides | kloigos/workers/remote/allocation.py:220-250 | the same for a delete job |
| Answers.ScaleDecides | kloigos/workers/remote/allocation.py:349-394 | after a scale the allocation is ALLOCATED on the target on success only, otherwise SCALE_FAIL on the source |
| Answers.InitServerAnswers | kloigos/services/admin/servers.py:30-39 | the row an init request stores, whatever was stored before, and its job; nothing without a zone |
| Answers.DecommissionAnswers | kloigos/services/admin/servers.py:47-78 | unknown host and host in use are refused unchanged; otherwise one status and one job |
| Answers.DecommissionNeedsEmptyHost | kloigos/services/admin/servers.py:56-66 | in a valid state refused for use if and only if a placed allocation is on the host |
| Answers.DeleteServerAnswers | kloigos/services/admin/servers.py:80-100 | the reply for each of the six statuses: INIT_FAIL, DECOMMISSIONED and DECOMMISSION_FAIL let the host go, the others refuse unchanged |
| Answers.InsertAddressesAnswers | kloigos/services/admin/ip_pool.py:32-66 | all addresses are added, free, if and only if they differ from each other and from the pool's; no other row changes |
| Answers.DeleteAddressAnswers | kloigos/services/admin/ip_pool.py:68-95 | in a valid state an address goes if and only if it is free, and it alone |
| Answers.StoredExactlyWhen | kloigos/resources/database/ddl.sql:84-104 | a row is stored if and only if the table with it satisfies the three partial unique indexes and its references exist; otherwise nothing changes |
| Answers.ValidIndexesHold | kloigos/resources/database/ddl.sql:84-104 | in a valid state the three indexes hold over the whole table |
| Answers.UnitUpdateStores | kloigos/repos/postgres.py:604-631 | column by column what an update of a unit stores, and exactly when it raises |
| Answers.PickIsFirstUsable | kloigos/repos/postgres.py:678-705 | the pick is the first usable unit by hostname, then ordinal, and there is none only if no unit is usable |
| Answers.TextOrder | kloigos/repos/postgres.py:700-701 | text order: a prefix comes first, otherwise the first difference decides |
| Constraints.NoConstraintIsHit | kloigos/resources/database/ddl.sql:54-104 | from a valid state no statement of any allowed step, compensating and undoing ones included, hits a primary key, a foreign key or one of the three partial unique indexes |
| Constraints.ReferencesAreKnown | kloigos/resources/database/ddl.sql:55-104 | in every valid state each reference of each table is null or names an existing row |
| Rollback.RollbackIsExact | kloigos/services/allocation.py:222-285 | for a fault of any one call, before or after its effect: a refused request leaves units, addresses, servers and jobs as they were and at most one ALLOCATION_FAIL row without placement, and the state valid, if and only if the request was turned away by its checks or the fault did not hide the effect of the address claim, the row insert or the enqueue |
| Rollback.AcceptedIffClaims | kloigos/services/allocation.py:152-220 | a request is accepted exactly when a unit and an address are free, the id is new, the login valid and unused, and no call that it then makes fails |
| Rollback.AcceptedMeetsRequest | kloigos/services/allocation.py:141-148 | an accepted allocation got the first unit in order that is free, of the requested size, on a ready and healthy host of the requested region and zone, and the lowest free address; its row, the unit, the address and one job are stored with these values, and nothing else changes |
| Rollback.LostClaimLeaks | kloigos/services/allocation.py:171-175 | an address claim whose answer is lost leaves the address reserved for nobody, and the invariant broken |
| Rollback.ScaleUndoIsExact | kloigos/services/allocation.py:391-404 | a scale request whose enqueue failed is undone, and leaves a valid state, if and only if the job was not queued after all |
| Rollback.StrayScaleRuns | kloigos/workers/remote/allocation.py:259-281 | a job queued although its enqueue was reported as failed locks a target for an ALLOCATED allocation or marks it as failed to scale |
| ProtocolAllocate.TurnedAwayChangesNothing | kloigos/services/allocation.py:224-239 | a request turned away by a check leaves the database exactly as it was |
| ProtocolAllocate.NewRowIsAccepted | kloigos/resources/database/ddl.sql:84-94 | the checks of `allocate` and the invariant imply that the new row passes every index and key |
| ProtocolAllocate.AllocateKeepsInv | kloigos/services/allocation.py:135-290 | an allocation request, whatever its single fault short of a lost effect, keeps the invariant and touches only what was free |
| ProtocolAllocate.AllocateOnIsExact | kloigos/services/allocation.py:152-285 | the handler on any unit that is still free keeps the invariant if and only if it refuses or the host of the unit is ready |
| Guards.DeallocateGuardIsExact | kloigos/services/allocation.py:312-343 | in a valid state a deallocation request keeps the invariant if and only if the allocation is not SCALING |
| Guards.DeallocatedAllocationReturns | kloigos/workers/remote/allocation.py:349-373 | in every valid state with a running scale: deallocation overtakes it, its job frees the address, and the commit then makes the deallocated allocation ALLOCATED again |
| Guards.DecommissionGuardIsExact | kloigos/services/admin/servers.py:47-78 | an accepted decommission keeps the invariant if and only if the host has no server job and is no target of a running scale |
| Guards.DeletedTargetStrandsAllocation | kloigos/workers/remote/allocation.py:350-373 | without that guard the target row can be deleted, and the commit raises after it freed the source of a still placed allocation |
| Guards.InitGuardIsExact | kloigos/services/admin/servers.py:30-39 | an init request keeps the invariant if and only if the host has no unit rows and no server job |
| Guards.ReinitialisedHostLosesPlacement | kloigos/services/admin/servers.py:80-100 | without that guard re-init, a failed playbook and a permitted delete null the placement of an ALLOCATED allocation |
| Scenario.GuardsAreNeeded | kloigos/services/allocation.py:312-343 | a concrete run from the empty database reaches a state in which each of the three unguarded requests is accepted and breaks the invariant |
| ControlPlane.Plane.Serve | kloigos/services/allocation.py:135-404 | any allowed sequence of requests and jobs, taken by the service and worker methods, leads exactly where the run of the state machine leads, valid throughout |
| ControlPlane.Plane.Perform | kloigos/services/allocation.py:135-404 | each handler method changes the tables exactly as its step of the state machine |
| Claims.ClaimsAreExclusive | kloigos/repos/postgres.py:678-711 | with both locks split into select and update and any interleaving, two successful claims of one unit or address have a release to FREE between them that is no claimant's work |
| Claims.LosersWereOvertaken | kloigos/repos/postgres.py:706-711 | a claim that fails although its select found a row was overtaken in between by another claim or another statement on that row |
| Claims.WinsNeedReleases | kloigos/repos/postgres.py:549-562 | a row is claimed at most once more often than it is released, counting its initial state |
| Claims.SelectThenClaimIsLock | kloigos/repos/postgres.py:678-711 | with nothing in between, select and update amount to the one-piece lock, which succeeds whenever a row qualifies |
| Claims.LateClaimIsGoodExactly | kloigos/repos/postgres.py:678-711 | a unit won by a late update is one the lock in one piece could still choose if and only if its host passes the conditions at the update and its size is unchanged; otherwise a statement of no claimant spoiled it in between |
| Claims.ClaimIgnoresHost | kloigos/repos/postgres.py:706-711 | the update wins a unit selected on a ready host even after the host began to be decommissioned |
| LateClaims.LateAllocateIsExact | kloigos/repos/postgres.py:678-711 | an allocation that selected its unit before any allowed run, and finds it still free after it, keeps the invariant if and only if it refuses or the host is ready at the update; if not, the run decommissioned the host |
| LateClaims.LateTargetIsExact | kloigos/workers/remote/allocation.py:266-281 | the same for the target of a scale |
| LateClaims.StepKeepsHost | kloigos/services/admin/servers.py:56-78 | a ready host with units leaves that state by no step but its own decommission |
| Scenario.OvertakenLockLosesPlacement | kloigos/repos/postgres.py:706-711 | from a reachable state: a decommission falls between the halves of a lock, the request is accepted, the decommission job nulls the new placement, and the create job raises |
| Allocations.AllocationService.Allocate | kloigos/services/allocation.py:135-290 | the call-by-call handler with its three exception paths has the closed-form outcome the rollback results are about, whichever of its nine calls after the lock fails |
| Allocations.AllocationService.Admit | kloigos/services/allocation.py:156-183 | the checks refuse in their order, a login user that breaks the written-out rule among them, an address is claimed exactly when none refuses, and without one the unit is given back |
| Allocations.AllocationService.Record | kloigos/services/allocation.py:194-221 | how far the linking calls get under each fault, and what is stored by then |
| Allocations.AllocationService.GiveBack | kloigos/services/allocation.py:240-255 | compensation clears the placement, frees the address and frees and disowns the unit |
| Allocations.AllocationService.Deallocate | kloigos/services/allocation.py:292-350 | refusals change nothing; otherwise unit, allocation and address are marked and the delete job is queued |
| Allocations.AllocationService.Scale | kloigos/services/allocation.py:352-404 | refusals change nothing; otherwise SCALING and one job for the region, zone and size of the request, and the status put back when the enqueue fails, before or after its effect |
| Workers.RunComputeUnitAllocate | kloigos/workers/remote/allocation.py:88-169 | final statuses of unit, allocation and address for each playbook result |
| Workers.RunComputeUnitDeallocate | kloigos/workers/remote/allocation.py:172-250 | on success everything is freed, otherwise everything is marked failed and kept |
| Workers.BeginScale | kloigos/workers/remote/allocation.py:259-291 | up to the playbook: the lowest eligible target is locked, or the scale fails |
| Workers.FinishScale | kloigos/workers/remote/allocation.py:349-394 | after the playbook: commit to the target or return to the source |
| ProtocolJobs.CreateIsAtomic | kloigos/workers/remote/allocation.py:145-161 | in a valid state the three statements of the create job act as one update of three rows |
| ProtocolJobs.DeleteIsAtomic | kloigos/workers/remote/allocation.py:220-243 | the same for the delete job |
| ProtocolJobs.DeallocateIsAtomic | kloigos/services/allocation.py:324-350 | the same for a deallocation request and its job |
| ProtocolJobs.ScaleIsAtomic | kloigos/services/allocation.py:381-404 | a scale request sets SCALING and queues one job; when the enqueue fails nothing has changed but for a job that was queued after all |
| ProtocolScale.BeginIsAtomic | kloigos/workers/remote/allocation.py:259-291 | the first half of a scale locks one free unit and remembers both places, or marks the scale failed |
| ProtocolScale.FinishIsAtomic | kloigos/workers/remote/allocation.py:349-394 | the four or three statements of the second half never raise and act as one update |
| ProtocolLocal.LocalStep | kloigos/repos/postgres.py:277-325 | a step that rewrites only what belongs to one allocation, or was free, and is right about those rows keeps the whole invariant |
| ProtocolAdmin.CascadeIsHarmless | kloigos/resources/database/ddl.sql:55-81 | deleting a host none of whose units is in use changes no allocation and no address |
| ProtocolAdmin.RunInitKeepsInv | kloigos/workers/remote/server.py:53-95 | the init job keeps the invariant for each playbook result, CPU disjointness of the host's units included |
| ProtocolAdmin.RunDecommKeepsInv | kloigos/workers/remote/server.py:98-140 | the decommission job keeps the invariant for each playbook result |
| Administration.ServersAdminService.DecommissionServer | kloigos/services/admin/servers.py:47-78 | refused exactly while an allocation that is not DEALLOCATED is on the host |
| Administration.ServersAdminService.DeleteServer | kloigos/services/admin/servers.py:80-100 | refused exactly unless the status permits it; then the host, its units and all references go |
| Administration.ServersAdminService.InitServer | kloigos/services/admin/servers.py:30-39 | the host row is replaced whatever it was, and the job queued; without a zone the statement raises and nothing changes |
| Administration.RunServerInit | kloigos/workers/remote/server.py:53-95 | the row inserts in order, stopping at the first that raises; READY after success, INIT_FAIL after failure, nothing after an exception |
| Administration.RunServerDecommission | kloigos/workers/remote/server.py:98-140 | DECOMMISSIONED without any unit after success, DECOMMISSION_FAIL with all of them after failure, nothing after an exception |
| Administration.IpPoolAdminService.InsertIpPoolAddresses | kloigos/services/admin/ip_pool.py:32-66 | a repeated or known address refuses the whole request unchanged; otherwise exactly the named addresses are added, free and unowned |
| Administration.IpPoolAdminService.DeleteIpPoolAddress | kloigos/services/admin/ip_pool.py:68-95 | only a free, unassigned address is removed |
| Repository.Repo.LockComputeUnit | kloigos/repos/postgres.py:643-730 | claims the first eligible unit in the order of hostname and ordinal; none only if no unit is eligible |
| Repository.Repo.LockIpPoolAddress | kloigos/repos/postgres.py:533-572 | claims the lowest free address; none only if no address is free |
| Repository.Repo.UpdateAllocation | kloigos/repos/postgres.py:277-304 | absent arguments keep their columns; keys and indexes may raise and then nothing changes |
| Repository.Repo.ClearAllocationPlacement | kloigos/repos/postgres.py:306-325 | nulls unit and host, and nothing else does |
| Repository.Repo.UpdateComputeUnit | kloigos/repos/postgres.py:604-631 | the clear flag wins over a new owner, which wins over the old |
| Repository.Repo.UpdateIpPoolAddress | kloigos/repos/postgres.py:433-457 | absent arguments keep their columns |
| Repository.Repo.ReleaseIpPoolAddress | kloigos/repos/postgres.py:459-478 | status FREE and both references null |
| Repository.Repo.InsertNewComputeUnit | kloigos/repos/postgres.py:577-602 | a conflict on the id or on (hostname, ordinal) changes nothing |
| Repository.Repo.DeleteServer | kloigos/resources/database/ddl.sql:55-81 | exactly the host and its units go, exactly the references to them become null, nothing else changes, and if every reference named an existing row before, it does afterwards |
| Tables.ServerGoneIsUnique | kloigos/resources/database/ddl.sql:55-81 | what the ON DELETE rules promise determines the tables |
| Repository.Repo.DeleteComputeUnits | kloigos/repos/postgres.py:633-641 | exactly the units of the host go, exactly the references to them become null, and no reference is left to a row that is gone |
| Tables.FirstEligibleIsUnique | kloigos/repos/postgres.py:696-711 | the order leaves one candidate only, so the pick is a function of the tables |
| ServerRows.InitAddsOneRowPerSpec | kloigos/workers/remote/server.py:83-86 | a successful init of a host without units adds at most one row per spec, and one free row for each with exactly its CPU data if and only if no two ordinals start with the same two digits |
| ServerRows.SmallOrdinalsAllGetRows | kloigos/workers/remote/server.py:83-86 | with ordinals below 100 every spec gets its row |
| ServerRows.EverySpecHasItsRow | kloigos/workers/remote/server.py:23-50 | unless ordinals share their leading digits, each spec finds its own row: its ordinal and text, free and unowned, with exactly the CPUs of its range and their number |
| ServerRows.OrdinalHundredIsLost | kloigos/resources/database/ddl.sql:43 | a valid request for the ordinals 10 and 100 adds one row only |
| ServerRows.RepeatedInitKeepsUnits | kloigos/repos/postgres.py:577-602 | carrying out the same request again changes no unit row, whatever became of the rows in between |
| ServerSpecs.ValidateComputeUnits | kloigos/models.py:392-408 | accepts exactly the nonempty lists whose ranges parse, whose ordinals differ and whose CPU sets are pairwise disjoint, and names the first fault otherwise |
| ServerSpecs.InitComputeUnits | kloigos/workers/remote/server.py:23-39 | the worker's loop builds the sorted unit list |
| ServerSpecs.InitUnitsPartition | kloigos/workers/remote/server.py:23-39 | that list is a rearrangement of the request with pairwise disjoint CPU sets, strictly increasing first CPUs, and counts that add up to the size of the union |
| CpuRange.ParsersAgree | kloigos/util.py:13-35 | validator and worker accept the same strings, refuse the others for the same reason, and mean the same CPUs; which CPUs those are is `RangeTexts` |
| CpuRange.CpuSetRoundTrip | kloigos/util.py:1-10 | the `cpu_set` text reads back in ascending order as exactly the validated ids, and has (end - start) / step + 1 items |
| RangeTexts.SteppedRange | kloigos/util.py:1-35 | for all a, b and s, "a-b:s" and "a-b" stand for the CPUs x from a to b with x - a divisible by s (or 1): the validator's set, the worker's bounds and the column read back as a, a + s, a + 2s and so on; a zero step and b below a are refused by both |
| RangeTexts.SingleCpu | kloigos/util.py:1-35 | "a" and "a:s" stand for the one CPU a |
| RangeTexts.BlanksDoNotCount | kloigos/models.py:48-51 | blanks around any range change nothing for either parser, and a text is refused as empty if and only if it is nothing but blanks |
| RangeTexts.DocumentedExamples | kloigos/util.py:1-10 | the two examples of the documentation: "0-3" gives "0,1,2,3" and "0-7:2" gives "0,2,4,6" |
| RangeTexts.NumberForms | kloigos/util.py:18-33 | signs, leading zeros and single underscores between digits are read as `int()` reads them, misplaced underscores refused |
| RangeTexts.DecimalNotation | kloigos/util.py:10 | printed numbers are in decimal notation |
| ComputeIds.ComputeIdCollision | kloigos/resources/database/ddl.sql:43 | two units share a generated id if and only if host and the two leading digits of the ordinal agree |
| ComputeIds.ComputeIdInjectiveBelow100 | kloigos/resources/database/ddl.sql:43 | ids are injective for ordinals below 100, and 100 collides with 10 |
| ComputeIds.MountPathMatchesId | kloigos/workers/remote/allocation.py:44-45 | mount path and id end in the same digits if and only if the ordinal is below 100 |
| ComputeIds.SuffixIsOrdinal | kloigos/resources/database/ddl.sql:43 | below 100 both end in the two decimal digits of the ordinal, from 100 on the path has it in full |
| Extents.VolumeIsMounted | kloigos/workers/remote/allocation.py:44-45 | the mount path ends in the name of the volume |
| JsRange.RangeTextReadsBack | kloigos/webapp/extension.js:1579-1588 | a printed contiguous range is read by the client, the validator and the worker as the same CPUs |
| JsRange.ClientAgreesWithValidator | kloigos/webapp/extension.js:1579-1588 | what the client reads, the validator reads as the same CPUs if and only if no byte order mark surrounds it |
| JsRange.MarkedZeroIsRefused | kloigos/webapp/extension.js:1579-1588 | a byte order mark before 0 is CPU 0 for the client and an error for the validator |
| CpuPicker.Picker.constructor | kloigos/webapp/extension.js:1497-1524 | the dialog opens with the readable units of the request in ordinal order, or with a default, and disjoint if the request was valid |
| CpuPicker.ReadableExactly | kloigos/webapp/extension.js:1497-1513 | a unit is shown if and only if the client reads some CPU in its range, with that ordinal, those CPUs and the trimmed text |
| CpuPicker.DefaultCoversHost | kloigos/webapp/extension.js:1515-1523 | the default unit has CPUs 0 to n - 1 for a known count n, else 0 to 3, and its text reads back as these |
| CpuPicker.LabelReadsBack | kloigos/webapp/extension.js:1620-1624 | the text of a unit reads back as its CPUs: as a range if it prints, as a list if it does not |
| CpuPicker.Picker.ToggleCpu | kloigos/webapp/extension.js:1613-1625 | a CPU that any other unit has is left alone, otherwise this unit alone changes; the units stay disjoint and ascending |
| CpuPicker.Picker.AddUnit | kloigos/webapp/extension.js:1674-1681 | appends an empty unit and keeps the units disjoint |
| CpuPicker.Picker.RemoveUnit | kloigos/webapp/extension.js:1683-1689 | keeps the last unit, renumbers the others, and keeps them disjoint |
| CpuPicker.Picker.Build | kloigos/webapp/extension.js:1709-1726 | builds exactly when every unit prints, names the first that does not otherwise, and what it builds from disjoint units passes the validator |
| CpuPicker.Picker.Apply | kloigos/webapp/extension.js:1613-1689 | any sequence of toggles, adds and removes keeps the units disjoint and ascending |
| CpuPicker.AnyEditsStayTidy | kloigos/webapp/extension.js:1613-1689 | the same for the units themselves, by induction over the sequence |
| CpuPicker.EditsKeepNumbers | kloigos/webapp/extension.js:1674-1689 | units numbered from one stay so under every edit, and a removal makes them so |
| CpuPicker.ToggleFlips | kloigos/webapp/extension.js:1613-1619 | a toggle adds or removes that CPU alone, keeps the order, and undoes itself |
| CpuPicker.PrintsExactlyWhen | kloigos/webapp/extension.js:1627-1648 | a unit prints if and only if it is nonempty, without gap and below the CPU count, if there is one |
| CpuPicker.RefusedExactlyWhen | kloigos/webapp/extension.js:1627-1648 | which of the three faults is reported, and for which CPU |
| CpuPicker.PrintedReadsBack | kloigos/webapp/extension.js:1627-1648 | the printed range reads back as the picked CPUs in all three parsers |
| CpuPicker.BuiltIsValid | kloigos/webapp/extension.js:1691-1727 | every unit list the dialog builds passes the validator, and the row derived from each unit covers exactly the picked CPUs |
| Extents.VolumeGroup.CreateVolumes | kloigos/resources/playbooks/SERVER_INIT.yaml:249-278 | unless a command fails: aborts exactly when free extents are fewer than missing volumes, and then before creating any, and otherwise consumes all free extents; a failing command leaves the first few volumes of the same division; never divides by zero |
| Extents.InterruptedRunResumes | kloigos/resources/playbooks/SERVER_INIT.yaml:257-278 | running the playbook again after a failing command completes exactly the division the first run would have made |
| Extents.VolumeGroup.CountMissing | kloigos/resources/playbooks/SERVER_INIT.yaml:249-255 | counts the volumes that do not exist |
| Extents.RestIsShared | kloigos/resources/playbooks/SERVER_INIT.yaml:263-264 | the loop's running division yields the closed-form share: q for the first volumes, q + 1 for the last r |
| Extents.SharesAreFair | kloigos/resources/playbooks/SERVER_INIT.yaml:257-271 | older volumes are untouched, shares differ by at most one, later ones are the larger, and they add up to what was free |
| Extents.RerunCreatesNothing | kloigos/resources/playbooks/SERVER_INIT.yaml:262-271 | a second run finds nothing missing and changes nothing |
| Health.HealthCheck.Run | kloigos/workers/health.py:31-82 | a cycle stores the health of every ready server whose probe did not raise, and passes on to the alert table the probes whose alert call did not raise either |
| Health.ProbesReach | kloigos/workers/health.py:45-74 | a probe reaches the alert table if and only if its server is ready, it did not raise and its alert call did not |
| Health.CycleKeepsInv | kloigos/workers/health.py:45-82 | a cycle, whatever its probes report, keeps the invariant of the allocation protocol |
| Health.HealthCheck.OpenOrTouchAlert | kloigos/repos/postgres.py:154-188 | updates the open row of the host, or adds one |
| Health.HealthCheck.ResolveAlert | kloigos/repos/postgres.py:190-222 | closes the open row of the host |
| Health.AlertTableSummarises | kloigos/repos/postgres.py:154-222 | for every probe history a host has one row per maximal unhealthy run, in order: opened at its first probe, critical if and only if its last probe was UNREACHABLE, resolved at the healthy probe that ended it; a row is open if and only if the last probe was unhealthy, and is the last row |
| Health.AlertsDependOnOwnProbes | kloigos/workers/health.py:45-74 | the rows of a host depend on its own probes only |
| Health.OneOpenAlertEach | kloigos/resources/database/ddl.sql:38-40 | no two open rows are about one host |
| Memory.SoftLimitsFitHost | kloigos/resources/playbooks/ALLOCATION_CREATE.yaml:259-288 | for every valid request within the host's CPUs the soft limits of all its units together never exceed the host's memory; the other side is the next three rows |
| Memory.HighIsTheShare | kloigos/resources/playbooks/ALLOCATION_CREATE.yaml:259-288 | the soft limit h of n of N CPUs of T kilobytes: h GB never exceed n / N of T, and h + 1 GB exceed n / N of T - N + 1 |
| Memory.SoftLimitsUseHost | kloigos/resources/playbooks/ALLOCATION_CREATE.yaml:259-288 | units that take up every CPU share all of the memory but for less than a gigabyte each and the remainder of the division |
| Memory.MaxIsNineTenths | kloigos/resources/playbooks/ALLOCATION_CREATE.yaml:259-289 | the hard limit is nine tenths of that share, rounded down, but for the rounding of one double product, from below and from above |
| Memory.MaxAtMostHigh | kloigos/resources/playbooks/ALLOCATION_CREATE.yaml:288-289 | the hard limit is never above the soft one, however the product with 0.9 is rounded |
| Memory.ShownSumIsClose | kloigos/repos/postgres.py:369-379 | the displayed gigabytes of k units add up to their exact share within 0.05 k |
| Memory.ShownFitsHost | kloigos/repos/postgres.py:369-379 | units that share a host never show more than its memory and 0.05 for each |

## Left out

- Tags, timestamps, alert messages and details, audit contents, SSH keys, network addresses of servers, disk and memory columns of the server row: no invariant depends on them. After a rollback the tags of the unit are reset, so unit rows are compared without tags.
- HTTP routes, authentication, command line, HTTP status codes, rendering, sorting and filtering in the web client, the other fields and the other steps of the init dialog, and the read-only list queries apart from `memory_gb`.
- The queue delivers each job once, in any order; redelivery and retry are not modelled, and the library behind queue, audit log and playbook runner is not part of this model.
- Two faults in one request, faults inside the exception handlers of `allocate` and `scale`, faults of calls in `deallocate`, in the audit call of `scale`, in the IP-pool loop and in the jobs: the code restores nothing there (jobs log the exception and go on), so nothing is claimed.
- API handlers and the create and delete jobs are single steps; only the scale worker is split around its playbook, and the two locks are split in `Claims`. The statements of two API handlers do not interleave otherwise.
- `clear_ip_pool_host`: no handler calls it.
- Text is ordered by character code, not by the collation of a particular database.
- Integers are unbounded: the two-byte columns of the schema would raise for larger values; `int()` is modelled on ASCII digits without its limit of 4300 digits, and JavaScript numbers without loss of precision above 2^53.
- Tag values are strings; other JSON values would be printed by `str`.
- Negative memory or CPU counts, which no check excludes, are not modelled either.
- Memory.SoftLimitsFitHost: the host is assumed to have the CPUs that the request names, as the playbook does not check it.
- Extents.VolumeGroup.CreateVolumes: the choice of the volume group is not modelled, nor what file systems and mounts do beyond failing.
- CpuPicker.Picker.Build: only the compute units of the payload.
- Host-side shell other than the volume loop and the memory limits (AppArmor, nftables, rsync, systemd, SSH).
