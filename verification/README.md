# Edge fabric: a verified model

This project models the parts of the LoRa/Wi-Fi edge fabric whose correctness does not show in any one
function, and proves what holds of them over every input, stream and interleaving. `dafny verify
dfyconfig.toml` checks everything.

## What is modelled

**The Site Router.** SQLite tables are maps and sequences, each SQL transaction or statement is one atomic step.
`Outbox` holds the queue as an object, `OutboxCalls` follows it under any calls from any callers, `OutboxWorkers`
adds the two dispatch procedures as processes that interleave with each other, with lease expiry, replanning and
compaction, `OutboxRuns` and `OutboxRace` state what holds over all their runs, `OutboxHistory` ties the recorded
leases, handoffs and calls to the run itself, `OutboxLeases` how long a lease lasts, and `OutboxDispatch` shows
that the procedures as loops take only steps of those processes. `SiteRouter` is ingest over all ledgers
(`CommandPhases`, `LatestState`, `RadioDedupe`, `FileChunks`), `SiteRouterEffects` what it does kind by kind,
`SiteRouterCommands` the issuing of commands, and `SiteRouterRuns` runs of ingests, commands, queue calls and
compaction in any order. `Router` is the object whose transactions compute them, and `RouterRuns` ties them to the
operations of a run. `RadioCompaction`, `RadioIngest` and `CommandTokenRuns` are theorems over those runs.
`RoutePlanner`, `Airtime` and `RouteReplan` decide routes, `RouteRules` is the rule book the planner's gate is
proved to be, `CommandTokens` allocates command tokens, `Timestamps` compares stored times.

**USB framing** (`Crc32`, `Folds`, `UsbFrame`, `UsbParser`, `UsbStream`, `UsbLink`). The firmware's CRC loops,
frame codec, resynchronising parser and receive queue, and the host's codec. The checksum is the CRC of
section 8 of RFC 1952, computed bit by bit.

**The on-air codec** (`OnAir`, `Bytes`). Host and firmware codec, relay forwarding and the dedupe key, whose
body digest is any deterministic function.

**The sleepy leaf** (`SleepyLeaf`, `TokenRing`). Compact commands, the ring of recent tokens, the maintenance
countdown and the copy in RTC memory, across deep sleep.

The pieces meet: a packet heard again over relays is persisted once by the router, compaction or not
(`RadioIngest.HeardTwicePersistedOnce`), while another packet always becomes a message of its own
(`RadioIngest.DifferentEventIsPersisted`); each envelope a transport receives was let through by the planner's
gate itself (`OutboxRuns.HandoffsAreGated`); and it is known exactly when results that name allocated tokens can be
taken for one command only (`CommandTokenRuns.AllocatedTokensTellTheirCommandIff`).

Policy and profile files, node registries, hashes, checksums of RTC memory, the text form of a key, clocks,
the answers of SQL queries whose order SQLite chooses, and what transports answer are parameters: theorems
hold for all of them. Query answers are only required to be possible answers.

## What the proofs found

- An acknowledged row stays acknowledged, but a transport can still receive it afterwards: a worker that
  marked it as sending, lost its lease and woke up late. This happens exactly when the row had a retry left
  (`OutboxRace.HandedOverAfterAckIffRetryLeft`).
- A dead row is not final. It keeps its owner, and any state change by that owner that is not again to dead
  revives it (`OutboxCalls.DeadRowRevivedByOwner`). A conforming worker does this: for every retry limit there is a
  run in which expiry kills a row on its last attempt and the worker then marks it as sending
  (`OutboxRace.ConformingWorkerRevivesDeadRow`). The bound on leases holds all the same.
- Within one second, comparing trimmed timestamps byte by byte is wrong exactly when one fraction continues
  the other (`Timestamps.TextOrderWithinSecond`); section 5.1 of RFC 3339 promises the order only for equal
  fraction lengths. So a whole second sorts after all its fractions (`Timestamps.WholeSecondSortsLast`).
  Compaction, which compares this way, still never changes an answer of the router
  (`RadioCompaction.CompactionNeverChangesAnAck`).
- The state comparison is no order when sessions differ at one instant (`LatestState.ComparisonCanCycle`).
  The arrival order is irrelevant exactly when one state beats all others.
- A rebuild of the latest states can leave another table than the one it replaces. Whatever order its sort leaves
  the candidates in, it reproduces the table if and only if every row beats all other candidates of its key
  (`LatestState.RebuildReproducesIff`, `SiteRouterRuns.RebuildIsNoOpIff`). There are two ways to fail: states
  without a time, which a rebuild takes as of when they were persisted (`LatestState.RebuildDiffersWithoutTimes`),
  and sessions that differ at one instant (`LatestState.RebuildDiffersAcrossSessions`). Where every key has a
  maximum, with those times filled in and without, only the first is left: the table is reproduced exactly when
  each row carries a time and beats every state of its key that came without one
  (`LatestState.RebuildEqualsProjectionIff`).
- The error from the profile cap lookup is ignored. Body lengths are unbounded exactly when the fixed profile is
  missing, the policy has no cap and the budget profile is known but without airtime limit
  (`RoutePlanner.SizesUnboundedIff`); then a summary of any length is planned as ready
  (`RoutePlanner.OversizedBodyIsPlanned`).
- On the Wi-Fi mesh an exhausted hop limit is noticed only when relaying is allowed
  (`RoutePlanner.MeshHopsCheckedIffRelayAllowed`, `RoutePlanner.ExhaustedMeshRequestIsPlannedIff`).
- One stray octet 'E' before a frame costs that frame (`UsbStream.StrayMagicCostsTheFrame`).
- Results are resolved by target and token alone, so a token identifies its command exactly within one token
  window (`CommandPhases.TokenIsUniqueIffOneWindow`). Allocating a token and issuing the command are two calls:
  two clients can get the same token before either issues, and if their windows differ both commands are taken
  (`CommandTokenRuns.TwoClientsShareToken`). A result can then move the wrong command
  (`CommandTokenRuns.ResultMovesTheWrongCommand`). Over any run with allocated tokens this is excluded exactly
  when no command is issued after another one got its token since the allocation
  (`CommandTokenRuns.AllocatedTokensTellTheirCommandIff`).
- With a queue key of the caller's choice, a command can be attached to an existing row and never be sent
  itself (`SiteRouterCommands.IssueIsAtomic`, `SiteRouterRuns.TakenKeyAttachesCommand`).
- Settings made by compact commands are lost in deep sleep while their tokens stay remembered, all but
  maintenance and values of zero (`SleepyLeaf.SettingIsLostInSleep`); repeating the command restores a lost setting
  exactly when its token has left the ring (`SleepyLeaf.ResendAfterSleep`).

## Model

| member | source | states |
|---|---|---|
| `Outbox.Queue.Enqueue` | internal/siterouter/router.go:1726-1760 | a key already queued keeps its row and returns its id; otherwise a new queued row with no owner and no retries is added under an unused id |
| `Outbox.BatchExists` | internal/siterouter/router.go:1827-1839 | for every table and limit the leasing query has an answer: distinct leasable rows in priority and age order, none left out that comes earlier |
| `Outbox.LargeBatchTakesAll` | internal/siterouter/router.go:1827-1839 | a batch with a limit that is large enough contains every leasable row |
| `Outbox.UrgentAndOldFirst` | internal/siterouter/router.go:1827-1839 | critical before control before normal, older before younger within a priority: no ready row that goes before a selected one is passed over or selected after it |
| `Outbox.Queue.LeaseOutbound` | internal/siterouter/router.go:1818-1882 | row by row over the answer of the query, exactly the selected rows become leased by the worker; all others stay as they are |
| `Outbox.Queue.UpdateQueueState` | internal/siterouter/router.go:1900-1914 | succeeds exactly when the worker is the row's recorded owner, whatever the row's status; then sets status and reason of that row only |
| `Outbox.Queue.RecoverExpiredLeases` | internal/siterouter/router.go:1916-1944 | rows in flight whose lease text is older are killed when out of retries, keeping their owner, and otherwise queued again without owner; the result counts the latter |
| `Outbox.RequeuedIdsAreIndependent` | internal/siterouter/router.go:1916-1944 | the first statement of the recovery does not affect which rows the second one queues again |
| `Outbox.Queue.RetryOutbound` | internal/siterouter/worker.go:181-240 | only the owner of a row in flight: dead when this retry exhausts the limit, queued again and released otherwise, an error and no change in all other cases |
| `Outbox.Queue.UpdateQueueRoutePlan` | internal/siterouter/route_replan.go:105-140 | replaces plan and route status of a queued row that is not ready, and of no other |
| `Outbox.Queue.DeleteDeadOlderThan` | internal/siterouter/router.go:2389-2419 | deletes exactly the dead rows last updated before the cutoff text |
| `Outbox.CompactedIff` | internal/siterouter/router.go:2389-2419 | a row is kept, unchanged, exactly unless it is dead and its last update is older than the cutoff text |
| `OutboxLeases.LeaseThenRecover` | internal/siterouter/router.go:1818-1944 | leasing with an end and recovering at any time text: the leased rows are exactly as leased if the end has not passed, and otherwise queued again without owner, or dead on the last attempt; the count is that of the rows queued again |
| `OutboxLeases.LeaseLasts` | internal/siterouter/router.go:1846-1944 | the same on the rows, for every batch, end and time of recovery, leased rows and others |
| `OutboxLeases.RecoveryOfRow` | internal/siterouter/router.go:1916-1944 | for any row: exactly rows in flight whose end has passed are queued again, or die with their owner kept |
| `OutboxLeases.LeaseIsExclusive` | internal/siterouter/router.go:1818-1944 | until its end a lease is exclusive: no run of calls by others, recovery up to the end included, changes the leased row or leases it again |
| `OutboxCalls.LeasedAtMostMaxTimes` | internal/siterouter/router.go:1818-1944 | over every sequence of queue calls by any callers, no row id is ever leased more often than the retry limit, deleted rows included |
| `OutboxCalls.RetriesCoverLeases` | internal/siterouter/router.go:1818-1944 | over every sequence of calls: a queued row has retries left and at most one lease per retry; any other row has at most one uncounted lease and a plan that is ready |
| `OutboxCalls.CallKeeps` | internal/siterouter/router.go:1726-1944 | each single call keeps the lease, plan, owner and key invariants of all rows |
| `OutboxCalls.ReadyPlanStays` | internal/siterouter/route_replan.go:121-132 | no call ever replaces a plan that was ready once |
| `OutboxCalls.AckedRowStays` | internal/siterouter/router.go:1900-1944 | an acknowledged row is changed by no call but a state change of its own last owner, and never leased or deleted |
| `OutboxCalls.DeadRowRevivedByOwner` | internal/siterouter/router.go:1900-1928 | whatever the call: a dead row that is kept changes only by a state change of the owner it still records, and leaves dead exactly when that sets another status |
| `OutboxCalls.OnlyTheHolderChanges` | internal/siterouter/router.go:1818-1914 | leases, state changes and retries of other workers leave a held row exactly as it is |
| `OutboxCalls.RowIdentity` | internal/siterouter/router.go:1726-1760 | a row keeps key and message for life and its id is never given to another row |
| `OutboxWorkers.StepKeeps` | internal/hostagent/egress.go:141-264 | every step of either dispatch procedure, and every surrounding call, keeps the worker invariant: tickets are granted leases, one per row and worker, handed over at most once, and never concern a row their worker has acknowledged |
| `OutboxRuns.AcknowledgedForGood` | internal/siterouter/worker.go:89-179 | for every interleaving of workers: once a row was acknowledged, no continuation changes, leases or deletes it |
| `OutboxRuns.StaleWorkerChangesNothing` | internal/siterouter/worker.go:89-179 | no action of a worker changes or acknowledges a row that another worker holds |
| `OutboxRuns.LateHandoffIsStale` | internal/hostagent/egress.go:168-186 | a row can be handed over after its acknowledgement only by a worker that no longer holds it |
| `OutboxRuns.HandoffsNeedLeases` | internal/siterouter/worker.go:118-122 | every handoff spends a lease of its own: handoffs of a row never outnumber its leases |
| `OutboxRuns.HandedOverAtMostMaxTimes` | internal/siterouter/worker.go:89-179 | for every interleaving each row is handed to a transport at most as often as the retry limit says |
| `OutboxRuns.HandoffsAreGated` | internal/siterouter/worker.go:89-122 | for every interleaving in which rows get the planner's answers for their own envelopes, each plan handed to a transport is a ready plan for the very envelope handed over, with the bearer and intent of its class, and on a policy route it is safe for that envelope's body, hops and ids |
| `OutboxHistory.NeverLeasedTooOften` | internal/siterouter/router.go:1818-1944 | counted off the calls themselves: over every sequence of calls by any callers no row is leased more often than the retry limit |
| `OutboxHistory.HandoffsAreRecorded` | internal/siterouter/worker.go:89-117 | the recorded handoffs of any interleaving are, in order, what its workers gave to transports: first ticket, worker and the plan it had read |
| `OutboxHistory.NeverGivenTooOften` | internal/siterouter/worker.go:89-179 | counted off the events themselves: over every interleaving no row is given to a transport more often than the retry limit |
| `OutboxHistory.AckedAreTheAckedRows` | internal/siterouter/worker.go:134-142 | after every interleaving the acknowledged rows are exactly those with that status |
| `OutboxHistory.Make` | internal/siterouter/router.go:1726-1914 | each call in a run is what the method of the queue does |
| `OutboxHistory.Recover` | internal/siterouter/router.go:1916-1944 | the recovery is its two statements, which other callers may interleave with |
| `OutboxRace.HandedOverAfterAckIffRetryLeft` | internal/hostagent/egress.go:157-186 | a row marked as sending can be acknowledged by another worker before it is handed over exactly when it has a retry left; on the last attempt no run does it |
| `OutboxRace.HandedOverAfterAck` | internal/hostagent/egress.go:157-186 | for every retry limit above one, a concrete run after which a worker is about to hand over a row that is acknowledged |
| `OutboxRace.ConformingWorkerRevivesDeadRow` | internal/siterouter/router.go:1900-1928 | for every retry limit, a run from the empty outbox after which expiry has killed the row on its last attempt, and the conforming worker that still holds the ticket makes it sending again |
| `OutboxDispatch.SiteFinish` | internal/siterouter/worker.go:126-178 | each dispatch status leads to its queue call; the status counted is the one the row ends in |
| `OutboxDispatch.SiteDispatchLease` | internal/siterouter/worker.go:89-179 | an error exactly when the worker does not hold the row, which then stays unchanged; otherwise the row is marked and finished by the dispatcher's answer |
| `OutboxDispatch.HostFinish` | internal/hostagent/egress.go:188-264 | each transport status leads to its queue calls; an unknown status leaves the row as sending and counts as failed |
| `OutboxDispatch.HostDispatchLease` | internal/hostagent/egress.go:141-186 | fails without a change exactly when the worker does not hold the row; otherwise an envelope that cannot be encoded makes the row dead, and any other is finished by the transport's status |
| `OutboxDispatch.OutcomeDecidesStatus` | internal/hostagent/egress.go:157-262 | for a held row: sent ends as sent_ok, acked as acked, a retry as queued exactly while retries are left; the two procedures differ only for an unknown status and an envelope the host agent cannot encode |
| `OutboxDispatch.OutcomeDecidesRow` | internal/hostagent/egress.go:141-264 | the whole row of a held lease after its dispatch, for every outcome of both procedures: status, retries, owner, reason and time |
| `OutboxDispatch.RetryDecidesRow` | internal/siterouter/worker.go:181-240 | a retry moves a row in flight of its owner back to the queue, or to dead with the reason on the last attempt, and touches nothing else |
| `OutboxDispatch.DeliveryNeedsSuccess` | internal/hostagent/egress.go:266-286 | each answer counts as exactly one outcome: permanent failure before anything else, then a retry or an error, then an acknowledgement, then delivery; a text of its own is reported as unknown |
| `OutboxDispatch.RunOnce` | internal/siterouter/worker.go:51-87 | serves every lease of its batch; the counters are the numbers of batch rows that ended in each state, they add up to the batch, and nothing fails without interference |
| `OutboxDispatch.DispatchOutboundOnce` | internal/hostagent/egress.go:96-139 | the same for the host agent, where exactly the rows left as sending are counted as failed |
| `OutboxDispatch.DispatchIsRun` | internal/hostagent/egress.go:141-264 | in any world, dispatching a worker's first ticket is a run of that worker's protocol steps with the same effect on the rows and the same handoff, if any |
| `OutboxDispatch.RoundIsRun` | internal/siterouter/worker.go:51-87 | a whole round refines the protocol: lease expiry, one batch and the worker's own steps lead to the same rows |
| `RouteReplan.PlanAgain` | internal/siterouter/route_replan.go:71-83 | the plan is ready exactly when the gate lets this request through with these artifacts and nodes, waits exactly when its node has no bearer, and is blocked where planning gives up |
| `RouteReplan.ReplanQueuedRoutes` | internal/siterouter/route_replan.go:34-103 | every candidate that is queued and not ready is replanned for its own envelope: ready exactly if the gate lets it through, blocked if it cannot be read; no other row changes; every counter is the number of candidates with that outcome |
| `RoutePlanner.BearerAllowed` | internal/siterouter/router.go:3026-3036 | true exactly when some allowed bearer matches, relays by family only if relaying is allowed |
| `RoutePlanner.BearerIsForbidden` | internal/siterouter/router.go:3054-3067 | true exactly when some forbidden entry names the bearer or its family |
| `RoutePlanner.ApplyRadioBudget` | internal/siterouter/router.go:2893-2949 | a fitting plan stays fitting exactly when its airtime is within the budget of its class |
| `RoutePlanner.ApplyRouteIntent` | internal/siterouter/router.go:2986-3014 | a fitting plan stays fitting exactly when hops and relay permission allow the bearer |
| `RoutePlanner.PlanOutboundRoute` | internal/siterouter/router.go:1362-1464 | a plan is ready exactly when the gate of its route class lets the request through, waits exactly when the deciding node has no bearer, and planning fails exactly in the listed cases; a ready plan carries bearer, reason, intent and relay ids of its class |
| `RoutePlanner.ReadyPlanIsExpected` | internal/siterouter/router.go:1362-1513 | the bearer of a ready plan is the host for what is not for a node, the maintenance bearer for maintenance, direct LoRa for a sleepy leaf, and the deciding lease's own bearer otherwise; its intent is the delivery's, completed by the policy or the class |
| `RouteRules.GateIsRuleBook` | internal/siterouter/router.go:1362-1693 | the gate is exactly the rule book, written without the planner's functions: leases against manifests, roles, allowed and forbidden bearers by family, hops, body size, caps, overheads, airtime budget and relay ids, for every class |
| `RouteRules.RelayPlanNamesItsHops` | internal/siterouter/router.go:1515-1693 | a ready relay plan names the deciding node and its short id as next hop, and as final target the envelope's own target behind another relay, otherwise the payload's |
| `RoutePlanner.PlanClass` | internal/siterouter/router.go:1515-1543 | the policy classes, one-hop relaying included, are ready exactly when the deciding node's lease fits and the policy gate passes |
| `RoutePlanner.PlanPolicyRoute` | internal/siterouter/router.go:1545-1693 | ready exactly when role, bearer, hop and LoRa conditions hold together |
| `RoutePlanner.PlanSleepy` | internal/siterouter/router.go:2710-2806 | ready exactly when the leaf has a direct LoRa lease with a short id, a token and a representable command |
| `RoutePlanner.CompactCommandLength` | internal/siterouter/router.go:2770-2806 | every compact command occupies the fixed number of octets that is compared with the profile cap |
| `RoutePlanner.ReadyRouteIsSafe` | internal/siterouter/router.go:1545-1693 | a ready policy route has an allowed, not forbidden bearer, the required role, hops left on a relay, a body within profile cap, policy cap and airtime budget, and relay ids in 1..65535 |
| `RoutePlanner.SmallerPayloadPasses` | internal/siterouter/router.go:2893-2949 | any smaller positive payload passes every gate the larger one passed |
| `RoutePlanner.BudgetMonotone` | internal/siterouter/router.go:2893-2949 | a shorter body stays within a radio budget the longer one met |
| `RoutePlanner.SizesUnboundedIff` | internal/siterouter/router.go:1624-1644 | arbitrarily long bodies pass the size checks exactly when the fixed profile is missing, the policy has no body cap, and an airtime can be computed but has no limit |
| `RoutePlanner.OversizedBodyIsPlanned` | internal/siterouter/router.go:1624-1644 | a whole request: with such artifacts the planner declares a summary of any length ready for a direct LoRa lease |
| `RoutePlanner.MeshHopsCheckedIffRelayAllowed` | internal/siterouter/router.go:2986-3014 | on the Wi-Fi mesh an exhausted hop limit stops a route exactly when relaying is allowed |
| `RoutePlanner.ExhaustedMeshRequestIsPlannedIff` | internal/siterouter/router.go:1545-1600 | a whole request: without policy files a mesh message that has used all its hops is ready exactly when it may not be relayed |
| `RoutePlanner.RegistryKeepsShortIdsInRange` | internal/siterouter/router.go:2685-2708 | registering manifests and leases keeps every short id in 1..65535 |
| `RoutePlanner.LatestRegistrationCounts` | internal/siterouter/router.go:1092-1125 | planning sees the latest manifest of a node, and the latest lease that fitted the manifest known when it came; a lease that does not fit changes nothing |
| `Airtime.AirtimeMonotone` | internal/protocol/jp/jp.go:71-100 | LoRa airtime never shrinks when the payload grows |
| `Airtime.AirtimeUnbounded` | internal/protocol/jp/jp.go:71-100 | airtime grows beyond every limit: the payload length never exceeds bandwidth times airtime |
| `Airtime.AirtimeIsExact` | internal/protocol/jp/jp.go:71-100 | the airtime is the least whole number of milliseconds not below 12.25 preamble symbols and 8 plus 5 symbols for each started block of the coded payload |
| `Airtime.FullPacketsOfTheProfiles` | internal/protocol/jp/jp.go:71-100 | 371 ms for a full packet of the long profile, 309 ms for one of the balanced profile |
| `SiteRouter.IngestKeeps` | internal/siterouter/router.go:471-591 | every ingest keeps: one row per event id and command id that names its only message, token slots held once, command history in order, uniform chunk totals, and the latest state the projection of the persisted states |
| `SiteRouter.AcksNamePersisted` | internal/siterouter/router.go:471-637 | every acknowledgement names a persisted message |
| `SiteRouter.ReplayIsNoOp` | internal/siterouter/router.go:609-637 | ingesting a persisted envelope again changes no table and acknowledges that envelope's message |
| `SiteRouter.IngestIsAtomic` | internal/siterouter/router.go:471-591 | a failure leaves every table as it was, a duplicate all but the sightings; otherwise exactly the envelope is appended |
| `SiteRouterEffects.InvalidIff` | pkg/contracts/types.go:148-180 | exactly the malformed, unnamed and sourceless envelopes, commands without id, and results that name neither command nor token are refused as invalid |
| `SiteRouterEffects.NamedResult` | internal/siterouter/router.go:793-866 | a new result that names its command is taken for it whatever the token query answers: it moves exactly that row and adds exactly one log entry, repeats the phase without a change, or is refused for a bad phase, an unknown command or a transition that is not allowed |
| `SiteRouterEffects.TokenResult` | internal/siterouter/router.go:800-822 | a result that names a token only is taken in the same way for the command the query answers with, and refused without one |
| `SiteRouterEffects.NewEvent` | internal/siterouter/router.go:485-523 | a new event opens the window of its on-air key, or within ten minutes of its last sighting is answered with the first message and counted |
| `SiteRouterEffects.NewState` | internal/siterouter/router.go:692-736 | a new state replaces the row of its source and key exactly if it compares above it |
| `SiteRouterEffects.NewCommand` | internal/siterouter/router.go:520-591 | a new command gets an issued ledger row, unless its target, window and token are taken |
| `SiteRouterEffects.NewChunk` | internal/siterouter/router.go:968-1003 | a chunk is stored at its place, unless index or total is missing or another total is recorded |
| `Router.Router.LookupDuplicate` | internal/siterouter/router.go:609-637 | finds the message that already stands for the envelope, by event id, command id or message id, or none |
| `Router.Router.RecordDuplicateSighting` | internal/siterouter/router.go:639-667 | a key seen within ten minutes is a duplicate and counted; a stale sighting is dropped without affecting what is recorded next |
| `Router.Router.Ingest` | internal/siterouter/router.go:471-591 | the transaction over all tables computes the ingest function on which the theorems are proved |
| `Router.Router.IssueCommand` | internal/siterouter/router.go:1234-1323 | the transaction computes the issue function with the planner's answer for the command's own envelope, which is ready exactly when the gate lets it through |
| `Router.Router.Compact` | internal/siterouter/router.go:2354-2387 | each retention that is set deletes the old rows of its table, and the whole equals the compaction operations of a run |
| `RouterRuns.Receives` | internal/siterouter/router.go:471-591 | an ingest in a run is the router's own transaction, with its answer |
| `RouterRuns.Issues` | internal/siterouter/router.go:1234-1323 | so is the issuing of a command, with the planner's answer for it |
| `SiteRouterCommands.IssueIsAtomic` | internal/siterouter/router.go:1234-1323 | message, ledger row and queue row are written together or nothing changes; the queue row is a new leasable one exactly when its key was free |
| `SiteRouterCommands.NewQueueRow` | internal/siterouter/router.go:1290-1323 | under a free key the row added carries the command's own envelope, plan, priority and time, with no owner and no retries |
| `SiteRouterRuns.EveryRunIsConsistent` | internal/siterouter/router.go:471-637 | over every run of ingests, commands, queue calls and compactions all table invariants hold |
| `SiteRouterRuns.RepeatedIssueReturnsItsRow` | internal/siterouter/router.go:1255-1271 | after any run, issuing a command again changes nothing and returns its first message and, until compaction, its queue row, whatever the planner says by then |
| `SiteRouterRuns.CommandsGetTheirOwnRow` | internal/siterouter/router.go:3116-3127 | as long as commands use their default keys and nobody else chooses such a key, every command that is taken gets a queue row of its own |
| `SiteRouterRuns.TakenKeyAttachesCommand` | internal/siterouter/router.go:1290-1323 | two commands under one chosen queue key: the second is persisted and acknowledged, but the only queue row carries the first |
| `SiteRouterRuns.RebuildIsNoOp` | internal/siterouter/router.go:1030-1081 | after every run of the router, rebuilding its own latest-state table changes nothing if all persisted states have times and share a session per key and instant |
| `SiteRouterRuns.RebuildIsNoOpIff` | internal/siterouter/router.go:1030-1081 | after every run of the router, rebuilding its own table changes nothing, however the sort orders the candidates, exactly when every row beats all other candidates of its key |
| `CommandTokenRuns.AllocatedTokenIsFree` | pkg/sdk/client.go:259-275 | a token the allocator returns for a command never makes issuing that command fail for a taken token slot if nothing happens in between |
| `CommandTokenRuns.AllocatedTokenFailsIffTakenMeanwhile` | pkg/sdk/client.go:259-275 | with any run in between, issuing a new sendable command fails for its slot exactly when another command took the same target, window and token since the allocation |
| `CommandTokenRuns.AllocatedTokensTellTheirCommandIff` | pkg/sdk/client.go:150-205 | over every run from empty tables in which all tokens come from the allocator, each allocated at some earlier point of the run: the query for every target and token has one possible answer exactly when no command was overtaken, that is issued after another command had got the same token, in any window, since its allocation |
| `CommandTokenRuns.AllocatedTokensTellTheirCommand` | pkg/sdk/client.go:259-275 | so with nothing between each allocation and its issue, every token tells its command |
| `CommandTokenRuns.OpKeepsTokensUniqueIff` | internal/siterouter/router.go:1234-1323 | one operation keeps tokens unique per target exactly unless it takes a command whose token another command got since the allocation |
| `CommandTokenRuns.TwoClientsShareToken` | pkg/sdk/client.go:150-205 | two clients whose ids start at the same token allocate before either issues, with different windows: the allocator gives both that token, the unique index lets both commands through, and the token query has two answers |
| `CommandTokenRuns.ResultMovesTheWrongCommand` | internal/siterouter/router.go:800-822 | after both commands of two such clients were issued, a result by token is taken for either, and moves the ledger row of whichever command the query answers |
| `CommandTokens.EachTokenOnce` | pkg/sdk/client.go:259-275 | from any start, each of the 65535 tokens is probed in exactly one round |
| `CommandTokens.ProbesCountUp` | pkg/sdk/client.go:237-275 | probing starts at the low 16 bits of the hash, 1 for 0, counts up, and wraps from 65535 to 1 |
| `CommandTokens.Allocate` | pkg/sdk/client.go:259-275 | returns the first token in probing order that is free or the command's own, and none exactly when all 65535 are held by other commands |
| `CommandTokens.OwnTokenIsKept` | pkg/sdk/client.go:259-275 | a command that has a token keeps it, unless a free one comes earlier in its probing round |
| `CommandPhases.LogRisesAndLedgerFollows` | internal/siterouter/router.go:793-866 | after any reports the logged phases of each command strictly rise in rank, are at most three, and the ledger shows the last of them |
| `CommandPhases.EndedForGood` | internal/siterouter/router.go:838-856 | after a terminal phase no report changes the command's ledger row or log |
| `CommandPhases.TakenIffRankRises` | internal/siterouter/router.go:185-206 | a result is taken exactly when it repeats the phase or rises in rank, except that an executing command cannot be rejected |
| `CommandPhases.TokenIsUniqueIffOneWindow` | internal/siterouter/router.go:800-822 | resolving a result by target and token has one answer exactly when the token is held in one window only |
| `LatestState.OrderNeverMattersIffMaximum` | internal/siterouter/router.go:692-763 | for one key the stored state is independent of the arrival order exactly when one state compares above all others |
| `LatestState.ComparisonCanCycle` | internal/siterouter/router.go:738-763 | three states at one instant in two sessions compare in a circle, and two arrival orders leave different rows |
| `LatestState.SharedSessionsHaveMaximum` | internal/siterouter/router.go:738-763 | states that share one session per instant have a maximum, and it is the one stored |
| `LatestState.ProjectionIsMaximum` | internal/siterouter/router.go:692-736 | where every key has a maximum the whole projection is the same for all arrival orders and holds the maxima |
| `LatestState.Projection.Upsert` | internal/siterouter/router.go:692-736 | a state replaces the stored one exactly when it compares above it |
| `LatestState.Projection.Rebuild` | internal/siterouter/router.go:1030-1081 | the rebuilt table is the projection of the sorted candidates |
| `LatestState.RebuildEqualsProjection` | internal/siterouter/router.go:1030-1081 | with times on all states and one session per key and instant, the incremental projection in any order equals the rebuild |
| `LatestState.RebuildReproducesIff` | internal/siterouter/router.go:1030-1081 | with no condition on sessions or times: the rebuild reproduces the incremental table, in whatever order the sort leaves the candidates, exactly when every stored row compares above all other candidates of its key |
| `LatestState.RebuildDiffersAcrossSessions` | internal/siterouter/router.go:1055-1081 | four timed states of one instant in two sessions, sorted by insertion as the library's stable sort does with a short slice: the rebuilt row is another one than the row stored |
| `LatestState.RebuildKeepsRowIff` | internal/siterouter/router.go:1030-1081 | where every key has a maximum, a rebuild leaves a row as it is exactly when the row carries a time and compares above every persisted state of its key that came without one |
| `LatestState.RebuildEqualsProjectionIff` | internal/siterouter/router.go:1030-1081 | where every key has a maximum, the rebuilt table equals the incremental one exactly when that holds of every row |
| `LatestState.RebuildDiffersWithoutTimes` | internal/siterouter/router.go:1055-1062 | a state without a time loses when it arrives and wins in the rebuild |
| `RadioDedupe.AnswersFollowHistory` | internal/siterouter/router.go:639-690 | over every run with compactions, an event is a duplicate exactly when its key's last sighting is at most ten minutes old, and the answer names the message that opened the window |
| `RadioDedupe.CompactionIsInvisible` | internal/siterouter/router.go:2362-2367 | runs of the sightings table with the same sightings and different compactions give the same answers |
| `RadioDedupe.DeletedIsOld` | internal/siterouter/router.go:2421-2431 | with any positive hour retention, what compaction deletes was last sighted more than ten minutes before |
| `RadioDedupe.SightingKeptIff` | internal/siterouter/router.go:2362-2367 | a sighting is kept exactly unless retention is on and its text is older than that many whole hours before now |
| `RadioDedupe.PersistedAreSeparated` | internal/siterouter/router.go:655-658 | in terms of the history: a sighting that opens a window is more than ten minutes after every earlier one of its key |
| `RadioDedupe.RelayedCopyIsDuplicate` | internal/hostagent/agent.go:421-438 | a copy of a packet that came over any chain of relays within the window is a duplicate of the original |
| `RadioDedupe.TextsFollowSeconds` | internal/siterouter/router.go:2421-2431 | comparing stored timestamp texts never calls a later second older |
| `RadioCompaction.CompactionNeverChangesAnAck` | internal/siterouter/router.go:2354-2371 | every run of the router gives the same answers and leaves the same messages, ledgers and outbox as the same run without any compaction of sightings |
| `RadioIngest.RelayedCopyHasSameKey` | internal/hostagent/agent.go:421-438 | a relayed copy of an event frame is an event frame with the same dedupe key |
| `RadioIngest.PersistedOutsideWindow` | internal/siterouter/router.go:639-690 | whatever the router does in between, compaction included, an event is persisted only more than ten minutes after every counted sighting of its key |
| `RadioIngest.HeardTwicePersistedOnce` | internal/hostagent/agent.go:578-617 | whatever the router does in between, compaction included, a copy of a persisted event packet heard at most ten minutes later, over any relays and in any five-minute event id bucket, is a duplicate and persists nothing |
| `RadioIngest.DifferentEventIsPersisted` | internal/hostagent/agent.go:421-438 | after any run in which all events were heard as packets of another origin, target, sequence, type or body, an event packet is persisted as a message of its own, over whatever relays and at whatever time |
| `FileChunks.CompleteIffAllChunks` | internal/siterouter/router.go:2464-2494 | a file is complete exactly when its chunks are 0 to total - 1 for a positive total, which all its rows name |
| `FileChunks.Pigeonhole` | internal/siterouter/router.go:2489-2492 | indices within bounds fill all places exactly when they are as many as the places |
| `FileChunks.StoreKeepsUniform` | internal/siterouter/router.go:968-1003 | storing a chunk keeps one total per file |
| `FileChunks.AnyRowDecides` | internal/siterouter/router.go:968-988 | whichever row of the file the query for its total returns, the chunk is refused or stored alike |
| `FileChunks.ChunkKeptIff` | internal/siterouter/router.go:2380-2385 | compaction keeps exactly the chunks whose last update is not older than the cutoff text |
| `Timestamps.TextOrderAcrossSeconds` | internal/siterouter/router.go:1845-1845 | in different seconds comparing the texts byte by byte is comparing the times |
| `Timestamps.TextOrderWithinSecond` | internal/siterouter/router.go:1916-1944 | within one second the comparison is right exactly when neither trimmed fraction properly continues the other |
| `Timestamps.ContinuationReversesOrder` | internal/siterouter/router.go:1916-1944 | a fraction that continues another belongs to the later time but sorts first |
| `Timestamps.WholeSecondSortsLast` | internal/siterouter/router.go:1916-1944 | the text of every whole second sorts after the texts of all later instants of that second |
| `Timestamps.MidnightSortsAfterItsFirstNanosecond` | internal/siterouter/router.go:1916-1944 | two concrete instants, a nanosecond apart, whose texts compare the wrong way round |
| `Timestamps.TextOrderRespectsSeconds` | internal/siterouter/router.go:2421-2431 | an earlier text is never of a later second |
| `Timestamps.LessIsTotal` | internal/siterouter/router.go:757-762 | the byte-wise comparison is a strict total order |
| `Timestamps.ExampleText` | internal/siterouter/router.go:1916-1944 | the text of an instant: year, month, day, time, and the trimmed fraction if there is one |
| `Crc32.ComputeCrc32` | firmware/esp-idf/components/fabric_proto/src/usb_frame.c:5-15 | the two nested loops compute the checksum, octet by octet and bit by bit |
| `Crc32.StepInjective` | firmware/esp-idf/components/fabric_proto/src/usb_frame.c:8-12 | the bit step of the checksum loses nothing |
| `Crc32.StepAdditive` | firmware/esp-idf/components/fabric_proto/src/usb_frame.c:8-12 | the bit step is linear over exclusive or |
| `Crc32.ChecksumIffResidue` | firmware/esp-idf/components/fabric_proto/src/usb_frame.c:5-15 | a stored checksum is right exactly when the register over message and checksum is a fixed residue |
| `Crc32.BurstChangesRegister` | firmware/esp-idf/components/fabric_proto/src/usb_frame.c:5-15 | changes confined to four consecutive octets always change the register |
| `UsbFrame.Validate` | firmware/esp-idf/components/fabric_proto/src/usb_frame.c:25-56 | returns the verdict on the frame: size, magic, version, type, length and checksum errors in this order |
| `UsbFrame.Encode` | firmware/esp-idf/components/fabric_proto/src/usb_frame.c:58-87 | writes exactly the frame on success and nothing beyond it, and nothing at all on an error |
| `UsbFrame.AcceptedIffFramed` | firmware/esp-idf/components/fabric_proto/src/usb_frame.c:25-87 | a frame is accepted exactly when it is the frame of a valid type and some payload |
| `UsbFrame.FramedOctets` | firmware/esp-idf/components/fabric_proto/src/usb_frame.c:58-87 | the frame octet by octet: magic, version, type, little-endian length, payload, little-endian checksum |
| `UsbFrame.BurstIsRejected` | firmware/esp-idf/components/fabric_proto/src/usb_frame.c:25-56 | no change within four consecutive octets, header and checksum included, turns an accepted frame into an accepted one |
| `UsbFrame.OctetReplacementIsRejected` | firmware/esp-idf/components/fabric_proto/src/usb_frame.c:25-56 | replacing any one octet by a different value is rejected, with the error of the field that was hit |
| `UsbFrame.FirstFaultIsNamed` | firmware/esp-idf/components/fabric_proto/src/usb_frame.c:25-56 | a header with several faults is refused for the first of magic, version and type |
| `UsbFrame.EncodeFrame` | internal/protocol/usbcdc/frame.go:13-30 | frames every payload of at most 65535 octets exactly like the firmware |
| `UsbFrame.DecodeFrameIsInverse` | internal/protocol/usbcdc/frame.go:32-53 | decoding yields a type and payload exactly when the octets are the frame of that type and payload |
| `UsbFrame.FirmwareAgreesWithHost` | internal/protocol/usbcdc/frame.go:32-53 | the firmware accepts exactly what the host decodes to a valid type |
| `UsbParser.Parser.Reset` | firmware/esp-idf/components/fabric_proto/src/usb_parser.c:9-15 | the parser is idle and its buffer zero |
| `UsbParser.Parser.Take` | firmware/esp-idf/components/fabric_proto/src/usb_parser.c:30-69 | one octet moves the parser and reports as the function of the octets collected so far says; the full-buffer branch is dead |
| `UsbParser.Parser.Push` | firmware/esp-idf/components/fabric_proto/src/usb_parser.c:17-72 | a call stops at the first frame or error, and the caller's buffer is written exactly as far as a reported frame |
| `UsbParser.HeaderDecides` | firmware/esp-idf/components/fabric_proto/src/usb_parser.c:30-69 | once the header is complete: too long is dropped with a size error, a complete frame is emitted or dropped with its verdict, anything else is kept |
| `UsbStream.FeedConcat` | firmware/esp-idf/components/fabric_proto/src/usb_parser.c:17-72 | cutting a stream in two changes neither the frames nor the pending octets |
| `UsbStream.SyncAttemptEnds` | firmware/esp-idf/components/fabric_proto/src/usb_parser.c:30-70 | whatever the parser is in the middle of, it is idle again within 512 octets |
| `UsbStream.StreamIsAccountedFor` | firmware/esp-idf/components/fabric_proto/src/usb_parser.c:30-70 | every octet is skipped, pending or part of exactly one emitted frame, in order |
| `UsbStream.DeliveredIffIdleBefore` | firmware/esp-idf/components/fabric_proto/src/usb_parser.c:30-70 | a frame that fits is emitted exactly when the octets before it leave the parser idle |
| `UsbStream.StrayMagicCostsTheFrame` | firmware/esp-idf/components/fabric_proto/src/usb_parser.c:30-43 | a single stray first magic octet before a frame loses that frame |
| `UsbStream.CleanStreamIsDelivered` | firmware/esp-idf/components/fabric_proto/src/usb_parser.c:17-72 | frames with noise free of the first magic octet between them come out all, in order, unchanged |
| `UsbLink.Link.InjectRxBytes` | firmware/esp-idf/components/usb_link/src/usb_link.c:155-202 | parses octet by octet, skips errors, and stops with a timeout when the queue is full |
| `UsbLink.Link.InjectOctet` | firmware/esp-idf/components/usb_link/src/usb_link.c:168-198 | one octet moves the parser; a finished frame is queued or, with a full queue, answered with a timeout; parser errors only reset |
| `UsbLink.Link.QueueReceivedFrame` | firmware/esp-idf/components/usb_link/src/usb_link.c:330-340 | queues a frame of acceptable length if there is room, and changes nothing otherwise |
| `UsbLink.ChunkQueuesItsFrames` | firmware/esp-idf/components/usb_link/src/usb_link.c:155-202 | a chunk is accepted exactly when the queue has room for all frames it completes; otherwise as many as fit are queued |
| `UsbLink.RunDeliversTheStream` | firmware/esp-idf/components/usb_link/src/usb_link.c:155-202 | as long as the queue never fills, chunk boundaries and reading pace do not matter |
| `UsbLink.CleanStreamArrives` | firmware/esp-idf/components/usb_link/src/usb_link.c:155-202 | any clean stream, cut into chunks in any way and read at any pace that keeps the queue from filling, arrives complete and in order |
| `UsbLink.Init` | firmware/esp-idf/components/usb_link/src/usb_link.c:33-57 | zero asks for the defaults, a limit beyond the buffer is refused |
| `OnAir.Encode` | internal/protocol/onair/codec.go:142-181 | encodes exactly the packets with a known version, a body and consistent relay fields, to the normalised packet's layout |
| `OnAir.DecodeEncode` | internal/protocol/onair/codec.go:142-214 | decoding an encoded packet gives it back with version and relay flag normalised |
| `OnAir.EncodeDecode` | internal/protocol/onair/codec.go:142-214 | encoding a decoded frame gives the frame back, and is refused exactly for a relay lifetime of 0 |
| `OnAir.EncodePacket` | firmware/esp-idf/components/fabric_proto/src/onair_frame.c:46-89 | the firmware writes the host's octets, only within the reported length, and nothing on an error |
| `OnAir.FirmwareDecodesLikeHost` | firmware/esp-idf/components/fabric_proto/src/onair_frame.c:14-44 | both decoders accept the same frames and give the same packets |
| `OnAir.BuildRelayForward` | internal/protocol/onair/codec.go:224-259 | forwards exactly packets with a known origin and lifetime above one, for a relay with an id |
| `OnAir.BuildRelayForwardFirmware` | firmware/esp-idf/components/fabric_proto/src/onair_frame.c:91-123 | forwards the same packets to the same result, but refuses an empty body |
| `OnAir.ReceivedPacketsHaveBody` | firmware/esp-idf/components/fabric_proto/src/onair_frame.c:14-44 | no received packet has an empty body, so the two forwarders agree on received packets |
| `OnAir.SameKeyIff` | internal/hostagent/agent.go:421-438 | two packets have one dedupe key exactly if origin, target, sequence, logical type and body digest are all equal |
| `OnAir.FreshPacketAfterOneRelay` | internal/protocol/onair/codec.go:224-259 | one relay carries a packet without extension, naming itself and the origin, with a lifetime of one left |
| `OnAir.FreshPacketIsForwardedOnce` | internal/protocol/onair/codec.go:224-259 | and no second relay carries it further |
| `OnAir.HopDecodes` | internal/protocol/onair/codec.go:183-259 | a hop succeeds exactly for a forwardable packet, and the next node decodes the forwarded packet |
| `OnAir.ChainKeepsIdentity` | internal/hostagent/agent.go:421-438 | over any chain of hops the dedupe key, body and origin stay, the lifetime falls by one per hop, and lifetime plus hop count stays the same modulo 256 |
| `OnAir.ChainSucceedsIff` | internal/protocol/onair/codec.go:224-259 | a chain succeeds exactly when all relays have ids, the origin is known and the chain is shorter than the lifetime |
| `OnAir.TypedRoundTrip` | internal/protocol/onair/codec.go:261-455 | all seven typed bodies come back from the wire as sent, with the summary flag |
| `OnAir.TypedFrames` | internal/protocol/onair/codec.go:261-455 | the seven typed frames octet by octet |
| `OnAir.RelayedFrame` | internal/protocol/onair/codec.go:142-181 | a relayed frame octet by octet |
| `OnAir.BodyIsDetermined` | internal/protocol/onair/codec.go:261-455 | typed decoding loses nothing but the exact non-zero value of a state's wake octet |
| `TokenRing.SeenIffRecent` | firmware/esp-idf/node-sdk/main/sleepy_policy.c:516-527 | looking through the slots finds exactly the tokens among the last recordings, as many as there are slots |
| `TokenRing.RecordHolds` | firmware/esp-idf/node-sdk/main/sleepy_policy.c:529-538 | writing round robin keeps the ring equal to the last tokens recorded |
| `TokenRing.SeparatedIffUnseen` | firmware/esp-idf/node-sdk/main/sleepy_policy.c:497-514 | recording keeps repeats far apart exactly when the token was not in the ring at that moment |
| `TokenRing.ManyBetweenRepeats` | firmware/esp-idf/node-sdk/main/sleepy_policy.c:516-538 | between two recordings of a token at least as many different other tokens were recorded as the ring has slots |
| `SleepyLeaf.RepeatsAreFarApart` | firmware/esp-idf/node-sdk/main/sleepy_policy.c:673-723 | between two effects, or two results, for one token at least as many other tokens were recorded as the ring has slots |
| `SleepyLeaf.Leaf.Apply` | firmware/esp-idf/node-sdk/main/sleepy_policy.c:673-723 | a recent token does nothing at all; any other is recorded once, takes effect exactly if it is known and not expired, and gets exactly one result |
| `SleepyLeaf.Leaf.Perform` | firmware/esp-idf/node-sdk/main/sleepy_policy.c:690-721 | effect, recording and RTC copy are one hold of the lock |
| `SleepyLeaf.Leaf.SendTerminalOnce` | firmware/esp-idf/node-sdk/main/sleepy_policy.c:497-514 | a recent token gets no second result and changes nothing |
| `SleepyLeaf.Leaf.Seen` | firmware/esp-idf/node-sdk/main/sleepy_policy.c:516-527 | true exactly for a token among the last recordings, never for token zero |
| `SleepyLeaf.Leaf.FinishCycle` | firmware/esp-idf/node-sdk/main/sleepy_policy.c:562-572 | counts the maintenance cycles down to zero and then no further; the leaf stays awake exactly while some remain |
| `SleepyLeaf.Leaf.SetMaintenance` | firmware/esp-idf/node-sdk/main/sleepy_policy.c:220-231 | sets or clears all maintenance cycles and saves the copy |
| `SleepyLeaf.Leaf.Restore` | firmware/esp-idf/node-sdk/main/sleepy_policy.c:583-604 | a valid RTC copy is taken over field by field, an invalid one is replaced by the current state |
| `SleepyLeaf.Leaf.Wake` | firmware/esp-idf/node-sdk/main/sleepy_leaf_main.c:26-49 | waking from deep sleep at any release of the lock keeps the remembered tokens, the sequence and the maintenance cycles if RTC persistence is on; the settings made by commands stay the same exactly when threshold, quiet and sampling were 0 and no alarm was cleared |
| `SleepyLeaf.Leaf.constructor` | firmware/esp-idf/node-sdk/main/sleepy_policy.c:99-112 | after power on with any RTC memory: an invalid copy is replaced and the leaf remembers nothing; a valid one, by chance or left over, is taken over field by field |
| `SleepyLeaf.SettingIsLostInSleep` | firmware/esp-idf/node-sdk/main/sleepy_policy.c:583-604 | applying a command, sleeping, and sending it again: its setting is in effect at the end exactly when it is one of maintenance or a value of 0 |
| `SleepyLeaf.SettingOutlastsSleepIff` | firmware/esp-idf/node-sdk/main/sleepy_policy.c:583-604 | of the settings in effect exactly maintenance and those at 0 are in effect after deep sleep, for every command kind |
| `SleepyLeaf.EachKindSetsItsOwn` | firmware/esp-idf/node-sdk/main/sleepy_policy.c:690-723 | each command kind sets its own setting and no other; maintenance lasts three cycles |
| `SleepyLeaf.ResendAfterSleep` | firmware/esp-idf/node-sdk/main/sleepy_policy.c:673-723 | sending the command again after deep sleep restores its setting exactly when it outlasted the sleep or its token has left the ring |

## Left out

- SQLite itself, write-ahead logging, schema migration, JSON marshalling and database errors other than a taken token slot; a worker may give up at any point instead.
- Metrics, queries for operators, heartbeat and summary tables, device registration, and the uniqueness of fabric short ids.
- Envelope fields that only pass through, and the field checks of validation that nothing else depends on: their verdict is a parameter.
- Attempt records and the reasons merged into attempt details; the router's dispatcher answers with an outcome instead of a status text.
- The spool, reject file and in-memory frame cache of the host agent: their flush loop adds no property beyond the replay theorem.
- Security modes and key handling; payload size estimation and time to expiry, whose results are parameters of planning and of the compact command.
- Rounding in the airtime formula: exact rational arithmetic with the same ceilings.
- FreeRTOS locks and queues, radio and USB drivers, board pins, and the command line programs.
- The Python track under `src/`.
- SleepyLeaf.Leaf.Apply: one task handles downlinks. The check of the ring and the recording are separate holds of the lock for effects, and `TokenRing.SeparatedIffUnseen` says what two such tasks would break.
- SleepyLeaf.Leaf.constructor: calls before the defaults are applied, which would save an empty state over the copy, are not modelled; and where the RTC memory holds a valid copy by chance, no record of earlier tokens exists that it could be compared with.
- RadioDedupe.AnswersFollowHistory: each transaction reads one time, where the code reads the clock up to three times.
- Outbox.Queue.LeaseOutbound: the selected rows are a parameter that must be a possible answer of the query; `Outbox.BatchExists` shows that there always is one.
- LatestState.Projection.Rebuild: sorting may return any permutation of the candidates, the stable sort's among them; the theorems hold for all of them.
