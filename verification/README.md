# Quicktun, verified

Quicktun is a control plane for reverse tunnels: it allocates relay ports to services, renders
rathole configs, supervises one rathole server per project and keeps remote agents in step with
the database. This project models the parts of it in which state, time or concurrency decide
correctness, and proves what they promise. All models are parameterised over what they cannot
see: the order in which goroutines run, clock readings, child run times, hashes, the results of
calls and disk writes.

`dafny verify dfyconfig.toml` checks everything.

## The parts

**The relay manager** (`RelayProtocol`, `RelayInvariant`, `RelayTheorems`, `RelayLiveness`,
`RelayFairness`, `RelayWaitGroup`, `RelayRefresh`, `RelayRemove`, `RelayRoot`, `RelayLimits`,
`RelayManager`).
`AddProject`, `RemoveProject`, `Refresh` and `Stop` hold the mutex only for short sections. A state
of the protocol records every call in flight with the place it has reached, every supervisor with the place its goroutine has reached,
the slot table, the closed flag and the wait group; an event is one critical section, one
cancel, one close, one wait-group update or one step of a supervisor loop, and any enabled event
may come next. `RelayManager.Manager` is the object with those fields. Its short methods are what
the source does between two points where another goroutine may run, one event each; the four
operations run them in order, with a scheduler free to let any other goroutine take any steps in
every gap, and are proved against what their callers rely on.

**Timed restarts and alerts** (`Supervisor`, `CrashLoop`, `Alerts`). The restart loop with its
capped doubling backoff and reset, how long each wait is, its amortised rate by a potential
argument with a family of runs that meets it, the pruned sliding window refining a detector that keeps the full history,
and the two put together.

**The port ledger** (`PortRange`, `Ledger`, `LedgerInvariant`, `LedgerRows`, `LedgerLimits`,
`LedgerReuse`, `LedgerEffects`, `LedgerReplies`, `LedgerHandlers`). Tables of projects, sites and services with a
soft-delete flag; every admin handler is one atomic step. Two invariants: one over every run, one over "gentle" runs, which
have no forced delete and no change of a port range; exactly when gentle steps can hand out a
port twice, and which ungentle steps lead there; what a create or a delete changes for later
lookups and allocations; and, for every request, what it is answered and which fields of which row
it writes, said of the request and the rows alone. `LedgerHandlers.Server` runs the handlers in place, with the source's loops.

**Tokens, routing and configs** (`Tokens`, `Router`, `Sorting`, `Render`, `RenderAgreement`,
`ControlPort`). Token rotation as a table refining one credential per site; the auth proxy's routing
decision, for agents and for operators, read off the rows; both rathole configs and their agreement
on keys, tokens and ports; and the control port, where an agent, the proxy and the relay meet.

**Drift** (`ConfigVersion`, `ConfigCollision`, `Drift`, `DriftTheorems`, `AgentRuntime`,
`AgentRefinement`). The canonical text behind the config version, its decoder, and which lists
share a text; the agent and the server as a protocol in which admins act between any two steps;
the agent's retry loop, heartbeat loop and single supervisor, and that they play the protocol.

**Lists, liveness and names** (`Paging`, `Liveness`, `Names`, `Text`). Paged walks under
concurrent change, heartbeats against sweeps, and the grammar of resource names.

## What turned out false, and when exactly it holds

- A `Stop` that finds a supervisor taken out by `RemoveProject` but not yet cancelled can return
  while that supervisor goes on to start a child. `RelayTheorems.StopIsFinal` holds when no such
  supervisor is paused before its `wg.Add` with a live context, and
  `RelayLiveness.InTransitEscapesStop` gives the bad run whenever one is.
- A wait-group counter at zero may not be raised while somebody is inside `Wait`; a spawn that is
  paused between its unlock and its `wg.Add` can do that under a `Stop` which has waited
  (`RelayWaitGroup.ReuseHappens`). `RelayWaitGroup.WaitReuseExact` says when a waiting Stop, and
  `RelayWaitGroup.StopReuseExact` when a Stop about to take the table, can meet it.
- `RemoveProject` followed by `AddProject` can leave two children of one project alive, because
  it cancels without waiting (`RelayLimits.RemoveAllowsTwoChildren`). `RelayRemove.RemoveExact`
  says of every remove about to take its slot whether it opens the way to that: exactly when the
  supervisor it takes has a child or can still start one, and a new supervisor of the project can
  still get a live context. In runs without `RemoveProject` there is never more than one child
  (`RelayTheorems.OneChildPerProject`).
- After a forced delete or a change of a port range two live services can hold one port
  (`LedgerLimits.ForcedDeleteSharesPort`, `LedgerLimits.RangeUpdateSharesPort`).
  `LedgerReuse.PortsKeptExactly` says from which tables gentle steps can lead there: exactly those
  in which some live service is not guarded, that is, its site or project is deleted or its port
  is neither in its project's range nor one above it. The three `...Exact` lemmas there say which
  updates and deletes leave such a service. A stale service left by a forced delete also hides
  the port's new owner from operators (`Router.ForcedDeleteHidesService`).
- Two different service lists can have one config version without any hash collision, when a
  target address holds a newline (`ConfigVersion.NewlineCollision`). Over all rows that can be
  stored a list shares its text with some other list exactly when it has two rows or more, or its
  one row reads as two (`ConfigCollision.CollisionExact`); among lists without newlines none does
  (`ConfigVersion.PreimageExact`).
- `UpdateSite` saves the whole row it read, so an update around a site's first heartbeat makes
  the site pending again, and no sweep then ever reports it
  (`Liveness.UpdateHidesFirstHeartbeat`). `Liveness.UpdateExact` reads off the writes between its
  read and its save whether an update does such harm, `Liveness.PendingUpdateExact` for pending
  sites.
- A supervisor that a call builds before `Start` hangs below the background context, so the end of
  the root context does not reach it (`RelayRoot.BuiltBeforeStart`); all built after it do end
  (`RelayRoot.RootReachesAll`).
- The router's comment promises targets of the form `127.0.0.1:<port>` only; the code also lets
  `[127.0.0.1]:<port>` and leading zeros pass (`Router.TargetExact` states what it accepts).

## Model

| member | source | states |
|---|---|---|
| RelayInvariant.InvKept | internal/relay/manager.go:144-339 | every event keeps the inductive invariant: slots hold supervisors that were inserted, each supervisor has one owner, whoever is uncancelled can be found, the wait group counts exactly the goroutines launched or being launched |
| RelayInvariant.InvAlways | internal/relay/manager.go:144-339 | the invariant holds after every run, in every interleaving |
| RelayTheorems.SupFollows | internal/supervisor/supervisor.go:66-173 | in any event a supervisor stays or makes one legal move of its life; a start is only ever the move from exec to child |
| RelayTheorems.SlotEmptied | internal/relay/manager.go:250-257 | a slot is emptied only by RemoveProject, by Stop, or by a Refresh whose supervisor has closed its done channel |
| RelayTheorems.OneActiveKept | internal/relay/manager.go:300-317 | without RemoveProject(p), at most one supervisor of p can own a child, and before Stop it sits in the slot |
| RelayTheorems.OneChildPerProject | internal/relay/manager.go:300-317 | in every run from the start without RemoveProject(p), two live children of p are the same child |
| RelayLimits.RemoveAllowsTwoChildren | internal/relay/manager.go:250-262 | wherever an Add would go through, Add, Remove, Add, each run to its end, can leave two children alive |
| RelayRemove.RemoveExact | internal/relay/manager.go:250-262 | a RemoveProject(p) about to take its slot opens the way to two live children of p exactly when the supervisor it takes has a child or can still start one, and some AddProject, in flight or to come, can still build one with a live context |
| RelayTheorems.UncancelledIsFound | internal/relay/manager.go:222-257 | an uncancelled supervisor is in its slot or held by exactly one call about to cancel it, never both; before insertion its builder carries it |
| RelayTheorems.LoserNeverRuns | internal/relay/manager.go:223-234 | a race loser never starts a child in any continuation and is closed once, after its cancel |
| RelayTheorems.NoDoubleCloseNoNegativeWaitGroup | internal/relay/manager.go:223-245 | each done channel is closed at most once; the wait group is the number of launched, unfinished goroutines and never negative |
| RelayTheorems.LiveIsLooping | internal/supervisor/supervisor.go:66-104 | a launched supervisor whose context is live is still inside its loop: it never returns of itself |
| RelayTheorems.StopIsFinal | internal/relay/manager.go:329-339 | once a Stop that found none in transit has returned, no child is alive and none starts in any continuation, however long a spawn was paused |
| RelayLiveness.InTransitEscapesStop | internal/relay/manager.go:236-262 | the side condition of StopIsFinal is exact: whenever it fails there is a run in which Stop returns and a child starts later |
| RelayLiveness.MovesAreBounded | internal/supervisor/supervisor.go:66-104 | in any run a supervisor whose context is done makes at most six more moves |
| RelayLiveness.CloserToEnd | internal/supervisor/supervisor.go:66-104 | such a supervisor always has an enabled step that lowers its rank |
| RelayLiveness.RefreshWaitEnds | internal/relay/manager.go:302-307 | a waiting Refresh can proceed, or a step is enabled that brings its cancelled supervisor closer to closing its channel |
| RelayLiveness.OnlyTwoWaits | internal/relay/manager.go:302-338 | a call has no enabled step exactly when it is finished, a Refresh on an open channel, or a Stop on a non-zero wait group |
| RelayLiveness.StopCanReturn | internal/relay/manager.go:329-339 | from every reachable state some run brings a waiting Stop to its end |
| RelayFairness.DebtNeverRises | internal/relay/manager.go:335-338 | once Stop has closed the manager, no event of anyone raises what the supervisors in the table still owe before they are over |
| RelayFairness.HelpPersists | internal/relay/manager.go:335-338 | the next step of an owing supervisor, or of the call that launches or cancels it, stays possible until what it owes is lowered |
| RelayFairness.StopReturnsFairly | internal/relay/manager.go:329-339 | in every weakly fair run a waiting Stop comes to its end: after at most as many rounds as the debt the wait group is at zero and Stop has returned or can |
| RelayFairness.FairRoundsExist | internal/relay/manager.go:329-339 | from every state after Stop has closed the manager there are fair rounds, as many as one likes |
| RelayWaitGroup.WaitReuseExact | internal/relay/manager.go:236-239 | while Stop waits on a raised counter: it can come down and be raised again before Stop returns exactly when some spawn is paused between its unlock and its wg.Add |
| RelayWaitGroup.StopReuseExact | internal/relay/manager.go:236-338 | when Stop is about to take the table: that lies ahead exactly when some spawn is so paused and, besides it, the counter is up or another spawn is so paused too |
| RelayWaitGroup.ReuseHappens | internal/relay/manager.go:236-338 | a run from the start, two AddProjects and a Stop, that comes to such a state |
| RelayRefresh.RefreshIsFresh | internal/relay/manager.go:277-318 | with no overlapping call on the project, a Refresh that returns nil leaves in the slot an uncancelled supervisor whose loop is running unless the root context is done, whose children read the config the database rendered to, and no other that can own a child |
| RelayRefresh.RefreshFailsSafe | internal/relay/manager.go:277-318 | a Refresh whose first render fails leaves the old supervisor tracked and uncancelled; if the second fails, the slot is empty and the old supervisor is over |
| RelayRoot.StartOnce | internal/relay/manager.go:107-109 | the root context is installed at most once, and only then can it be done |
| RelayRoot.RootReachesAll | internal/relay/manager.go:154-215 | in a manager started before use, a supervisor's context is done exactly when it was cancelled or the root is done, and one in the table then makes at most six more moves |
| RelayRoot.BuiltBeforeStart | internal/relay/manager.go:184-186 | a supervisor built before Start never ends with the root, in any continuation: only a cancel of its own ends it |
| RelayManager.Manager.AddProject | internal/relay/manager.go:144-246 | whatever other goroutines do between its locked sections: nil means a supervisor of the project was in the table during the call, the closed error that Stop had begun |
| RelayManager.Manager.RemoveProject | internal/relay/manager.go:250-262 | the slot was emptied during the call and whatever was in it is cancelled when the call returns |
| RelayManager.Manager.Refresh | internal/relay/manager.go:277-318 | nil means the supervisor found in the slot is cancelled and over for good and afterwards one was in the table again; giving up on the context leaves it cancelled |
| RelayManager.Manager.Stop | internal/relay/manager.go:329-339 | the table is empty and closed, all it held is cancelled; once the wait ends nothing it held has or starts a child, and if none was in transit no supervisor at all |
| Supervisor.Run | internal/supervisor/supervisor.go:66-104 | the loop computes LoopAfter, whose rate RestartRate bounds |
| Supervisor.BackoffExact | internal/supervisor/supervisor.go:77-102 | after any uncancelled rounds the loop has waited once a round and would wait next what the ladder of seconds 1, 2, 4, 8, 16, 30 says of the rounds since the last run of more than a minute |
| Supervisor.WaitExact | internal/supervisor/supervisor.go:84-102 | a further round takes the child's run, one second if that was longer than a minute and else the rung reached, and what the timer is late |
| Supervisor.CancelEnds | internal/supervisor/supervisor.go:66-104 | the first round that meets a done context ends the loop for good: no exit if it was done before the run, one if later, and no further wait |
| Supervisor.RestartRate | internal/supervisor/supervisor.go:66-104 | whatever the child run times, n completed waits take T with 5T >= 91n - 300 seconds, and the backoff stays on 1, 2, 4, 8, 16, 30 |
| Supervisor.RateIsTight | internal/supervisor/supervisor.go:77-102 | for every k a run of 5k waits meets the bound up to one nanosecond per later climb |
| CrashLoop.CrashLoop.Record | internal/notify/crashloop.go:61-111 | recording replaces the project's stored window only, and reports the count exactly when the window is full; a threshold of zero or less does nothing |
| CrashLoop.RecordRefinesFullHistory | internal/notify/crashloop.go:65-80 | with a non-decreasing clock, an alert fires exactly when the detector that keeps every exit counts at least threshold of them since its last alert inside the open window, and then reports threshold |
| CrashLoop.ReplayIsRecent | internal/notify/crashloop.go:65-80 | what is stored is exactly the part of the history since the last alert that is inside the window |
| CrashLoop.StoredBelowThreshold | internal/notify/crashloop.go:65-80 | the stored window never reaches threshold |
| CrashLoop.ExitsConserved | internal/notify/crashloop.go:61-111 | records are threshold times alerts, plus expired, plus stored |
| CrashLoop.MoreAlerts | internal/notify/crashloop.go:61-111 | from any state of the detector, threshold times the further alerts is at most the exits stored plus the further exits |
| CrashLoop.ProjectsIndependent | internal/notify/crashloop.go:61-111 | each project sees the detector of its own exits alone |
| CrashLoop.FastLoopAlerts | internal/notify/crashloop.go:65-80 | exits at most gap apart raise an alert within threshold exits whenever (threshold-1)*gap < window |
| Alerts.AlertRate | internal/relay/manager.go:208-212 | whatever earlier supervisors of the project left stored, a run of T seconds raises at most ((5T+300)/91 + 1 + stored)/threshold alerts, with stored below threshold |
| Alerts.CrashLoopIsReported | internal/supervisor/supervisor.go:77-102 | whatever was stored, a child that always dies young is reported within the first threshold exits when the longest gaps fit the window |
| PortRange.RangeRoundTrip | internal/resource/portrange.go:12-32 | min-max parses exactly when min < max <= 65535, and then gives min and max back |
| PortRange.RangeExact | internal/resource/portrange.go:12-32 | a text parses to min and max exactly when it is two decimal numbers with any spaces around each, a dash between, and min < max <= 65535 |
| LedgerInvariant.AllocateIsLeastFree | internal/dao/service.go:109-139 | allocation gives the least port above the control port that no live service on a live site of the project holds, and fails exactly when all max - min of them are held |
| LedgerInvariant.DoKept | internal/grpcsvc/service_service.go:198-377 | every handler keeps the invariant of all runs, and every gentle one that of gentle runs |
| LedgerInvariant.LedgerIsSound | internal/dao/project.go:127-146 | over every run live ranges are disjoint, names unique, and ports of live services on live sites of one project distinct, range changes and forced deletes included |
| LedgerInvariant.PortsGloballyDistinct | internal/grpcsvc/service_service.go:220-246 | over gentle runs a live service's port lies in its live project's range above the control port, no two live services share one, and none is a control port |
| LedgerInvariant.GentleRunsKeepPortsDistinct | internal/grpcsvc/project_service.go:177-208 | the same from the empty tables through any gentle sequence of handlers |
| LedgerInvariant.MaskShape | internal/grpcsvc/project_service.go:313-366 | any update mask, in any order and with repeats, leaves slug and delete flag alone and accepts only a range that overlaps no other project |
| LedgerLimits.ForcedDeleteSharesPort | internal/grpcsvc/site_service.go:480-491 | a run of six handlers with a forced site delete that leaves two live services on one port |
| LedgerLimits.RangeUpdateSharesPort | internal/grpcsvc/project_service.go:323-344 | a run of seven handlers with a range change that does so across projects |
| LedgerReuse.PortsKeptExactly | internal/dao/service.go:109-139 | in sound tables where no port is held twice yet, every gentle continuation keeps it so exactly when every live service is on a live site of a live project whose range, with one place above it, holds its port |
| LedgerReuse.ProjectUpdateExact | internal/grpcsvc/project_service.go:323-344 | an update keeps that promise exactly when it is refused, its mask leaves the range alone, or the range it asks for is near the ports of the services reached through the project |
| LedgerReuse.ProjectDeleteExact | internal/grpcsvc/project_service.go:425-438 | a project delete, forced or not, keeps it exactly when it is refused or no live service is reached through the project |
| LedgerReuse.SiteDeleteExact | internal/grpcsvc/site_service.go:480-491 | a site delete, forced or not, keeps it exactly when it is refused or the site has no live service |
| LedgerEffects.CreatedProjectFound | internal/grpcsvc/project_service.go:177-255 | a created project is found by its slug, and every other slug finds what it found before |
| LedgerEffects.DeletedProjectGone | internal/grpcsvc/project_service.go:405-438 | a deleted project is not found, its slug is free, and every other slug finds what it found before |
| LedgerEffects.CreatedSiteFound | internal/grpcsvc/site_service.go:209-257 | the same of a created site and all names in all projects |
| LedgerEffects.DeletedSiteGone | internal/grpcsvc/site_service.go:471-491 | the same of a deleted site |
| LedgerEffects.CreateServiceExact | internal/grpcsvc/service_service.go:198-246 | a service is created exactly when the request is well formed, its site is a live one of its live project, the name is free there and fewer ports are held than the range has |
| LedgerEffects.CreatedServiceFound | internal/grpcsvc/service_service.go:198-246 | it is found by its name on a port its project did not use; no other name, no other port and no other project changes |
| LedgerEffects.DeletedServiceGone | internal/grpcsvc/service_service.go:348-359 | a deleted service is not found, its port alone becomes free in its project, and it is what the project allocates next unless a lower one is free or it lies outside the range |
| LedgerReplies.CreateProjectExact | internal/grpcsvc/project_service.go:177-255 | a project is created, with exactly the asked row, when the request is well formed, no live range has a port in common with its own and the slug is free; which reply each refusal gets |
| LedgerReplies.DeleteProjectReplies | internal/grpcsvc/project_service.go:405-438 | a project is deleted exactly when it is there and has no live site or the delete is forced; which reply each refusal gets |
| LedgerReplies.CreateSiteExact | internal/grpcsvc/site_service.go:209-257 | the same of a new site in its project |
| LedgerReplies.DeleteSiteReplies | internal/grpcsvc/site_service.go:471-491 | the same of a site and its live services |
| LedgerReplies.AllocationExact | internal/dao/service.go:109-139 | a port is allocated exactly when it is the least above the control port that no live service on a live site of the project holds; else the reply is that none is left |
| LedgerReplies.CreateServiceReplies | internal/grpcsvc/service_service.go:198-246 | the row that is stored, field by field, with the asked protocol or tcp and the least port left; and which refusal comes first |
| LedgerReplies.DeleteServiceReplies | internal/grpcsvc/service_service.go:348-359 | a service is deleted exactly when project, site and service are there |
| LedgerReplies.MaskExact | internal/grpcsvc/project_service.go:313-366 | over all masks, repeats included: accepted exactly when every listed path is known and its value fine; then each listed field holds the asked value and no other changes; the first bad path says how it is refused |
| LedgerReplies.UpdateProjectExact | internal/grpcsvc/project_service.go:290-370 | so an update writes exactly the listed fields of the named project's row, or nothing |
| LedgerReplies.UpdateServiceExact | internal/grpcsvc/service_service.go:270-327 | the same of a service: address, port and protocol exactly as listed, everything else as it was |
| LedgerRows.DoStored | internal/grpcsvc/service_service.go:210-241 | every stored row has slugs for names, 16-bit ports and a known protocol |
| LedgerHandlers.Server.OverlapsAny | internal/dao/project.go:127-146 | the scan finds an overlap exactly when some other live project's readable range meets the given one |
| LedgerHandlers.Server.UsedPorts | internal/dao/service.go:115-127 | the loop collects exactly the ports of live services on live sites of the project |
| LedgerHandlers.Server.AllocateRelayPort | internal/dao/service.go:109-139 | the search loop ends, at 65535 too, with what AllocateIsLeastFree describes |
| LedgerHandlers.Server.CreateProject | internal/grpcsvc/project_service.go:177-255 | a caller told OK finds the new project by its slug, every other slug as before; any other reply leaves the tables as they were |
| LedgerHandlers.Server.DeleteProject | internal/grpcsvc/project_service.go:405-438 | a caller told OK no longer finds the project, every other slug as before; any other reply changes nothing |
| LedgerHandlers.Server.CreateSite | internal/grpcsvc/site_service.go:209-257 | the same of a new site and all site names |
| LedgerHandlers.Server.DeleteSite | internal/grpcsvc/site_service.go:471-491 | the same of a deleted site |
| LedgerHandlers.Server.CreateService | internal/grpcsvc/service_service.go:198-246 | a caller told OK finds the service by its name, on the least port its project did not use; no other name and no other port changes; any other reply changes nothing |
| LedgerHandlers.Server.DeleteService | internal/grpcsvc/service_service.go:348-359 | a caller told OK no longer finds the service, and its port alone is free again, for the next service unless a lower one is |
| LedgerHandlers.Server.UpdateProject | internal/grpcsvc/project_service.go:290-370 | a caller told OK finds in the project's row the asked value in each listed field and the old one in every other, and no other row or table changed; any other reply changes nothing |
| LedgerHandlers.Server.UpdateService | internal/grpcsvc/service_service.go:270-327 | the same of a service row: address, port and protocol as listed, site, name, relay port and flag as they were |
| Tokens.IssueRefines | internal/dao/site.go:215-242 | issuing replaces the site's one credential, or fails and changes nothing exactly when another site holds the hash |
| Tokens.ValidateRefines | internal/dao/site.go:246-258 | a hash is accepted for a site exactly when it is the site's credential and that has no expiry or a later one |
| Tokens.ValidateExact | internal/dao/site.go:246-258 | over any rows: accepted exactly when some row not deleted bears the hash and has no expiry or now is before it; the lowest such row names the site |
| Tokens.LatestTokenOnly | internal/dao/site.go:215-264 | over any history of requests without hash collision, a raw token names its site exactly while it is the last issued to the site and, if it was given a time to live, now is before its issue plus that |
| Tokens.StrangerRejected | internal/dao/site.go:246-264 | a raw token never issued is never accepted |
| Tokens.TokenTable.Issue | internal/dao/site.go:215-242 | retires and inserts as one transaction |
| Tokens.TokenTable.ValidateRaw | internal/dao/site.go:246-264 | answers as Validate; exactly the accepted row is stamped, which changes no later answer |
| Router.TargetExact | internal/authproxy/router.go:105-116 | a target passes exactly when it is 127.0.0.1, plain or bracketed, with a decimal port up to 65535 |
| Router.OperatorRouteLowest | internal/authproxy/router.go:104-150 | on any tables an operator gets through exactly when the lowest-numbered live service on the port is one the operator may use |
| Router.OperatorRouteExact | internal/authproxy/router.go:104-150 | on gentle ledgers: exactly when some live service on the port is in an active project that an admin or grantee may use; that service is the only one there |
| Router.ForcedDeleteHidesService | internal/authproxy/router.go:118-129 | after a forced site delete a usable service is unreachable |
| Router.AgentRouteExact | internal/authproxy/router.go:75-94 | an agent is routed exactly while site and project are live and the project active; the address passes the proxy's own target parser and names the least port of its project's range; never an internal error |
| Router.AgentsKeptApart | internal/authproxy/router.go:75-94 | two agents get one address exactly when they are of one project |
| Router.AgentPortIsPrivate | internal/authproxy/router.go:89-93 | that port is in no other live project's range and, on gentle ledgers, no service's |
| Router.RouteByIssue | internal/authproxy/router.go:55-71 | the token last issued to a site leads to its project whatever the target until its time to live has passed; a replaced or expired one without a session of the same hash is rejected |
| Router.SessionRouteExact | internal/authproxy/router.go:55-150 | on gentle ledgers a bearer of no site's current token is let through to the target exactly when an unrevoked, unexpired session admits them, its operator is there, and that operator's own row makes them an admin or a grantee of the live service on the target's port; everybody else is rejected alike |
| Router.AgentComesFirst | internal/authproxy/router.go:55-71 | the bearer of a site's current token is routed as its agent, whatever sessions there are and whatever the target |
| Sorting.SortedUnique | internal/grpcsvc/agent_service.go:217 | when the order tells elements apart, sorted permutations are equal, whatever the algorithm |
| Sorting.SortForgetsOrder | internal/relay/render.go:38-43 | lists with the same elements sort alike |
| Sorting.LessExact | internal/relay/render.go:38-43 | one string is before another exactly when it is a proper prefix or smaller at the first character that differs |
| Render.RenderRatholeServer | internal/relay/render.go:32-62 | the caller's slice ends sorted, if the range can be read; the config is that of ServerOrder and ControlPort.ControlIsLeastPort |
| Render.RenderRatholeClient | internal/agent/render.go:29-71 | rejects an empty address or token, else the config of ClientOrder with the token's hash |
| Render.CollectBindings | internal/relay/manager.go:341-384 | the nested loops flatten the project's listed sites and services with each site's live token |
| RenderAgreement.BindingsExact | internal/relay/manager.go:341-384 | within the fetch caps, a binding is there exactly when it is that of a live service with a port on a live site |
| RenderAgreement.KeyInjective | internal/relay/render.go:53-55 | site and service slugs can be read off a flattened key |
| RenderAgreement.KeyPrefix | internal/relay/render.go:53-55 | a key starts with a slug and two underscores for its own site only |
| RenderAgreement.ServerForgetsOrder | internal/relay/render.go:38-43 | the server config does not depend on the order of the bindings |
| RenderAgreement.ServerOrder | internal/relay/render.go:38-59 | the blocks are those of the bindings, each as often as it comes, by site and within a site by service |
| RenderAgreement.ClientOrder | internal/agent/render.go:43-69 | the blocks are those of the tunnels by ascending slug, each with its local address |
| RenderAgreement.ClientForgetsOrder | internal/agent/render.go:43-53 | the client config does not depend on the order of the tunnels |
| RenderAgreement.ServerBlocksApart | internal/relay/render.go:53-59 | on any sound ledger no key and no port occurs twice in a server config |
| RenderAgreement.BindsGloballyApart | internal/relay/render.go:50-59 | on gentle ledgers no service is bound to any control port, and no two projects bind one port |
| RenderAgreement.TunnelsExact | internal/grpcsvc/agent_service.go:113-131 | within the cap, the tunnels a site is told of are exactly its live services with a port |
| RenderAgreement.FetchExact | internal/dao/service.go:50-73 | one fetch lists all services of a site, or a thousand of them; and the sites of a project likewise |
| RenderAgreement.ClientBlockServed | internal/agent/render.go:64-69 | each client block has a server block with its key, for the same service, with the site's token |
| RenderAgreement.ServerBlockHasClient | internal/relay/render.go:53-59 | each server block of the site's prefix has its client block |
| RenderAgreement.KeysAgree | internal/agent/render.go:64-69 | a site's client keys are exactly the server keys with its prefix |
| RenderAgreement.TokensAgree | internal/dao/site.go:215-242 | the two ends' tokens match exactly when the agent holds the raw token last issued to its site |
| ControlPort.ControlIsLeastPort | internal/relay/render.go:32-51 | a config is rendered exactly from a range that can be read, and its control port is the least port of it, whatever the bindings |
| ControlPort.ControlIsFree | internal/relay/render.go:50-59 | no two live projects share a control port, and on gentle ledgers no block of any config is bound to one |
| ControlPort.AgentReachesControl | internal/authproxy/router.go:75-94 | the auth proxy sends an agent to the control port that the relay renders for its project, exactly while site and project serve |
| ControlPort.AgentMeetsItsRelay | internal/grpcsvc/agent_service.go:134-148 | an agent whose bootstrap is answered and whose token is current is led by the proxy to the control port of the config rendered from the same tables, its fallback endpoint names that port, and each block it writes has its other end in that config |
| ConfigVersion.LineRoundTrip | internal/grpcsvc/agent_service.go:219-230 | a line is read back from both ends, whatever bars the address holds |
| ConfigVersion.EncodingExact | internal/grpcsvc/agent_service.go:219-230 | the hashed text can be read back to its rows exactly when no address holds a newline |
| ConfigVersion.PreimageExact | internal/grpcsvc/agent_service.go:195-233 | among lists with distinct slugs and no newlines, two texts are equal exactly when the rows are, in whatever order |
| ConfigVersion.PreimageOrder | internal/grpcsvc/agent_service.go:195-217 | the text lists every row, as often as it comes, by ascending slug |
| ConfigVersion.PreimageForgetsOrder | internal/grpcsvc/agent_service.go:195-217 | row order never matters |
| ConfigVersion.NewlineCollision | internal/grpcsvc/agent_service.go:219-230 | with a newline in an address one service can pose as two |
| ConfigCollision.CollisionExact | internal/grpcsvc/agent_service.go:195-233 | over all stored rows, newlines or not: a list shares its text with another exactly when it has two rows or more, or its one row reads as two |
| ConfigCollision.PoserHasNewline | internal/grpcsvc/agent_service.go:219-230 | a row that reads as two has a newline in its address |
| ConfigVersion.ComputeConfigVersion | internal/grpcsvc/agent_service.go:195-233 | the filter, sort and builder loops hash exactly that text |
| Drift.Bootstrap | internal/grpcsvc/agent_service.go:76-148 | the answer is that of BootstrapExact: site, endpoint, tunnels and version from one read of the tables |
| Drift.Heartbeat | internal/grpcsvc/agent_service.go:152-189 | the answer is that of HeartbeatExact |
| Drift.InvKept | internal/agent/runtime.go:154-339 | no lost call, failed apply or admin change separates the reported version from the file on disk, or the site it names from the agent's own |
| DriftTheorems.DriftAlways | internal/agent/runtime.go:154-339 | over every run from a new agent, with any failures and admin changes, version and file are of one answer, and an answered heartbeat says "no need" exactly when that answer is current, up to collision and newlines |
| DriftTheorems.DriftExact | internal/grpcsvc/agent_service.go:178-188 | an answered heartbeat says "no need" exactly when the last written config is the server's current one; up to collision and newlines |
| DriftTheorems.BootstrapExact | internal/grpcsvc/agent_service.go:76-148 | a bootstrap is answered exactly while site and project are live and the project active, else with which error; the answer names the site of the tables, all its tunnels and their version, and the proxy or the relay's host with the control port of the rendered server config |
| DriftTheorems.HeartbeatExact | internal/grpcsvc/agent_service.go:152-189 | a heartbeat is answered exactly while the project is live and active, with whether the version differs from that of the current tunnels |
| DriftTheorems.AnswerRenders | internal/agent/render.go:29-71 | rendered by the agent, an answer is exactly the client config of the tables; it fails exactly for an empty address or token |
| DriftTheorems.AnswerIsServed | internal/agent/render.go:64-69 | every block written from an answer has its other end in the server config of the same tables |
| DriftTheorems.SyncedIsLeftAlone | internal/grpcsvc/agent_service.go:178-188 | an agent in step is never told to bootstrap, whatever the hash |
| DriftTheorems.SyncedFile | internal/agent/runtime.go:294-324 | in step, the file on disk is exactly the client config of the tables now, with the token's hash, behind the bridge's address |
| DriftTheorems.VersionMovesWithFile | internal/agent/runtime.go:307-328 | version and file change only together, from one answer, in a successful apply |
| DriftTheorems.BeatSettles | internal/agent/runtime.go:197-226 | one answered heartbeat puts the agent on the way to the current config |
| DriftTheorems.Converges | internal/agent/runtime.go:191-228 | from then on, while the tunnels stay and writes succeed, whenever the agent rests it is in step and told so, through lost calls, repeated bootstraps and other admin changes |
| DriftTheorems.TwoStepsToRest | internal/agent/runtime.go:216-226 | from booting, one answer and one apply bring it to rest in step |
| AgentRuntime.BootstrapWithRetry | internal/agent/runtime.go:235-272 | the retry loop's result and the time it waited, for every sequence of outcomes |
| AgentRuntime.RetryExact | internal/agent/runtime.go:235-272 | it boots exactly when an answer precedes any rejection or cancellation within ten attempts, and gives up exactly when all ten fail, after 435 seconds |
| AgentRuntime.Runtime.StartSupervisor | internal/agent/runtime.go:341-372 | publishes one supervisor, the only one alive, started on the file now on disk |
| AgentRuntime.Runtime.StopSupervisor | internal/agent/runtime.go:374-387 | cancels the published supervisor and leaves none alive |
| AgentRuntime.Runtime.ApplyBootstrap | internal/agent/runtime.go:294-339 | a failed render or write leaves version, file and supervisor as they were; success moves all three together |
| AgentRuntime.Runtime.Run | internal/agent/runtime.go:154-229 | at most one supervisor is alive throughout, and a run that ends with its context leaves none |
| AgentRefinement.RunIsProtocolRun | internal/agent/runtime.go:154-229 | a whole run of the agent, for every script of outcomes that agrees with the server's answers, is a run of the drift protocol's agent with the same version, file and answer, waiting exactly when the loop came through |
| AgentRefinement.LinkedIsRun | internal/agent/runtime.go:154-229 | moves of the agent whose tables grow out of one another by admin requests are a run of the drift protocol, with those requests as its events |
| AgentRefinement.RunInWorld | internal/agent/runtime.go:154-339 | so a whole run of the agent on such tables ends, once it came through, with an answered heartbeat saying "no need" exactly when the config on disk is current, up to collision and newlines |
| AgentRefinement.Live | internal/agent/runtime.go:154-229 | the file a new agent object leaves on disk and the version it would report are of one answer, whatever happens in its run; where its tables grow out of one another it ends as RunInWorld says |
| Paging.SelectSorted | internal/dao/project.go:55-75 | a page holds visible ids after the cursor in strictly increasing order |
| Paging.SelectDense | internal/dao/project.go:55-75 | a page skips no visible id up to its last, and a short page none at all |
| Paging.PageExact | internal/dao/service.go:50-73 | a request is refused exactly when its token is no 64-bit number; else its page is the lowest visible ids after it, all of them or as many as asked for, 50 if it does not say, 1000 at most |
| Paging.CappedFetchExact | internal/dao/service.go:50-73 | a single capped fetch sees every row exactly when there are no more than the cap |
| Paging.WalkExact | internal/dao/project.go:55-84 | under any inserts, deletes, grants and page sizes a walk returns strictly increasing ids, each page holds only ids visible in its own fetch, and at its end every id visible throughout has been returned |
| Paging.WalkEnds | internal/dao/site.go:134-165 | while ids stay below a bound, that many fetches end the walk |
| Paging.ListAuditLogs | internal/grpcsvc/audit_service.go:49-122 | the over-fetch, cut and copy give the page, token and total of ListAudit |
| Paging.PageShape | internal/grpcsvc/audit_service.go:98-104 | what remains at a cursor is the page followed by what remains at the next cursor; an empty token means nothing remains |
| Paging.AuditPageExact | internal/grpcsvc/audit_service.go:49-122 | the same of an audit page: the newest filtered entries before the cursor, 50 if it does not say, 200 at most, a next token exactly when there are more, and the total of all |
| Paging.AuditWalkExact | internal/dao/audit.go:66-86 | under appends and with any page sizes the walk returns exactly the filtered entries of the first fetch, once each, newest first, within one fetch more than their number |
| Liveness.SteadyNeverFlipped | internal/sweeper/sweeper.go:85-101 | while each heartbeat write lands within OfflineAfter of the time the last one carries, every sweep leaves the row it meets unchanged, wherever it lands |
| Liveness.SilentExact | internal/dao/site.go:122-131 | without heartbeats a site is offline exactly when some sweep's threshold passed its last seen time |
| Liveness.DetectionBound | internal/sweeper/sweeper.go:57-101 | in a run whose sweeps read the clock at most Interval apart, a site silent from some write on is found by a sweep that reads the clock within Interval of the later of that write's landing and last seen plus OfflineAfter, and is offline from then on |
| Liveness.PendingExact | internal/dao/site.go:105-131 | a site is pending exactly when its status was never set, or was last set by an update that had read it pending |
| Liveness.RowExact | internal/dao/site.go:72-131 | after any writes the time last seen is the last one written and the status the last one set, turned offline exactly by a later sweep whose threshold was past the time seen by then |
| Liveness.UpdateExact | internal/grpcsvc/site_service.go:277-331 | an update leaves liveness alone exactly when, of the writes between its read and its save, the last to carry a time carries the one it read and the last to set the status, a heartbeat, an update or an overdue sweep, set the one it read |
| Liveness.PendingUpdateExact | internal/grpcsvc/site_service.go:277-331 | of a pending site: exactly when no heartbeat set it online in between and the last to land, if any, carried the time the update had read |
| Liveness.UpdateHidesFirstHeartbeat | internal/grpcsvc/site_service.go:277-331 | an update around the first heartbeat makes the site pending for good |
| Liveness.SiteTable.UpdateAgentMeta | internal/dao/site.go:72-100 | the first heartbeat write changes the time last seen of one site only |
| Liveness.SiteTable.SetStatusOnline | internal/dao/site.go:105-113 | the second one its status only |
| Liveness.SiteTable.MarkStaleOffline | internal/dao/site.go:122-131 | exactly the stale online sites change, and they are counted |
| Liveness.SiteTable.RunSweeper | internal/sweeper/sweeper.go:57-101 | a run of ticks sweeps every site with each clock reading; a zero setting turns it off |
| Names.SlugIsGrammar | internal/resource/name.go:24-44 | the scan accepts exactly words of letters and digits joined by single dashes, 1 to 64 characters |
| Names.SlugFree | internal/resource/name.go:24-44 | a slug holds none of the separators used around it |
| Names.ProjectNameExact | internal/resource/name.go:47-61 | the parser accepts exactly the formatted names of slugs and gives them back |
| Names.SiteNameExact | internal/resource/name.go:72-89 | the same for sites |
| Names.ServiceNameExact | internal/resource/name.go:107-132 | the same for services |
| Names.ShortFormsParse | cmd/quicktun/names.go:12-55 | the short forms of slugs become names the server parses back |
| Names.CanonicalProjectStable | cmd/quicktun/names.go:12-17 | the canonical form of a canonical project name is itself |
| Names.CanonicalSiteStable | cmd/quicktun/names.go:22-36 | the canonical form of a canonical site name is itself |
| Names.CanonicalServiceStable | cmd/quicktun/names.go:40-55 | the same for services |
| Names.CanonicalSiteExact | cmd/quicktun/names.go:22-36 | a site is taken exactly in its short or long form, with no part empty, and turned into the long one |
| Names.CanonicalServiceExact | cmd/quicktun/names.go:40-55 | the same of a service |
| Names.OperatorNameRoundTrip | internal/grpcsvc/operator_service.go:60-80 | every 64-bit operator id is read back from its name |
| Names.OperatorNameExact | internal/grpcsvc/operator_service.go:60-80 | an operator name is accepted exactly when it is the prefix and a 64-bit decimal number, leading zeros allowed |
| Text.ParseUintExact | internal/authproxy/router.go:112-116 | a text parses to a number exactly when it is that number's decimal digits, leading zeros allowed, and no larger than the bound |
| Text.Uint64ToString | internal/grpcsvc/auth_service.go:96-109 | the digit loop writes the decimal form and never runs off the front of its twenty bytes |

## Left out

- Sockets, TLS, CONNECT parsing, byte copying, gRPC and gateway wiring, signals, pipes and process attributes: a child is something that starts, exits, and exits after its context is done.
- SQL, GORM and their failures: tables are maps with a soft-delete flag, ids count up, each statement is atomic, and a query sees live rows.
- The hashes and their collisions: a hash is any function; results that need it say "up to collision" in a precondition. Passwords, random token generation and operator logins are not modelled.
- The TOML text around the values of a config, the comment lines in it, and its quoting.
- Every handler is one atomic step. Two CreateService calls whose SQL statements interleave can allocate one port, as relay_port has no unique index; that race is not modelled.
- Permission checks, role parsing, last-admin guards and enum conversions: the ledger's callers are admins whose requests parse.
- Audit writes, metrics, logging, webhook delivery, and the relay calls at the end of the handlers.
- The local admin commands of the server binary, which skip the overlap and range checks.
- Manager.Start, which installs the root context and adds every active project: the root context appears as two events, and its calls are ordinary AddProject calls.
- In the relay protocol a config is one string per project, files are written atomically, and a child reads its file when it starts. Config files are keyed by project, not by slug.
- Config freshness when calls on one project overlap: a race loser accepts the other caller's supervisor.
- Host name, operating system, agent version and LAN ranges in a heartbeat; nil entries in a list of tunnels.
- The router reads one snapshot, where the source makes several queries in a row.
- Config files that a crash leaves half written: a failed write leaves the old file.
- `sort.Slice` is not stable; Sorting.SortedUnique shows that this makes no difference where it is used.
- StopCanReturn: says that some run brings a waiting Stop to its end; RelayFairness.StopReturnsFairly says it of every weakly fair run.
- OnlyTwoWaits: does not model the mutex, whose sections are single events; that nobody waits inside a section holds of the model by construction and is read off the source.
- The two queries of one audit page, rows and total, read the same log.
- AuditListFilter is any predicate on entries that does not change with time; the joins that supply the operator's email and the project's slug are not modelled.
