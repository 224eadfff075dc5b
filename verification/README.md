# Verification of the client-side balancer's core

A Dafny model of go-kubegrpc, a client-side gRPC load balancer for Kubernetes: the balancer
and its SubConn pool, the resolver's grace window, the pickers with attempt exclusion, the
retry interceptors, the health state machine and its checker, and the "address:port" text
that everything is ordered by. `dafny verify dfyconfig.toml` checks the whole project.

## How the model is built

Code that updates objects in place is modelled by classes and loops. Each class has a
`View()` into a value, each method is proved to perform one transition of a step machine
over such values, and what holds over whole runs is proved of the step machine.

| source | classes and methods | step machine or specification | properties |
|---|---|---|---|
| `internal/balancer/builder.go`, `pool.go` | `Balancer.dfy`, `Pool.dfy`, `Entries.dfy` | `BalancerState.dfy`, `PoolState.dfy`, `PoolBatch.dfy` | `BalancerRuns.dfy`, `BalancerHealth.dfy`, `Convergence.dfy`, `EntryHistory.dfy`, `Requests.dfy`, `StaleVerdict.dfy`, `CutOff.dfy`, `Scenarios.dfy` |
| `internal/balancer/cap.go`, `internal/resolver/reconcile.go` | `Cap.dfy`, `Reconcile.dfy`, `Sorting.dfy` | `Capped`, `Lists`, `SortSet` | `Cap.dfy`, `Reconcile.dfy` |
| `internal/balancer/picker_lr.go`, `picker_rr.go` | `Pickers.dfy`, `PickRuns.dfy` | `Choice.dfy` | `PickerBalance.dfy`, `Failover.dfy` |
| `internal/resolver/k8s/statemachine.go` | `GraceMachine.dfy` | `GraceState.dfy` | `GraceRuns.dfy` |
| `resolver_adapter.go` | | `Printed` | `Convergence.dfy`, `Outage.dfy` |
| `internal/retry` | `Retry.dfy`, `Backoff.dfy` | `Conforms`, `BackoffOf` | `Retry.dfy`, `Backoff.dfy` |
| `internal/health` | `Health.dfy`, `HealthChecker.dfy` | `Transitions`, `Reports`, `Pauses` | `Health.dfy`, `HealthChecker.dfy` |
| address parsing and printing | `AddressText.dfy` | `Decimal.dfy`, `Endpoints.dfy`, `Ordering.dfy` | `AddressText.dfy`, `Endpoints.dfy`, `Decimal.dfy`, `Ordering.dfy` |

A run is any sequence of events that are enabled where they occur. Events carry what the
environment decides: the order in which Go ranges over a map, which SubConns gRPC creates,
how starting a checker turns out, when a drain goroutine or a timer wakes, which of the
pickers ever installed a call still uses. One critical section under the balancer's mutex is
one step, and so is one atomic access outside it, so the run theorems quantify over every
interleaving. A drain's poll is placed at its load of the counter (`internal/balancer/pool.go:229`):
the Shutdown that follows an idle load (`pool.go:236`) belongs to the same step, and what is claimed
of a poll is claimed of the calls open at that load. `StaleVerdict`, `CutOff` and `Scenarios` are
legal runs written out event by event.

What a step does is stated a second time, from the events alone, and proved equal in every run: `ToldIn`
(what the events of a run told an entry), `ReportsOf` and `AllReports` (what gRPC was asked for), `LatestConfig` and
`PolicyInForce`, and for the grace window `Said`, `Warned`, `RememberedIn` and `OutageSince`.

What the environment is taken to do:

- `NewSubConn` returns a SubConn that did not exist before; SubConns are numbered in that order. gRPC sends no
  connectivity event for a SubConn that was never created.
- The clock never runs back and is never the zero time; an unset time is `None`.
- The inner resolver emits only Connected and Disconnected (`internal/resolver/k8s/watcher.go:119-122`);
  only the lemmas with `InnerReports` need it.
- Namespace and service stay the same over a balancer's life, as the resolver adapter keeps them;
  `ConvergesIff` shows this is exactly what an update needs, with successful creations, to reach its target.
- The backoff multiplier is a real number, and multiplying the initial and the maximal backoff by it stays
  below 2^63, so that each conversion to a Duration in the loop is meaningful. Configuration validation
  gives the sign and multiplier conditions.
- Done runs at most once per pick (the `Done` event needs an open pick), and a call picked by round
  robin ends at most once (`RREnd`), which the code does not see.
- Go compares strings byte by byte, which on well-formed UTF-8 is the order of code points used here.

## Where the code differs from what is said about it

The model follows the code.

- Last-known endpoints are said to be served during an outage
  (`internal/resolver/k8s/statemachine.go:27-31`, `docs/en/integration_guide.md:131`). Before the window has
  passed, the machine forwards a Disconnected snapshot with its own endpoints, which the watcher leaves
  empty, and the adapter passes them on. `Outage.OutageKeepsPoolIff` says when the pool survives an outage in
  which the inner resolver reports at all: exactly when it was empty or the window is not positive. Once the
  window has passed the endpoints come back, on new SubConns: `Outage.RecoversOnNewSubConns`.
  `Scenarios.OutageDrainsThePool` is a run in which it does not. What does hold in every run is that
  InGraceWindow snapshots carry the last-known endpoints (`GraceRuns.ShapeInEveryRun`).
- A drain is said to wait for the in-flight calls until its deadline (`internal/balancer/pool.go:175-178`,
  `docs/en/integration_guide.md:168`). The round-robin picker, the default, returns no Done callback and never
  touches the counter (`internal/balancer/picker_rr.go:90`), so the poll at `pool.go:229` does not see its calls.
  `BalancerRuns.PollWaitsIff` says when a poll waits for the open calls, in every run: exactly when none of them
  was picked by round robin, or one by least request is open too. `CutOff.EveryPollWaitsIff` says for which configured
  policy every poll of every run waits: exactly for least_request, as long as no other is configured later.
  `CutOff.RoundRobinCallIsCutOff` is the run for any other policy, in which a poll shuts a SubConn down with a call
  open, and `CutOff.PickThenPoll` the same on the objects.
- A health verdict is applied by key (`internal/balancer/builder.go:364`). `StaleVerdict` is a run in which
  the verdict of a cancelled checker makes another SubConn eligible that was never Ready;
  `BalancerHealth.VerdictsStayHomeIff` says exactly when this cannot happen.
- N consecutive round-robin picks are said to form a permutation (`internal/balancer/picker_rr.go:13-15`).
  `PickerBalance.RotationPermutesIff` says exactly when: when they do not wrap the 64-bit counter, or start
  right at its wrap, or N divides 2^64. `PickerBalance.ThreeAcrossTheWrap` is a case that fails.
- A removal uses the namespace and service of the current configuration
  (`internal/balancer/builder.go:262-268`), so an entry added under another identity is not removed while that
  identity is not configured: `Convergence.RemovedIff`, `Convergence.ForeignEntryStays`, and the run in
  `Scenarios.ForeignEntryRemains`.
- The streaming interceptor's check for a stream that already carried a message
  (`internal/retry/interceptor.go:191-193`) can never succeed: in `Retry.Stream` the branch is proved dead.

## Model

| member | source | states |
|---|---|---|
| BalancerRuns.PickerAgreesInEveryRun | internal/balancer/builder.go:410-444 | in every run and at every step the installed picker holds exactly the mapped Serving entries, in strict "address:port" order, none draining or shut down, and a reported state is Ready iff that list is not empty |
| BalancerRuns.AlwaysInv | internal/balancer/builder.go:191-315 | every interleaving of resolver updates, connectivity events, verdicts, picks, completions and drain wake-ups keeps the balancer invariant |
| BalancerRuns.HealthyHolds | internal/balancer/pool.go:297-308 | the current picker offers a SubConn iff it is in the map and Serving |
| BalancerRuns.HealthySorted | internal/balancer/builder.go:413-418 | no two healthy entries tie, so the picker's list is strictly sorted |
| BalancerRuns.OnePlaceInEveryRun | internal/balancer/pool.go:117-245 | in every run each SubConn ever created is, with multiplicity, in exactly one place: under one key, draining, or shut down once |
| BalancerRuns.ShutDownIsFinal | internal/balancer/pool.go:235-236 | a SubConn shut down is never mapped, draining or shut down again |
| BalancerRuns.StepMoves | internal/balancer/builder.go:249-270 | a step keeps a mapped SubConn under its key or replaces it with a new one, and no step but the end of a drain shuts anything down: Add's eviction is never reached |
| BalancerRuns.InFlightInEveryRun | internal/balancer/picker_lr.go:89-110 | in every run, across all picker rebuilds, InFlight equals least-request picks minus Done calls and is not negative |
| BalancerRuns.DrainingOnlyFalls | internal/balancer/pool.go:189-195 | once a SubConn left the map and no older picker is used, its counter only falls, by one per completed call |
| BalancerRuns.DrainEndsIdleOrAtDeadline | internal/balancer/pool.go:223-236 | in every run the polling path shuts down exactly when no least-request call is open; the deadline path is enabled throughout the drain and ends it |
| BalancerRuns.PollWaitsIff | internal/balancer/pool.go:227-232 | in every run a poll closes exactly when no call of any policy is open, iff no round-robin call is open on the SubConn or a least-request one is too; where a poll closes, no call is open iff no round-robin call is |
| BalancerRuns.RotatingInEveryRun | internal/balancer/picker_rr.go:90 | in every run the open round-robin calls of a SubConn are its picks less those that ended, and nothing else moves them |
| BalancerRuns.LeastRequestPollsWait | internal/balancer/picker_lr.go:89-110 | in every run that configures only least request, every poll of every drain waits for every open call |
| CutOff.EveryPollWaitsIff | internal/balancer/pool.go:175-178 | every poll of every run without another policy in later configurations waits for the open calls iff the balancer was built for least_request |
| CutOff.RoundRobinCallIsCutOff | internal/balancer/pool.go:227-236 | for any policy but least_request, a legal run in which a poll shuts a SubConn down with a call open on it |
| CutOff.PickThenPoll | internal/balancer/picker_rr.go:35-90 | for any balancer, installed round-robin picker and idle draining entry: a pick of the entry leaves it to be shut down by the next poll |
| BalancerState.StepInv | internal/balancer/builder.go:191-315 | every step keeps conservation, checker ownership, one entry per endpoint, in-flight accounting and picker agreement |
| BalancerState.RebuildInv | internal/balancer/builder.go:410-444 | rebuilding restores agreement whatever happened to the pool before it in the same critical section |
| BalancerState.PlanSound | internal/balancer/builder.go:249-270 | the two loops keep everything but picker agreement, whatever the map iteration order and whichever creations fail |
| BalancerState.ConnectivitySound | internal/balancer/builder.go:286-312 | so do the branches of a connectivity event |
| BalancerState.VerdictSound | internal/balancer/builder.go:352-366 | so does a health callback |
| BalancerState.PickStepInv | internal/balancer/picker_lr.go:89-91 | so does a pick, even by a picker long replaced |
| BalancerState.DrainInv | internal/balancer/pool.go:213-245 | so does the end of a drain |
| PoolState.AddInv | internal/balancer/pool.go:117-170 | Add keeps each SubConn in one place under its own key, eviction included, and leaves no checker running for an evicted entry |
| PoolState.RemoveInv | internal/balancer/pool.go:181-209 | so does Remove |
| PoolState.CloseInv | internal/balancer/pool.go:235-236 | ending a drain keeps each SubConn in one place, shut down once |
| PoolState.StartCheckerInv | internal/balancer/builder.go:318-350 | starting a checker, or failing to, keeps the uncancelled checkers exactly those the mapped entries would cancel |
| PoolState.StopCheckerInv | internal/balancer/builder.go:375-380 | so does stopping one |
| PoolBatch.AddAllExtends | internal/balancer/builder.go:250-259 | adding absent endpoints evicts nothing, touches no entry and adds exactly those gRPC creates |
| PoolBatch.RemoveAllEffect | internal/balancer/builder.go:260-270 | the second loop removes exactly the listed keys, their SubConns drain, nothing is shut down |
| Convergence.ResolveEffect | internal/balancer/builder.go:211-270 | an update creates exactly the missing endpoints that gRPC grants, drains exactly the stale ones, keeps every other entry as it is, and shuts nothing down |
| Convergence.ConvergesIff | internal/balancer/builder.go:211-270 | for any address order, duplicates and iteration order, the pool's keys become exactly the capped parsed set iff every entry has the configured identity and every creation succeeds |
| Convergence.IdentityInEveryRun | internal/balancer/builder.go:252-268 | with a steady namespace and service every entry of every run is under them |
| Convergence.ConvergesInEveryRun | internal/balancer/builder.go:191-276 | so in every such run an update with successful creations reaches its target |
| Convergence.WantedExactly | internal/balancer/builder.go:212-236 | an update asks for as many parsed identities as the cap allows, all without one, and for those whose text comes first, character by character |
| Convergence.ConvergedSize | internal/balancer/builder.go:225-270 | once on target, the pool has min(cap, identities) entries, or one for each identity without a cap |
| Convergence.RepeatingDoesNothing | internal/balancer/builder.go:249-270 | repeating an update that is on target creates and removes nothing |
| Convergence.OneEndpointOneUpdate | internal/balancer/builder.go:225-270 | one endpoint more or fewer means at most one creation and one removal, capped or not |
| Convergence.PrintedInOrder | resolver_adapter.go:70-76 | one "address:port" for each endpoint of a snapshot, in order |
| Convergence.SnapshotArrives | resolver_adapter.go:70-76 | the endpoints printed by the adapter are exactly those the balancer parses |
| Convergence.EmptySnapshotDrainsAll | resolver_adapter.go:70-91 | a snapshot without endpoints drains the whole pool and leaves the no-healthy picker and TransientFailure |
| Convergence.CapInEveryRun | internal/balancer/builder.go:225-270 | in every run with a steady identity the pool never has more entries than the configured cap, whichever creations fail |
| Convergence.RemovedIff | internal/balancer/builder.go:260-270 | an update removes an entry iff its configuration names the entry's identity and no longer wants its endpoint; any other entry keeps its record |
| Convergence.ForeignEntryStays | internal/balancer/builder.go:262-268 | while no configuration names its identity, an entry stays mapped on its SubConn in every run |
| Outage.KeepsAllIff | internal/balancer/builder.go:238-270 | an update keeps every entry iff it still wants every endpoint |
| Outage.SnapshotKeepsPoolIff | internal/resolver/k8s/statemachine.go:92-129 | a Disconnected snapshot without endpoints keeps every entry of a pool of remembered endpoints, complete or not, iff there is none or the outage has lasted the window |
| Outage.PassedOn | internal/resolver/k8s/statemachine.go:92-129 | during an outage only remembered endpoints as InGraceWindow and empty Disconnected snapshots are passed on, one of the latter iff the window is positive and a snapshot arrived |
| Outage.UpdatedWithinTarget | internal/balancer/builder.go:211-270 | after an update under one identity every entry is one it asks for, whichever creations fail |
| Outage.OutageKeepsPoolIff | resolver_adapter.go:70-91 | over a whole outage, with any other events in between, every entry of a pool of remembered endpoints, complete or not, stays on its SubConn iff there was none, the window is not positive, or the inner resolver reported nothing |
| Outage.RecoversOnNewSubConns | resolver_adapter.go:70-91 | when such an outage has been passed on up to InGraceWindow and what is asked for is created, the pool is on target again, and each entry it had is on a new SubConn, or on its old one if the window is not positive |
| Scenarios.OutageDrainsThePool | internal/resolver/k8s/statemachine.go:115-128 | a legal run of both machines in which a pool of one endpoint is drained at the start of an outage, with a window of thirty seconds |
| Scenarios.OutageLosesTheEntry | resolver_adapter.go:70-91 | those runs meet the hypotheses of `Outage.OutageKeepsPoolIff`, and the entry does not stay |
| Scenarios.OutageReplacesTheSubConn | resolver_adapter.go:70-91 | a legal run of both machines to the end of the window, after which the one entry of any such pool is back, on a new SubConn |
| Scenarios.ForeignEntryRemains | internal/balancer/builder.go:262-268 | a legal run in which an entry survives an update under another service that wants nothing |
| EntryHistory.ConfigInEveryRun | internal/balancer/builder.go:191-208 | in every run the configuration is the latest that came and the policy the latest that was named, round_robin if none; the installed picker is of that policy; from the first update on a state is reported, Ready iff someone is offered |
| EntryHistory.InstalledInEveryRun | internal/balancer/builder.go:281-315 | in every run a picker was installed once for each resolver update, verdict and connectivity event of a mapped SubConn, and for nothing else |
| EntryHistory.RecordInEveryRun | internal/balancer/builder.go:281-366 | in every run, checks on, off or switched, a mapped entry's connectivity is that of its latest event, its health what its latest Ready, failure or verdict said, and it has a checker to stop iff one was started since it last went down |
| EntryHistory.DownStopsTheChecker | internal/balancer/builder.go:303-307 | an entry that fails or shuts down is no longer offered, and the checker it had is cancelled |
| Requests.DialsInEveryRun | internal/balancer/pool.go:144-146 | in every run each SubConn was created for the "address:port" of its key, and parsing that address gives back the key's address and port |
| Requests.OfferedInDialOrder | internal/balancer/builder.go:413-418 | in every run the picker lists its SubConns in the order, character by character, of the addresses they connect to |
| Requests.ConnectsInEveryRun | internal/balancer/pool.go:159 | in every run a SubConn has been asked to connect once at its creation and once for each Idle event that arrived while it was mapped |
| Requests.ResolvesInEveryRun | internal/balancer/pool.go:252-266 | in every run gRPC was asked to resolve again once for each TransientFailure of a mapped SubConn |
| BalancerHealth.FoldInEveryRun | internal/balancer/builder.go:293-312 | with checks disabled, every mapped entry's health is the fold of its own events |
| BalancerHealth.OfferedIffLatestReady | internal/balancer/builder.go:281-315 | with checks disabled, the picker offers a SubConn iff it is mapped and the latest of its own Ready, TransientFailure and Shutdown events is Ready |
| BalancerHealth.ForeignEventsDoNotMatter | internal/balancer/builder.go:455-462 | connectivity events of a removed or evicted SubConn never alter a live entry, even when the key is reused |
| BalancerHealth.CheckersInEveryRun | internal/balancer/builder.go:295-306 | in every run a mapped SubConn has at most one uncancelled checker, the one its HealthCancel stops, and any other none |
| BalancerHealth.VerdictsStayHomeIff | internal/balancer/builder.go:352-366 | a verdict can touch no other SubConn exactly when its key is free or still belongs to the same SubConn; for an uncancelled checker this always holds |
| StaleVerdict.StaleVerdictReachesAnotherSubConn | internal/balancer/builder.go:352-366 | a concrete run in which a cancelled checker's verdict makes another SubConn eligible that had no Ready event |
| PoolClass.Pool.constructor | internal/balancer/pool.go:96-106 | a new pool is empty |
| PoolClass.Pool.Add | internal/balancer/pool.go:117-170 | the map, the SubConns and the checkers change as Add's step says, entries under other keys keep their objects, and a new SubConn is created for the endpoint's "address:port" |
| PoolClass.Pool.Evict | internal/balancer/pool.go:130-142 | an entry already under the key has its checker cancelled, is shut down and leaves the map |
| PoolClass.Pool.Create | internal/balancer/pool.go:144-159 | a SubConn for the key's "address:port", if gRPC grants it, is entered under the key; otherwise nothing changes |
| PoolClass.Pool.DialsItsAddress | internal/balancer/pool.go:144-157 | every entry's SubConn was created for the entry's "address:port" |
| BalancerClass.NotedIsDialled | internal/balancer/picker_rr.go:78-87 | the text a pick notes in a tracker is the address its SubConn was created for |
| PoolClass.Pool.Enter | internal/balancer/pool.go:151-159 | a fresh entry, Unknown and Idle, is mapped under its key and connected |
| PoolClass.Pool.Remove | internal/balancer/pool.go:181-209 | the entry leaves the map at once, its checker is cancelled, its SubConn drains, nothing is shut down |
| PoolClass.Pool.MarkDraining | internal/balancer/pool.go:189-193 | the entry is flagged and its checker cancelled, and no other entry changes |
| PoolClass.Pool.DrainWake | internal/balancer/pool.go:223-236 | a drain goroutine shuts its SubConn down iff the deadline passed or no call is in flight, and otherwise changes nothing |
| PoolClass.Pool.UpdateConnState | internal/balancer/pool.go:252-266 | only that entry's connectivity changes, and TransientFailure asks for re-resolution; an absent key is a no-op |
| PoolClass.Pool.UpdateHealth | internal/balancer/pool.go:270-277 | only that entry's health changes; an absent key is a no-op |
| PoolClass.Pool.Collect | internal/balancer/pool.go:286-292 | the scan collects each non-draining entry once, whatever the iteration order |
| PoolClass.Pool.Snapshot | internal/balancer/pool.go:282-293 | exactly the mapped entries, each once: none is draining |
| PoolClass.Pool.HealthyEntries | internal/balancer/pool.go:297-308 | exactly the mapped entries that are Serving, each once |
| BalancerClass.K8sBalancer.constructor | internal/balancer/builder.go:148-177 | a new balancer has an empty pool, the no-healthy picker, and round_robin for an empty policy |
| BalancerClass.K8sBalancer.UpdateClientConnState | internal/balancer/builder.go:191-276 | performs one resolver step for some iteration order, keeps the invariant, and surviving keys keep the same entry object |
| BalancerClass.K8sBalancer.Reconfigure | internal/balancer/builder.go:195-208 | a configuration replaces the old one; an empty policy leaves the policy in force |
| BalancerClass.K8sBalancer.UpdateSubConnState | internal/balancer/builder.go:281-315 | performs one connectivity step, and no step at all for a SubConn that is not in the map |
| BalancerClass.K8sBalancer.FollowConnectivity | internal/balancer/builder.go:291-312 | the pool's side of that step, branch by branch |
| BalancerClass.K8sBalancer.BecomesReady | internal/balancer/builder.go:294-302 | Serving at once without checks; otherwise a checker unless one is running |
| BalancerClass.K8sBalancer.BecomesDown | internal/balancer/builder.go:303-307 | the checker stops and the entry is NotServing |
| BalancerClass.K8sBalancer.HealthVerdict | internal/balancer/builder.go:352-366 | a callback performs one verdict step under the key its checker was started for |
| BalancerClass.K8sBalancer.FindKeyForSubConn | internal/balancer/builder.go:455-462 | finds a key iff the SubConn is in the map, and then the key it was created for |
| BalancerClass.K8sBalancer.GetPoolEntry | internal/balancer/builder.go:383-390 | the entry under the key, if any |
| BalancerClass.K8sBalancer.RebuildPickerLocked | internal/balancer/builder.go:410-444 | installs and reports what the pool now says, and restores the invariant |
| BalancerClass.K8sBalancer.InstallPicker | internal/balancer/builder.go:420-443 | the picker installed and the state reported follow from the healthy list |
| BalancerClass.K8sBalancer.DrainTurn | internal/balancer/pool.go:223-236 | a drain wake-up is one step of the machine |
| BalancerClass.K8sBalancer.PickLeastRequest | internal/balancer/picker_lr.go:34-110 | a pick by any least-request picker ever installed returns its least candidate, and is one step that charges that entry and notes its address in the tracker |
| BalancerClass.K8sBalancer.PickRoundRobin | internal/balancer/picker_rr.go:35-90 | a pick by any round-robin picker ever installed is one step that opens a call on an entry of it, notes its address in the tracker and leaves every counter as it is |
| BalancerClass.K8sBalancer.RoundRobinCallEnds | internal/balancer/picker_rr.go:90 | the end of such a call is one step that changes nothing of the balancer but the calls open |
| BalancerClass.K8sBalancer.FinishCall | internal/balancer/picker_lr.go:106-109 | a Done call is one step that discharges it |
| BalancerClass.ParseAll | internal/balancer/builder.go:212-223 | the map holds exactly the identities of the addresses that parse, duplicates once |
| BalancerClass.WantedMap | internal/balancer/builder.go:225-236 | the re-built map holds exactly the capped set |
| BalancerClass.CurrentMap | internal/balancer/builder.go:239-247 | exactly the endpoints of the mapped entries |
| BalancerClass.AddMissing | internal/balancer/builder.go:250-259 | lists each missing endpoint once, in some order, adds each, and touches no surviving entry |
| BalancerClass.RemoveStale | internal/balancer/builder.go:260-270 | lists each stale endpoint once, in some order, and removes each |
| BalancerClass.ReconcileTo | internal/balancer/builder.go:238-270 | the loops perform exactly the adds and removes of the set difference |
| BalancerClass.SortedHealthy | internal/balancer/builder.go:411-418 | sorting the eligible entries gives the one duplicate-free "address:port" listing of the Serving entries |
| BalancerClass.MakePicker | internal/balancer/builder.go:420-435 | no-healthy for an empty list, least request for its name, round robin for any other policy |
| BalancerClass.StartHealthCheck | internal/balancer/builder.go:318-372 | a failed dial changes nothing, a failed watch leaves a cancelled checker and no HealthCancel, success stores the cancel function |
| BalancerClass.StopHealthCheck | internal/balancer/builder.go:375-380 | cancels the running checker once and forgets it |
| Cap.CapEndpoints | internal/balancer/cap.go:16-37 | without a cap the input; with one, a sorted selection such that nothing left out comes before anything selected |
| Cap.KeptComesFirst | internal/balancer/cap.go:27-36 | where a kept endpoint's text and that of one left out first differ, the kept one ends or has the smaller character |
| Cap.CapSelectsSmallest | internal/balancer/cap.go:23-36 | on distinct identities that selection is the set of the M smallest, each once |
| Cap.CapIgnoresOrder | internal/balancer/cap.go:10-12 | the result on distinct identities does not depend on the input order |
| Cap.CappedIsSmallest | internal/balancer/cap.go:33-36 | min(size, M) members, all before every other member |
| Cap.CappedExactly | internal/balancer/cap.go:16-37 | exactly min(size, M) members, or all without a cap, none of them after one left out, character by character |
| Cap.SmallestUnique | internal/balancer/cap.go:10-12 | there is only one such set |
| Cap.CappedInherits | internal/balancer/cap.go:33-36 | being under the cap is inherited by smaller sets |
| Cap.CappedUnion | internal/balancer/cap.go:33-36 | Cap(A + B) equals Cap(Cap(A) + Cap(B)) |
| Cap.OneEndpointOneChange | internal/balancer/cap.go:33-36 | one endpoint more changes the capped set by at most that addition and one removal |
| Ordering.LessIff | internal/balancer/cap.go:27-31 | a text is before another iff where they first differ it ends or has the smaller character |
| Sorting.SortSlice | internal/balancer/cap.go:27-31 | sorts the copy in place into a permutation ordered by the key |
| Sorting.SortSetUnique | internal/balancer/builder.go:414-418 | a duplicate-free listing sorted by a distinguishing key is unique |
| Reconcile.Reconcile | internal/resolver/reconcile.go:18-32 | toAdd is desired minus current and toRemove current minus desired, each key once, in some order |
| Reconcile.ReconcileReaches | internal/resolver/reconcile.go:12-15 | the two are disjoint, performing them reaches desired, and both are empty iff nothing differs |
| Endpoints.AddrPortInjective | internal/balancer/pool.go:35-37 | "address:port" identifies address and port, colons in the address included |
| Endpoints.BeforeIsTrichotomous | internal/balancer/pool.go:33-37 | exactly one of before, same and after holds of two endpoints |
| Endpoints.BeforeTransitive | internal/balancer/pool.go:33-37 | the order is transitive |
| AddressText.ParseAddrToEndpoint | internal/balancer/builder.go:474-508 | the parser with its backward search, error by error |
| AddressText.ParsedIsClean | internal/balancer/builder.go:494-507 | whatever parses has a host without white space, a port from 1 to 65535, and is ready |
| AddressText.ParsesIff | internal/balancer/builder.go:474-508 | exactly these texts parse, to this host and port: white space without a newline, a host, a colon, an optional plus sign and digits that make a port; junk after the digits, and anything after the first white space, is ignored |
| AddressText.EmptyIff | internal/balancer/builder.go:477-480 | an address counts as empty iff white space fills it or leads up to a newline |
| AddressText.ErrorsBecause | internal/balancer/builder.go:482-501 | any other address is refused for having no colon, no number after the last one, or a number that is no port |
| AddressText.AsciiSpaces | internal/balancer/builder.go:477 | among the first 128 characters white space is the blank and those from tab to carriage return |
| AddressText.PrintThenParse | internal/balancer/builder.go:474-508 | parsing undoes printing iff the host has no white space and the port is from 1 to 65535 |
| AddressText.ParseIsStable | internal/balancer/builder.go:474-508 | re-parsing the printed form of a parsed address changes nothing |
| Decimal.DigitsArePlaces | internal/balancer/pool.go:35-37 | each digit printed is the decimal digit of its place |
| Decimal.DigitsCount | internal/balancer/pool.go:35-37 | no leading zero is printed and no place left out |
| Decimal.ScanFormat | internal/balancer/builder.go:496 | scanning "%d" undoes printing "%d" for every 64-bit integer |
| Pickers.Filter | internal/balancer/picker_lr.go:49-67 | keeps the untried entries in order, or all when all were tried |
| Pickers.Offer | internal/balancer/picker_rr.go:40-72 | the candidates of a pick: never empty, and all healthy entries without a tracker |
| Pickers.RRPicker.Pick | internal/balancer/picker_rr.go:35-90 | draws one ticket, returns the candidate it leads to and records it; Unavailable iff nothing is healthy |
| Pickers.LRPicker.Pick | internal/balancer/picker_lr.go:34-111 | returns the least candidate, charges it alone and records it; Unavailable iff nothing is healthy |
| Pickers.LRPicker.Done | internal/balancer/picker_lr.go:106-109 | takes one off the same entry's counter |
| Pickers.LeastLoaded | internal/balancer/picker_lr.go:72-87 | the scan ends at the minimum of (InFlight, "address:port") |
| Choice.CandidateExactly | internal/balancer/picker_lr.go:49-67 | a tried address is a candidate only when no untried one is healthy |
| Choice.ArgMinIsMinimum | internal/balancer/picker_lr.go:76-87 | nothing beats the entry chosen |
| Choice.ChosenIsFirst | internal/balancer/picker_lr.go:76-87 | the entry chosen has the fewest calls in flight, and among those with as few the first text, character by character |
| Choice.ChoiceIgnoresOrder | internal/balancer/picker_lr.go:76-87 | the choice is the same for every order of the healthy list |
| PickerBalance.SpreadStaysBounded | internal/balancer/picker_lr.go:72-91 | any run of untracked picks without completions keeps max minus min InFlight at most max(1, the initial spread) |
| PickerBalance.EqualLoadsPermute | internal/balancer/picker_lr.go:72-91 | from equal loads, N picks choose each of N entries once |
| PickerBalance.RotationPermutesIff | internal/balancer/picker_rr.go:74-76 | N consecutive untracked picks from a list of N choose every entry once iff they do not wrap the counter, or start right at its wrap, or N divides 2^64 |
| PickerBalance.ThreeAcrossTheWrap | internal/balancer/picker_rr.go:74-76 | a fresh picker gets to a counter of 2^64 - 2, where three picks from three entries take positions 0, 0 and 1 |
| PickerBalance.PicksAreFair | internal/balancer/picker_rr.go:74-76 | any k untracked picks that do not wrap the counter choose each of N entries floor(k/N) or ceil(k/N) times |
| PickerBalance.TicketsCountUp | internal/balancer/picker_rr.go:75 | tickets count up to 2^64 - 1 and start again at zero |
| PickRuns.RoundRobinRun | internal/balancer/picker_rr.go:35-90 | k untracked picks by one picker return the entries at the positions of its next k tickets |
| PickRuns.LeastRequestRun | internal/balancer/picker_lr.go:34-111 | k untracked picks by one picker, none completing, return the entries and leave the loads that the balance results speak of |
| PickRuns.TrackedPick | internal/balancer/picker_lr.go:39-102 | a pick with a tracker, under either policy, is made among the candidates and appended to the tracker |
| PickRuns.FixedRun | internal/balancer/picker_rr.go:40-87 | tracked picks over one list of N entries with different addresses, by any pickers of either policy: the first min(m, N) of m reach different addresses, and the first N reach every one |
| PickRuns.TrackedRun | internal/balancer/picker_rr.go:40-87 | any picks sharing a fresh tracker, by whichever pickers are installed at their times, meet the hypothesis of the failover results |
| Failover.RepeatsOnlyWhenExhausted | internal/balancer/picker_rr.go:40-87 | over changing healthy sets, a pick repeats an address only when every healthy one was tried |
| Failover.PickByAddress | internal/balancer/picker_lr.go:49-67 | what a pick of an entry means for the addresses alone |
| Failover.PlentyMeansDistinct | internal/balancer/picker_rr.go:40-87 | over changing healthy sets, no address is picked twice while each set has more addresses than were tried |
| Failover.PicksAreDistinct | internal/balancer/picker_lr.go:39-101 | over N distinct healthy addresses, the first min(m, N) of any m tracked picks are pairwise distinct and the first N are a permutation |
| Retry.IsRetryable | internal/retry/interceptor.go:29-40 | an error whose code is configured as retryable |
| Retry.Unary | internal/retry/interceptor.go:59-117 | the unary interceptor conforms to the retry specification in every environment, makes one tracked pick per call with its own tracker, and with enough healthy backends never reaches one twice |
| Retry.Stream | internal/retry/interceptor.go:154-225 | so does the streaming one; an established stream is wrapped exactly on success with retries on, and the sent-message branch is dead |
| Retry.RetryableClientStream.SendMsg | internal/retry/interceptor.go:130-136 | forwards the message, returns the result of the stream underneath, and remembers a success for good |
| Retry.TraceOfRun | internal/retry/interceptor.go:81-116 | calls and backoffs alternate in order, the k-th backoff being min(max, floor(initial * multiplier^(k-1))); every reply but the last is a failure with a retryable code, the result is the last reply or the context error carrying it |
| Retry.EndOfRun | internal/retry/interceptor.go:81-104 | when the loop ends: no call is made with the context done, a retryable failure ends it only when the attempts are used up, and otherwise it is the first context error met |
| Retry.SleepsNeverDecrease | internal/retry/interceptor.go:106 | the sleeps of an RPC never get shorter, and stay within the maximum |
| Retry.WithoutRetries | internal/retry/interceptor.go:68-75 | a non-idempotent RPC, or one with a single attempt, makes one call without a wait and hands its reply on |
| Retry.RetriesAreBounded | internal/retry/interceptor.go:72-114 | at most MaxAttempts calls, one without retries, and at most (MaxAttempts - 1) * MaxBackoff of sleep |
| Retry.ConformingRunsAgree | internal/retry/interceptor.go:175-224 | unary and stream runs in the same environment do the same and return the same |
| Retry.Attempt | internal/retry/interceptor.go:90-113 | one attempt: the call and its tracked pick, then success, a failure not to be retried, exhaustion, an interrupted sleep, or the next attempt |
| Retry.NeverTwice | internal/retry/interceptor.go:77-90 | when each attempt finds at least MaxAttempts healthy addresses, the same ones or not, the tracker of a retried RPC never holds a backend twice |
| Backoff.AttemptBackoff | internal/retry/backoff.go:29-47 | the early-exit loop equals min(max, floor(initial * multiplier^(n-1))) for every n |
| Backoff.PowAdds | internal/retry/backoff.go:22-26 | the powers used are those of the multiplier |
| Backoff.DoublingBackoffs | internal/retry/backoff.go:29-47 | doubling from 100 with a maximum of 1000 gives 100, 200, 400, 800 and then 1000 |
| Backoff.InRangeConverts | internal/retry/backoff.go:36-46 | if the bounds times the multiplier stay below 2^63, every conversion in the loop is meaningful |
| Backoff.BackoffMonotone | internal/retry/backoff.go:22-26 | later attempts never wait less |
| Backoff.BackoffSticksToMax | internal/retry/backoff.go:22-26 | a backoff is within 0 and the maximum, and stays at the maximum once there |
| GraceMachine.StateMachine.constructor | internal/resolver/k8s/statemachine.go:48-58 | a new machine is Connected, with nothing pending |
| GraceMachine.StateMachine.Wrapped | internal/resolver/k8s/statemachine.go:74-137 | the wrapped callback performs one snapshot step |
| GraceMachine.StateMachine.WrappedDisconnected | internal/resolver/k8s/statemachine.go:92-129 | the Disconnected case: InGraceWindow once the outage lasted the window, otherwise a re-check for the remaining time |
| GraceMachine.StateMachine.GraceCheck | internal/resolver/k8s/statemachine.go:151-181 | a re-check past its wait performs one timer step |
| GraceMachine.StateMachine.GraceCheckCancelled | internal/resolver/k8s/statemachine.go:152-155 | a cancelled re-check only disappears |
| GraceMachine.StateMachine.MaybeLogWarn | internal/resolver/k8s/statemachine.go:186-194 | warns unless a warning of this outage is younger than the window |
| GraceRuns.NoLostWakeUp | internal/resolver/k8s/statemachine.go:115-128 | in every run, while Disconnected with a live context, a re-check armed in this outage and due at its deadline is pending, and its firing always emits InGraceWindow with the remembered endpoints |
| GraceRuns.NoEarlyTransition | internal/resolver/k8s/statemachine.go:158-181 | in every run a timer from any outage emits exactly when the machine is Disconnected and the current outage lasted the whole window, and otherwise changes nothing |
| GraceRuns.OutageInEveryRun | internal/resolver/k8s/statemachine.go:92-129 | the outage bookkeeping holds in every run |
| GraceRuns.WarningsAreSpaced | internal/resolver/k8s/statemachine.go:80-107 | in every run any two warnings are at least a window apart, even across reconnects that forget the last one |
| GraceRuns.WarningRate | internal/resolver/k8s/statemachine.go:183-194 | an interval of length L holds at most L / window + 1 warnings |
| GraceRuns.HistoryInEveryRun | internal/resolver/k8s/statemachine.go:74-194 | in every run the machine has passed on, remembers and has warned of exactly what the events call for: each snapshot as it came, or the endpoints of the latest Connected one that had any once the outage has lasted the window; one re-check is armed for each Disconnected snapshot passed on |
| GraceRuns.PassesUnchanged | internal/resolver/k8s/statemachine.go:78-136 | the Connected snapshots passed on are all those of the inner resolver, unchanged and in order, and the Disconnected ones are those that came before their outage had lasted the window |
| GraceRuns.GraceIsWarnedOf | internal/resolver/k8s/statemachine.go:186-194 | whatever takes the machine into the grace window or keeps it there finds a warning less than a window old, or brings one |
| GraceRuns.ShapeInEveryRun | internal/resolver/k8s/statemachine.go:74-180 | the last emission has the machine's state, InGraceWindow is never directly followed by Disconnected, InGraceWindow starts only after Disconnected for a positive window, and carries the endpoints of the inner resolver's latest Connected snapshot that had any; Connected snapshots are passed on as they came |
| HealthMachine.StateMachine.constructor | internal/health/state.go:39-49 | starts Unknown without callbacks |
| HealthMachine.StateMachine.Drain | internal/health/state.go:54-78 | consumes events until closed or cancelled; Current is the last one consumed, the callbacks are its transitions |
| HealthMachine.TransitionsAreTheChanges | internal/health/state.go:63-75 | the callbacks are exactly the events that differ from their predecessor, in order |
| HealthMachine.NoCallbackRepeats | internal/health/state.go:51-53 | no two callbacks in a row agree, the first reports a new state, and replaying them gives the current state |
| HealthMachine.CallbacksAlternate | internal/health/state.go:63-75 | with Serving and NotServing events only, callbacks strictly alternate from the first event on |
| HealthChecker.ReportsAreVerdicts | internal/health/checker.go:173-179 | the checker never reports Unknown |
| HealthChecker.ServingIff | internal/health/checker.go:173-179 | a status is reported as Serving iff it is SERVING; a failed check is not |
| HealthChecker.ReportsFrom | internal/health/checker.go:87-136 | what each kind of attempt brings: refusals and broken streams NotServing and another attempt, a missing watch the periodic checks, statuses their verdicts in order |
| HealthChecker.PausesGrow | internal/health/checker.go:84-112 | the pauses are 1, 2, 4, 8 and then 10 seconds |
| HealthChecker.RefusedInARow | internal/health/checker.go:84-118 | what they grow with is the number of refusals since the latest attempt that was not refused |
| HealthChecker.CheckedCallbacksAlternate | internal/health/checker.go:79-159 | whatever part of a checker's reports arrives, the machine's callbacks alternate |
| HealthChecker.Watch | internal/health/checker.go:61-75 | with checks disabled one Serving and a closed channel, otherwise the watch loop |
| HealthChecker.RunWatch | internal/health/checker.go:79-138 | sends the backend's reports in order as far as the context allows, closes the channel, and pauses after every refusal it reports: min(10, 2^(k-1)) seconds after the k-th in a row, starting afresh after an established stream |
| HealthChecker.WatchOnce | internal/health/checker.go:87-136 | one attempt: what it sends, and whether the loop goes on |
| HealthChecker.RunPeriodicCheck | internal/health/checker.go:142-171 | the fallback sends one verdict per check, NotServing for a failed one, as far as the context allows |

## Left out

- Target parsing (`internal/target`) and its round trip: not part of this model.
- gRPC, Kubernetes informer, DNS and health RPC input and output: environment events and parameters with arbitrary outcomes.
- `extractEndpoints` and `matchPort` in the watcher: which EndpointSlice entries become endpoints is not modelled; snapshots are arbitrary.
- Logging, metrics, error texts, `Config.validate`, call options, `Close` and the client wrappers: no state the model tracks.
- The `activeConfig` global and the `sync.Map` picker box: plain fields and parameters here.
- BalancerClass.MakePicker: knows the two built-in policies only and falls back to round robin; factories registered by users are arbitrary code.
- BalancerClass.StartHealthCheck: states the bookkeeping of the cancel function; the dialling and the goroutine that feeds the callback are separate events (`Verdict`) and classes (`HealthMachine`, `HealthChecker`).
- BalancerRuns.DrainEndsIdleOrAtDeadline: counts least-request calls, which are those the code counts (`PollWaitsIff` is about all calls), and says nothing about when, because the 5 s deadline and the 10 ms poll are events that may come at any time.
- Freshness of health verdicts with checks enabled: a verdict may arrive after a TransientFailure; only structure and picker agreement are claimed there.
- Parse-then-print of addresses with trailing text after the port: scanning accepts a numeric prefix (`AddressText.ParsesIff`), so print-then-parse is stated.
- float64 rounding and NaN in the backoff: reals are used.
- The algorithm inside `sort.Slice`: an in-place selection sort with the same promise stands in for it.
- The copy that `CapEndpoints` makes of its input, and aliasing of tracker slices: sequences are values here.
- Pickers.LRPicker.Pick: atomicity of the scan under concurrent picks is not claimed, because load and increment are separate accesses; conservation over all interleavings is claimed of the step machine.
- BalancerClass.K8sBalancer.PickLeastRequest: performs the pick as one step; in the step machine a pick may charge any entry of its picker, so nothing about runs relies on which one the scan finds.
- PoolClass.Pool.DrainWake: models one turn of the polling loop; that the loop is woken at all is up to the environment.
- Retry.Unary: each call makes exactly one pick, by the picker of its attempt; calls that gRPC queues and picks again are not modelled. Cancellation is sampled before each attempt and once per sleep; a context that ends during a call shows up as that call's reply.
