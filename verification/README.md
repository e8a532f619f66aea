# Edge Pilot: a verified model of the control plane

Edge Pilot deploys services to agents in two slots, blue and green, and moves traffic between them
through one HAProxy per agent. This project models the parts of it that decide something, and
proves what they promise. `dafny verify dfyconfig.toml` checks everything.

| part | files |
|---|---|
| the HAProxy route compiler | `Router`, `RouterProof`, `RouterTheorems`, `RouterCorrect`, `RouterPaths`, `TcpRouter`, `RouteNames` |
| applying a snapshot in a transaction | `Reconcile`, `ReconcileTheorems` |
| the published snapshot, end to end | `Publisher`, `PublishedPath`, `PublishedRoutes` |
| the release state machine | `ReleaseModel`, `ReleaseService`, `ReleaseInvariant`, `ReleaseTheorems`, `ReleaseOperations`, `ReleaseDeletion` |
| the scheduler's leases and dispatch cycle | `RunLease`, `RunHandling`, `RunDispatch` |
| the enqueue cycle | `Enqueue` |
| cron expressions and the calendar | `CronSteps`, `CronSyntax`, `CronParser`, `CronSearch`, `CronFires`, `CronOverflow`, `Calendar` |
| the service catalog | `Catalog`, `CatalogService`, `CatalogRequests`, `HostTexts` |
| Docker log frames | `DockerLog` |
| shared | `Text`, `Widths`, `Sorting`, `Wrappers` |

Code that changes stored rows, a field or a buffer is a class whose methods are proved against
functions on values; the promises are theorems about those functions, over every input or over
every run. The values the code obtains from elsewhere are parameters: the clock, new row ids,
which agents and executors are connected, how a delivery ends, which data-plane requests fail
or lose their answer, what executors report while a cycle runs, and the numbers HAProxy draws.

## What the proofs say about the code

- The split is emitted as a rule with `rand(100)` and a rule with its negation. They cover all
  requests only if one number is drawn per request, which `CompilerIsCorrect` assumes.
  `EvaluatesWithDraws` says what happens with a fresh draw per rule, and `TwoDrawsCanFallThrough`
  exactly when such a request passes the service and reaches the default backend.
- All hosts of a service are emitted as one text after a flag. The proxy reads it as words and takes
  those with a leading dash for further flags. As far as the hosts are free of quotes, backslashes
  and comment signs, the host ACL means what they say exactly if none contains a blank and the first
  does not start with a dash (`HostAclIsExact`). Neither the catalog nor the compiler checks that
  (`TwoWordHostOverlaps`, `FlagHostIsLost`).
- `CompilerIsCorrect` also assumes distinct service ids in UUID form, a backend named exactly when
  its release is, and requests without the sentinel value of empty ACLs. Unique routes are needed
  only for the routing rule to allow a single backend. Published snapshots of a catalog meet all
  that is asked of a snapshot exactly if their texts are readable: no blanks in hosts, no dash in
  front of the first, and no quotes, backslashes or comment signs in hosts and prefixes
  (`SnapshotIsGood`, `TextsReadable`). Those last characters are shut out, not given their meaning.
- While a service has no live slot the publisher takes blue for live, so its first release is
  published as live before anybody confirmed it: `NamedBeforeConfirmed` says exactly when.
- A completion that another claim overtakes between reading and writing can put an older attempt
  back, so one run may be delivered more often than its retries allow
  (`SplitCompletionDeliversTooOften`). `Ledger` accounts for it over every interleaving, and
  `DeliveriesAreCounted` says exactly when the bound breaks.
- Noting why no executor took a run writes the whole row back as it was read. That is a note, and
  no more, exactly if no report changed the row in between (`SplitNoteIsNote`). Otherwise it can
  reopen a run that was completed meanwhile (`ClosedRunComesBack`), and a closed run stays closed
  exactly if no such note is under way (`TerminalForever`). Leases stay exclusive all the same, since
  a run is only noted when its lease is over (`LeaseIsExclusive`).
- Deleting a service leaves the rows of its releases behind. No task of it is open then or created
  later (`DeletedWithoutTasks`, `NothingDeploys`), but a release of it that waits at 0% can still be
  shifted, confirmed and rolled back (`ShiftsGoOn`). The other services are as though it had never
  been (`DeletionIsErasure`).
- A cron step is added on 64-bit integers. If the first step of a segment wraps, the loop collects
  further values: `OddMinutesFire`, `ThirtyFirstOfFebruaryFires` and `ThirtyOneValues` give inputs,
  and `ParsedAsMeant` says exactly which expressions are read as they are meant. Results about what
  an expression means ask for one of those (`NoOverflow`); the others hold of whatever is read.
- Seconds become 64-bit nanoseconds, so a lease of more than about 292 years is cut short
  (`LeaseLasts`, `LongLeaseIsOver`), and a deploy timeout likewise (`TimeoutIsExact`).
- The cron search succeeds from every instant exactly for the expressions `SearchIsComplete`
  names. Among those read as meant, the others fire on 29 February only. Such a job runs out of
  fire times on its first leap day (`EveryLeapDayJobFails`). A cycle is one transaction, so from
  then on no cycle has any effect: nothing is enqueued, and nothing is dispatched either
  (`OneFailureStopsAll`).
- A frontend of somebody else's on the same proxy may lose a backend it names:
  `NamedBackendsExist` says exactly when it keeps it.
- A frame of more than 1 MiB ends the log stream, while the batch decoder takes it
  (`LargeFrameDisagrees`); the two agree exactly on data without such a frame (`DecodersAgree`).
- The two day fields count as restricted when the parsed set is not full. That follows the code;
  the INPUT FILES section of the crontab utility in POSIX.1-2017 goes by the asterisk instead.

## Model

| member | source | states |
|---|---|---|
| `RouterCorrect.CompilerIsCorrect` | internal/agent/infra/runtime/proxy_stack.go:903-1034 | for every well-named snapshot of readable texts, longest-first order, request and single draw, the emitted list evaluates to a backend the direct routing rule picks, and with unique routes it picks no other |
| `RouterCorrect.EvaluatesInOrder` | internal/agent/infra/runtime/proxy_stack.go:903-1034 | in the order emitted, the first service that decides a request sends it; if none does, the default backend gets it |
| `RouterCorrect.EvaluatesWithDraws` | internal/agent/infra/runtime/proxy_stack.go:903-1034 | with a fresh draw for every rule, in any order, the list evaluates to the first service that decides: a split by the draws of its seventh and eighth rule, anything else without a draw |
| `RouterCorrect.LiveServiceNeverFallsThrough` | internal/agent/infra/runtime/proxy_stack.go:966-1017 | with unique routes, a request served by a service with a live backend ends at that service or at one with a strictly longer prefix, and never at the default |
| `RouterCorrect.OrderDoesNotMatter` | internal/agent/infra/runtime/proxy_stack.go:904-915 | every longest-first order of a snapshot routes alike, so the unstable sort is harmless |
| `RouterCorrect.ServersDiffer` | internal/servicecatalog/application/service.go:750-773 | services that serve one request have prefixes of different lengths when routes are unique |
| `RouterCorrect.RouteIsUnique` | internal/agent/infra/runtime/proxy_stack.go:904-1034 | the routing rule is right for one backend only |
| `RouterCorrect.TwoDrawsCanFallThrough` | internal/agent/infra/runtime/proxy_stack.go:903-1034 | in any order, if no earlier service decides and the rules of a splitting service start at n, a fresh draw per rule passes it exactly when draw n+6 is at or above the percent and draw n+7 below it; the default gets the request exactly when no later service decides either |
| `RouterCorrect.ServiceDecides` | internal/agent/infra/runtime/proxy_stack.go:966-1017 | whatever its rules draw, the rules of one service decide as specified: own paths, query, cookie, split, live |
| `RouterPaths.BetaIsNormalized` | internal/agent/infra/runtime/proxy_stack.go:955-989 | a request for "/__ep/beta" below the prefix of the service with the longest match is sent to "ep_normalize", with or without a live release |
| `RouterPaths.NormalizeNeedsLive` | internal/agent/infra/runtime/proxy_stack.go:955-987 | one for "/__ep/normalize" is sent there if and only if the service has a live release |
| `RouterPaths.CookieNameIs` | internal/servicecatalog/application/proxy_config.go:101-121 | the cookie of a service is "ep_release_id_" and its key with underscores for dashes |
| `RouterPaths.CookiesDiffer` | internal/servicecatalog/application/proxy_config.go:101-121 | no two keys of a catalog share a cookie |
| `RouterPaths.NothingMatches` | internal/agent/infra/runtime/proxy_stack.go:1779-1785 | the ACLs of a service without hosts or without a release hold for "__edge_pilot_invalid__" alone |
| `RouterPaths.AclNameIs` | internal/agent/infra/runtime/proxy_stack.go:1787-1794 | an ACL is named by the id of its service, with underscores for dashes, and what it tests |
| `RouterPaths.AssetsAre` | internal/agent/infra/runtime/proxy_stack.go:942-942 | the first ACL of every section holds exactly for the paths with one of 26 endings, letter case aside |
| `RouterProof.NamesResolve` | internal/agent/infra/runtime/proxy_stack.go:940-964 | within the section an ACL name stands for exactly the criterion of its service and purpose |
| `RouterProof.AclNamesDiffer` | internal/agent/infra/runtime/proxy_stack.go:1787-1794 | ACL names tell both the service and the purpose |
| `RouterProof.AclsTell` | internal/agent/infra/runtime/proxy_stack.go:957-964 | the ACLs of a service hold exactly when the request has the host and prefix, path, release in query or cookie, or draw they are about |
| `RouterProof.HostAclMeaning` | internal/agent/infra/runtime/proxy_stack.go:959-959 | without quotes, backslashes and comment signs the emitted host ACL holds exactly for the words of the service's hosts after any leading flags |
| `RouterProof.HostAclIsExact` | internal/agent/infra/runtime/proxy_stack.go:1779-1785 | as far as the hosts are free of quotes, backslashes and comment signs, it means that the host is one of them, for every request, if and only if none contains a blank and the first is not a flag |
| `HostTexts.TwoWordHostOverlaps` | internal/servicecatalog/application/service.go:355-381 | the catalog accepts the hosts "a.com b.com" and "b.com" for two services of one agent and prefix, and the first one's ACLs hold for a request to b.com |
| `HostTexts.FlagHostIsLost` | internal/servicecatalog/application/service.go:355-381 | the catalog accepts the hosts "-m", "beg" and "a", none with a blank, and the ACL does not hold for the first |
| `RouterTheorems.StickyRulesYield` | internal/agent/infra/runtime/proxy_stack.go:966-993 | normalize, beta, query and cookie rules decide in that order whatever is drawn |
| `RouterTheorems.SplitRulesYield` | internal/agent/infra/runtime/proxy_stack.go:994-1017 | unless the split decides, the closing rules yield the live backend, the candidate or nothing, whatever is drawn |
| `RouterCorrect.FrontendSection` | internal/agent/infra/runtime/proxy_stack.go:903-1034 | the compiler loop over the sorted services yields a section that routes as specified |
| `RouterCorrect.AddStickyRules` | internal/agent/infra/runtime/proxy_stack.go:966-993 | appends the override rules of one service, skipping those without a backend |
| `RouterCorrect.AddSplitRules` | internal/agent/infra/runtime/proxy_stack.go:996-1017 | appends the closing rules of one service |
| `RouterCorrect.ProxyRouteHosts` | internal/agent/infra/runtime/proxy_stack.go:871-893 | collects each host of a service that normalizes to something, once |
| `TcpRouter.TcpShare` | internal/agent/infra/runtime/proxy_stack.go:1108-1153 | exactly `percent` of the hundred draws reach the TCP candidate, the others the live backend |
| `TcpRouter.IdleHour` | internal/agent/infra/runtime/proxy_stack.go:1058-1096 | a port without a positive idle timeout gets an hour |
| `TcpRouter.BuildTcpProxyConfigs` | internal/agent/infra/runtime/proxy_stack.go:1058-1096 | one proxy per usable port of every service, sorted by listen port |
| `TcpRouter.FrontendsAreDistinct` | internal/agent/infra/runtime/proxy_stack.go:1058-1096 | snapshots without shared listen ports give TCP frontends of different names and ports |
| `Reconcile.Reconcile` | internal/agent/infra/runtime/proxy_stack.go:417-616 | a reconcile commits the whole target or leaves the committed configuration as it was: the former if it reports success, the latter if it reports failure and the commit was answered |
| `Reconcile.Prepare` | internal/agent/infra/runtime/proxy_stack.go:450-606 | between opening and committing, the transaction is brought to exactly the target |
| `Reconcile.EnsureServices` | internal/agent/infra/runtime/proxy_stack.go:450-495 | every named HTTP backend is ensured with its one server |
| `Reconcile.EnsureProxies` | internal/agent/infra/runtime/proxy_stack.go:496-535 | TCP backends, unavailable backends and TCP frontends are ensured in order |
| `Reconcile.DeleteStaleFrontends` | internal/agent/infra/runtime/proxy_stack.go:549-566 | deletes exactly the committed managed TCP frontends that are no longer wanted |
| `Reconcile.DeleteStaleBackends` | internal/agent/infra/runtime/proxy_stack.go:569-606 | deletes exactly the committed backends that are no longer wanted |
| `Reconcile.DataPlane.EnsureBackend` | internal/agent/infra/runtime/dataplane_client.go:456-470 | replaces a section, or creates a missing one by a second request |
| `Reconcile.DataPlane.CommitTransaction` | internal/agent/infra/runtime/dataplane_client.go:617-620 | installs the transaction or changes nothing; a failure whose answer arrived changed nothing |
| `ReconcileTheorems.BackendsAreExact` | internal/agent/infra/runtime/proxy_stack.go:573-606 | if the default backend is there, exactly the wanted backends remain |
| `ReconcileTheorems.BackendContent` | internal/agent/infra/runtime/proxy_stack.go:450-541 | a backend ensured under a name of its own is committed as wanted, whatever was there before |
| `ReconcileTheorems.FrontendsAreExact` | internal/agent/infra/runtime/proxy_stack.go:528-566 | exactly the wanted managed frontends remain, the shared one is the compiled one, all others are untouched |
| `ReconcileTheorems.FrontendsByName` | internal/agent/infra/runtime/proxy_stack.go:528-566 | whatever was committed before: "ep_http" listens on port 80 and ends at "ep_default"; of the names that begin with "ep_tcp_" exactly those of the ports wanted remain; a frontend of any other name is left as it was |
| `ReconcileTheorems.NamedBackendsExist` | internal/agent/infra/runtime/proxy_stack.go:417-616 | every backend a wanted frontend names is committed; a foreign frontend keeps its backends exactly when the snapshot wants them |
| `ReconcileTheorems.RepeatingChangesNothing` | internal/agent/infra/runtime/proxy_stack.go:417-616 | reconciling a snapshot again changes nothing |
| `ReconcileTheorems.CompiledOnce` | internal/agent/infra/runtime/proxy_stack.go:904-915 | with distinct keys and listen ports a snapshot compiles to one section and one list of proxies |
| `Publisher.EndToEnd` | adapter/grpc/controlplane/proxy_config.go:48-180 | in every reachable state with a live slot, while all texts are readable, the compiled snapshot sends a plain request to the live release, and to a waiting one exactly when the draw is below its percent |
| `Publisher.PublishedMatchesState` | adapter/grpc/controlplane/proxy_config.go:108-180 | the snapshot names the live slot's release, a candidate exactly when a release waits to be switched, and its percent |
| `Publisher.NamedBeforeConfirmed` | adapter/grpc/controlplane/proxy_config.go:182-189 | a release is named live before it is confirmed exactly when there is no live slot yet and the first container runs |
| `Publisher.SnapshotIsGood` | adapter/grpc/controlplane/proxy_config.go:48-92 | the catalog's exclusive claims make a snapshot one the compiler is correct for if and only if its texts are readable: of enabled services, no host contains a blank, no first host is a flag, and neither hosts nor prefixes contain a quote, backslash or comment sign |
| `Publisher.SnapshotReconciles` | adapter/grpc/controlplane/proxy_config.go:54-84 | the snapshot meets what the reconcile results ask: backends named with their releases, managed frontends, distinct keys |
| `Publisher.ServersAreContainers` | internal/agent/infra/runtime/proxy_stack.go:450-495 | every HTTP backend has one server, the container of the release it is named after in the slot that release occupies |
| `Publisher.TcpEndToEnd` | adapter/grpc/controlplane/proxy_config.go:54-84 | the same for TCP: a connection reaches a waiting release exactly when the draw is below its percent, and the live release otherwise |
| `Publisher.TcpServersAreContainers` | internal/agent/infra/runtime/proxy_stack.go:496-520 | every TCP backend with a server has the container of its release in the slot that release occupies |
| `Publisher.TcpBackendNamesDiffer` | internal/servicecatalog/application/proxy_config.go:87-94 | releases, services and ports are told apart by TCP backend names |
| `Publisher.ResolveReleases` | adapter/grpc/controlplane/proxy_config.go:108-145 | the loop over runtime instances finds the occupants of the live and the other slot and their visibility |
| `Publisher.BuildSnapshot` | adapter/grpc/controlplane/proxy_config.go:48-92 | one configuration per enabled service listed, sorted by prefix length, host and key |
| `Publisher.BackendNamesDiffer` | internal/servicecatalog/application/proxy_config.go:70-77 | different releases of any services have different backends, none of them reserved |
| `Publisher.DeletedWhenIdle` | internal/servicecatalog/application/service.go:840-859 | in reachable states a stored service can be deleted exactly when each of its releases is queued, closed or waiting at 0%, and then none of its deploy tasks is open |
| `PublishedPath.RequestReachesContainer` | internal/agent/infra/runtime/proxy_stack.go:417-616 | in every reachable state with a live slot, once a snapshot with readable texts is committed, a plain request is sent to a backend that is there and has exactly the container of its release: the waiting release's exactly when the draw is below its percent, and else the live one's |
| `PublishedPath.ConnectionReachesContainer` | internal/agent/infra/runtime/proxy_stack.go:496-547 | the same for a TCP connection: its listen port is bound by a frontend that sends it to a backend with exactly the container of the release the draw decides, both with the idle timeout asked for if and only if that fits into 32 bits |
| `PublishedRoutes.ShiftIsObeyed` | internal/release/application/service.go:394-465 | once a shift of a release to p percent is accepted, published and committed, a plain request reaches its container exactly if the draw is below p, for every p from 0 to 100 |
| `PublishedRoutes.ShiftIsObeyedByTcp` | internal/release/application/service.go:394-465 | the same for a connection to any listen port of the service |
| `PublishedRoutes.NamedReleaseIsReached` | internal/agent/infra/runtime/proxy_stack.go:947-993 | a request that asks for the live or waiting release by the preview parameter reaches its container, and one that asks for neither but whose cookie remembers one of them reaches that, whatever the draw and the share |
| `PublishedRoutes.ReservedPathsAreNormalized` | internal/agent/infra/runtime/proxy_stack.go:955-989 | in every reachable state, with or without a live slot, "/__ep/beta" below the stored prefix is normalized, and "/__ep/normalize" exactly if there is a live slot or the first container runs |
| `PublishedRoutes.ServesAsStored` | internal/agent/infra/runtime/proxy_stack.go:959-960 | a published service serves exactly the requests for its stored hosts, letter case aside, below its stored prefix |
| `PublishedPath.NamesAreTheirOwn` | adapter/grpc/controlplane/proxy_config.go:48-92 | every backend of a published snapshot, HTTP or TCP, has a name of its own |
| `PublishedPath.EntryHasOrigin` | adapter/grpc/controlplane/proxy_config.go:48-92 | every published backend is that of an instance of a release, of a listen port without one, or the one that normalizes, with exactly that container |
| `PublishedPath.OriginsDiffer` | internal/servicecatalog/application/proxy_config.go:70-94 | backends of different origin have different names |
| `PublishedPath.PublishedNeverFallsThrough` | internal/agent/infra/runtime/proxy_stack.go:903-1034 | a request that a published service with a live slot serves never ends at the default backend |
| `RouteNames.PrefixNormalForm` | internal/servicecatalog/application/proxy_config.go:49-64 | normalizing leaves a prefix alone exactly when it starts at the root and ends in neither slash nor blank |
| `RouteNames.PrefixIs` | internal/servicecatalog/application/proxy_config.go:49-64 | a prefix is normalized by trimming it, starting it at the root and cutting the slashes at its end |
| `Text.TrimIs` | internal/servicecatalog/application/proxy_config.go:45-50 | trimming cuts all blanks at both ends and nothing else |
| `Text.CaseIs` | internal/servicecatalog/application/proxy_config.go:45-47 | changing the letter case maps each of the 26 letters to the other of its kind and nothing else |
| `Text.AtoiIs` | internal/scheduler/application/cron.go:140-155 | decimal numbers are read back as far as they fit into 64 bits |
| `ReleaseTheorems.OneReleaseAtATime` | internal/release/application/service.go:143-317 | over every run a service has at most one release deploying or waiting, prepared against the live slot and targeting the other |
| `ReleaseTheorems.StartClosesParked` | internal/release/application/service.go:1337-1367 | starting a release closes the one parked at 0% on the slot about to be reused |
| `ReleaseTheorems.LiveSlotServes` | internal/release/application/service.go:394-465 | with a live slot its instance exists, is healthy, alone accepts traffic and belongs to the only release at 100% |
| `ReleaseTheorems.OnlyConfirmationMovesTraffic` | internal/release/application/service.go:394-465 | a live slot and its occupant change exactly by an accepted confirmation, to the other slot and the confirmed release |
| `ReleaseTheorems.NoSlotUntilConfirmed` | internal/release/application/service.go:394-465 | a service without a live slot gets one exactly by a confirmation |
| `ReleaseTheorems.TrafficStaysPut` | internal/release/application/service.go:350-1022 | deploys, failures, timeouts, skips, rollbacks and partial shifts in any number leave the live slot and its release alone |
| `ReleaseTheorems.ShiftAccepted` | internal/release/application/service.go:350-465 | in reachable states only the status, the percent and a missing baseline refuse a shift or rollback |
| `ReleaseTheorems.InFlightIsVisible` | internal/release/infra/repository.go:236-266 | a release is in flight exactly when its task is open, and then recovery and the timeout scan see it |
| `ReleaseTheorems.OpenTaskHasRelease` | internal/release/infra/repository.go:236-266 | every open task is the current task of an in-flight release |
| `ReleaseTheorems.NoStaleTaskSurvives` | internal/release/application/service.go:751-804 | after the scan no in-flight release is past its timeout, and exactly the stale ones were failed |
| `ReleaseModel.TimeoutIsExact` | internal/release/application/service.go:1449-1462 | a deploy timeout is the sum it is configured as if and only if that sum fits into 64-bit nanoseconds |
| `Widths.WidthsAre` | internal/release/application/service.go:1449-1462 | a machine integer keeps a number modulo two to the power of its width, around zero |
| `ReleaseTheorems.LateUpdatesChangeNothing` | internal/release/application/service.go:554-590 | once a task has ended, no later update of it changes a row, over every run |
| `ReleaseTheorems.FinalReportsEndTheTask` | internal/release/application/service.go:591-677 | a success or failure report ends its task for good |
| `ReleaseOperations.StartAccepted` | internal/release/application/service.go:143-188 | a start is accepted exactly for a queued release, or a skipped one with no newer fully live one, if nothing of its service is deploying or splitting and its agent takes the task |
| `ReleaseOperations.RetryAccepted` | internal/release/application/service.go:241-275 | a retry exactly for a failed release under the same conditions |
| `ReleaseOperations.StartTouches` | internal/release/application/service.go:143-239 | an accepted start deploys the release to the slot that is not live, skips exactly the older queued ones of its service, closes exactly those parked on that slot, and touches no other |
| `ReleaseOperations.RetryTouches` | internal/release/application/service.go:241-317 | an accepted retry does the same but skips nothing |
| `ReleaseOperations.Queues` | internal/release/application/service.go:91-141 | a delivery is queued exactly if its service is enabled and has no open release of the same tag and, where one is named, the same commit |
| `ReleaseOperations.Skips` | internal/release/application/service.go:319-344 | exactly queued releases can be skipped |
| `ReleaseOperations.ReportNeedsTask` | internal/release/application/service.go:554-590 | in any state a report changes nothing unless its task is open and the one its open release waits for |
| `ReleaseOperations.ReportMoves` | internal/release/application/service.go:591-677 | what a report on an open task makes of task, release and instance |
| `ReleaseOperations.ShiftNeedsHealth` | internal/release/application/service.go:394-416 | in any state, which shifts and rollbacks are accepted, the health of the instance they rely on included |
| `ReleaseOperations.PreviousGivesUp` | internal/release/application/service.go:1369-1404 | whoever held the slot live before is completed and gives up its share, keeping the time it was completed at |
| `ReleaseOperations.ShiftTouches` | internal/release/application/service.go:394-465 | an accepted shift stores the percent asked for; at 100 the release is completed, its slot live, and the one live before gives up its share |
| `ReleaseOperations.RollbackTouches` | internal/release/application/service.go:350-392 | an accepted rollback closes the waiting release and leaves the live slot alone |
| `ReleaseOperations.Recovers` | internal/release/application/service.go:679-749 | of the open tasks of a reconnecting agent those it runs are marked running and those it accepts again handed over; nothing else changes |
| `ReleaseOperations.ScanFails` | internal/release/application/service.go:751-804 | the scan fails a release exactly if it is deploying and 330 seconds and its two graces, 15 and 90 by default, have passed since the last word of its task |
| `ReleaseOperations.ScanEnds` | internal/release/application/service.go:751-804 | and ends exactly the tasks that are open and past their allowance |
| `ReleaseOperations.ScansNeedRelease` | internal/release/infra/repository.go:236-266 | in any state recovery and the scan change a task only if it is open and some release has it |
| `ReleaseOperations.ScanNeedsTask` | internal/release/application/service.go:751-804 | nor does the scan change one whose release waits for another or is closed |
| `ReleaseInvariant.RunInv` | internal/release/application/service.go:91-804 | slot, task, instance and percent invariants are kept together by every run |
| `ReleaseInvariant.LaunchInv` | internal/release/application/service.go:143-317 | a start or retry keeps them, whether it is prepared, delivered or rejected |
| `ReleaseInvariant.SwitchInv` | internal/release/application/service.go:430-465 | a confirmation keeps them |
| `ReleaseInvariant.UpdateInv` | internal/release/application/service.go:554-677 | a task report keeps them |
| `ReleaseInvariant.FailStaleInv` | internal/release/application/service.go:751-804 | the timeout scan keeps them |
| `ReleaseInvariant.RecoverInv` | internal/release/application/service.go:679-749 | agent recovery keeps them |
| `ReleaseDeletion.DeletionIsErasure` | internal/servicecatalog/application/service.go:225-240 | over every run with deletions, the rows of the services never deleted are what the operations about them alone would have made |
| `ReleaseDeletion.RestIsReachable` | internal/servicecatalog/application/service.go:225-240 | so they are reachable without deletions, and every result about reachable states holds of them |
| `ReleaseDeletion.ErasedStep` | internal/release/application/service.go:91-804 | an operation on one service does the same whether or not the rows of others are there, and nothing to those |
| `ReleaseDeletion.DeletedWithoutTasks` | internal/servicecatalog/application/service.go:840-859 | whatever was deleted before, a service is deleted without any open task |
| `ReleaseDeletion.NothingDeploys` | internal/release/application/service.go:143-317 | from then on, over every run, no task of it is created or changed |
| `ReleaseDeletion.ShiftsGoOn` | internal/release/application/service.go:350-465 | its parked releases are shifted, confirmed and rolled back as though it were still there |
| `ReleaseService.Service.Start` | internal/release/application/service.go:143-239 | the stored rows after starting a release, and the refusals in order |
| `ReleaseService.Service.Retry` | internal/release/application/service.go:241-317 | the stored rows after retrying a failed release |
| `ReleaseService.Service.CreateFromCI` | internal/release/application/service.go:91-141 | queues a release unless a duplicate is open |
| `ReleaseService.Service.Skip` | internal/release/application/service.go:319-344 | closes a queued release |
| `ReleaseService.Service.SetTrafficPercent` | internal/release/application/service.go:394-465 | the stored rows after a shift or confirmation |
| `ReleaseService.Service.Rollback` | internal/release/application/service.go:350-392 | the stored rows after a rollback |
| `ReleaseService.Service.HandleTaskUpdate` | internal/release/application/service.go:554-677 | the stored rows after a task report; late ones change nothing |
| `ReleaseService.Service.RecoverAgentTasks` | internal/release/application/service.go:679-749 | tasks still running are marked so, the others sent again |
| `ReleaseService.Service.FailStaleTasks` | internal/release/application/service.go:751-804 | the scan loop fails every stale task and the release waiting for it, and nothing else |
| `ReleaseService.Service.CompleteSupersededReleases` | internal/release/application/service.go:1337-1367 | the loop closes exactly the releases parked on the target slot |
| `ReleaseService.Service.CompletePreviousLiveRelease` | internal/release/application/service.go:1369-1404 | the release live until now gives up its percent |
| `ReleaseService.Service.SkipOlderQueued` | internal/release/application/service.go:1406-1428 | the loop skips exactly the older queued releases |
| `RunLease.LeaseStates` | internal/scheduler/infra/repository.go:146-261 | over every interleaving, with completions and notes split, a run is leased exactly while dispatched or running, closed exactly when terminal, and 1 <= attempt <= maxRetries + 1 |
| `RunLease.LeaseIsExclusive` | internal/scheduler/infra/repository.go:146-241 | until its lease runs out a run stays with its holder, unless completed or bounced by that holder; split notes do not break this |
| `RunLease.OnlyTheHolderActs` | internal/scheduler/infra/repository.go:146-241 | before expiry only the holder's own steps reach the row |
| `RunLease.RenewalHolds` | internal/scheduler/infra/repository.go:192-205 | after an accepted renewal at t, over any interleaving in which the holder does not give the run up, nobody lists, claims or fails it before t plus its lease in seconds |
| `RunLease.NeverDisplaced` | internal/scheduler/application/service.go:411-431 | a holder that renews in time keeps its run over any interleaving |
| `RunLease.GrantedFor` | internal/scheduler/application/service.go:905-930 | a claim or renewal grants the run's own lease, else its payload's, else the configured one, else sixty seconds |
| `RunLease.HandedOut` | internal/scheduler/infra/repository.go:146-174 | exactly when a run can be claimed, whether that is a new attempt, and what the claim leaves |
| `RunLease.FailedForGood` | internal/scheduler/infra/repository.go:243-261 | a leased run is failed exactly when its lease is over and no retry is left |
| `RunLease.TakenBackOrStarted` | internal/scheduler/infra/repository.go:176-241 | what taking back a refused delivery and the report of a start make of the row |
| `RunLease.CompletionEnds` | internal/scheduler/application/service.go:434-473 | the holder's report makes a run succeeded; or one to retry after 5, 10, 20, 40, 80 or 160 seconds, if the executor allows it and a retry is left; or failed |
| `RunLease.OthersCannotEnd` | internal/scheduler/application/service.go:434-450 | a report of anybody else changes nothing |
| `RunLease.RetryWaits` | internal/scheduler/infra/repository.go:129-174 | a run to retry is left alone over every interleaving until its wait is over and can be claimed from then on |
| `RunLease.HistoryCounts` | internal/scheduler/infra/repository.go:146-261 | the history the ledger goes by counts exactly the claims, deliveries taken back, steps and set-backs that took effect |
| `RunLease.TerminalForever` | internal/scheduler/infra/repository.go:207-261 | a closed run stays closed as it was over every continuation, its message aside, if and only if no note begun before it was closed is still to be written |
| `RunLease.DeliveriesAreBounded` | internal/scheduler/application/service.go:434-473 | if every completion that is written finds the attempt it read, the attempt counts deliveries over the whole run, at most maxRetries + 1 of them, and the run moves on at most twice per attempt plus once per claim taken back and note that set it back |
| `RunLease.Ledger` | internal/scheduler/infra/repository.go:146-261 | over every interleaving, deliveries are what the attempt number counts plus what written completions and notes set it back by |
| `RunLease.DeliveriesAreCounted` | internal/scheduler/application/service.go:434-473 | so a run is delivered more than maxRetries + 1 times exactly when it is set back by more than the attempts left |
| `RunLease.AtomicIsCurrent` | internal/scheduler/application/service.go:434-473 | in a run whose completions are not split they always find the attempt they read, and nothing is set back |
| `RunLease.StaleWriteBreaksAccounting` | internal/scheduler/application/service.go:434-473 | a split completion keeps the count exactly when the attempt it read is still current |
| `RunLease.SplitCompletionDeliversTooOften` | internal/scheduler/infra/repository.go:207-226 | a concrete interleaving delivers a run allowed two deliveries a third time |
| `RunLease.ListedIsClaimedOrFailed` | internal/scheduler/infra/repository.go:129-174 | what is listed is the disjoint union of what can be claimed and what must be failed, and the engine's test is the failing guard |
| `RunLease.NoOrphanedRun` | internal/scheduler/application/service.go:540-578 | every open run is listed from its retry time or lease expiry on, and the step then taken makes it progress |
| `RunLease.LeaseLasts` | internal/scheduler/application/service.go:602-602 | a lease lasts as long as it is set to if and only if that is at most 9223372036 seconds |
| `RunLease.LongLeaseIsOver` | internal/scheduler/application/service.go:905-930 | a run with a lease of ten thousand million seconds is listed again in the moment it is claimed |
| `RunLease.SplitNoteIsNote` | internal/scheduler/application/service.go:556-563 | a note read before any reports of executors and written after them does what a note in one step would if and only if none of those reports changes the row |
| `RunLease.QuietExactly` | internal/scheduler/infra/repository.go:176-226 | reports leave the row as it was at the end if and only if none of them changed it, messages aside: what they do is never undone by others of them |
| `RunLease.ListedRowIsSafe` | internal/scheduler/application/service.go:545-555 | whatever executors report after the engine listed a run, it goes on to claim or note no run it should have failed, and none whose lease is in force |
| `RunLease.ClosedRunComesBack` | internal/scheduler/application/service.go:556-563 | if the holder completes an expired run between the read and the write of a note, the closed run can be claimed again |
| `RunLease.BackoffGrows` | internal/scheduler/application/service.go:880-889 | waits never shrink with the attempt and stay within 5 to 160 seconds |
| `RunLease.RetryBackoff` | internal/scheduler/application/service.go:880-889 | the doubling loop computes five seconds times a power of two |
| `RunDispatch.CyclesAreFair` | internal/scheduler/application/service.go:580-705 | over any history of cycles in which the usable executors of a group stay the same n, any n consecutive picks for one job and group try each of them exactly once |
| `RunDispatch.RoundRobinIsFair` | internal/scheduler/application/service.go:645-705 | any n consecutive turns among n executors use each exactly once, in sorted cyclic order, from any cursor |
| `RunDispatch.ChosenIsReady` | internal/scheduler/application/service.go:580-705 | a run is tried with an executor of its group that is connected, enabled and was heard of within the timeout; one bound to the live slot with the service's own instance there, else an executor of no service with that slot; and with nobody exactly if there is no such executor |
| `RunDispatch.ReasonsAre` | internal/scheduler/application/service.go:580-705 | the reason noted when there is nobody to try a run with |
| `RunDispatch.TurnsAreApart` | internal/scheduler/application/service.go:645-705 | a turn moves the cursor of its own job and group to the executor chosen, and no other |
| `RunDispatch.LifeIsAdmissible` | internal/scheduler/application/service.go:483-578 | over any history of cycles, with executors' reports before, between and during them, all that happens to a run is an admissible interleaving, so what is proved of those holds of the engine |
| `RunDispatch.CycleIsAdmissible` | internal/scheduler/application/service.go:540-578 | if reports come in time, what one cycle does to a row, reports during it included, is such an interleaving and leaves the row the cycle is specified to leave |
| `RunDispatch.CycleTouchesListed` | internal/scheduler/application/service.go:540-578 | to a run it did not list only reports happen in a cycle, and to each it did reports and one handling, in that order |
| `RunDispatch.CycleOutcome` | internal/scheduler/application/service.go:540-578 | after a cycle a listed run is what its handling left, moved on by later reports at most, and its handling began with the row as listed, moved on by earlier reports at most |
| `RunHandling.HandlingOutcome` | internal/scheduler/application/service.go:549-577 | handling leaves a listed run failed, unless its holder ended it in between; or as it was read, with the reason; or with the executor it was handed to, unless the delivery was refused before it started; if nothing is reported meanwhile, exactly so |
| `RunHandling.HandledRow` | internal/scheduler/application/service.go:549-577 | handling one run makes of every row exactly what that row's own events make of it |
| `RunHandling.ListedIsAdmissible` | internal/scheduler/application/service.go:549-577 | the handling of a listed run is admissible whatever executors report before and during it |
| `RunDispatch.Scheduler.DispatchDueRuns` | internal/scheduler/application/service.go:540-578 | the listed runs in order, each with the sorted usable executors of its group and the reports that arrive before and while it is handled, give the rows and the cursors the cycle is specified to leave |
| `RunDispatch.Scheduler.ListDispatchableRuns` | internal/scheduler/infra/repository.go:129-144 | the first runs to dispatch by scheduled time, each once, up to the limit |
| `RunDispatch.Scheduler.DispatchRun` | internal/scheduler/application/service.go:549-577 | going by the row as it was listed, one run is failed, written back with a reason, claimed for the executor chosen, or claimed and taken back, with reports in between; the cursor moves exactly with a turn |
| `RunDispatch.Scheduler.PickExecutorAndClaim` | internal/scheduler/application/service.go:580-611 | the choice among the connected, enabled and recently seen executors sorted by id decides the claim, the cursor and the refusal |
| `RunDispatch.Scheduler.PickExecutor` | internal/scheduler/application/service.go:645-705 | the next turn of the job and group, moving its cursor, or the executor of the live slot |
| `RunDispatch.Scheduler.ClaimRun` | internal/scheduler/infra/repository.go:146-174 | a compare-and-set on the claim guard |
| `RunDispatch.Scheduler.MarkRunRunning` | internal/scheduler/infra/repository.go:176-190 | a compare-and-set on holder and leased status |
| `RunDispatch.Scheduler.RenewRunLease` | internal/scheduler/infra/repository.go:192-205 | a compare-and-set on holder, leased status and an unexpired lease |
| `RunDispatch.Scheduler.WriteCompletion` | internal/scheduler/infra/repository.go:207-226 | a compare-and-set on holder and leased status |
| `RunDispatch.Scheduler.ReadCompletion` | internal/scheduler/application/service.go:434-465 | what a completion will write is computed from the row as read |
| `RunDispatch.Scheduler.ReceiveAll` | internal/scheduler/application/service.go:386-473 | reports in any number change the rows as they are specified to, one after the other |
| `Enqueue.ExactlyOnce` | internal/scheduler/application/service.go:492-538 | an enabled cron job left alone gets one run per fire time, in order, none skipped, doubled or ahead of the clock |
| `Enqueue.OneTimeAtMostOnce` | internal/scheduler/application/service.go:707-712 | a one-time job gets at most one run and is switched off |
| `Enqueue.CycleFails` | internal/scheduler/application/service.go:483-538 | a cycle fails exactly when a listed job has no next time, and then nothing of it remains |
| `Enqueue.OneFailureStopsAll` | internal/scheduler/application/service.go:483-490 | while a due job without a next time stays unedited and the batch has room for it, no cycle has any effect: nothing is enqueued, dispatched, retried or failed |
| `Enqueue.RoomStays` | internal/scheduler/infra/repository.go:51-63 | without edits of jobs, room in the batch now is room throughout |
| `Enqueue.ListedIfRoom` | internal/scheduler/infra/repository.go:51-63 | a due job is listed if fewer other enabled jobs than the batch holds are due no later than it |
| `Enqueue.RunsAreOnTime` | internal/scheduler/application/service.go:492-538 | a job whose time has come and for which the batch has room gets its run in that cycle, pending, with the job's retries, lease, group, policy and service or the configured defaults; no run there before is changed |
| `Enqueue.EveryLeapDayJobFails` | internal/scheduler/application/cron.go:167-205 | a job whose expression is read as meant and only fires on 29 February comes to that point within a day of its first fire time |
| `Enqueue.NewRunIsFresh` | internal/scheduler/application/service.go:508-522 | a created run starts the life the lease results describe |
| `Enqueue.Engine.ListJobsDue` | internal/scheduler/infra/repository.go:51-63 | the due jobs by fire time, each once, up to the batch size |
| `Enqueue.Engine.EnqueueDueJobs` | internal/scheduler/application/service.go:492-538 | the loop takes up the due jobs in order, each in a transaction of its own, until one fails |
| `Enqueue.Engine.EnqueueJob` | internal/scheduler/application/service.go:499-533 | one due job gets its run and next time, or nothing changes |
| `Enqueue.Engine.RunDueCycle` | internal/scheduler/application/service.go:483-490 | enqueues and then dispatches in one transaction; if enqueueing fails nothing changes and nothing is dispatched |
| `Enqueue.Engine.CreateRunIfNotExists` | internal/scheduler/infra/repository.go:78-87 | inserts unless the idempotency key is taken |
| `CronSearch.NextIsLeast` | internal/scheduler/application/cron.go:167-205 | the next time is the least matching minute strictly after the instant, and there is none exactly when no minute up to the deadline matches; the schedule matched is the one meant if and only if no step leaves 64 bits |
| `CronSearch.SearchIsComplete` | internal/scheduler/application/cron.go:167-205 | an accepted expression has a next time from every instant exactly when, over 400 years, every stretch of 366 days has a fitting day; without a step that leaves 64 bits, exactly when it restricts the weekday or allows a day every year has |
| `CronSearch.WindowsDecide` | internal/scheduler/application/cron.go:167-205 | the search succeeds from every minute exactly when every stretch of 366 days, 367 if both ends of a day fire, has a fitting day |
| `CronOverflow.OddMinutesFire` | internal/scheduler/application/cron.go:162-164 | 59/9223372036854775807 means minute 59, and the code fires on every odd minute |
| `CronOverflow.ThirtyFirstOfFebruaryFires` | internal/scheduler/application/cron.go:162-164 | 31/9223372036854775807 in February never matches, and the code always finds a next time |
| `CronOverflow.ThirtyOneValues` | internal/scheduler/application/cron.go:172-173 | 29/9223372036854775807 excludes day 30 and yields 31 values, which the code takes for no restriction |
| `CronSearch.FailsAfterLeapDay` | internal/scheduler/application/cron.go:167-205 | for every other expression without such a step the search fails from the end of 29 February 2028 |
| `CronSearch.EveryDayOfMonthSuffices` | internal/scheduler/application/cron.go:167-205 | within the bounds of its fields, an unrestricted day of the month always suffices |
| `CronSearch.LeapDayExpression` | internal/scheduler/application/cron.go:18-49 | midnight on 29 February is an accepted expression of that kind |
| `CronSearch.DayRule` | internal/scheduler/application/cron.go:172-200 | within the bounds of the fields, two restricted day fields are alternatives; otherwise the restricted one decides |
| `CronFires.YearlyJobs` | internal/scheduler/application/cron.go:18-49 | "minute hour day month *" is accepted exactly for 0-59, 0-23, 1-31 and 1-12, and fires at the first such instant after the given one |
| `CronFires.WeeklyJobs` | internal/scheduler/application/cron.go:51-91 | "minute hour * * NAME" fires at the first such time on that day of the week, day 0 of the calendar being a Thursday |
| `CronFires.NamedDays` | internal/scheduler/application/cron.go:51-91 | SUN to SAT in any letter case stand for 0 to 6, and two of them with a dash for the days between, if in that order |
| `CronFires.NumberField` | internal/scheduler/application/cron.go:24-45 | a number stands for itself within 0-59, 0-23, 1-31, 1-12 and 0-6, field by field, and is refused otherwise; an asterisk stands for all of them |
| `CronFires.SteppedField` | internal/scheduler/application/cron.go:115-165 | "low-high/step" stands for every step-th number from low to high, and "*/step" from the first of the field on |
| `CronSearch.NextCronTime` | internal/scheduler/application/cron.go:167-205 | the minute-by-minute loop finds that time |
| `CronSyntax.SegmentMeaning` | internal/scheduler/application/cron.go:115-165 | a segment is accepted exactly when it is a text of the grammar within bounds, and then stands for its range's steps |
| `CronSyntax.SegmentIsExact` | internal/scheduler/application/cron.go:159-164 | the code gives an accepted segment exactly its steps, and nothing out of bounds, if and only if its first step stays within 64 bits |
| `CronSteps.FilledIsStepped` | internal/scheduler/application/cron.go:162-164 | the loop on 64-bit integers collects every step-th value of the range if and only if its first step does not wrap; otherwise also a negative value |
| `CronSteps.LargestStep` | internal/scheduler/application/cron.go:162-164 | with the largest step it collects the odd numbers below, -1, and one far negative value each |
| `CronSyntax.GrammarIsRead` | internal/scheduler/application/cron.go:115-158 | every text of the grammar is read back as the segment it came from |
| `CronSyntax.ReadIsWellFormed` | internal/scheduler/application/cron.go:115-158 | what is read has the text it was read from |
| `CronSyntax.FieldMeaning` | internal/scheduler/application/cron.go:93-113 | a field is accepted exactly when it has segments and all are; it is their union |
| `CronSyntax.FieldIsExact` | internal/scheduler/application/cron.go:93-113 | an accepted field is read as meant, and within its bounds, if and only if no segment's step leaves 64 bits |
| `CronSyntax.DowMeaning` | internal/scheduler/application/cron.go:36-91 | a field of day names stands for exactly the days and ranges named |
| `CronSyntax.ParsedAsMeant` | internal/scheduler/application/cron.go:18-49 | the code accepts what the grammar does, with the same errors; what it makes of it is what is meant, and within all bounds, if and only if no step leaves 64 bits |
| `CronSyntax.FiveReads` | internal/scheduler/application/cron.go:18-49 | the five fields are read in order and the first that fails decides the error |
| `CronParser.CronField.Fill` | internal/scheduler/application/cron.go:162-164 | the stepping loop adds on 64-bit integers, and ends |
| `CronParser.CronField.AddSegment` | internal/scheduler/application/cron.go:115-165 | adds exactly the values the code gives an accepted segment; a rejected one changes nothing |
| `CronParser.ParseField` | internal/scheduler/application/cron.go:93-113 | the loop over segments fills the field with their union |
| `CronParser.NormalizeDays` | internal/scheduler/application/cron.go:51-91 | the loop rewrites day names to digits |
| `CronParser.Parse` | internal/scheduler/application/cron.go:18-49 | five fields in order, each error reported for its field |
| `Calendar.CalendarRule` | internal/scheduler/application/cron.go:171-201 | day numbers follow the Gregorian successor rule from 1970-01-01, in both directions |
| `Calendar.MonthsAre` | internal/scheduler/application/cron.go:171-201 | the lengths of the months and the leap years |
| `Calendar.KnownDays` | internal/scheduler/application/cron.go:171-201 | three dates as day numbers |
| `Calendar.DateRoundTrip` | internal/scheduler/application/cron.go:171-201 | day numbers and valid dates are in one-to-one correspondence |
| `Calendar.WeekdayRule` | internal/scheduler/application/cron.go:189-191 | weekdays follow each other from Thursday, 1970-01-01 |
| `Calendar.CalendarRepeats` | internal/scheduler/application/cron.go:171-201 | dates and weekdays repeat after any multiple of 400 years |
| `Calendar.DateWithinAYear` | internal/scheduler/application/cron.go:171-201 | a date every year has occurs within 365 days of any day |
| `Calendar.WeekdayWithinAYear` | internal/scheduler/application/cron.go:171-201 | every weekday of every month occurs within 365 days of any day |
| `Catalog.ClaimsStayExclusive` | internal/servicecatalog/application/service.go:51-158 | over every sequence of operations the services of an agent share no host port and no prefix of a host, and bind no port twice or reserved |
| `Catalog.AcceptedExactly` | internal/servicecatalog/application/service.go:651-831 | a service is accepted exactly when its ports are its own, valid and fit the agent, and no other service of that agent has a route or port of it |
| `CatalogRequests.AcceptedInNumbers` | internal/servicecatalog/application/service.go:651-831 | the same in terms of port numbers, agents and prefixes, for a catalog that keeps its invariant |
| `CatalogRequests.BuildAccepts` | internal/servicecatalog/application/service.go:243-381 | exactly which keys, ports, hosts and prefixes a request may have |
| `CatalogRequests.StoredAsRequested` | internal/servicecatalog/application/service.go:51-158 | after an accepted create or update the service is stored as requested and no other is changed; after a refused one nothing is |
| `Catalog.PortsAccepted` | internal/servicecatalog/application/service.go:651-705 | the three port validators together accept exactly duplicate-free, unreserved, in-range host ports |
| `Catalog.RunInv` | internal/servicecatalog/application/service.go:51-240 | every sequence of creates, updates and deletes keeps the catalog invariant |
| `Catalog.StoredKeepsInv` | internal/servicecatalog/application/service.go:750-831 | storing a checked service keeps it |
| `Catalog.CleanIsNormal` | internal/servicecatalog/application/service.go:738-748 | an accepted path prefix is in normal form |
| `Catalog.IdentityStays` | internal/servicecatalog/application/service.go:99-117 | key and agent of a stored service never change |
| `CatalogService.Store.Create` | internal/servicecatalog/application/service.go:51-97 | stores a checked new service, or says why not and stores nothing |
| `CatalogService.Store.Update` | internal/servicecatalog/application/service.go:99-158 | replaces a stored service by a checked one, or changes nothing |
| `CatalogService.Store.Delete` | internal/servicecatalog/application/service.go:225-240 | removes a service without an open release |
| `CatalogService.Store.EnsureRouteAvailable` | internal/servicecatalog/application/service.go:750-773 | the loop finds a conflict exactly when another service of the agent shares prefix and host |
| `CatalogService.Store.EnsureHostPortsAvailable` | internal/servicecatalog/application/service.go:775-831 | the loop finds a conflict exactly when another service of the agent has one of the ports |
| `CatalogService.ValidatePublishedPorts` | internal/servicecatalog/application/service.go:651-669 | reports the first offending published port |
| `CatalogService.ValidateTcpProxyPorts` | internal/servicecatalog/application/service.go:671-692 | reports the first offending TCP port |
| `CatalogService.NormalizeRouteHosts` | internal/servicecatalog/application/service.go:355-381 | the hosts in order, normalized and without repetition, and the primary one |
| `DockerLog.DecodersAgree` | internal/agent/infra/runtime/docker_client.go:888-912 | on every byte string, the batch result is what streaming reads followed by what follows the whole frames if and only if every whole frame fits the reader |
| `DockerLog.DecodeOfEncoded` | internal/agent/infra/runtime/docker_client.go:888-912 | decoding whole frames gives their payloads; a partial frame after a whole one is kept verbatim |
| `DockerLog.EncodedOfWhole` | internal/agent/infra/runtime/docker_client.go:888-912 | any data are the encoding of the whole frames found and a rest without one |
| `DockerLog.StreamOfEncoded` | adapter/grpc/agent/client.go:507-527 | streaming reads well-formed frames one by one and then reports a clean end at a frame's start or right after a header, a size above a mebibyte, or a cut |
| `DockerLog.SizeIs` | adapter/grpc/agent/client.go:515-515 | the size of a payload stands in the bytes 4 to 7 of its header, the highest first |
| `DockerLog.LargeFrameDisagrees` | adapter/grpc/agent/client.go:516-518 | a frame over 1 MiB ends the stream while the batch decoder takes it |
| `DockerLog.DecodeDockerLogStream` | internal/agent/infra/runtime/docker_client.go:888-912 | the offset loop decodes any bytes without leaving their bounds |
| `DockerLog.LogReader.ReadDockerLogFrame` | adapter/grpc/agent/client.go:507-527 | consumes exactly one frame or reports why there is none |
| `DockerLog.LogReader.ReadAll` | adapter/grpc/agent/client.go:458-487 | the client loop reads frames until one cannot be read |

## Left out

- `Enqueue.Engine.EnqueueJob`: the idempotency key is the pair of job and fire time; the code prints the time in nanoseconds, which is not defined outside the years 1678 to 2262.
- `Enqueue.OneFailureStopsAll`: asks for room in the batch at every cycle; `RoomStays` derives it when no job is edited.
- `RunDispatch.CyclesAreFair`: the usable executors have ids of their own, as the session hub lists each executor once.
- `PublishedPath.RequestReachesContainer`: is about the state the snapshot was built from; what happens between a change of state and the commit of its snapshot is not modelled.
- `Publisher.EndToEnd`: says nothing of the time before a service has a live slot; `NamedBeforeConfirmed` does.
- `ReleaseService.Service.HandleTaskUpdate`: the agent is taken to report the slot its task was given; audits and task attempts are not modelled.
- `CatalogService.Store.Create`: resource limits, probes, environment, volumes, aliases and scheduler settings of a request are not modelled, nor the publishing that follows.
- `CatalogService.Store.Update`: likewise.
- `CatalogService.Store.Delete`: whether a release is open is a parameter, because the catalog asks the release service; `Publisher.DeletedWhenIdle` says what the answer is in reachable states, and `ReleaseDeletion` what a deletion does to the releases.
- `Catalog.IdentityStays`: agent ids are taken to carry no blanks around them, as UUIDs do.
- Characters are ASCII: Unicode white space and case are not modelled.
- What the proxy makes of quotes, backslashes and comment signs in a configuration text, and how a flag other than the emitted ones changes what an ACL matches: such texts are not `Readable`.
- Repeated query parameters, repeated cookies and the port of a host header: a request has one value of each.
- Release operations are atomic steps, and one engine runs at a time; the advisory lock itself is not modelled.
- Switch and rollback tasks, and the status Switched: nothing in the repository creates them.
- Database errors, and how the database library treats zero-valued fields: a row is stored whole.
- HTTP header, cookie and response rules, the static-asset ACL's users: no routing depends on them.
- Docker, the HAProxy process, gRPC sessions, the health-probe loop and container cleanup: input and output.
- Encryption, token hashing, the performance ring and the container index: they would only add easy members.
