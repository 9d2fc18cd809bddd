# EasyDeploy: a verified model of its control plane

EasyDeploy keeps a desired state in a database - services, manual routes and environments - and
drives Docker hosts and Envoy proxies towards it. This project models the parts where that can go
wrong and proves what they guarantee. `dafny verify dfyconfig.toml` checks everything.

## What is modelled

- **Routing** (`Slug`, `Registry`, `Xds`, `Routing`, `Addresses`). A publish compiles services and routes
  into one Envoy configuration per environment. The compiler is proved to preserve meaning: looking a host
  up in the emitted virtual hosts and clusters gives the backends of the first upstream that claims it.
  `Addresses` says for every host on every node who answers it, from the stored rows alone.
  Every node's configuration has distinct names and domains, a live service owns its auto host under an
  exact condition, and services win over routes.
- **Publishing as a protocol** (`PublishProtocol`). Service operations write outside the registry's
  lock and publish later; route operations write and publish under it; a publish reads and pushes in
  separate steps; any operation may fail. No update is lost, over all interleavings.
- **Replicas** (`Docker`, `Replicas`, `Passes`, `Services`). Reconciling is self-stabilising, a
  rollout misses at most one replica at every moment, and after each operation the containers of a
  service are exactly the hosts of its published cluster. `Docker.Hosts` keeps ghost records of every
  state the containers went through (`history`), of the deploy and remove calls (`changes`) and of
  failures (`faults`), so that contracts can speak of intermediate states and of runs without
  failures. A service is `Clean` when the labels and the names of its replicas correspond.
- **Overlapping operations** (`Overlap`, `Race`). Scaling does not take the manager's lock, so its Docker
  calls interleave with those of a rollout, and those for other services with both. Whatever the
  order, labels and names keep corresponding and the quota reservation holds. `Race` interleaves one
  redeployment and one scaling step by step, reads and writes of the store included, and tells exactly
  which runs end with the replicas that were asked for.
- **Autoscaling** (`Controller`, `Scaler`). Over real arithmetic the controller never oscillates and
  settles, and the running containers follow it: the loop over intervals is proved to take exactly
  the controller's steps at the average of the sampled CPU values, and to log every turn.
- **CPU and memory quotas** (`Quota`, `ServiceApi`, `Reservation`, `WholeUnits`). The check of a request
  bounds what the owner can use afterwards, with the exact condition under which its rounding is
  harmless. Reserving the maximum covers everything the autoscaler may do to a member's service, while
  it works on all the others as well.
- **Storage quotas** (`VolumeSpecs`, `VolumeLedger`). Requests check and then write, so they interleave:
  with k requests under way the ledger can reach k quotas and no more.
- **Volume owners** (`VolumeOwners`). When the ledger's owner column agrees with Docker's labels.
- **Volume helpers** (`VolumeHelpers`). The cache of helper containers is right however stale it is.
- **Host ports** (`HostPorts`) and **the advanced-options form** (`AdvancedForm`).
- `Text`, `Specs`, `Collections` and `Store` hold numbers and orders, the rows, sums and the tables.

What the operations compute is also stated without the functions that compute it: field by field for the
rows, specs and routes that they write, and character by character for names, labels and numbers.

The main results come first in the table below.

Classes stand for the program's own objects, and their methods for its functions; a loop of the
program is a loop here, proved against a function or predicate. Where a call can fail for reasons
outside the program (the database, Docker, Envoy's cache), the model fails nondeterministically and
counts it in a ghost field, so that contracts also say what succeeds when nothing fails.

## Where the code differs from its own words

The model follows the code in each case; a lemma gives a failing input and another the exact condition.

- A service's auto host is described as always present (`server/internal/proxy/registry.go:80-82`).
  Creating and editing a service do not check the custom subdomain, so another service can take it:
  `ServiceApi.SubdomainTakesAutoHost`. `Routing.AutoHostOwned` gives the exact condition.
- A manual route is said to lose to a service with the same custom subdomain
  (`server/internal/proxy/registry.go:128-131`). If its subdomain has a dot, it also loses to the service
  whose `<name>.<server>` is spelled like it: `Addresses.RouteDiverted`. `Addresses.RouteLeads` gives the
  exact condition.
- The owner column of the volume ledger is said to mirror the volume's owner label
  (`server/internal/store/store.go:204-206`). An administrator's resize resets it; creating a volume
  under a name that exists takes the row while Docker keeps the label; and a row that a failed
  deletion left behind meets a volume that a container's mount creates without label:
  `VolumeOwners.AdminResizeForgetsOwner`, `CreatingOverAnothersTakesTheRow` and
  `MountingOverALeftoverRow`. It does mirror the label exactly while the last action that settled the
  volume was fair: `VolumeOwners.MirrorsIffLastFair`, with all the unfair actions in `UnfairExactly`.
- A member's footprint is said to be bounded per host
  (`server/internal/api/handlers_services.go:367-370`). The division to quota units truncates, so a
  passed check can leave up to one unit too much: `Quota.OvershootHappens`. It leaves none exactly if
  the usage is a whole number of units or a unit is to spare: `Quota.WithinIffChecked`. No operation of
  the program makes limits that are not whole, so on hosts that it alone has populated the check is
  exact: `WholeUnits.ExactWhenPopulated`.
- The check is made on the host that the request names, or on the local one, not where the containers
  are: `ServiceApi.EditElsewhereOvershoots` for services, `ServiceApi.ContainerEditOvershoots` for
  containers. An edit keeps the owner within quota exactly if the check passes on the host of what is
  edited: `ServiceApi.EditWithinIff` and `ServiceApi.EditWithinQuotaIff`.
- The check counts the containers that exist, so what is reserved for one autoscaled service is not
  kept free for it: `Reservation.TwoReservationsOvershoot`. `Reservation.AutoscalingStaysWithin` holds
  for a member's only autoscaled service on a host.
- A scaling that succeeds is said to bring the replicas to the stored count
  (`server/internal/service/service.go:159`, `248-249`). Overlapping a redeployment it may not, and
  whether it can depends on the counts alone: `Race.ScalingDownCanEndWrong`,
  `Race.ScalingUpEndsRight`, and `Race.EndsRightIff` for each single run.
- `advToForm` is called the inverse of `buildAdvanced` (`web/src/ServiceAdvanced.tsx:136-137`). Log
  options, a start period, exec-style health checks and an empty restart policy do not come back:
  `AdvancedForm.LogOptionsLost`, `StartPeriodLost`, `ExecCheckBecomesShell` and
  `RestartPolicyFilled`. It is the inverse exactly on the options of `AdvancedForm.FormShaped`:
  `AdvancedForm.EditRoundTrip`.

## Model

| member | source | states |
|---|---|---|
| `PublishProtocol.QuiescentAgrees` | server/internal/proxy/registry.go:69-216 | without failures every quiescent state agrees with its store |
| `PublishProtocol.NoLostUpdate` | server/internal/proxy/registry.go:69-216 | at every point of every interleaving all nodes agree with the store, or an operation is about to publish, or a failed one left a write behind |
| `PublishProtocol.CompletedPublishHeals` | server/internal/proxy/registry.go:132-216 | a publish that completes, while no operation owing one has failed since it read the services, pays every debt that failures left |
| `Xds.CompilePreservesMeaning` | server/internal/xds/xds.go:165-228 | compilation preserves meaning: for upstreams with unique keys and any host name, the emitted virtual hosts and then the cluster table give the backends of the first upstream that claims the name, and an unclaimed name falls to the catch-all |
| `Routing.AutoHostOwned` | server/internal/proxy/registry.go:151-172 | on its own node a live service's auto host, with and without explicit port, is served by exactly its replicas 0..N-1 at its port, whatever routes and other services exist, if and only if no earlier live service there has the custom subdomain `<name>.<label>` |
| `Addresses.HostAnswer` | server/internal/proxy/registry.go:132-216 | who answers at any host under the base domain on any node, from the stored rows alone: the first service by name that is live there and whose `<name>.<server>` or custom subdomain it is, with containers `<name>-0` to `<name>-(N-1)` at its port; else the route of that environment, unless a live service anywhere has its subdomain; else 404 |
| `Addresses.RouteLeads` | server/internal/proxy/registry.go:180-191 | on its own node an unclaimed route leads to its target host and port, with and without explicit port, if and only if no live service there whose `<name>.<server>` is its subdomain leads elsewhere |
| `Routing.NodeConfigAccepted` | server/internal/proxy/registry.go:132-216 | on every node cluster names, virtual host names and emitted domains are pairwise distinct, whatever is in the store |
| `Routing.RoutePublishedUnlessClaimed` | server/internal/proxy/registry.go:176-192 | an upstream under a manual route's key is published if and only if the route is stored and no service with port and replicas claims its subdomain, on any environment; what that upstream leads to is `Addresses.RouteLeads` |
| `Registry.Registry.Publish` | server/internal/proxy/registry.go:132-216 | a successful publish leaves every node serving the compiled tables, which answer as `Addresses.HostAnswer` spells out; a failed one leaves each snapshot old or compiled; it fails only if one statement failed or one push was refused |
| `Services.Converge` | server/internal/service/service.go:250-287 | on a reachable host, from any starting set whose labels and names correspond, reconcile ends with exactly replicas 0..N-1 running, spares every other container, loses no wanted replica if it fails halfway, and deploys and removes nothing on a complete set; every container that it deployed, however it ended, carries the row field by field, under its own name, labels and shifted host ports |
| `Passes.Roll` | server/internal/service/service.go:197-207 | at every intermediate state lower indices carry the new spec, higher ones are as before, and only the current index may be absent; success replaces all, failure stops at an index below the count; every container that is new carries the row field by field |
| `Services.Manager.RedeployAndRestart` | server/internal/service/service.go:178-246 | a redeployment that broke off at some index of a complete set, followed by a sync without failed calls: every replica runs; those below the index are the new containers and run the image that was asked for - the stored one if none was -, those above it are the old ones, and a missing one at the index is new |
| `Services.Manager.Update` | server/internal/service/service.go:102-144 | name, owner, token, host and last image stay and every other column is the request's own; replicas are rolled over one at a time; success ends with exactly 0..N-1 new replicas that carry the new row field by field, even if the count changes, published and in step with routing; it fails only for an unknown service or host or a failed call; whenever it reports success every desired replica is new |
| `Services.Manager.SyncAll` | server/internal/service/service.go:235-246 | success without failures restores every stored service, leaves containers of no service alone, and containers and routing agree for each; with known hosts and labels in place it fails only if a call failed |
| `Race.EndsRightIff` | server/internal/service/service.go:160-209 | a scaling that overlaps a redeployment, both succeeding without a failed call: whatever the interleaving of their steps, the service ends with exactly the replicas that the scaling stored if and only if the redeployment worked with no larger count, or had finished when the scaling listed the containers |
| `Race.ScalingUpEndsRight` | server/internal/service/service.go:160-209 | if a scaling asks for no fewer replicas than there were, every interleaving with a redeployment in which both succeed without a failed call ends with exactly these |
| `Race.ScalingDownCanEndWrong` | server/internal/service/service.go:160-209 | for every service and every smaller count, from any complete set, some interleaving of the two ends with replicas beyond the stored count although both succeed |
| `Overlap.OverlapStaysClean` | server/internal/service/service.go:160-209 | however the Docker calls of overlapping operations interleave, on this service and on others, labels and names correspond in every state |
| `Overlap.ReconcileAfterwards` | server/internal/service/service.go:250-287 | a reconciliation that runs alone after any interleaving, and in which no call fails, ends with exactly the desired replicas |
| `Overlap.OverlapStaysWithin` | server/internal/service/service.go:160-209 | in every state of every interleaving of Docker calls a service that passed the check for m replicas keeps its owner within quota, as long as no operation on it works with a larger count and the others add nothing of the owner's there |
| `Scaler.RunAutoscaler` | server/internal/service/scaler.go:14-26 | the loop over intervals: each does what one interval does, turn by turn and failing or not, and as long as nothing fails each leaves what the next needs |
| `Scaler.LoopSettles` | server/internal/service/scaler.go:51-72 | the running replicas come to rest within max - min intervals, one more from outside the limits, where the load per replica is in [T/2, T] or a limit keeps it out, and stay there |
| `Scaler.LoopNeverReverses` | server/internal/service/scaler.go:51-72 | once replicas were added none is ever taken away, and the reverse |
| `Reservation.AutoscalingStaysWithin` | server/internal/api/handlers_services.go:147-153 | once the creation of a member's only autoscaled service on a host passed the check, the member is within quota there after every turn of every interval of the autoscaler, whatever the samples, whichever calls fail, and whatever it does to services of others or on other hosts |
| `Reservation.TwoReservationsOvershoot` | server/internal/api/handlers_services.go:365-369 | any two services of a member on one host with a quota for two replicas: one reserves two and runs one, the other passes the check as well, and the autoscaler then takes the member over quota |
| `Quota.WithinIffChecked` | server/internal/api/handlers_services.go:405-416 | a service with m replicas at its limits leaves its owner within quota on its host if and only if the check, made on that host, passes for m replicas and its rounding is harmless |
| `WholeUnits.ExactWhenPopulated` | server/internal/api/handlers_services.go:405-416 | on hosts whose containers all come from the program's own operations the check is exact: the owner is within quota if and only if it passed |
| `Quota.ReservationSuffices` | server/internal/api/handlers_services.go:147-153 | a service that passed the check for m replicas keeps its owner within quota over any run of reconciliations, rollouts and failures with at most m replicas |
| `ServiceApi.EditWithinIff` | server/internal/api/handlers_services.go:231-238 | an edit leaves the owner within quota on the service's own host if and only if the check passes there and its rounding is harmless, whatever host the request named |
| `ServiceApi.EditWithinQuotaIff` | server/internal/api/handlers_manage.go:61-86 | on any host, replacing a member's container leaves the member within a quota there if and only if the limits pass the check made on that host and its rounding is harmless |
| `ServiceApi.MemberPermitted` | server/internal/api/handlers_services.go:371-417 | permission, spelled out from the user's and the grant's own fields: milli-CPU against the CPU quota and megabytes against the memory quota of the right host |
| `VolumeLedger.LedgerBounded` | server/internal/api/handlers_manage.go:244-378 | with at most k of a member's requests between check and write, the ledger total never exceeds k quotas, over any interleaving with resizes, deletes and writes of others; k = 1 never exceeds the quota |
| `VolumeLedger.BoundIsReached` | server/internal/api/handlers_manage.go:262-277 | for every k and quota some interleaving reaches exactly k quotas |
| `VolumeOwners.MirrorsIffLastFair` | server/internal/api/handlers_manage.go:244-378 | in every state of every run, with statements that fail or come late and volumes that appear and vanish outside the handlers, a volume's row names the owner of its label if and only if the last action that settled the volume was fair |
| `VolumeHelpers.Client.VolumeHelper` | server/internal/docker/volumes.go:76-126 | whatever is cached, the returned id is a running container that mounts exactly the sanitized volume - the volume asked for if and only if its characters are legal; it fails only with Docker or for an illegal name, and touches no other container; a cached helper that runs is reused and nothing is changed; for the empty name Docker makes a nameless volume |
| `HostPorts.CollisionFreeIffSpaced` | server/internal/service/service.go:298-305 | replicas 0..n-1 bind pairwise different ports if and only if the distinct fixed base ports are pairwise at least n apart |
| `AdvancedForm.EditRoundTrip` | web/src/ServiceAdvanced.tsx:88-174 | stored options survive opening and submitting the form unchanged if and only if the form can express them |
| `AdvancedForm.FormRoundTrip` | web/src/ServiceAdvanced.tsx:88-174 | printer and parser undo each other for every form, in any record order, if and only if the form has a restart policy |
| `Xds.SharedKeyChangesMeaning` | server/internal/xds/xds.go:141-148 | a concrete pair of upstreams with one key, whose first host is served by the second's backends |
| `Xds.MeaningKeptIff` | server/internal/xds/xds.go:121-228 | with shared keys, exactly: a host is served by the backends of the last upstream under the name of its first claimant, and keeps its meaning if and only if the two have the same backends |
| `Xds.DomainsClaimedOnce` | server/internal/xds/xds.go:188-228 | the emitted domains are exactly the claimed ones and `*`, and no domain is emitted twice if and only if no upstream claims `*` itself |
| `Xds.NamesDistinct` | server/internal/xds/xds.go:204-219 | virtual host names, `vh_default` included, and cluster names are pairwise distinct when keys are unique and none is `default` |
| `Xds.LastClusterWins` | server/internal/xds/xds.go:121-124 | of the clusters with one name the last upstream's is served, wherever it stands |
| `Xds.ClusterNameInjective` | server/internal/xds/xds.go:141-148 | two upstreams share a cluster name, or a virtual host name, exactly when they share a key |
| `Xds.NodeForEndpointInjective` | server/internal/xds/xds.go:83-88 | environments never share a node if and only if the configured local node id is no `easydeploy-edge-<int>` |
| `Xds.MakeMatchDomains` | server/internal/xds/xds.go:153-163 | the loop yields every source domain followed by its explicit-port form, with the subdomain under the base domain as fallback |
| `Xds.MatchMeans` | server/internal/xds/xds.go:153-163 | a host is matched exactly if it is one of the domains - or, without any, the subdomain under the base domain - with or without an explicit port |
| `Xds.MakeCluster` | server/internal/xds/xds.go:165-186 | the loop yields one endpoint per host, in order, all at the upstream's port |
| `Xds.Claim` | server/internal/xds/xds.go:195-200 | the inner loop yields the domains that were free, each once and in order, and claims exactly these |
| `Xds.MakeRouteConfig` | server/internal/xds/xds.go:188-228 | the loop yields the compiled virtual hosts of all upstreams in order, then the catch-all |
| `Xds.Manager.Update` | server/internal/xds/xds.go:120-139 | the node's snapshot is the compiled one under a version above every cached version, other nodes keep theirs, and a refusal changes no snapshot but takes the version |
| `Registry.Upstreams` | server/internal/service/service.go:47-74 | the loop yields exactly the services with port and replicas, in store order, with replica names 0..N-1 as hosts |
| `Registry.ServerSlugs` | server/internal/proxy/registry.go:137-141 | every environment, and 0, gets a non-empty label: its slug, and `local` for 0 |
| `Registry.ResolveService` | server/internal/proxy/registry.go:151-172 | a service contribution becomes the upstream of its auto host and optional custom host, under a key from label and name |
| `Registry.CollectServices` | server/internal/proxy/registry.go:146-174 | the service loop yields the resolved services that have hosts, and the custom subdomains they claim |
| `Registry.CollectUpstreams` | server/internal/proxy/registry.go:141-192 | the loops compile services before routes and skip the routes that a service claims; what the compiled upstreams lead to is `Addresses.HostAnswer` |
| `Registry.GroupByEnv` | server/internal/proxy/registry.go:194-198 | the grouping loop gives each environment exactly its own upstreams in their original order |
| `Registry.Registry.Push` | server/internal/proxy/registry.go:210-214 | in whatever order the nodes are pushed, every node pushed serves what is wanted of it; after a refusal each snapshot is the old one or a newer correct one |
| `Registry.Registry.Plan` | server/internal/proxy/registry.go:132-208 | what is about to be pushed is, for every node wanted and no other, what its configuration must be |
| `Registry.Registry.Sync` | server/internal/proxy/registry.go:69-73 | success leaves every node serving the compiled tables; a failure leaves each snapshot old or compiled |
| `Registry.Registry.Upsert` | server/internal/proxy/registry.go:99-116 | a route without subdomain or with a non-positive port is refused without effect; success stores the route and publishes it |
| `Registry.Registry.Delete` | server/internal/proxy/registry.go:119-126 | success removes the route and publishes the rest |
| `Registry.Registry.ServiceDomains` | server/internal/proxy/registry.go:83-95 | the addresses shown are the host list that publish routes, also for a service whose environment is gone; if reading the environment fails they carry the label `local` |
| `Routing.PartitionIsExact` | server/internal/proxy/registry.go:194-198 | an environment's upstreams are the subsequence of the full list at exactly the places that carry its id |
| `Routing.NodeKeysUnique` | server/internal/proxy/registry.go:161-191 | on every node the compiled upstreams have unique keys, none of them empty or `default`, and explicit domains |
| `Routing.AutoHostAnswer` | server/internal/proxy/registry.go:151-172 | a live service's auto host is served by the replicas of the first live service there that is it, or carries the custom subdomain `<name>.<label>` |
| `Routing.LabelsNeverShadow` | server/internal/api/handlers_services.go:84-103 | that exception cannot occur when every custom subdomain is a single label, as the subdomain handler demands |
| `Addresses.PlainRouteLeads` | server/internal/proxy/registry.go:180-191 | an unclaimed route whose subdomain has no dot always leads to its target on its own node |
| `Addresses.RouteDiverted` | server/internal/proxy/registry.go:128-131 | the local service "b" takes the route "b.local", although no service has that custom subdomain |
| `Addresses.OtherHostsRefused` | server/internal/xds/xds.go:188-228 | a host that is not under the base domain is answered with 404 on every node |
| `Addresses.PublishedRoute` | server/internal/proxy/registry.go:132-216 | after a publish that went through, the snapshot cached under the route's own node id leads it to its target exactly under that condition |
| `ServiceApi.Server.HandleUpsertRoute` | server/internal/api/handlers.go:390-403 | stores the route for the selected environment; once it succeeded, that Envoy leads the route's host to its target, exactly unless a service diverts it |
| `ServiceApi.Server.HandleDeleteRoute` | server/internal/api/handlers.go:405-411 | removes the route; once it succeeded, its host leads to a service or nowhere on every Envoy |
| `ServiceApi.SubdomainTakesAutoHost` | server/internal/api/handlers_services.go:160-186 | rows that creating accepts: service `a` with custom subdomain `b.local` takes the auto host of service `b` |
| `PublishProtocol.InvKept` | server/internal/proxy/registry.go:69-216 | every step of every operation keeps the protocol invariant, with service writes outside the lock, publish split into its reads and pushes, and failures anywhere |
| `PublishProtocol.HealsIff` | server/internal/proxy/registry.go:132-216 | the history flag of the model tells exactly whether the services were read since the last failure of an operation that owed a publish |
| `Slug.MakeSlug` | server/internal/proxy/registry.go:220-238 | the builder loop computes the words of the lowercased name joined by single hyphens, or `host` |
| `Slug.SlugIsLabel` | server/internal/proxy/registry.go:220-238 | every slug is a label that the subdomain pattern accepts and has no double hyphen |
| `Slug.SlugFixedPoints` | server/internal/proxy/registry.go:220-238 | the names that are their own slug are exactly the labels without a double hyphen |
| `Slug.SlugIdempotent` | server/internal/proxy/registry.go:220-238 | slugging twice is slugging once |
| `Slug.SlugIgnoresCase` | server/internal/proxy/registry.go:221 | replacing any of the 26 capital letters by its small one does not change the slug |
| `Slug.SlugIgnoresWhichGap` | server/internal/proxy/registry.go:224-233 | which characters other than letters and digits stand between the words does not change the slug |
| `Slug.SlugMergesGaps` | server/internal/proxy/registry.go:228-231 | a second such character in a row does not change it |
| `Slug.SlugTrimsGaps` | server/internal/proxy/registry.go:228-233 | nor does one at either end |
| `Slug.LabelMeans` | server/internal/api/handlers_services.go:86-110 | labels, with their characters listed: small letters, digits and hyphens, no hyphen at the ends, not empty |
| `Slug.TrimSpaceMeans` | server/internal/proxy/registry.go:221 | trimming drops exactly the white space at the ends |
| `Specs.ReplicaNameInjective` | server/internal/service/service.go:326-328 | replicas of different services, or of one service at different indices, never share a name |
| `Text.ItoaRoundTrip` | server/internal/service/service.go:341-343 | a printed number is read back, up to the 64-bit range |
| `Text.ItoaSpelled` | server/internal/service/service.go:326-328 | numerals are spelled digit by digit, from the digits 0 to 9, after a minus sign if negative |
| `Text.AtoiSpellings` | server/internal/service/service.go:340-343 | a number is read back with a plus sign, a minus sign or a leading zero as well |
| `Text.AtoiReads` | server/internal/service/service.go:340-343 | only an optional sign and decimal digits are read as a number, and up to eighteen digits always are |
| `Text.LeMeans` | server/internal/store/services.go:93-115 | the order of listings: a prefix first, else by the first character in which two names differ |
| `HostPorts.OffsetHostPorts` | server/internal/service/service.go:334-347 | the loop shifts every numeric port by delta with 64-bit wrap-around and copies the others |
| `HostPorts.OffsetNumber` | server/internal/service/service.go:339-345 | after shifting, a port names the shifted number; ephemeral and non-numeric ports and all other fields are untouched |
| `HostPorts.FieldShifted` | server/internal/service/service.go:339-345 | a field that spells n, with white space around it or not, is bound to n + i by replica i |
| `HostPorts.EmptyFieldStays` | server/internal/service/service.go:339-345 | a blank field stays as it is |
| `HostPorts.OffsetComposes` | server/internal/service/service.go:334-347 | offsetting by a and then b is offsetting by a+b for a, b >= 0, even across a wrap-around |
| `HostPorts.OffsetBackRewrites` | server/internal/service/service.go:341-343 | the law needs a, b >= 0: shifting `080` forth and back yields `80` |
| `Store.Scan` | server/internal/store/services.go:93-115 | a query yields every row once in the order of its unique key |
| `Docker.Hosts.Deploy` | server/internal/docker/client.go:204-261 | creates and starts a container under a free name; it can fail before the container exists or after it was created but not started |
| `Docker.LabelsMean` | server/internal/docker/client.go:212-221 | which label a new container has under any key: the options' own, else the service manager's, else owner, subdomain and the mark of a managed container, each from its own field |
| `Docker.Hosts.RemoveById` | server/internal/docker/client.go:110-112 | removes the container with this id or changes nothing |
| `Docker.Hosts.ListByLabel` | server/internal/docker/manage.go:16-19 | lists each container that carries the label exactly once, stopped ones only on demand |
| `Docker.Hosts.EditContainer` | server/internal/docker/manage.go:93-108 | a successful edit puts the new container in the place of the old one and touches no other; it fails only for an unknown id, a taken name or a failed call |
| `Replicas.MakeReplicaSpec` | server/internal/service/service.go:289-324 | the spec of replica i carries image, environment, subdomain, port, network and owner of the row, its limits in nano-CPU and bytes, the service and index labels, and its options with every fixed host port moved up by i |
| `Passes.Survey` | server/internal/service/service.go:255-267 | the first pass changes nothing but starting the service's own stopped containers, and finds exactly the indices that exist with their ids |
| `Passes.Grow` | server/internal/service/service.go:268-281 | the second pass deploys exactly the missing indices below the count, in order, loses nothing, and leaves the superfluous indices over |
| `Replicas.NothingLostRunsRow` | server/internal/service/service.go:289-324 | whatever a reconciliation deployed, however it ended, carries the row field by field |
| `Replicas.RolledOverRunsRow` | server/internal/service/service.go:289-324 | after a finished rollout every container of the service runs and carries the row field by field |
| `Passes.Trim` | server/internal/service/service.go:282-285 | the third pass removes exactly the containers left over, in any order; if a call fails nothing else is missing |
| `Services.Manager.DockerFor` | server/internal/endpoint/endpoint.go:38-69 | succeeds exactly if the host is local, has a client or is known, and no call fails; then it has a client |
| `Services.Manager.Reconcile` | server/internal/service/service.go:250-287 | Converge on the host the service is assigned to; an unreachable host changes nothing |
| `Replicas.ReconcileSparesOthers` | server/internal/service/service.go:250-287 | reconciling one service leaves every container of another service as it was |
| `Passes.OneAbsentAtATime` | server/internal/service/service.go:178-209 | while a complete set is rolled over, no two replicas are ever absent at once |
| `Passes.RemoveSuperfluous` | server/internal/service/service.go:134-142 | removes exactly the service's replicas whose index is beyond the count, or leaves some if a call fails |
| `Passes.RemoveAll` | server/internal/service/service.go:221-227 | removes exactly the service's containers |
| `Services.RollAndTrim` | server/internal/service/service.go:122-142 | every intermediate state is a stage of the rollout or of the trimming, and without failures the set is exactly the new one |
| `Services.RollOut` | server/internal/service/service.go:197-207 | rolling over a complete set leaves a complete set of new replicas |
| `Services.Preserve` | server/internal/service/service.go:102-125 | the edited row keeps name, owner, token and host and takes every other column from the request |
| `Services.Manager.Create` | server/internal/service/service.go:77-86 | a taken name changes nothing; success stores the row, reconciles, publishes, and containers and routing agree - without a condition if the name had no container before; a failure after the insert keeps the row; it fails only for a taken name, an unknown host or a failed call |
| `Services.Manager.SetSubdomain` | server/internal/service/service.go:148-157 | only the subdomain changes, and success republishes; it fails only for an unknown service or a failed call |
| `Services.Manager.Scale` | server/internal/service/service.go:160-176 | a negative count means 0; success stores the count, reconciles, publishes, and containers and routing agree, both absent at 0; it fails only for an unknown service or host, misplaced labels or a failed call |
| `Services.Manager.Redeploy` | server/internal/service/service.go:180-209 | success leaves the new image, or the old one if none was given, as image and last image of the row and changes no other field or row; from a clean complete set every container of the service then runs that image; the replicas are rolled over one at a time, published, and containers and routing agree; a failed redeployment stopped at some index |
| `Services.Manager.Delete` | server/internal/service/service.go:212-232 | success removes the service's containers, its row and its cluster, and nothing of anyone else; a failure removes nothing of anyone else; it fails only for an unknown service or host or a failed call |
| `Services.CompleteInStep` | server/internal/service/service.go:47-74 | a complete replica set and the cluster compiled from its row name the same containers at the same port |
| `Overlap.Perform` | server/internal/docker/client.go:95-261 | what one Docker call of an operation does: deploying or removing a replica by name, removing or starting a container by an id |
| `Overlap.PerformedIsCall` | server/internal/service/service.go:250-287 | whatever call an operation on a service makes, with indices and ids from listings however old, it changes nothing but one container of that service |
| `Overlap.OthersKeepIds` | server/internal/service/service.go:255-262 | ids from an old listing still tell the service's own containers or none, whatever is done to other services |
| `Overlap.NeighboursAreAside` | server/internal/service/service.go:160-209 | calls for another service leave this one's containers, names and quota alone, if what they deploy is on another host or another owner's |
| `Race.RunKeepsWorld` | server/internal/service/service.go:160-209 | in every state of every interleaving of the two, whichever calls fail, labels and names correspond and the ids that the scaling holds are the service's own |
| `Controller.Desired` | server/internal/service/scaler.go:55-84 | from outside the limits the count goes to the nearer limit; within them it is one more exactly above the target with room upwards, one less exactly below half the target with room downwards, and else the same; limits in the wrong order are covered too |
| `Controller.StaysIffAtRest` | server/internal/service/scaler.go:54-62 | within the limits the count stays exactly when the load per replica is in [T/2, T], or above T at the maximum, or below T/2 at the minimum |
| `Controller.NeverReverses` | server/internal/service/scaler.go:54-62 | under a constant total load no step up is ever followed by a step down, nor the reverse |
| `Controller.Settles` | server/internal/service/scaler.go:54-62 | from any count within the limits the autoscaler rests after max - min ticks |
| `Controller.SettlesFromAnywhere` | server/internal/service/scaler.go:54-62 | from any positive count it rests after max - min ticks, one more from outside the limits, and stays there |
| `Scaler.Average` | server/internal/service/scaler.go:43-51 | the loop computes the total of exactly the running replicas' samples over their number, a container without sample counting as idle |
| `Scaler.LoadAdds` | server/internal/service/scaler.go:47-53 | the load is the sum of the samples: one more running replica adds its own, or nothing if it yields none |
| `Scaler.ScaleService` | server/internal/service/scaler.go:35-73 | one turn, with the average of the running replicas: without failures as many replicas run afterwards as `Scaler.TakenInLimits` tells; whatever fails, the row and the containers go towards that count or nothing happens |
| `Scaler.Turns` | server/internal/service/scaler.go:34-73 | the services have their turns in their order, and every turn, failing or not, changes one row and reconciles one service towards the count that the samples ask for, or changes nothing |
| `Scaler.Rescale` | server/internal/service/scaler.go:66-72 | the scaling that the decision asks for |
| `Scaler.ScaleOnce` | server/internal/service/scaler.go:30-74 | an interval, failing or not, consists of the turns of the services in their order, each of which changes one service towards a count within its limits; if nothing fails, every autoscaled service that was running has as many replicas as the controller wants at the average of the samples |
| `Scaler.IntervalsLoop` | server/internal/service/scaler.go:14-74 | quiet intervals of the loop in which a service's replicas always use the same load together are a closed loop of its containers |
| `Scaler.LoopFollows` | server/internal/service/scaler.go:51-72 | in a closed loop the number of running replicas follows the controller exactly |
| `Scaler.TakenInLimits` | server/internal/service/scaler.go:53-84 | after a turn without failures the number of running replicas is the nearer limit if it was outside the limits; else one more if their load exceeds the target for all of them and the maximum allows it, one less if it is below half of that and the minimum allows it, and else the same |
| `Quota.OwnerUsageExcludingService` | server/internal/docker/manage.go:32-52 | the loop sums the limits of exactly the owner's containers that are not replicas of the excluded service, and every failed call hides at most one container |
| `Quota.CheckedTotal` | server/internal/api/handlers_services.go:405-416 | with at most m replicas of the service there, whatever became of the old ones and whatever their limits, a passed check keeps the total less than one quota unit over, and within quota if all limits are whole units |
| `Quota.FitsIffSnug` | server/internal/api/handlers_services.go:409-411 | in the limits' own units, needs fit beside a usage if and only if the check passes and either the usage is a whole number of quota units or a whole unit is left over |
| `Quota.RolledOverAtLimits` | server/internal/service/service.go:122-142 | a finished update leaves exactly its replicas, the owner's and at the new limits |
| `Quota.CreatedAtLimits` | server/internal/service/service.go:77-86 | creating a service that had no container ends with exactly its replicas, the owner's and at its limits |
| `Quota.OvershootHappens` | server/internal/api/handlers_services.go:409-411 | a concrete host and service for which the check passes and the owner ends half a milli-CPU over quota, beside a container that no operation of the program makes |
| `WholeUnits.PopulatedIsWhole` | server/internal/service/service.go:315-316 | any run of operations on services and of container edits, failing anywhere, leaves only limits that are whole numbers of quota units |
| `ServiceApi.Normalised` | server/internal/api/handlers_services.go:131-146 | a request is completed to the least one with 1 <= min, replicas <= max and no empty default; a complete one stays as it is |
| `ServiceApi.Normalise` | server/internal/api/handlers_services.go:131-152 | the field-by-field updates yield the completed request, and room is asked for max replicas if autoscaled, else for the count |
| `ServiceApi.RowOf` | server/internal/api/handlers_services.go:160-188 | each column of the stored row is the request's own field, the network defaults to the edge network, owner, token and host are the caller's |
| `ServiceApi.Server.EnforceServiceQuota` | server/internal/api/handlers_services.go:371-417 | without a failed call a member is allowed if and only if both limits are positive and each resource fits into its own positive quota - the member's on the local host, the grant's on another, and only if there is a grant - beside the whole units in use; administrators always are; failed calls hide at most one container each; every refusal states its true reason |
| `ServiceApi.Server.RoomOnHost` | server/internal/api/handlers_services.go:391-416 | the comparison of needs and quotas decides exactly whether there is room, to the quota's units |
| `ServiceApi.Server.OwnedService` | server/internal/api/handlers_services.go:354-363 | the service is returned exactly if it exists and the token names its owner or an administrator, unless the database fails |
| `ServiceApi.Server.HandleCreateService` | server/internal/api/handlers_services.go:121-194 | a creation stores exactly the completed request under a new name; without failures it succeeds if the name is free, the host known and the caller permitted; nothing happens without permission; a member's creation that passed the check leaves the owner within quota, even if creating broke off, and its reservation holds |
| `Reservation.CreationAdmits` | server/internal/api/handlers_services.go:147-186 | what the creation handler guarantees is what that result starts from, even if the creation broke off after storing the row |
| `ServiceApi.Server.HandleUpdateService` | server/internal/api/handlers_services.go:196-266 | nothing happens unless the owner or an administrator edits with permission, and then without failures it succeeds; what is stored is the completed request with the identity kept, what runs is exactly the new replicas, and the owner stays within quota if the request named the service's host |
| `ServiceApi.Server.ApplyEdit` | server/internal/api/handlers_services.go:232-262 | a permitted edit stores the request under the old identity and, if no Docker call fails, ends with exactly the new replicas, whatever host the request named |
| `ServiceApi.EditElsewhereOvershoots` | server/internal/api/handlers_services.go:231-238 | a concrete edit that names another environment, passes the check there and leaves the service's own host over quota |
| `ServiceApi.Server.HandleSetServiceSubdomain` | server/internal/api/handlers_services.go:86-110 | only the owner or an administrator, and only a single label or nothing, is accepted, so labels stay labels; without failures nothing else is refused |
| `ServiceApi.Server.ResolveResources` | server/internal/api/handlers_users.go:489-535 | a member is allowed exactly if one container with the limits fits beside the others, the replaced one taken off; limits are converted to nano-CPU and bytes; every failed call hides at most one container |
| `ServiceApi.BesideFits` | server/internal/api/handlers_users.go:525-528 | that check, spelled out from the member's own fields: milli-CPU against the CPU quota and megabytes against the memory quota |
| `ServiceApi.BesideSpelled` | server/internal/api/handlers_users.go:507-524 | the usage it is made beside is the owner's without the limits of the container with that id, and never below zero |
| `ServiceApi.Server.HandleEditContainer` | server/internal/api/handlers_manage.go:41-104 | on any host an edit puts a running container with the converted limits and no old labels in the old one's place and touches no other; without failures a permitted edit succeeds whenever the container exists and the name is free, and the routes of a local one follow its subdomain; exactly when the member is within the quota granted on the edited host, and always on the local one |
| `ServiceApi.Server.CheckAndEdit` | server/internal/api/handlers_manage.go:61-86 | the local check and the replacement: a permitted edit of an existing container succeeds without failures; a new container has the converted limits even if the edit breaks off |
| `ServiceApi.EditedSpec` | server/internal/api/handlers_manage.go:61-86 | the new container is the requested one, under the old name unless another was given, owned by the caller, with the limits in nano-CPU and bytes and without the old labels and options |
| `ServiceApi.Server.UpkeepRoutes` | server/internal/api/handlers_manage.go:88-102 | the old subdomain's route goes and the new one's is set, no other route changes, and without failures every node then agrees |
| `ServiceApi.ContainerEditOvershoots` | server/internal/api/handlers_manage.go:61-63 | an edit of a container on environment 1 that passes the check on the local host and leaves the member over the quota granted on environment 1 |
| `VolumeSpecs.Ledger.SetVolumeSize` | server/internal/store/volume_specs.go:16-22 | the volume's row is the given one and no other row changes |
| `VolumeSpecs.Ledger.DeleteVolumeSize` | server/internal/store/volume_specs.go:25-28 | removes the row and no other |
| `VolumeSpecs.Ledger.ListVolumeSizes` | server/internal/store/volume_specs.go:31-47 | the loop yields the size of every volume of the environment and of no other |
| `VolumeSpecs.Ledger.OwnerDiskUsageMB` | server/internal/store/volume_specs.go:52-59 | the sum of the owner's budgets on the environment without the excluded volume |
| `VolumeLedger.VolumeServer.EnforceVolumeQuota` | server/internal/api/handlers_manage.go:313-349 | a member is allowed exactly if quota and size are positive and the sum fits, unless the database fails; every refusal states its true reason; administrators bypass, with or without a user row |
| `VolumeLedger.VolumeServer.RequireVolumeOwner` | server/internal/api/handlers_users.go:62-85 | a member gets at exactly the volumes that carry the member's label |
| `VolumeLedger.VolumeServer.HandleCreateVolume` | server/internal/api/handlers_manage.go:244-282 | alone, a member's creation books the size to the member and labels a new volume with the member's name, an administrator's books it to nobody and labels it as asked; it leaves the member within quota and succeeds without failures whenever the quota allows it; an administrator needs no user row |
| `VolumeLedger.VolumeServer.HandleResizeVolume` | server/internal/api/handlers_manage.go:287-308 | alone, a resize is let through exactly for an administrator or the member named by the label, changes only the volume's row and leaves the member within quota |
| `VolumeLedger.VolumeServer.HandleRemoveVolume` | server/internal/api/handlers_manage.go:364-378 | removes exactly a volume that the caller may touch, and its row unless the statement fails |
| `VolumeLedger.InvKept` | server/internal/api/handlers_manage.go:244-378 | every step of every interleaving keeps a per-volume bound that covers current and pending sizes and sums to at most k quotas |
| `VolumeOwners.MirrorsIffFair` | server/internal/api/handlers_manage.go:254-308 | after a write the row names the owner of the label if and only if the caller's scope is the label that the volume has, or gets |
| `VolumeOwners.UnfairExactly` | server/internal/api/handlers_manage.go:244-308 | the actions that can happen and break the agreement, all of them: an administrator over a labelled volume or labelling a new one, anybody creating over another's volume, a late statement over a volume with another label, and a volume made without a row, by a handler or by mounting it, where another's row was left behind |
| `VolumeOwners.FairRunsMirror` | server/internal/store/store.go:204-206 | a run of fair actions keeps the owner column mirroring the labels throughout |
| `VolumeOwners.AdminResizeForgetsOwner` | server/internal/api/handlers_manage.go:297-303 | an administrator's resize of a member's volume resets the row to nobody while the label stays |
| `VolumeOwners.CreatingOverAnothersTakesTheRow` | server/internal/api/handlers_manage.go:271-276 | a member who creates under another member's volume name takes the row while the label stays |
| `VolumeOwners.MountingOverALeftoverRow` | server/internal/api/handlers_manage.go:371-376 | a volume is removed, deleting its row fails, and a container that mounts it brings it back without a label: the row names somebody the volume does not belong to |
| `VolumeHelpers.SanitizeName` | server/internal/docker/volumes.go:331-341 | the loop keeps the letters A-Z and a-z, the ten digits, `-`, `_` and `.`, each listed, and replaces every other character by a hyphen |
| `VolumeHelpers.SanitizedIsIdentity` | server/internal/docker/volumes.go:331-341 | sanitizing leaves a name unchanged if and only if all its characters are legal, and is idempotent |
| `VolumeHelpers.Client.FromCache` | server/internal/docker/volumes.go:80-85 | a cached id is returned exactly if its container still runs, unless Docker fails; otherwise the entry is dropped |
| `VolumeHelpers.Client.Launch` | server/internal/docker/volumes.go:97-125 | creates, starts and caches the volume's helper; a helper that does not start is not cached |
| `VolumeHelpers.Client.ReleaseHelper` | server/internal/docker/volumes.go:130-139 | without a Docker failure no helper of a legal volume is left, and no other container goes |
| `VolumeHelpers.Client.CleanupVolumeHelpers` | server/internal/docker/volumes.go:142-150 | without a Docker failure no helper is left, and no other container goes |
| `VolumeHelpers.Client.RemovedOutside` | server/internal/docker/volumes.go:80-85 | containers removed behind the client's back leave the cache coherent |
| `VolumeHelpers.Client.StoppedOutside` | server/internal/docker/volumes.go:80-95 | containers stopped behind the client's back leave the cache coherent |
| `AdvancedForm.TrimFixedPoints` | web/src/ServiceAdvanced.tsx:76 | trim is idempotent, and its fixed points are the strings without white space at the ends |
| `AdvancedForm.SplitUndoesJoin` | web/src/ServiceAdvanced.tsx:129-134 | splitting at a separator undoes joining parts that lack it |
| `AdvancedForm.LinesRoundTrip` | web/src/ServiceAdvanced.tsx:76-129 | a list survives printing as lines and parsing if and only if its elements are trimmed, not empty and on one line |
| `AdvancedForm.LinesMean` | web/src/ServiceAdvanced.tsx:76 | lines are parted by newlines, trimmed, and left out if blank |
| `AdvancedForm.TokensRoundTrip` | web/src/ServiceAdvanced.tsx:77-130 | a list survives printing as tokens and parsing if and only if no element is empty or holds white space or a comma |
| `AdvancedForm.TokensMean` | web/src/ServiceAdvanced.tsx:77 | a comma and any white space part tokens, in any number |
| `AdvancedForm.TokenAlone` | web/src/ServiceAdvanced.tsx:77 | a string without either is one token |
| `AdvancedForm.PairsRoundTrip` | web/src/ServiceAdvanced.tsx:78-134 | a record survives printing as pairs, in any order, and parsing if and only if its keys and values are ones that parsing can produce |
| `AdvancedForm.PairsMean` | web/src/ServiceAdvanced.tsx:78-85 | each line is read on its own and a later one wins; the first `=` parts key and value, both are trimmed, and a line without a key says nothing |
| `AdvancedForm.Pairs` | web/src/ServiceAdvanced.tsx:78-85 | the loop cuts each line at its first `=`, trims both sides, lets later lines win and skips lines without a key |
| `AdvancedForm.PairsAreLegal` | web/src/ServiceAdvanced.tsx:78-85 | what parsing produces has trimmed non-empty keys without `=` and trimmed values |
| `AdvancedForm.FilledPortsFixed` | web/src/ServiceAdvanced.tsx:90 | dropping ports without container port is idempotent and leaves exactly the filled lists unchanged |
| `AdvancedForm.FilledMountsFixed` | web/src/ServiceAdvanced.tsx:91 | dropping mounts without target is idempotent and leaves exactly the filled lists unchanged |
| `AdvancedForm.HealthRoundTrip` | web/src/ServiceAdvanced.tsx:117-172 | a health check survives the form if and only if it is absent or one shell command without start period |
| `AdvancedForm.BuildAdvanced` | web/src/ServiceAdvanced.tsx:88-127 | each option comes from its own field, numbers default to 0, and a health command is run by the shell |
| `AdvancedForm.AdvToForm` | web/src/ServiceAdvanced.tsx:138-174 | each field shows its own option, with the default restart policy for an empty one |
| `AdvancedForm.LogOptionsLost` | web/src/ServiceAdvanced.tsx:136-174 | log options are dropped by every edit, and nothing else |
| `AdvancedForm.StartPeriodLost` | web/src/ServiceAdvanced.tsx:136-174 | a start period is dropped by every edit, and nothing else |
| `AdvancedForm.ExecCheckBecomesShell` | web/src/ServiceAdvanced.tsx:136-174 | an exec-style check comes back as a shell check |
| `AdvancedForm.RestartPolicyFilled` | web/src/ServiceAdvanced.tsx:136-174 | an empty restart policy comes back as `unless-stopped` |
| `AdvancedForm.LogOptionDoesNotSurvive` | web/src/ServiceAdvanced.tsx:136-174 | concrete options with a log option that does not come back |
| `AdvancedForm.SubmittedIsFormShaped` | web/src/ServiceAdvanced.tsx:88-127 | what the form submits can be expressed by it again, unless the restart policy is empty |
| `Store.Store.ListServices` | server/internal/store/services.go:93-115 | the services ordered by name, or an error |
| `Store.Store.ListRoutes` | server/internal/store/store.go:224-239 | the routes ordered by subdomain, or an error |
| `Store.Store.ListEndpoints` | server/internal/store/endpoints.go:59-76 | all environments, or an error |
| `Store.Store.GetEndpoint` | server/internal/store/endpoints.go:54-57 | the environment with this id, or none, or an error |
| `Store.Store.GetService` | server/internal/store/services.go:83-85 | the row with this name, or an error |
| `Store.Store.CreateService` | server/internal/store/services.go:62-80 | inserts a row under a name not taken, or changes nothing |
| `Store.Store.UpdateService` | server/internal/store/services.go:125-141 | changes the editable columns only; owner, token, host and last image stay |
| `Store.Store.SetServiceReplicas` | server/internal/store/services.go:118-121 | changes the replica count and nothing else |
| `Store.Store.SetServiceSubdomain` | server/internal/store/services.go:144-147 | changes the custom subdomain and nothing else |
| `Store.Store.SetServiceImage` | server/internal/store/services.go:150-153 | changes image and last image and nothing else |
| `Store.Store.DeleteService` | server/internal/store/services.go:156-159 | removes the row and no other |
| `Store.Store.UpsertRoute` | server/internal/store/store.go:242-257 | the subdomain's row is the given one, others stay |
| `Store.Store.DeleteRoute` | server/internal/store/store.go:260-263 | removes the route and no other |
| `Docker.Hosts.RemoveByName` | server/internal/docker/client.go:110-112 | removes the container of this name or changes nothing |
| `Docker.Hosts.Start` | server/internal/docker/client.go:95-97 | starts exactly the container with this id, or fails |

## Left out

- Docker's SDK, SQL, gRPC and go-control-plane: foreign calls. Docker is a map of containers with
  unique names, the store is a map per table, the snapshot cache a map from node to configuration;
  the listener resource is a constant and not modelled.
- Row ids: rows are keyed by their unique name, so a row that is deleted and re-created between two
  statements of one operation is not told apart.
- What overlapping operations of the manager publish, and which replicas remain when an update or
  several scalings overlap: in `Services` each operation runs alone; `Overlap` interleaves the Docker
  calls of any operations whose limits do not change; `Race` is one redeployment and one scaling.
- A base domain that contains `:`: the results about host names ask for one without, since explicit-port
  forms could otherwise meet other hosts.
- Collation: ORDER BY is code-point order.
- Envoy's wildcard and suffix matching: a domain is looked up as the exact string, and `d:*` is an
  entry of its own.
- A registry without service source: the source is always attached.
- Registry credentials, image pulls and the JSON coding of environment and options: of the stored
  options only ports and labels are looked at.
- Contents of a snapshot's consistency check: a refusal is nondeterministic.
- Creating, renaming and deleting environments: none of them republishes, so nodes of deleted
  environments keep their last snapshot; `Services.Manager.Covered` leaves them out.
- Scaling by hand makes no quota check, so no bound is stated for a member's usage over all requests;
  `Quota.ReservationSuffices` covers counts up to the reservation.
- Stored options that set the labels the manager reads, and edits that drop a replica's labels: the
  reconciliation results ask for `Clean` services.
- Integer widths in quota arithmetic: the products can wrap only for values that the INTEGER columns
  refuse; replica counts and host ports are 64-bit.
- Floating-point rounding in the autoscaler: averages are real numbers.
- Bytes that are not valid UTF-8 in names, and UTF-16 surrogates in the web client's strings.
- Absent fields of stored options (`?? []`): the model's options always have every field.
- HTTP decoding, status codes, authentication, tunnels, git builds, browsing of volumes, and the user
  interface around the form: plumbing that would only add easy members.
- Registry.Registry.ServiceDomains: if reading the environment fails it shows the label `local`, as
  in the code, so the host list equals the published one only if the read succeeds.
- Services.Manager.Create: if the name had containers before, agreement of containers and routing is
  stated for runs without Docker failures, because starting and removing those may fail unnoticed.
- Deploying single containers through the API: only their edits are modelled.
