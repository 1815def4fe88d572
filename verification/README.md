# Krane: a verified model

Krane rolls out canaries on Istio. This project models its controllers in Dafny and proves what they
are for, over every run, input and interleaving.

**The canary controller.** A Reconcile takes a Canary through the stages initializing, testing,
canary, reporting and cleanup. It creates and deletes pods and edits a VirtualService that several
canaries share: it takes ten percent from the base route for a new route, and later gives the weight
back and drops the route.

- `VirtualServiceValues`, `RouteEdits`: the searches, the split and the merge on values, and what they
  find and write, route by route. `BlockShares`, `TrafficShares`: the arithmetic of whole runs of them,
  for any number of services in one http block.
- `ObjectTrees`, `VirtualServiceObjects`, `RouteLists`, `HttpRoutes`, `VirtualServices`, `Decoding`:
  the same on objects as Go has them (pointers, slices over backing arrays, maps, any of them nil),
  with the generated deep copies and the edits in place.
- `Protocol`, `Invariant`, `Safety`: the cluster as a state machine. Every object keeps all its
  versions; reads come from a cache that lags behind but never goes back; a write must present the
  stored version; the steps of any number of canaries interleave. `Safety` and
  `ClusterShares` prove what holds of all runs of these steps.
- `Standpoint`, `Clients`: the API client of one Reconcile. Between any two calls everybody else may
  take any steps; any call may fail; a failed write may have been applied.
- `Stages`, `CanaryController`, `Convergence`: the imperative Reconcile. It is proved to take only
  steps of the protocol, and to do exactly what `Stages` says when nothing disturbs it. `Rounds` says
  what that is for each stage, field by field, and `Convergence` has the progress and retry results.
- `Guarantees`: the headline results, over every behaviour of the cluster that the clients can be in.

**The sidecar's packet rules.** `PacketFilter` models iptables tables, commands and the walk of a
packet; `SidecarRules` and `SidecarScript` the generating script; `SidecarPolicy` proves that the
chains decide the documented policy, `SidecarTeardown` when the script undoes itself, and
`SidecarReruns` when it can run again; `SidecarExamples` has two whole tables.

**The deployment controller.** `DeploymentValues`, `DeploymentSteps` and `DeploymentController`:
labels and selectors that must agree, and a pass of six writes that may crash between any two.
`DeploymentResults`: what a pass leaves in the cluster.

**The example judge.** `JudgeDetector`: more than ten violations in a row, over all series.

Assumed of a cluster at the start of a run: the Canary statuses are empty, no canary has pods or a
route yet, no canary is named like a service, and there is no nil pointer in the blocks that the
search for a service enters. Deployments may or may not exist; a canary's may still appear, and anybody
may delete it at any time. The VirtualService and the pods are edited by the controller and the kubelet
only.

Results worth knowing, some of them limits of the code:

- The shares of a block stay sound exactly while no more canaries are split for any of its services
  than that service's base weight has tens (`Guarantees.SoundIffWithinBudget`). The split past that
  writes a negative weight, or takes a base weight that has been spent to 0 for one that was never
  set (`TrafficShares.OverspendingSplit`, at an input `TrafficShares.NegativeWeight`).
- A block without weights is sound from its first split on only if one service alone is ever split
  in it: each first split of a service adds 100 (`Guarantees.SoundIffOneServicePays`).
- After the cleanups the original shares are back exactly if no split has found a base weight spent to
  0; otherwise 100 has been added for each such split (`Guarantees.RoundTrip`, `BlockShares.WeightLaw`,
  at an input `TrafficShares.RefilledWeight`).
- A canary whose test is never read as passed stays in Testing (`Guarantees.TestingGate`), and a failed
  judge proceeds like a successful one (`Convergence.CanaryGate`).
- Teardown restores the nat table exactly if there are no virtual interfaces; with some, and
  something to redirect from them, the next run of the script cannot complete
  (`SidecarTeardown.TeardownInvertsSetup`, `SidecarReruns.SecondRunCompletes`,
  `SidecarReruns.OneInterfaceStays`). What an earlier run in another mode has left behind is
  removed as well, and so not restored (`SidecarTeardown.TeardownRestores`), unless other rules use it.
- A template that already carries both labels with other values is not selected by the canary service
  (`DeploymentValues.ServiceSelectsCanary`, `DeploymentValues.LabelledForAnother`). A match expression
  about a label that the baseline overwrites may keep the baseline's selector from its own template
  (`DeploymentValues.BaselineSelectsItself`, `DeploymentValues.ExpressionForbids`).

Where comments and code disagree, the model follows the code: the running state of a job is asked of
a terminated container (pkg/controller/canary/test_reconciler.go:173-183); exclusions of address
ranges apply with an explicit include list as well, although the usage text limits them to the
wildcard (infra/istio-1.1.4/tools/deb/istio-iptables.sh:46-48, 334-339); the Canary is made the owner
of the deployment (pkg/controller/deployment/canary_config_reconciler.go:32-39).

## Model

| member | source | states |
|---|---|---|
| Guarantees.NothingLeftBehind | pkg/controller/canary/cleanup_reconciler.go:13-80 | In every behaviour, from the moment a canary's stored Cleanup status is success, and ever after, the stored VirtualService has no route to it and its test pod, judge pod and deployment are gone |
| Guarantees.NothingRecreated | pkg/controller/canary/canary_controller.go:151-154 | In every behaviour, once the Cleanup stage is stored no later step creates a pod of the canary or splits traffic for it |
| Guarantees.ForwardOnly | pkg/controller/canary/canary_controller.go:192-235 | In every behaviour the stored Progress never goes back |
| Guarantees.VersionsAreSequentialRun | pkg/controller/canary/vs_reconciler.go:33-89 | Refinement: the stored versions of the VirtualService are those of a sequential run of atomic splits and merges, each fitting the version it edits, and no version holds two routes for one canary |
| Guarantees.TrafficGate | pkg/controller/canary/canary_controller.go:107-109 | In every behaviour a split comes only after an earlier Reconcile of that canary has read its test container as terminated with exit code 0, and in a Reconcile that has itself read both deployments as available |
| Guarantees.TestingGate | pkg/controller/canary/canary_controller.go:203-207 | In every behaviour a stored Progress past Testing, or a stored success of the test, comes only after a Reconcile of that canary has read its test container as terminated with exit code 0 |
| Guarantees.VerdictGate | pkg/controller/canary/judge_reconciler.go:70-97 | In every behaviour a stored verdict on a job, test or judge, comes only after a read of its own container with exit code 0 (success) or with another code (failure) |
| Guarantees.CanaryGate | pkg/controller/canary/canary_controller.go:208-213 | In every behaviour a stored Progress past Canary means that some stored version has held the canary's route, and that its judge pod has existed |
| Guarantees.SoundIffWithinBudget | pkg/controller/canary/vs_reconciler.go:68-81 | Weight bound for every concurrent behaviour and every http block, however many services share it: if it totals 100 with no negative weight at first, all its stored versions do if and only if at no point more canaries are split for any of its services than that service's base weight has tens |
| Guarantees.SoundIffOneServicePays | pkg/controller/canary/vs_reconciler.go:69-74 | The bound for a block whose weights nobody has set: all versions from its first split on are sound if and only if all splits are for one of its services, at most ten at once |
| Guarantees.BaseWeightOfVersion | pkg/controller/canary/vs_reconciler.go:69-74 | The base route of version k holds its original share less ten per canary of its own service that is split at k, whatever canaries of other services do in the same block, if and only if no split before k has found it spent to 0; within the share none does |
| Guarantees.FewCanariesFit | pkg/controller/canary/vs_reconciler.go:69-74 | A service with no more canaries than its base share has tens keeps within it in every behaviour, whatever is done for other services |
| Guarantees.FewCanariesAreSound | pkg/controller/canary/vs_reconciler.go:69-74 | A sound block whose services all have few canaries is sound in every stored version |
| Guarantees.TenCanariesAreSound | pkg/controller/canary/vs_reconciler.go:69-74 | A block without weights is sound in every version from its first split on if all canaries that use it are of one service, ten at most |
| Guarantees.RoundTrip | pkg/controller/canary/cleanup_reconciler.go:54-63 | When the cleanups of the canaries of all services split in a block are stored as successful, the block holds its original routes in the original order with the original shares (an unset base weight that was split now written as 100) if and only if no split has found a base weight spent to 0; within the shares none does |
| Guarantees.ShareRestored | pkg/controller/canary/cleanup_reconciler.go:54-63 | When the cleanups of its own canaries are stored as successful, a service has its base share back if and only if no split for it has found the base weight spent to 0, whatever is still split for others |
| Guarantees.ClientBehaves | pkg/controller/canary/canary_controller.go:86-149 | What the client of a Reconcile has been through is such a behaviour, so the guarantees hold at every moment of every Reconcile |
| Guarantees.OtherBlocksUntouched | pkg/controller/canary/vs_reconciler.go:44-81 | Nothing but Route lists is ever edited, and no block that serves no canary's service at all |
| TrafficShares.ActiveIffRouted | pkg/controller/canary/cleanup_reconciler.go:54-63 | After any run of edits a canary is active exactly if the VirtualService holds a route to it, and then once |
| Safety.NotesOfRun | pkg/controller/canary/test_reconciler.go:65-87 | What a cell notes about reads (deployments available in this round, test passed in which round) is what the run's reads have returned |
| Invariant.InitialInv | pkg/controller/canary/canary_controller.go:228-232 | The invariant holds of a fresh cluster with empty statuses |
| Invariant.NextInv | pkg/controller/canary/canary_controller.go:86-149 | Every step of any canary, cache, kubelet or deployment keeps the invariant (presence never revives, statuses are backed by what was read, versions chain by fitting edits) |
| Invariant.OpKeeps | pkg/controller/canary/cleanup_reconciler.go:43-70 | A split or merge by one canary keeps the invariant as every other canary sees it |
| VirtualServiceValues.FindRouteFirst | pkg/controller/canary/vs_reconciler.go:104-112 | The search returns the first matching route, or -1 exactly when there is none |
| VirtualServiceValues.FindBlockFirst | pkg/controller/canary/vs_reconciler.go:92-102 | The search returns the first block with a matching route, or -1 exactly when there is none |
| VirtualServiceValues.SplitFind | pkg/controller/canary/vs_reconciler.go:68-81 | A split leaves every other host's first route in place, gives the canary the last one, and makes no duplicate |
| VirtualServiceValues.MergeFind | pkg/controller/canary/cleanup_reconciler.go:58-63 | A merge removes the canary's route and no other host's |
| VirtualServiceValues.OpEffect | pkg/controller/canary/vs_reconciler.go:44-81 | What a split or merge of one canary changes for any canary of any service: the service stays in its block and only the editing canary's route comes or goes |
| RouteEdits.RouteFound | pkg/controller/canary/vs_reconciler.go:104-112 | The search finds the first route whose destination host is the one asked for, or nothing exactly if there is none, route by route |
| RouteEdits.BlockFound | pkg/controller/canary/vs_reconciler.go:92-102 | The nested search finds the first route to the service in the whole object |
| RouteEdits.SplitWrites | pkg/controller/canary/vs_reconciler.go:68-81 | What a split writes: the first route to the service has ten less, or 90 if it had no weight; last comes a route with the canary as host, no subset, weight 10 and nothing else; every other route, block and field is as it was |
| RouteEdits.MergeWrites | pkg/controller/canary/cleanup_reconciler.go:54-63 | What a merge writes: the canary's first route is gone, the first route to the service has its weight, and every other route, block and field is as it was |
| TrafficShares.ClosedFormRun | pkg/controller/canary/vs_reconciler.go:68-81 | After any run of edits, within the bound or not, every block has a closed form: its original routes, reweighed by who has taken from them and given back, and behind them the routes of its active canaries in split order |
| BlockShares.SplitTotal | pkg/controller/canary/vs_reconciler.go:69-74 | A split keeps the total of a block if the base route has a weight, and adds 100 if it has none |
| BlockShares.WeightLaw | pkg/controller/canary/vs_reconciler.go:69-74 | After any run a route's weight is its original one, plus 100 for each time it was found at 0 and taken for unset, less ten per canary it pays for |
| BlockShares.TotalLaw | pkg/controller/canary/vs_reconciler.go:69-74 | After any run the total of a block is its original one plus 100 for each time a weight was taken for unset |
| TrafficShares.OverspendingSplit | pkg/controller/canary/vs_reconciler.go:69-74 | From a sound version, the split that exceeds a service's share always writes an unsound block: a negative base weight, or a spent weight 0 taken for unset |
| TrafficShares.SoundIffWithinBudget | pkg/controller/canary/vs_reconciler.go:69-74 | For every sequence of splits and merges for any services, and every block that is sound at first: all its versions are sound if and only if no service is ever split for more canaries than its base weight has tens |
| TrafficShares.SoundIffOneServicePays | pkg/controller/canary/vs_reconciler.go:69-74 | The same for a block with no weights set: sound from its first split on if and only if one service alone is split, at most ten times at once |
| TrafficShares.NegativeWeight | pkg/controller/canary/vs_reconciler.go:69-74 | The failing side at an input: from a base weight of 5 the first split leaves -5 |
| TrafficShares.BaseWeightOfRun | pkg/controller/canary/vs_reconciler.go:69-74 | The base weight of a service is its share less ten per active canary of its own, whatever is done for others in the same block, if and only if no split has found it spent to 0 |
| BlockShares.HasShareIff | pkg/controller/canary/vs_reconciler.go:69-74 | The same for one route of a block: its weight is accounted for by the canaries it pays for if and only if no split has found it spent |
| TrafficShares.RoundTrip | pkg/controller/canary/cleanup_reconciler.go:54-63 | When the canaries of all services of a block, split and merged in any overlapping order, have no route any more, the block is as it was if and only if no split has found a base weight spent to 0 |
| TrafficShares.RefilledWeight | pkg/controller/canary/vs_reconciler.go:69-74 | The failing side at an input: base weight 10, two splits and two merges end with weight 110 |
| VirtualServiceObjects.CopyMap | pkg/apis/networking/v1alpha3/zz_generated.deepcopy.go:534-540 | make of a map and its range loop: equal entries in a new map, nil stays nil |
| VirtualServiceObjects.HeaderOperations.DeepCopyInto | pkg/apis/networking/v1alpha3/zz_generated.deepcopy.go:532-554 | Equal value, all objects new |
| VirtualServiceObjects.Headers.DeepCopyInto | pkg/apis/networking/v1alpha3/zz_generated.deepcopy.go:506-519 | Equal value, all objects new |
| VirtualServiceObjects.Destination.DeepCopyInto | pkg/apis/networking/v1alpha3/zz_generated.deepcopy.go:48-56 | Equal value, all objects new |
| VirtualServiceObjects.HTTPRouteDestination.DeepCopyInto | pkg/apis/networking/v1alpha3/zz_generated.deepcopy.go:456-493 | Equal value, the deprecated header fields included, all objects new |
| RouteLists.CopyRoutes | pkg/apis/networking/v1alpha3/zz_generated.deepcopy.go:365-375 | The loop over a slice of pointers: equal values with nil entries kept, all objects new and none shared between entries, whatever the source shares |
| RouteLists.AppendRoute | pkg/controller/canary/vs_reconciler.go:76-81 | append gives the old entries and the new one in a new backing array |
| RouteLists.CutRoute | pkg/controller/canary/cleanup_reconciler.go:62-63 | The tail is shifted down by one in the same backing array |
| ObjectTrees.CopyNode | pkg/apis/networking/v1alpha3/zz_generated.deepcopy.go:391-417 | A struct with its slices, maps and structs below, of any depth: equal value with nil kept, all objects new |
| HttpRoutes.HTTPRoute.DeepCopyInto | pkg/apis/networking/v1alpha3/zz_generated.deepcopy.go:352-443 | Equal value in all fields, all objects new, no route sharing an object with another or with the other fields |
| VirtualServices.VirtualServiceSpec.DeepCopyInto | pkg/apis/networking/v1alpha3/zz_generated.deepcopy.go:867-918 | Equal value in all fields with nil entries kept, every object but the target itself new, no block or route sharing an object with anything else |
| VirtualServices.VirtualServiceSpec.DeepCopy | pkg/apis/networking/v1alpha3/zz_generated.deepcopy.go:921-928 | The copy is equal in all fields and entirely new |
| VirtualServices.VirtualServiceSpec.FindMatchingHttpAndRoute | pkg/controller/canary/vs_reconciler.go:92-102 | The nested loops over the objects find the first block and its first route of the service; a nil pointer matters only before the match |
| VirtualServices.VirtualServiceSpec.FindMatchingRouteInHttpRoute | pkg/controller/canary/vs_reconciler.go:104-112 | The loop finds the first route of that host in the block; a nil pointer matters only before the match |
| VirtualServiceValues.ReadableIffSearchable | pkg/controller/canary/vs_reconciler.go:44-58 | For a canary that is not routed, no nil pointer stops the two searches if and only if there is none in the blocks up to the service's, its own included |
| VirtualServices.VirtualServiceSpec.SplitInPlace | pkg/controller/canary/vs_reconciler.go:68-81 | The weight edit through the pointer and the append turn the object graph into the split of its old value |
| VirtualServices.VirtualServiceSpec.MergeInPlace | pkg/controller/canary/cleanup_reconciler.go:58-63 | The weight edit through the pointer and the shift of the slice turn the object graph into the merge of its old value |
| VirtualServices.SplitOnCopy | pkg/controller/canary/vs_reconciler.go:68-81 | Editing a deep copy leaves every object of the cached graph unchanged, so a failed write can be retried |
| Standpoint.OthersView | pkg/controller/canary/canary_controller.go:86-149 | Whatever other canaries, caches, the kubelet and deployments do between two calls, a Reconcile's own status history and notes stay, and the facts it relies on only accumulate |
| Standpoint.TraceIsRun | pkg/controller/canary/canary_controller.go:86-149 | A trace of worlds is a run of the protocol, so that the results about runs apply to what the imperative controller does |
| Clients.Client.UpdateStatus | pkg/controller/canary/canary_controller.go:70-80 | A status write succeeds only if it presents the stored version; a failed one is not applied or, rarely, applied; nothing else changes |
| Clients.Client.GetPod | pkg/controller/canary/cleanup_reconciler.go:82-93 | A cached read, possibly old but never older than the last one; not finding a pod at the Cleanup stage proves it gone for good |
| Clients.Client.GetVirtualService | pkg/controller/canary/vs_reconciler.go:33-42 | A deep copy of a cached version; finding no route at the Cleanup stage proves it gone for good |
| Clients.Client.UpdateVirtualService | pkg/controller/canary/vs_reconciler.go:83-87 | The edited object is stored only over the version it was read at, once or not at all |
| Protocol.ExitCodeMeans | pkg/controller/canary/test_reconciler.go:160-171 | Exit code k if and only if the first terminated container of that name ended with k, none if and only if none of that name has terminated, whatever other containers did |
| CanaryController.GetContainerTerminalState | pkg/controller/canary/test_reconciler.go:160-171 | The loop returns the exit code of the first terminated container of that name, and nothing exactly if there is none |
| CanaryController.GetContainerRunningState | pkg/controller/canary/test_reconciler.go:173-183 | Never reports a running container, because it asks for a terminated one |
| CanaryController.ReconcileCanary.ReconcileCanaryAndBaseline | pkg/controller/canary/canary_controller.go:151-189 | Past it a copy before the Cleanup stage is the stored version and both deployments were seen available; with an outdated such copy it fails and writes nothing; undisturbed it is InitStage |
| CanaryController.ReconcileCanary.ReconcileTestJob | pkg/controller/canary/test_reconciler.go:15-100 | Writes only steps the protocol allows (success only after a read exit code 0); does nothing outside Testing; undisturbed it is TestStage |
| CanaryController.ReconcileCanary.ReconcileJudgeJob | pkg/controller/canary/judge_reconciler.go:15-100 | Likewise for the judge pod, in Testing and Canary; undisturbed it is JudgeStage |
| CanaryController.ReconcileCanary.ReconcileVirtualService | pkg/controller/canary/vs_reconciler.go:11-90 | Splits only where the canary has no route, and writes success only after its own route was read back; undisturbed it is TrafficStage |
| CanaryController.ReconcileCanary.ReconcileReporting | pkg/controller/canary/reporting_reconciler.go:8-26 | Swallows its write error and yet leaves a copy from which the next write is safe; undisturbed it is ReportStage |
| CanaryController.ReconcileCanary.ReconcileCleanup | pkg/controller/canary/cleanup_reconciler.go:13-80 | Claims success only when pods, deployment and route are gone; cut off anywhere, what a full cleanup will leave is unchanged; undisturbed it is CleanupStage |
| CanaryController.ReconcileCanary.CleanupPod | pkg/controller/canary/cleanup_reconciler.go:82-96 | No error only if the pod is gone for good |
| CanaryController.ReconcileCanary.CleanupDeployment | pkg/controller/canary/cleanup_reconciler.go:98-112 | No error only if the deployment is gone for good |
| CanaryController.ReconcileCanary.ReconcilePhaseStatus | pkg/controller/canary/canary_controller.go:192-235 | The stored Progress stays or moves one stage forward; undisturbed it is PhaseStage |
| CanaryController.ReconcileCanary.Reconcile | pkg/controller/canary/canary_controller.go:69-149 | In any mode: only protocol steps, at most one stage forward, no write from an outdated copy before Cleanup or from a finished cleanup; once the Canary was read it asks to be called again in 5 seconds on every path, requeues exactly if its last call has failed (the write of the cleanup's success aside), and reports that failure unless it is a conflict; alone: cleanup is retry-safe; undisturbed: exactly Round |
| Rounds.VerdictTells | pkg/controller/canary/test_reconciler.go:67-87 | Phase and message of a job say exactly how its own container has ended: 0, another code, or not yet |
| Rounds.ProxyIsSkipped | pkg/controller/canary/test_reconciler.go:162-164 | At an input: an istio-proxy that ended with 0 does not make a failed test or judge pass |
| Rounds.WaitingRound | pkg/controller/canary/canary_controller.go:151-189 | An undisturbed Reconcile with a deployment missing changes nothing, and with one down only records the waiting |
| Rounds.UnsetRound | pkg/controller/canary/canary_controller.go:228-232 | With both up and no stage yet: the stored objects afterwards, field by field |
| Rounds.InitializingRound | pkg/controller/canary/canary_controller.go:198-202 | The same from Initializing |
| Rounds.TestingRound | pkg/controller/canary/canary_controller.go:203-207 | The same from Testing: both pods there, both verdicts told, the stage left exactly on exit code 0 |
| Rounds.CanaryRound | pkg/controller/canary/canary_controller.go:208-213 | The same from Canary: a missing route added, a present one confirmed, the verdict told, the stage left with a confirmed route and any verdict |
| Rounds.ReportingRound | pkg/controller/canary/reporting_reconciler.go:8-26 | The same from Reporting |
| Rounds.CleanupRound | pkg/controller/canary/cleanup_reconciler.go:13-80 | The same from Cleanup: pods and canary deployment gone, baseline kept, weight given back |
| Convergence.RoundDescends | pkg/controller/canary/canary_controller.go:192-235 | With available deployments, a configured service and finished pods every undisturbed round lowers the measure; at measure 0 it changes nothing |
| Convergence.EightRounds | pkg/controller/canary/canary_controller.go:86-149 | From any reachable state at most eight such Reconciles end in a stored Cleanup success |
| Convergence.TestingGate | pkg/controller/canary/canary_controller.go:203-207 | A round leaves Testing if and only if the test pod has ended with exit code 0 |
| Convergence.CanaryGate | pkg/controller/canary/canary_controller.go:208-213 | A round leaves Canary if and only if the route is there (or was confirmed) and the judge has ended, whatever its verdict |
| Convergence.CleanupWithRetries | pkg/controller/canary/cleanup_reconciler.go:13-80 | Any number of cut-off attempts and then a full one leave what one full attempt leaves, the weight returned exactly once |
| PacketFilter.ExecKeepsLinks | infra/istio-1.1.4/tools/deb/istio-iptables.sh:161-182 | No iptables command ever leaves a jump to a chain that is not there |
| PacketFilter.WalkConcat | infra/istio-1.1.4/tools/deb/istio-iptables.sh:306-363 | First match decides: walking two lists of rules is walking the second where the first falls through |
| SidecarScript.CreateInbound | infra/istio-1.1.4/tools/deb/istio-iptables.sh:266-299 | The commands for inbound ports leave exactly the inbound chain and its jump, or fail exactly if the chain exists |
| SidecarScript.CreateOutput | infra/istio-1.1.4/tools/deb/istio-iptables.sh:306-363 | The outbound commands, loops and inserts leave exactly the outbound chain, its jump and the inserted front, or fail exactly if the chain exists |
| SidecarScript.TearDown | infra/istio-1.1.4/tools/deb/istio-iptables.sh:161-182 | The delete, flush and drop commands, failures ignored, give TornDownNat and TornDownMangle |
| SidecarScript.SetUp | infra/istio-1.1.4/tools/deb/istio-iptables.sh:219-363 | Completes if and only if none of its chains exists, and then leaves InstalledNat and InstalledMangle |
| SidecarScript.Script | infra/istio-1.1.4/tools/deb/istio-iptables.sh:161-363 | A whole run: teardown, then setup |
| SidecarExamples.RedirectingTables | infra/istio-1.1.4/tools/deb/istio-iptables.sh:219-363 | At an input: the nat table of a run, rule by rule |
| SidecarExamples.MarkingTables | infra/istio-1.1.4/tools/deb/istio-iptables.sh:233-299 | At an input: the mangle table of a TPROXY run, rule by rule |
| SidecarPolicy.OutboundPolicy | infra/istio-1.1.4/tools/deb/istio-iptables.sh:306-363 | A locally generated tcp packet is redirected if and only if (loopback redirection is on, it leaves on lo and not to 127.0.0.1) or (uid and gid unlisted, destination neither 127.0.0.1 nor excluded, and included) |
| SidecarPolicy.InboundPolicyRedirect | infra/istio-1.1.4/tools/deb/istio-iptables.sh:266-299 | REDIRECT mode: captured if and only if the include is "*" and the port is neither 22 nor excluded, or the port is listed |
| SidecarPolicy.InboundPolicyTproxy | infra/istio-1.1.4/tools/deb/istio-iptables.sh:245-299 | TPROXY mode: the same packets are marked, all but those to 127.0.0.1 without a socket; no other is touched |
| SidecarPolicy.InterfacePolicy | infra/istio-1.1.4/tools/deb/istio-iptables.sh:341-360 | From a listed interface a tcp packet is redirected if and only if wanted, else it returns, before any other rule, for every number and order of interfaces and ranges |
| SidecarTeardown.TeardownKeepsLinks | infra/istio-1.1.4/tools/deb/istio-iptables.sh:161-182 | On any tables, teardown never drops a chain that a rule still jumps to |
| SidecarTeardown.TeardownInvertsSetup | infra/istio-1.1.4/tools/deb/istio-iptables.sh:161-182 | Teardown after a run restores the nat table exactly if and only if there are no virtual interfaces, and the mangle table always |
| SidecarTeardown.TeardownRestores | infra/istio-1.1.4/tools/deb/istio-iptables.sh:161-182 | From any tables a run can complete on, leftover chains included: teardown then restores nat if and only if there are no virtual interfaces and teardown alone would find nothing to do, and mangle if and only if the run used it or teardown alone would find nothing to do |
| SidecarReruns.SecondRunCompletes | infra/istio-1.1.4/tools/deb/istio-iptables.sh:227-232 | After a first run on any tables that it can complete on, a second run, with any configuration, completes if and only if the first left no redirecting rule for a virtual interface (which pins ISTIO_REDIRECT, so that its creation fails) and no rule of somebody else's uses a chain that the second creates |
| SidecarReruns.CleanIsFree | infra/istio-1.1.4/tools/deb/istio-iptables.sh:161-182 | On tables without the script's chains no rule uses them, so that there the redirecting rule alone decides about a second run |
| SidecarReruns.NatChainsLeft | infra/istio-1.1.4/tools/deb/istio-iptables.sh:161-182 | Which of the four chains a run and the next teardown leave in the nat table |
| SidecarReruns.OneInterfaceStays | infra/istio-1.1.4/tools/deb/istio-iptables.sh:341-360 | The failing side at an input: with one interface and all traffic included, nat is not restored and no second run completes |
| DeploymentSteps.CrashConverges | pkg/controller/deployment/deployment_controller.go:88-136 | A pass stopped after any of its writes and then rerun gives the cluster of one full pass |
| DeploymentSteps.SecondPassIdle | pkg/controller/deployment/deployment_controller.go:88-136 | A further pass changes nothing |
| DeploymentSteps.StepSettles | pkg/controller/deployment/deployment_controller.go:161-185 | Each step, once taken, has nothing left to do |
| DeploymentSteps.LaterStepsKeep | pkg/controller/deployment/deployment_controller.go:109-131 | No later step gives an earlier one new work |
| DeploymentResults.PassMakes | pkg/controller/deployment/deployment_controller.go:88-136 | What a full pass that can come to its end leaves: the service, the baseline and the Canary under their names, each field as the code sets it where the pass made it; the canary labelled, its template labelled, and owned; all other objects as they were |
| DeploymentResults.BaselineIsMade | pkg/controller/deployment/baseline_reconciler.go:40-99 | The baseline: baseline tier, one replica, the base's containers in both modes, and all else from the canary (New, unset) or from the base (Old) |
| DeploymentResults.PassStops | pkg/controller/deployment/baseline_reconciler.go:56-64 | A pass without a baseline or anything to make it of has made the service and no Canary |
| DeploymentController.ReconcileDeployment.Reconcile | pkg/controller/deployment/deployment_controller.go:72-136 | However a pass ends, the cluster is that of a prefix of the six steps, and of all of them if no write failed; it is requeued in 3 seconds exactly if a write failed or a step could not be taken, with that failure reported unless it is a conflict; a deployment or policy that is missing asks for nothing |
| DeploymentController.ReconcileAfterCrashes | pkg/controller/deployment/deployment_controller.go:88-136 | Any number of crashed passes and one that is not give the cluster of a single full pass |
| DeploymentController.ReconcileDeployment.UpdateCanaryConfigName | pkg/controller/deployment/deployment_controller.go:155-159 | Step 0, taken or failed before or after its write |
| DeploymentController.ReconcileDeployment.ReconcileCanaryDeployment | pkg/controller/deployment/canary_reconciler.go:9-24 | Step 1, taken or failed before or after its write |
| DeploymentController.ReconcileDeployment.ReconcileCanaryService | pkg/controller/deployment/service_reconciler.go:15-39 | Step 2, taken or failed before or after its write |
| DeploymentController.ReconcileDeployment.ReconcileBaseline | pkg/controller/deployment/baseline_reconciler.go:14-38 | Step 3, or an error exactly when no baseline exists and none can be made |
| DeploymentController.ReconcileDeployment.ReconcileCanaryConfig | pkg/controller/deployment/canary_config_reconciler.go:13-30 | Step 4, taken or failed before or after its write |
| DeploymentController.ReconcileDeployment.OwnDeployment | pkg/controller/deployment/canary_config_reconciler.go:32-43 | Step 5, or an error exactly when the deployment has another controlling owner |
| DeploymentController.CreateBaselineDeployment | pkg/controller/deployment/baseline_reconciler.go:40-99 | Builds the baseline from a deep copy and sets labels in place; nothing that existed before is modified |
| DeploymentValues.BaselineIsAnother | pkg/controller/deployment/deployment_controller.go:151-153 | The baseline is never named like the canary |
| DeploymentValues.ServiceIsRouteHost | pkg/controller/deployment/service_reconciler.go:80-82 | The service is named like the Canary, hence like the host of the added route |
| DeploymentValues.ServiceSelectsCanary | pkg/controller/deployment/service_reconciler.go:63-66 | The service selects the canary's pods if and only if its template lacked one of the two labels or had both right |
| DeploymentValues.LabelledForAnother | pkg/controller/deployment/service_reconciler.go:63-66 | The failing side at an input: a template labelled with another config's name is not selected |
| DeploymentValues.ServiceSelectsBaseline | pkg/controller/deployment/baseline_reconciler.go:89-91 | The service always selects the baseline's pods, in both modes |
| DeploymentValues.BaselineSelectsItself | pkg/controller/deployment/baseline_reconciler.go:82-91 | Where the source's selector, match expressions included, selected its template, the baseline's does so if and only if the source's selector asks for nothing else of the four overwritten labels |
| DeploymentValues.UnlabelledSourceAgrees | pkg/controller/deployment/baseline_reconciler.go:68-91 | From unlabelled templates the baseline's selector selects its own template, in both modes, if and only if the source's match expressions allow the four overwritten labels |
| DeploymentValues.ExpressionForbids | pkg/controller/deployment/baseline_reconciler.go:82-91 | The failing side at an input: a source that wants the version label absent selects its template, and its baseline does not |
| DeploymentValues.BaselineSelectsItsTier | pkg/controller/deployment/baseline_reconciler.go:82-84 | The baseline's selector selects no template outside the baseline tier |
| DeploymentValues.BaselineIsNotWatched | pkg/controller/deployment/canary_predicate.go:16-52 | The baseline never passes the controller's own predicate |
| DeploymentValues.CanaryTierIsWatched | pkg/controller/deployment/canary_predicate.go:16-52 | Taken up is exactly what names a policy and is of the canary tier |
| JudgeDetector.Reconcile | example/judge/main.go:150-173 | Fails if and only if the concatenation of all series has more than ten violations in a row |
| JudgeDetector.RunIsEleven | example/judge/main.go:165-169 | A failing run is eleven samples in a row above the margin |
| JudgeDetector.TenPassElevenFail | example/judge/main.go:158-169 | At an input: ten violations pass, also twice with a sample on the margin between, and eleven fail |
| JudgeDetector.NextSample | example/judge/main.go:159-170 | One more sample makes a run exactly if the trailing run grows past ten |
| JudgeDetector.ExtensionKeepsFailure | example/judge/main.go:154-171 | More samples at the end never turn a failure into a pass |
| JudgeDetector.SeriesFailTogether | example/judge/main.go:153-154 | The counter is not reset between series: two that pass alone fail together |
| JudgeDetector.Round | example/judge/main.go:89-107 | A round exits with failure if and only if some metric's data fails; failed queries are skipped |

## Left out

- The panic on a nil pointer that a route search comes to before its match.
- Weights are unbounded integers; the int32 of the source cannot wrap within the weight bound.
- The names and types of the VirtualService fields that the controller does not look into: in each struct they are one tree of structs, slices and maps, with all their scalars kept.
- Message strings and pod names in statuses, but for the messages that the code compares.
- Pod, service and container specifications, images, environment variables, ports and their JSON.
- Edits of the VirtualService, the pods or the statuses by anybody but the controller and the kubelet; a canary deployment may appear once, change, and be deleted at any time, but it is not recreated once it has existed; a baseline deployment may come and go.
- Deletion of the Canary object itself, namespaces, finalizers and garbage collection by owner; a delete takes effect at once.
- The change of a policy while its canary runs: a canary's service stays the same.
- Two Reconciles of one canary at a time, which the controller runtime excludes.
- Reads of the deployment controller are current; the canary controller's may be stale.
- Match expressions are well formed, as the API server validates them, and are never edited in place.
- Maps of a Deployment are not nil; the source would panic on a nil label map.
- An unknown baseline mode ends the pass with an error; the source panics on the nil selector.
- ip6tables, `ip rule` and `ip route`, option parsing, port ranges and service names as ports; address ranges are names whose members a packet knows; socket matching is supported.
- NaN samples, float rounding, the Prometheus query and the timing of the judge.
- pkg/controller/canary/dr_reconciler.go, which no Reconcile calls; example/testjob/main.go; the shallow copies in pkg/apis/krane/v1/zz_generated.deepcopy.go.
