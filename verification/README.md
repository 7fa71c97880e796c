# Verification of the OSD metrics exporter

The exporter is a set of small Kubernetes reconcilers that write into one shared object, the metrics aggregator. This
project models the parts of it that carry state over many calls, and proves what they keep over whole runs:

- **Aggregator** (`AggregatorSpec`, `Aggregator`, `AggregatorMutex`). Two source-of-truth maps and the gauge vectors
  derived from them. A gauge vector is a map from label tuple to number; the unspecified iteration order of Go maps is
  a nondeterministic pick. The class is proved against order-free definitions (a count is the size of a set of
  places in the provider lists). The mutex is a separate step system in which the ticker and any number of workers
  interleave one list entry, one gauge or one lock operation at a time; the ticker ranges over the shared map itself.
- **Machine controller** (`DrainEvents`, `PodScanner`, `MachineController`, `DrainTiming`). Selection of the newest
  drain failure, the scan of its message for pod and namespace names, the reconcile itself, and the timing of the
  polling it requests.
- **Finalizer protocols** (`ApiServer`, `OAuthController`, `GroupController`). An API server with versioned objects,
  deletion marks and finalizer lists, a read cache that lags but never goes back, and anybody else acting between any
  two steps of a reconcile. The reconcilers are classes; each call of `Reconcile` is proved to be one exact run of the
  step system that the theorems are about.
- **CA bundle controller** (`ConfigMapController`). Two gauge vectors that are reset and then refilled.
- **Operator bundle generator** (`BundleNames`, `OperatorBundle`). The index of resource documents, the trimming of
  that index while one of its lists is iterated over, and the file names of what is left.

`Options`, `Sums`, `Folds` and `Texts` hold general definitions. `dafny verify dfyconfig.toml` checks everything.

## Assumptions

- A machine in phase Deleting has a deletion timestamp, and a node reference by the time it is reported on
  (`MachineController.WellFormed`). The source dereferences both without a check.
- Each controller has one worker, so its reconciles do not overlap. The drain methods of the aggregator take no lock
  and depend on this.
- Nobody but the controller strips its finalizer, and an object marked for deletion takes no new finalizers
  (`ApiServer.EnvEnabled`).
- The read cache of a key only moves forward, and an update is refused unless it carries the current version.
- Times are integers on one clock, in nanoseconds. Messages are sequences of characters.
- The aggregator's provider map is written by the OAuth controller alone, and its drain state by the machine
  controller alone.

## Where the code does not do what one might expect

- **OAuth finalizer safety has one exception.** On deletion the finalizer is stripped before the metric entry is
  removed. If the update that strips it is applied but reported as failed, the object is gone, the retry finds nothing,
  and the entry stays. `MisreportedStripLeaks` is such a run, `LeakStays` says nothing but a new object of that name
  ends it, and `SafeThroughoutIffReported` shows that a run is safe throughout exactly when it has no such update. The
  group controller zeroes its gauge first; its safety has no exception (`ClusterAdminSafety`).
- **OAuth convergence has the same exception.** Reconciling every object in its latest state does not make the gauges
  right if such an entry is left over: in `SettledYetOvercounted` no object exists and a GitHub provider is exported.
  After any run at all, the gauge of a type is the right number plus its occurrences in leftover entries
  (`GaugesConverge`), so it is right exactly when no entry without an object lists the type
  (`GaugeRightIffNoLeftover`). Nor does another pass over the objects help (`QuietPassConverges`). A run without
  misreported strips leaves nothing over (`NothingLeftover`).
- **Bundle file names are not unique for all resources**, although `filename_for` documents them so: an unqualified
  resource named `team_reader` and one named `reader` in namespace `team` share a file (`FilenamesDoCollide`).
  `FilenameCollision` is the exact condition for all permitted kinds and any names and namespaces. The script checks
  no name; Kubernetes allows no underscore in a namespace, so of the two ways to collide only this one, with an
  unqualified name, passes a cluster.
- **Bindings are indexed by role name only.** The two Roles and RoleBindings under `deploy/` share their names. A Role is
  never lost by that (`RolePartition`), but of two RoleBindings for one role name only the last one loaded can leave
  the index; the first one is bundled even when its Role moved into the CSV (`RoleBindingFate`).
- **A third Deployment is dropped silently**: only the first two enter the CSV, and all leave the index
  (`ProcessDeployments`).

## Model

| member | source | states |
|---|---|---|
| `AggregatorSpec.TypeCountRemove` | pkg/metrics/aggregator.go:174-181 | the empty map counts nothing, and taking any one object out of the map takes exactly its own occurrences out of each count, so the walk order is irrelevant |
| `AggregatorSpec.KnownTypes` | pkg/metrics/aggregator.go:23-33 | the aggregator knows the nine types of the API, each once, and no other |
| `AggregatorSpec.GaugesContent` | pkg/metrics/aggregator.go:183-189 | there is one series for each of these types, and its value is the count of that type |
| `AggregatorSpec.GaugesConserveEntries` | pkg/metrics/aggregator.go:170-190 | the nine gauges add up to the total length of all provider lists less the entries of unknown type |
| `AggregatorSpec.AllPlacesCount` | pkg/metrics/aggregator.go:174-181 | there are as many places in the lists as the lists are long together |
| `AggregatorSpec.DrainSeriesContent` | pkg/metrics/aggregator.go:293-306 | a series is exported iff its machine is draining and holds that pod, in that namespace, on that node; and its value is 1 |
| `AggregatorSpec.RebuildAfterSet` | pkg/metrics/aggregator.go:280-285 | clearing and rebuilding the whole vector after one machine was set changes the series of that machine only, to the image of its new pod map |
| `AggregatorSpec.RebuildAfterRemove` | pkg/metrics/aggregator.go:288-291 | after a machine was removed, exactly the series labelled with it are gone |
| `AggregatorSpec.DrainSeriesSize` | pkg/metrics/aggregator.go:293-306 | the vector is as large as the pod maps of all machines together: no two pods share a series |
| `Aggregator.AdoptionMetricsAggregator.constructor` | pkg/metrics/aggregator.go:78-136 | starts with both maps empty, the cluster-admin gauge at 0 and every other modelled vector empty |
| `Aggregator.AdoptionMetricsAggregator.SetOAuthIDP` | pkg/metrics/aggregator.go:154-162 | the entry of the object becomes the list of its provider types, in order; no other entry and no gauge changes |
| `Aggregator.AdoptionMetricsAggregator.DeleteOAuthIDP` | pkg/metrics/aggregator.go:164-168 | the entry of the object goes, whether or not there was one, and no other |
| `Aggregator.AdoptionMetricsAggregator.CountProviders` | pkg/metrics/aggregator.go:173-181 | for every order of the map, the local tally of a type is the number of places that hold it |
| `Aggregator.AdoptionMetricsAggregator.Aggregate` | pkg/metrics/aggregator.go:170-190 | the vector becomes one series per type of the API, each its count over the provider map; a second call changes nothing |
| `Aggregator.AdoptionMetricsAggregator.SetClusterAdmin` | pkg/metrics/aggregator.go:192-201 | sets the one series of this cluster to 1 or 0 |
| `Aggregator.AdoptionMetricsAggregator.SetFailingDrainPodsForMachine` | pkg/metrics/aggregator.go:274-286 | replaces the data of one machine; afterwards the vector is the image of all machines and only that machine's series changed |
| `Aggregator.AdoptionMetricsAggregator.RemoveMachineMetrics` | pkg/metrics/aggregator.go:288-291 | forgets one machine; the vector loses exactly its series |
| `Aggregator.AdoptionMetricsAggregator.ResetMachineMetrics` | pkg/metrics/aggregator.go:293-306 | for every order of machines and pods, and whatever was in the vector: a series is there iff its machine is draining and holds that pod, in that namespace, on that node; and its value is 1 |
| `Aggregator.AdoptionMetricsAggregator.ResetClusterProxyCAExpiry` | pkg/metrics/aggregator.go:225-227 | empties the expiry vector |
| `Aggregator.AdoptionMetricsAggregator.SetClusterProxyCAExpiry` | pkg/metrics/aggregator.go:229-234 | sets the series of one cluster and subject |
| `Aggregator.AdoptionMetricsAggregator.ResetClusterProxyCAValid` | pkg/metrics/aggregator.go:237-239 | empties the validity vector |
| `Aggregator.AdoptionMetricsAggregator.SetClusterProxyCAValid` | pkg/metrics/aggregator.go:241-250 | sets the series of one cluster to 1 or 0 |
| `AggregatorMutex.InvKept` | pkg/metrics/aggregator.go:138-190 | every step of the ticker and of any worker keeps mutual exclusion, and keeps tally plus rest of the current list plus what the shared map still holds of the keys not yet picked equal to the full count |
| `AggregatorMutex.RunKeepsInv` | pkg/metrics/aggregator.go:138-190 | so it holds in every state of every run |
| `AggregatorMutex.MapFrozen` | pkg/metrics/aggregator.go:159-172 | from the ticker's lock to its unlock the provider map does not change |
| `AggregatorMutex.MutexSnapshot` | pkg/metrics/aggregator.go:138-190 | in every interleaving, although aggregate reads the shared map list by list, when it releases the lock all nine gauges equal the counts of one provider map, the one at lock acquisition, and no setter took effect in between |
| `AggregatorMutex.GaugesBetweenTicks` | pkg/metrics/aggregator.go:138-190 | whenever aggregate is not running, the gauges show the provider map at its last start, or nothing if it never ran |
| `AggregatorMutex.MapIsLastWrite` | pkg/metrics/aggregator.go:154-168 | however setters and ticks interleave, an object is in the map iff the last setter to take effect on it set it, and then with the list of that call |
| `AggregatorMutex.WrittenAsCalled` | pkg/metrics/aggregator.go:154-168 | what a setter writes under the lock are the arguments of its worker's latest call |
| `DrainEvents.InvolvingContent` | controllers/machine/machine_controller.go:196-198 | the field selector keeps exactly the events that involve this machine |
| `DrainEvents.InvolvingInOrder` | controllers/machine/machine_controller.go:196-198 | and keeps their order |
| `DrainEvents.DrainFailureInWords` | controllers/machine/machine_controller.go:137-139 | a drain failure has the reason DrainRequeued and the text 'error when evicting pods' somewhere in its message |
| `DrainEvents.GetMostRecentDrainFailedEvent` | controllers/machine/machine_controller.go:115-151 | an error iff there are no events, nil iff none is a drain failure, otherwise a drain failure with no newer one in the list and only older ones before it |
| `DrainEvents.SelectionUnique` | controllers/machine/machine_controller.go:115-151 | that description determines the result |
| `DrainEvents.ReorderingEvents` | controllers/machine/machine_controller.go:115-151 | permuting the list keeps the kind of result and the timestamp, and with distinct timestamps the event itself |
| `PodScanner.MatchInWords` | controllers/machine/machine_controller.go:154 | the pattern in full: two non-empty words of letters, digits, underscores and hyphens between the three literal pieces of text |
| `PodScanner.MatchUnique` | controllers/machine/machine_controller.go:154-155 | at one position the pattern matches with at most one pair of groups |
| `PodScanner.MatchesDisjoint` | controllers/machine/machine_controller.go:154-155 | two different occurrences of the pattern never overlap |
| `PodScanner.OccurrencesAreAllMatches` | controllers/machine/machine_controller.go:154-155 | the scan result lists exactly the occurrences of the pattern, left to right and without overlap |
| `PodScanner.MatchAt` | controllers/machine/machine_controller.go:154-155 | the greedy match at a position finds the match iff there is one |
| `PodScanner.FindAll` | controllers/machine/machine_controller.go:154-155 | jumping behind each match still finds every occurrence in any message |
| `PodScanner.ParsePodsAndNamespaces` | controllers/machine/machine_controller.go:153-180 | the returned map is the last-write-wins map of all occurrences whose namespace lacks "openshift-" |
| `PodScanner.KeptAppend` | controllers/machine/machine_controller.go:173-177 | a pair that is filtered out never erases an entry kept before |
| `PodScanner.KeptContent` | controllers/machine/machine_controller.go:162-178 | a pod is in the map iff some kept pair names it, with the namespace of the last such pair |
| `PodScanner.OpenShiftInWords` | controllers/machine/machine_controller.go:173-175 | the namespace filter looks for openshift- anywhere in the name |
| `PodScanner.ParsedFromText` | controllers/machine/machine_controller.go:153-180 | the parser without the scan: a pod gets a namespace iff its last mention in the text outside the OpenShift namespaces has it |
| `PodScanner.PodNamespacesWitness` | controllers/machine/machine_controller.go:153-180 | every entry of the map is written in the message, outside the OpenShift namespaces |
| `PodScanner.PrintScan` | controllers/machine/machine_controller.go:154-155 | pairs rendered with arbitrary quote-free text around them are scanned back, all of them and in order |
| `PodScanner.PrintParse` | controllers/machine/machine_controller.go:153-180 | and parsed back to their last-write-wins map less the OpenShift namespaces |
| `MachineController.MachineReconciler.Reconcile` | controllers/machine/machine_controller.go:70-97 | a failed read is retried; a missing machine, or one not in Deleting, is not requeued, and only a missing one is forgotten; a Deleting machine is rechecked after 5 minutes before the gate, retried if its events cannot be listed, rechecked after 2 minutes iff the list shows a drain failure of it and of this deletion, and then its entry is its node with the pods of its newest failure, otherwise after 5; the series of all other machines stay |
| `MachineController.MachineReconciler.EvaluateDeletingMachine` | controllers/machine/machine_controller.go:182-242 | never stops the polling; an error iff the list fails past the gate; 2 minutes iff past the gate the list shows a drain failure of this machine no older than the deletion, and then the entry is replaced by the pods of the newest failure; otherwise 5 minutes and no change |
| `MachineController.ReportedIsFailure` | controllers/machine/machine_controller.go:196-224 | the event acted on is a drain failure that involves this machine, among those listed, no older than the deletion, and none of this machine is newer |
| `MachineController.ReportedIffFailure` | controllers/machine/machine_controller.go:187-224 | an event is acted on iff the deletion is more than 15 minutes ago and some listed event is a drain failure of this machine no older than it |
| `MachineController.DrainingIffReported` | controllers/machine/machine_controller.go:80-96 | after any run a machine is draining iff some reconcile reported on it after the last one that found it missing |
| `MachineController.StoredIsLatestReport` | pkg/metrics/aggregator.go:280-291 | and what is stored is what the latest such reconcile reported |
| `MachineController.EverySeriesWitnessed` | controllers/machine/machine_controller.go:182-241 | every series of every run goes back to a reconcile of its machine more than 15 minutes after the deletion, and a drain failure that involves this machine, no older than the deletion, whose message has that pod and namespace, outside the OpenShift namespaces |
| `MachineController.ExportedSeriesWitnessed` | pkg/metrics/aggregator.go:274-306 | the same for the exported vector, in every valid state of the reconciler object |
| `DrainTiming.GateFirstPassed` | controllers/machine/machine_controller.go:187-192 | the age gate is first passed more than 15 and at most 20 minutes after the deletion, and nothing is reported before |
| `DrainTiming.FailureIsReported` | controllers/machine/machine_controller.go:204-241 | past the gate a reconcile reports iff the events it can read show a drain failure of this machine and this deletion |
| `DrainTiming.ReportIsExported` | pkg/metrics/aggregator.go:274-286 | whatever was reconciled before, after a report the series of the machine are exactly the pods its newest drain failure names |
| `DrainTiming.FailureExportedInTime` | controllers/machine/machine_controller.go:44-54 | if a failure can be read from time e on, then by max(e, deletion + 15 minutes) + 5 minutes the exported series of the machine are exactly the pods its newest drain failure names |
| `DrainTiming.ExactTimes` | controllers/machine/machine_controller.go:189-192 | with exact requeues the reconciles up to the gate are 5 minutes apart |
| `DrainTiming.GateTurnsAwayFour` | controllers/machine/machine_controller.go:187-192 | the gate then turns away between one and four reconciles, four iff the first comes at the very moment of the deletion |
| `ApiServer.EnvKeeps` | controllers/oauth/oauth_controller.go:51-63 | whatever others do, what a controller has read stays read and its finalizer is not lost |
| `ApiServer.HeldFinalizerStands` | controllers/oauth/oauth_controller.go:65-72 | stale or not, an unmarked object read with the finalizer still exists with it |
| `ApiServer.CurrentIsHeld` | controllers/oauth/oauth_controller.go:68-70 | the version check passes only if what was read is what the server holds |
| `ApiServer.AddKeeps` | controllers/oauth/oauth_controller.go:66-71 | the update that adds the finalizer keeps the invariant and writes nothing else |
| `ApiServer.StripKeeps` | controllers/oauth/oauth_controller.go:74-79 | the update that strips it keeps the invariant and writes nothing else |
| `ApiServer.ApiClient.Get` | controllers/oauth/oauth_controller.go:53-63 | a read yields the cached version, not-found or an error |
| `ApiServer.ApiClient.Update` | controllers/oauth/oauth_controller.go:68-70 | success iff current and delivered; an effect iff current and not refused; a marked object without finalizers is gone |
| `ApiServer.ApiClient.SettleFinalizer` | controllers/oauth/oauth_controller.go:65-79 | adds or strips the finalizer and writes the object back iff needed, failing iff the update fails; the group controller does the same (controllers/group/group_controller.go:67-81) |
| `ApiServer.SettleInWords` | controllers/oauth/oauth_controller.go:65-79 | the server is called iff the finalizer is missing from an unmarked or present on a marked object; an effective call changes that finalizer alone, keeps the finalizers of others, and removes a marked object that has no other |
| `ApiServer.SettleKeeps` | controllers/oauth/oauth_controller.go:65-79 | that keeps the invariant and every other object; an unmarked object is guarded if no error is reported, a marked one that was written is not guarded any more, whatever is reported |
| `ApiServer.ContainsString` | controllers/utils/utils.go:22-29 | true iff the string is in the list |
| `OAuthController.OAuthFinalizerSafety` | controllers/oauth/oauth_controller.go:51-83 | over any interleaving with others and any stale reads, between reconciles each entry names an object that exists with the finalizer, if no strip is misreported |
| `OAuthController.MisreportedStripBreaksSafety` | controllers/oauth/oauth_controller.go:65-81 | of all ways in which settling the finalizer can end, exactly one breaks that: the finalizer of a counted object is stripped and the update reported as failed |
| `OAuthController.SafeThroughoutIffReported` | controllers/oauth/oauth_controller.go:51-83 | a run is safe in all its states iff it contains no such update |
| `OAuthController.MisreportedStripLeaks` | controllers/oauth/oauth_controller.go:73-81 | a run from the start whose entry outlives its object |
| `OAuthController.LeakStays` | controllers/oauth/oauth_controller.go:53-60 | every step but the creation of an object of that name leaves such an entry in place |
| `OAuthController.MapIsLastDone` | controllers/oauth/oauth_controller.go:65-81 | an entry is there iff the last completed reconcile of its object saw it unmarked, and holds what that one saw |
| `OAuthController.LiveMapCounts` | pkg/metrics/aggregator.go:173-181 | the places of a type in the map of live objects are the identity providers of that type over those objects |
| `OAuthController.OAuthConverges` | controllers/oauth/oauth_controller.go:65-81 | once every object's latest state was reconciled, after any history, the provider map is that of the unmarked objects plus the entries without an object, and right iff there are none of these |
| `OAuthController.GaugesConverge` | pkg/metrics/aggregator.go:170-190 | so the next tick sets each known type to the number of its identity providers over all unmarked objects, plus its occurrences in the entries without an object |
| `OAuthController.GaugeRightIffNoLeftover` | pkg/metrics/aggregator.go:170-190 | the gauge of a type is right iff no entry without an object lists the type |
| `OAuthController.NothingLeftover` | controllers/oauth/oauth_controller.go:51-83 | in a run without misreported strips no entry is without an object between reconciles |
| `OAuthController.SettledYetOvercounted` | controllers/oauth/oauth_controller.go:73-81 | a run after which every object is reconciled and a gauge is nevertheless too high |
| `OAuthController.FreshReconcileCorrects` | controllers/oauth/oauth_controller.go:47-84 | from any state the invariant allows, one undisturbed reconcile of an object makes its entry right and touches no other entry |
| `OAuthController.MarkedObjectGoes` | controllers/oauth/oauth_controller.go:73-81 | a marked object that only this controller holds back is gone after one undisturbed reconcile, with its entry |
| `OAuthController.QuietPassSettles` | controllers/oauth/oauth_controller.go:47-84 | from any such state between reconciles, one undisturbed pass over the existing objects leaves the unmarked objects and the entries that were without an object |
| `OAuthController.QuietPassConverges` | controllers/oauth/oauth_controller.go:47-84 | so after any run, with no condition on it, such a pass and a tick give each known type its right number plus its occurrences in the entries without an object |
| `OAuthController.OAuthReconciler.Reconcile` | controllers/oauth/oauth_controller.go:47-84 | a call is this exact run of the step system; it fails iff its read or its update does; otherwise the entry is that of the object as read |
| `OAuthController.OAuthReconciler.ReconcileObject` | controllers/oauth/oauth_controller.go:65-83 | finalizer first, then the metric, in both branches |
| `GroupController.StepKeeps` | controllers/group/group_controller.go:66-82 | every step keeps: gauge 1 only while the group exists with the finalizer, misreported updates included |
| `GroupController.ClusterAdminSafety` | controllers/group/group_controller.go:66-82 | in every state of every run the gauge is 0 or 1, and 1 implies that the group exists with the finalizer |
| `GroupController.ClusterAdminConverges` | controllers/group/group_controller.go:49-84 | from any reachable state one undisturbed reconcile sets the gauge to 1 iff the group exists, is unmarked and has users, and to 0 otherwise |
| `GroupController.MarkedGroupGoes` | controllers/group/group_controller.go:74-82 | a marked group that only this controller holds back is gone after one undisturbed reconcile |
| `GroupController.GroupReconciler.Reconcile` | controllers/group/group_controller.go:49-84 | a call is this exact run of the step system; without an error an unmarked group sets the gauge to 1 iff it has users; that of a marked group is zeroed even when the update then fails |
| `GroupController.GroupReconciler.ReconcileLive` | controllers/group/group_controller.go:66-73 | finalizer first, then the gauge: 1 iff the group has users |
| `GroupController.GroupReconciler.ReconcileMarked` | controllers/group/group_controller.go:74-82 | gauge first, then the finalizer |
| `ConfigMapController.LastCertificateWins` | controllers/configmap/configmap_controller.go:94-98 | one expiry series per subject, with the expiry of the last certificate of that subject |
| `ConfigMapController.VectorsCoupled` | controllers/configmap/configmap_controller.go:57-99 | some expiry is exported iff the bundle is exported as valid; it is exported as invalid iff parsing a certificate failed |
| `ConfigMapController.ParseFailureInWords` | controllers/configmap/configmap_controller.go:79 | a parse failure has 'failed parsing certificate' somewhere in its message |
| `ConfigMapController.ConfigMapReconciler.Reconcile` | controllers/configmap/configmap_controller.go:51-100 | if the bundle was parsed there is one expiry series for each subject in the whole of it, with the expiry of that subject's last certificate, otherwise none; valid is 1 iff the bundle has certificates, 0 iff one could not be parsed; whatever earlier reconciles saw; exact error cases |
| `BundleNames.KindNameUnique` | boilerplate/openshift/golang-osd-operator/csv-generate/common-generate-operator-bundle.py:21-39 | permitted kinds with the same name are the same |
| `BundleNames.FilenameCollision` | boilerplate/openshift/golang-osd-operator/csv-generate/common-generate-operator-bundle.py:160-173 | for any names and namespaces, two resources share a file name iff they are the same resource, or an underscore blurs where the namespace of one ends |
| `BundleNames.FilenameInvertible` | boilerplate/openshift/golang-osd-operator/csv-generate/common-generate-operator-bundle.py:160-173 | without underscores in namespaces and unqualified names a file name determines kind, namespace and name |
| `BundleNames.FilenamesDoCollide` | boilerplate/openshift/golang-osd-operator/csv-generate/common-generate-operator-bundle.py:163-167 | two different resources with one file name |
| `OperatorBundle.RemoveFirstAt` | boilerplate/openshift/golang-osd-operator/csv-generate/common-generate-operator-bundle.py:230-240 | the search for the first match and the two slices around it remove exactly the first item of that identity |
| `OperatorBundle.TrimmingIsFiltering` | boilerplate/openshift/golang-osd-operator/csv-generate/common-generate-operator-bundle.py:210-240 | without repeated identities, trimming items one by one is filtering them out, order kept |
| `OperatorBundle.FirstMatchIsOwn` | boilerplate/openshift/golang-osd-operator/csv-generate/common-generate-operator-bundle.py:312-331 | while the old list is iterated over, the first match of a role in the trimmed list is that role's own place, even with repeated names |
| `OperatorBundle.RolesConserved` | boilerplate/openshift/golang-osd-operator/csv-generate/common-generate-operator-bundle.py:312-331 | moved and kept roles together are all roles, with repeats |
| `OperatorBundle.BundleGenerator.Load` | boilerplate/openshift/golang-osd-operator/csv-generate/common-generate-operator-bundle.py:126-150 | fails iff some kind is not permitted; otherwise the index holds the documents by kind in load order, and the last binding of each role name |
| `OperatorBundle.OfKindInOrder` | boilerplate/openshift/golang-osd-operator/csv-generate/common-generate-operator-bundle.py:144-146 | the documents of a kind keep the order in which they were loaded |
| `OperatorBundle.LastBindingWins` | boilerplate/openshift/golang-osd-operator/csv-generate/common-generate-operator-bundle.py:147-150 | a role name is indexed iff some binding names it, and with the last one loaded |
| `OperatorBundle.BundleGenerator.TrimIndex` | boilerplate/openshift/golang-osd-operator/csv-generate/common-generate-operator-bundle.py:210-240 | nothing, the whole kind, or the first item of that identity is removed, and no other kind is touched |
| `OperatorBundle.BundleGenerator.DiscoverServiceAccount` | boilerplate/openshift/golang-osd-operator/csv-generate/common-generate-operator-bundle.py:188-208 | the operator's account without a binding, otherwise the first ServiceAccount subject or failure |
| `OperatorBundle.ClusterAccountInWords` | boilerplate/openshift/golang-osd-operator/csv-generate/common-generate-operator-bundle.py:288-290 | the account of a ClusterRole is the operator's own without a binding, otherwise the first ServiceAccount among the subjects of its binding |
| `OperatorBundle.BundleGenerator.LoadAndCheck` | boilerplate/openshift/golang-osd-operator/csv-generate/common-generate-operator-bundle.py:242-252 | passes iff all kinds are permitted, there is a Deployment, and more than one comes with a supplementary image |
| `OperatorBundle.BundleGenerator.ProcessClusterRoles` | boilerplate/openshift/golang-osd-operator/csv-generate/common-generate-operator-bundle.py:276-301 | one permission for each cluster role with the account it is bound to; cluster roles and the bindings found for them leave the index; fails iff a binding has no account |
| `OperatorBundle.BundleGenerator.ProcessRoles` | boilerplate/openshift/golang-osd-operator/csv-generate/common-generate-operator-bundle.py:312-331 | leaves, in order, exactly the roles whose indexed binding does not have one single subject that is a ServiceAccount without a namespace or with the operator's; one permission for each other role, and their bindings trimmed; fails iff a role is unbound |
| `OperatorBundle.KeptInWords` | boilerplate/openshift/golang-osd-operator/csv-generate/common-generate-operator-bundle.py:321-323 | which roles are kept, in terms of the subjects of their bindings |
| `OperatorBundle.BundleGenerator.ProcessDeployments` | boilerplate/openshift/golang-osd-operator/csv-generate/common-generate-operator-bundle.py:333-378 | the first two Deployments enter the CSV; all Deployments and ServiceAccounts leave the index |
| `OperatorBundle.BundleGenerator.BundleAll` | boilerplate/openshift/golang-osd-operator/csv-generate/common-generate-operator-bundle.py:387-391 | for every order of kinds, each document left has a file of its name and each file is that of a document left |
| `OperatorBundle.BundleGenerator.Generate` | boilerplate/openshift/golang-osd-operator/csv-generate/common-generate-operator-bundle.py:126-391 | the script runs through iff the documents are acceptable, and then index, permissions, deployments and files are the stated functions of the document list; the Roles left are those not bound to a single account of the operator's own, by the last binding loaded for their name |
| `OperatorBundle.AcceptedInWords` | boilerplate/openshift/golang-osd-operator/csv-generate/common-generate-operator-bundle.py:142-322 | the documents are acceptable iff all kinds are permitted, there is a Deployment, a second one comes with a supplementary image, the CSV has a namespace, every bound ClusterRole has a ServiceAccount, and the last binding of every Role exists and has subjects |
| `OperatorBundle.RoleFate` | boilerplate/openshift/golang-osd-operator/csv-generate/common-generate-operator-bundle.py:312-331 | a Role enters the CSV iff the last RoleBinding loaded for its name has exactly one subject, a ServiceAccount without a namespace or with the operator's; every other Role is bundled |
| `OperatorBundle.PermissionFate` | boilerplate/openshift/golang-osd-operator/csv-generate/common-generate-operator-bundle.py:324-329 | each moved Role adds one permission, in order, with its own rules and that one subject's name |
| `OperatorBundle.RolePartition` | boilerplate/openshift/golang-osd-operator/csv-generate/common-generate-operator-bundle.py:312-331 | every Role lands in exactly one of CSV and bundle, with repeats, and its name alone decides |
| `OperatorBundle.RoleBindingFate` | boilerplate/openshift/golang-osd-operator/csv-generate/common-generate-operator-bundle.py:147-150 | with distinct identities, a RoleBinding is left out of the bundle iff it is the one indexed for its role name and a Role of that name moved |
| `OperatorBundle.ClusterRoleBindingFate` | boilerplate/openshift/golang-osd-operator/csv-generate/common-generate-operator-bundle.py:286-293 | with distinct identities, a ClusterRoleBinding is left out of the bundle iff it is the one indexed for the name of a ClusterRole |
| `OperatorBundle.BundledInWords` | boilerplate/openshift/golang-osd-operator/csv-generate/common-generate-operator-bundle.py:283-391 | a document is bundled iff it is no ClusterRole, Deployment or ServiceAccount, no Role that moves, and no binding that is the last one loaded for a Role that moves or for a ClusterRole |
| `OperatorBundle.DocumentFate` | boilerplate/openshift/golang-osd-operator/csv-generate/common-generate-operator-bundle.py:283-391 | every document has exactly one fate: it enters the CSV, it is bundled, or it is dropped |
| `OperatorBundle.NothingOverwritten` | boilerplate/openshift/golang-osd-operator/csv-generate/common-generate-operator-bundle.py:175-186 | the files are exactly the documents left, one each, iff no underscore blurs where the namespace ends for two documents left |

## Left out

- The limited-support, cluster-proxy, control-plane-machine-set, pull-secret and cluster-id gauges with their
  controllers: one-branch mappings that would only add easy members.
- `main.go`, manager setup, event filters, logging, health checks and metrics serving: wiring to libraries.
- Prometheus internals: registry, scrape atomicity (a scrape takes no lock of the aggregator) and float encoding;
  gauge values are integers.
- Certificate parsing, JSON decoding and the Kubernetes client library: their results are inputs of the model.
- What a missing deletion timestamp or node reference does: both are assumed present where the source reads them.
- Controller restarts, which start again from an empty aggregator.
- Bytes: the scanner works on characters; the pattern has ASCII classes only, so on valid UTF-8 the matches agree.
- Reading and writing YAML, the list of owned CRDs, the patching of images and environment variables, and the version
  metadata of the CSV.
- The orphan-binding check of the bundle generator: it looks at role kinds rather than binding kinds, and never fires.
- A subject list that is present but null, and documents without the fields the script reads: the script aborts on them.
- `OperatorBundle.BundleGenerator.Generate`: does not say which failure is reported, because every one of them aborts
  the script (the constructor of one, for a Role without a binding, itself raises another error).
- The kind of a document is a datatype of the permitted kinds and any other, not a string.
