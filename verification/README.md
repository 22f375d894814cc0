# Kubewatch: a verified model

Kubewatch watches Kubernetes clusters and publishes what happens in them. This project models its four
components that keep state, and proves what they promise over all inputs and over whole runs.

1. **Cluster informers** (`ClusterTable`, `Reconciler`, `ClusterInformers`, `Serialisation`). Secrets ask for a cluster to be
   added, updated or removed; each handler re-reads the cluster table and creates, replaces or closes a stop
   channel. `ClusterTable` gives the effect of each handler, `Reconciler` the runs in which the table changes,
   events are handled in any order and replayed, and lookups and clients fail at will. `ClusterInformers` is the
   registry itself, a class with channel objects on the heap, proved against `ClusterTable`. `Serialisation` drops the
   assumption that handlers do not overlap and says what then has to hold.
2. **Pod verdicts** (`Decimal`, `FailureMessages`, `PodVerdict`, `FinishTimes`, `PodStatus`, `PodInformer`). A pod's
   container states become a node status and a workflow status. The statuses are sorted in place by an unstable
   sort, so the theory in `PodVerdict` says which verdicts are possible and when there is only one. The message
   is later compared with a constant to detect re-triggers, so `FailureMessages` says what the texts determine.
3. **Application updates** (`AppStream`). The filter on Argo applications, and what a subscriber knows behind it.
4. **The work queue** (`ResourceEvents`, `RetryProtocol`). The event record the callbacks share, and bounded
   retries on client-go's rate limiting queue.

`Wrappers` holds the Option type.

Assumptions. Except in `Serialisation`, each handler is one atomic step. The field `mutex` (pkg/informer/K8sInformer.go:75)
is never taken, and the startup loop, the secret callbacks and shutdown may run on different goroutines, so this is
assumed; `Serialisation.ExclusiveRunsSerialise` proves that excluding goroutines per cluster would be enough for the
registry. `FindById` and `FindByIdWithActiveFalse` return the row with that key if it is active or inactive, or fail; rows
are deactivated, never deleted. Answers of the table, of client construction and of the broker are parameters. An
informer delivers the previously cached object as the old one. Argo's node phases Succeeded, Failed and Error are the
completed ones, and a node is never daemoned here. `strconv.Atoi`, `fmt` and `sort.Slice` behave as Go documents them. The
comparisons `err != errors.New(...)` (pkg/informer/K8sInformer.go:128, 245, 251) compare identities and are always
true, which only affects logging.

Results that differ from what one might expect:

- A cluster that is deactivated and comes back with another configuration before its removal was handled keeps its
  old informer, although every handler succeeds (`Reconciler.ReactivationGoesStale`), until an update event for it is
  handled or its row changes (`Reconciler.StaleInformerPersists`). `StepKeepsFresh` and `FreshnessExactly` give the exact
  condition.
- A removal whose row was not found (`Reconciler.RemovalCanBeMissed`) is never made up for by replayed adds and updates
  (`Reconciler.MissedRemovalPersists`); `CoverageExactly` says exactly which failures do harm.
- Overlapping starts of one cluster leak a channel, overlapping stops close one twice
  (`Serialisation.OverlappingStartsLeak`, `Serialisation.OverlappingStopsPanic`).
- Which of several failing sidecars is reported depends on the sort (`PodVerdict.SortDecides`); `PodVerdict.PossibleVerdicts`
  and `PodVerdict.OrderFreeExactly` say what can be reported and when there is no choice.
- A running container erases later finish times listed before it if the clocks disagree
  (`FinishTimes.SkewErasesFinishTime`); `FinishTimes.BoundsExactly` and `FinishTimes.OrderFreeTimeExactly` say when.
- Exit messages are ambiguous (`FailureMessages.ExitMessagesCollide`), exactly as `FailureMessages.SameTextExactly` says,
  but not where they are compared.
- Malformed cluster ids are read as 0 unless they overflow first (`Decimal.MalformedReads`).
- An application whose removal arrives as a tombstone, or is refused, stays alive for the subscriber
  (`AppStream.TombstoneLeavesGhost`); `AppStream.NoGhostsExactly` says exactly when.
- Sharing one event record changes no single handler call, but the queue then keeps apart, and the handlers are called
  twice for, what it would have merged (`ResourceEvents.SharingDefeatsDeduplication`), exactly in the cases of
  `ResourceEvents.MergesExactly`.

## Model

| member | source | states |
|---|---|---|
| ClusterTable.RequestsArrive | pkg/informer/K8sInformer.go:156-177 | a request secret reaches the add, update or delete handler exactly when its action and the kind of notification match, and with its own cluster id |
| ClusterTable.RequestOutcomes | pkg/informer/K8sInformer.go:233-257 | a request does to the cluster it names, and to no other, what it asks for: an addition starts it if active and unwatched, an update replaces what it runs by its current configuration, or drops it if it cannot be started again, a deleted secret stops it if its inactive row is found; failed lookups and other actions change nothing |
| ClusterTable.NotificationOutcomes | pkg/informer/K8sInformer.go:156-257 | the same for every object the secret informer may deliver: other types and objects that are no secrets have no effect, missing entries read as empty text |
| ClusterTable.HandlerFrame | pkg/informer/K8sInformer.go:202-308 | no handler changes whether or how any other cluster is watched |
| ClusterTable.StartOutcomes | pkg/informer/K8sInformer.go:295-315 | which of the four outcomes a start has; only success changes anything, and then the client is built for the row's own address and token, or in the cluster for default_cluster |
| ClusterTable.SyncOutcomes | pkg/informer/K8sInformer.go:259-277 | an update either fails before touching anything, or leaves the cluster unwatched, or watches it with its current configuration; it never reports "already exists" |
| ClusterTable.AddIsIdempotent | pkg/informer/K8sInformer.go:243-248 | replaying an add event on a watched cluster any number of times, with any answers, changes nothing |
| ClusterTable.StartupWatches | pkg/informer/K8sInformer.go:96-108 | startup leaves what is watched alone and adds exactly the listed clusters still active that got an answer and a client, each with its current configuration, duplicates allowed |
| Decimal.AtoiOfItoa | pkg/informer/K8sInformer.go:208-209 | every 64-bit cluster id survives being written into a secret and parsed |
| Decimal.MalformedReads | pkg/informer/K8sInformer.go:239-240 | text that is no number is taken for cluster 0, since the parse error is dropped, if and only if the digits before its first bad character fit 64 unsigned bits; otherwise for the 64-bit bound of its sign |
| Decimal.NumbersRead | pkg/informer/K8sInformer.go:239-240 | text that is a number is read as the nearest 64-bit integer |
| Decimal.ItoaIsCanonical | pkg/informer/K8sInformer.go:594 | an exit code is printed in decimal without leading zeros, with a minus sign if negative |
| Decimal.LongMalformedText | pkg/informer/K8sInformer.go:239-240 | twenty nines and a letter are such another text |
| Reconciler.StepKeepsActiveCovered | pkg/informer/K8sInformer.go:243-308 | one step keeps "active clusters are watched or about to be started" if and only if it is not a failed start with no second start pending |
| Reconciler.StepKeepsInactiveCovered | pkg/informer/K8sInformer.go:219-231 | one step keeps "watched clusters are active or about to be removed" if and only if it is not the last removal, with its row not found |
| Reconciler.CoverageExactly | pkg/informer/K8sInformer.go:202-308 | over any run, every disagreement between table and watched clusters has a correcting event pending at every moment if and only if no step is a losing one |
| Reconciler.Convergence | pkg/informer/K8sInformer.go:202-308 | from startup, for any interleaving, order and replays, if handlers succeed then once no event is pending the watched clusters are exactly the active ones |
| Reconciler.DrainedWatchesOnlyActive | pkg/informer/K8sInformer.go:219-231 | even if clients fail to build at will, no inactive cluster is watched once drained |
| Reconciler.DrainsInAnyOrder | pkg/informer/K8sInformer.go:202-257 | handling the pending events in any order ends with exactly the active clusters watched |
| Reconciler.ResyncIsHarmless | pkg/informer/K8sInformer.go:153-177 | once the watched clusters are those of the table, replaying any events in any order changes nothing |
| Reconciler.MissedRemovalPersists | pkg/informer/K8sInformer.go:219-224 | an inactive watched cluster stays watched over any run without a further removal or activation of it |
| Reconciler.RemovalCanBeMissed | pkg/informer/K8sInformer.go:219-224 | a run from startup that drains with an inactive cluster still watched, after one failed lookup |
| Reconciler.StepKeepsFresh | pkg/informer/K8sInformer.go:259-310 | one step keeps every informer on its current configuration, or due to be replaced or stopped, if and only if it neither revives a stale informer nor misses a row |
| Reconciler.FreshnessExactly | pkg/informer/K8sInformer.go:259-310 | the same over any run, whether or not clients can be built |
| Reconciler.DrainedStateIsTheTable | pkg/informer/K8sInformer.go:259-310 | if handlers succeed and no cluster comes back, the drained registry is the table: each active cluster with its current configuration and nothing else |
| Reconciler.ReactivationGoesStale | pkg/informer/K8sInformer.go:305-308 | a run in which everything succeeds and drains but a cluster is watched with its old configuration |
| Reconciler.StaleInformerPersists | pkg/informer/K8sInformer.go:250-308 | an active cluster watched with an old configuration stays so over any run without an update event for it or a change of its row, its add and remove events included |
| ClusterInformers.K8sInformerImpl.StartSystemWorkflowInformer | pkg/informer/K8sInformer.go:295-404 | the new registry and the error are those of the start handler; exactly on success one new open channel is registered; the open channels stay exactly the registered ones |
| ClusterInformers.K8sInformerImpl.StopSystemWorkflowInformer | pkg/informer/K8sInformer.go:279-286 | every channel ever created for the cluster is closed, no other channel changes, and the cluster is unwatched |
| ClusterInformers.K8sInformerImpl.SyncSystemWorkflowInformer | pkg/informer/K8sInformer.go:259-277 | the outcomes of the update handler; when the row is found all old channels of the cluster are closed, otherwise nothing changes |
| ClusterInformers.K8sInformerImpl.StopAllSystemWorkflowInformer | pkg/informer/K8sInformer.go:288-293 | the map is empty and every channel ever created is closed |
| ClusterInformers.K8sInformerImpl.BuildInformerForAllClusters | pkg/informer/K8sInformer.go:96-108 | watches what the startup loop watches; nothing changes if the rows cannot be listed; no channel is closed |
| ClusterInformers.K8sInformerImpl.HandleClusterDelete | pkg/informer/K8sInformer.go:219-231 | the effect of a removal, and failure exactly when the inactive row is not found |
| ClusterInformers.K8sInformerImpl.HandleClusterDeleteEvent | pkg/informer/K8sInformer.go:202-217 | the effect of a deleted secret on the registry, and when the callback returns early |
| ClusterInformers.K8sInformerImpl.HandleClusterChangeEvent | pkg/informer/K8sInformer.go:233-257 | the effect of an added or updated secret on the registry; only its own cluster is touched |
| ClusterInformers.K8sInformerImpl.OnNotification | pkg/informer/K8sInformer.go:156-177 | every notification has the effect of the event it stands for; objects that are no secrets change nothing |
| ClusterInformers.K8sInformerImpl.ChannelsPerCluster | pkg/informer/K8sInformer.go:279-320 | per cluster, channels created = channels closed + 1 if it is watched |
| ClusterInformers.K8sInformerImpl.ChannelsInTotal | pkg/informer/K8sInformer.go:279-320 | channels created = channels closed + size of the map |
| ClusterInformers.Lifetime | App.go:112-114 | startup, any notifications and shutdown: all channels ever created end closed, none closed twice |
| Serialisation.StepKeepsGood | pkg/informer/K8sInformer.go:279-308 | one half of a start or stop keeps the open channels exactly the registered ones if and only if it does not write on a reading that has become false |
| Serialisation.GoodExactly | pkg/informer/K8sInformer.go:279-308 | over any interleaving of goroutines no channel is leaked, shared or closed twice if and only if every write still finds what was read |
| Serialisation.ExclusiveRunsAreGood | pkg/informer/K8sInformer.go:75 | one goroutine at a time per cluster is enough for that, whatever the others do |
| Serialisation.CurrentRunsSerialise | pkg/informer/K8sInformer.go:279-308 | if every write finds what was read, an interleaving leaves the registry as the same handlers run one after the other, in the order of their writes |
| Serialisation.ExclusiveRunsSerialise | pkg/informer/K8sInformer.go:75 | one goroutine at a time per cluster makes starts and stops atomic as far as the registry can tell |
| Serialisation.OverlappingStartsLeak | pkg/informer/K8sInformer.go:305-308 | two overlapping starts leave an open channel that is not registered |
| Serialisation.OverlappingStopsPanic | pkg/informer/K8sInformer.go:279-286 | a run from the empty registry in which two overlapping stops close the same channel twice |
| FailureMessages.ExitTextInjective | pkg/informer/K8sInformer.go:594 | reason and exit code can be read back from "reason (exit code n)" for every reason |
| FailureMessages.ExitMessagesCollide | pkg/informer/K8sInformer.go:594-597 | two different records with the same text |
| FailureMessages.SameTextExactly | pkg/informer/K8sInformer.go:594-597 | for all records: reasons of equal length give the same text if and only if all parts are equal; otherwise if and only if the longer reason swallows the shorter one's text up to the colon and its message continues there |
| FailureMessages.ExitMessageDecodes | pkg/informer/K8sInformer.go:594-597 | a text without a message, whose reason has no colon, is produced by its own reason and code only |
| FailureMessages.WaitingTextNames | pkg/informer/K8sInformer.go:582 | container name, and reason with message, can be read back from the text of a container that never started |
| FailureMessages.KilledTextExactly | pkg/informer/K8sInformer.go:594-597 | the re-trigger text is produced by exactly one reason, code and message |
| FailureMessages.OtherTextsDiffer | pkg/informer/K8sInformer.go:582 | the other formats never produce it |
| PodVerdict.SucceedsExactly | pkg/informer/K8sInformer.go:575-622 | success if and only if no container waits and all non-zero exits are 137 or 143 of containers not named init, main or wait |
| PodVerdict.PhaseSaysWho | pkg/informer/K8sInformer.go:575-615 | the first decisive container is reported: Failed exactly for the exit of a container other than init and wait, Error for everything else; the text, spelled out, is that of its waiting state, else that of its exit |
| PodVerdict.PossibleVerdicts | pkg/informer/K8sInformer.go:557-616 | the verdicts reachable over all permutations the sort may produce are exactly those of a decisive container to which no decisive one is preferred, by names: main, then wait, then all others alike; init containers first |
| PodVerdict.MainThenWaitThenRest | pkg/informer/K8sInformer.go:557-571 | for every permutation the sort may produce, if no init container decides: a decisive main container is reported, else a decisive wait container, else some decisive container, else success |
| PodVerdict.OrderFreeExactly | pkg/informer/K8sInformer.go:570-573 | the verdict is the same for every permutation if and only if an init container decides or all most preferred decisive containers agree |
| PodVerdict.SortDecides | pkg/informer/K8sInformer.go:570-573 | two sidecars that exited with 1 and 2, two sorted permutations, two different verdicts |
| PodVerdict.UniqueNamesSettle | pkg/informer/K8sInformer.go:560-573 | unique names and at most one failing sidecar are enough for order freedom |
| PodVerdict.VerdictFrame | pkg/informer/K8sInformer.go:575-616 | only the decisive containers count, the init ones in order and the others in any order |
| PodVerdict.IrrelevantContainer | pkg/informer/K8sInformer.go:575-616 | inserting or deleting a container that is not decisive, anywhere, never changes the possible verdicts |
| FinishTimes.GetLatestFinishedAt | pkg/informer/K8sInformer.go:503-513 | the loop computes `Latest` of the init containers followed by the others |
| FinishTimes.LatestIsMaximum | pkg/informer/K8sInformer.go:503-513 | the result is the maximum of the last clock reading (zero without one) and the finish times recorded after it |
| FinishTimes.BoundsExactly | pkg/informer/K8sInformer.go:506-510 | it bounds every finish time if and only if no earlier-listed finish time exceeds that reading and all later finish times |
| FinishTimes.LatestWithoutSkew | pkg/informer/K8sInformer.go:503-513 | with no finish time in the future: the last reading while a container runs, else the latest finish time, whatever the exit codes, zero if none |
| FinishTimes.SkewErasesFinishTime | pkg/informer/K8sInformer.go:506-507 | finished at 10, then one running at 5: the result is 5 |
| FinishTimes.LatestIgnoresOrder | pkg/informer/K8sInformer.go:503-513 | for a fixed reading, if nothing is running or nothing finished after it, two orders of the containers give the same result |
| FinishTimes.OrderFreeTimeExactly | pkg/informer/K8sInformer.go:503-513 | for a fixed reading all orders give the same result if and only if nothing is running or nothing finished after it |
| FinishTimes.SortedTimeOrderFreeExactly | pkg/informer/K8sInformer.go:503-513 | for a fixed reading and over exactly the orders the sort can leave, while a regular container runs: the same result in all of them if and only if no finish time in the last running rank is later than the reading and everything behind that rank |
| FinishTimes.SortedTimeOrderFree | pkg/informer/K8sInformer.go:503-513 | while no regular container runs the sort never makes a difference |
| FinishTimes.LatestIgnoresClock | pkg/informer/K8sInformer.go:503-513 | while nothing runs neither order nor clock matters |
| PodStatus.PhaseReported | pkg/informer/K8sInformer.go:449-468 | what each pod phase is reported as, for every pod, and with which message; success exactly for pods that succeeded or failed with harmless containers and no message |
| PodStatus.WorkflowFollowsNode | pkg/informer/K8sInformer.go:625-643 | for any node status: running while it is pending, else in its phase; finished exactly when it has finished; the node is filed under the pod and otherwise unchanged |
| PodStatus.StatusIsCoherent | pkg/informer/K8sInformer.go:449-501 | for every pod the published workflow status is never pending, has one node keyed, identified and named by the pod, with its template, owner and exit code, equal messages and equal finish times: the latest finish time when completed, zero otherwise |
| PodStatus.PendingReasonIsFirst | pkg/informer/K8sInformer.go:524-549 | a pending pod is explained by its first waiting container, else its first unschedulable condition, else not |
| PodStatus.OwnerIsFirstJob | pkg/informer/K8sInformer.go:646-654 | the boundary id is the first Job owner, else the pod's name |
| PodStatus.ExitCodeIsFirstMain | pkg/informer/K8sInformer.go:515-522 | the output exit code is that of the first terminated main container, and there is none without one |
| PodStatus.ExitCodeMatchesMessage | pkg/informer/K8sInformer.go:515-522 | when the main container decides by its exit, the output exit code is the one in the message |
| PodStatus.ExitCodeIgnoresOrder | pkg/informer/K8sInformer.go:515-522 | with one main container the output exit code is the same before and after any sort |
| PodStatus.ReassessmentAgrees | pkg/informer/K8sInformer.go:570-573 | if the verdict is settled and there is one main container, assessing the same cached pod again gives the same phase, message and exit code, whatever the two sorts did, and the same node status altogether if nothing is running |
| PodStatus.RetriggerExactly | pkg/informer/K8sInformer.go:416-433 | a deletion is a re-trigger if and only if the pod is gone or going, its phase is Failed, and its own message is the marker or its first decisive container is a killed init, main or wait container |
| PodStatus.RetriggerStatus | pkg/informer/K8sInformer.go:368-374 | what is published for it is a failure saying "pod deleted", with finish time and exit code unchanged |
| PodStatus.RetriggerIgnoresOrder | pkg/informer/K8sInformer.go:416-433 | if the verdict is settled, whether a deletion is a re-trigger does not depend on the sort |
| PodInformer.SortByRank | pkg/informer/K8sInformer.go:560-571 | a sorted permutation and nothing more |
| PodInformer.InferFailedReason | pkg/informer/K8sInformer.go:551-623 | the verdict of the first decisive container of the sorted list; the slice is left permuted, or untouched if the pod has a message |
| PodInformer.AssessNodeStatus | pkg/informer/K8sInformer.go:449-501 | the node status of the pod as its slice is left; the slice changes only for failed pods without a message |
| PodInformer.AssessTwice | pkg/informer/K8sInformer.go:323-333 | with unique names and at most one failing sidecar two assessments agree |
| PodInformer.PodEventHandler.PublishedUnderItsType | pkg/informer/K8sInformer.go:406-414 | a status is published once, under the topic of the workflow type in the pod's label, which is also its node's template, if and only if that type is ci or cd and there is a client that accepts it |
| PodInformer.PodEventHandler.OnPodUpdate | pkg/informer/K8sInformer.go:323-357 | publishes the status of the slice as it is left, once, on the topic of its workflow type, or nothing; the slice is left sorted for failed pods without a message and untouched otherwise; everything published stays under the topic of its type |
| PodInformer.PodEventHandler.OnPodDelete | pkg/informer/K8sInformer.go:359-398 | publishes only re-triggers, as failures saying "pod deleted"; the slice is left as by an update |
| PodInformer.UpdateTwice | pkg/informer/K8sInformer.go:323-357 | with unique names and at most one failing sidecar, two updates of one cached pod publish the same topic, phase, message and exit code, and equal statuses if nothing is running, whichever of them the broker accepts |
| AppStream.Informer.OnUpdate | pkg/controller/informer.go:153-188 | appends the update message exactly when the filter lets it pass and the broker accepts it |
| AppStream.ChangeIsTold | pkg/controller/informer.go:158-181 | a change adds one message with the new object exactly when it is accepted, the object has a deployment, and that is the first one or revision, health or sync status differ from before; otherwise none |
| AppStream.MessagesAreDelivered | pkg/controller/informer.go:153-195 | over any run the messages are those of distinct steps, in the order of these, each carrying the very object its step delivered; an update always one with a deployment |
| AppStream.HeldIsDelivered | pkg/controller/informer.go:158-195 | after any run, what the subscriber holds to exist is an object the informer delivered, with a deployment |
| AppStream.LosslessIsUpToDate | pkg/controller/informer.go:158-181 | losing nothing means, spelled out on the log: the last update of each deployed application since it was added shows its present revision, health and sync status, or none was sent and they are as they were then |
| AppStream.RemovalIsTold | pkg/controller/informer.go:189-195 | after any run, a removed application's deletion follows the point where it was added if and only if its final object was delivered and accepted; otherwise the subscriber keeps going by the last message |
| AppStream.StepLeavesNoGhost | pkg/controller/informer.go:189-195 | one step keeps "what the subscriber holds to exist does exist" if and only if it is not the removal of an application it was told about that comes as a tombstone or is refused |
| AppStream.NoGhostsExactly | pkg/controller/informer.go:145-195 | the same over any run of interleaved applications |
| AppStream.TombstoneLeavesGhost | pkg/controller/informer.go:189-195 | a run from the start in which a deployed application is told about, its removal is a tombstone, and the subscriber still holds it |
| AppStream.StepKeepsLossless | pkg/controller/informer.go:158-181 | one step keeps the subscriber up to date about every deployed application if and only if it is not refused news |
| AppStream.FilterIsExact | pkg/controller/informer.go:158-181 | comparing old and new object is as good as comparing with what was last published; a repetition is published only for a new deployment |
| AppStream.LosslessExactly | pkg/controller/informer.go:145-181 | over any run of interleaved applications nothing tracked is lost if and only if no news is refused |
| AppStream.LosslessNeverRepeats | pkg/controller/informer.go:158-181 | over such a run no message repeats what was last told, except after the application had lost its deployments |
| AppStream.FilteredStreamLosesNothing | pkg/controller/informer.go:145-181 | from the start, if all messages are accepted, every deployed application is at every moment as last told, or as added if nothing was sent, and nothing is repeated |
| ResourceEvents.Callbacks.On | pkg/controller/controller.go:74-103 | after any history the captured record and the queued events are those of the history |
| ResourceEvents.RecordIs | pkg/controller/controller.go:72-103 | key, type and kind belong to the last callback, the namespace to the last deletion, queued or not, empty if none |
| ResourceEvents.HandlersHear | pkg/controller/controller.go:180-217 | exactly the callbacks with a key are queued, in order, and processing each calls the created, updated or deleted handler of its kind with its own key and namespace; none for unfetched objects and old additions |
| ResourceEvents.SharingIsHarmless | pkg/controller/controller.go:180-217 | over every history, entry by entry and before the queue merges equal entries, handlers are called as if each callback had its own record |
| ResourceEvents.RecordsEqualExactly | pkg/controller/controller.go:72-103 | the shared record is the same after two histories if and only if their last callbacks fill equal records and their last deletions were in the same namespace |
| ResourceEvents.MergesExactly | pkg/controller/controller.go:72-103 | two queue entries that own records would make equal are equal if and only if the last deletion before each was in the same namespace; no others are |
| ResourceEvents.SharingDefeatsDeduplication | pkg/controller/controller.go:72-91 | the same update repeated after an unrelated deletion is a different queue item |
| RetryProtocol.Controller.ProcessItem | pkg/controller/controller.go:180-218 | the handler call of the event, and failure exactly when the object cannot be fetched |
| RetryProtocol.Controller.ProcessNextItem | pkg/controller/controller.go:150-172 | takes the first item, calls processItem once, and with whatever happened to the queue meanwhile retries it below the limit and forgets it otherwise |
| RetryProtocol.Controller.RunWorker | pkg/controller/controller.go:144-148 | with callbacks, delays, other workers and shutdown acting before and during each round: what happens to the queue is a run, in which this worker starts at most six items per event; it ends only when the queue is empty and shut down; from a shutdown on and undisturbed it processes what is listed, once each and in order, and ends |
| RetryProtocol.StepKeepsAccounted | pkg/controller/controller.go:150-172 | the queue lists each free dirty item once, counters never exceed five, and every counter belongs to an item still somewhere |
| RetryProtocol.PotentialPays | pkg/controller/controller.go:150-172 | each start costs one unit of potential, a new event adds at most six, nothing else adds any |
| RetryProtocol.RetryBound | pkg/controller/controller.go:36 | in every run, with any number of workers and shared failure counters, processItem is called at most six times per enqueued event |
| RetryProtocol.RetryBoundIsTight | pkg/controller/controller.go:157-169 | an event that always fails is processed exactly six times and leaves nothing behind |
| RetryProtocol.FinishOutcomes | pkg/controller/controller.go:157-169 | a success and the failure after five clear the counter and end it, an earlier failure counts and is delayed; an item needed again is listed again; nothing else changes |
| RetryProtocol.CounterIsStreak | pkg/controller/controller.go:157-169 | over any run the counter of an item is its number of failures in a row, starting anew with a success or the sixth failure, whatever else happens |
| RetryProtocol.FailedIsRetried | pkg/controller/controller.go:161-164 | up to its fifth failure in a row, a failed item is taken again in every run that comes to rest without a shutdown |
| RetryProtocol.MeasureDecreases | pkg/controller/controller.go:150-172 | starting, ending, delivering and merging strictly decrease one measure, a new event adds at most 18, a shutdown nothing |
| RetryProtocol.WorkIsBounded | pkg/controller/controller.go:144-172 | termination over all runs with any number of workers: at most 18 such steps per new event |
| RetryProtocol.RestIsClean | pkg/controller/controller.go:150-172 | where a run can go on only by new events or a shutdown nothing is left to process, and before a shutdown nothing is delayed and all counters are zero |
| RetryProtocol.EnqueuedIsProcessed | pkg/controller/controller.go:74-103 | an event enqueued before a shutdown, at any point of any run, is taken by some worker afterwards if the run comes to rest |
| RetryProtocol.ServedInTurn | pkg/controller/controller.go:144-151 | first come, first served: over any run the listed items are the next to be taken, in the listed order |
| RetryProtocol.RunIsInterference | pkg/controller/controller.go:144-148 | every run of the others is covered by what may happen around and during a round of the worker |

## Left out

- RetryProtocol.Controller.RunWorker: how long a worker stays blocked; a round with nothing to take passes without effect.
- Concurrency inside a handler beyond reading the registry and then writing it (`Serialisation`): Go's maps also fail on concurrent writes as such.
- Construction of clients, TLS, NATS, REST and JSON: success or failure is a parameter, publishing appends to a log.
- The database driver: a failing query and a missing row have the same effect and are one outcome.
- The management cluster's secret informer and its own stop channel (pkg/informer/K8sInformer.go:136-179), which is never closed.
- startSystemWorkflowInformerForCluster (pkg/informer/K8sInformer.go:110-134): nothing calls it.
- Progress annotations, host node name, pod IP, error counters and logging: copied or written, never read.
- The time stamp sent with application messages (pkg/controller/informer.go:155, 191): a copy of the clock.
- Workflow informers and configuration in pkg/controller/informer.go:78-142 and 205-242: pass-through.
- The capacity of the init status slice that `append` may write to (pkg/informer/K8sInformer.go:505, 573): concatenation makes a new list.
- The delay lengths of the rate limiter: a delay may expire at any time; after shutdown none does.
- Chat handlers, commands, configuration files and the router: input and output only.
