# Verified models of Arktos controllers

Dafny models of the parts of Arktos (a multi-tenant fork of Kubernetes) whose
correctness does not show in one function body: state shared between
goroutines, loops that steer a cluster, two stores that have to agree, patches
computed from stale snapshots. Each operation is modelled with the branches,
constants and error paths of the Go code, and properties are proved for all
inputs, all interleavings or all runs.

`dafny verify dfyconfig.toml` checks the whole project.

## How the files fit together

| files | what they model |
|---|---|
| `PodWorkers`, `PodWorkersRefinement`, `PodWorkersImpl` | the kubelet's pod workers: the protocol between UpdatePod, ForgetWorker and the per-pod goroutines |
| `RollingUpdate`, `RollingUpdateImpl`, `Relabel` | kubectl's rolling updater: the scaling loop, its progress, the rollback, and the relabelling of a live controller |
| `Expectations`, `ExpectationsSteps`, `ExpectationsImpl` | controller expectations with tracked UIDs, one operation at a time and with the lock-free ones in between |
| `PodOrderings`, `Orders`, `StableSort` | the comparators of pods and replica sets; orders and stable sorting |
| `ControllerRef`, `ControllerRefImpl` | the controller reference manager against an API server |
| `NodeQueue` | the kubemark controller's bounded node creation queue |
| `Keyring` | the registry keyring |
| `NodeStatus` | when the kubelet may skip a node status report |
| `ContainerStatus`, `ContainerStatusImpl`, `PodPhase` | container statuses from runtime records, and the pod phase from the statuses |

Code that only computes is modelled by functions, concurrent protocols by step
functions on a state with runs over all interleavings, and code that changes
objects by classes. The `Impl` modules (and the classes in `Relabel`,
`NodeQueue`, `Keyring` and `NodeStatus`) keep the loops and the in-place
updates of the source; each method is proved against the function or the step
that specifies it, about which the properties are proved, or its contract states
the property outright.

What is outside the modelled code is a parameter: readiness of pods, failures,
conflicts and cancellations come as scripts, the clock as a number, URL parsing
and globbing as functions. A finite script is the prefix of a longer run, so a
property of all scripts is a safety property of all runs.

## Where the code differs from what it says

- The comment on OnCompleteFunc (`pkg/kubelet/pod_workers.go:63-68`) says that a
  kill request is always delivered. A second kill that arrives while the first
  one is pending is dropped (`SecondKillIsLost`), and so is a pending kill whose
  worker is forgotten (`ForgottenKillIsLost`). Over all runs, a kill has been
  processed by the time the pod is idle if and only if the pod was idle when it
  came in, or no other kill was pending and the worker is not forgotten before
  the sync in flight ends (`KillIsDeliveredIff`).
- The progress percentage of a rolling update is computed in int32. For a
  controller that has to grow, all runs report percentages in 0..100 if and only
  if the number of pods to create times 100 fits an int32
  (`ProgressInRangeIff`); beyond that `ReportsNegative` gives a run that reports
  a negative one. `OversizedInRangeIff` is the condition for a controller above
  the desired size.
- A new controller that is already above the desired size is brought down only
  while old pods and some surge are left; otherwise a rollout with ready pods
  removes the old pods and never completes (`ReadyRolloutCompletesIff`).
- A terminal pod phase is meant to stay. An eviction returns before that guard:
  over all runs of syncs Succeeded stays exactly until the first eviction, which
  turns it into Failed (`TerminalPhaseOverRuns`).
- A known termination disappears from a container's status if and only if the
  runtime has records of the container and the one or two newest are not of a
  dead instance (`TerminationIsLostIff`), as when the dead instance has been
  collected and its successor runs (`CollectedTerminationIsLost`).
- Converting container statuses again gives the same result except when an old
  terminated status meets a start failure and the runtime has no record
  (`ConversionSettles`, with the input of `ImageIdIsLostLate`).
- Growing a kubemark node group by more nodes than the free slots and the one
  entry that an idle worker can still take locks the controller up for good
  (`UnlocksIff`, `FreshControllerLocksUpIff`). A failed creation stays in the
  queue counter for ever (`CounterIsExact`). The target size is read and the
  group enlarged in two critical sections, and two callers may both add the
  difference (`TwoCallersOvershoot`). The requested size is reached if and only
  if what other callers added in between equals what was created and is not, or
  not any more, listed (`TargetIsRequestedIff`); so a single caller reaches it
  while the lister stands still (`UndisturbedReaches`).
- ExpectCreations overwrites the deletion counter of a UID tracking expectation
  and leaves its UIDs: the two stores agree afterwards if and only if there was
  an entry with nothing outstanding (`CreationsKeepAgreementIff`).
- A TODO at `Fulfilled` wonders why two separate atomic loads are good enough.
  Over every interleaving of the operations the counters of an object only fall,
  so that every answer is that of one moment (`FulfilledIsOfOneMoment`).
  In general, for a given course of the creation counter the answer is that of one moment,
  whatever the deletion counter does, if and only if the creation counter is not
  positive at the second load when it was not positive at the first
  (`FulfilledIsLinearizableIff`).
- The clean-up after relabelling lists pods by the selector that the client
  copied after its first update. If other clients have replaced the selector
  since, it deletes pods that are not the controller's any more, as in the run
  of `CleanUpTakesForeignPods`. It deletes only the controller's own, whatever
  pods there are, if and only if the copied selector asks for everything that
  the present one asks for (`CleanUpIsOwnIff`).
- AbortRollingUpdate swaps the two controllers even if it then returns an error
  (`Config.Abort`).

## Model

| member | source | states |
|---|---|---|
| PodWorkers.OneOutstandingFrame | pkg/kubelet/pod_workers.go:205-295 | a step on another pod's channels and flag keeps "one update outstanding exactly when the flag is set" for this pod |
| PodWorkers.EnsureWorkerKeepsInv | pkg/kubelet/pod_workers.go:211-228 | creating the channel of a pod keeps the invariant, also while channels of forgotten generations still hold updates |
| PodWorkers.SendToQuietPod | pkg/kubelet/pod_workers.go:212-232 | a send to a pod with nothing outstanding finds an open channel with a free slot and makes the update the sole outstanding one |
| PodWorkers.SubmitKeepsInv | pkg/kubelet/pod_workers.go:205-240 | UpdatePod never panics on a closed channel, never blocks with the lock held, and keeps the invariant |
| PodWorkers.ForgetKeepsInv | pkg/kubelet/pod_workers.go:242-268 | closing channels while their updates are still outstanding keeps the invariant |
| PodWorkers.HolderIsSole | pkg/kubelet/pod_workers.go:162-200 | a channel that holds an update is the only one of its pod that does, over all generations, and the flag is set |
| PodWorkers.ReceiveKeepsInv | pkg/kubelet/pod_workers.go:162-164 | taking an update out of a channel, open or closed, keeps the invariant |
| PodWorkers.FinishKeepsInv | pkg/kubelet/pod_workers.go:270-295 | the send in checkForUpdates always finds a registered open channel with a free slot, also after a forget, and keeps the invariant |
| PodWorkers.NextKeepsInv | pkg/kubelet/pod_workers.go:162-295 | no step of any thread panics or blocks from a state of the invariant, and every step keeps it |
| PodWorkers.Exec | pkg/kubelet/pod_workers.go:162-295 | the same over every interleaving of callers and goroutines |
| PodWorkers.FlagCountsOutstanding | pkg/kubelet/pod_workers.go:112-125 | in every reachable state a pod has one outstanding update if its flag is set and none otherwise |
| PodWorkers.OutstandingOfInv | pkg/kubelet/pod_workers.go:112-125 | the invariant counts the outstanding updates over all generations of channels |
| PodWorkers.NoTwoSyncs | pkg/kubelet/pod_workers.go:162-200 | in every reachable state at most one sync of a pod runs, also across a forgotten worker and its replacement |
| PodWorkersRefinement.Choose | pkg/kubelet/pod_workers.go:233-239 | what is kept of a list of submissions is the first kill in it, else the last submission |
| PodWorkersRefinement.ChooseAppend | pkg/kubelet/pod_workers.go:233-239 | keeping one entry and replacing it unless it is a kill computes that choice one submission at a time |
| PodWorkersRefinement.SubmitRefines | pkg/kubelet/pod_workers.go:205-240 | UpdatePod is a submission of the one-pod machine and invisible to other pods |
| PodWorkersRefinement.ForgetRefines | pkg/kubelet/pod_workers.go:242-268 | forgetting drops what waits and leaves the update in flight |
| PodWorkersRefinement.ReceiveRefines | pkg/kubelet/pod_workers.go:162-164 | the update a goroutine starts on is the one in flight on the one-pod machine |
| PodWorkersRefinement.FinishRefines | pkg/kubelet/pod_workers.go:270-295 | finishing a sync puts the chosen waiting update in flight or leaves the pod idle |
| PodWorkersRefinement.StepRefines | pkg/kubelet/pod_workers.go:162-295 | each step of each thread is at most one step of a pod's machine with the same processed update |
| PodWorkersRefinement.RunRefines | pkg/kubelet/pod_workers.go:162-295 | every interleaving, seen from one pod, is a run of the one-pod machine that processes the same updates in the same order |
| PodWorkersRefinement.IdleMeansEmpty | pkg/kubelet/pod_workers.go:286-295 | in every reachable state a pod without a flag has nothing pending and nothing outstanding |
| PodWorkersRefinement.FirstProcessedIsInFlight | pkg/kubelet/pod_workers_test.go:153-163 | the first update of an idle pod is the first one processed, whatever comes after it |
| PodWorkersRefinement.PendingKillIsNext | pkg/kubelet/pod_workers_test.go:166-200 | with a kill pending the next update processed is the first pending kill, whatever is submitted later, unless the worker is forgotten |
| PodWorkersRefinement.DrainProcessesLast | pkg/kubelet/pod_workers.go:286-295 | a busy pod that is left alone until idle processes last the update chosen from what waited |
| PodWorkersRefinement.LastSubmissionWins | pkg/kubelet/pod_workers_test.go:153-163 | after the last submission, once idle, the last update processed is that one, or the first pending kill if there was one |
| PodWorkersRefinement.SecondKillIsLost | pkg/kubelet/pod_workers.go:63-68 | a run in which a second kill leaves no trace, against the comment |
| PodWorkersRefinement.ForgottenKillIsLost | pkg/kubelet/pod_workers.go:242-253 | a run in which a pending kill leaves no trace because its worker is forgotten |
| PodWorkersRefinement.LostIsNeverProcessed | pkg/kubelet/pod_workers.go:233-239 | an update that is neither in flight nor next in line is never processed unless submitted again |
| PodWorkersRefinement.InFlightIsProcessed | pkg/kubelet/pod_workers.go:162-200 | the update in flight has been processed by the time the pod is idle, whatever is submitted or forgotten |
| PodWorkersRefinement.NextKillIsProcessedIff | pkg/kubelet/pod_workers.go:286-295 | a kill that is next in line is processed if and only if no forget comes before the end of the sync in flight |
| PodWorkersRefinement.PodKillIsProcessedIff | pkg/kubelet/pod_workers.go:63-68 | on the one-pod machine: a kill submitted once is processed if and only if the pod was idle, or no kill waited and no forget comes before the end of the sync in flight |
| PodWorkersRefinement.KillIsDeliveredIff | pkg/kubelet/pod_workers.go:63-68 | the same over all runs of the pod workers: the exact condition under which the promised delivery of a kill holds |
| PodWorkersRefinement.PendingKillIsNextInRuns | pkg/kubelet/pod_workers_test.go:166-200 | over all runs of the pod workers: while a sync runs with a kill pending, that kill is the next update processed, unless the worker is forgotten |
| PodWorkersRefinement.LastSubmissionWinsInRuns | pkg/kubelet/pod_workers_test.go:153-163 | over all runs of the pod workers: after the last submission, once idle and not forgotten, the last update processed is that one, or the kill pending when it came in |
| PodWorkersRefinement.IdleIsReached | pkg/kubelet/pod_workers.go:162-295 | from every state of the invariant at most four steps of its goroutines make a working pod idle, so the guarantees about idle pods are not empty |
| PodWorkersImpl.Workers.constructor | pkg/kubelet/pod_workers.go:147-160 | the new object is the initial state and meets the invariant |
| PodWorkersImpl.Workers.SendTo | pkg/kubelet/pod_workers.go:232 | a send that neither panics nor blocks is the send of the model |
| PodWorkersImpl.Workers.UpdatePod | pkg/kubelet/pod_workers.go:205-240 | the in-place code is the atomic submission step and keeps the invariant |
| PodWorkersImpl.Workers.RemoveWorker | pkg/kubelet/pod_workers.go:242-253 | the pod has no worker and no undelivered update afterwards whatever it had before, its open channel is closed with its content kept, and every other pod, channel and result is as before |
| PodWorkersImpl.Workers.ForgetNonExistingPodWorkers | pkg/kubelet/pod_workers.go:260-268 | the loop over the map, in any order, leaves no worker and no undelivered update of a pod that is not desired, and changes nothing of the desired ones |
| PodWorkers.ForgetAllForgets | pkg/kubelet/pod_workers.go:242-268 | in every reachable state, forgetting pods removes all their entries, closes exactly their channels, and leaves every other pod alone |
| PodWorkers.ForgetStepForgets | pkg/kubelet/pod_workers.go:242-268 | the same of the two forgetting steps of every interleaving, which always succeed |
| PodWorkersImpl.Workers.ReceiveUpdate | pkg/kubelet/pod_workers.go:162-164 | the received update moves from the slot to the sync |
| PodWorkersImpl.Workers.FinishSync | pkg/kubelet/pod_workers.go:270-295 | the in-place code is the atomic finishing step and keeps the invariant |
| PodWorkersImpl.ForgetTwice | pkg/kubelet/pod_workers.go:260-268 | forgetting pods one after the other forgets them all together |
| RollingUpdate.ScaledUpWithinSurge | pkg/kubectl/rolling_updater.go:327-356 | scaling up respects the surge limit, never overshoots the desired size and only gets nearer to it |
| RollingUpdate.ScaledDownKeepsAvailable | pkg/kubectl/rolling_updater.go:361-410 | a scale-down that changes old leaves old plus available new pods at or above the minimum |
| RollingUpdate.TurnIsSafe | pkg/kubectl/rolling_updater.go:273-313 | one turn keeps old falling, both counts non-negative, the total bounded and availability, whatever fails in it |
| RollingUpdate.RolloutIsSafe | pkg/kubectl/rolling_updater.go:270-313 | over every run with arbitrary readiness, errors, cancellation and timeouts: old never rises, the total stays within the larger of the initial total and desired plus surge, and no changing scale-down goes below the minimum |
| RollingUpdate.StallsExactly | pkg/kubectl/rolling_updater.go:273-313 | from any counts, a turn changes nothing if and only if new cannot move and too few new pods are ready to take an old one away, else the work left shrinks |
| RollingUpdate.ReadyNeverStallsIffCanMove | pkg/kubectl/rolling_updater.go:232-235 | with ready pods no pair of counts up to the desired size stalls if and only if Update's validation accepts the limits |
| RollingUpdate.ReadyRolloutCompletesIff | pkg/kubectl/rolling_updater.go:270-322 | with ready pods and no failures the loop completes, within as many turns as replicas are left to move and at the desired size with no old pods, if and only if new is not above the desired size, or old pods and some surge are left to bring it down |
| RollingUpdate.StuckAbove | pkg/kubectl/rolling_updater.go:327-356 | from all other counts no length of run completes |
| RollingUpdate.PercentageExactIff | pkg/kubectl/rolling_updater.go:250-268 | the reported percentage is the exact one if and only if the covered way times 100 fits an int32 |
| RollingUpdate.ReportsNegative | pkg/kubectl/rolling_updater.go:250-268 | past that limit there is an old size from which one quiet turn reports a negative percentage |
| RollingUpdate.ProgressInRangeIff | pkg/kubectl/rolling_updater.go:250-313 | for a controller that has to grow: every run from every old size reports percentages in 0..100 if and only if the pods to create times 100 fit an int32 |
| RollingUpdate.OversizedInRangeIff | pkg/kubectl/rolling_updater.go:250-313 | for a controller above the desired size: every run does if and only if no run brings it down or the wrapped product exceeds minus the goal |
| RollingUpdate.PercentageBounds | pkg/kubectl/rolling_updater.go:250-268 | within the limit the percentage grows as the distance shrinks and lies in 0..100 |
| RollingUpdate.SizesClose | pkg/kubectl/rolling_updater.go:270-313 | over every run from any counts the distance of the reported sizes to the desired size never grows |
| RollingUpdate.ProgressNeverFalls | pkg/kubectl/rolling_updater.go:250-313 | over every run from any counts, if the goal times 100 fits an int32, the reported percentages are in 0..100 and never fall |
| RollingUpdate.AbortRestores | pkg/kubectl/rolling_updater.go:656-678 | from wherever a run stopped, also one that continued an interrupted update, rolling back with ready pods restores the old controller to its recorded original size and empties the new one |
| RollingUpdateImpl.ScaleAndWait | pkg/kubectl/rolling_updater.go:413-419 | success returns a new object equal to the scaled one |
| RollingUpdateImpl.ScaleUp | pkg/kubectl/rolling_updater.go:327-356 | the new controller's replicas become the specified size without int32 overflow, an error occurs only if a scaling was tried |
| RollingUpdateImpl.ScaleDown | pkg/kubectl/rolling_updater.go:361-410 | the old controller's replicas become the specified size without int32 overflow, with exactly the list and scale errors |
| RollingUpdateImpl.RunTurn | pkg/kubectl/rolling_updater.go:273-313 | one turn on the objects reports and ends as the turn function says, whose verdicts have their exact conditions in TurnEndsIff; the two controllers stay distinct objects |
| RollingUpdateImpl.Run | pkg/kubectl/rolling_updater.go:270-313 | the loop on the objects has exactly the reports, verdict and final sizes of the rollout function, whose verdicts are characterized in RolloutEndsIff |
| RollingUpdate.ScalingGoesToTheLimit | pkg/kubectl/rolling_updater.go:327-410 | scaling up stops only at the desired size or when the surge is used up, scaling down only without old pods, at exactly the minimum available, or below it |
| RollingUpdate.TurnEndsIff | pkg/kubectl/rolling_updater.go:273-313 | each verdict of a turn if and only if the failing request, the cancellation, or a stall with the deadline passed comes first |
| RollingUpdate.RolloutEndsIff | pkg/kubectl/rolling_updater.go:270-313 | over all scripts, a run ends in an error, a cancellation or a timeout if and only if some turn meets that condition after turns that went on |
| RollingUpdate.ReportsTellTheRun | pkg/kubectl/rolling_updater.go:273-307 | the reports alternate between sizes after scaling up and after scaling down, each changing one controller only; two per turn of a run that goes on |
| RollingUpdate.LastReportIsFinal | pkg/kubectl/rolling_updater.go:270-313 | a run that goes on, completes or times out ends with the sizes of its last report |
| RollingUpdateImpl.RecordLosesNothing | pkg/kubectl/rolling_updater.go:785-808 | over all conflicts, failures and lost answers, recording the original size undoes nothing that others have done to the controller: only the annotation and the version change, and a successful answer is the server's state |
| RollingUpdateImpl.RecordSucceedsIff | pkg/kubectl/rolling_updater.go:785-808 | recording the original size succeeds for an undisturbed client and against up to three edits by others in a row, and fails against four; a lost first request or answer makes it fail |
| RollingUpdateImpl.LostReadsNeverSucceed | pkg/kubectl/rolling_updater.go:785-808 | a client whose object is out of date and whose reads after conflicts all get lost never succeeds and writes nothing |
| RollingUpdateImpl.RcServer.UpdateRcWithRetries | pkg/kubectl/rolling_updater.go:785-808 | the loop of at most four attempts ends as the recording function says |
| RollingUpdateImpl.Update | pkg/kubectl/rolling_updater.go:183-322 | each early error occurs if and only if its condition holds, among them every way in which recording the original size fails; otherwise the server has recorded the size that was read, and the run is the rollout from the size it answered, with validated limits |
| RollingUpdateImpl.StartsFromServer | pkg/kubectl/rolling_updater.go:207-224 | an update that records the original size starts from the size that the server had by then, a continued one from the size at hand |
| RollingUpdateImpl.Config.Abort | pkg/kubectl/rolling_updater.go:656-678 | the controllers are swapped in any case; if the original size is known it becomes the target and the aborted controller is marked for deletion |
| Relabel.RelabelKeepsPodsIff | pkg/kubectl/rolling_updater.go:692-704 | relabelling keeps every pod of a controller if and only if its selector does not ask for another value of the key |
| Relabel.ExtendedSelectorKeepsIff | pkg/kubectl/rolling_updater.go:746-753 | of the controller's pods the extended selector keeps exactly those with the label, so the pods are relabelled first and the clean-up needs a copy of the old selector |
| Relabel.Server.Interfere | pkg/kubectl/rolling_updater.go:706-777 | other clients create, delete and relabel pods and edit the controller; versions grow with every edit and the deployment key stays as it is |
| Relabel.Wait | pkg/kubectl/rolling_updater.go:706-777 | nothing other clients do breaks what the client has established so far |
| Relabel.StorePod | pkg/kubectl/rolling_updater.go:816-835 | the server takes the relabelled pod, and the recorded write does no harm |
| Relabel.PutPod | pkg/kubectl/rolling_updater.go:816-835 | an update from the server's version relabels the pod and does no harm, one from another version is a conflict, and a lost answer is an error |
| Relabel.RelabelPod | pkg/kubectl/rolling_updater.go:816-835 | at most four attempts, with a failing read falling back on the listed pod: success means that the pod carries the label, other pods see only other clients |
| Relabel.Apply | pkg/kubectl/rolling_updater.go:709-753 | the closure adds the key to one of the object's two maps in place |
| Relabel.StoreIsHarmless | pkg/kubectl/rolling_updater.go:751-757 | storing the edited template touches no pod, storing the extended selector orphans no pod that carries the label |
| Relabel.ExtensionIsHarmlessIff | pkg/kubectl/rolling_updater.go:751-757 | extending the selector does no harm if and only if every listed pod that the controller has carries the label at that moment |
| Relabel.StoreController | pkg/kubectl/rolling_updater.go:785-808 | the server takes the edit, and the recorded write does no harm |
| Relabel.PutController | pkg/kubectl/rolling_updater.go:785-808 | an update from the server's version stores the edit on top of the server's state, one from another version is a conflict, and no write does harm |
| Relabel.UpdateController | pkg/kubectl/rolling_updater.go:785-808 | at most four attempts, with a failing read falling back on the copy made in advance: success means that the server holds the edit on top of whatever others have written, and the returned object is a new decoded copy of it |
| Relabel.RelabelAll | pkg/kubectl/rolling_updater.go:727-741 | success means that every listed pod that still exists carries the label |
| Relabel.DeletePod | pkg/kubectl/rolling_updater.go:767-774 | one pod outside the first listing is deleted, or nothing |
| Relabel.DeleteUnlabelled | pkg/kubectl/rolling_updater.go:767-774 | only listed pods without the label are deleted, and on success none of them is left |
| Relabel.ListPods | pkg/kubectl/rolling_updater.go:721-726 | the first listing is exactly the pods that match the client's selector at a moment of the server |
| Relabel.CleanUp | pkg/kubectl/rolling_updater.go:759-774 | at a moment of the server with the key in the selector, the pods of the copied selector are listed; only those without the label are deleted, and on success none of them is left; if nothing fails and nobody touches the pods, exactly those are deleted |
| Relabel.AddDeploymentKey | pkg/kubectl/rolling_updater.go:706-777 | whatever other clients do apart from the key, in every run, also one that stops halfway: the copied selector is one that the server had after a write of the client, the first listing is of a moment with the key in the template and not in the selector, the second of one with the key in the selector; no write of the client deletes a pod of the first listing or takes one away from the controller, and it deletes only unlabelled pods of the copied selector; on success none of those it saw is left, the listed pods carry the label, and selector and template have the key; with nobody else about it succeeds |
| Relabel.CleanUpIsOwnIff | pkg/kubectl/rolling_updater.go:746-774 | the clean-up deletes only pods that the controller had before its selector was extended, if and only if the copied selector asks for everything that selector asked for |
| Relabel.CleanUpTakesForeignPods | pkg/kubectl/rolling_updater.go:759-774 | a run in which others replace the selector before the second listing and a pod that the controller does not select any more is deleted |
| Expectations.DeletionOpKeepsAgreement | pkg/controller/controller_utils.go:344-387 | each deletion operation keeps the two stores in agreement |
| Expectations.DeletionsKeepAgreement | pkg/controller/controller_utils.go:344-387 | over every sequence of deletion operations, in any order and with repetitions, both stores have the same keys and the counter is the number of outstanding UIDs |
| Expectations.SatisfiedIffNothingOutstanding | pkg/controller/controller_utils.go:187-219 | after any deletion operations the controller is woken if and only if no UID is outstanding or the expectations are older than the timeout |
| Expectations.CountdownIsExact | pkg/controller/controller_utils.go:344-373 | after expecting and observing deletions the deletion counter is the number of distinct expected UIDs not observed, the creation counter is zero and the time is that of the expectation |
| Expectations.CreationCountdown | pkg/controller/controller_utils.go:187-230 | after ExpectCreations and any observations the controller is satisfied if and only if as many creations have been observed as are expected, or the expectations are more than five minutes old |
| Expectations.OpTouchesOneKey | pkg/controller/controller_utils.go:344-387 | an operation changes the entries of its own key only, in both stores |
| Expectations.DeletedIsGone | pkg/controller/controller_utils.go:377-387 | deleted expectations are in neither store and the controller is satisfied at once |
| Expectations.ObserveRemoves | pkg/controller/controller_utils.go:363-373 | observations remove exactly the observed UIDs, duplicates and strangers do nothing |
| Expectations.MixedOpsStayBounded | pkg/controller/controller_utils.go:222-243 | with creations mixed in, the counter never exceeds the number of outstanding UIDs, over every sequence |
| Expectations.CreationsKeepAgreementIff | pkg/controller/controller_utils.go:222-230 | a creation expectation, for any number of creations, keeps the stores in agreement if and only if there is an entry with nothing outstanding |
| Expectations.FulfilledUnderLowering | pkg/controller/controller_utils.go:286-289 | if counters only fall during the call, "true" holds at its return and "false" held at its start |
| Expectations.FulfilledIsLinearizableIff | pkg/controller/controller_utils.go:286-289 | for a given course of the creation counter the answer is that of one moment for every course of the deletion counter, if and only if the creation counter is not positive at the second load when it was not positive at the first |
| Expectations.ObservingIsLinearizable | pkg/controller/controller_utils.go:286-289 | in particular while creations are only observed |
| Expectations.FallsLate | pkg/controller/controller_utils.go:286-289 | a deletion counter that breaks the answer whenever that condition fails |
| ExpectationsSteps.NextKeepsInv | pkg/controller/controller_utils.go:222-387 | every half-step of the locked operations, and every operation without the lock in between, keeps the bounds on the deletion counter, also when a counter object is replaced after it was looked up |
| ExpectationsSteps.WaitingIsJustified | pkg/controller/controller_utils.go:344-387 | over every interleaving, whenever the lock is free, a controller waits for no more deletions than UIDs are outstanding |
| ExpectationsSteps.DeletionsAgreeWhenUnlocked | pkg/controller/controller_utils.go:344-387 | over every interleaving without creation expectations, whenever the lock is free, the stores have the same keys and the counter is the number of outstanding UIDs |
| ExpectationsSteps.DeletionCountdownInRuns | pkg/controller/controller_utils.go:344-373 | over every interleaving without creation expectations, whenever the lock is free, a controller is satisfied if and only if no UID is outstanding or its expectations are too old |
| ExpectationsSteps.CountersFall | pkg/controller/controller_utils.go:222-387 | over every interleaving the counters of one object never rise |
| ExpectationsSteps.FulfilledIsOfOneMoment | pkg/controller/controller_utils.go:286-289 | over every interleaving between the two loads, a "true" still holds at the second load and a "false" is that of one of the two moments |
| ExpectationsSteps.CreationCountdownInRuns | pkg/controller/controller_utils.go:187-230 | the same countdown over every interleaving, as long as the counters have not been replaced or dropped |
| ExpectationsImpl.NewString | pkg/controller/controller_utils.go:349 | the set of the keys, duplicates counted once |
| ExpectationsImpl.UIDTracking.SetExpectations | pkg/controller/controller_utils.go:222-226 | the key gets a new counter object; other keys and old objects are untouched |
| ExpectationsImpl.UIDTracking.LowerExpectations | pkg/controller/controller_utils.go:237-243 | lowering through the shared object changes this key's counters only |
| ExpectationsImpl.UIDTracking.ExpectDeletions | pkg/controller/controller_utils.go:344-360 | both stores change as the operation on the two maps says |
| ExpectationsImpl.UIDTracking.DeletionObserved | pkg/controller/controller_utils.go:363-373 | counter and UID set change in place, together, and only for an outstanding UID |
| ExpectationsImpl.UIDTracking.DeleteExpectations | pkg/controller/controller_utils.go:377-387 | both stores lose the key |
| ExpectationsImpl.UIDTracking.ExpectCreations | pkg/controller/controller_utils.go:228-230 | the counters are replaced and the UIDs stay; CreationCountdown says what that makes of the observations that follow |
| ExpectationsImpl.UIDTracking.SatisfiedExpectations | pkg/controller/controller_utils.go:187-212 | the branches decide satisfaction as specified on the two maps |
| PodOrderings.PodReadyTime | pkg/controller/controller_utils.go:841-851 | the search for a ready and true condition finds the transition time of the first ready condition, zero if the pod is not ready |
| PodOrderings.MaxContainerRestarts | pkg/controller/controller_utils.go:853-859 | the loop computes the maximum specified by MaxRestarts |
| PodOrderings.MaxRestarts | pkg/controller/controller_utils.go:853-859 | an upper bound of the restart counts that is zero or one of them |
| PodOrderings.ActiveLessIsRanked | pkg/controller/controller_utils.go:798-839 | the branches compare an eight-part rank in dictionary order: unassigned, phase, readiness, newest ready, restarts, newest created |
| PodOrderings.LoggingLessIsRanked | pkg/controller/controller_utils.go:761-790 | the branches compare the rank of the logging order in dictionary order |
| PodOrderings.ActiveLessIsStrictWeak | pkg/controller/controller_utils.go:798-839 | the comparator is a strict weak order on all pods, with zero times and unlisted phases, and ties are equal ranks |
| PodOrderings.LoggingLessIsStrictWeak | pkg/controller/controller_utils.go:761-790 | likewise for the logging order |
| PodOrderings.PhasesDecide | pkg/controller/controller_utils.go:761-839 | among pods placed alike the phase decides first: pending, unknown, running for deletion, and the reverse for logs |
| PodOrderings.UnlistedPhasesTie | pkg/controller/controller_utils.go:761-839 | phases that are not listed count like pending for deletion and like running for logs |
| PodOrderings.ReadyIff | pkg/api/v1/pod/util.go:242-281 | a pod is ready if and only if its first ready condition is true |
| PodOrderings.CreationLessIsRanked | pkg/controller/controller_utils.go:927-932 | replica sets by time and then name |
| PodOrderings.SizeOlderIsRanked | pkg/controller/controller_utils.go:940-945 | larger sets first, then older, then by name |
| PodOrderings.SizeNewerReversesAge | pkg/controller/controller_utils.go:953-958 | larger sets first, and among equal sizes the reverse of the order by age |
| PodOrderings.CreationLessIsStrictWeak | pkg/controller/controller_utils.go:927-932 | a strict weak order in which only equal time and name tie |
| PodOrderings.SizeOlderIsStrictWeak | pkg/controller/controller_utils.go:940-945 | a strict weak order in which only equal size, time and name tie |
| PodOrderings.SizeNewerIsStrictWeak | pkg/controller/controller_utils.go:953-958 | a strict weak order in which only equal size, time and name tie |
| ControllerRef.ControllerOf | staging/src/k8s.io/apimachinery/pkg/apis/meta/v1/controller_ref.go:34-41 | a controller reference of the object, none only if there is none |
| ControllerRef.CountIsAtMostOne | staging/src/k8s.io/apimachinery/pkg/api/validation/objectmeta.go:84-99 | the counting check accepts exactly the lists without two controllers |
| ControllerRef.MergedKeepsOthers | pkg/controller/controller_ref_manager.go:211-222 | adopting keeps the references of all others and makes the manager the controller of an orphan |
| ControllerRef.OthersIsReleased | pkg/controller/controller_ref_manager.go:226-249 | releasing keeps the references of all others, is idempotent and leaves the manager's object without a controller |
| ControllerRef.ClaimObjectFacts | pkg/controller/controller_ref_manager.go:67-120 | a claim from any snapshot touches only its object, keeps the server valid, and makes the CanAdopt check at most once per manager |
| ControllerRef.ClaimTells | pkg/controller/controller_ref_manager.go:67-249 | for all servers, snapshots and lost messages, a claim succeeds if and only if the pod is a match already, or its adoption is allowed, arrives, finds the same incarnation without another controller, and is answered; it fails if and only if the check is denied, a message is lost or the server refuses it |
| ControllerRef.ClaimDoes | pkg/controller/controller_ref_manager.go:211-249 | a request that arrives takes effect even if its answer is lost: a released pod keeps no reference of the manager, an adopted one is controlled by it |
| ControllerRef.ClaimAllTells | pkg/controller/controller_ref_manager.go:172-207 | for all servers, lists and lost messages, ClaimPods returns in input order exactly the pods whose claims succeed and counts exactly those that fail, each judged in the world left by the ones before |
| ControllerRef.ClaimedAreOwned | pkg/controller/controller_ref_manager.go:172-207 | in the end each pod returned was a match already in its snapshot or is controlled by the manager on the server, and objects not in the list are untouched |
| ControllerRef.RecordIsJustified | pkg/controller/controller_ref_manager.go:67-120 | a write hits the snapshot's incarnation and leaves foreign references alone; an adoption needs a matching live orphan and the passed check, a release an own object that no longer matches |
| ControllerRef.NextKeepsInv | pkg/controller/controller_ref_manager.go:43-249 | every step of every manager and of other clients keeps validity, the one-check rule and the justification of all past writes |
| ControllerRef.ManagersAreSafe | pkg/controller/controller_ref_manager.go:43-249 | for any number of managers with arbitrary snapshots: in every reachable state no object has two controllers and every write of a manager was justified |
| ControllerRef.ClaimsAreLogged | pkg/controller/controller_ref_manager.go:43-249 | the log that safety speaks of has every write of a manager and nothing else, with the snapshot and the object before and after; a claim writes to its own object only |
| ControllerRef.OthersAreFree | pkg/controller/controller_ref_manager.go:43-249 | what is allowed to interfere: new managers, any deletion, and any write in which no two references are controllers |
| ControllerRef.SettledIsStable | pkg/controller/controller_ref_manager.go:67-120 | on the object a claim leaves behind the next decision is to keep it or to ignore it |
| ControllerRef.SettledOutcome | pkg/controller/controller_ref_manager.go:52-120 | afterwards the manager controls nothing that it does not select and every live orphan that it does; objects of other controllers are unchanged |
| ControllerRef.ClaimUndisturbed | pkg/controller/controller_ref_manager.go:67-120 | an undisturbed claim settles the object and reports it claimed if and only if it matches and is owned afterwards |
| ControllerRef.ClaimAllIsExact | pkg/controller/controller_ref_manager.go:172-207 | undisturbed, ClaimPods returns in input order exactly the pods that match and are owned afterwards, and touches no other object |
| ControllerRef.SettledClaimsAreFree | pkg/controller/controller_ref_manager.go:172-207 | on settled objects nothing is sent or asked, whatever the outside would answer |
| ControllerRef.SecondRunIsFree | pkg/controller/controller_ref_manager.go:172-207 | a second run on the refreshed list sends no patch, changes nothing and claims the same pods |
| ControllerRefImpl.RefManager.CanAdopt | pkg/controller/controller_ref_manager.go:43-50 | the check is made once and its answer cached |
| ControllerRefImpl.RefManager.AdoptPod | pkg/controller/controller_ref_manager.go:211-222 | the error and the server afterwards are those of the adoption function; ClaimTells says when it adopts and when it fails |
| ControllerRefImpl.RefManager.ReleasePod | pkg/controller/controller_ref_manager.go:226-249 | missing objects, changed UIDs and objects without references are no errors |
| ControllerRefImpl.RefManager.ClaimObject | pkg/controller/controller_ref_manager.go:67-120 | the branches claim, fail and change the server as the claim function says; ClaimTells and ClaimDoes say when and what |
| ControllerRefImpl.RefManager.ClaimPods | pkg/controller/controller_ref_manager.go:172-207 | the loop collects the claimed pods and counts the errors of all objects, going on after an error; ClaimAllTells says which pods those are |
| NodeQueue.NextKeepsCounted | pkg/kubemark/controller.go:174-207 | each step of the caller or the worker keeps the balance of one group's counter |
| NodeQueue.NextKeepsInv | pkg/kubemark/controller.go:163-353 | every step keeps the balance for all groups and the channel's capacity |
| NodeQueue.CounterIsExact | pkg/kubemark/controller.go:337-353 | over every run, whenever the lock is free, a group's counter is its entries in the channel or taken, plus all creations that ever failed |
| NodeQueue.RunAddsUp | pkg/kubemark/controller.go:196-353 | over every run a group's counter is raised once per node asked for and lowered once per node created; a failed creation never comes off it |
| NodeQueue.SendNeverBlocks | pkg/kubemark/controller.go:198-203 | a request that fits the free slots never blocks on a send, whatever the worker does |
| NodeQueue.NegativeSlackNeverUnlocks | pkg/kubemark/controller.go:174-207 | a request that exceeds the free slots and the worker's hand keeps the lock for ever |
| NodeQueue.SlackMeansProgress | pkg/kubemark/controller.go:174-207 | otherwise some step is always possible and every step of the threads brings the unlocking nearer |
| NodeQueue.UnlocksIff | pkg/kubemark/controller.go:174-207 | the lock can be released again if and only if the slack is not negative |
| NodeQueue.FreshControllerLocksUpIff | pkg/kubemark/controller.go:104 | a fresh controller locks up on a request if and only if it asks for more than 1001 nodes |
| NodeQueue.SectionGrows | pkg/kubemark/controller.go:198-203 | a critical section that ends has counted exactly the requested number of nodes, for its group only |
| NodeQueue.TargetIsRequestedIff | pkg/kubemark/controller.go:174-207 | after reading the target in one critical section and growing in another the target is the requested size if and only if what others added in between equals what was created and is not, or not any more, listed since |
| NodeQueue.TargetIsBounded | pkg/kubemark/controller.go:162-171 | over every run the reported target is what the group was grown to, less the created nodes that are not listed, and never exceeds it |
| NodeQueue.UndisturbedReaches | pkg/kubemark/controller.go:174-207 | with nobody in between and a lister that stands still for the group the target is the requested size |
| NodeQueue.TwoCallersOvershoot | pkg/kubemark/controller.go:174-207 | for up to 500 nodes, a run in which two callers that read the same target both add the whole difference |
| NodeQueue.Controller.GetNodeGroupTargetSize | pkg/kubemark/controller.go:163-171 | the target is the listed nodes, the entries on their way and every creation that ever failed |
| NodeQueue.Controller.Grow | pkg/kubemark/controller.go:198-205 | for any difference the loop is a run of the state machine; it blocks if and only if the difference exceeds the free slots and the entry an idle worker can take, else the target grows by the difference and other groups are untouched |
| NodeQueue.Controller.SetNodeGroupSize | pkg/kubemark/controller.go:174-207 | each outcome if and only if its condition holds: a growing group reaches the requested target or blocks, a shrinking one loses as many of its first pods as are too many, or none if there are too few |
| Keyring.KeyIgnoresSchemeAndVersion | pkg/credentialprovider/keyring.go:94-135 | locations with either scheme or none, and with either API version in front of the path or none, are one and the same key |
| Keyring.SplitJoins | pkg/credentialprovider/keyring.go:195-203 | splitting is undone by joining and no part contains the separator |
| Keyring.UrlsMatch | pkg/credentialprovider/keyring.go:225-253 | the loop answers true if and only if port and number of host parts are equal, the path is a prefix and every part is matched by its own glob; an error if and only if a bad glob comes after matching parts |
| Keyring.AgreementIsDownward | pkg/credentialprovider/keyring.go:225-253 | a key matches itself and everything below what it matches, and never another port, another number of host parts or a path that does not begin with its own |
| Keyring.UrlsMatchStr | pkg/credentialprovider/keyring.go:205-215 | true if and only if key and image are both URLs that agree in this sense |
| Keyring.DefaultRegistryIff | pkg/credentialprovider/keyring.go:158-180 | an image is of the default registry if and only if the text before its first slash is not empty and is the whole name, a host of the default registry, or without dot and colon |
| Keyring.CredentialOf | pkg/credentialprovider/keyring.go:84-107 | an entry with a provider is resolved by it later, any other one is its own credential |
| Keyring.SortKeys | pkg/credentialprovider/keyring.go:140-147 | the index has each key once, in strictly descending order |
| Keyring.KeysComeBeforePrefixes | pkg/credentialprovider/keyring.go:143-147 | in the index a key comes before all its proper prefixes |
| Keyring.ScanSelects | pkg/credentialprovider/keyring.go:258-281 | scanning everything ever added keeps, per key, the order of addition |
| Keyring.CollectSelects | pkg/credentialprovider/keyring.go:262-270 | walking an index without duplicates finds each matching key's entries once |
| Keyring.CollectIsSortedScan | pkg/credentialprovider/keyring.go:258-281 | walking the sorted index finds the same entries in the same order as scanning everything ever added and sorting it stably by key |
| Keyring.BasicDockerKeyring.Add | pkg/credentialprovider/keyring.go:94-148 | over any sequence of calls the index is the key set in descending order and each key holds what was added under it, in order; bad locations are skipped |
| Keyring.BasicDockerKeyring.AddEntries | pkg/credentialprovider/keyring.go:99-138 | the loop records each entry under its key in order of addition, ignores the unparsable ones, and keeps index and map in step |
| Keyring.BasicDockerKeyring.CollectMatches | pkg/credentialprovider/keyring.go:258-270 | the loop collects the credentials of all matching keys in index order |
| Keyring.BasicDockerKeyring.Lookup | pkg/credentialprovider/keyring.go:258-281 | the result is that of the brute-force reference, including the default registry fallback |
| NodeStatus.SortedEqualIffSame | pkg/kubelet/kubelet_node_status.go:647-669 | comparing stably sorted copies without heartbeats decides equality type by type, independent of the order of types |
| NodeStatus.SortedDiffer | pkg/kubelet/kubelet_node_status.go:660-668 | the loop that clears heartbeats as it goes finds a difference if and only if there is one |
| NodeStatus.ConditionsHaveChanged | pkg/kubelet/kubelet_node_status.go:647-669 | reports a change if and only if the conditions differ apart from heartbeats and the order of types |
| NodeStatus.SameConditionsIsEquivalence | pkg/kubelet/kubelet_node_status.go:647-669 | "not changed" is an equivalence, so that skipping many times in a row is harmless |
| NodeStatus.StatusHasChanged | pkg/kubelet/kubelet_node_status.go:623-642 | reports a change if and only if conditions or any other field differ |
| NodeStatus.TryKeepsFaithful | pkg/kubelet/kubelet_node_status.go:412-486 | one attempt keeps the cached status equal, up to heartbeats, to what the server last accepted |
| NodeStatus.RunKeepsFaithful | pkg/kubelet/kubelet_node_status.go:412-486 | so does every run of attempts, with any number of skips and failures |
| NodeStatus.SkippedIffNoNews | pkg/kubelet/kubelet_node_status.go:448-466 | after any run a report is skipped if and only if leases are on, the frequency is kept, and nothing differs from what the server last accepted, or from the node just read if none is cached |
| NodeStatus.OutcomeIff | pkg/kubelet/kubelet_node_status.go:412-486 | after any run each outcome of the next attempt has its exact condition; a failed patch drops the cached node, a taken one caches the server's answer |
| NodeStatus.NothingReported | pkg/kubelet/kubelet_node_status.go:448-486 | over runs in which no patch is taken the report time and the accepted status stay; without skipped reports so do the volumes marked as reported |
| NodeStatus.ReportsAreTracked | pkg/kubelet/kubelet_node_status.go:448-486 | over every run the report time and the accepted status are those of the last patch taken, and the volumes marked as reported are those of the last attempt skipped or taken |
| NodeStatus.Kubelet.TryUpdateNodeStatus | pkg/kubelet/kubelet_node_status.go:412-486 | the method on the shared cached node is the attempt function, including the overwrite of the cached node when nothing is sent |
| ContainerStatus.Convert | pkg/kubelet/kubelet_pods.go:1595-1627 | exactly one of waiting, running and terminated, under the record's name |
| ContainerStatus.ListingOrderIsIrrelevant | pkg/kubelet/kubelet_pods.go:1670-1671 | for distinct creation times the order in which the runtime lists its records does not matter |
| ContainerStatus.FinalIgnoresListing | pkg/kubelet/kubelet_pods.go:1594-1794 | so the resulting status is the same |
| ContainerStatus.NewestDecides | pkg/kubelet/kubelet_pods.go:1672-1742 | the newest record decides the status and the second newest the last termination |
| ContainerStatus.TerminationShown | pkg/kubelet/kubelet_pods.go:1646-1779 | exactly which termination and restart count a result shows: those of the old status without records, else the termination of the newest or second newest record and the newest one's count; a start failure changes none of it |
| ContainerStatus.TerminationIsLostIff | pkg/kubelet/kubelet_pods.go:1672-1742 | a known termination disappears if and only if there are records and the one or two newest are not of a dead instance |
| ContainerStatus.CollectedTerminationIsLost | pkg/kubelet/kubelet_pods.go:1672-1742 | an input for which it does: the dead instance has been collected and its successor runs |
| ContainerStatus.ConversionSettles | pkg/kubelet/kubelet_pods.go:1594-1794 | converting the result again changes something if and only if an old terminated status with other image or ids meets a start failure without records; a third conversion never does |
| ContainerStatus.ConvertShows | pkg/kubelet/kubelet_pods.go:1597-1626 | a record is shown as running, waiting or terminated by its state alone, with its times, exit code, reason, message and ids |
| ContainerStatus.RestartIff | pkg/kubelet/container/helpers.go:64-97 | a container is to be restarted if and only if the pod is not being deleted and its newest record, if any, is not running and has not ended in a way the policy leaves alone |
| ContainerStatus.UnknownContainerWaits | pkg/kubelet/kubelet_pods.go:1639-1780 | a container without records and old status waits with no ids and no restarts, for the init containers if there are any, else for its creation, or with the error of its start |
| ContainerStatus.StartFailureShown | pkg/kubelet/kubelet_pods.go:1739-1780 | a known start failure replaces the state if and only if the container is to be restarted and is no init container that succeeded |
| ContainerStatus.ImageIdIsLostLate | pkg/kubelet/kubelet_pods.go:1646-1664 | an input for which the second conversion loses an image id that the first one kept |
| ContainerStatus.FinalIsWellFormed | pkg/kubelet/kubelet_pods.go:1594-1794 | every resulting state has exactly one of waiting, running and terminated, under the container's name |
| ContainerStatusImpl.SortNewestFirst | pkg/kubelet/kubelet_pods.go:1670-1671 | a permutation in order of creation, newest first |
| ContainerStatusImpl.OldStatuses | pkg/kubelet/kubelet_pods.go:1629-1633 | the map holds the last old status of each name |
| ContainerStatusImpl.Defaults | pkg/kubelet/kubelet_pods.go:1646-1668 | one default status for each container and no other |
| ContainerStatusImpl.MergeRecords | pkg/kubelet/kubelet_pods.go:1672-1742 | the loop with its seen counter uses exactly the first two records of each container |
| ContainerStatusImpl.MarkFailure | pkg/kubelet/kubelet_pods.go:1744-1779 | the container becomes waiting exactly if it should be restarted and a start failure is known |
| ContainerStatusImpl.MarkFailures | pkg/kubelet/kubelet_pods.go:1744-1779 | the pass over all containers applies that once to each |
| ContainerStatusImpl.SortInitStatuses | pkg/kubelet/types/types.go:72-86 | swapping in place puts the statuses in the order of the spec |
| ContainerStatusImpl.ConvertToAPIContainerStatuses | pkg/kubelet/kubelet_pods.go:1594-1794 | each container gets exactly one status, the specified one, in spec order for init containers and else by name, and the shared records are left sorted |
| ContainerStatusImpl.ResultIsNextOld | pkg/kubelet/kubelet_pods.go:1629-1633 | in the next conversion each container finds its own status of this one |
| ContainerStatusImpl.ConvertedCovers | pkg/kubelet/kubelet_pods.go:1541-1554 | the two converted lists together have one well-formed status for each container |
| ContainerStatusImpl.ObservePhase | pkg/kubelet/kubelet_pods.go:1541-1554 | both conversions and getPhase: one well-formed status for each container, none unknown, and a phase that says what it should of the statuses themselves |
| ContainerStatusImpl.PhaseIgnoresListing | pkg/kubelet/kubelet_pods.go:1541-1554 | two listings of the same records with distinct creation times give the same phase |
| ContainerStatusImpl.GeneratePhase | pkg/kubelet/kubelet_pods.go:1354-1396 | from records in whatever order to the reported phase: an eviction fails the pod, else a terminal phase of the API server is kept, else the phase is that of the machine or the one whose exact condition holds of the converted statuses |
| ContainerStatusImpl.GuardPhase | pkg/kubelet/kubelet_pods.go:1359-1396 | an eviction fails the pod, else a terminal phase of the API server stays, else the computed one is reported |
| PodPhase.MeaningIsUnique | pkg/kubelet/kubelet_pods.go:1250-1350 | the meanings of the phases exclude each other |
| PodPhase.GetPhase | pkg/kubelet/kubelet_pods.go:1250-1350 | for every spec and status list the phase returned is the one whose exact condition holds, stated on the statuses: which containers run, wait, have exited, and how |
| PodPhase.JudgeCounts | pkg/kubelet/kubelet_pods.go:1253-1350 | the phase judged by the counters has its meaning on the classes of all containers |
| PodPhase.ClassesSay | pkg/kubelet/kubelet_pods.go:1257-1310 | when a container counts as running, stopped, succeeded, or as an init container that failed or is done, on its status alone |
| PodPhase.MeansSays | pkg/kubelet/kubelet_pods.go:1250-1350 | a phase has its meaning on the classes if and only if its condition holds on the statuses |
| PodPhase.FoundIsOwn | pkg/kubelet/kubelet_pods.go:1541-1554 | in converted statuses the status found under each name is that container's own |
| PodPhase.CountInits | pkg/kubelet/kubelet_pods.go:1253-1278 | the counters are the numbers of pending and failed init containers |
| PodPhase.CountMains | pkg/kubelet/kubelet_pods.go:1285-1310 | the counters are the numbers of containers in each class; ClassesSay states the classes on the statuses |
| PodPhase.CoveredClasses | pkg/api/v1/pod/util.go:207-214 | looking up statuses by name finds each container's own one |
| PodPhase.ConvertedPodSucceedsIff | pkg/kubelet/kubelet_pods.go:1250-1350 | a converted pod has succeeded if and only if the policy is not Always, it has containers, all have terminated with code 0, and every init container has completed or is still retried |
| PodPhase.CoveredPhasesAgree | pkg/kubelet/kubelet_pods.go:1250-1350 | status lists with the same statuses for the containers have the same phase |
| PodPhase.TerminalPhaseOverRuns | pkg/kubelet/kubelet_pods.go:1359-1396 | over all runs of syncs Failed stays, and Succeeded stays until the first eviction and is Failed from then on |

## Left out

- `pkg/cloudfabric-controller` repeats several of these files for other
  resources and is not modelled a second time.
- The commands under `cmd/`, generated code, API machinery and test helpers.
- What a sync does: syncPod, the pod cache, requeue delays in wrapUp, crash
  handling of goroutines and the timeout of killPodNow.
- Cleaning up and renaming after a rolling update, the creation of the target
  controller and ResolveFenceposts, which is a function parameter of Update.
- RollingUpdateImpl.Update: does not model counts whose sums leave the int32 range, nor a negative desired size; readiness counts are bounded so that the decrement is an int32.
- RollingUpdateImpl.Run: likewise; the percentage, where the wrap-around does happen, is modelled with it.
- RollingUpdate.ScaledDownKeepsAvailable: counts old pods by the size of their controller and not by readiness, because the code does.
- The text of annotations is reduced to absent, not a number, or a number.
- Relabel.AddDeploymentKey: assumes that other clients leave the deployment key alone on pods, template and selector (ExtensionIsHarmlessIff says what happens otherwise), that pod ids are not reused, and that the server has defaulted the selector.
- RaiseExpectations, which nothing calls, and the wrap-around of 64-bit counters.
- The bytes of JSON patches; the server's merge is a function on owner references. The managers of replica sets and controller revisions have the same logic as that of pods.
- What removing a kubemark node does on the cluster, and the stop channel.
- url.Parse, net.SplitHostPort and filepath.Match are arbitrary functions; the lazy and the union keyring are not modelled.
- The setters of the node status, which compute an arbitrary status here, node registration and the volume manager; deep equality is equality of values.
- ControllerRef.ClaimedAreOwned: takes the pods of a list to be different objects, as in the cache that they are listed from.
- ContainerStatus.ListingOrderIsIrrelevant: says nothing about two records of one container with the same creation time, for which the sort promises no order.
- ContainerStatusImpl.ConvertToAPIContainerStatuses: takes container names to be distinct, as API validation guarantees; resource fields of in-place scaling, virtual machine statuses and narrowing of exit and restart counts to int32 are not modelled.
- Conditions, addresses and messages in generateAPIPodStatus.
